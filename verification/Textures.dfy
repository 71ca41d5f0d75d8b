/** Cached textures: the glyph page is patched with the rows that changed since
    the version it holds (lib/window/vulkan/vulkan_resources.c). */
module Textures {
  import opened Wire

  const SLOTS: nat := 8
  const MAX_SIDE: nat := 4096
  const MAX_PIXELS: nat := 4 * 1024 * 1024
  const FRAME_PIXELS: nat := 8 * 1024 * 1024 + 256 * 1024 + 2 * 1024 * 1024

  /** A texture and the bytes its image holds; empty while width is 0. */
  datatype Texture = Texture(texel: nat, width: nat, height: nat, version: nat, uploaded: bool, image: seq<byte>)

  /** What a frame asks a texture to hold. Rows top .. bottom changed since
      `base`; top == bottom tells nothing. */
  datatype Source = Source(pixels: seq<byte>, version: nat, base: nat, top: nat, bottom: nat)

  datatype Page = Page(side: nat, source: Source)
  /** The sprite page names no changed rows. */
  datatype Sheet = Sheet(side: nat, pixels: seq<byte>, version: nat)
  /** One of the eight diagram slots: no pixels, or a rectangle of them. */
  datatype Diagram = Diagram(pixels: Option<seq<byte>>, width: nat, height: nat, version: nat)
  datatype Frame = Frame(quads: nat, hasQuads: bool, atlas: Option<Page>, sprites: Option<Sheet>, diagrams: seq<Diagram>)

  datatype Store = Store(atlas: Texture, sprites: Texture, diagrams: seq<Texture>)

  /** The device's limits. */
  datatype Device = Device(maxSide: nat, maxQuads: nat)

  /** Which allocations of one prepare succeed, and what new images hold. */
  datatype Luck = Luck(quads: bool, atlas: bool, sprites: bool, diagrams: seq<bool>, junk: nat -> byte)

  function Area(t: Texture): nat { t.width * t.height }

  function Destroyed(t: Texture): Texture {
    t.(width := 0, height := 0, uploaded := false, image := [])
  }

  /** A new image may hold anything until it is uploaded. */
  function Ensure(t: Texture, width: nat, height: nat, lucky: bool, junk: nat -> byte): (bool, Texture) {
    if t.width == width && t.height == height then (true, t)
    else if lucky then
      (true, Destroyed(t).(width := width, height := height, image := seq<byte>(width * height * t.texel, junk)))
    else (false, Destroyed(t))
  }

  function SheetSource(p: Sheet): Source {
    Source(p.pixels, p.version, 0, 0, 0)
  }

  predicate Matches(t: Texture, s: Source) {
    |t.image| == |s.pixels| == t.width * t.height * t.texel
  }

  /** The rows that are copied: the changed ones when the texture holds the
      version they changed from, else all. */
  predicate Partial(t: Texture, s: Source) {
    t.uploaded && t.version == s.base && s.top < s.bottom <= t.height
  }

  function Upload(t: Texture, s: Source): Texture
    requires Matches(t, s)
  {
    if t.uploaded && t.version == s.version then t
    else
      var row := t.width * t.texel;
      var top, bottom := if Partial(t, s) then s.top else 0, if Partial(t, s) then s.bottom else t.height;
      RowBounds(t, top, bottom);
      t.(image := t.image[..top * row] + s.pixels[top * row..bottom * row] + t.image[bottom * row..],
         version := s.version, uploaded := true)
  }

  lemma RowBounds(t: Texture, top: nat, bottom: nat)
    requires top <= bottom <= t.height
    ensures 0 <= top * (t.width * t.texel) <= bottom * (t.width * t.texel) <= t.width * t.height * t.texel
    ensures t.height * (t.width * t.texel) == t.width * t.height * t.texel
  {
    var row := t.width * t.texel;
    assert bottom * row == top * row + (bottom - top) * row;
    assert t.height * row == bottom * row + (t.height - bottom) * row;
    assert t.height * row == t.width * t.height * t.texel;
  }

  // ---- what the frames promise

  /** Which page a version of a texture is: every frame that names the version
      carries these bytes. */
  type Pages = (nat, nat, nat) -> seq<byte>

  /** The two pages agree but for the bytes from .. to. */
  predicate SameOutside(was: seq<byte>, page: seq<byte>, from: nat, to: nat) {
    |was| == |page| && forall k :: 0 <= k < |was| && !(from <= k < to) ==> was[k] == page[k]
  }

  /** Outside the rows it calls changed, a frame's page is that of its base. */
  ghost predicate Honest(s: Source, width: nat, height: nat, texel: nat, pages: Pages) {
    && s.pixels == pages(s.version, width, height) && |s.pixels| == width * height * texel
    && (s.top < s.bottom <= height ==>
          SameOutside(pages(s.base, width, height), s.pixels, s.top * (width * texel), s.bottom * (width * texel)))
  }

  /** An uploaded texture holds the whole page of its version. */
  ghost predicate Holds(t: Texture, pages: Pages) {
    && |t.image| == t.width * t.height * t.texel
    && (t.uploaded ==> t.image == pages(t.version, t.width, t.height))
  }

  /** Patching the changed rows leaves exactly the page a whole upload leaves. */
  lemma UploadIsWhole(t: Texture, s: Source, pages: Pages)
    requires Holds(t, pages) && Honest(s, t.width, t.height, t.texel, pages)
    ensures Upload(t, s).image == s.pixels && Upload(t, s).uploaded && Upload(t, s).version == s.version
    ensures Holds(Upload(t, s), pages)
  {
    var row := t.width * t.texel;
    if !(t.uploaded && t.version == s.version) {
      RowBounds(t, 0, t.height);
      if Partial(t, s) {
        RowBounds(t, s.top, s.bottom);
        Patched(t.image, s.pixels, s.top * row, s.bottom * row);
      }
    }
  }

  lemma Patched(was: seq<byte>, page: seq<byte>, from: nat, to: nat)
    requires SameOutside(was, page, from, to) && from <= to <= |page|
    ensures was[..from] + page[from..to] + was[to..] == page
  {
    assert was[..from] == page[..from] && was[to..] == page[to..];
    assert page == page[..from] + page[from..to] + page[to..];
  }

  // ---- one frame

  /** The host's own check of the diagram slots. */
  predicate DiagramOk(d: Diagram, maxSide: nat) {
    if d.pixels.None? then d.width == 0 && d.height == 0 && d.version == 0
    else 1 <= d.width <= MAX_SIDE && 1 <= d.height <= MAX_SIDE && d.version != 0
         && d.width <= maxSide && d.height <= maxSide && d.width * d.height <= MAX_PIXELS
  }

  function DiagramArea(diagrams: seq<Diagram>): nat {
    if diagrams == [] then 0 else diagrams[0].width * diagrams[0].height + DiagramArea(diagrams[1..])
  }

  predicate DiagramsValid(diagrams: seq<Diagram>, maxSide: nat) {
    (forall i :: 0 <= i < |diagrams| ==> DiagramOk(diagrams[i], maxSide)) && DiagramArea(diagrams) <= FRAME_PIXELS
  }

  predicate Obsolete(t: Texture, d: Diagram) {
    d.pixels.None? || t.width != d.width || t.height != d.height
  }

  function Drop(ts: seq<Texture>, ds: seq<Diagram>): (r: seq<Texture>)
    requires |ts| == |ds|
    ensures |r| == |ts|
  {
    seq(|ts|, i requires 0 <= i < |ts| => if Obsolete(ts[i], ds[i]) then Destroyed(ts[i]) else ts[i])
  }

  /** Slots from `i` on get images of their sizes, up to the first failure. */
  function EnsureDiagrams(ts: seq<Texture>, ds: seq<Diagram>, luck: Luck, i: nat): (r: (bool, seq<Texture>))
    requires |ts| == |ds| == |luck.diagrams| && i <= |ts|
    ensures |r.1| == |ts|
    decreases |ts| - i
  {
    if i == |ts| then (true, ts)
    else if ds[i].pixels.None? then EnsureDiagrams(ts, ds, luck, i + 1)
    else
      var (ok, t) := Ensure(ts[i], ds[i].width, ds[i].height, luck.diagrams[i], luck.junk);
      if ok then EnsureDiagrams(ts[i := t], ds, luck, i + 1) else (false, ts[i := t])
  }

  function DiagramSource(d: Diagram): Source
    requires d.pixels.Some?
  {
    Source(d.pixels.value, d.version, 0, 0, 0)
  }

  function UploadDiagram(t: Texture, d: Diagram): Texture
    requires d.pixels.Some? ==> Matches(t, DiagramSource(d))
  {
    if d.pixels.Some? then Upload(t, DiagramSource(d)) else t
  }

  function UploadDiagrams(ts: seq<Texture>, ds: seq<Diagram>): (r: seq<Texture>)
    requires |ts| == |ds|
    requires forall i :: 0 <= i < |ts| && ds[i].pixels.Some? ==> Matches(ts[i], DiagramSource(ds[i]))
    ensures |r| == |ts|
  {
    seq(|ts|, i requires 0 <= i < |ts| && (ds[i].pixels.Some? ==> Matches(ts[i], DiagramSource(ds[i]))) =>
      UploadDiagram(ts[i], ds[i]))
  }

  /** Whether the frame draws sprites of its own. */
  predicate HasSprites(f: Frame) {
    f.sprites.Some? && f.sprites.value.side != 0
  }

  predicate Drawable(f: Frame, device: Device) {
    && f.hasQuads && f.atlas.Some? && 1 <= f.atlas.value.side <= device.maxSide && f.quads <= device.maxQuads
    && (HasSprites(f) ==> f.sprites.value.side <= device.maxSide)
  }

  /** Every fallible allocation, in order, before any upload. */
  function Allocate(s: Store, f: Frame, luck: Luck): (r: (bool, Store))
    requires |s.diagrams| == |f.diagrams| == |luck.diagrams| && f.atlas.Some?
  {
    if !luck.quads then (false, s)
    else
      var (ok, atlas) := Ensure(s.atlas, f.atlas.value.side, f.atlas.value.side, luck.atlas, luck.junk);
      var a := s.(atlas := atlas);
      if !ok then (false, a)
      else
        var (ok, sprites) :=
          if HasSprites(f) then Ensure(s.sprites, f.sprites.value.side, f.sprites.value.side, luck.sprites, luck.junk)
          else (true, s.sprites);
        var b := a.(sprites := sprites);
        if !ok then (false, b)
        else
          var (ok, diagrams) := EnsureDiagrams(s.diagrams, f.diagrams, luck, 0);
          (ok, b.(diagrams := diagrams))
  }

  predicate AllMatch(s: Store, f: Frame) {
    && f.atlas.Some? && Matches(s.atlas, f.atlas.value.source)
    && (HasSprites(f) ==> Matches(s.sprites, SheetSource(f.sprites.value)))
    && |s.diagrams| == |f.diagrams|
    && (forall i :: 0 <= i < |s.diagrams| && f.diagrams[i].pixels.Some? ==> Matches(s.diagrams[i], DiagramSource(f.diagrams[i])))
  }

  function UploadAll(s: Store, f: Frame): Store
    requires AllMatch(s, f)
  {
    Store(Upload(s.atlas, f.atlas.value.source),
          if HasSprites(f) then Upload(s.sprites, SheetSource(f.sprites.value)) else s.sprites,
          UploadDiagrams(s.diagrams, f.diagrams))
  }

  /** A frame's pointers lead to as many bytes as its sizes say. */
  predicate FrameSized(f: Frame) {
    && |f.diagrams| == SLOTS
    && (f.atlas.Some? ==> |f.atlas.value.source.pixels| == f.atlas.value.side * f.atlas.value.side)
    && (f.sprites.Some? ==> |f.sprites.value.pixels| == f.sprites.value.side * f.sprites.value.side * 4)
    && (forall i :: 0 <= i < SLOTS && f.diagrams[i].pixels.Some? ==>
          |f.diagrams[i].pixels.value| == f.diagrams[i].width * f.diagrams[i].height * 4)
  }

  predicate Sized(t: Texture, texel: nat) {
    t.texel == texel && |t.image| == t.width * t.height * t.texel
  }

  predicate StoreSized(s: Store) {
    Sized(s.atlas, 1) && Sized(s.sprites, 4) && |s.diagrams| == SLOTS && forall i :: 0 <= i < SLOTS ==> Sized(s.diagrams[i], 4)
  }

  function Prepare(s: Store, f: Frame, device: Device, luck: Luck): (bool, Store)
    requires StoreSized(s) && FrameSized(f) && |luck.diagrams| == SLOTS
  {
    if !DiagramsValid(f.diagrams, device.maxSide) then (false, s)
    else
      var dropped := s.(diagrams := Drop(s.diagrams, f.diagrams));
      if f.quads == 0 then (true, dropped)
      else if !Drawable(f, device) then (false, dropped)
      else
        var (ok, ready) := Allocate(dropped, f, luck);
        if !ok then (false, ready)
        else
          AllocatedMatches(s, f, luck);
          (true, UploadAll(ready, f))
  }

  lemma {:induction false} EnsuredSized(ts: seq<Texture>, ds: seq<Diagram>, luck: Luck, i: nat)
    requires |ts| == |ds| == |luck.diagrams| && i <= |ts|
    requires forall j :: 0 <= j < |ts| ==> Sized(ts[j], 4)
    requires forall j :: 0 <= j < i && ds[j].pixels.Some? ==> ts[j].width == ds[j].width && ts[j].height == ds[j].height
    ensures var (ok, r) := EnsureDiagrams(ts, ds, luck, i);
      && (forall j :: 0 <= j < |r| ==> Sized(r[j], 4))
      && (ok ==> forall j :: 0 <= j < |r| && ds[j].pixels.Some? ==> r[j].width == ds[j].width && r[j].height == ds[j].height)
    decreases |ts| - i
  {
    if i < |ts| {
      if ds[i].pixels.None? {
        EnsuredSized(ts, ds, luck, i + 1);
      } else {
        var (ok, t) := Ensure(ts[i], ds[i].width, ds[i].height, luck.diagrams[i], luck.junk);
        if ok {
          EnsuredSized(ts[i := t], ds, luck, i + 1);
        }
      }
    }
  }

  lemma AllocatedMatches(s: Store, f: Frame, luck: Luck)
    requires StoreSized(s) && FrameSized(f) && |luck.diagrams| == SLOTS && f.atlas.Some?
    ensures var (ok, r) := Allocate(s.(diagrams := Drop(s.diagrams, f.diagrams)), f, luck);
      StoreSized(r) && (ok ==> AllMatch(r, f))
  {
    EnsuredSized(Drop(s.diagrams, f.diagrams), f.diagrams, luck, 0);
  }

  // ---- when a prepare succeeds, and what it leaves alone

  predicate HasSize(t: Texture, width: nat, height: nat) {
    t.width == width && t.height == height
  }

  /** A frame is prepared exactly when the host's check of its diagrams passes and
      either it draws nothing, or its quads and its glyph page are there and within the
      device's limits, its sprite page, if any, is too, and every allocation that is needed
      succeeds: one for each page or diagram that is not held at its size already. */
  predicate Prepared(s: Store, f: Frame, device: Device, luck: Luck)
    requires |s.diagrams| == |f.diagrams| == |luck.diagrams|
  {
    && (forall i :: 0 <= i < |f.diagrams| ==> DiagramOk(f.diagrams[i], device.maxSide))
    && DiagramArea(f.diagrams) <= FRAME_PIXELS
    && (f.quads > 0 ==>
          && f.hasQuads && f.quads <= device.maxQuads && luck.quads
          && f.atlas.Some? && 1 <= f.atlas.value.side <= device.maxSide
          && (luck.atlas || HasSize(s.atlas, f.atlas.value.side, f.atlas.value.side))
          && (f.sprites.Some? && f.sprites.value.side > 0 ==>
                f.sprites.value.side <= device.maxSide
                && (luck.sprites || HasSize(s.sprites, f.sprites.value.side, f.sprites.value.side)))
          && (forall i :: 0 <= i < |f.diagrams| && f.diagrams[i].pixels.Some? ==>
                luck.diagrams[i] || HasSize(s.diagrams[i], f.diagrams[i].width, f.diagrams[i].height)))
  }

  lemma {:induction false} DiagramsEnsured(ts: seq<Texture>, ds: seq<Diagram>, luck: Luck, i: nat)
    requires |ts| == |ds| == |luck.diagrams| && i <= |ts|
    ensures EnsureDiagrams(ts, ds, luck, i).0 <==>
      forall j :: i <= j < |ts| && ds[j].pixels.Some? ==> luck.diagrams[j] || HasSize(ts[j], ds[j].width, ds[j].height)
    decreases |ts| - i
  {
    if i < |ts| {
      if ds[i].pixels.None? {
        DiagramsEnsured(ts, ds, luck, i + 1);
      } else {
        var (ok, t) := Ensure(ts[i], ds[i].width, ds[i].height, luck.diagrams[i], luck.junk);
        if ok {
          DiagramsEnsured(ts[i := t], ds, luck, i + 1);
        }
      }
    }
  }

  lemma PrepareSucceedsIff(s: Store, f: Frame, device: Device, luck: Luck)
    requires StoreSized(s) && FrameSized(f) && |luck.diagrams| == SLOTS
    ensures Prepare(s, f, device, luck).0 <==> Prepared(s, f, device, luck)
  {
    var dropped := s.(diagrams := Drop(s.diagrams, f.diagrams));
    if DiagramsValid(f.diagrams, device.maxSide) {
      DiagramsEnsured(dropped.diagrams, f.diagrams, luck, 0);
      forall i | 0 <= i < SLOTS && f.diagrams[i].pixels.Some?
        ensures HasSize(dropped.diagrams[i], f.diagrams[i].width, f.diagrams[i].height)
           <==> HasSize(s.diagrams[i], f.diagrams[i].width, f.diagrams[i].height)
      {
        assert DiagramOk(f.diagrams[i], device.maxSide);
      }
    }
    hide EnsureDiagrams, UploadAll, StoreSized;
  }

  /** What a texture keeps through a prepare that does not upload it. */
  predicate KeptOrEmptied(before: Texture, after: Texture) {
    after == before || (!after.uploaded && after.texel == before.texel)
  }

  lemma {:induction false} DiagramsCommitNothing(ts: seq<Texture>, ds: seq<Diagram>, luck: Luck, i: nat)
    requires |ts| == |ds| == |luck.diagrams| && i <= |ts|
    ensures var r := EnsureDiagrams(ts, ds, luck, i).1;
      forall j :: 0 <= j < |ts| ==> KeptOrEmptied(ts[j], r[j])
    decreases |ts| - i
  {
    if i < |ts| {
      if ds[i].pixels.None? {
        DiagramsCommitNothing(ts, ds, luck, i + 1);
      } else {
        var (ok, t) := Ensure(ts[i], ds[i].width, ds[i].height, luck.diagrams[i], luck.junk);
        if ok {
          DiagramsCommitNothing(ts[i := t], ds, luck, i + 1);
        }
      }
    }
  }

  /** A prepare that fails commits no version: what it made or lost is to be
      uploaded whole by the next. One that does not draw touches no page, and of the
      diagrams only those that are gone or of another size. */
  lemma UndrawnLeavesPages(s: Store, f: Frame, device: Device, luck: Luck)
    requires StoreSized(s) && FrameSized(f) && |luck.diagrams| == SLOTS
    ensures var (ok, t) := Prepare(s, f, device, luck);
      && |t.diagrams| == SLOTS
      && (!ok ==> KeptOrEmptied(s.atlas, t.atlas) && KeptOrEmptied(s.sprites, t.sprites)
                  && forall i :: 0 <= i < SLOTS ==> KeptOrEmptied(s.diagrams[i], t.diagrams[i]))
      && (ok && f.quads == 0 ==>
            t.atlas == s.atlas && t.sprites == s.sprites
            && forall i :: 0 <= i < SLOTS ==>
                 if f.diagrams[i].pixels.Some? && HasSize(s.diagrams[i], f.diagrams[i].width, f.diagrams[i].height)
                 then t.diagrams[i] == s.diagrams[i]
                 else HasSize(t.diagrams[i], 0, 0) && t.diagrams[i].image == [] && !t.diagrams[i].uploaded)
      && (ok && !(f.sprites.Some? && f.sprites.value.side > 0) ==> t.sprites == s.sprites)
  {
    var dropped := s.(diagrams := Drop(s.diagrams, f.diagrams));
    DiagramsCommitNothing(dropped.diagrams, f.diagrams, luck, 0);
    hide EnsureDiagrams, DiagramsValid, Upload;
  }

  /** An upload leaves a texture that holds its version alone, copies exactly the
      changed rows to one that holds the base version, and the whole page to any other. */
  lemma UploadRows(t: Texture, s: Source, k: nat)
    requires Matches(t, s) && k < |t.image|
    ensures var u := Upload(t, s);
      var row := t.width * t.texel;
      && u.width == t.width && u.height == t.height && u.texel == t.texel && |u.image| == |t.image|
      && u.uploaded && u.version == s.version
      && u.image[k] ==
           if t.uploaded && t.version == s.version then t.image[k]
           else if t.uploaded && t.version == s.base && s.top < s.bottom <= t.height && !(s.top * row <= k < s.bottom * row)
           then t.image[k] else s.pixels[k]
  {
    RowBounds(t, 0, t.height);
    if Partial(t, s) {
      RowBounds(t, s.top, s.bottom);
    }
  }
}
