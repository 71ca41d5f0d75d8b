/** The renderer's resources, updated in place frame by frame
    (lib/window/vulkan/vulkan_resources.c), proved to take exactly the steps the
    run theorems are about. */
module Resources {
  import opened Wire
  import opened Textures
  import opened TextureRuns

  class Pool {
    var atlas: Texture
    var sprites: Texture
    const diagrams: array<Texture>
    const device: Device

    function Contents(): Store
      reads this, diagrams
    {
      Store(atlas, sprites, diagrams[..])
    }

    ghost predicate Valid()
      reads this, diagrams
    {
      diagrams.Length == SLOTS && StoreSized(Contents())
    }

    constructor (device: Device)
      ensures Valid() && Contents() == Initial() && this.device == device && fresh(diagrams)
    {
      this.device := device;
      atlas, sprites := Blank(1), Blank(4);
      diagrams := new Texture[SLOTS](_ => Blank(4));
      new;
      assert diagrams[..] == Initial().diagrams;
    }

    /** Copies the rows to upload through the staging buffer, at the same offset
        in both. `stale` is what the buffer held. */
    method UploadTexture(t: Texture, s: Source, stale: seq<byte>) returns (r: Texture)
      requires Matches(t, s) && |stale| == |t.image|
      ensures r == Upload(t, s)
      ensures t.uploaded && t.version == s.version ==> r == t
      ensures !(t.uploaded && t.version == s.version) ==>
        |r.image| == |t.image|
        && forall k :: 0 <= k < |t.image| ==>
             r.image[k] == if t.uploaded && t.version == s.base && s.top < s.bottom <= t.height
                              && !(s.top * (t.width * t.texel) <= k < s.bottom * (t.width * t.texel))
                           then t.image[k] else s.pixels[k]
    {
      forall k | 0 <= k < |t.image| { UploadRows(t, s, k); }

      if t.uploaded && t.version == s.version {
        return t;
      }
      var top, bottom := 0, t.height;
      if t.uploaded && t.version == s.base && s.top < s.bottom && s.bottom <= t.height {
        top, bottom := s.top, s.bottom;
      }
      var rowBytes := t.width * t.texel;
      RowBounds(t, top, bottom);
      var from, to := top * rowBytes, bottom * rowBytes;
      var staging := stale[..from] + s.pixels[from..to] + stale[to..];
      assert staging[from..to] == s.pixels[from..to];
      r := t.(image := t.image[..from] + staging[from..to] + t.image[to..], version := s.version, uploaded := true);
    }

    method DropObsolete(f: Frame)
      requires Valid() && |f.diagrams| == SLOTS
      modifies diagrams
      ensures diagrams[..] == Drop(old(diagrams[..]), f.diagrams)
      ensures forall i :: 0 <= i < SLOTS ==>
        if f.diagrams[i].pixels.Some? && HasSize(old(diagrams[i]), f.diagrams[i].width, f.diagrams[i].height)
        then diagrams[i] == old(diagrams[i])
        else HasSize(diagrams[i], 0, 0) && diagrams[i].image == [] && !diagrams[i].uploaded
    {
      for i := 0 to SLOTS
        invariant forall j :: 0 <= j < SLOTS ==>
          diagrams[j] == if j < i && Obsolete(old(diagrams[j]), f.diagrams[j]) then Destroyed(old(diagrams[j])) else old(diagrams[j])
      {
        if f.diagrams[i].pixels.None? || diagrams[i].width != f.diagrams[i].width || diagrams[i].height != f.diagrams[i].height {
          diagrams[i] := Destroyed(diagrams[i]);
        }
      }
    }

    method AllocateDiagrams(f: Frame, luck: Luck) returns (ok: bool)
      requires diagrams.Length == SLOTS && |f.diagrams| == |luck.diagrams| == SLOTS
      modifies diagrams
      ensures (ok, diagrams[..]) == EnsureDiagrams(old(diagrams[..]), f.diagrams, luck, 0)
    {
      for i := 0 to SLOTS
        invariant EnsureDiagrams(old(diagrams[..]), f.diagrams, luck, 0) == EnsureDiagrams(diagrams[..], f.diagrams, luck, i)
      {
        var source := f.diagrams[i];
        if source.pixels.Some? {
          var (good, t) := Ensure(diagrams[i], source.width, source.height, luck.diagrams[i], luck.junk);
          ghost var was := diagrams[..];
          diagrams[i] := t;
          assert diagrams[..] == was[i := t];
          if !good {
            return false;
          }
        }
      }
      ok := true;
    }

    method AllocateAll(f: Frame, luck: Luck) returns (ok: bool)
      requires diagrams.Length == SLOTS && |f.diagrams| == |luck.diagrams| == SLOTS && f.atlas.Some?
      modifies this`atlas, this`sprites, diagrams
      ensures (ok, Contents()) == Allocate(old(Contents()), f, luck)
    {
      hide Ensure, EnsureDiagrams;
      if !luck.quads {
        return false;
      }
      var side := f.atlas.value.side;
      var (goodAtlas, page) := Ensure(atlas, side, side, luck.atlas, luck.junk);
      atlas := page;
      if !goodAtlas {
        return false;
      }
      if HasSprites(f) {
        var sheetSide := f.sprites.value.side;
        var (goodSprites, sheet) := Ensure(sprites, sheetSide, sheetSide, luck.sprites, luck.junk);
        sprites := sheet;
        if !goodSprites {
          return false;
        }
      }
      ok := AllocateDiagrams(f, luck);
    }

    method UploadDiagramSlots(f: Frame, stale: nat -> seq<byte>)
      requires diagrams.Length == SLOTS && |f.diagrams| == SLOTS
      requires forall i :: 0 <= i < SLOTS && f.diagrams[i].pixels.Some? ==> Matches(diagrams[i], DiagramSource(f.diagrams[i]))
      requires forall n :: |stale(n)| == n
      modifies diagrams
      ensures diagrams[..] == UploadDiagrams(old(diagrams[..]), f.diagrams)
    {
      hide Upload;
      ghost var was := diagrams[..];
      for i := 0 to SLOTS
        invariant forall j :: 0 <= j < SLOTS ==>
          diagrams[j] == if j < i then UploadDiagram(was[j], f.diagrams[j]) else was[j]
      {
        if f.diagrams[i].pixels.Some? {
          diagrams[i] := UploadTexture(diagrams[i], DiagramSource(f.diagrams[i]), stale(|diagrams[i].image|));
        }
      }
    }

    method UploadEverything(f: Frame, stale: nat -> seq<byte>)
      requires Valid() && AllMatch(Contents(), f) && |f.diagrams| == SLOTS && forall n :: |stale(n)| == n
      modifies this`atlas, this`sprites, diagrams
      ensures Valid() && Contents() == UploadAll(old(Contents()), f)
    {
      hide Upload;
      ghost var ready := Contents();
      atlas := UploadTexture(atlas, f.atlas.value.source, stale(|atlas.image|));
      if HasSprites(f) {
        sprites := UploadTexture(sprites, SheetSource(f.sprites.value), stale(|sprites.image|));
      }
      UploadDiagramSlots(f, stale);
      UploadSized(ready, f);
    }

    /** One frame: the diagrams are checked, obsolete ones dropped, everything
        fallible allocated, and only then the changed pages uploaded. */
    method PrepareFrame(f: Frame, luck: Luck, stale: nat -> seq<byte>) returns (ok: bool)
      requires Valid() && FrameSized(f) && |luck.diagrams| == SLOTS && forall n :: |stale(n)| == n
      modifies this`atlas, this`sprites, diagrams
      ensures Valid() && (ok, Contents()) == Prepare(old(Contents()), f, device, luck)
      ensures ok <==> Prepared(old(Contents()), f, device, luck)
    {
      PrepareSucceedsIff(Contents(), f, device, luck);
      hide DiagramsValid, Drawable, Allocate, UploadAll, AllMatch, Drop, Prepared;
      if !DiagramsValid(f.diagrams, device.maxSide) {
        return false;
      }
      ghost var start := Contents();
      DropObsolete(f);
      ghost var dropped := Contents();
      assert dropped == start.(diagrams := Drop(start.diagrams, f.diagrams));
      DroppedSized(start, f);
      if f.quads == 0 {
        return true;
      }
      DrawableHasAtlas(f, device);
      if !Drawable(f, device) {
        return false;
      }
      AllocatedMatches(start, f, luck);
      ok := AllocateAll(f, luck);
      if ok {
        UploadEverything(f, stale);
      }
    }

    lemma DroppedSized(s: Store, f: Frame)
      requires StoreSized(s) && |f.diagrams| == SLOTS
      ensures StoreSized(s.(diagrams := Drop(s.diagrams, f.diagrams)))
    {}

    lemma DrawableHasAtlas(f: Frame, device: Device)
      ensures Drawable(f, device) ==> f.atlas.Some?
    {}

    lemma UploadSized(s: Store, f: Frame)
      requires StoreSized(s) && AllMatch(s, f)
      ensures StoreSized(UploadAll(s, f))
    {
      forall t: Texture, source: Source | Matches(t, source)
        ensures |Upload(t, source).image| == |t.image|
      {
        UploadLength(t, source);
      }
    }

    lemma UploadLength(t: Texture, s: Source)
      requires Matches(t, s)
      ensures |Upload(t, s).image| == |t.image|
    {
      RowBounds(t, 0, t.height);
      if Partial(t, s) {
        RowBounds(t, s.top, s.bottom);
      }
    }
  }
}
