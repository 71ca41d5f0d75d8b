/** Theorems about whole runs of frames through the cached textures. */
module TextureRuns {
  import opened Wire
  import opened Textures

  /** The page every version of every texture is, by binding, version and size.
      Versions identify content. */
  type Book = (nat, nat, nat, nat) -> seq<byte>

  function PagesOf(book: Book, binding: nat): Pages {
    (version, width, height) => book(binding, version, width, height)
  }

  const ATLAS: nat := 1
  const SPRITES: nat := 2
  const FIRST_DIAGRAM: nat := 3

  ghost predicate StoreHolds(s: Store, book: Book) {
    && s.atlas.texel == 1 && Holds(s.atlas, PagesOf(book, ATLAS))
    && s.sprites.texel == 4 && Holds(s.sprites, PagesOf(book, SPRITES))
    && |s.diagrams| == SLOTS
    && (forall i :: 0 <= i < SLOTS ==> s.diagrams[i].texel == 4 && Holds(s.diagrams[i], PagesOf(book, FIRST_DIAGRAM + i)))
  }

  /** The renderer's promise: each page a frame carries is the page of its
      version, and the glyph page's unchanged rows match the base version. */
  ghost predicate FrameHonest(f: Frame, book: Book) {
    && FrameSized(f)
    && (f.atlas.Some? ==>
          Honest(f.atlas.value.source, f.atlas.value.side, f.atlas.value.side, 1, PagesOf(book, ATLAS)))
    && (f.sprites.Some? ==>
          Honest(SheetSource(f.sprites.value), f.sprites.value.side, f.sprites.value.side, 4, PagesOf(book, SPRITES)))
    && (forall i :: 0 <= i < SLOTS && f.diagrams[i].pixels.Some? ==>
          Honest(DiagramSource(f.diagrams[i]), f.diagrams[i].width, f.diagrams[i].height, 4, PagesOf(book, FIRST_DIAGRAM + i)))
  }

  /** What a frame wants on the device: exactly its own pages. */
  predicate Shows(s: Store, f: Frame) {
    && f.atlas.Some? && s.atlas.width == s.atlas.height == f.atlas.value.side && s.atlas.image == f.atlas.value.source.pixels
    && (HasSprites(f) ==> s.sprites.width == s.sprites.height == f.sprites.value.side
                          && s.sprites.image == f.sprites.value.pixels)
    && |s.diagrams| == |f.diagrams|
    && (forall i :: 0 <= i < |s.diagrams| ==> ShowsDiagram(s.diagrams[i], f.diagrams[i]))
  }

  predicate ShowsDiagram(t: Texture, d: Diagram) {
    match d.pixels
    case None => t.width == 0 && t.height == 0 && t.image == []
    case Some(pixels) => t.width == d.width && t.height == d.height && t.image == pixels
  }

  lemma EnsureHolds(t: Texture, width: nat, height: nat, lucky: bool, junk: nat -> byte, pages: Pages)
    requires Holds(t, pages)
    ensures var (ok, r) := Ensure(t, width, height, lucky, junk);
      Holds(r, pages) && r.texel == t.texel && (ok ==> r.width == width && r.height == height)
  {}

  lemma DropHolds(ts: seq<Texture>, ds: seq<Diagram>, book: Book)
    requires |ts| == |ds| == SLOTS
    requires forall i :: 0 <= i < SLOTS ==> ts[i].texel == 4 && Holds(ts[i], PagesOf(book, FIRST_DIAGRAM + i))
    ensures var r := Drop(ts, ds);
      forall i :: 0 <= i < SLOTS ==> r[i].texel == 4 && Holds(r[i], PagesOf(book, FIRST_DIAGRAM + i)) && Fitting(r[i], ds[i])
  {}

  /** A slot that is empty or of its diagram's size. */
  predicate Fitting(t: Texture, d: Diagram) {
    (t.width == 0 && t.height == 0 && t.image == []) || (d.pixels.Some? && t.width == d.width && t.height == d.height)
  }

  lemma {:induction false} EnsureDiagramsHold(ts: seq<Texture>, ds: seq<Diagram>, luck: Luck, i: nat, book: Book)
    requires |ts| == |ds| == |luck.diagrams| == SLOTS && i <= SLOTS
    requires forall j :: 0 <= j < SLOTS ==>
               ts[j].texel == 4 && Holds(ts[j], PagesOf(book, FIRST_DIAGRAM + j)) && Fitting(ts[j], ds[j])
    requires forall j :: 0 <= j < i && ds[j].pixels.Some? ==> ts[j].width == ds[j].width && ts[j].height == ds[j].height
    ensures var (ok, r) := EnsureDiagrams(ts, ds, luck, i);
      && (forall j :: 0 <= j < SLOTS ==>
            r[j].texel == 4 && Holds(r[j], PagesOf(book, FIRST_DIAGRAM + j)) && Fitting(r[j], ds[j]))
      && (ok ==> forall j :: 0 <= j < SLOTS && ds[j].pixels.Some? ==> r[j].width == ds[j].width && r[j].height == ds[j].height)
    decreases SLOTS - i
  {
    if i < SLOTS {
      if ds[i].pixels.None? {
        EnsureDiagramsHold(ts, ds, luck, i + 1, book);
      } else {
        EnsureHolds(ts[i], ds[i].width, ds[i].height, luck.diagrams[i], luck.junk, PagesOf(book, FIRST_DIAGRAM + i));
        hide Holds;
        var (ok, t) := Ensure(ts[i], ds[i].width, ds[i].height, luck.diagrams[i], luck.junk);
        if ok {
          EnsureDiagramsHold(ts[i := t], ds, luck, i + 1, book);
        }
      }
    }
  }

  lemma UploadAllShows(s: Store, f: Frame, book: Book)
    requires StoreHolds(s, book) && FrameHonest(f, book) && AllMatch(s, f)
    requires s.atlas.width == s.atlas.height == f.atlas.value.side
    requires HasSprites(f) ==> s.sprites.width == s.sprites.height == f.sprites.value.side
    requires forall i :: 0 <= i < SLOTS && f.diagrams[i].pixels.Some? ==>
               s.diagrams[i].width == f.diagrams[i].width && s.diagrams[i].height == f.diagrams[i].height
    requires forall i :: 0 <= i < SLOTS ==> Fitting(s.diagrams[i], f.diagrams[i])
    requires forall i :: 0 <= i < SLOTS && f.diagrams[i].pixels.None? ==> s.diagrams[i].width == s.diagrams[i].height == 0
    ensures StoreHolds(UploadAll(s, f), book) && Shows(UploadAll(s, f), f)
  {
    UploadIsWhole(s.atlas, f.atlas.value.source, PagesOf(book, ATLAS));
    if HasSprites(f) {
      UploadIsWhole(s.sprites, SheetSource(f.sprites.value), PagesOf(book, SPRITES));
    }
    var t := UploadAll(s, f);
    forall i | 0 <= i < SLOTS
      ensures t.diagrams[i].texel == 4 && Holds(t.diagrams[i], PagesOf(book, FIRST_DIAGRAM + i))
      ensures ShowsDiagram(t.diagrams[i], f.diagrams[i])
    {
      if f.diagrams[i].pixels.Some? {
        UploadIsWhole(s.diagrams[i], DiagramSource(f.diagrams[i]), PagesOf(book, FIRST_DIAGRAM + i));
      }
    }
  }

  lemma HeldIsSized(s: Store, book: Book)
    requires StoreHolds(s, book)
    ensures StoreSized(s)
  {}

  lemma AllocateHolds(s: Store, f: Frame, luck: Luck, book: Book)
    requires StoreHolds(s, book) && FrameSized(f) && |luck.diagrams| == SLOTS && f.atlas.Some?
    ensures var (ok, r) := Allocate(s.(diagrams := Drop(s.diagrams, f.diagrams)), f, luck);
      && StoreHolds(r, book) && (forall i :: 0 <= i < SLOTS ==> Fitting(r.diagrams[i], f.diagrams[i]))
      && (ok ==>
            && r.atlas.width == r.atlas.height == f.atlas.value.side
            && (HasSprites(f) ==> r.sprites.width == r.sprites.height == f.sprites.value.side)
            && forall i :: 0 <= i < SLOTS && f.diagrams[i].pixels.Some? ==>
                 r.diagrams[i].width == f.diagrams[i].width && r.diagrams[i].height == f.diagrams[i].height)
  {
    DropHolds(s.diagrams, f.diagrams, book);
    EnsureHolds(s.atlas, f.atlas.value.side, f.atlas.value.side, luck.atlas, luck.junk, PagesOf(book, ATLAS));
    if HasSprites(f) {
      EnsureHolds(s.sprites, f.sprites.value.side, f.sprites.value.side, luck.sprites, luck.junk, PagesOf(book, SPRITES));
    }
    EnsureDiagramsHold(Drop(s.diagrams, f.diagrams), f.diagrams, luck, 0, book);
    hide Holds, Ensure, Fitting, EnsureDiagrams;
  }

  /** After any prepare, failed or not, every uploaded texture holds the page of
      its version; after a successful one that draws, the device shows exactly
      the frame's pages, as if each had been uploaded whole. */
  lemma PrepareShows(s: Store, f: Frame, device: Device, luck: Luck, book: Book)
    requires StoreHolds(s, book) && FrameHonest(f, book) && |luck.diagrams| == SLOTS
    ensures StoreSized(s)
    ensures var (ok, t) := Prepare(s, f, device, luck);
      StoreHolds(t, book) && (ok && f.quads > 0 ==> Shows(t, f))
  {
    HeldIsSized(s, book);
    DropHolds(s.diagrams, f.diagrams, book);
    if f.atlas.Some? {
      AllocatedMatches(s, f, luck);
      AllocateHolds(s, f, luck, book);
      var (ok, r) := Allocate(s.(diagrams := Drop(s.diagrams, f.diagrams)), f, luck);
      if ok {
        UploadAllShows(r, f, book);
      }
    }
    hide Holds, Allocate, UploadAll, Drop, Honest;
  }

  // ---- the quota on diagram pixels

  function LiveArea(ts: seq<Texture>): nat {
    if ts == [] then 0 else Area(ts[0]) + LiveArea(ts[1..])
  }

  lemma {:induction false} FittingArea(ts: seq<Texture>, ds: seq<Diagram>)
    requires |ts| == |ds| && forall i :: 0 <= i < |ts| ==> Fitting(ts[i], ds[i])
    ensures LiveArea(ts) <= DiagramArea(ds)
  {
    if ts != [] {
      forall i | 0 <= i < |ts| - 1 ensures Fitting(ts[1..][i], ds[1..][i]) {
        assert Fitting(ts[i + 1], ds[i + 1]);
      }
      FittingArea(ts[1..], ds[1..]);
    }
  }

  /** Obsolete slots go before any new one comes, so the live diagrams never
      exceed the quota, whichever allocation fails. */
  lemma QuotaKept(s: Store, f: Frame, device: Device, luck: Luck, book: Book)
    requires StoreHolds(s, book) && FrameHonest(f, book) && |luck.diagrams| == SLOTS
    requires LiveArea(s.diagrams) <= FRAME_PIXELS
    ensures StoreSized(s) && LiveArea(Prepare(s, f, device, luck).1.diagrams) <= FRAME_PIXELS
  {
    HeldIsSized(s, book);
    if DiagramsValid(f.diagrams, device.maxSide) {
      DropHolds(s.diagrams, f.diagrams, book);
      FittingArea(Drop(s.diagrams, f.diagrams), f.diagrams);
      if f.atlas.Some? {
        AllocatedMatches(s, f, luck);
        AllocateHolds(s, f, luck, book);
        var (ok, r) := Allocate(s.(diagrams := Drop(s.diagrams, f.diagrams)), f, luck);
        FittingArea(r.diagrams, f.diagrams);
        if ok {
          var t := UploadAll(r, f);
          assert forall i :: 0 <= i < SLOTS ==> Area(t.diagrams[i]) == Area(r.diagrams[i]);
          SameArea(t.diagrams, r.diagrams);
        }
      }
    }
    hide Holds, Allocate, UploadAll, Drop, Honest, LiveArea;
  }

  lemma {:induction false} SameArea(a: seq<Texture>, b: seq<Texture>)
    requires |a| == |b| && forall i :: 0 <= i < |a| ==> Area(a[i]) == Area(b[i])
    ensures LiveArea(a) == LiveArea(b)
  {
    if a != [] {
      SameArea(a[1..], b[1..]);
    }
  }

  // ---- runs of frames

  datatype Step = Step(frame: Frame, luck: Luck)

  ghost predicate Promised(steps: seq<Step>, book: Book) {
    forall i :: 0 <= i < |steps| ==> FrameHonest(steps[i].frame, book) && |steps[i].luck.diagrams| == SLOTS
  }

  function Blank(texel: nat): Texture {
    Texture(texel, 0, 0, 0, false, [])
  }

  function Initial(): Store {
    Store(Blank(1), Blank(4), seq(SLOTS, i => Blank(4)))
  }

  ghost function Run(s: Store, steps: seq<Step>, device: Device, book: Book): (t: Store)
    requires StoreHolds(s, book) && Promised(steps, book)
    decreases steps
  {
    if steps == [] then s
    else
      PrepareShows(s, steps[0].frame, device, steps[0].luck, book);
      Run(Prepare(s, steps[0].frame, device, steps[0].luck).1, steps[1..], device, book)
  }

  lemma {:induction false} RunHolds(s: Store, steps: seq<Step>, device: Device, book: Book)
    requires StoreHolds(s, book) && Promised(steps, book) && LiveArea(s.diagrams) <= FRAME_PIXELS
    ensures StoreHolds(Run(s, steps, device, book), book)
    ensures LiveArea(Run(s, steps, device, book).diagrams) <= FRAME_PIXELS
    decreases steps
  {
    hide StoreHolds, Honest, Prepare;
    if steps != [] {
      PrepareShows(s, steps[0].frame, device, steps[0].luck, book);
      QuotaKept(s, steps[0].frame, device, steps[0].luck, book);
      RunHolds(Prepare(s, steps[0].frame, device, steps[0].luck).1, steps[1..], device, book);
    }
  }

  lemma InitialHolds(book: Book)
    ensures StoreHolds(Initial(), book) && LiveArea(Initial().diagrams) == 0
  {
    NoArea(Initial().diagrams);
  }

  lemma {:induction false} NoArea(ts: seq<Texture>)
    requires forall i :: 0 <= i < |ts| ==> Area(ts[i]) == 0
    ensures LiveArea(ts) == 0
  {
    if ts != [] {
      NoArea(ts[1..]);
    }
  }

  /** Over every run of frames, skipped, failed and resized ones included, a
      frame is prepared exactly when its checks and the allocations it needs succeed, and
      if it draws it then finds exactly its own pages on the device. */
  lemma RunShows(steps: seq<Step>, last: Step, device: Device, book: Book)
    requires Promised(steps, book) && FrameHonest(last.frame, book) && |last.luck.diagrams| == SLOTS
    ensures StoreHolds(Initial(), book)
    ensures var s := Run(Initial(), steps, device, book);
      && StoreSized(s) && FrameSized(last.frame) && LiveArea(s.diagrams) <= FRAME_PIXELS
      && var (ok, t) := Prepare(s, last.frame, device, last.luck);
         (ok <==> Prepared(s, last.frame, device, last.luck)) && (ok && last.frame.quads > 0 ==> Shows(t, last.frame))
  {
    hide StoreHolds, Prepare, Prepared, Shows;
    InitialHolds(book);
    RunHolds(Initial(), steps, device, book);
    PrepareShows(Run(Initial(), steps, device, book), last.frame, device, last.luck, book);
    PrepareSucceedsIff(Run(Initial(), steps, device, book), last.frame, device, last.luck);
  }
}
