/** The wire form of a frame (serializers/telar_frame.hpp): the span count is
    written before the cursor shape and the metadata, the spans after them. */
module FrameCodec {
  import opened Wire
  import opened Schemas
  import opened NumberRecords
  import opened Codecs
  import opened Frames
  import Cells

  const PANE_FRAME: byte := 0x82
  const METADATA_LIMIT: nat := 153098

  // ---- schemas

  const LINK_FIELDS := [U32, U16]
  const RUN_FIELDS := [U32, U32, U16]
  const TAIL_FIELDS := [Enum(4), BOOL]
  const GRID_FIELDS := [NONZERO_U64, U64, U64, U16, U16]
  const CURSOR_FIELDS := [BOOL, U16, U16]
  const MOUSE_FIELDS := [Enum(4), BOOL, BOOL]
  const MODE_FIELDS := [BOOL, BOOL, BOOL, BOOL, BOOL, BOOL, Field(1, 0, 31), BOOL]
  const SCROLL_FIELDS := [U32, U32]

  function SpanSchema(): Schema {
    Record([Number(4, 0, 0xffff_ffff), Number(4, 1, 0xffff_ffff), Number(4, 0, MAX_PAYLOAD), Blob(2)], ANY)
  }

  /** Four counts, one check that all four arrays are there, the four arrays. */
  function MetadataSchema(): Schema {
    MetadataRecord(Numbers(LINK_FIELDS), Numbers(RUN_FIELDS))
  }

  function MetadataRecord(link: Schema, run: Schema): Schema {
    Record([
      Number(1, 0, 2), Number(2, 0, 0xffff), Number(2, 0, 256), Number(2, 0, 2048), Number(4, 0, 65536),
      Ahead([(1, 1), (2, 6), (3, 10), (4, 1)]), Blob(1), Repeat(2, link), Repeat(3, run), Blob(4)], ANY)
  }

  function FrameSchema(): Schema {
    FrameFields(FrameRule)
  }

  /** The validator of the message, as a rule on values. */
  predicate FrameRule(v: Value) {
    FrameOk(FrameOf(v))
  }

  function FrameFields(rule: Value -> bool): Schema {
    FrameRecord(HeadSchema(), Numbers(TAIL_FIELDS), MetadataSchema(), SpanSchema(), rule)
  }

  /** The span count, checked at once, far ahead of the spans. */
  function FrameRecord(head: Schema, tail: Schema, metadata: Schema, span: Schema, rule: Value -> bool): Schema {
    Record([head, Number(2, 0, 4096), Ahead([(1, 12)]), tail, Framed(METADATA_LIMIT, metadata), Ahead([(1, 12)]),
            Repeat(1, span)], rule)
  }

  /** The fields before the span count. */
  function HeadSchema(): Schema {
    HeadRecord(Numbers(GRID_FIELDS), Numbers(CURSOR_FIELDS), Numbers(MOUSE_FIELDS), Numbers(MODE_FIELDS),
               Numbers(SCROLL_FIELDS))
  }

  function HeadRecord(grid: Schema, cursor: Schema, mouse: Schema, modes: Schema, scroll: Schema): Schema {
    Record([grid, cursor, mouse, modes, Number(1, 0, 33), scroll], ANY)
  }

  // ---- values

  function LinkValue(l: MetadataLink): Value { Nums([l.offset, l.len]) }
  function RunValue(r: MetadataRun): Value { Nums([r.start, r.len, r.linkIndex]) }
  function LinkValues(links: seq<MetadataLink>): seq<Value> {
    seq(|links|, i requires 0 <= i < |links| => LinkValue(links[i]))
  }

  function RunValues(runs: seq<MetadataRun>): seq<Value> {
    seq(|runs|, i requires 0 <= i < |runs| => RunValue(runs[i]))
  }

  function SpanValue(s: FrameSpan): Value { Many([Num(s.start), Num(s.count), Num(|s.cells|), Raw(s.cells)]) }

  function MetadataValue(m: TextMetadata): Value {
    Many([
      Num(m.status), Num(|m.rowFlags|), Num(|m.links|), Num(|m.runs|), Num(|m.uris|), Unit, Raw(m.rowFlags),
      Many(LinkValues(m.links)), Many(RunValues(m.runs)),
      Raw(m.uris)])
  }

  function GridNumbers(f: Frame): seq<nat> { [f.paneId, f.frameId, f.baseFrameId, f.cols, f.rows] }
  function CursorNumbers(c: Cursor): seq<nat> { [Bit(c.visible), c.x, c.y] }
  function MouseNumbers(m: Mouse): seq<nat> { [m.tracking, Bit(m.sgr), Bit(m.pixels)] }

  function ModeNumbers(m: InputModes): seq<nat> {
    [Bit(m.cursorKeys), Bit(m.keypadKeys), Bit(m.bracketedPaste), Bit(m.focusEvents),
     Bit(m.alternateScroll), Bit(m.alternateScreen), m.kittyFlags, Bit(m.modifyOtherKeys2)]
  }

  function ScrollNumbers(s: Scroll): seq<nat> { [s.totalRows, s.offset] }
  function TailNumbers(c: Cursor): seq<nat> { [c.shape, Bit(c.blink)] }

  function HeadItems(grid: Value, cursor: Value, mouse: Value, modes: Value, pointer: nat, scroll: Value): Value {
    Many([grid, cursor, mouse, modes, Num(pointer), scroll])
  }

  function HeadValue(f: Frame): Value {
    HeadItems(Nums(GridNumbers(f)), Nums(CursorNumbers(f.cursor)), Nums(MouseNumbers(f.mouse)),
              Nums(ModeNumbers(f.modes)), f.pointerShape, Nums(ScrollNumbers(f.scroll)))
  }

  function SpanValues(spans: seq<FrameSpan>): seq<Value> {
    seq(|spans|, i requires 0 <= i < |spans| => SpanValue(spans[i]))
  }

  function MetadataOption(m: Option<TextMetadata>): Value {
    if m.Some? then Present(MetadataValue(m.value)) else Absent
  }

  function FrameItems(head: Value, tail: Value, metadata: Value, spans: seq<Value>): Value {
    Many([head, Num(|spans|), Unit, tail, metadata, Unit, Many(spans)])
  }

  function FrameValue(f: Frame): Value {
    FrameItems(HeadValue(f), Nums(TailNumbers(f.cursor)), MetadataOption(f.metadata), SpanValues(f.spans))
  }

  // ---- and back

  function Item(v: Value, i: nat): Value { if v.Many? && i < |v.items| then v.items[i] else Unit }
  function Bytes(v: Value): seq<byte> { if v.Raw? then v.bytes else [] }
  function Items(v: Value): seq<Value> { if v.Many? then v.items else [] }
  function Plain(v: Value): nat { if v.Num? then v.n else 0 }

  function LinkOf(v: Value): MetadataLink {
    var ns := NumsOf(v);
    MetadataLink(To32(At(ns, 0)), To16(At(ns, 1)))
  }

  function RunOf(v: Value): MetadataRun {
    var ns := NumsOf(v);
    MetadataRun(To32(At(ns, 0)), To32(At(ns, 1)), To16(At(ns, 2)))
  }

  function SpanOf(v: Value): FrameSpan {
    FrameSpan(To32(Plain(Item(v, 0))), To32(Plain(Item(v, 1))), Bytes(Item(v, 3)))
  }

  function MetadataOf(v: Value): TextMetadata {
    var links, runs := Items(Item(v, 7)), Items(Item(v, 8));
    TextMetadata(
      To8(Plain(Item(v, 0))), Bytes(Item(v, 6)),
      seq(|links|, i requires 0 <= i < |links| => LinkOf(links[i])),
      seq(|runs|, i requires 0 <= i < |runs| => RunOf(runs[i])),
      Bytes(Item(v, 9)))
  }

  function CursorOf(c: Value, t: Value): Cursor {
    var ns, ts := NumsOf(c), NumsOf(t);
    Cursor(At(ns, 0) == 1, To16(At(ns, 1)), To16(At(ns, 2)), To8(At(ts, 0)), At(ts, 1) == 1)
  }

  function MouseOf(v: Value): Mouse {
    var ns := NumsOf(v);
    Mouse(To8(At(ns, 0)), At(ns, 1) == 1, At(ns, 2) == 1)
  }

  function ModesOf(v: Value): InputModes {
    var ns := NumsOf(v);
    InputModes(At(ns, 0) == 1, At(ns, 1) == 1, At(ns, 2) == 1, At(ns, 3) == 1, At(ns, 4) == 1, At(ns, 5) == 1,
               To8(At(ns, 6)), At(ns, 7) == 1)
  }

  function ScrollOf(v: Value): Scroll {
    var ns := NumsOf(v);
    Scroll(To32(At(ns, 0)), To32(At(ns, 1)))
  }

  function FrameOf(v: Value): Frame {
    var head, meta, spans := Item(v, 0), Item(v, 4), Items(Item(v, 6));
    var g := NumsOf(Item(head, 0));
    Frame(
      To64(At(g, 0)), To64(At(g, 1)), To64(At(g, 2)), To16(At(g, 3)), To16(At(g, 4)),
      CursorOf(Item(head, 1), Item(v, 3)), MouseOf(Item(head, 2)), ModesOf(Item(head, 3)), To8(Plain(Item(head, 4))),
      ScrollOf(Item(head, 5)),
      if meta.Present? then Some(MetadataOf(meta.inner)) else None,
      seq(|spans|, i requires 0 <= i < |spans| => SpanOf(spans[i])))
  }

  // ---- the two are inverse

  lemma LinkInverse(l: MetadataLink)
    ensures LinkOf(LinkValue(l)) == l
  {
    NumsInverse([l.offset, l.len]);
  }

  lemma RunInverse(r: MetadataRun)
    ensures RunOf(RunValue(r)) == r
  {
    NumsInverse([r.start, r.len, r.linkIndex]);
  }

  lemma MetadataInverse(m: TextMetadata)
    ensures MetadataOf(MetadataValue(m)) == m
  {
    forall i | 0 <= i < |m.links| ensures LinkOf(LinkValue(m.links[i])) == m.links[i] { LinkInverse(m.links[i]); }
    forall i | 0 <= i < |m.runs| ensures RunOf(RunValue(m.runs[i])) == m.runs[i] { RunInverse(m.runs[i]); }
    var back := MetadataOf(MetadataValue(m));
    assert back.links == m.links && back.runs == m.runs;
  }

  lemma FrameInverse(f: Frame)
    ensures FrameOf(FrameValue(f)) == f
  {
    hide MetadataOf, MetadataValue, CursorOf, MouseOf, ModesOf, ScrollOf, Nums, NumsOf;
    NumsInverse(GridNumbers(f));
    CursorInverse(f.cursor);
    MouseInverse(f.mouse);
    ModesInverse(f.modes);
    ScrollInverse(f.scroll);
    if f.metadata.Some? {
      MetadataInverse(f.metadata.value);
    }
    assert FrameOf(FrameValue(f)).spans == f.spans;
  }

  lemma CursorInverse(c: Cursor)
    ensures CursorOf(Nums(CursorNumbers(c)), Nums(TailNumbers(c))) == c
  {
    NumsInverse(CursorNumbers(c));
    NumsInverse(TailNumbers(c));
  }

  lemma MouseInverse(m: Mouse)
    ensures MouseOf(Nums(MouseNumbers(m))) == m
  {
    NumsInverse(MouseNumbers(m));
  }

  lemma ModesInverse(m: InputModes)
    ensures ModesOf(Nums(ModeNumbers(m))) == m
  {
    NumsInverse(ModeNumbers(m));
  }

  lemma ScrollInverse(s: Scroll)
    ensures ScrollOf(Nums(ScrollNumbers(s))) == s
  {
    NumsInverse(ScrollNumbers(s));
  }

  // ---- the groups of fixed fields, links, runs, spans and metadata

  lemma SchemasOk()
    ensures WellFormed(Numbers(LINK_FIELDS)) && WellFormed(Numbers(RUN_FIELDS))
    ensures WellFormed(Numbers(GRID_FIELDS)) && WellFormed(Numbers(CURSOR_FIELDS)) && WellFormed(Numbers(MOUSE_FIELDS))
    ensures WellFormed(Numbers(MODE_FIELDS)) && WellFormed(Numbers(SCROLL_FIELDS)) && WellFormed(Numbers(TAIL_FIELDS))
  {
    Pow256Values();
    NumbersWellFormed(LINK_FIELDS);
    NumbersWellFormed(RUN_FIELDS);
    NumbersWellFormed(GRID_FIELDS);
    NumbersWellFormed(CURSOR_FIELDS);
    NumbersWellFormed(MOUSE_FIELDS);
    NumbersWellFormed(MODE_FIELDS);
    NumbersWellFormed(SCROLL_FIELDS);
    NumbersWellFormed(TAIL_FIELDS);
  }

  lemma LinkValid(l: MetadataLink, context: Context)
    ensures Valid(Numbers(LINK_FIELDS), context, LinkValue(l)) && Size(Numbers(LINK_FIELDS), LinkValue(l)) == 6
  {
    Pow256Values();
    var ns: seq<nat> := [l.offset, l.len];
    NumsInverse(ns);
    NumbersValid(LINK_FIELDS, context, Nums(ns));
    NumbersSize(LINK_FIELDS, Nums(ns));
    WidthSums(LINK_FIELDS);
  }

  lemma RunValid(r: MetadataRun, context: Context)
    ensures Valid(Numbers(RUN_FIELDS), context, RunValue(r)) && Size(Numbers(RUN_FIELDS), RunValue(r)) == 10
  {
    Pow256Values();
    var ns: seq<nat> := [r.start, r.len, r.linkIndex];
    NumsInverse(ns);
    NumbersValid(RUN_FIELDS, context, Nums(ns));
    NumbersSize(RUN_FIELDS, Nums(ns));
    WidthSums(RUN_FIELDS);
  }

  lemma LinkOfValid(v: Value)
    requires Valid(Numbers(LINK_FIELDS), [], v)
    ensures LinkValue(LinkOf(v)) == v
  {
    Pow256Values();
    NumbersValid(LINK_FIELDS, [], v);
    var ns := NumsOf(v);
    assert InRange(LINK_FIELDS[0], ns[0]) && InRange(LINK_FIELDS[1], ns[1]);
    assert [LinkOf(v).offset, LinkOf(v).len] == ns;
  }

  lemma RunOfValid(v: Value)
    requires Valid(Numbers(RUN_FIELDS), [], v)
    ensures RunValue(RunOf(v)) == v
  {
    Pow256Values();
    NumbersValid(RUN_FIELDS, [], v);
    var ns := NumsOf(v);
    assert InRange(RUN_FIELDS[0], ns[0]) && InRange(RUN_FIELDS[1], ns[1]) && InRange(RUN_FIELDS[2], ns[2]);
    assert [RunOf(v).start, RunOf(v).len, RunOf(v).linkIndex] == ns;
  }

  lemma SpanValid(s: FrameSpan, context: Context)
    ensures Valid(SpanSchema(), context, SpanValue(s)) <==> s.count >= 1 && |s.cells| <= MAX_PAYLOAD
    ensures Size(SpanSchema(), SpanValue(s)) == 12 + |s.cells|
  {
    Pow256Values();
    var schema, v := SpanSchema(), SpanValue(s);
    assert schema.fields[0] == Number(4, 0, 0xffff_ffff) && schema.fields[1] == Number(4, 1, 0xffff_ffff);
    assert schema.fields[2] == Number(4, 0, MAX_PAYLOAD) && schema.fields[3] == Blob(2);
    assert v.items[..3][2] == Num(|s.cells|);
    assert SizeFields(schema, v.items, 3) == |s.cells|;
    assert SizeFields(schema, v.items, 2) == 4 + SizeFields(schema, v.items, 3);
    assert SizeFields(schema, v.items, 1) == 4 + SizeFields(schema, v.items, 2);
  }

  lemma SpanOfValid(v: Value)
    requires Valid(SpanSchema(), [], v)
    ensures SpanValue(SpanOf(v)) == v
  {
    Pow256Values();
    var schema := SpanSchema();
    assert Valid(schema.fields[0], v.items[..0], v.items[0]) && Valid(schema.fields[1], v.items[..1], v.items[1]);
    assert Valid(schema.fields[2], v.items[..2], v.items[2]) && Valid(schema.fields[3], v.items[..3], v.items[3]);
    assert v.items[..3][2] == v.items[2];
    assert SpanValue(SpanOf(v)).items == v.items;
  }

  lemma LinksValid(links: seq<MetadataLink>, context: Context)
    requires |context| > 2 && context[2] == Num(|links|)
    ensures Valid(Repeat(2, Numbers(LINK_FIELDS)), context, Many(LinkValues(links)))
    ensures SizeMany(Repeat(2, Numbers(LINK_FIELDS)), LinkValues(links)) == 6 * |links|
  {
    forall i | 0 <= i < |links| { LinkValid(links[i], []); }
    SizeManyUniform(Repeat(2, Numbers(LINK_FIELDS)), LinkValues(links), 6);
  }

  lemma RunsValid(runs: seq<MetadataRun>, context: Context)
    requires |context| > 3 && context[3] == Num(|runs|)
    ensures Valid(Repeat(3, Numbers(RUN_FIELDS)), context, Many(RunValues(runs)))
    ensures SizeMany(Repeat(3, Numbers(RUN_FIELDS)), RunValues(runs)) == 10 * |runs|
  {
    forall i | 0 <= i < |runs| { RunValid(runs[i], []); }
    SizeManyUniform(Repeat(3, Numbers(RUN_FIELDS)), RunValues(runs), 10);
  }

  /** The four counts fit their fields. */
  predicate MetadataFits(m: TextMetadata) {
    m.status <= 2 && |m.rowFlags| <= 0xffff && |m.links| <= 256 && |m.runs| <= 2048 && |m.uris| <= 65536
  }

  function MetadataSize(m: TextMetadata): nat {
    11 + |m.rowFlags| + 6 * |m.links| + 10 * |m.runs| + |m.uris|
  }

  lemma MetadataValid(m: TextMetadata)
    ensures Valid(MetadataSchema(), [], MetadataValue(m)) <==> MetadataFits(m)
    ensures Size(MetadataSchema(), MetadataValue(m)) == MetadataSize(m)
  {
    hide Valid, Size, SizeMany, Numbers, Nums, LinkValue, RunValue;
    MetadataFieldSizes(m);
    Pow256Values();
    var items := MetadataValue(m).items;
    LinksValid(m.links, items[..7]);
    RunsValid(m.runs, items[..8]);
    MetadataFieldsValid(m, MetadataSchema(), items);
  }

  lemma MetadataFieldsValid(m: TextMetadata, s: Schema, items: seq<Value>)
    requires Pow256(1) == 0x100 && Pow256(2) == 0x1_0000 && Pow256(4) == 0x1_0000_0000
    requires s.Record? && |s.fields| == |items| == 10 && s.rule(Many(items))
    requires s.fields[0] == Number(1, 0, 2) && items[0] == Num(m.status)
    requires s.fields[1] == Number(2, 0, 0xffff) && items[1] == Num(|m.rowFlags|)
    requires s.fields[2] == Number(2, 0, 256) && items[2] == Num(|m.links|)
    requires s.fields[3] == Number(2, 0, 2048) && items[3] == Num(|m.runs|)
    requires s.fields[4] == Number(4, 0, 65536) && items[4] == Num(|m.uris|)
    requires s.fields[5].Ahead? && items[5].Unit?
    requires s.fields[6] == Blob(1) && items[6] == Raw(m.rowFlags)
    requires Valid(s.fields[7], items[..7], items[7]) && Valid(s.fields[8], items[..8], items[8])
    requires s.fields[9] == Blob(4) && items[9] == Raw(m.uris)
    ensures Valid(s, [], Many(items)) <==> MetadataFits(m)
  {
    assert Valid(s.fields[0], items[..0], items[0]) <==> m.status <= 2;
    assert Valid(s.fields[1], items[..1], items[1]) <==> |m.rowFlags| <= 0xffff;
    assert Valid(s.fields[2], items[..2], items[2]) <==> |m.links| <= 256;
    assert Valid(s.fields[3], items[..3], items[3]) <==> |m.runs| <= 2048;
    assert Valid(s.fields[4], items[..4], items[4]) <==> |m.uris| <= 65536;
    assert Valid(s.fields[5], items[..5], items[5]);
    assert Valid(s.fields[6], items[..6], items[6]);
    assert Valid(s.fields[9], items[..9], items[9]);
  }

  lemma MetadataFieldSizes(m: TextMetadata)
    ensures Size(MetadataSchema(), MetadataValue(m)) == MetadataSize(m)
  {
    hide LinkValue, RunValue, Numbers, Nums;
    var schema, v := MetadataSchema(), MetadataValue(m);
    assert v.items[7] == Many(LinkValues(m.links)) && v.items[8] == Many(RunValues(m.runs));
    LinksValid(m.links, v.items[..7]);
    RunsValid(m.runs, v.items[..8]);
    assert SizeFields(schema, v.items, 9) == |m.uris|;
    assert SizeFields(schema, v.items, 8) == 10 * |m.runs| + SizeFields(schema, v.items, 9);
    assert SizeFields(schema, v.items, 7) == 6 * |m.links| + SizeFields(schema, v.items, 8);
    assert SizeFields(schema, v.items, 6) == |m.rowFlags| + SizeFields(schema, v.items, 7);
    assert SizeFields(schema, v.items, 5) == SizeFields(schema, v.items, 6);
    assert SizeFields(schema, v.items, 4) == 4 + SizeFields(schema, v.items, 5);
    assert SizeFields(schema, v.items, 3) == 2 + SizeFields(schema, v.items, 4);
    assert SizeFields(schema, v.items, 2) == 2 + SizeFields(schema, v.items, 3);
    assert SizeFields(schema, v.items, 1) == 2 + SizeFields(schema, v.items, 2);
    assert SizeFields(schema, v.items, 0) == 1 + SizeFields(schema, v.items, 1);
  }

  lemma MetadataOfValid(v: Value)
    requires Valid(MetadataSchema(), [], v)
    ensures MetadataValue(MetadataOf(v)) == v
  {
    hide LinkValue, RunValue, LinkOf, RunOf, Numbers, Nums, NumsOf;
    Pow256Values();
    var s, items, m := MetadataSchema(), v.items, MetadataOf(v);
    MetadataItems(s, items);
    var links, runs := items[7].items, items[8].items;
    forall i | 0 <= i < |links| ensures LinkValue(m.links[i]) == links[i] { LinkOfValid(links[i]); }
    forall i | 0 <= i < |runs| ensures RunValue(m.runs[i]) == runs[i] { RunOfValid(runs[i]); }
    assert LinkValues(m.links) == links && RunValues(m.runs) == runs;
    assert m.status == items[0].n && m.rowFlags == items[6].bytes && m.uris == items[9].bytes;
    MetadataFromParts(m, items);
  }

  lemma MetadataFromParts(m: TextMetadata, items: seq<Value>)
    requires |items| == 10 && items[0] == Num(m.status) && items[1] == Num(|m.rowFlags|) && items[2] == Num(|m.links|)
    requires items[3] == Num(|m.runs|) && items[4] == Num(|m.uris|) && items[5].Unit? && items[6] == Raw(m.rowFlags)
    requires items[7] == Many(LinkValues(m.links)) && items[8] == Many(RunValues(m.runs)) && items[9] == Raw(m.uris)
    ensures MetadataValue(m) == Many(items)
  {
    assert MetadataValue(m).items == items;
  }

  lemma MetadataItems(s: Schema, items: seq<Value>)
    requires s.Record? && |s.fields| == 10 && Valid(s, [], Many(items))
    requires s.fields[0] == Number(1, 0, 2) && s.fields[1] == Number(2, 0, 0xffff) && s.fields[2] == Number(2, 0, 256)
    requires s.fields[3] == Number(2, 0, 2048) && s.fields[4] == Number(4, 0, 65536) && s.fields[5].Ahead?
    requires s.fields[6] == Blob(1) && s.fields[7].Repeat? && s.fields[7].count == 2
    requires s.fields[8].Repeat? && s.fields[8].count == 3 && s.fields[9] == Blob(4)
    ensures |items| == 10 && items[0].Num? && items[0].n <= 2 && items[5].Unit?
    ensures items[6].Raw? && items[1] == Num(|items[6].bytes|) && items[9].Raw? && items[4] == Num(|items[9].bytes|)
    ensures items[7].Many? && items[2] == Num(|items[7].items|)
    ensures items[8].Many? && items[3] == Num(|items[8].items|)
    ensures forall i :: 0 <= i < |items[7].items| ==> Valid(s.fields[7].elem, [], items[7].items[i])
    ensures forall i :: 0 <= i < |items[8].items| ==> Valid(s.fields[8].elem, [], items[8].items[i])
  {
    assert Valid(s.fields[0], items[..0], items[0]) && Valid(s.fields[5], items[..5], items[5]);
    assert Valid(s.fields[6], items[..6], items[6]) && Valid(s.fields[7], items[..7], items[7]);
    assert Valid(s.fields[8], items[..8], items[8]) && Valid(s.fields[9], items[..9], items[9]);
  }

  lemma MetadataSchemaOk()
    ensures WellFormed(MetadataSchema()) && Standalone(MetadataSchema())
  {
    SchemasOk();
    NumbersAreRecords(LINK_FIELDS);
    NumbersAreRecords(RUN_FIELDS);
    ElementWidths();
    hide Numbers, WellFormed, MinWidth;
    MetadataRecordOk(Numbers(LINK_FIELDS), Numbers(RUN_FIELDS));
  }

  lemma MetadataRecordOk(link: Schema, run: Schema)
    requires Standalone(link) && WellFormed(link) && MinWidth(link) == 6
    requires Standalone(run) && WellFormed(run) && MinWidth(run) == 10
    ensures WellFormed(MetadataRecord(link, run))
  {
    Pow256Values();
    MetadataCounts(link, run);
    var f := MetadataRecord(link, run).fields;
    assert WellFormed(f[0]) && WellFormed(f[1]) && WellFormed(f[2]) && WellFormed(f[3]) && WellFormed(f[4]);
    assert WellFormed(f[7]) && WellFormed(f[8]);
    hide MinWidth;
    assert InPlace(f, 6) && InPlace(f, 7) && InPlace(f, 8) && InPlace(f, 9);
  }

  lemma MetadataCounts(link: Schema, run: Schema)
    requires MinWidth(link) == 6 && MinWidth(run) == 10
    ensures InPlace(MetadataRecord(link, run).fields, 5)
  {
    hide MinWidth;
    var f := MetadataRecord(link, run).fields;
    var terms: seq<(nat, nat)> := [(1, 1), (2, 6), (3, 10), (4, 1)];
    assert f[6..][1..] == f[7..] && f[7..][1..] == f[8..] && f[8..][1..] == f[9..];
    assert terms[3..][1..] == [] && terms[2..][1..] == terms[3..] && terms[1..][1..] == terms[2..];
    assert Covered(terms[3..], f[9..]);
    assert Covered(terms[2..], f[8..]);
    assert Covered(terms[1..], f[7..]);
    assert Covered(terms, f[6..]);
  }

  lemma ElementWidths()
    ensures MinWidth(Numbers(LINK_FIELDS)) == 6 && MinWidth(Numbers(RUN_FIELDS)) == 10 && MinWidth(SpanSchema()) == 12
  {
    LinkValid(MetadataLink(0, 0), []);
    NumbersSize(LINK_FIELDS, LinkValue(MetadataLink(0, 0)));
    RunValid(MetadataRun(0, 0, 0), []);
    NumbersSize(RUN_FIELDS, RunValue(MetadataRun(0, 0, 0)));
    var s := SpanSchema();
    assert FieldsMin(s, 3) == 0 + FieldsMin(s, 4);
    assert FieldsMin(s, 2) == 4 + FieldsMin(s, 3);
    assert FieldsMin(s, 1) == 4 + FieldsMin(s, 2);
    assert FieldsMin(s, 0) == 4 + FieldsMin(s, 1);
  }

  lemma SpanSchemaOk()
    ensures WellFormed(SpanSchema()) && Standalone(SpanSchema())
  {
    Pow256Values();
  }

  lemma HeadRecordOk(g: Schema, c: Schema, m: Schema, o: Schema, s: Schema)
    requires g.Record? && c.Record? && m.Record? && o.Record? && s.Record?
    requires WellFormed(g) && WellFormed(c) && WellFormed(m) && WellFormed(o) && WellFormed(s)
    ensures WellFormed(HeadRecord(g, c, m, o, s))
  {
    Pow256Values();
    assert WellFormed(Number(1, 0, 33));
  }

  lemma HeadSchemaOk()
    ensures WellFormed(HeadSchema()) && HeadSchema().Record?
  {
    SchemasOk();
    NumbersAreRecords(GRID_FIELDS);
    NumbersAreRecords(CURSOR_FIELDS);
    NumbersAreRecords(MOUSE_FIELDS);
    NumbersAreRecords(MODE_FIELDS);
    NumbersAreRecords(SCROLL_FIELDS);
    hide Numbers, WellFormed;
    HeadRecordOk(Numbers(GRID_FIELDS), Numbers(CURSOR_FIELDS), Numbers(MOUSE_FIELDS), Numbers(MODE_FIELDS),
                 Numbers(SCROLL_FIELDS));
  }

  lemma FrameSchemaOk()
    ensures WellFormed(FrameSchema()) && Standalone(FrameSchema())
  {
    FrameFieldsWellFormed(FrameRule);
  }

  lemma FrameFieldsWellFormed(rule: Value -> bool)
    ensures WellFormed(FrameFields(rule)) && Standalone(FrameFields(rule))
  {
    SchemasOk();
    SpanSchemaOk();
    MetadataSchemaOk();
    HeadSchemaOk();
    ElementWidths();
    NumbersAreRecords(TAIL_FIELDS);
    hide Numbers, MetadataSchema, SpanSchema, HeadSchema, MinWidth, WellFormed;
    FrameRecordOk(HeadSchema(), Numbers(TAIL_FIELDS), MetadataSchema(), SpanSchema(), rule);
  }

  lemma FrameRecordOk(head: Schema, tail: Schema, metadata: Schema, span: Schema, rule: Value -> bool)
    requires head.Record? && tail.Record? && Standalone(metadata) && Standalone(span) && MinWidth(span) == 12
    requires WellFormed(head) && WellFormed(tail) && WellFormed(metadata) && WellFormed(span)
    ensures WellFormed(FrameRecord(head, tail, metadata, span, rule))
  {
    Pow256Values();
    var f := FrameRecord(head, tail, metadata, span, rule).fields;
    assert WellFormed(Number(2, 0, 4096));
    assert WellFormed(Framed(METADATA_LIMIT, metadata)) && WellFormed(Repeat(1, span));
    hide MinWidth;
    FrameFieldsOk(f, span);
  }

  lemma FrameFieldsOk(f: seq<Schema>, span: Schema)
    requires |f| == 7 && MinWidth(span) == 12
    requires f[0].Record? && f[1].Number? && f[2] == Ahead([(1, 12)]) && f[3].Record? && f[4].Framed?
    requires f[5] == Ahead([(1, 12)]) && f[6] == Repeat(1, span)
    requires WellFormed(f[0]) && WellFormed(f[1]) && WellFormed(f[3]) && WellFormed(f[4]) && WellFormed(f[6])
    ensures forall i :: 0 <= i < 7 ==> WellFormed(f[i]) && InPlace(f, i)
  {
    hide MinWidth;
    var term: seq<(nat, nat)> := [(1, 12)];
    assert term[1..] == [];
    assert f[3..][1..] == f[4..] && f[4..][1..] == f[5..] && f[5..][1..] == f[6..];
    assert Covered(term, f[6..]);
    assert Covered(term, f[5..]);
    assert Covered(term, f[4..]);
    assert Covered(term, f[3..]);
  }

  // ---- which frames the codec accepts

  predicate EnumsOk(f: Frame) {
    f.mouse.tracking <= 4 && f.modes.kittyFlags <= 31 && f.pointerShape <= 33 && f.cursor.shape <= 4
  }

  predicate SpansSized(spans: seq<FrameSpan>) {
    forall i :: 0 <= i < |spans| ==> |spans[i].cells| <= MAX_PAYLOAD
  }

  /** Everything but the contents of the cell runs. */
  predicate Encodable(f: Frame) {
    FrameOk(f) && EnumsOk(f) && SpansSized(f.spans)
  }

  function SpansSize(spans: seq<FrameSpan>): nat {
    if spans == [] then 0 else 12 + |spans[0].cells| + SpansSize(spans[1..])
  }

  /** Header 53 bytes, span count 2, cursor shape and blink 2, then the rest. */
  function FrameSize(f: Frame): nat {
    57 + (if f.metadata.Some? then 4 + MetadataSize(f.metadata.value) else 4) + SpansSize(f.spans)
  }

  lemma FixedGroupsValid(f: Frame, context: Context)
    ensures Valid(Numbers(GRID_FIELDS), context, Nums(GridNumbers(f))) <==> f.paneId > 0
    ensures Valid(Numbers(CURSOR_FIELDS), context, Nums(CursorNumbers(f.cursor)))
    ensures Valid(Numbers(MOUSE_FIELDS), context, Nums(MouseNumbers(f.mouse))) <==> f.mouse.tracking <= 4
    ensures Valid(Numbers(SCROLL_FIELDS), context, Nums(ScrollNumbers(f.scroll)))
    ensures Valid(Numbers(TAIL_FIELDS), context, Nums(TailNumbers(f.cursor))) <==> f.cursor.shape <= 4
  {
    Pow256Values();
    NumsInverse(GridNumbers(f));
    NumsInverse(CursorNumbers(f.cursor));
    NumsInverse(MouseNumbers(f.mouse));
    NumsInverse(ScrollNumbers(f.scroll));
    NumsInverse(TailNumbers(f.cursor));
    NumbersValid(GRID_FIELDS, context, Nums(GridNumbers(f)));
    NumbersValid(CURSOR_FIELDS, context, Nums(CursorNumbers(f.cursor)));
    NumbersValid(MOUSE_FIELDS, context, Nums(MouseNumbers(f.mouse)));
    NumbersValid(SCROLL_FIELDS, context, Nums(ScrollNumbers(f.scroll)));
    NumbersValid(TAIL_FIELDS, context, Nums(TailNumbers(f.cursor)));
    hide Numbers, Nums, NumsOf;
    assert InRange(GRID_FIELDS[0], GridNumbers(f)[0]) <==> f.paneId > 0;
    assert InRange(MOUSE_FIELDS[0], MouseNumbers(f.mouse)[0]) <==> f.mouse.tracking <= 4;
    assert InRange(TAIL_FIELDS[0], TailNumbers(f.cursor)[0]) <==> f.cursor.shape <= 4;
  }

  lemma ModesValid(m: InputModes, context: Context)
    ensures Valid(Numbers(MODE_FIELDS), context, Nums(ModeNumbers(m))) <==> m.kittyFlags <= 31
  {
    Pow256Values();
    NumsInverse(ModeNumbers(m));
    NumbersValid(MODE_FIELDS, context, Nums(ModeNumbers(m)));
    hide Numbers, Nums, NumsOf;
    assert InRange(MODE_FIELDS[6], ModeNumbers(m)[6]) <==> m.kittyFlags <= 31;
  }

  lemma FixedGroupSizes(f: Frame)
    ensures Size(Numbers(GRID_FIELDS), Nums(GridNumbers(f))) == 28
    ensures Size(Numbers(CURSOR_FIELDS), Nums(CursorNumbers(f.cursor))) == 5
    ensures Size(Numbers(MOUSE_FIELDS), Nums(MouseNumbers(f.mouse))) == 3
    ensures Size(Numbers(SCROLL_FIELDS), Nums(ScrollNumbers(f.scroll))) == 8
    ensures Size(Numbers(TAIL_FIELDS), Nums(TailNumbers(f.cursor))) == 2
  {
    NumbersSize(GRID_FIELDS, Nums(GridNumbers(f)));
    NumbersSize(CURSOR_FIELDS, Nums(CursorNumbers(f.cursor)));
    NumbersSize(MOUSE_FIELDS, Nums(MouseNumbers(f.mouse)));
    NumbersSize(SCROLL_FIELDS, Nums(ScrollNumbers(f.scroll)));
    NumbersSize(TAIL_FIELDS, Nums(TailNumbers(f.cursor)));
    hide Numbers, Nums;
    WidthSums(GRID_FIELDS);
    WidthSums(CURSOR_FIELDS);
    WidthSums(MOUSE_FIELDS);
    WidthSums(SCROLL_FIELDS);
    WidthSums(TAIL_FIELDS);
  }

  lemma ModesSize(m: InputModes)
    ensures Size(Numbers(MODE_FIELDS), Nums(ModeNumbers(m))) == 8
  {
    NumbersSize(MODE_FIELDS, Nums(ModeNumbers(m)));
    hide Numbers, Nums;
    WidthSums(MODE_FIELDS);
    assert WidthSum(MODE_FIELDS[6..]) == 2;
    assert WidthSum(MODE_FIELDS[4..]) == 4;
    assert WidthSum(MODE_FIELDS[2..]) == 6;
    assert WidthSum(MODE_FIELDS[0..]) == 8;
  }

  lemma HeadRecordValid(gs: Schema, cs: Schema, ms: Schema, os: Schema, ss: Schema,
                        g: Value, c: Value, m: Value, o: Value, p: nat, s: Value)
    requires gs.Record? && cs.Record? && ms.Record? && os.Record? && ss.Record?
    ensures Valid(HeadRecord(gs, cs, ms, os, ss), [], HeadItems(g, c, m, o, p, s))
      <==> Valid(gs, [], g) && Valid(cs, [], c) && Valid(ms, [], m) && Valid(os, [], o) && p <= 33 && Valid(ss, [], s)
    ensures Size(HeadRecord(gs, cs, ms, os, ss), HeadItems(g, c, m, o, p, s))
         == Size(gs, g) + Size(cs, c) + Size(ms, m) + Size(os, o) + 1 + Size(ss, s)
  {
    Pow256Values();
    var r, items := HeadRecord(gs, cs, ms, os, ss), HeadItems(g, c, m, o, p, s).items;
    RecordContext(gs, items[..0], g);
    RecordContext(cs, items[..1], c);
    RecordContext(ms, items[..2], m);
    RecordContext(os, items[..3], o);
    RecordContext(ss, items[..5], s);
    assert r.fields[0] == gs && r.fields[1] == cs && r.fields[2] == ms && r.fields[3] == os && r.fields[5] == ss;
    assert Valid(r.fields[4], items[..4], items[4]) <==> p <= 33;
    hide Valid;
    assert SizeFields(r, items, 6) == 0;
    assert SizeFields(r, items, 5) == Size(ss, s);
    assert SizeFields(r, items, 4) == 1 + SizeFields(r, items, 5);
    assert SizeFields(r, items, 3) == Size(os, o) + SizeFields(r, items, 4);
    assert SizeFields(r, items, 2) == Size(ms, m) + SizeFields(r, items, 3);
    assert SizeFields(r, items, 1) == Size(cs, c) + SizeFields(r, items, 2);
    assert SizeFields(r, items, 0) == Size(gs, g) + SizeFields(r, items, 1);
  }

  lemma RecordContext(s: Schema, context: Context, v: Value)
    requires s.Record?
    ensures Valid(s, context, v) == Valid(s, [], v)
  {}

  lemma HeadValid(f: Frame)
    ensures Valid(HeadSchema(), [], HeadValue(f)) <==>
      f.paneId > 0 && f.mouse.tracking <= 4 && f.modes.kittyFlags <= 31 && f.pointerShape <= 33
    ensures Size(HeadSchema(), HeadValue(f)) == 53
  {
    FixedGroupsValid(f, []);
    ModesValid(f.modes, []);
    FixedGroupSizes(f);
    ModesSize(f.modes);
    NumbersAreRecords(GRID_FIELDS);
    NumbersAreRecords(CURSOR_FIELDS);
    NumbersAreRecords(MOUSE_FIELDS);
    NumbersAreRecords(MODE_FIELDS);
    NumbersAreRecords(SCROLL_FIELDS);
    hide Numbers, Nums, Valid, Size, GridNumbers, CursorNumbers, MouseNumbers, ModeNumbers, ScrollNumbers;
    HeadRecordValid(Numbers(GRID_FIELDS), Numbers(CURSOR_FIELDS), Numbers(MOUSE_FIELDS), Numbers(MODE_FIELDS),
                    Numbers(SCROLL_FIELDS),
                    Nums(GridNumbers(f)), Nums(CursorNumbers(f.cursor)), Nums(MouseNumbers(f.mouse)),
                    Nums(ModeNumbers(f.modes)), f.pointerShape, Nums(ScrollNumbers(f.scroll)));
  }

  predicate SpansAccepted(spans: seq<FrameSpan>) {
    forall i :: 0 <= i < |spans| ==> spans[i].count >= 1 && |spans[i].cells| <= MAX_PAYLOAD
  }

  lemma SpansElements(spans: seq<FrameSpan>)
    ensures |SpanValues(spans)| == |spans|
    ensures (forall i :: 0 <= i < |SpanValues(spans)| ==> Valid(SpanSchema(), [], SpanValues(spans)[i]))
       <==> SpansAccepted(spans)
  {
    forall i | 0 <= i < |spans|
      ensures Valid(SpanSchema(), [], SpanValues(spans)[i]) <==> spans[i].count >= 1 && |spans[i].cells| <= MAX_PAYLOAD
    {
      SpanValid(spans[i], []);
    }
  }

  lemma {:induction false} SpansSizeIs(spans: seq<FrameSpan>)
    ensures SizeMany(Repeat(1, SpanSchema()), SpanValues(spans)) == SpansSize(spans)
    decreases |spans|
  {
    if spans != [] {
      SpanValid(spans[0], []);
      SpansSizeIs(spans[1..]);
      assert SpanValues(spans)[1..] == SpanValues(spans[1..]);
    }
  }

  // ---- frames as records

  lemma FrameRecordSize(hs: Schema, ts: Schema, ms: Schema, ss: Schema, rule: Value -> bool,
                        h: Value, t: Value, m: Value, spans: seq<Value>)
    ensures Size(FrameRecord(hs, ts, ms, ss, rule), FrameItems(h, t, m, spans))
         == Size(hs, h) + 2 + Size(ts, t) + Size(Framed(METADATA_LIMIT, ms), m) + SizeMany(Repeat(1, ss), spans)
  {
    var r, items := FrameRecord(hs, ts, ms, ss, rule), FrameItems(h, t, m, spans).items;
    assert SizeFields(r, items, 7) == 0;
    assert SizeFields(r, items, 6) == SizeMany(Repeat(1, ss), spans);
    assert SizeFields(r, items, 5) == SizeFields(r, items, 6);
    assert SizeFields(r, items, 4) == Size(Framed(METADATA_LIMIT, ms), m) + SizeFields(r, items, 5);
    assert SizeFields(r, items, 3) == Size(ts, t) + SizeFields(r, items, 4);
    assert SizeFields(r, items, 2) == SizeFields(r, items, 3);
    assert SizeFields(r, items, 1) == 2 + SizeFields(r, items, 2);
    assert SizeFields(r, items, 0) == Size(hs, h) + SizeFields(r, items, 1);
  }

  lemma FrameRecordValid(hs: Schema, ts: Schema, ms: Schema, ss: Schema, rule: Value -> bool,
                         h: Value, t: Value, m: Value, spans: seq<Value>)
    requires hs.Record? && ts.Record?
    ensures Valid(FrameRecord(hs, ts, ms, ss, rule), [], FrameItems(h, t, m, spans))
      <==> Valid(hs, [], h) && |spans| <= 4096 && Valid(ts, [], t) && Valid(Framed(METADATA_LIMIT, ms), [], m)
           && (forall i :: 0 <= i < |spans| ==> Valid(ss, [], spans[i])) && rule(FrameItems(h, t, m, spans))
  {
    Pow256Values();
    var r, items := FrameRecord(hs, ts, ms, ss, rule), FrameItems(h, t, m, spans).items;
    RecordContext(hs, items[..0], h);
    RecordContext(ts, items[..3], t);
    assert r.fields[0] == hs && r.fields[3] == ts;
    assert Valid(r.fields[1], items[..1], items[1]) <==> |spans| <= 4096;
    assert Valid(r.fields[2], items[..2], items[2]) && Valid(r.fields[5], items[..5], items[5]);
    assert Valid(r.fields[4], items[..4], items[4]) <==> Valid(Framed(METADATA_LIMIT, ms), [], m);
    assert Valid(r.fields[6], items[..6], items[6]) <==> forall i :: 0 <= i < |spans| ==> Valid(ss, [], spans[i]);
  }

  lemma FrameRecordParts(hs: Schema, ts: Schema, ms: Schema, ss: Schema, rule: Value -> bool, v: Value)
    requires hs.Record? && ts.Record? && Valid(FrameRecord(hs, ts, ms, ss, rule), [], v)
    ensures v.Many? && |v.items| == 7 && v.items[6].Many?
    ensures v == FrameItems(v.items[0], v.items[3], v.items[4], v.items[6].items)
  {
    var r, items := FrameRecord(hs, ts, ms, ss, rule), v.items;
    assert Valid(r.fields[2], items[..2], items[2]) && Valid(r.fields[5], items[..5], items[5]);
    assert Valid(r.fields[6], items[..6], items[6]);
    assert items == FrameItems(v.items[0], v.items[3], v.items[4], v.items[6].items).items;
  }

  lemma FrameSizeIs(f: Frame)
    ensures Size(FrameSchema(), FrameValue(f)) == FrameSize(f)
  {
    HeadValid(f);
    FixedGroupSizes(f);
    SpansSizeIs(f.spans);
    if f.metadata.Some? {
      MetadataValid(f.metadata.value);
    }
    MetadataOptionSize(f.metadata);
    hide Numbers, Nums, HeadSchema, HeadValue, MetadataSchema, MetadataOption, SpanSchema, SpanValues, Size, MetadataSize,
      FrameRule;
    FrameRecordSize(HeadSchema(), Numbers(TAIL_FIELDS), MetadataSchema(), SpanSchema(), FrameRule,
                    HeadValue(f), Nums(TailNumbers(f.cursor)), MetadataOption(f.metadata), SpanValues(f.spans));
  }

  lemma MetadataOptionSize(m: Option<TextMetadata>)
    ensures Size(Framed(METADATA_LIMIT, MetadataSchema()), MetadataOption(m))
         == if m.Some? then 4 + MetadataSize(m.value) else 4
    ensures Valid(Framed(METADATA_LIMIT, MetadataSchema()), [], MetadataOption(m))
       <==> (m.Some? ==> MetadataFits(m.value))
  {
    if m.Some? {
      MetadataValid(m.value);
    }
    hide MetadataSchema, MetadataValue;
  }

  /** The codec accepts exactly the valid frames whose enums and runs fit their fields. */
  lemma FrameValid(f: Frame)
    ensures Valid(FrameSchema(), [], FrameValue(f)) <==> Encodable(f)
  {
    HeadValid(f);
    HeadSchemaOk();
    NumbersAreRecords(TAIL_FIELDS);
    FixedGroupsValid(f, []);
    SpansElements(f.spans);
    MetadataOptionSize(f.metadata);
    FrameInverse(f);
    FrameAccepted(f);
    hide Numbers, Nums, HeadSchema, HeadValue, MetadataSchema, MetadataOption, SpanSchema, SpanValues, Valid,
      FrameOk, FrameOf, Encodable, MetadataFits, SpansAccepted, WellFormed;
    FrameRecordValid(HeadSchema(), Numbers(TAIL_FIELDS), MetadataSchema(), SpanSchema(), FrameRule,
                     HeadValue(f), Nums(TailNumbers(f.cursor)), MetadataOption(f.metadata), SpanValues(f.spans));
  }

  /** What the fields check is implied by, or listed beside, what `validate` checks. */
  lemma FrameAccepted(f: Frame)
    ensures Encodable(f) <==>
      f.paneId > 0 && f.mouse.tracking <= 4 && f.modes.kittyFlags <= 31 && f.pointerShape <= 33 && f.cursor.shape <= 4
      && |f.spans| <= 4096 && SpansAccepted(f.spans) && (f.metadata.Some? ==> MetadataFits(f.metadata.value)) && FrameOk(f)
  {}

  // ---- every value of the schema is a frame

  lemma HeadOfValid(v: Value)
    requires Valid(HeadSchema(), [], v)
    ensures v.Many? && |v.items| == 6 && v.items[4].Num? && v.items[4].n <= 33
    ensures v == HeadItems(v.items[0], v.items[1], v.items[2], v.items[3], v.items[4].n, v.items[5])
    ensures Valid(Numbers(GRID_FIELDS), [], v.items[0]) && Valid(Numbers(CURSOR_FIELDS), [], v.items[1])
    ensures Valid(Numbers(MOUSE_FIELDS), [], v.items[2]) && Valid(Numbers(MODE_FIELDS), [], v.items[3])
    ensures Valid(Numbers(SCROLL_FIELDS), [], v.items[5])
  {
    NumbersAreRecords(GRID_FIELDS);
    NumbersAreRecords(CURSOR_FIELDS);
    NumbersAreRecords(MOUSE_FIELDS);
    NumbersAreRecords(MODE_FIELDS);
    NumbersAreRecords(SCROLL_FIELDS);
    hide Numbers;
    HeadRecordParts(Numbers(GRID_FIELDS), Numbers(CURSOR_FIELDS), Numbers(MOUSE_FIELDS), Numbers(MODE_FIELDS),
                    Numbers(SCROLL_FIELDS), v);
    hide Valid;
    HeadRecordValid(Numbers(GRID_FIELDS), Numbers(CURSOR_FIELDS), Numbers(MOUSE_FIELDS), Numbers(MODE_FIELDS),
                    Numbers(SCROLL_FIELDS), v.items[0], v.items[1], v.items[2], v.items[3], v.items[4].n, v.items[5]);
  }

  lemma HeadRecordParts(gs: Schema, cs: Schema, ms: Schema, os: Schema, ss: Schema, v: Value)
    requires Valid(HeadRecord(gs, cs, ms, os, ss), [], v)
    ensures v.Many? && |v.items| == 6 && v.items[4].Num?
    ensures v == HeadItems(v.items[0], v.items[1], v.items[2], v.items[3], v.items[4].n, v.items[5])
  {
    var r, items := HeadRecord(gs, cs, ms, os, ss), v.items;
    assert Valid(r.fields[4], items[..4], items[4]);
    assert items == HeadItems(items[0], items[1], items[2], items[3], items[4].n, items[5]).items;
  }

  lemma CursorOfValid(c: Value, t: Value)
    requires Valid(Numbers(CURSOR_FIELDS), [], c) && Valid(Numbers(TAIL_FIELDS), [], t)
    ensures Nums(CursorNumbers(CursorOf(c, t))) == c && Nums(TailNumbers(CursorOf(c, t))) == t
  {
    Pow256Values();
    NumbersValid(CURSOR_FIELDS, [], c);
    NumbersValid(TAIL_FIELDS, [], t);
    var ns, ts := NumsOf(c), NumsOf(t);
    assert InRange(CURSOR_FIELDS[0], ns[0]) && InRange(CURSOR_FIELDS[1], ns[1]) && InRange(CURSOR_FIELDS[2], ns[2]);
    assert InRange(TAIL_FIELDS[0], ts[0]) && InRange(TAIL_FIELDS[1], ts[1]);
    assert CursorNumbers(CursorOf(c, t)) == ns && TailNumbers(CursorOf(c, t)) == ts;
  }

  lemma MouseOfValid(v: Value)
    requires Valid(Numbers(MOUSE_FIELDS), [], v)
    ensures Nums(MouseNumbers(MouseOf(v))) == v
  {
    Pow256Values();
    NumbersValid(MOUSE_FIELDS, [], v);
    var ns := NumsOf(v);
    assert InRange(MOUSE_FIELDS[0], ns[0]) && InRange(MOUSE_FIELDS[1], ns[1]) && InRange(MOUSE_FIELDS[2], ns[2]);
    assert MouseNumbers(MouseOf(v)) == ns;
  }

  lemma ModesOfValid(v: Value)
    requires Valid(Numbers(MODE_FIELDS), [], v)
    ensures Nums(ModeNumbers(ModesOf(v))) == v
  {
    Pow256Values();
    NumbersValid(MODE_FIELDS, [], v);
    var ns := NumsOf(v);
    hide Numbers, Nums, NumsOf;
    assert InRange(MODE_FIELDS[0], ns[0]) && InRange(MODE_FIELDS[1], ns[1]) && InRange(MODE_FIELDS[2], ns[2]);
    assert InRange(MODE_FIELDS[3], ns[3]) && InRange(MODE_FIELDS[4], ns[4]) && InRange(MODE_FIELDS[5], ns[5]);
    assert InRange(MODE_FIELDS[6], ns[6]) && InRange(MODE_FIELDS[7], ns[7]);
    assert ModeNumbers(ModesOf(v)) == ns;
  }

  lemma ScrollOfValid(v: Value)
    requires Valid(Numbers(SCROLL_FIELDS), [], v)
    ensures Nums(ScrollNumbers(ScrollOf(v))) == v
  {
    Pow256Values();
    NumbersValid(SCROLL_FIELDS, [], v);
    var ns := NumsOf(v);
    assert InRange(SCROLL_FIELDS[0], ns[0]) && InRange(SCROLL_FIELDS[1], ns[1]);
    assert ScrollNumbers(ScrollOf(v)) == ns;
  }

  lemma GridOfValid(v: Value)
    requires Valid(Numbers(GRID_FIELDS), [], v)
    ensures var g := NumsOf(v);
      Nums([To64(At(g, 0)), To64(At(g, 1)), To64(At(g, 2)), To16(At(g, 3)), To16(At(g, 4))]) == v
  {
    Pow256Values();
    NumbersValid(GRID_FIELDS, [], v);
    var g := NumsOf(v);
    assert InRange(GRID_FIELDS[0], g[0]) && InRange(GRID_FIELDS[1], g[1]) && InRange(GRID_FIELDS[2], g[2]);
    assert InRange(GRID_FIELDS[3], g[3]) && InRange(GRID_FIELDS[4], g[4]);
    assert [To64(At(g, 0)), To64(At(g, 1)), To64(At(g, 2)), To16(At(g, 3)), To16(At(g, 4))] == g;
  }

  lemma SpansOfValid(items: seq<Value>)
    requires forall i :: 0 <= i < |items| ==> Valid(SpanSchema(), [], items[i])
    ensures SpanValues(seq(|items|, i requires 0 <= i < |items| => SpanOf(items[i]))) == items
  {
    forall i | 0 <= i < |items| ensures SpanValue(SpanOf(items[i])) == items[i] { SpanOfValid(items[i]); }
  }

  lemma HeadOfFrame(v: Value, f: Frame)
    requires v.Many? && |v.items| == 7 && f == FrameOf(v)
    requires Valid(HeadSchema(), [], v.items[0]) && Valid(Numbers(TAIL_FIELDS), [], v.items[3])
    ensures v.items[0] == HeadValue(f) && v.items[3] == Nums(TailNumbers(f.cursor))
  {
    var head := v.items[0];
    HeadOfValid(head);
    hide Numbers, Nums, NumsOf, HeadSchema, HeadItems, CursorOf, MouseOf, ModesOf, ScrollOf, MetadataOf, SpanOf,
      CursorNumbers, MouseNumbers, ModeNumbers, ScrollNumbers, TailNumbers;
    GridOfValid(head.items[0]);
    CursorOfValid(head.items[1], v.items[3]);
    MouseOfValid(head.items[2]);
    ModesOfValid(head.items[3]);
    ScrollOfValid(head.items[5]);
  }

  /** What decodes as a frame value is the value of the frame read from it. */
  lemma FrameOfValid(v: Value)
    requires Valid(FrameSchema(), [], v)
    ensures FrameValue(FrameOf(v)) == v
  {
    HeadSchemaOk();
    NumbersAreRecords(TAIL_FIELDS);
    hide Numbers, Nums, NumsOf, MetadataSchema, MetadataValue, MetadataOf, SpanSchema, SpanValues, HeadValue, HeadSchema,
      Valid, WellFormed, FrameRule, CursorOf, MouseOf, ModesOf, ScrollOf, TailNumbers;
    FrameRecordParts(HeadSchema(), Numbers(TAIL_FIELDS), MetadataSchema(), SpanSchema(), FrameRule, v);
    var items := v.items;
    FrameRecordValid(HeadSchema(), Numbers(TAIL_FIELDS), MetadataSchema(), SpanSchema(), FrameRule,
                     items[0], items[3], items[4], items[6].items);
    HeadOfFrame(v, FrameOf(v));
    SpansOfValid(items[6].items);
    MetadataOptionOf(items[4]);
  }

  lemma MetadataOptionOf(v: Value)
    requires Valid(Framed(METADATA_LIMIT, MetadataSchema()), [], v)
    ensures v.Absent? || v.Present?
    ensures MetadataOption(if v.Present? then Some(MetadataOf(v.inner)) else None) == v
  {
    hide MetadataSchema, MetadataOf, MetadataValue;
    if v.Present? {
      MetadataOfValid(v.inner);
    }
  }
}
