/** Where every field of a frame lies on the wire, in bytes
    (serializers/telar_frame.hpp). */
module FrameBytes {
  import opened Wire
  import opened Schemas
  import opened NumberRecords
  import opened Codecs
  import opened PackedBytes
  import opened Frames
  import opened FrameCodec

  // ---- the form

  function GridBytes(f: Frame): seq<byte> {
    LittleEndian(f.paneId, 8) + LittleEndian(f.frameId, 8) + LittleEndian(f.baseFrameId, 8)
    + LittleEndian(f.cols, 2) + LittleEndian(f.rows, 2)
  }

  function CursorBytes(c: Cursor): seq<byte> {
    [Bit(c.visible)] + LittleEndian(c.x, 2) + LittleEndian(c.y, 2)
  }

  function MouseBytes(m: Mouse): seq<byte> {
    [m.tracking, Bit(m.sgr), Bit(m.pixels)]
  }

  function ModeBytes(m: InputModes): seq<byte> {
    [Bit(m.cursorKeys), Bit(m.keypadKeys), Bit(m.bracketedPaste), Bit(m.focusEvents),
     Bit(m.alternateScroll), Bit(m.alternateScreen), m.kittyFlags, Bit(m.modifyOtherKeys2)]
  }

  function ScrollBytes(s: Scroll): seq<byte> {
    LittleEndian(s.totalRows, 4) + LittleEndian(s.offset, 4)
  }

  function LinkBytes(links: seq<MetadataLink>): seq<byte> {
    if links == [] then []
    else LittleEndian(links[0].offset, 4) + LittleEndian(links[0].len, 2) + LinkBytes(links[1..])
  }

  function RunBytes(runs: seq<MetadataRun>): seq<byte> {
    if runs == [] then []
    else LittleEndian(runs[0].start, 4) + LittleEndian(runs[0].len, 4) + LittleEndian(runs[0].linkIndex, 2) + RunBytes(runs[1..])
  }

  function MetadataBytes(m: TextMetadata): seq<byte> {
    Joined([
      [m.status], LittleEndian(|m.rowFlags|, 2), LittleEndian(|m.links|, 2), LittleEndian(|m.runs|, 2), LittleEndian(|m.uris|, 4),
      m.rowFlags, LinkBytes(m.links), RunBytes(m.runs), m.uris])
  }

  /** The length of the metadata, 0 for none, and the metadata. */
  function OptionBytes(m: Option<TextMetadata>): seq<byte> {
    if m.Some? then LittleEndian(|MetadataBytes(m.value)|, 4) + MetadataBytes(m.value) else [0, 0, 0, 0]
  }

  function SpanBytes(spans: seq<FrameSpan>): seq<byte> {
    if spans == [] then []
    else LittleEndian(spans[0].start, 4) + LittleEndian(spans[0].count, 4) + LittleEndian(|spans[0].cells|, 4) + spans[0].cells
         + SpanBytes(spans[1..])
  }

  /** Everything up to the cursor's blink is of fixed width. */
  function FixedBytes(f: Frame): seq<byte> {
    GridBytes(f) + CursorBytes(f.cursor) + MouseBytes(f.mouse) + ModeBytes(f.modes) + [f.pointerShape] + ScrollBytes(f.scroll)
    + TailBytes(f)
  }

  /** The span count, far ahead of the spans, and the rest of the cursor. */
  function TailBytes(f: Frame): seq<byte> {
    LittleEndian(|f.spans|, 2) + [f.cursor.shape, Bit(f.cursor.blink)]
  }

  function PayloadBytes(f: Frame): seq<byte> {
    [0x82] + FixedBytes(f) + (OptionBytes(f.metadata) + SpanBytes(f.spans))
  }

  // ---- groups of numbers

  lemma GridPacked(f: Frame)
    ensures Packed(GRID_FIELDS, GridNumbers(f), 0) == GridBytes(f)
  {
    var ns := GridNumbers(f);
    hide LittleEndian;
    assert Packed(GRID_FIELDS, ns, 5) == [];
    assert Packed(GRID_FIELDS, ns, 3) == LittleEndian(f.cols, 2) + LittleEndian(f.rows, 2);
    assert Packed(GRID_FIELDS, ns, 1) == LittleEndian(f.frameId, 8) + (LittleEndian(f.baseFrameId, 8) + Packed(GRID_FIELDS, ns, 3));
  }

  lemma CursorPacked(c: Cursor)
    ensures Packed(CURSOR_FIELDS, CursorNumbers(c), 0) == CursorBytes(c)
  {
    var ns := CursorNumbers(c);
    Pack1(CURSOR_FIELDS, ns, 0);
    hide LittleEndian;
    assert Packed(CURSOR_FIELDS, ns, 3) == [];
    assert Packed(CURSOR_FIELDS, ns, 1) == LittleEndian(c.x, 2) + LittleEndian(c.y, 2);
  }

  lemma MousePacked(m: Mouse)
    ensures Packed(MOUSE_FIELDS, MouseNumbers(m), 0) == MouseBytes(m)
  {
    BytesPacked(MOUSE_FIELDS, MouseBytes(m), 0);
  }

  lemma ModesPacked(m: InputModes)
    ensures Packed(MODE_FIELDS, ModeNumbers(m), 0) == ModeBytes(m)
  {
    BytesPacked(MODE_FIELDS, ModeBytes(m), 0);
  }

  lemma ScrollPacked(s: Scroll)
    ensures Packed(SCROLL_FIELDS, ScrollNumbers(s), 0) == ScrollBytes(s)
  {
    var ns := ScrollNumbers(s);
    hide LittleEndian;
    assert Packed(SCROLL_FIELDS, ns, 2) == [];
  }

  lemma TailPacked(c: Cursor)
    ensures Packed(TAIL_FIELDS, TailNumbers(c), 0) == [c.shape, Bit(c.blink)]
  {
    var ns := TailNumbers(c);
    Pack1(TAIL_FIELDS, ns, 0);
    Pack1(TAIL_FIELDS, ns, 1);
    hide LittleEndian;
    assert Packed(TAIL_FIELDS, ns, 2) == [];
  }

  // ---- records

  lemma FramedEncoded(f: Schema, context: Context, v: Value)
    requires f.Framed? && Valid(f, context, v)
    ensures Valid(f, [], v) && Encode(f, context, v) == Encode(f, [], v)
  {}

  lemma HeadEncoded(gs: Schema, cs: Schema, ms: Schema, os: Schema, ss: Schema,
                    g: Value, c: Value, m: Value, o: Value, p: byte, s: Value)
    requires gs.Record? && cs.Record? && ms.Record? && os.Record? && ss.Record?
    requires Valid(HeadRecord(gs, cs, ms, os, ss), [], HeadItems(g, c, m, o, p, s))
    ensures Valid(gs, [], g) && Valid(cs, [], c) && Valid(ms, [], m) && Valid(os, [], o) && Valid(ss, [], s)
    ensures Encode(HeadRecord(gs, cs, ms, os, ss), [], HeadItems(g, c, m, o, p, s))
      == Encode(gs, [], g) + Encode(cs, [], c) + Encode(ms, [], m) + Encode(os, [], o) + [p] + Encode(ss, [], s)
  {
    var r, items := HeadRecord(gs, cs, ms, os, ss), HeadItems(g, c, m, o, p, s).items;
    HeadRecordValid(gs, cs, ms, os, ss, g, c, m, o, p, s);
    assert r.fields[0] == gs && r.fields[1] == cs && r.fields[2] == ms && r.fields[3] == os && r.fields[5] == ss;
    assert r.fields[4] == Number(1, 0, 33);
    assert forall i :: 0 <= i < 6 ==> Valid(r.fields[i], items[..i], items[i]);
    SameEncode(gs, items[..0], g);
    SameEncode(cs, items[..1], c);
    SameEncode(ms, items[..2], m);
    SameEncode(os, items[..3], o);
    SameEncode(ss, items[..5], s);
    OneByte(p);
    assert Encode(r.fields[4], items[..4], items[4]) == [p];
    hide Encode, Valid, EncodeFields;
    var parts := [Encode(gs, [], g), Encode(cs, [], c), Encode(ms, [], m), Encode(os, [], o), [p], Encode(ss, [], s)];
    FieldsJoined(r, items, parts, 0);
    JoinSix(parts[0], parts[1], parts[2], parts[3], parts[4], parts[5]);
    assert parts[0..] == [parts[0], parts[1], parts[2], parts[3], parts[4], parts[5]];
  }

  lemma HeadPacked(f: Frame)
    requires Valid(HeadSchema(), [], HeadValue(f))
    ensures Encode(HeadSchema(), [], HeadValue(f))
      == GridBytes(f) + CursorBytes(f.cursor) + MouseBytes(f.mouse) + ModeBytes(f.modes) + [f.pointerShape] + ScrollBytes(f.scroll)
  {
    hide Numbers, Nums, Valid, Encode, Packed, GridNumbers, CursorNumbers, MouseNumbers, ModeNumbers, ScrollNumbers,
      GridBytes, CursorBytes, MouseBytes, ModeBytes, ScrollBytes;
    NumbersAreRecords(GRID_FIELDS);
    NumbersAreRecords(CURSOR_FIELDS);
    NumbersAreRecords(MOUSE_FIELDS);
    NumbersAreRecords(MODE_FIELDS);
    NumbersAreRecords(SCROLL_FIELDS);
    HeadEncoded(Numbers(GRID_FIELDS), Numbers(CURSOR_FIELDS), Numbers(MOUSE_FIELDS), Numbers(MODE_FIELDS), Numbers(SCROLL_FIELDS),
                Nums(GridNumbers(f)), Nums(CursorNumbers(f.cursor)), Nums(MouseNumbers(f.mouse)),
                Nums(ModeNumbers(f.modes)), f.pointerShape, Nums(ScrollNumbers(f.scroll)));
    NumbersPacked(GRID_FIELDS, GridNumbers(f), []);
    NumbersPacked(CURSOR_FIELDS, CursorNumbers(f.cursor), []);
    NumbersPacked(MOUSE_FIELDS, MouseNumbers(f.mouse), []);
    NumbersPacked(MODE_FIELDS, ModeNumbers(f.modes), []);
    NumbersPacked(SCROLL_FIELDS, ScrollNumbers(f.scroll), []);
    GridPacked(f);
    CursorPacked(f.cursor);
    MousePacked(f.mouse);
    ModesPacked(f.modes);
    ScrollPacked(f.scroll);
  }

  // ---- links, runs, spans and metadata

  lemma {:induction false} LinksPacked(links: seq<MetadataLink>)
    requires forall i :: 0 <= i < |links| ==> Valid(Numbers(LINK_FIELDS), [], LinkValues(links)[i])
    ensures EncodeMany(Repeat(2, Numbers(LINK_FIELDS)), LinkValues(links)) == LinkBytes(links)
    decreases |links|
  {
    hide Numbers, Nums, Valid, Encode, LittleEndian;
    if links != [] {
      assert LinkValues(links)[0] == LinkValue(links[0]);
      assert LinkValues(links)[1..] == LinkValues(links[1..]);
      forall i | 0 <= i < |links| - 1 ensures Valid(Numbers(LINK_FIELDS), [], LinkValues(links[1..])[i]) {
        assert LinkValues(links)[i + 1] == LinkValues(links[1..])[i];
      }
      var ns: seq<nat> := [links[0].offset, links[0].len];
      NumbersPacked(LINK_FIELDS, ns, []);
      assert Packed(LINK_FIELDS, ns, 2) == [];
      LinksPacked(links[1..]);
    }
  }

  lemma {:induction false} RunsPacked(runs: seq<MetadataRun>)
    requires forall i :: 0 <= i < |runs| ==> Valid(Numbers(RUN_FIELDS), [], RunValues(runs)[i])
    ensures EncodeMany(Repeat(3, Numbers(RUN_FIELDS)), RunValues(runs)) == RunBytes(runs)
    decreases |runs|
  {
    hide Numbers, Nums, Valid, Encode, LittleEndian;
    if runs != [] {
      assert RunValues(runs)[0] == RunValue(runs[0]);
      assert RunValues(runs)[1..] == RunValues(runs[1..]);
      forall i | 0 <= i < |runs| - 1 ensures Valid(Numbers(RUN_FIELDS), [], RunValues(runs[1..])[i]) {
        assert RunValues(runs)[i + 1] == RunValues(runs[1..])[i];
      }
      var ns: seq<nat> := [runs[0].start, runs[0].len, runs[0].linkIndex];
      NumbersPacked(RUN_FIELDS, ns, []);
      assert Packed(RUN_FIELDS, ns, 3) == [];
      assert Packed(RUN_FIELDS, ns, 1) == LittleEndian(runs[0].len, 4) + LittleEndian(runs[0].linkIndex, 2);
      RunsPacked(runs[1..]);
    }
  }

  lemma SpanPacked(s: FrameSpan)
    requires Valid(SpanSchema(), [], SpanValue(s))
    ensures Encode(SpanSchema(), [], SpanValue(s))
      == LittleEndian(s.start, 4) + LittleEndian(s.count, 4) + LittleEndian(|s.cells|, 4) + s.cells
  {
    hide LittleEndian, Encode, Valid;
    var r, items := SpanSchema(), SpanValue(s).items;
    RecordEncoded(r, items);
    assert Valid(r.fields[0], items[..0], items[0]) && Valid(r.fields[1], items[..1], items[1]);
    assert Valid(r.fields[2], items[..2], items[2]) && Valid(r.fields[3], items[..3], items[3]);
    NumberAt(r, items, 0, s.start, 4);
    NumberAt(r, items, 1, s.count, 4);
    NumberAt(r, items, 2, |s.cells|, 4);
    BlobAt(r, items, 3, s.cells);
    assert EncodeFields(r, items, 4) == [];
    assert EncodeFields(r, items, 2) == LittleEndian(|s.cells|, 4) + s.cells;
  }

  lemma {:induction false} SpansPacked(spans: seq<FrameSpan>)
    requires forall i :: 0 <= i < |spans| ==> Valid(SpanSchema(), [], SpanValues(spans)[i])
    ensures EncodeMany(Repeat(1, SpanSchema()), SpanValues(spans)) == SpanBytes(spans)
    decreases |spans|
  {
    hide SpanSchema, SpanValue, Valid, Encode, LittleEndian;
    if spans != [] {
      assert SpanValues(spans)[0] == SpanValue(spans[0]);
      assert SpanValues(spans)[1..] == SpanValues(spans[1..]);
      forall i | 0 <= i < |spans| - 1 ensures Valid(SpanSchema(), [], SpanValues(spans[1..])[i]) {
        assert SpanValues(spans)[i + 1] == SpanValues(spans[1..])[i];
      }
      SpanPacked(spans[0]);
      SpansPacked(spans[1..]);
    }
  }

  function MetadataItems(m: TextMetadata, links: seq<Value>, runs: seq<Value>): seq<Value> {
    [Num(m.status), Num(|m.rowFlags|), Num(|m.links|), Num(|m.runs|), Num(|m.uris|), Unit, Raw(m.rowFlags),
     Many(links), Many(runs), Raw(m.uris)]
  }

  predicate MetadataShaped(r: Schema) {
    && r.Record? && |r.fields| == 10
    && r.fields[0].Number? && r.fields[0].width == 1 && r.fields[1].Number? && r.fields[1].width == 2
    && r.fields[2].Number? && r.fields[2].width == 2 && r.fields[3].Number? && r.fields[3].width == 2
    && r.fields[4].Number? && r.fields[4].width == 4 && r.fields[5].Ahead? && r.fields[6].Blob?
    && r.fields[7].Repeat? && r.fields[8].Repeat? && r.fields[9].Blob?
  }

  /** The parts of a metadata record, whatever the schemas of its elements. */
  lemma MetadataEncoded(r: Schema, m: TextMetadata, links: seq<Value>, runs: seq<Value>, items: seq<Value>)
    requires MetadataShaped(r) && items == MetadataItems(m, links, runs) && |items| == 10 && Valid(r, [], Many(items))
    ensures forall i :: 0 <= i < |links| ==> Valid(r.fields[7].elem, [], links[i])
    ensures forall i :: 0 <= i < |runs| ==> Valid(r.fields[8].elem, [], runs[i])
    ensures Encode(r, [], Many(items)) == Joined(MetadataParts(m, EncodeMany(r.fields[7], links), EncodeMany(r.fields[8], runs)))
  {
    hide LittleEndian, Encode, EncodeFields, EncodeMany, Valid, Joined, MetadataItems, MetadataParts, MetadataShaped;
    MetadataShape(r);
    TenItems(m, links, runs);
    RecordEncoded(r, items);
    ListAt(r, items, 7, links);
    ListAt(r, items, 8, runs);
    var parts := MetadataParts(m, EncodeMany(r.fields[7], links), EncodeMany(r.fields[8], runs));
    TenParts(m, EncodeMany(r.fields[7], links), EncodeMany(r.fields[8], runs));
    forall i | 0 <= i < 10 ensures Encode(r.fields[i], items[..i], items[i]) == parts[i] {
      MetadataPart(r, m, links, runs, i);
    }
    RecordJoined(r, items, parts);
  }

  lemma MetadataShape(r: Schema)
    requires MetadataShaped(r)
    ensures r.Record? && |r.fields| == 10 && r.fields[7].Repeat? && r.fields[8].Repeat?
  {}

  lemma TenItems(m: TextMetadata, links: seq<Value>, runs: seq<Value>)
    ensures var items := MetadataItems(m, links, runs); |items| == 10 && items[7] == Many(links) && items[8] == Many(runs)
  {}

  lemma TenParts(m: TextMetadata, links: seq<byte>, runs: seq<byte>)
    ensures |MetadataParts(m, links, runs)| == 10
  {}

  lemma MetadataPart(r: Schema, m: TextMetadata, links: seq<Value>, runs: seq<Value>, i: nat)
    requires MetadataShaped(r) && i < 10
    requires forall j :: 0 <= j < 10 ==> Valid(r.fields[j], MetadataItems(m, links, runs)[..j], MetadataItems(m, links, runs)[j])
    requires forall k :: 0 <= k < |links| ==> Valid(r.fields[7].elem, [], links[k])
    requires forall k :: 0 <= k < |runs| ==> Valid(r.fields[8].elem, [], runs[k])
    ensures Encode(r.fields[i], MetadataItems(m, links, runs)[..i], MetadataItems(m, links, runs)[i])
         == MetadataParts(m, EncodeMany(r.fields[7], links), EncodeMany(r.fields[8], runs))[i]
  {
    hide LittleEndian, Encode, EncodeMany, Valid;
    var items := MetadataItems(m, links, runs);
    if i == 0 {
      NumberAt(r, items, 0, m.status, 1);
      OneByte(m.status);
    } else if i == 1 {
      NumberAt(r, items, 1, |m.rowFlags|, 2);
    } else if i == 2 {
      NumberAt(r, items, 2, |m.links|, 2);
    } else if i == 3 {
      NumberAt(r, items, 3, |m.runs|, 2);
    } else if i == 4 {
      NumberAt(r, items, 4, |m.uris|, 4);
    } else if i == 5 {
      CheckAt(r, items, 5);
    } else if i == 6 {
      BlobAt(r, items, 6, m.rowFlags);
    } else if i == 7 {
      ListAt(r, items, 7, links);
    } else if i == 8 {
      ListAt(r, items, 8, runs);
    } else {
      BlobAt(r, items, 9, m.uris);
    }
  }

  /** The early check of the arrays' lengths takes no bytes. */
  function MetadataParts(m: TextMetadata, links: seq<byte>, runs: seq<byte>): seq<seq<byte>> {
    [[m.status], LittleEndian(|m.rowFlags|, 2), LittleEndian(|m.links|, 2), LittleEndian(|m.runs|, 2), LittleEndian(|m.uris|, 4),
     [], m.rowFlags, links, runs, m.uris]
  }

  lemma {:induction false} WithoutEmpty(before: seq<seq<byte>>, after: seq<seq<byte>>)
    ensures Joined(before + [[]] + after) == Joined(before + after)
    decreases |before|
  {
    var empty: seq<byte> := [];
    if before == [] {
      assert before + [empty] + after == [empty] + after && ([empty] + after)[1..] == after && before + after == after;
      assert Joined([empty] + after) == empty + Joined(after);
    } else {
      WithoutEmpty(before[1..], after);
      assert (before + [[]] + after)[1..] == before[1..] + [[]] + after && (before + after)[1..] == before[1..] + after;
    }
  }

  lemma MetadataPacked(m: TextMetadata)
    requires Valid(MetadataSchema(), [], MetadataValue(m))
    ensures Encode(MetadataSchema(), [], MetadataValue(m)) == MetadataBytes(m)
  {
    hide Numbers, Valid, Encode, LittleEndian, EncodeMany, LinkBytes, RunBytes;
    MetadataEncoded(MetadataSchema(), m, LinkValues(m.links), RunValues(m.runs), MetadataValue(m).items);
    LinksPacked(m.links);
    RunsPacked(m.runs);
    var parts := MetadataParts(m, LinkBytes(m.links), RunBytes(m.runs));
    hide Joined;
    WithoutEmpty(parts[..5], parts[6..]);
    assert parts == parts[..5] + [[]] + parts[6..];
    assert parts[..5] + parts[6..] == [
      [m.status], LittleEndian(|m.rowFlags|, 2), LittleEndian(|m.links|, 2), LittleEndian(|m.runs|, 2), LittleEndian(|m.uris|, 4),
      m.rowFlags, LinkBytes(m.links), RunBytes(m.runs), m.uris];
  }

  lemma OptionPacked(m: Option<TextMetadata>)
    requires Valid(Framed(METADATA_LIMIT, MetadataSchema()), [], MetadataOption(m))
    ensures Encode(Framed(METADATA_LIMIT, MetadataSchema()), [], MetadataOption(m)) == OptionBytes(m)
  {
    if m.Some? {
      MetadataPacked(m.value);
      SizeIsLength(MetadataSchema(), [], MetadataValue(m.value));
      hide MetadataSchema, MetadataValue, MetadataBytes, LittleEndian;
    } else {
      assert LittleEndian(0, 4) == [0, 0, 0, 0] by {
        assert LittleEndian(0, 2) == [0, 0];
      }
    }
  }

  // ---- the frame

  lemma JoinFrame(a: seq<byte>, b: seq<byte>, d: seq<byte>, e: seq<byte>, g: seq<byte>)
    ensures Joined([a, b, [], d, e, [], g]) == a + b + d + e + g
  {
    var none: seq<byte> := [];
    assert Joined([g]) == g;
    assert [none, g][1..] == [g] && [e, none, g][1..] == [none, g] && [d, e, none, g][1..] == [e, none, g];
    assert [none, d, e, none, g][1..] == [d, e, none, g] && [b, none, d, e, none, g][1..] == [none, d, e, none, g];
    assert [a, b, none, d, e, none, g][1..] == [b, none, d, e, none, g];
    assert Joined([e, none, g]) == e + g;
    assert Joined([none, d, e, none, g]) == d + e + g;
    assert Joined([b, none, d, e, none, g]) == b + d + e + g;
  }

  lemma FrameEncoded(hs: Schema, ts: Schema, ms: Schema, ss: Schema, rule: Value -> bool,
                     h: Value, t: Value, m: Value, spans: seq<Value>)
    requires hs.Record? && ts.Record? && Valid(FrameRecord(hs, ts, ms, ss, rule), [], FrameItems(h, t, m, spans))
    ensures Valid(hs, [], h) && Valid(ts, [], t) && Valid(Framed(METADATA_LIMIT, ms), [], m)
    ensures forall i :: 0 <= i < |spans| ==> Valid(ss, [], spans[i])
    ensures Encode(FrameRecord(hs, ts, ms, ss, rule), [], FrameItems(h, t, m, spans))
      == Encode(hs, [], h) + LittleEndian(|spans|, 2) + Encode(ts, [], t) + Encode(Framed(METADATA_LIMIT, ms), [], m)
         + EncodeMany(Repeat(1, ss), spans)
  {
    hide LittleEndian, Encode, EncodeFields, EncodeMany, Valid;
    var r, items := FrameRecord(hs, ts, ms, ss, rule), FrameItems(h, t, m, spans).items;
    RecordEncoded(r, items);
    assert r.fields[0] == hs && r.fields[1] == Number(2, 0, 4096) && r.fields[2].Ahead? && r.fields[3] == ts;
    assert r.fields[4] == Framed(METADATA_LIMIT, ms) && r.fields[5].Ahead? && r.fields[6] == Repeat(1, ss);
    assert Valid(r.fields[0], items[..0], items[0]) && Valid(r.fields[1], items[..1], items[1]);
    assert Valid(r.fields[2], items[..2], items[2]) && Valid(r.fields[3], items[..3], items[3]);
    assert Valid(r.fields[4], items[..4], items[4]) && Valid(r.fields[5], items[..5], items[5]);
    assert Valid(r.fields[6], items[..6], items[6]);
    SameEncode(hs, items[..0], h);
    NumberAt(r, items, 1, |spans|, 2);
    CheckAt(r, items, 2);
    SameEncode(ts, items[..3], t);
    FramedEncoded(r.fields[4], items[..4], m);
    CheckAt(r, items, 5);
    ListAt(r, items, 6, spans);
    var a, b, d, e, g := Encode(hs, [], h), LittleEndian(|spans|, 2), Encode(ts, [], t), Encode(Framed(METADATA_LIMIT, ms), [], m),
      EncodeMany(Repeat(1, ss), spans);
    var parts := [a, b, [], d, e, [], g];
    FieldsJoined(r, items, parts, 0);
    JoinFrame(a, b, d, e, g);
    assert parts[0..] == parts;
  }

  lemma BodyBytes(f: Frame)
    requires Valid(FrameSchema(), [], FrameValue(f))
    ensures [0x82] + Encode(FrameSchema(), [], FrameValue(f)) == PayloadBytes(f)
  {
    hide Numbers, Nums, HeadSchema, HeadValue, MetadataSchema, MetadataOption, SpanSchema, SpanValue, Valid, Encode, EncodeMany,
      LittleEndian, Packed, TailNumbers, GridBytes, CursorBytes, MouseBytes, ModeBytes, ScrollBytes, OptionBytes, SpanBytes, FrameRule;
    HeadIsRecord();
    NumbersAreRecords(TAIL_FIELDS);
    FrameEncoded(HeadSchema(), Numbers(TAIL_FIELDS), MetadataSchema(), SpanSchema(), FrameRule,
                 HeadValue(f), Nums(TailNumbers(f.cursor)), MetadataOption(f.metadata), SpanValues(f.spans));
    HeadPacked(f);
    NumbersPacked(TAIL_FIELDS, TailNumbers(f.cursor), []);
    TailPacked(f.cursor);
    OptionPacked(f.metadata);
    SpansPacked(f.spans);
  }

  lemma HeadIsRecord()
    ensures HeadSchema().Record?
  {}
}
