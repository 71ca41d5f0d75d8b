/** Which frames the encoder starts to write, and where a number out of its range
    stops it: the message validator looks at neither the pointer shape, the mouse
    tracking, the keyboard flags nor the cursor shape (serializers/telar_frame.hpp). */
module PreparedFrames {
  import opened Wire
  import opened Schemas
  import opened PreparedValues
  import opened NumberRecords
  import opened Codecs
  import opened Frames
  import opened FrameCodec

  function Widest(f: Field): Field {
    Field(f.width, 0, Pow256(f.width) - 1)
  }

  function WidestOf(fields: seq<Field>): seq<Field> {
    seq(|fields|, i requires 0 <= i < |fields| => Widest(fields[i]))
  }

  lemma RelaxNumbers(fields: seq<Field>)
    ensures Relax(Numbers(fields)) == Numbers(WidestOf(fields))
  {
    NothingCounted(Numbers(fields));
    forall i | 0 <= i < |fields| ensures Relax(Numbers(fields)).fields[i] == NumberOf(WidestOf(fields)[i]) {
      assert Numbers(fields).fields[i] == NumberOf(fields[i]);
    }
    assert Relax(Numbers(fields)).fields == Numbers(WidestOf(fields)).fields;
  }

  /** A record without lists and blobs is relaxed field by field. */
  lemma NothingCounted(s: Schema)
    requires s.Record? && forall j :: 0 <= j < |s.fields| ==> !s.fields[j].Blob? && !s.fields[j].Repeat?
    ensures Relax(s).Record? && |Relax(s).fields| == |s.fields| && Relax(s).rule == s.rule
    ensures forall i :: 0 <= i < |s.fields| ==> Relax(s).fields[i] == Relax(s.fields[i])
  {}

  lemma RelaxedNumbersValid(fields: seq<Field>, context: Context, ns: seq<nat>)
    requires |ns| == |fields| && forall i :: 0 <= i < |ns| ==> ns[i] < Pow256(fields[i].width)
    ensures Valid(Relax(Numbers(fields)), context, Nums(ns))
  {
    RelaxNumbers(fields);
    NumsInverse(ns);
    NumbersValid(WidestOf(fields), context, Nums(ns));
  }

  /** The head of any frame fits, whatever its enums. */
  lemma HeadReady(f: Frame)
    ensures Relax(HeadSchema()).Record? && Valid(Relax(HeadSchema()), [], HeadValue(f))
  {
    hide Numbers, Nums, Relax, Valid;
    var s, items := HeadSchema(), HeadValue(f).items;
    HeadGroups();
    NothingCounted(s);
    GroupsReady(f, items);
    PointerReady(items[..4], f.pointerShape);
    ReadyFields(s, items);
  }

  lemma GroupsReady(f: Frame, items: seq<Value>)
    requires |items| == 6
    ensures Valid(Relax(Numbers(GRID_FIELDS)), items[..0], Nums(GridNumbers(f)))
    ensures Valid(Relax(Numbers(CURSOR_FIELDS)), items[..1], Nums(CursorNumbers(f.cursor)))
    ensures Valid(Relax(Numbers(MOUSE_FIELDS)), items[..2], Nums(MouseNumbers(f.mouse)))
    ensures Valid(Relax(Numbers(MODE_FIELDS)), items[..3], Nums(ModeNumbers(f.modes)))
    ensures Valid(Relax(Numbers(SCROLL_FIELDS)), items[..5], Nums(ScrollNumbers(f.scroll)))
  {
    hide Numbers, Nums, Relax, Valid;
    Pow256Values();
    RelaxedNumbersValid(GRID_FIELDS, items[..0], GridNumbers(f));
    RelaxedNumbersValid(CURSOR_FIELDS, items[..1], CursorNumbers(f.cursor));
    RelaxedNumbersValid(MOUSE_FIELDS, items[..2], MouseNumbers(f.mouse));
    RelaxedNumbersValid(MODE_FIELDS, items[..3], ModeNumbers(f.modes));
    RelaxedNumbersValid(SCROLL_FIELDS, items[..5], ScrollNumbers(f.scroll));
  }

  lemma HeadGroups()
    ensures Numbers(GRID_FIELDS).Record? && Numbers(CURSOR_FIELDS).Record? && Numbers(MOUSE_FIELDS).Record?
    ensures Numbers(MODE_FIELDS).Record? && Numbers(SCROLL_FIELDS).Record? && Numbers(TAIL_FIELDS).Record?
  {}

  lemma PointerReady(context: Context, n: byte)
    ensures Valid(Relax(Number(1, 0, 33)), context, Num(n))
  {
    Pow256Values();
  }

  lemma ReadyFields(s: Schema, items: seq<Value>)
    requires s.Record? && s.rule == ANY && |s.fields| == |items| == 6
    requires Relax(s).Record? && |Relax(s).fields| == 6 && Relax(s).rule == ANY
    requires forall i :: 0 <= i < 6 ==> Relax(s).fields[i] == Relax(s.fields[i])
    requires Valid(Relax(s.fields[0]), items[..0], items[0]) && Valid(Relax(s.fields[1]), items[..1], items[1])
    requires Valid(Relax(s.fields[2]), items[..2], items[2]) && Valid(Relax(s.fields[3]), items[..3], items[3])
    requires Valid(Relax(s.fields[4]), items[..4], items[4]) && Valid(Relax(s.fields[5]), items[..5], items[5])
    ensures Valid(Relax(s), [], Many(items))
  {
    hide Relax;
  }

  lemma RelaxFrame(hs: Schema, ts: Schema, ms: Schema, ss: Schema, rule: Value -> bool)
    requires hs.Record? && ts.Record?
    ensures Relax(FrameRecord(hs, ts, ms, ss, rule)) == FrameRecord(Relax(hs), Relax(ts), Relax(ms), Relax(ss), rule)
    ensures Relax(hs).Record? && Relax(ts).Record?
  {
    var s := FrameRecord(hs, ts, ms, ss, rule);
    assert Counts(s.fields[6], 1);
    assert Relax(s).fields == FrameRecord(Relax(hs), Relax(ts), Relax(ms), Relax(ss), rule).fields;
  }

  /** The size of a span's cells is checked before anything is written. */
  lemma SpanReady(s: FrameSpan)
    requires Valid(Relax(SpanSchema()), [], SpanValue(s))
    ensures |s.cells| <= MAX_PAYLOAD
  {
    var schema, items := SpanSchema(), SpanValue(s).items;
    assert Counts(schema.fields[3], 2);
    assert Valid(Relax(schema).fields[2], items[..2], items[2]);
  }

  /** The encoder starts writing exactly the frames that are valid and whose runs
      fit their length fields, whatever their enums. */
  lemma FrameReady(f: Frame)
    ensures Valid(Relax(FrameSchema()), [], FrameValue(f)) <==> FrameOk(f) && SpansSized(f.spans)
  {
    HeadReady(f);
    HeadSchemaOk();
    HeadGroups();
    TailReady(f);
    FrameInverse(f);
    FrameParts(f);
    SpansReady(f.spans);
    hide Numbers, Nums, HeadSchema, HeadValue, MetadataSchema, MetadataOption, SpanSchema, SpanValues, Valid, Relax,
      FrameOk, FrameOf, SpansSized, SpansAccepted, WellFormed, TailNumbers;
    RelaxFrame(HeadSchema(), Numbers(TAIL_FIELDS), MetadataSchema(), SpanSchema(), FrameRule);
    FrameRecordValid(Relax(HeadSchema()), Relax(Numbers(TAIL_FIELDS)), Relax(MetadataSchema()), Relax(SpanSchema()), FrameRule,
                     HeadValue(f), Nums(TailNumbers(f.cursor)), MetadataOption(f.metadata), SpanValues(f.spans));
  }

  lemma TailReady(f: Frame)
    ensures Valid(Relax(Numbers(TAIL_FIELDS)), [], Nums(TailNumbers(f.cursor)))
  {
    Pow256Values();
    RelaxedNumbersValid(TAIL_FIELDS, [], TailNumbers(f.cursor));
  }

  lemma FrameParts(f: Frame)
    ensures FrameOk(f) ==> |f.spans| <= 4096 && (SpansSized(f.spans) ==> SpansAccepted(f.spans))
    ensures FrameOk(f) ==> Valid(Framed(METADATA_LIMIT, Relax(MetadataSchema())), [], MetadataOption(f.metadata))
  {
    if !FrameOk(f) {
      return;
    }
    MetadataOptionSize(f.metadata);
    assert f.metadata.Some? ==> MetadataFits(f.metadata.value);
    hide MetadataSchema, MetadataOption;
    RelaxValid(Framed(METADATA_LIMIT, MetadataSchema()), [], MetadataOption(f.metadata));
  }

  lemma SpansReady(spans: seq<FrameSpan>)
    ensures |SpanValues(spans)| == |spans|
    ensures SpansAccepted(spans) ==> forall i :: 0 <= i < |spans| ==> Valid(Relax(SpanSchema()), [], SpanValues(spans)[i])
    ensures (forall i :: 0 <= i < |spans| ==> Valid(Relax(SpanSchema()), [], SpanValues(spans)[i])) ==> SpansSized(spans)
  {
    forall i | 0 <= i < |spans|
      ensures SpansAccepted(spans) ==> Valid(Relax(SpanSchema()), [], SpanValues(spans)[i])
      ensures Valid(Relax(SpanSchema()), [], SpanValues(spans)[i]) ==> |spans[i].cells| <= MAX_PAYLOAD
    {
      SpanValid(spans[i], []);
      if SpansAccepted(spans) {
        RelaxValid(SpanSchema(), [], SpanValue(spans[i]));
      }
      if Valid(Relax(SpanSchema()), [], SpanValue(spans[i])) {
        SpanReady(spans[i]);
      }
    }
  }

  /** A frame that decodes or encodes, with its pointer shape made unknown, passes
      the validator and the size pass, and stops the writing after 44 bytes of its body. */
  lemma UnknownPointer(f: Frame, shape: byte)
    requires Encodable(f) && shape > 33
    ensures var g := f.(pointerShape := shape);
      FrameOk(g) && SpansSized(g.spans) && !EnumsOk(g) && FrameSize(g) == FrameSize(f)
      && Progress(FrameSchema(), [], FrameValue(g)) == 44
  {
    var g := f.(pointerShape := shape);
    assert FrameOk(g);
    PointerStops(g);
  }

  lemma PointerStops(f: Frame)
    requires FrameOk(f) && f.mouse.tracking <= 4 && f.modes.kittyFlags <= 31 && f.pointerShape > 33
    ensures Progress(FrameSchema(), [], FrameValue(f)) == 44
  {
    assert f.paneId > 0;
    FixedGroupsValid(f, []);
    ModesValid(f.modes, []);
    FixedGroupSizes(f);
    ModesSize(f.modes);
    HeadGroups();
    hide Numbers, Nums, Valid, Size, GridNumbers, CursorNumbers, MouseNumbers, ModeNumbers, ScrollNumbers, FrameOk;
    HeadStops(Numbers(GRID_FIELDS), Numbers(CURSOR_FIELDS), Numbers(MOUSE_FIELDS), Numbers(MODE_FIELDS), Numbers(SCROLL_FIELDS),
              HeadValue(f).items);
    assert FrameValue(f).items[0] == HeadValue(f) && FrameValue(f).items[..0] == [];
  }

  lemma HeadStops(g: Schema, c: Schema, m: Schema, o: Schema, s: Schema, items: seq<Value>)
    requires g.Record? && c.Record? && m.Record? && o.Record? && |items| == 6
    requires Valid(g, [], items[0]) && Valid(c, [], items[1]) && Valid(m, [], items[2]) && Valid(o, [], items[3])
    requires Size(g, items[0]) == 28 && Size(c, items[1]) == 5 && Size(m, items[2]) == 3 && Size(o, items[3]) == 8
    requires items[4].Num? && items[4].n > 33
    ensures Progress(HeadRecord(g, c, m, o, s), [], Many(items)) == 44
  {
    var r := HeadRecord(g, c, m, o, s);
    RecordContext(g, items[..0], items[0]);
    RecordContext(c, items[..1], items[1]);
    RecordContext(m, items[..2], items[2]);
    RecordContext(o, items[..3], items[3]);
    assert r.fields[4] == Number(1, 0, 33);
    assert !Valid(r.fields[4], items[..4], items[4]);
    assert ProgressFields(r, items, 4) == 0;
    assert ProgressFields(r, items, 3) == 8 + ProgressFields(r, items, 4);
    assert ProgressFields(r, items, 2) == 3 + ProgressFields(r, items, 3);
    assert ProgressFields(r, items, 1) == 5 + ProgressFields(r, items, 2);
    assert ProgressFields(r, items, 0) == 28 + ProgressFields(r, items, 1);
  }
}
