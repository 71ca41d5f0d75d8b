/** Frame messages: round trip, one payload per frame, and the size budget. */
module FrameMessages {
  import opened Wire
  import opened Schemas
  import opened PreparedValues
  import opened Codecs
  import opened PreparedFrames
  import opened Frames
  import opened FrameCodec
  import opened FrameBytes
  import Cells

  predicate AllReadable(spans: seq<FrameSpan>) {
    forall i :: 0 <= i < |spans| ==> Cells.ReadRun(None, spans[i].count, spans[i].cells).Some?
  }

  /** The payload of a frame; encoding, unlike decoding, also reads every cell run. */
  function FramePayload(f: Frame): Option<seq<byte>> {
    if AllReadable(f.spans) then Message(PANE_FRAME, FrameSchema(), FrameValue(f)) else None
  }

  function ParseFrame(payload: seq<byte>): Option<Frame> {
    match Parse(PANE_FRAME, FrameSchema(), payload)
    case None => None
    case Some(v) => Some(FrameOf(v))
  }

  /** What the validator and the size pass let through, with room for it. */
  predicate Starts(f: Frame, room: nat) {
    FrameOk(f) && SpansSized(f.spans) && 1 + FrameSize(f) <= MAX_PAYLOAD && 1 + FrameSize(f) <= room
  }

  /** The buffer is untouched exactly when the validator, the size pass or the check
      of its room refuse. A run that cannot be read is found once the tag is written, an
      enum out of its range once everything before it is written. */
  method EncodeFrame(f: Frame, buffer: array<byte>) returns (size: Option<nat>)
    modifies buffer
    ensures match FramePayload(f)
            case None => size == None
            case Some(payload) => size == if |payload| <= buffer.Length then Some(|payload|) else None
    ensures !Starts(f, buffer.Length) ==> buffer[..] == old(buffer[..])
    ensures Starts(f, buffer.Length) && !AllReadable(f.spans) ==> buffer[..] == [PANE_FRAME] + old(buffer[..])[1..]
    ensures Starts(f, buffer.Length) && AllReadable(f.spans) ==>
      Valid(Relax(FrameSchema()), [], FrameValue(f))
      && Progress(FrameSchema(), [], FrameValue(f)) <= |Encode(Relax(FrameSchema()), [], FrameValue(f))| == FrameSize(f)
      && buffer[..] == [PANE_FRAME] + Encode(Relax(FrameSchema()), [], FrameValue(f))[..Progress(FrameSchema(), [], FrameValue(f))]
                       + old(buffer[..])[1 + Progress(FrameSchema(), [], FrameValue(f))..]
    ensures size.Some? ==>
      size.value <= buffer.Length && FramePayload(f) == Some(buffer[..size.value])
      && buffer[..size.value] == PayloadBytes(f)
      && buffer[size.value..] == old(buffer[size.value..])
  {
    hide PayloadBytes, FrameOk, Encodable, FrameSize, FrameSchema, FrameValue, Valid, Encode, Size, Relax, Progress, SpansSized, AllReadable,
      FramePayload, LittleEndian;
    var ok := Validate(f);
    FrameStarts(f);
    if !ok || !SpansSized(f.spans) || 1 + FrameSize(f) > MAX_PAYLOAD || buffer.Length < 1 + FrameSize(f) {
      return None;
    }
    var wrote := WriteFrame(f, buffer);
    if !wrote {
      return None;
    }
    assert buffer[..1 + FrameSize(f)] == [PANE_FRAME] + Encode(FrameSchema(), [], FrameValue(f));
    BodyBytes(f);
    size := Some(1 + FrameSize(f));
  }

  /** The tag, the check of every run, the fields. */
  method WriteFrame(f: Frame, buffer: array<byte>) returns (ok: bool)
    requires Starts(f, buffer.Length) && Valid(Relax(FrameSchema()), [], FrameValue(f))
    modifies buffer
    ensures ok == (AllReadable(f.spans) && Valid(FrameSchema(), [], FrameValue(f)))
    ensures !AllReadable(f.spans) ==> buffer[..] == [PANE_FRAME] + old(buffer[..])[1..]
    ensures AllReadable(f.spans) ==>
      Progress(FrameSchema(), [], FrameValue(f)) <= |Encode(Relax(FrameSchema()), [], FrameValue(f))| == FrameSize(f)
      && buffer[..] == [PANE_FRAME] + Encode(Relax(FrameSchema()), [], FrameValue(f))[..Progress(FrameSchema(), [], FrameValue(f))]
                       + old(buffer[..])[1 + Progress(FrameSchema(), [], FrameValue(f))..]
  {
    hide FrameOk, FrameSize, FrameSchema, FrameValue, Valid, Encode, Size, Relax, Progress, SpansSized, AllReadable, FramePayload,
      LittleEndian;
    FrameStarts(f);
    ghost var before := buffer[..];
    var output := new OutputSpan(buffer, 1 + FrameSize(f));
    output.PutNumber(PANE_FRAME, 1);
    assert LittleEndian(PANE_FRAME, 1) == [PANE_FRAME] by {
      OneByte(PANE_FRAME);
    }
    assert before[..0] == [];
    ok := ReadAllRuns(f.spans);
    if ok {
      ok := EncodeAfter(FrameSchema(), [], FrameValue(f), output, before, 0, [PANE_FRAME]);
    }
  }

  /** Every run is read to its end before the first field is written. */
  method ReadAllRuns(spans: seq<FrameSpan>) returns (readable: bool)
    ensures readable == AllReadable(spans)
  {
    for i := 0 to |spans|
      invariant AllReadable(spans[..i])
    {
      readable := Cells.Readable(spans[i].cells, spans[i].count);
      if !readable {
        return;
      }
      assert spans[..i + 1] == spans[..i] + [spans[i]];
    }
    assert spans[..|spans|] == spans;
    readable := true;
  }

  /** The payload in the terms the encoder works with. */
  lemma FrameStarts(f: Frame)
    ensures Valid(Relax(FrameSchema()), [], FrameValue(f)) <==> FrameOk(f) && SpansSized(f.spans)
    ensures Size(FrameSchema(), FrameValue(f)) == FrameSize(f)
    ensures Valid(Relax(FrameSchema()), [], FrameValue(f)) ==> |Encode(Relax(FrameSchema()), [], FrameValue(f))| == FrameSize(f)
    ensures Valid(FrameSchema(), [], FrameValue(f)) ==>
      FrameOk(f) && SpansSized(f.spans)
      && Encode(Relax(FrameSchema()), [], FrameValue(f)) == Encode(FrameSchema(), [], FrameValue(f))
      && Progress(FrameSchema(), [], FrameValue(f)) == FrameSize(f)
    ensures FramePayload(f) ==
      if AllReadable(f.spans) && Valid(FrameSchema(), [], FrameValue(f)) && 1 + FrameSize(f) <= MAX_PAYLOAD
      then Some([PANE_FRAME] + Encode(FrameSchema(), [], FrameValue(f))) else None
    ensures FramePayload(f).Some? ==> |FramePayload(f).value| == 1 + FrameSize(f)
  {
    FrameReady(f);
    FrameSizeIs(f);
    hide FrameOk, FrameSize, FrameSchema, FrameValue, Valid, Encode, Size, Relax, Progress, SpansSized, AllReadable;
    if Valid(FrameSchema(), [], FrameValue(f)) {
      RelaxValid(FrameSchema(), [], FrameValue(f));
    }
    if Valid(Relax(FrameSchema()), [], FrameValue(f)) {
      SizeIsLength(Relax(FrameSchema()), [], FrameValue(f));
      RelaxSize(FrameSchema(), FrameValue(f));
    }
  }

  /** A frame has a payload exactly when it is valid, readable and within the limit. */
  lemma PayloadSize(f: Frame)
    ensures FramePayload(f).Some? <==> Encodable(f) && AllReadable(f.spans) && 1 + FrameSize(f) <= MAX_PAYLOAD
    ensures FramePayload(f).Some? ==> |FramePayload(f).value| == 1 + FrameSize(f)
  {
    FrameValid(f);
    FrameSizeIs(f);
    hide FrameSchema, FrameValue, Encodable, FrameSize, Valid, Encode, Size;
    if Encodable(f) {
      SizeIsLength(FrameSchema(), [], FrameValue(f));
    }
  }

  /** Decoding an encoded frame returns the same frame. */
  lemma FrameRoundTrip(f: Frame)
    requires FramePayload(f).Some?
    ensures ParseFrame(FramePayload(f).value) == Some(f)
  {
    hide FrameSchema, FrameValue, Valid, Encode, Decode, FrameOf, WellFormed, Message, Parse;
    FrameSchemaOk();
    MessageRoundTrip(PANE_FRAME, FrameSchema(), FrameValue(f));
    FrameInverse(f);
  }

  /** A payload that decodes to a frame with readable runs is that frame's payload:
      there is one encoding per frame. */
  lemma FrameCanonical(payload: seq<byte>)
    requires ParseFrame(payload).Some?
    ensures Encodable(ParseFrame(payload).value)
    ensures AllReadable(ParseFrame(payload).value.spans) ==> FramePayload(ParseFrame(payload).value) == Some(payload)
  {
    var v := Parse(PANE_FRAME, FrameSchema(), payload).value;
    FrameSchemaOk();
    MessageCanonical(PANE_FRAME, FrameSchema(), payload);
    MessageIsValid(PANE_FRAME, FrameSchema(), v);
    FrameOfValid(v);
    FrameValid(FrameOf(v));
  }

  /** Every payload of a frame, written or read, is these bytes. */
  lemma FrameLayout(f: Frame, payload: seq<byte>)
    requires FramePayload(f) == Some(payload) || ParseFrame(payload) == Some(f)
    ensures payload == PayloadBytes(f)
  {
    hide FrameSchema, FrameValue, FrameOf, Valid, Encode, Decode, PayloadBytes, WellFormed, FrameOk;
    if FramePayload(f) == Some(payload) {
      BodyBytes(f);
    } else {
      FrameSchemaOk();
      var v := Parse(PANE_FRAME, FrameSchema(), payload).value;
      MessageCanonical(PANE_FRAME, FrameSchema(), payload);
      MessageIsValid(PANE_FRAME, FrameSchema(), v);
      FrameOfValid(v);
      BodyBytes(f);
    }
  }

  lemma MessageIsValid(tag: byte, s: Schema, v: Value)
    requires Message(tag, s, v).Some?
    ensures Valid(s, [], v)
  {}

  // ---- the budget

  /** Field by field: 74 fixed bytes, the largest metadata, 31 bytes a cell. */
  function WorstCase(cells: nat): nat {
    74 + METADATA_LIMIT + 31 * cells
  }

  /** MAX_CELLS is the largest grid the worst case leaves room for; 3 bytes remain. */
  lemma BudgetIsTight()
    ensures forall cells: nat :: WorstCase(cells) <= MAX_PAYLOAD <==> cells <= MAX_CELLS
    ensures MAX_PAYLOAD - WorstCase(MAX_CELLS) == 3
  {}

  /** Every valid snapshot with a readable run encodes within the frame limit,
      on every grid the validator accepts. */
  lemma SnapshotFits(f: Frame)
    requires FrameOk(f) && EnumsOk(f) && f.baseFrameId == 0 && AllReadable(f.spans)
    ensures FramePayload(f).Some?
    ensures |FramePayload(f).value| <= 74 + 87563 + f.rows + 31 * (f.cols * f.rows) <= WorstCase(f.cols * f.rows) <= MAX_PAYLOAD
  {
    var span := f.spans[0];
    Cells.ReadRunNotShorter(None, span.count, span.cells);
    assert f.spans[1..] == [] && SpansSize(f.spans) == 12 + |span.cells|;
    assert MetadataSize(f.metadata.value) <= 11 + f.rows + 6 * 256 + 10 * 2048 + 65536;
    BudgetIsTight();
    assert WorstCase(f.cols * f.rows) <= MAX_PAYLOAD;
    assert SpansSized(f.spans);
    PayloadSize(f);
  }
}
