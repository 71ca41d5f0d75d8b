/** Messages and frames decoded into the caller's storage: the spans of a frame are
    carved at their count, before its metadata, and filled behind it
    (codecs/telar_codec.hpp, serializers/telar_frame.hpp). */
module StoredFrames {
  import opened Wire
  import opened Schemas
  import opened Storage
  import opened StoredDecodes
  import opened NumberRecords
  import opened Codecs
  import opened Frames
  import opened FrameCodec
  import opened FrameMessages

  method DecodeMessageStored(tag: byte, s: Schema, payload: seq<byte>, shape: Schema -> Shape,
                             storage: DecodeStorage, memory: array<Cell>) returns (r: Option<Stored>)
    requires WellFormed(s) && Standalone(s) && Backed(storage, memory)
    modifies storage, memory
    ensures Backed(storage, memory) && old(storage.at) <= storage.at && old(storage.refusals) <= storage.refusals
    ensures SameBelow(old(memory[..]), memory[..], old(storage.at))
    ensures old(storage.at) + Room(s, shape) <= storage.limit ==> storage.refusals == old(storage.refusals)
    ensures storage.refusals > old(storage.refusals) ==> r.None?
    ensures storage.refusals == old(storage.refusals) ==>
      match Parse(tag, s, payload)
      case None => r.None?
      case Some(v) => r.Some? && Shows(s, r.value, v, memory[..])
  {
    hide Shows, Decode, WellFormed, Room;
    if payload == [] || |payload| > MAX_PAYLOAD {
      return None;
    }
    var input := new InputSpan(payload);
    var t := input.TakeNumber(1);
    assert payload[..1][1..] == [] && FromLittleEndian(payload[..1]) == payload[0];
    if t != Some(tag) {
      return None;
    }
    r := DecodeStored(s, shape, input, storage, memory);
    if r.Some? && input.rest != [] {
      r := None;
    }
  }

  /** The elements of a frame's lists in memory: links, runs and spans. */
  function FrameShape(s: Schema): Shape {
    if s.Record? && |s.fields| == 2 then Shape(8, 4)
    else if s.Record? && |s.fields| == 3 then Shape(12, 4)
    else Shape(24, 8)
  }

  /** The most storage a frame takes: its lists at their greatest counts, aligned. */
  const FRAME_ROOM: nat := 4096 * 24 + 7 + 256 * 8 + 3 + 2048 * 12 + 3

  lemma FrameRoomIs()
    ensures Room(FrameSchema(), FrameShape) == FRAME_ROOM
  {
    HeadHasNoLists();
    NumbersHaveNoLists(TAIL_FIELDS, FrameShape);
    MetadataRoomIs();
    SpanHasNoLists();
    hide Numbers, HeadSchema, MetadataSchema, SpanSchema, Room;
    RecordRoomIs(HeadSchema(), Numbers(TAIL_FIELDS), MetadataSchema(), SpanSchema(), FrameRule);
  }

  lemma RecordRoomIs(head: Schema, tail: Schema, metadata: Schema, span: Schema, rule: Value -> bool)
    requires head.Record? && tail.Record? && FrameShape(span) == Shape(24, 8)
    requires Room(head, FrameShape) == Room(tail, FrameShape) == Room(span, FrameShape) == 0
    ensures Room(FrameRecord(head, tail, metadata, span, rule), FrameShape) == 4096 * 24 + 7 + Room(metadata, FrameShape)
  {
    var s := FrameRecord(head, tail, metadata, span, rule);
    var f := s.fields;
    assert Room(Framed(METADATA_LIMIT, metadata), FrameShape) == Room(metadata, FrameShape);
    assert f[0] == head && f[1] == Number(2, 0, 4096) && f[2].Ahead? && f[3] == tail && f[4] == Framed(METADATA_LIMIT, metadata);
    assert f[5].Ahead? && f[6] == Repeat(1, span);
    assert OwnRoom(f, FrameShape, 1) == 0 && InnerRoom(s, FrameShape, 1) == 0;
    assert OwnRoom(f, FrameShape, 2) == 0 && InnerRoom(s, FrameShape, 2) == 0;
    assert OwnRoom(f, FrameShape, 3) == 0 && InnerRoom(s, FrameShape, 3) == 0;
    assert OwnRoom(f, FrameShape, 4) == 0 && InnerRoom(s, FrameShape, 4) == 0;
    assert OwnRoom(f, FrameShape, 6) == 0 && InnerRoom(s, FrameShape, 6) == Room(metadata, FrameShape);
    assert OwnRoom(f, FrameShape, 7) == 4096 * 24 + 7 && InnerRoom(s, FrameShape, 7) == Room(metadata, FrameShape);
  }

  lemma {:induction false} NumbersInnerRoom(fields: seq<Field>, shape: Schema -> Shape, k: nat)
    requires k <= |fields|
    ensures InnerRoom(Numbers(fields), shape, k) == 0 && OwnRoom(Numbers(fields).fields, shape, k) == 0
  {
    if k > 0 {
      NumbersInnerRoom(fields, shape, k - 1);
      assert Numbers(fields).fields[k - 1] == NumberOf(fields[k - 1]);
    }
  }

  lemma NumbersHaveNoLists(fields: seq<Field>, shape: Schema -> Shape)
    ensures Numbers(fields).Record? && Room(Numbers(fields), shape) == 0
  {
    NumbersInnerRoom(fields, shape, |fields|);
  }

  lemma HeadHasNoLists()
    ensures HeadSchema().Record? && Room(HeadSchema(), FrameShape) == 0
  {
    NumbersHaveNoLists(GRID_FIELDS, FrameShape);
    NumbersHaveNoLists(CURSOR_FIELDS, FrameShape);
    NumbersHaveNoLists(MOUSE_FIELDS, FrameShape);
    NumbersHaveNoLists(MODE_FIELDS, FrameShape);
    NumbersHaveNoLists(SCROLL_FIELDS, FrameShape);
    hide Numbers;
    var s := HeadSchema();
    assert InnerRoom(s, FrameShape, 3) == 0 && OwnRoom(s.fields, FrameShape, 3) == 0;
    assert InnerRoom(s, FrameShape, 6) == 0 && OwnRoom(s.fields, FrameShape, 6) == 0;
  }

  lemma SpanHasNoLists()
    ensures Room(SpanSchema(), FrameShape) == 0 && FrameShape(SpanSchema()) == Shape(24, 8)
  {
    var s := SpanSchema();
    assert InnerRoom(s, FrameShape, 2) == 0 && OwnRoom(s.fields, FrameShape, 2) == 0;
    assert InnerRoom(s, FrameShape, 4) == 0 && OwnRoom(s.fields, FrameShape, 4) == 0;
  }

  lemma MetadataRoomIs()
    ensures Room(MetadataSchema(), FrameShape) == 256 * 8 + 3 + 2048 * 12 + 3
  {
    NumbersHaveNoLists(LINK_FIELDS, FrameShape);
    NumbersHaveNoLists(RUN_FIELDS, FrameShape);
    assert FrameShape(Numbers(LINK_FIELDS)) == Shape(8, 4) && FrameShape(Numbers(RUN_FIELDS)) == Shape(12, 4);
    hide Numbers;
    var s := MetadataSchema();
    var f := s.fields;
    assert f[2] == Number(2, 0, 256) && f[3] == Number(2, 0, 2048);
    assert InnerRoom(s, FrameShape, 4) == 0 && OwnRoom(f, FrameShape, 4) == 0;
    assert InnerRoom(s, FrameShape, 7) == 0 && OwnRoom(f, FrameShape, 7) == 0;
    assert OwnRoom(f, FrameShape, 8) == 256 * 8 + 3;
    assert OwnRoom(f, FrameShape, 9) == 256 * 8 + 3 + 2048 * 12 + 3;
    assert InnerRoom(s, FrameShape, 10) == 0 && OwnRoom(f, FrameShape, 10) == OwnRoom(f, FrameShape, 9);
  }

  /** A frame decoded into the storage is the frame decoded on values, unless the
      storage refused one of its lists, which one with FRAME_ROOM bytes left never does. */
  method DecodeFrameStored(payload: seq<byte>, storage: DecodeStorage, memory: array<Cell>) returns (r: Option<Stored>)
    requires Backed(storage, memory)
    modifies storage, memory
    ensures Backed(storage, memory) && old(storage.at) <= storage.at && old(storage.refusals) <= storage.refusals
    ensures SameBelow(old(memory[..]), memory[..], old(storage.at))
    ensures old(storage.at) + FRAME_ROOM <= storage.limit ==> storage.refusals == old(storage.refusals)
    ensures storage.refusals > old(storage.refusals) ==> r.None?
    ensures storage.refusals == old(storage.refusals) ==>
      match ParseFrame(payload)
      case None => r.None?
      case Some(f) => r.Some? && FrameOf(Load(FrameSchema(), r.value, memory[..])) == f
  {
    hide Shows, Load, WellFormed, FrameSchema, FrameOf, Parse, Room;
    FrameSchemaOk();
    FrameRoomIs();
    r := DecodeMessageStored(PANE_FRAME, FrameSchema(), payload, FrameShape, storage, memory);
    if r.Some? {
      ShownIsLoaded(FrameSchema(), r.value, Parse(PANE_FRAME, FrameSchema(), payload).value, memory[..]);
    }
  }

  /** The spans are carved before the cursor shape and the metadata are read; links
      and runs are carved together, when the row flags were read. */
  lemma FrameMoments()
    ensures var f, m := FrameSchema().fields, MetadataSchema().fields;
      Moment(f, 6) == 3 && Moment(m, 7) == 7 && Moment(m, 8) == 7
      && f[4] == Framed(METADATA_LIMIT, MetadataSchema()) && f[6] == Repeat(1, SpanSchema())
  {
    var f, m := FrameSchema().fields, MetadataSchema().fields;
    assert !AnnouncedBy(f, 6, 0) && !AnnouncedBy(f, 6, 1) && !AnnouncedBy(f, 6, 2) && AnnouncedBy(f, 6, 3);
    assert Announced(f, 6, 2) == 3;
    assert Announced(f, 6, 1) == 3;
    NeverAnnounced(m, 7, 0);
    NeverAnnounced(m, 8, 0);
    assert RunStart(m, 7) == 7;
  }

  lemma {:induction false} NeverAnnounced(fields: seq<Schema>, j: nat, i: nat)
    requires i <= j < |fields| && fields[j].Repeat?
    requires forall k :: 0 <= k < |fields| && fields[k].Ahead? ==> |fields[k].terms| > 1
    ensures Announced(fields, j, i) == 0
    decreases j - i
  {
    if i < j {
      NeverAnnounced(fields, j, i + 1);
    }
  }
}
