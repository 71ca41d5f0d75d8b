/** The list of workspaces and worktrees, the one message the desktop receiver
    decodes into its storage, and the size of that storage
    (serializers/telar_messages.hpp, serializers/telar_protocol.hpp,
    runtime_receiver_worker.cppm). */
module Workspaces {
  import opened Wire
  import opened Schemas
  import opened Storage
  import opened StoredDecodes
  import opened StoredFrames
  import opened NumberRecords
  import opened Codecs
  import opened Texts

  const WORKSPACE_LIST: byte := 0x98

  const ABSOLUTE: Value -> bool :=
    (v: Value) => v.Many? && |v.items| == 20 && StartsWithSlash(v.items[6])

  predicate StartsWithSlash(text: Value) {
    text.Many? && |text.items| == 2 && text.items[1].Raw? && text.items[1].bytes != [] && text.items[1].bytes[0] == 0x2F
  }

  /** A coordinator names its session with some byte that is not zero. */
  const NAMED: Value -> bool :=
    (v: Value) => v.Many? && |v.items| == 3 && exists i :: 0 <= i < |NumsOf(v.items[0])| && NumsOf(v.items[0])[i] != 0

  function Text16(min: nat, max: nat, kind: Kind): Schema { TextSchema(2, min, max, kind) }
  function Num64(): Schema { NumberOf(NONZERO_U64) }
  function Num32(): Schema { NumberOf(U32) }
  function Code(max: nat): Schema { NumberOf(Enum(max)) }

  function EntrySchema(): Schema {
    Record([Num64(), Text16(1, 256, BYTES), Text16(1, 4096, BYTES), Number(2, 0, 64), Text16(0, 200, BYTES), NumberOf(BOOL)], ANY)
  }

  function SessionSchema(): Schema {
    Numbers(seq(16, i => U8))
  }

  function CoordinatorSchema(): Schema {
    Record([SessionSchema(), Num64(), Num64()], NAMED)
  }

  function WorktreeSchema(): Schema {
    Record([
      Num64(), Num64(), OptionalSchema(Num64()), OptionalSchema(Num64()), Code(1), Code(2),
      Text16(1, 4096, BYTES), Text16(1, 200, DISPLAY), Text16(0, 200, DISPLAY), Text16(0, 96, DISPLAY),
      Text16(0, 512, MULTILINE), Text16(0, 32, DISPLAY), OptionalSchema(CoordinatorSchema()),
      Num32(), Num32(), Num32(), Num32(), Text16(0, 48, DISPLAY), Code(2), Num32()], ABSOLUTE)
  }

  /** Each list's count, the check that so many elements may remain, the list. */
  function ListSchema(entry: Schema, worktree: Schema): Schema {
    Record([
      NumberOf(U64), Number(2, 0, 64), Ahead([(1, 17)]), Repeat(1, entry),
      Number(2, 0, 64), Ahead([(4, 56)]), Repeat(4, worktree)], ANY)
  }

  function WorkspaceListSchema(): Schema {
    ListSchema(EntrySchema(), WorktreeSchema())
  }

  // ---- the schemas are sound

  /** Fields that need no other field, and hold no list. */
  ghost predicate Plain(s: Schema) {
    Standalone(s) && WellFormed(s) && forall shape :: Room(s, shape) == 0
  }

  lemma PlainRecord(fields: seq<Schema>, rule: Value -> bool)
    requires forall i :: 0 <= i < |fields| ==> Plain(fields[i])
    ensures Plain(Record(fields, rule))
  {
    hide Room;
    forall shape ensures Room(Record(fields, rule), shape) == 0 {
      NoInnerRoom(fields, rule, shape, |fields|);
      NoOwnRoom(fields, shape, |fields|);
      RecordRoom(fields, rule, shape);
    }
  }

  lemma RecordRoom(fields: seq<Schema>, rule: Value -> bool, shape: Schema -> Shape)
    ensures Room(Record(fields, rule), shape) == InnerRoom(Record(fields, rule), shape, |fields|) + OwnRoom(fields, shape, |fields|)
  {}

  lemma {:induction false} NoInnerRoom(fields: seq<Schema>, rule: Value -> bool, shape: Schema -> Shape, k: nat)
    requires k <= |fields| && forall i :: 0 <= i < |fields| ==> Plain(fields[i])
    ensures InnerRoom(Record(fields, rule), shape, k) == 0
  {
    hide Room;
    if k > 0 {
      NoInnerRoom(fields, rule, shape, k - 1);
    }
  }

  lemma {:induction false} NoOwnRoom(fields: seq<Schema>, shape: Schema -> Shape, k: nat)
    requires k <= |fields| && forall i :: 0 <= i < |fields| ==> Plain(fields[i])
    ensures OwnRoom(fields, shape, k) == 0
  {
    hide Room;
    if k > 0 {
      NoOwnRoom(fields, shape, k - 1);
    }
  }

  lemma PlainNumber(f: Field)
    requires f.lo <= f.hi < Pow256(f.width)
    ensures Plain(NumberOf(f)) && MinWidth(NumberOf(f)) == f.width
  {}

  lemma PlainText(min: nat, max: nat, kind: Kind)
    requires min <= max < 0x1_0000
    ensures Plain(Text16(min, max, kind)) && MinWidth(Text16(min, max, kind)) == 2 + min
  {
    Pow256Values();
    SizedOk(2, min, max, TextRule(kind));
    forall shape ensures Room(Text16(min, max, kind), shape) == 0 {
      var s := Text16(min, max, kind);
      assert s.fields[0].Number? && s.fields[1].Blob?;
      assert Room(s.fields[0], shape) == 0 && Room(s.fields[1], shape) == 0;
      assert InnerRoom(s, shape, 1) == 0 && OwnRoom(s.fields, shape, 1) == 0;
      assert InnerRoom(s, shape, 2) == 0 && OwnRoom(s.fields, shape, 2) == 0;
    }
  }

  lemma PlainOptional(s: Schema)
    requires Plain(s)
    ensures Plain(OptionalSchema(s)) && MinWidth(OptionalSchema(s)) == 1
  {
    PlainRecord([], ANY);
    var o := OptionalSchema(s);
    assert MinWidth(Record([], ANY)) == 0 && LeastAlt(o, 1) == 0;
    forall shape ensures Room(o, shape) == 0 {
      assert o.alts[0] == Record([], ANY) && o.alts[1] == s && Room(o.alts[0], shape) == 0 && Room(o.alts[1], shape) == 0;
      assert MostRoom(o, shape, 1) == 0;
      assert MostRoom(o, shape, 2) == 0;
    }
  }

  lemma NumbersOk()
    ensures Plain(Num64()) && Plain(Num32()) && Plain(Code(1)) && Plain(Code(2)) && Plain(NumberOf(BOOL)) && Plain(Number(2, 0, 64))
    ensures MinWidth(Num64()) == 8 && MinWidth(Num32()) == 4 && MinWidth(Code(1)) == MinWidth(Code(2)) == 1
    ensures MinWidth(NumberOf(BOOL)) == 1
  {
    Pow256Values();
    PlainNumber(Field(2, 0, 64));
  }

  lemma EntryOk()
    ensures Plain(EntrySchema()) && MinWidth(EntrySchema()) >= 17
  {
    NumbersOk();
    PlainText(1, 256, BYTES);
    PlainText(1, 4096, BYTES);
    PlainText(0, 200, BYTES);
    hide Plain, Text16, Num64, NumberOf;
    var s := EntrySchema();
    assert forall i :: 0 <= i < 6 ==> Plain(s.fields[i]);
    PlainRecord(s.fields, ANY);
  }

  lemma CoordinatorOk()
    ensures Plain(CoordinatorSchema())
  {
    NumbersOk();
    Pow256Values();
    var fields := seq(16, i => NumberOf(U8));
    PlainNumber(U8);
    PlainRecord(fields, ANY);
    assert SessionSchema().fields == fields;
    hide Plain, Num64, SessionSchema, NumberOf;
    var s := CoordinatorSchema();
    assert forall i :: 0 <= i < 3 ==> Plain(s.fields[i]);
    PlainRecord(s.fields, NAMED);
  }

  lemma WorktreeTexts()
    ensures Plain(Text16(1, 4096, BYTES)) && Plain(Text16(1, 200, DISPLAY)) && Plain(Text16(0, 200, DISPLAY))
    ensures Plain(Text16(0, 96, DISPLAY)) && Plain(Text16(0, 512, MULTILINE)) && Plain(Text16(0, 32, DISPLAY))
    ensures Plain(Text16(0, 48, DISPLAY))
    ensures MinWidth(Text16(1, 4096, BYTES)) == MinWidth(Text16(1, 200, DISPLAY)) == 3
    ensures MinWidth(Text16(0, 200, DISPLAY)) == MinWidth(Text16(0, 96, DISPLAY)) == MinWidth(Text16(0, 512, MULTILINE)) == 2
    ensures MinWidth(Text16(0, 32, DISPLAY)) == MinWidth(Text16(0, 48, DISPLAY)) == 2
  {
    hide Plain, Text16, MinWidth;
    PlainText(1, 4096, BYTES);
    PlainText(1, 200, DISPLAY);
    PlainText(0, 200, DISPLAY);
    PlainText(0, 96, DISPLAY);
    PlainText(0, 512, MULTILINE);
    PlainText(0, 32, DISPLAY);
    PlainText(0, 48, DISPLAY);
  }

  lemma WorktreeFields()
    ensures forall j :: 0 <= j < 20 ==> Plain(WorktreeSchema().fields[j])
  {
    hide Plain, Text16, Num64, Num32, Code, NumberOf, OptionalSchema, CoordinatorSchema, MinWidth;
    NumbersOk();
    CoordinatorOk();
    WorktreeTexts();
    PlainOptional(Num64());
    PlainOptional(CoordinatorSchema());
  }

  lemma WorktreeOk()
    ensures Plain(WorktreeSchema()) && MinWidth(WorktreeSchema()) >= 56
  {
    hide Plain, Text16, Num64, Num32, Code, NumberOf, OptionalSchema, CoordinatorSchema, MinWidth, FieldsMin;
    var s := WorktreeSchema();
    WorktreeFields();
    PlainRecord(s.fields, ABSOLUTE);
    WidthFrom(s, 16);
    WidthFrom(s, 12);
    WidthFrom(s, 8);
    WidthFrom(s, 4);
    WidthFrom(s, 0);
    RecordWidth(s);
    FourWidthsAre(s);
  }

  function FourWidths(s: Schema, i: nat): nat
    requires s.Record? && i + 4 <= |s.fields|
  {
    MinWidth(s.fields[i]) + MinWidth(s.fields[i + 1]) + MinWidth(s.fields[i + 2]) + MinWidth(s.fields[i + 3])
  }

  lemma FourWidthsAre(s: Schema)
    requires s == WorktreeSchema()
    ensures FourWidths(s, 0) == 18 && FourWidths(s, 4) == 8 && FourWidths(s, 8) == 8 && FourWidths(s, 12) == 13
    ensures FourWidths(s, 16) == 11
  {
    hide Plain, Text16, Num64, Num32, Code, NumberOf, OptionalSchema, CoordinatorSchema, MinWidth;
    NumbersOk();
    CoordinatorOk();
    WorktreeTexts();
    PlainOptional(Num64());
    PlainOptional(CoordinatorSchema());
  }

  lemma RecordWidth(s: Schema)
    requires s.Record?
    ensures MinWidth(s) == FieldsMin(s, 0) && FieldsMin(s, |s.fields|) == 0
  {}

  lemma WidthFrom(s: Schema, i: nat)
    requires s.Record? && i + 4 <= |s.fields| && forall j :: 0 <= j < |s.fields| ==> Plain(s.fields[j])
    ensures FieldsMin(s, i) == FourWidths(s, i) + FieldsMin(s, i + 4)
  {
    hide MinWidth, Room, WellFormed;
    assert FieldsMin(s, i + 2) == MinWidth(s.fields[i + 2]) + (MinWidth(s.fields[i + 3]) + FieldsMin(s, i + 4));
  }

  lemma ListSchemaOk(entry: Schema, worktree: Schema)
    requires Plain(entry) && Plain(worktree) && MinWidth(entry) >= 17 && MinWidth(worktree) >= 56
    ensures WellFormed(ListSchema(entry, worktree)) && Standalone(ListSchema(entry, worktree))
  {
    Pow256Values();
    var f := ListSchema(entry, worktree).fields;
    var first: seq<(nat, nat)>, second: seq<(nat, nat)> := [(1, 17)], [(4, 56)];
    assert WellFormed(f[0]) && WellFormed(f[1]) && WellFormed(f[3]) && WellFormed(f[4]) && WellFormed(f[6]);
    hide MinWidth;
    assert first[1..] == [] && second[1..] == [];
    assert f[3..][0] == f[3] == Repeat(1, entry) && f[6..][0] == f[6] == Repeat(4, worktree);
    assert Covered([], f[3..][1..]) && Covered([], f[6..][1..]);
    assert Covered(first, f[3..]);
    assert Covered(second, f[6..]);
    assert InPlace(f, 2) && InPlace(f, 3) && InPlace(f, 5) && InPlace(f, 6);
  }

  /** What every list of workspaces needs at most. */
  lemma ListRoomIs(entry: Schema, worktree: Schema, shape: Schema -> Shape)
    requires Plain(entry) && Plain(worktree)
    ensures Room(ListSchema(entry, worktree), shape)
         == 64 * shape(entry).width + (shape(entry).align - 1) + 64 * shape(worktree).width + (shape(worktree).align - 1)
  {
    var s := ListSchema(entry, worktree);
    var f := s.fields;
    assert Room(entry, shape) == 0 && Room(worktree, shape) == 0;
    hide Plain;
    assert f[3] == Repeat(1, entry) && f[6] == Repeat(4, worktree) && f[1] == f[4] == Number(2, 0, 64) && f[2].Ahead? && f[5].Ahead?;
    assert OwnRoom(f, shape, 1) == 0 && InnerRoom(s, shape, 1) == 0;
    assert OwnRoom(f, shape, 2) == 0 && InnerRoom(s, shape, 2) == 0;
    assert OwnRoom(f, shape, 3) == 0 && InnerRoom(s, shape, 3) == 0;
    assert OwnRoom(f, shape, 4) == ListRoom(f, shape, 3) && InnerRoom(s, shape, 4) == 0;
    assert OwnRoom(f, shape, 6) == ListRoom(f, shape, 3) && InnerRoom(s, shape, 6) == 0;
    assert OwnRoom(f, shape, 7) == ListRoom(f, shape, 3) + ListRoom(f, shape, 6) && InnerRoom(s, shape, 7) == 0;
  }

  // ---- the receiver

  /** The receiver's decode buffer: 64 elements of each list and twice an alignment. */
  function Capacity(shape: Schema -> Shape): nat {
    64 * shape(WorktreeSchema()).width + 64 * shape(EntrySchema()).width
    + shape(EntrySchema()).align + shape(WorktreeSchema()).align
  }

  lemma CapacitySuffices(shape: Schema -> Shape)
    ensures WellFormed(WorkspaceListSchema()) && Standalone(WorkspaceListSchema())
    ensures Room(WorkspaceListSchema(), shape) + 2 == Capacity(shape)
  {
    EntryOk();
    WorktreeOk();
    hide Plain, EntrySchema, WorktreeSchema, ListSchema, Room, WellFormed, Standalone;
    ListRoomIs(EntrySchema(), WorktreeSchema(), shape);
    ListSchemaOk(EntrySchema(), WorktreeSchema());
  }

  /** The receiver's buffer never refuses a list: whatever the elements take in
      memory, a workspace list is decoded into it exactly as on values. */
  method ReceiveWorkspaceList(payload: seq<byte>, shape: Schema -> Shape, base: nat) returns (r: Option<Stored>, memory: array<Cell>)
    ensures match Parse(WORKSPACE_LIST, WorkspaceListSchema(), payload)
            case None => r.None?
            case Some(v) => r.Some? && Load(WorkspaceListSchema(), r.value, memory[..]) == v
  {
    hide Capacity, WorkspaceListSchema, Shows, Load, Room, WellFormed, Standalone, Parse;
    CapacitySuffices(shape);
    var storage := new DecodeStorage(base, Capacity(shape));
    memory := new Cell[base + Capacity(shape)](_ => Free);
    r := DecodeMessageStored(WORKSPACE_LIST, WorkspaceListSchema(), payload, shape, storage, memory);
    if r.Some? {
      ShownIsLoaded(WorkspaceListSchema(), r.value, Parse(WORKSPACE_LIST, WorkspaceListSchema(), payload).value, memory[..]);
    }
  }

  /** A workspace list decodes to what was encoded, and has one encoding. */
  lemma WorkspaceListCodec()
    ensures forall v :: Message(WORKSPACE_LIST, WorkspaceListSchema(), v).Some? ==>
      Parse(WORKSPACE_LIST, WorkspaceListSchema(), Message(WORKSPACE_LIST, WorkspaceListSchema(), v).value) == Some(v)
    ensures forall payload :: Parse(WORKSPACE_LIST, WorkspaceListSchema(), payload).Some? ==>
      Message(WORKSPACE_LIST, WorkspaceListSchema(), Parse(WORKSPACE_LIST, WorkspaceListSchema(), payload).value) == Some(payload)
  {
    hide WorkspaceListSchema, WellFormed, Standalone, Message, Parse, Room;
    CapacitySuffices(s => Shape(1, 1));
    forall v | Message(WORKSPACE_LIST, WorkspaceListSchema(), v).Some?
      ensures Parse(WORKSPACE_LIST, WorkspaceListSchema(), Message(WORKSPACE_LIST, WorkspaceListSchema(), v).value) == Some(v)
    {
      MessageRoundTrip(WORKSPACE_LIST, WorkspaceListSchema(), v);
    }
    forall payload | Parse(WORKSPACE_LIST, WorkspaceListSchema(), payload).Some?
      ensures Message(WORKSPACE_LIST, WorkspaceListSchema(), Parse(WORKSPACE_LIST, WorkspaceListSchema(), payload).value) == Some(payload)
    {
      MessageCanonical(WORKSPACE_LIST, WorkspaceListSchema(), payload);
    }
  }
}
