/** What a workspace list says, and where each part of it lies on the wire, in bytes
    (serializers/telar_messages.hpp, serializers/telar_protocol.hpp). */
module WorkspaceBytes {
  import opened Wire
  import opened Schemas
  import opened NumberRecords
  import opened Codecs
  import opened PackedBytes
  import opened Texts
  import opened Workspaces
  import opened StoredDecodes

  datatype Entry = Entry(workspace: nat, name: seq<byte>, path: seq<byte>, tabCount: nat, branch: seq<byte>, dirty: nat)

  datatype Coordinator = Coordinator(session: seq<nat>, pane: nat, generation: nat)

  datatype Worktree = Worktree(
    worktree: nat, source: nat, workspace: Option<nat>, createdBy: Option<nat>, origin: nat, state: nat,
    path: seq<byte>, branch: seq<byte>, base: seq<byte>, title: seq<byte>, brief: seq<byte>, dispatchedFrom: seq<byte>,
    coordinator: Option<Coordinator>, diffAdded: nat, diffRemoved: nat, diffFiles: nat, commitsAhead: nat,
    commandLabel: seq<byte>, commandState: nat, commandExit: nat)

  datatype WorkspaceList = WorkspaceList(revision: nat, entries: seq<Entry>, worktrees: seq<Worktree>)

  // ---- the form

  function Sized(text: seq<byte>): seq<byte> { LittleEndian(|text|, 2) + text }

  function EntryBytes(e: Entry): seq<byte> {
    Joined([LittleEndian(e.workspace, 8), Sized(e.name), Sized(e.path), LittleEndian(e.tabCount, 2), Sized(e.branch), LittleEndian(e.dirty, 1)])
  }

  function Optional64(n: Option<nat>): seq<byte> {
    if n.Some? then [1] + LittleEndian(n.value, 8) else [0]
  }

  function Each(ns: seq<nat>): seq<byte> {
    if ns == [] then [] else LittleEndian(ns[0], 1) + Each(ns[1..])
  }

  function CoordinatorBytes(c: Coordinator): seq<byte> {
    Joined([Each(c.session), LittleEndian(c.pane, 8), LittleEndian(c.generation, 8)])
  }

  function OptionalCoordinator(c: Option<Coordinator>): seq<byte> {
    if c.Some? then [1] + CoordinatorBytes(c.value) else [0]
  }

  function WorktreeParts(w: Worktree): seq<seq<byte>> {
    [LittleEndian(w.worktree, 8), LittleEndian(w.source, 8), Optional64(w.workspace), Optional64(w.createdBy),
     LittleEndian(w.origin, 1), LittleEndian(w.state, 1), Sized(w.path), Sized(w.branch), Sized(w.base), Sized(w.title),
     Sized(w.brief), Sized(w.dispatchedFrom), OptionalCoordinator(w.coordinator), LittleEndian(w.diffAdded, 4),
     LittleEndian(w.diffRemoved, 4), LittleEndian(w.diffFiles, 4), LittleEndian(w.commitsAhead, 4), Sized(w.commandLabel),
     LittleEndian(w.commandState, 1), LittleEndian(w.commandExit, 4)]
  }

  function EntriesBytes(entries: seq<Entry>): seq<byte> {
    if entries == [] then [] else EntryBytes(entries[0]) + EntriesBytes(entries[1..])
  }

  function WorktreesBytes(worktrees: seq<Worktree>): seq<byte> {
    if worktrees == [] then [] else Joined(WorktreeParts(worktrees[0])) + WorktreesBytes(worktrees[1..])
  }

  /** The revision, then each list behind its count. */
  function ListBytes(l: WorkspaceList): seq<byte> {
    [0x98] + LittleEndian(l.revision, 8) + LittleEndian(|l.entries|, 2) + EntriesBytes(l.entries)
    + LittleEndian(|l.worktrees|, 2) + WorktreesBytes(l.worktrees)
  }

  // ---- reading a decoded value

  function Part(v: Value, i: nat): Value { if v.Many? && i < |v.items| then v.items[i] else Unit }
  function Plain64(v: Value): nat { if v.Num? then v.n else 0 }
  function TextOf(v: Value): seq<byte> { if Part(v, 1).Raw? then Part(v, 1).bytes else [] }
  function OptionOf(v: Value): Option<Value> { if v.Pick? && v.tag == 1 then Some(v.body) else None }
  function Option64(v: Value): Option<nat> { if OptionOf(v).Some? then Some(Plain64(OptionOf(v).value)) else None }

  function EntryOf(v: Value): Entry {
    Entry(Plain64(Part(v, 0)), TextOf(Part(v, 1)), TextOf(Part(v, 2)), Plain64(Part(v, 3)), TextOf(Part(v, 4)), Plain64(Part(v, 5)))
  }

  function CoordinatorOf(v: Value): Coordinator {
    Coordinator(NumsOf(Part(v, 0)), Plain64(Part(v, 1)), Plain64(Part(v, 2)))
  }

  function CoordinatorOption(v: Value): Option<Coordinator> {
    if OptionOf(v).Some? then Some(CoordinatorOf(OptionOf(v).value)) else None
  }

  function WorktreeOf(v: Value): Worktree {
    Worktree(
      Plain64(Part(v, 0)), Plain64(Part(v, 1)), Option64(Part(v, 2)), Option64(Part(v, 3)), Plain64(Part(v, 4)), Plain64(Part(v, 5)),
      TextOf(Part(v, 6)), TextOf(Part(v, 7)), TextOf(Part(v, 8)), TextOf(Part(v, 9)), TextOf(Part(v, 10)), TextOf(Part(v, 11)),
      CoordinatorOption(Part(v, 12)), Plain64(Part(v, 13)), Plain64(Part(v, 14)), Plain64(Part(v, 15)), Plain64(Part(v, 16)),
      TextOf(Part(v, 17)), Plain64(Part(v, 18)), Plain64(Part(v, 19)))
  }

  function Rows(v: Value): seq<Value> { if v.Many? then v.items else [] }
  function EntriesOf(items: seq<Value>): seq<Entry> { seq(|items|, i requires 0 <= i < |items| => EntryOf(items[i])) }
  function WorktreesOf(items: seq<Value>): seq<Worktree> { seq(|items|, i requires 0 <= i < |items| => WorktreeOf(items[i])) }

  function ListOf(v: Value): WorkspaceList {
    WorkspaceList(Plain64(Part(v, 0)), EntriesOf(Rows(Part(v, 3))), WorktreesOf(Rows(Part(v, 6))))
  }

  function ParseList(payload: seq<byte>): Option<WorkspaceList> {
    match Parse(WORKSPACE_LIST, WorkspaceListSchema(), payload)
    case None => None
    case Some(v) => Some(ListOf(v))
  }

  // ---- one field

  lemma NumberForm(s: Schema, context: Context, v: Value)
    requires s.Number? && Valid(s, context, v)
    ensures Encode(s, context, v) == LittleEndian(Plain64(v), s.width)
  {}

  lemma TextForm(min: nat, max: nat, kind: Kind, context: Context, v: Value)
    requires min <= max < 0x1_0000 && Valid(Text16(min, max, kind), context, v)
    ensures Encode(Text16(min, max, kind), context, v) == Sized(TextOf(v))
  {
    Pow256Values();
    var rule := TextRule(kind);
    SameEncode(SizedSchema(2, min, max, rule), context, v);
    SizedValid(2, min, max, rule, v);
    SizedEncoding(2, min, max, rule, TextOf(v));
  }

  lemma OptionForm(s: Schema, context: Context, v: Value)
    requires Valid(OptionalSchema(s), context, v)
    ensures OptionOf(v).Some? ==> Valid(s, [], OptionOf(v).value)
    ensures Encode(OptionalSchema(s), context, v) == if OptionOf(v).Some? then [1] + Encode(s, [], OptionOf(v).value) else [0]
  {
    OneByte(0);
    OneByte(1);
    assert OptionalSchema(s).alts[0] == Record([], ANY) && OptionalSchema(s).alts[1] == s;
    if v.tag == 0 {
      assert Encode(Record([], ANY), [], v.body) == [];
    }
  }

  lemma Option64Form(context: Context, v: Value)
    requires Valid(OptionalSchema(Num64()), context, v)
    ensures Encode(OptionalSchema(Num64()), context, v) == Optional64(Option64(v))
  {
    OptionForm(Num64(), context, v);
    if OptionOf(v).Some? {
      NumberForm(Num64(), [], OptionOf(v).value);
    }
  }

  lemma {:induction false} EachPacked(fields: seq<Field>, ns: seq<nat>, i: nat)
    requires |fields| == |ns| && i <= |ns| && forall j :: 0 <= j < |fields| ==> fields[j].width == 1
    ensures Packed(fields, ns, i) == Each(ns[i..])
    decreases |ns| - i
  {
    if i < |ns| {
      EachPacked(fields, ns, i + 1);
      assert ns[i..][0] == ns[i] && ns[i..][1..] == ns[i + 1..];
    }
  }

  lemma SessionForm(context: Context, v: Value)
    requires Valid(SessionSchema(), context, v)
    ensures Encode(SessionSchema(), context, v) == Each(NumsOf(v))
  {
    var fields := seq(16, i => U8);
    NumbersValid(fields, context, v);
    NumbersPacked(fields, NumsOf(v), context);
    EachPacked(fields, NumsOf(v), 0);
    assert NumsOf(v)[0..] == NumsOf(v);
  }

  lemma CoordinatorForm(v: Value)
    requires Valid(CoordinatorSchema(), [], v)
    ensures Encode(CoordinatorSchema(), [], v) == CoordinatorBytes(CoordinatorOf(v))
  {
    hide Encode, Valid, SessionSchema, Num64, LittleEndian, Each, NumsOf, Joined;
    ManyItems(CoordinatorSchema(), v);
    var r, items := CoordinatorSchema(), v.items;
    RecordEncoded(r, items);
    assert Valid(r.fields[0], items[..0], items[0]) && Valid(r.fields[1], items[..1], items[1]) && Valid(r.fields[2], items[..2], items[2]);
    SessionForm(items[..0], items[0]);
    Num64Form(items[..1], items[1]);
    Num64Form(items[..2], items[2]);
    var c := CoordinatorOf(v);
    RecordJoined(r, items, [Each(c.session), LittleEndian(c.pane, 8), LittleEndian(c.generation, 8)]);
  }

  lemma Num64Form(context: Context, v: Value)
    requires Valid(Num64(), context, v)
    ensures Encode(Num64(), context, v) == LittleEndian(Plain64(v), 8)
  {}

  lemma ManyItems(s: Schema, v: Value)
    requires s.Record? && Valid(s, [], v)
    ensures v.Many? && |v.items| == |s.fields|
  {}

  // ---- entries

  lemma EntryForm(v: Value)
    requires Valid(EntrySchema(), [], v)
    ensures Encode(EntrySchema(), [], v) == EntryBytes(EntryOf(v))
  {
    hide Encode, Valid, Text16, LittleEndian, TextOf, Sized, Joined;
    ManyItems(EntrySchema(), v);
    var r, items := EntrySchema(), v.items;
    RecordEncoded(r, items);
    assert Valid(r.fields[0], items[..0], items[0]) && Valid(r.fields[1], items[..1], items[1]) && Valid(r.fields[2], items[..2], items[2]);
    assert Valid(r.fields[3], items[..3], items[3]) && Valid(r.fields[4], items[..4], items[4]) && Valid(r.fields[5], items[..5], items[5]);
    NumberForm(r.fields[0], items[..0], items[0]);
    TextForm(1, 256, BYTES, items[..1], items[1]);
    TextForm(1, 4096, BYTES, items[..2], items[2]);
    NumberForm(r.fields[3], items[..3], items[3]);
    TextForm(0, 200, BYTES, items[..4], items[4]);
    NumberForm(r.fields[5], items[..5], items[5]);
    var e := EntryOf(v);
    RecordJoined(r, items,
      [LittleEndian(e.workspace, 8), Sized(e.name), Sized(e.path), LittleEndian(e.tabCount, 2), Sized(e.branch), LittleEndian(e.dirty, 1)]);
  }

  // ---- worktrees

  lemma OptionCoordinatorForm(context: Context, v: Value)
    requires Valid(OptionalSchema(CoordinatorSchema()), context, v)
    ensures Encode(OptionalSchema(CoordinatorSchema()), context, v) == OptionalCoordinator(CoordinatorOption(v))
  {
    hide CoordinatorSchema, Valid, Encode, CoordinatorBytes;
    OptionForm(CoordinatorSchema(), context, v);
    if OptionOf(v).Some? {
      CoordinatorForm(OptionOf(v).value);
    }
  }

  /** Each field of a worktree at its place. */
  lemma FirstPart(v: Value, i: nat)
    requires v.Many? && |v.items| == 20 && 0 <= i < 10 && Valid(WorktreeSchema().fields[i], v.items[..i], v.items[i])
    ensures Encode(WorktreeSchema().fields[i], v.items[..i], v.items[i]) == WorktreeParts(WorktreeOf(v))[i]
  {
    hide Encode, Valid, Text16, OptionalSchema, CoordinatorSchema, LittleEndian, TextOf, Sized, Option64, Optional64, CoordinatorOption,
      OptionalCoordinator;
    var r, items := WorktreeSchema(), v.items;
    if i == 0 {
      NumberForm(r.fields[0], items[..0], items[0]);
    } else if i == 1 {
      NumberForm(r.fields[1], items[..1], items[1]);
    } else if i == 2 {
      Option64Form(items[..2], items[2]);
    } else if i == 3 {
      Option64Form(items[..3], items[3]);
    } else if i == 4 {
      NumberForm(r.fields[4], items[..4], items[4]);
    } else if i == 5 {
      NumberForm(r.fields[5], items[..5], items[5]);
    } else if i == 6 {
      TextForm(1, 4096, BYTES, items[..6], items[6]);
    } else if i == 7 {
      TextForm(1, 200, DISPLAY, items[..7], items[7]);
    } else if i == 8 {
      TextForm(0, 200, DISPLAY, items[..8], items[8]);
    } else {
      TextForm(0, 96, DISPLAY, items[..9], items[9]);
    }
  }

  lemma SecondPart(v: Value, i: nat)
    requires v.Many? && |v.items| == 20 && 10 <= i < 20 && Valid(WorktreeSchema().fields[i], v.items[..i], v.items[i])
    ensures Encode(WorktreeSchema().fields[i], v.items[..i], v.items[i]) == WorktreeParts(WorktreeOf(v))[i]
  {
    hide Encode, Valid, Text16, OptionalSchema, CoordinatorSchema, LittleEndian, TextOf, Sized, Option64, Optional64, CoordinatorOption,
      OptionalCoordinator;
    var r, items := WorktreeSchema(), v.items;
    if i == 10 {
      TextForm(0, 512, MULTILINE, items[..10], items[10]);
    } else if i == 11 {
      TextForm(0, 32, DISPLAY, items[..11], items[11]);
    } else if i == 12 {
      OptionCoordinatorForm(items[..12], items[12]);
    } else if i == 13 {
      NumberForm(r.fields[13], items[..13], items[13]);
    } else if i == 14 {
      NumberForm(r.fields[14], items[..14], items[14]);
    } else if i == 15 {
      NumberForm(r.fields[15], items[..15], items[15]);
    } else if i == 16 {
      NumberForm(r.fields[16], items[..16], items[16]);
    } else if i == 17 {
      TextForm(0, 48, DISPLAY, items[..17], items[17]);
    } else if i == 18 {
      NumberForm(r.fields[18], items[..18], items[18]);
    } else {
      NumberForm(r.fields[19], items[..19], items[19]);
    }
  }

  lemma WorktreeForm(v: Value)
    requires Valid(WorktreeSchema(), [], v)
    ensures Encode(WorktreeSchema(), [], v) == Joined(WorktreeParts(WorktreeOf(v)))
  {
    hide Encode, Valid, WorktreeSchema, WorktreeParts, WorktreeOf, Joined;
    TwentyFields(v);
    ManyItems(WorktreeSchema(), v);
    RecordEncoded(WorktreeSchema(), v.items);
    forall i | 0 <= i < 20 ensures Encode(WorktreeSchema().fields[i], v.items[..i], v.items[i]) == WorktreeParts(WorktreeOf(v))[i] {
      if i < 10 {
        FirstPart(v, i);
      } else {
        SecondPart(v, i);
      }
    }
    RecordJoined(WorktreeSchema(), v.items, WorktreeParts(WorktreeOf(v)));
  }

  lemma TwentyFields(v: Value)
    ensures WorktreeSchema().Record? && |WorktreeSchema().fields| == 20 && |WorktreeParts(WorktreeOf(v))| == 20
  {}

  // ---- the list

  lemma {:induction false} EntriesForm(items: seq<Value>)
    requires forall i :: 0 <= i < |items| ==> Valid(EntrySchema(), [], items[i])
    ensures EncodeMany(Repeat(1, EntrySchema()), items) == EntriesBytes(EntriesOf(items))
    decreases |items|
  {
    hide EntrySchema, EntryOf, EntryBytes, Valid, Encode;
    if items != [] {
      EntryForm(items[0]);
      EntriesForm(items[1..]);
      assert EntriesOf(items)[1..] == EntriesOf(items[1..]);
    }
  }

  lemma {:induction false} WorktreesForm(items: seq<Value>)
    requires forall i :: 0 <= i < |items| ==> Valid(WorktreeSchema(), [], items[i])
    ensures EncodeMany(Repeat(4, WorktreeSchema()), items) == WorktreesBytes(WorktreesOf(items))
    decreases |items|
  {
    hide WorktreeSchema, WorktreeOf, WorktreeParts, Joined, Valid, Encode;
    if items != [] {
      WorktreeForm(items[0]);
      WorktreesForm(items[1..]);
      assert WorktreesOf(items)[1..] == WorktreesOf(items[1..]);
    }
  }

  lemma RecordForm(entry: Schema, worktree: Schema, v: Value)
    requires Valid(ListSchema(entry, worktree), [], v)
    ensures v.Many? && |v.items| == 7 && v.items[3].Many? && v.items[6].Many?
    ensures forall i :: 0 <= i < |v.items[3].items| ==> Valid(entry, [], v.items[3].items[i])
    ensures forall i :: 0 <= i < |v.items[6].items| ==> Valid(worktree, [], v.items[6].items[i])
    ensures Encode(ListSchema(entry, worktree), [], v)
         == LittleEndian(Plain64(v.items[0]), 8) + LittleEndian(|v.items[3].items|, 2) + EncodeMany(Repeat(1, entry), v.items[3].items)
            + LittleEndian(|v.items[6].items|, 2) + EncodeMany(Repeat(4, worktree), v.items[6].items)
  {
    var r := ListSchema(entry, worktree);
    ManyItems(r, v);
    var items := v.items;
    RecordEncoded(r, items);
    assert r.fields[0].Number? && r.fields[1] == Number(2, 0, 64) && r.fields[2].Ahead? && r.fields[3] == Repeat(1, entry);
    assert r.fields[4] == Number(2, 0, 64) && r.fields[5].Ahead? && r.fields[6] == Repeat(4, worktree);
    assert Valid(r.fields[0], items[..0], items[0]) && Valid(r.fields[1], items[..1], items[1]) && Valid(r.fields[2], items[..2], items[2]);
    assert Valid(r.fields[3], items[..3], items[3]) && Valid(r.fields[4], items[..4], items[4]) && Valid(r.fields[5], items[..5], items[5]);
    assert Valid(r.fields[6], items[..6], items[6]);
    Counted(r.fields[3], items[..3], items[3]);
    Counted(r.fields[6], items[..6], items[6]);
    hide Valid, Encode, EncodeMany, LittleEndian, ListSchema;
    NumberForm(r.fields[0], items[..0], items[0]);
    NumberAt(r, items, 1, |items[3].items|, 2);
    CheckAt(r, items, 2);
    ListAt(r, items, 3, items[3].items);
    NumberAt(r, items, 4, |items[6].items|, 2);
    CheckAt(r, items, 5);
    ListAt(r, items, 6, items[6].items);
    var a, b, c := LittleEndian(Plain64(items[0]), 8), LittleEndian(|items[3].items|, 2), EncodeMany(Repeat(1, entry), items[3].items);
    var d, e := LittleEndian(|items[6].items|, 2), EncodeMany(Repeat(4, worktree), items[6].items);
    RecordJoined(r, items, [a, b, [], c, d, [], e]);
    JoinLists(a, b, c, d, e);
  }

  lemma Counted(f: Schema, context: Context, v: Value)
    requires f.Repeat? && Valid(f, context, v)
    ensures v.Many? && f.count < |context| && context[f.count] == Num(|v.items|)
  {}

  lemma JoinLists(a: seq<byte>, b: seq<byte>, c: seq<byte>, d: seq<byte>, e: seq<byte>)
    ensures Joined([a, b, [], c, d, [], e]) == a + b + c + d + e
  {
    var none: seq<byte> := [];
    assert Joined([e]) == e;
    assert [none, e][1..] == [e] && [d, none, e][1..] == [none, e] && [c, d, none, e][1..] == [d, none, e];
    assert [none, c, d, none, e][1..] == [c, d, none, e] && [b, none, c, d, none, e][1..] == [none, c, d, none, e];
    assert [a, b, none, c, d, none, e][1..] == [b, none, c, d, none, e];
    assert Joined([d, none, e]) == d + e;
    assert Joined([none, c, d, none, e]) == c + d + e;
    assert Joined([b, none, c, d, none, e]) == b + c + d + e;
  }

  /** A payload that parses is exactly these bytes of the list it parses to. */
  lemma ListForm(payload: seq<byte>)
    requires ParseList(payload).Some?
    ensures payload == ListBytes(ParseList(payload).value)
  {
    var s := WorkspaceListSchema();
    var v := Parse(WORKSPACE_LIST, s, payload).value;
    hide WorkspaceListSchema, EntrySchema, WorktreeSchema, WellFormed, Valid, Encode, EncodeMany, LittleEndian, EntriesBytes, WorktreesBytes,
      EntryOf, WorktreeOf, Parse;
    CapacitySuffices(x => Shape(1, 1));
    MessageCanonical(WORKSPACE_LIST, s, payload);
    MessageValid(WORKSPACE_LIST, s, v);
    ListIs();
    RecordForm(EntrySchema(), WorktreeSchema(), v);
    EntriesForm(v.items[3].items);
    WorktreesForm(v.items[6].items);
    Grouped([0x98], LittleEndian(Plain64(v.items[0]), 8), LittleEndian(|v.items[3].items|, 2), EncodeMany(Repeat(1, EntrySchema()), v.items[3].items),
            LittleEndian(|v.items[6].items|, 2), EncodeMany(Repeat(4, WorktreeSchema()), v.items[6].items));
  }

  lemma ListIs()
    ensures WorkspaceListSchema() == ListSchema(EntrySchema(), WorktreeSchema())
  {}

  lemma MessageValid(tag: byte, s: Schema, v: Value)
    requires Message(tag, s, v).Some?
    ensures Valid(s, [], v)
  {}

  lemma Grouped(a: seq<byte>, b: seq<byte>, c: seq<byte>, d: seq<byte>, e: seq<byte>, f: seq<byte>)
    ensures a + (b + c + d + e + f) == a + b + c + d + e + f
  {}
}
