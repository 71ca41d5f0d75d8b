/** Tab layouts: a list of nodes is accepted when it is the preorder of a
    binary split tree (serializers/telar_messages.hpp). */
module Layouts {
  import opened Wire
  import opened Schemas
  import opened NumberRecords
  import opened Codecs

  datatype Node = Pane(id: u64) | Split(axis: byte, ratio: u16)
  datatype Tree = Leaf(id: u64) | Branch(axis: byte, ratio: u16, first: Tree, second: Tree)

  const MAX_NODES: nat := 127
  const MAX_PANES: nat := 64

  // ---- the specification

  function Preorder(t: Tree): (nodes: seq<Node>)
    ensures nodes != []
  {
    match t
    case Leaf(id) => [Pane(id)]
    case Branch(axis, ratio, first, second) => [Split(axis, ratio)] + Preorder(first) + Preorder(second)
  }

  function PreorderAll(ts: seq<Tree>): seq<Node> {
    if ts == [] then [] else Preorder(ts[0]) + PreorderAll(ts[1..])
  }

  function PaneIds(nodes: seq<Node>): seq<u64> {
    if nodes == [] then []
    else (if nodes[0].Pane? then [nodes[0].id] else []) + PaneIds(nodes[1..])
  }

  predicate Distinct(ids: seq<u64>) {
    forall i, j :: 0 <= i < j < |ids| ==> ids[i] != ids[j]
  }

  ghost predicate ListsATree(nodes: seq<Node>) {
    exists t :: Preorder(t) == nodes
  }

  ghost predicate IsLayout(nodes: seq<Node>, focused: u64) {
    ListsATree(nodes) && Distinct(PaneIds(nodes)) && focused in PaneIds(nodes)
  }

  // ---- the validator

  /** How many subtrees are still owed after `nodes`, starting from `pending`;
      None once a node arrives when nothing is owed. */
  function Owed(nodes: seq<Node>, pending: nat): Option<nat> {
    if nodes == [] then Some(pending)
    else if pending == 0 then None
    else Owed(nodes[1..], if nodes[0].Pane? then pending - 1 else pending + 1)
  }

  predicate Accepts(nodes: seq<Node>, focused: u64) {
    1 <= |nodes| <= MAX_NODES && Owed(nodes, 1) == Some(0) && Distinct(PaneIds(nodes)) && focused in PaneIds(nodes)
  }

  method Validate(nodes: seq<Node>, focused: u64) returns (ok: bool)
    ensures ok == Accepts(nodes, focused)
  {
    if nodes == [] || |nodes| > MAX_NODES {
      return false;
    }
    var panes := new u64[MAX_PANES];
    var paneCount: nat, pending: nat, found := 0, 1, false;
    for i := 0 to |nodes|
      invariant paneCount <= panes.Length && panes[..paneCount] == PaneIds(nodes[..i])
      invariant Owed(nodes, 1) == Owed(nodes[i..], pending)
      invariant 2 * paneCount + pending == i + 1
      invariant Distinct(panes[..paneCount]) && (found <==> focused in panes[..paneCount])
    {
      var node := nodes[i];
      assert nodes[i..][0] == node && nodes[i..][1..] == nodes[i + 1..];
      if pending == 0 {
        return false;
      }
      NextPaneIds(nodes, i);
      pending := pending - 1;
      if node.Pane? {
        // Within 127 nodes, with a subtree still owed, the 64 entries never run out.
        assert paneCount < panes.Length;
        var seen := Seen(panes, paneCount, node.id);
        if seen {
          DuplicateStays(nodes, i);
          return false;
        }
        ghost var before := panes[..paneCount];
        panes[paneCount] := node.id;
        paneCount := paneCount + 1;
        assert panes[..paneCount] == before + [node.id];
        found := found || node.id == focused;
      } else {
        pending := pending + 2;
      }
    }
    assert nodes[..|nodes|] == nodes;
    ok := pending == 0 && found;
  }

  method Seen(panes: array<u64>, count: nat, id: u64) returns (seen: bool)
    requires count <= panes.Length
    ensures seen == (id in panes[..count])
  {
    for j := 0 to count
      invariant id !in panes[..j]
    {
      if panes[j] == id {
        return true;
      }
    }
    seen := false;
  }

  lemma NextPaneIds(nodes: seq<Node>, i: nat)
    requires i < |nodes|
    ensures PaneIds(nodes[..i + 1]) == PaneIds(nodes[..i]) + if nodes[i].Pane? then [nodes[i].id] else []
  {
    assert nodes[..i + 1] == nodes[..i] + [nodes[i]];
    PaneIdsConcat(nodes[..i], [nodes[i]]);
    assert [nodes[i]][1..] == [];
  }

  lemma {:induction false} PaneIdsConcat(a: seq<Node>, b: seq<Node>)
    ensures PaneIds(a + b) == PaneIds(a) + PaneIds(b)
    decreases |a|
  {
    if a == [] {
      assert a + b == b;
    } else {
      var head := if a[0].Pane? then [a[0].id] else [];
      PaneIdsConcat(a[1..], b);
      assert (a + b)[1..] == a[1..] + b && (a + b)[0] == a[0];
      calc {
        PaneIds(a + b);
        head + PaneIds(a[1..] + b);
        head + (PaneIds(a[1..]) + PaneIds(b));
        (head + PaneIds(a[1..])) + PaneIds(b);
        PaneIds(a) + PaneIds(b);
      }
    }
  }

  /** A pane seen before makes the whole list's panes not distinct. */
  lemma DuplicateStays(nodes: seq<Node>, i: nat)
    requires i < |nodes| && nodes[i].Pane? && nodes[i].id in PaneIds(nodes[..i])
    ensures !Distinct(PaneIds(nodes))
  {
    var before, after := PaneIds(nodes[..i]), PaneIds(nodes[i + 1..]);
    assert nodes == nodes[..i] + nodes[i..] && nodes[i..][1..] == nodes[i + 1..];
    PaneIdsConcat(nodes[..i], nodes[i..]);
    assert PaneIds(nodes) == before + ([nodes[i].id] + after);
    var j :| 0 <= j < |before| && before[j] == nodes[i].id;
    assert PaneIds(nodes)[|before|] == nodes[i].id && PaneIds(nodes)[j] == before[j];
  }

  // ---- the counter recognises exactly preorder lists

  lemma {:induction false} OwedConcat(a: seq<Node>, b: seq<Node>, pending: nat)
    ensures Owed(a + b, pending) == if Owed(a, pending).Some? then Owed(b, Owed(a, pending).value) else None
    decreases |a|
  {
    if a == [] {
      assert a + b == b;
    } else if pending > 0 {
      assert (a + b)[1..] == a[1..] + b;
      OwedConcat(a[1..], b, if a[0].Pane? then pending - 1 else pending + 1);
    }
  }

  /** One tree pays exactly one owed subtree. */
  lemma {:induction false} TreePaysOne(t: Tree, pending: nat)
    requires pending > 0
    ensures Owed(Preorder(t), pending) == Some(pending - 1)
  {
    match t
    case Leaf(_) =>
    case Branch(axis, ratio, first, second) =>
      var head := [Split(axis, ratio)];
      OwedConcat(head + Preorder(first), Preorder(second), pending);
      OwedConcat(head, Preorder(first), pending);
      TreePaysOne(first, pending + 1);
      TreePaysOne(second, pending);
  }

  lemma JoinFirstTwo(head: Node, rest: seq<Tree>, ts: seq<Tree>)
    requires head.Split? && |rest| >= 2 && ts == [Branch(head.axis, head.ratio, rest[0], rest[1])] + rest[2..]
    ensures PreorderAll(ts) == [head] + PreorderAll(rest)
  {
    var tree := ts[0];
    var a, b, tail := Preorder(rest[0]), Preorder(rest[1]), PreorderAll(rest[2..]);
    assert Preorder(tree) == [head] + a + b by { assert tree == Branch(head.axis, head.ratio, rest[0], rest[1]); }
    hide Preorder;
    AllOf(ts);
    AllOf(rest);
    AllOf(rest[1..]);
    hide PreorderAll;
    assert ts[1..] == rest[2..] && rest[1..][1..] == rest[2..];
    Regroup([head], a, b, tail);
  }

  lemma AllOf(ts: seq<Tree>)
    requires ts != []
    ensures PreorderAll(ts) == Preorder(ts[0]) + PreorderAll(ts[1..])
  {}

  lemma Regroup(x: seq<Node>, a: seq<Node>, b: seq<Node>, c: seq<Node>)
    ensures x + a + b + c == x + (a + (b + c))
  {}

  /** A list that pays `n` subtrees is the preorder of `n` trees. */
  lemma {:induction false} PaidListIsTrees(nodes: seq<Node>, n: nat) returns (ts: seq<Tree>)
    requires Owed(nodes, n) == Some(0)
    ensures |ts| == n && PreorderAll(ts) == nodes
    decreases |nodes|
  {
    if nodes == [] {
      ts := [];
    } else if nodes[0].Pane? {
      var rest := PaidListIsTrees(nodes[1..], n - 1);
      ts := [Leaf(nodes[0].id)] + rest;
      assert ts[1..] == rest && [nodes[0]] + nodes[1..] == nodes;
    } else {
      var rest := PaidListIsTrees(nodes[1..], n + 1);
      ts := [Branch(nodes[0].axis, nodes[0].ratio, rest[0], rest[1])] + rest[2..];
      JoinFirstTwo(nodes[0], rest, ts);
      assert [nodes[0]] + nodes[1..] == nodes;
    }
  }

  lemma OwedIffLayout(nodes: seq<Node>)
    ensures Owed(nodes, 1) == Some(0) <==> ListsATree(nodes)
  {
    if Owed(nodes, 1) == Some(0) {
      var ts := PaidListIsTrees(nodes, 1);
      assert PreorderAll(ts[1..]) == [] && Preorder(ts[0]) == nodes;
    }
    if ListsATree(nodes) {
      var t :| Preorder(t) == nodes;
      TreePaysOne(t, 1);
    }
  }

  /** The validator accepts exactly the preorder lists of split trees whose
      panes are distinct and include the focused one. */
  lemma AcceptsIffLayout(nodes: seq<Node>, focused: u64)
    ensures Accepts(nodes, focused) <==> 1 <= |nodes| <= 127 && IsLayout(nodes, focused)
  {
    OwedIffLayout(nodes);
  }

  /** The tree is unique: no preorder list is a proper prefix of another. */
  lemma {:induction false} PreorderIsInjective(a: Tree, b: Tree, restA: seq<Node>, restB: seq<Node>)
    requires Preorder(a) + restA == Preorder(b) + restB
    ensures a == b && restA == restB
  {
    var nodes := Preorder(a) + restA;
    assert nodes[0] == Preorder(a)[0] && nodes[0] == Preorder(b)[0];
    if a.Leaf? {
      assert nodes[1..] == restA && nodes[1..] == restB;
    } else {
      assert nodes[1..] == Preorder(a.first) + (Preorder(a.second) + restA);
      assert nodes[1..] == Preorder(b.first) + (Preorder(b.second) + restB);
      PreorderIsInjective(a.first, b.first, Preorder(a.second) + restA, Preorder(b.second) + restB);
      PreorderIsInjective(a.second, b.second, restA, restB);
    }
  }

  lemma LayoutTreeIsUnique(a: Tree, b: Tree)
    requires Preorder(a) == Preorder(b)
    ensures a == b
  {
    assert Preorder(a) + [] == Preorder(b) + [];
    PreorderIsInjective(a, b, [], []);
  }

  function Leaves(t: Tree): nat {
    match t
    case Leaf(_) => 1
    case Branch(_, _, first, second) => Leaves(first) + Leaves(second)
  }

  /** A tree of n leaves is listed in 2n - 1 nodes, its panes the leaves in order. */
  lemma {:induction false} LeafCount(t: Tree)
    ensures |Preorder(t)| == 2 * Leaves(t) - 1 && |PaneIds(Preorder(t))| == Leaves(t)
  {
    match t
    case Leaf(_) =>
    case Branch(axis, ratio, first, second) =>
      LeafCount(first);
      LeafCount(second);
      var head := [Split(axis, ratio)];
      assert PaneIds(head) == [];
      PaneIdsConcat(head + Preorder(first), Preorder(second));
      PaneIdsConcat(head, Preorder(first));
  }

  // ---- the wire form

  datatype TabLayout = TabLayout(
    workspaceKind: byte, workspaceId: u64, tabId: u64, focused: u64,
    fullscreen: bool, workspaceActive: bool, nodes: seq<Node>)

  const HEAD_FIELDS := [Enum(1), NONZERO_U64, NONZERO_U64, NONZERO_U64, BOOL, BOOL]
  const PANE_FIELDS := [NONZERO_U64]
  const SPLIT_FIELDS := [Enum(1), Field(2, 1000, 9000)]

  function NodeSchema(): Schema {
    Tagged([Numbers(PANE_FIELDS), Numbers(SPLIT_FIELDS)])
  }

  function LayoutSchema(): Schema {
    LayoutRecord(Numbers(HEAD_FIELDS), NodeSchema(), LayoutRule)
  }

  function LayoutRecord(head: Schema, node: Schema, rule: Value -> bool): Schema {
    Record([head, Number(2, 1, 127), Ahead([(1, 4)]), Repeat(1, node)], rule)
  }

  predicate LayoutRule(v: Value) {
    var l := LayoutOf(v);
    Accepts(l.nodes, l.focused)
  }

  function NodeValue(n: Node): Value {
    match n
    case Pane(id) => Pick(0, Nums([id]))
    case Split(axis, ratio) => Pick(1, Nums([axis, ratio]))
  }

  function NodeValues(nodes: seq<Node>): seq<Value> {
    seq(|nodes|, i requires 0 <= i < |nodes| => NodeValue(nodes[i]))
  }

  function HeadNumbers(l: TabLayout): seq<nat> {
    [l.workspaceKind, l.workspaceId, l.tabId, l.focused, Bit(l.fullscreen), Bit(l.workspaceActive)]
  }

  function LayoutItems(head: Value, nodes: seq<Value>): Value {
    Many([head, Num(|nodes|), Unit, Many(nodes)])
  }

  function LayoutValue(l: TabLayout): Value {
    LayoutItems(Nums(HeadNumbers(l)), NodeValues(l.nodes))
  }

  function NodeOf(v: Value): Node {
    var ns := if v.Pick? then NumsOf(v.body) else [];
    if v.Pick? && v.tag == 1 then Split(To8(At(ns, 0)), To16(At(ns, 1))) else Pane(To64(At(ns, 0)))
  }

  function LayoutOf(v: Value): TabLayout {
    if v.Many? && |v.items| == 4 && v.items[3].Many? then
      var h, nodes := NumsOf(v.items[0]), v.items[3].items;
      TabLayout(To8(At(h, 0)), To64(At(h, 1)), To64(At(h, 2)), To64(At(h, 3)), At(h, 4) == 1, At(h, 5) == 1,
                seq(|nodes|, i requires 0 <= i < |nodes| => NodeOf(nodes[i])))
    else TabLayout(0, 0, 0, 0, false, false, [])
  }

  predicate NodeFits(n: Node) {
    match n
    case Pane(id) => id > 0
    case Split(axis, ratio) => axis <= 1 && 1000 <= ratio <= 9000
  }

  /** What the fields check, beside the tree itself. */
  predicate LayoutFits(l: TabLayout) {
    l.workspaceKind <= 1 && l.workspaceId > 0 && l.tabId > 0 && l.focused > 0
    && forall i :: 0 <= i < |l.nodes| ==> NodeFits(l.nodes[i])
  }

  predicate LayoutOk(l: TabLayout) {
    LayoutFits(l) && Accepts(l.nodes, l.focused)
  }

  lemma NodeInverse(n: Node)
    ensures NodeOf(NodeValue(n)) == n
    ensures Valid(NodeSchema(), [], NodeValue(n)) <==> NodeFits(n)
  {
    Pow256Values();
    var ns: seq<nat> := if n.Pane? then [n.id] else [n.axis, n.ratio];
    var fields := if n.Pane? then PANE_FIELDS else SPLIT_FIELDS;
    NumsInverse(ns);
    NumbersValid(fields, [], Nums(ns));
    if n.Pane? {
      assert InRange(PANE_FIELDS[0], ns[0]) <==> n.id > 0;
    } else {
      assert InRange(SPLIT_FIELDS[0], ns[0]) <==> n.axis <= 1;
      assert InRange(SPLIT_FIELDS[1], ns[1]) <==> 1000 <= n.ratio <= 9000;
    }
  }

  lemma NodeOfValid(v: Value)
    requires Valid(NodeSchema(), [], v)
    ensures NodeValue(NodeOf(v)) == v
  {
    Pow256Values();
    var fields, ns := if v.tag == 0 then PANE_FIELDS else SPLIT_FIELDS, NumsOf(v.body);
    NumbersValid(fields, [], v.body);
    assert InRange(fields[0], ns[0]);
    if v.tag == 0 {
      assert [NodeOf(v).id] == ns;
    } else {
      assert InRange(fields[1], ns[1]);
      assert [NodeOf(v).axis, NodeOf(v).ratio] == ns;
    }
  }

  lemma HeadValid(l: TabLayout)
    ensures Valid(Numbers(HEAD_FIELDS), [], Nums(HeadNumbers(l)))
      <==> l.workspaceKind <= 1 && l.workspaceId > 0 && l.tabId > 0 && l.focused > 0
    ensures NumsOf(Nums(HeadNumbers(l))) == HeadNumbers(l)
  {
    Pow256Values();
    var ns := HeadNumbers(l);
    NumsInverse(ns);
    NumbersValid(HEAD_FIELDS, [], Nums(ns));
    hide Numbers, Nums, NumsOf;
    assert InRange(HEAD_FIELDS[0], ns[0]) <==> l.workspaceKind <= 1;
    assert InRange(HEAD_FIELDS[1], ns[1]) <==> l.workspaceId > 0;
    assert InRange(HEAD_FIELDS[2], ns[2]) <==> l.tabId > 0;
    assert InRange(HEAD_FIELDS[3], ns[3]) <==> l.focused > 0;
    assert InRange(HEAD_FIELDS[4], ns[4]) && InRange(HEAD_FIELDS[5], ns[5]);
  }

  lemma LayoutInverse(l: TabLayout)
    ensures LayoutOf(LayoutValue(l)) == l
  {
    NumsInverse(HeadNumbers(l));
    forall i | 0 <= i < |l.nodes| ensures NodeOf(NodeValue(l.nodes[i])) == l.nodes[i] { NodeInverse(l.nodes[i]); }
    hide Nums, NumsOf, NodeOf, NodeValue;
    assert LayoutOf(LayoutValue(l)).nodes == l.nodes;
  }

  lemma HeadOfValid(v: Value)
    requires Valid(Numbers(HEAD_FIELDS), [], v)
    ensures var h := NumsOf(v);
      v == Nums([To8(At(h, 0)), To64(At(h, 1)), To64(At(h, 2)), To64(At(h, 3)), Bit(At(h, 4) == 1), Bit(At(h, 5) == 1)])
  {
    Pow256Values();
    NumbersValid(HEAD_FIELDS, [], v);
    var h := NumsOf(v);
    hide Numbers, Nums, NumsOf;
    assert InRange(HEAD_FIELDS[0], h[0]) && InRange(HEAD_FIELDS[1], h[1]) && InRange(HEAD_FIELDS[2], h[2]);
    assert InRange(HEAD_FIELDS[3], h[3]) && InRange(HEAD_FIELDS[4], h[4]) && InRange(HEAD_FIELDS[5], h[5]);
    assert h == [To8(At(h, 0)), To64(At(h, 1)), To64(At(h, 2)), To64(At(h, 3)), Bit(At(h, 4) == 1), Bit(At(h, 5) == 1)];
  }

  lemma LayoutRecordValid(hs: Schema, ns: Schema, rule: Value -> bool, h: Value, nodes: seq<Value>)
    requires hs.Record?
    ensures Valid(LayoutRecord(hs, ns, rule), [], LayoutItems(h, nodes))
      <==> Valid(hs, [], h) && 1 <= |nodes| <= 127 && (forall i :: 0 <= i < |nodes| ==> Valid(ns, [], nodes[i]))
           && rule(LayoutItems(h, nodes))
  {
    Pow256Values();
    var r, items := LayoutRecord(hs, ns, rule), LayoutItems(h, nodes).items;
    assert Valid(hs, items[..0], h) == Valid(hs, [], h);
    assert r.fields[0] == hs && Valid(r.fields[2], items[..2], items[2]);
    assert Valid(r.fields[1], items[..1], items[1]) <==> 1 <= |nodes| <= 127;
    assert Valid(r.fields[3], items[..3], items[3]) <==> forall i :: 0 <= i < |nodes| ==> Valid(ns, [], nodes[i]);
  }

  lemma LayoutRecordParts(hs: Schema, ns: Schema, rule: Value -> bool, v: Value)
    requires Valid(LayoutRecord(hs, ns, rule), [], v)
    ensures v.Many? && |v.items| == 4 && v.items[3].Many? && v == LayoutItems(v.items[0], v.items[3].items)
  {
    var r, items := LayoutRecord(hs, ns, rule), v.items;
    assert Valid(r.fields[2], items[..2], items[2]) && Valid(r.fields[3], items[..3], items[3]);
    assert items == LayoutItems(items[0], items[3].items).items;
  }

  /** The codec takes exactly the layouts that are split trees and fit their fields. */
  lemma LayoutValid(l: TabLayout)
    ensures Valid(LayoutSchema(), [], LayoutValue(l)) <==> LayoutOk(l)
  {
    HeadValid(l);
    LayoutInverse(l);
    forall i | 0 <= i < |l.nodes|
      ensures Valid(NodeSchema(), [], NodeValues(l.nodes)[i]) <==> NodeFits(l.nodes[i])
    {
      NodeInverse(l.nodes[i]);
    }
    NumbersAreRecords(HEAD_FIELDS);
    hide Numbers, Nums, NumsOf, NodeSchema, NodeValue, Valid, LayoutOf, NodeFits, Owed, PaneIds, Distinct;
    LayoutRecordValid(Numbers(HEAD_FIELDS), NodeSchema(), LayoutRule, Nums(HeadNumbers(l)), NodeValues(l.nodes));
  }

  lemma LayoutOfValid(v: Value)
    requires Valid(LayoutSchema(), [], v)
    ensures LayoutValue(LayoutOf(v)) == v
  {
    NumbersAreRecords(HEAD_FIELDS);
    hide Numbers, Nums, NumsOf, NodeSchema, NodeOf, NodeValue, Valid, LayoutRule;
    LayoutRecordParts(Numbers(HEAD_FIELDS), NodeSchema(), LayoutRule, v);
    var nodes := v.items[3].items;
    LayoutRecordValid(Numbers(HEAD_FIELDS), NodeSchema(), LayoutRule, v.items[0], nodes);
    HeadOfValid(v.items[0]);
    forall i | 0 <= i < |nodes| ensures NodeValue(NodeOf(nodes[i])) == nodes[i] { NodeOfValid(nodes[i]); }
    assert NodeValues(LayoutOf(v).nodes) == nodes;
  }

  lemma LayoutSchemaOk()
    ensures WellFormed(LayoutSchema()) && Standalone(LayoutSchema())
  {
    Pow256Values();
    NumbersWellFormed(HEAD_FIELDS);
    NumbersWellFormed(PANE_FIELDS);
    NumbersWellFormed(SPLIT_FIELDS);
    NumbersAreRecords(HEAD_FIELDS);
    NodeWidth();
    assert WellFormed(NodeSchema()) by {
      NumbersAreRecords(PANE_FIELDS);
      NumbersAreRecords(SPLIT_FIELDS);
      hide Numbers;
    }
    LayoutRecordOk(Numbers(HEAD_FIELDS), NodeSchema(), LayoutRule);
  }

  lemma LayoutRecordOk(hs: Schema, ns: Schema, rule: Value -> bool)
    requires hs.Record? && WellFormed(hs) && Standalone(ns) && WellFormed(ns) && MinWidth(ns) == 4
    ensures WellFormed(LayoutRecord(hs, ns, rule))
  {
    Pow256Values();
    var f := LayoutRecord(hs, ns, rule).fields;
    var term: seq<(nat, nat)> := [(1, 4)];
    hide MinWidth;
    assert term[1..] == [] && Covered(term, f[3..]);
    assert WellFormed(f[0]) && WellFormed(f[1]) && WellFormed(f[3]);
    assert InPlace(f, 0) && InPlace(f, 1) && InPlace(f, 2) && InPlace(f, 3);
  }

  lemma NodeWidth()
    ensures MinWidth(NodeSchema()) == 4
  {
    NumbersSize(PANE_FIELDS, Nums([0]));
    NumbersSize(SPLIT_FIELDS, Nums([0, 0]));
    WidthSums(PANE_FIELDS);
    WidthSums(SPLIT_FIELDS);
    assert MinWidth(Numbers(PANE_FIELDS)) == 8 && MinWidth(Numbers(SPLIT_FIELDS)) == 3;
    hide Numbers;
    assert LeastAlt(NodeSchema(), 1) == 8;
    assert LeastAlt(NodeSchema(), 2) == 3;
  }

  function EncodeLayout(l: TabLayout): Option<seq<byte>> {
    if Valid(LayoutSchema(), [], LayoutValue(l)) && Size(LayoutSchema(), LayoutValue(l)) <= MAX_PAYLOAD
    then Some(Encode(LayoutSchema(), [], LayoutValue(l))) else None
  }

  function DecodeLayout(input: seq<byte>): Option<TabLayout> {
    match ParseBody(LayoutSchema(), input)
    case None => None
    case Some(v) => Some(LayoutOf(v))
  }

  /** Every valid layout decodes from its encoding. */
  lemma LayoutRoundTrip(l: TabLayout)
    requires LayoutOk(l)
    ensures EncodeLayout(l).Some? && DecodeLayout(EncodeLayout(l).value) == Some(l)
  {
    hide LayoutSchema, LayoutValue, LayoutOf, Valid, Encode, Size, ParseBody, WellFormed, LayoutOk;
    LayoutSchemaOk();
    LayoutEncodes(l);
    LayoutValid(l);
    BodyRoundTrip(LayoutSchema(), LayoutValue(l));
    LayoutInverse(l);
  }

  /** Whatever bytes decode are the encoding of the decoded layout, and that
      layout is a split tree. */
  lemma LayoutCanonical(input: seq<byte>)
    requires DecodeLayout(input).Some?
    ensures LayoutOk(DecodeLayout(input).value) && EncodeLayout(DecodeLayout(input).value) == Some(input)
    ensures IsLayout(DecodeLayout(input).value.nodes, DecodeLayout(input).value.focused)
  {
    var v := ParseBody(LayoutSchema(), input).value;
    var l := LayoutOf(v);
    LayoutSchemaOk();
    BodyCanonical(LayoutSchema(), input);
    SizeIsLength(LayoutSchema(), [], v);
    LayoutOfValid(v);
    LayoutValid(l);
    AcceptsIffLayout(l.nodes, l.focused);
    hide LayoutSchema, LayoutValue, LayoutOf, Valid, Encode, Size, IsLayout;
  }

  lemma NodeSize(n: Node)
    ensures Size(NodeSchema(), NodeValue(n)) <= 9
  {
    var fields: seq<Field>, ns: seq<nat> := if n.Pane? then PANE_FIELDS else SPLIT_FIELDS,
                                            if n.Pane? then [n.id] else [n.axis, n.ratio];
    NumbersSize(fields, Nums(ns));
    hide Numbers, Nums;
    WidthSums(fields);
  }

  lemma {:induction false} NodesSize(nodes: seq<Node>)
    ensures SizeMany(Repeat(1, NodeSchema()), NodeValues(nodes)) <= 9 * |nodes|
    decreases |nodes|
  {
    if nodes != [] {
      NodeSize(nodes[0]);
      NodesSize(nodes[1..]);
      assert NodeValues(nodes)[1..] == NodeValues(nodes[1..]);
    }
  }

  lemma LayoutRecordSize(hs: Schema, ns: Schema, rule: Value -> bool, h: Value, nodes: seq<Value>)
    ensures Size(LayoutRecord(hs, ns, rule), LayoutItems(h, nodes)) == Size(hs, h) + 2 + SizeMany(Repeat(1, ns), nodes)
  {
    var r, items := LayoutRecord(hs, ns, rule), LayoutItems(h, nodes).items;
    assert SizeFields(r, items, 4) == 0;
    assert SizeFields(r, items, 3) == SizeMany(Repeat(1, ns), nodes);
    assert SizeFields(r, items, 2) == SizeFields(r, items, 3);
    assert SizeFields(r, items, 1) == 2 + SizeFields(r, items, 2);
    assert SizeFields(r, items, 0) == Size(hs, h) + SizeFields(r, items, 1);
  }

  /** Every valid layout encodes: it never comes near the payload limit. */
  lemma LayoutEncodes(l: TabLayout)
    ensures EncodeLayout(l).Some? <==> LayoutOk(l)
  {
    LayoutValid(l);
    NodesSize(l.nodes);
    NumbersSize(HEAD_FIELDS, Nums(HeadNumbers(l)));
    WidthSums(HEAD_FIELDS);
    hide Numbers, Nums, NodeSchema, NodeValues, HeadNumbers, Valid, Size, LayoutFits, LayoutRule, Distinct, PaneIds, Owed;
    LayoutRecordSize(Numbers(HEAD_FIELDS), NodeSchema(), LayoutRule, Nums(HeadNumbers(l)), NodeValues(l.nodes));
  }
}
