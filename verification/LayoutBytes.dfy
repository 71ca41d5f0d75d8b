/** Where every field of a tab layout lies on the wire, in bytes
    (serializers/telar_messages.hpp). */
module LayoutBytes {
  import opened Wire
  import opened Schemas
  import opened NumberRecords
  import opened Codecs
  import opened PackedBytes
  import opened Layouts

  /** A tag, 0 for a pane and 1 for a split, and the node. */
  function NodeBytes(n: Node): seq<byte> {
    match n
    case Pane(id) => [0] + LittleEndian(id, 8)
    case Split(axis, ratio) => [1, axis] + LittleEndian(ratio, 2)
  }

  function NodesBytes(nodes: seq<Node>): seq<byte> {
    if nodes == [] then [] else NodeBytes(nodes[0]) + NodesBytes(nodes[1..])
  }

  function HeadBytes(l: TabLayout): seq<byte> {
    [l.workspaceKind] + LittleEndian(l.workspaceId, 8) + LittleEndian(l.tabId, 8) + LittleEndian(l.focused, 8)
    + [Bit(l.fullscreen), Bit(l.workspaceActive)]
  }

  function BodyBytes(l: TabLayout): seq<byte> {
    HeadBytes(l) + LittleEndian(|l.nodes|, 2) + NodesBytes(l.nodes)
  }

  lemma HeadPacked(l: TabLayout)
    ensures Packed(HEAD_FIELDS, HeadNumbers(l), 0) == HeadBytes(l)
  {
    var ns := HeadNumbers(l);
    Pack1(HEAD_FIELDS, ns, 0);
    Pack1(HEAD_FIELDS, ns, 4);
    Pack1(HEAD_FIELDS, ns, 5);
    hide LittleEndian;
    var flags: seq<byte>, kind: seq<byte> := [Bit(l.fullscreen), Bit(l.workspaceActive)], [l.workspaceKind];
    var w, t, p := LittleEndian(l.workspaceId, 8), LittleEndian(l.tabId, 8), LittleEndian(l.focused, 8);
    Regrouped(kind, w, t, p, flags);
    assert Packed(HEAD_FIELDS, ns, 6) == [];
    assert Packed(HEAD_FIELDS, ns, 4) == [Bit(l.fullscreen), Bit(l.workspaceActive)];
    assert Packed(HEAD_FIELDS, ns, 3) == p + flags;
    assert Packed(HEAD_FIELDS, ns, 1) == w + (t + (p + flags));
  }

  lemma Regrouped(a: seq<byte>, b: seq<byte>, c: seq<byte>, d: seq<byte>, e: seq<byte>)
    ensures a + (b + (c + (d + e))) == a + b + c + d + e
  {}

  lemma PaneTag(s: Schema, tag: nat, v: Value)
    requires s.Tagged? && tag < |s.alts| && Valid(s, [], Pick(tag, v)) && tag < 256
    ensures Valid(s.alts[tag], [], v) && Encode(s, [], Pick(tag, v)) == [tag as byte] + Encode(s.alts[tag], [], v)
  {
    OneByte(tag);
  }

  lemma NodePacked(n: Node)
    requires Valid(NodeSchema(), [], NodeValue(n))
    ensures Encode(NodeSchema(), [], NodeValue(n)) == NodeBytes(n)
  {
    hide Numbers, Nums, Encode, Valid, LittleEndian;
    if n.Pane? {
      var ns: seq<nat> := [n.id];
      PaneTag(NodeSchema(), 0, Nums(ns));
      NumbersPacked(PANE_FIELDS, ns, []);
      assert Packed(PANE_FIELDS, ns, 1) == [];
    } else {
      var ns: seq<nat> := [n.axis, n.ratio];
      PaneTag(NodeSchema(), 1, Nums(ns));
      NumbersPacked(SPLIT_FIELDS, ns, []);
      Pack1(SPLIT_FIELDS, ns, 0);
      assert Packed(SPLIT_FIELDS, ns, 2) == [];
    }
  }

  lemma {:induction false} NodesPacked(nodes: seq<Node>)
    requires forall i :: 0 <= i < |nodes| ==> Valid(NodeSchema(), [], NodeValues(nodes)[i])
    ensures EncodeMany(Repeat(1, NodeSchema()), NodeValues(nodes)) == NodesBytes(nodes)
    decreases |nodes|
  {
    hide NodeSchema, NodeValue, NodeBytes, Valid, Encode;
    if nodes != [] {
      assert NodeValues(nodes)[0] == NodeValue(nodes[0]);
      assert NodeValues(nodes)[1..] == NodeValues(nodes[1..]);
      forall i | 0 <= i < |nodes| - 1 ensures Valid(NodeSchema(), [], NodeValues(nodes[1..])[i]) {
        assert NodeValues(nodes)[i + 1] == NodeValues(nodes[1..])[i];
      }
      NodePacked(nodes[0]);
      NodesPacked(nodes[1..]);
    }
  }

  lemma RecordPacked(hs: Schema, ns: Schema, rule: Value -> bool, h: Value, nodes: seq<Value>)
    requires hs.Record? && Valid(LayoutRecord(hs, ns, rule), [], LayoutItems(h, nodes))
    ensures Valid(hs, [], h) && forall i :: 0 <= i < |nodes| ==> Valid(ns, [], nodes[i])
    ensures Encode(LayoutRecord(hs, ns, rule), [], LayoutItems(h, nodes))
         == Encode(hs, [], h) + LittleEndian(|nodes|, 2) + EncodeMany(Repeat(1, ns), nodes)
  {
    hide LittleEndian, Encode, EncodeMany, Valid;
    var r, items := LayoutRecord(hs, ns, rule), LayoutItems(h, nodes).items;
    RecordEncoded(r, items);
    assert r.fields[0] == hs && r.fields[1] == Number(2, 1, 127) && r.fields[2].Ahead? && r.fields[3] == Repeat(1, ns);
    assert Valid(r.fields[0], items[..0], items[0]) && Valid(r.fields[1], items[..1], items[1]);
    assert Valid(r.fields[2], items[..2], items[2]) && Valid(r.fields[3], items[..3], items[3]);
    SameEncode(hs, items[..0], h);
    NumberAt(r, items, 1, |nodes|, 2);
    CheckAt(r, items, 2);
    ListAt(r, items, 3, nodes);
    assert EncodeFields(r, items, 4) == [];
    assert EncodeFields(r, items, 2) == EncodeMany(Repeat(1, ns), nodes);
  }

  /** Every body of a layout, written or read, is these bytes. */
  lemma LayoutForm(l: TabLayout, bytes: seq<byte>)
    requires EncodeLayout(l) == Some(bytes) || DecodeLayout(bytes) == Some(l)
    ensures bytes == BodyBytes(l)
  {
    hide LayoutRule, Numbers, Nums, NodeSchema, NodeValues, HeadNumbers, HeadBytes, NodesBytes, Valid, Encode, EncodeMany, LittleEndian, Packed,
      LayoutOk, IsLayout, ParseBody, LayoutOf;
    if DecodeLayout(bytes) == Some(l) {
      LayoutCanonical(bytes);
    }
    NumbersAreRecords(HEAD_FIELDS);
    RecordPacked(Numbers(HEAD_FIELDS), NodeSchema(), LayoutRule, Nums(HeadNumbers(l)), NodeValues(l.nodes));
    NumbersPacked(HEAD_FIELDS, HeadNumbers(l), []);
    HeadPacked(l);
    NodeCount(l.nodes);
    NodesPacked(l.nodes);
  }

  lemma NodeCount(nodes: seq<Node>)
    ensures |NodeValues(nodes)| == |nodes|
  {}
}
