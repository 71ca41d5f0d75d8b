/** The bytes of records, written out part by part. */
module PackedBytes {
  import opened Wire
  import opened Schemas
  import opened NumberRecords
  import opened Codecs

  /** One after the other. */
  function Joined(parts: seq<seq<byte>>): seq<byte> {
    if parts == [] then [] else parts[0] + Joined(parts[1..])
  }

  function Packed(fields: seq<Field>, ns: seq<nat>, i: nat): seq<byte>
    requires |fields| == |ns| && i <= |ns|
    decreases |ns| - i
  {
    if i == |ns| then [] else LittleEndian(ns[i], fields[i].width) + Packed(fields, ns, i + 1)
  }

  lemma {:induction false} NumbersPackedFrom(fields: seq<Field>, ns: seq<nat>, i: nat)
    requires AllInRange(fields, ns) && i <= |ns|
    requires forall j :: i <= j < |ns| ==> Valid(Numbers(fields).fields[j], Nums(ns).items[..j], Nums(ns).items[j])
    ensures EncodeFields(Numbers(fields), Nums(ns).items, i) == Packed(fields, ns, i)
    decreases |ns| - i
  {
    if i < |ns| {
      NumbersPackedFrom(fields, ns, i + 1);
      assert Numbers(fields).fields[i] == NumberOf(fields[i]);
    }
  }

  lemma NumbersPacked(fields: seq<Field>, ns: seq<nat>, context: Context)
    requires Valid(Numbers(fields), context, Nums(ns))
    ensures |fields| == |ns| && Encode(Numbers(fields), context, Nums(ns)) == Packed(fields, ns, 0)
  {
    NumbersValid(fields, context, Nums(ns));
    NumsInverse(ns);
    NumbersPackedFrom(fields, ns, 0);
  }

  lemma Pack1(fields: seq<Field>, ns: seq<nat>, i: nat)
    requires |fields| == |ns| && i < |ns| && fields[i].width == 1 && ns[i] < 256
    ensures Packed(fields, ns, i) == [ns[i] as byte] + Packed(fields, ns, i + 1)
  {
    OneByte(ns[i]);
  }

  lemma {:induction false} BytesPacked(fields: seq<Field>, bytes: seq<byte>, i: nat)
    requires |fields| == |bytes| && i <= |bytes| && forall j :: 0 <= j < |fields| ==> fields[j].width == 1
    ensures Packed(fields, bytes, i) == bytes[i..]
    decreases |bytes| - i
  {
    if i < |bytes| {
      Pack1(fields, bytes, i);
      BytesPacked(fields, bytes, i + 1);
    }
  }

  lemma RecordEncoded(s: Schema, items: seq<Value>)
    requires s.Record? && Valid(s, [], Many(items))
    ensures |items| == |s.fields| && forall i :: 0 <= i < |items| ==> Valid(s.fields[i], items[..i], items[i])
    ensures Encode(s, [], Many(items)) == EncodeFields(s, items, 0)
  {}

  lemma SameEncode(s: Schema, context: Context, v: Value)
    requires s.Record? && Valid(s, context, v)
    ensures Valid(s, [], v) && Encode(s, context, v) == Encode(s, [], v)
  {}

  lemma NumberAt(r: Schema, items: seq<Value>, i: nat, n: nat, width: nat)
    requires r.Record? && i < |items| == |r.fields| && Valid(r.fields[i], items[..i], items[i])
    requires r.fields[i].Number? && r.fields[i].width == width && items[i] == Num(n)
    ensures Encode(r.fields[i], items[..i], items[i]) == LittleEndian(n, width)
  {}

  lemma BlobAt(r: Schema, items: seq<Value>, i: nat, bytes: seq<byte>)
    requires r.Record? && i < |items| == |r.fields| && Valid(r.fields[i], items[..i], items[i])
    requires r.fields[i].Blob? && items[i] == Raw(bytes)
    ensures Encode(r.fields[i], items[..i], items[i]) == bytes
  {}

  lemma ListAt(r: Schema, items: seq<Value>, i: nat, list: seq<Value>)
    requires r.Record? && i < |items| == |r.fields| && Valid(r.fields[i], items[..i], items[i])
    requires r.fields[i].Repeat? && items[i] == Many(list)
    ensures forall k :: 0 <= k < |list| ==> Valid(r.fields[i].elem, [], list[k])
    ensures Encode(r.fields[i], items[..i], items[i]) == EncodeMany(r.fields[i], list)
  {}

  lemma CheckAt(r: Schema, items: seq<Value>, i: nat)
    requires r.Record? && i < |items| == |r.fields| && Valid(r.fields[i], items[..i], items[i]) && r.fields[i].Ahead?
    ensures Encode(r.fields[i], items[..i], items[i]) == []
  {}

  lemma {:induction false} FieldsJoined(r: Schema, items: seq<Value>, parts: seq<seq<byte>>, i: nat)
    requires r.Record? && |r.fields| == |items| == |parts| && i <= |items|
    requires forall j :: 0 <= j < |items| ==> Valid(r.fields[j], items[..j], items[j])
    requires forall j :: 0 <= j < |items| ==> Encode(r.fields[j], items[..j], items[j]) == parts[j]
    ensures EncodeFields(r, items, i) == Joined(parts[i..])
    decreases |items| - i
  {
    hide Encode, Valid;
    if i < |items| {
      FieldsJoined(r, items, parts, i + 1);
      assert parts[i..][1..] == parts[i + 1..];
    }
  }

  /** A record is its fields one after the other. */
  lemma RecordJoined(r: Schema, items: seq<Value>, parts: seq<seq<byte>>)
    requires r.Record? && Valid(r, [], Many(items)) && |r.fields| == |items| == |parts|
    requires forall i :: 0 <= i < |items| ==> Valid(r.fields[i], items[..i], items[i]) && Encode(r.fields[i], items[..i], items[i]) == parts[i]
    ensures Encode(r, [], Many(items)) == Joined(parts)
  {
    hide Encode, EncodeFields, Valid, Joined;
    RecordEncoded(r, items);
    FieldsJoined(r, items, parts, 0);
    assert parts[0..] == parts;
  }

  lemma JoinSix(a: seq<byte>, b: seq<byte>, c: seq<byte>, d: seq<byte>, e: seq<byte>, f: seq<byte>)
    ensures Joined([a, b, c, d, e, f]) == a + b + c + d + e + f
  {
    assert Joined([f]) == f;
    assert [e, f][1..] == [f] && [d, e, f][1..] == [e, f] && [c, d, e, f][1..] == [d, e, f];
    assert [b, c, d, e, f][1..] == [c, d, e, f] && [a, b, c, d, e, f][1..] == [b, c, d, e, f];
    assert Joined([d, e, f]) == d + e + f;
    assert Joined([c, d, e, f]) == c + d + e + f;
    assert Joined([b, c, d, e, f]) == b + c + d + e + f;
  }
}
