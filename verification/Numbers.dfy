/** Records made of fixed-width numbers only, the bulk of every field table. */
module NumberRecords {
  import opened Wire
  import opened Schemas

  datatype Field = Field(width: nat, lo: nat, hi: nat)

  const ANY: Value -> bool := (v: Value) => true

  const U8 := Field(1, 0, 0xff)
  const U16 := Field(2, 0, 0xffff)
  const U32 := Field(4, 0, 0xffff_ffff)
  const U64 := Field(8, 0, 0xffff_ffff_ffff_ffff)
  const NONZERO_U64 := Field(8, 1, 0xffff_ffff_ffff_ffff)
  const BOOL := Field(1, 0, 1)

  function Enum(max: nat): Field {
    Field(1, 0, max)
  }

  function Bit(b: bool): nat {
    if b then 1 else 0
  }

  function NumberOf(f: Field): Schema {
    Number(f.width, f.lo, f.hi)
  }

  function Numbers(fields: seq<Field>): Schema {
    Record(seq(|fields|, i requires 0 <= i < |fields| => NumberOf(fields[i])), ANY)
  }

  predicate InRange(f: Field, n: nat) {
    f.lo <= n <= f.hi && n < Pow256(f.width)
  }

  predicate AllInRange(fields: seq<Field>, ns: seq<nat>) {
    |fields| == |ns| && forall i :: 0 <= i < |ns| ==> InRange(fields[i], ns[i])
  }

  function Nums(ns: seq<nat>): Value {
    Many(seq(|ns|, i requires 0 <= i < |ns| => Num(ns[i])))
  }

  function NumsOf(v: Value): seq<nat> {
    if v.Many? then seq(|v.items|, i requires 0 <= i < |v.items| => if v.items[i].Num? then v.items[i].n else 0) else []
  }

  /** Reading a number back as a field of a given width; 0 when it does not fit. */
  function To8(n: nat): byte { if n < 0x100 then n else 0 }
  function To16(n: nat): u16 { if n < 0x1_0000 then n else 0 }
  function To32(n: nat): u32 { if n < 0x1_0000_0000 then n else 0 }
  function To64(n: nat): u64 { if n < 0x1_0000_0000_0000_0000 then n else 0 }
  function At(ns: seq<nat>, i: nat): nat { if i < |ns| then ns[i] else 0 }

  function WidthSum(fields: seq<Field>): nat {
    if fields == [] then 0 else fields[0].width + WidthSum(fields[1..])
  }

  lemma NumbersAreRecords(fields: seq<Field>)
    ensures Numbers(fields).Record?
  {}

  /** A valid value is exactly a list of numbers, each in its field's range. */
  lemma NumbersValid(fields: seq<Field>, context: Context, v: Value)
    ensures Valid(Numbers(fields), context, v) <==> v == Nums(NumsOf(v)) && AllInRange(fields, NumsOf(v))
  {
    var s, ns := Numbers(fields), NumsOf(v);
    if v.Many? && |v.items| == |fields| {
      forall i | 0 <= i < |fields|
        ensures Valid(s.fields[i], v.items[..i], v.items[i]) <==> v.items[i] == Num(ns[i]) && InRange(fields[i], ns[i])
      {
        assert s.fields[i] == NumberOf(fields[i]);
      }
      if Valid(s, context, v) {
        assert v.items == Nums(ns).items;
      }
    }
  }

  lemma NumsInverse(ns: seq<nat>)
    ensures NumsOf(Nums(ns)) == ns
  {}

  lemma {:induction false} NumbersSizeFrom(fields: seq<Field>, v: Value, i: nat)
    requires v.Many? && |v.items| == |fields| && i <= |fields|
    ensures SizeFields(Numbers(fields), v.items, i) == WidthSum(fields[i..])
    ensures FieldsMin(Numbers(fields), i) == WidthSum(fields[i..])
    decreases |fields| - i
  {
    if i < |fields| {
      NumbersSizeFrom(fields, v, i + 1);
      assert fields[i..][1..] == fields[i + 1..];
      assert Numbers(fields).fields[i] == NumberOf(fields[i]);
    }
  }

  lemma NumbersSize(fields: seq<Field>, v: Value)
    requires v.Many? && |v.items| == |fields|
    ensures Size(Numbers(fields), v) == WidthSum(fields) == MinWidth(Numbers(fields))
  {
    NumbersSizeFrom(fields, v, 0);
    assert fields[0..] == fields;
  }

  lemma NumbersWellFormed(fields: seq<Field>)
    requires forall i :: 0 <= i < |fields| ==> fields[i].lo <= fields[i].hi < Pow256(fields[i].width)
    ensures WellFormed(Numbers(fields))
  {
    var s := Numbers(fields);
    forall i | 0 <= i < |fields|
      ensures WellFormed(s.fields[i])
    {
      assert s.fields[i] == NumberOf(fields[i]);
    }
  }

  lemma WidthSumFrom(fields: seq<Field>, i: nat)
    requires i < |fields|
    ensures WidthSum(fields[i..]) == fields[i].width + WidthSum(fields[i + 1..])
  {
    assert fields[i..][1..] == fields[i + 1..];
  }

  lemma WidthSums(fields: seq<Field>)
    ensures fields[0..] == fields && WidthSum(fields[|fields|..]) == 0
    ensures forall i :: 0 <= i < |fields| ==> WidthSum(fields[i..]) == fields[i].width + WidthSum(fields[i + 1..])
  {
    forall i | 0 <= i < |fields|
      ensures WidthSum(fields[i..]) == fields[i].width + WidthSum(fields[i + 1..])
    {
      WidthSumFrom(fields, i);
    }
  }

  /** Elements of equal size. */
  lemma {:induction false} SizeManyUniform(s: Schema, items: seq<Value>, k: nat)
    requires s.Repeat? && forall i :: 0 <= i < |items| ==> Size(s.elem, items[i]) == k
    ensures SizeMany(s, items) == |items| * k
    decreases |items|
  {
    if items != [] {
      SizeManyUniform(s, items[1..], k);
      assert |items| * k == k + |items[1..]| * k;
    }
  }
}
