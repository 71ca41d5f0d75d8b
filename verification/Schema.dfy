/** The codec combinators of telar_value_codec.hpp and telar_serializer.hpp as
    one datatype of schemas, with one encoder, one decoder and one size. */
module Schemas {
  import opened Wire

  /** A decoded body. `Unit` stands for a field that holds no data. */
  datatype Value =
    | Num(n: nat)
    | Raw(bytes: seq<byte>)
    | Many(items: seq<Value>)
    | Pick(tag: nat, body: Value)
    | Absent
    | Present(inner: Value)
    | Unit

  /** `Blob` and `Repeat` take their length from an earlier number of the same
      record, so a count may be written far ahead of its items. `Ahead` is an
      early "truncated" check: so many bytes must remain for these counts. */
  datatype Schema =
    | Number(width: nat, lo: nat, hi: nat)
    | Ahead(terms: seq<(nat, nat)>)
    | Blob(count: nat)
    | Repeat(count: nat, elem: Schema)
    | Record(fields: seq<Schema>, rule: Value -> bool)
    | Tagged(alts: seq<Schema>)
    | Framed(limit: nat, payload: Schema)

  /** The context of a field: the values of the earlier fields of its record. */
  type Context = seq<Value>

  predicate Holds(context: Context, i: nat, n: nat) {
    i < |context| && context[i] == Num(n)
  }

  function Demand(context: Context, terms: seq<(nat, nat)>): nat {
    if terms == [] then 0
    else
      (if terms[0].0 < |context| && context[terms[0].0].Num? then context[terms[0].0].n * terms[0].1 else 0)
      + Demand(context, terms[1..])
  }

  // ---- which values a codec accepts, and the bytes it writes for them

  function Size(s: Schema, v: Value): nat
    decreases s, 1
  {
    match s
    case Number(width, _, _) => width
    case Ahead(_) => 0
    case Blob(_) => if v.Raw? then |v.bytes| else 0
    case Repeat(_, _) => if v.Many? then SizeMany(s, v.items) else 0
    case Record(fields, _) => if v.Many? && |v.items| == |fields| then SizeFields(s, v.items, 0) else 0
    case Tagged(alts) => if v.Pick? && v.tag < |alts| then 1 + Size(alts[v.tag], v.body) else 1
    case Framed(_, payload) => if v.Present? then 4 + Size(payload, v.inner) else 4
  }

  function SizeMany(s: Schema, items: seq<Value>): nat
    requires s.Repeat?
    decreases s, 0, |items|
  {
    if items == [] then 0 else Size(s.elem, items[0]) + SizeMany(s, items[1..])
  }

  function SizeFields(s: Schema, items: seq<Value>, i: nat): nat
    requires s.Record? && |items| == |s.fields| && i <= |items|
    decreases s, 0, |items| - i
  {
    if i == |items| then 0 else Size(s.fields[i], items[i]) + SizeFields(s, items, i + 1)
  }

  predicate Valid(s: Schema, context: Context, v: Value)
    decreases s
  {
    match s
    case Number(width, lo, hi) => v.Num? && lo <= v.n <= hi && v.n < Pow256(width)
    case Ahead(_) => v.Unit?
    case Blob(count) => v.Raw? && Holds(context, count, |v.bytes|)
    case Repeat(count, elem) =>
      v.Many? && Holds(context, count, |v.items|) && forall i :: 0 <= i < |v.items| ==> Valid(elem, [], v.items[i])
    case Record(fields, rule) =>
      v.Many? && |v.items| == |fields| && rule(v)
      && forall i :: 0 <= i < |fields| ==> Valid(fields[i], v.items[..i], v.items[i])
    case Tagged(alts) => v.Pick? && v.tag < |alts| && v.tag < 256 && Valid(alts[v.tag], [], v.body)
    case Framed(limit, payload) =>
      v.Absent? || (v.Present? && Valid(payload, [], v.inner) && 0 < Size(payload, v.inner) <= limit)
  }

  function Encode(s: Schema, context: Context, v: Value): seq<byte>
    requires Valid(s, context, v)
    decreases s, 1
  {
    match s
    case Number(width, _, _) => LittleEndian(v.n, width)
    case Ahead(_) => []
    case Blob(_) => v.bytes
    case Repeat(_, _) => EncodeMany(s, v.items)
    case Record(_, _) => EncodeFields(s, v.items, 0)
    case Tagged(alts) => LittleEndian(v.tag, 1) + Encode(alts[v.tag], [], v.body)
    case Framed(_, payload) =>
      if v.Absent? then LittleEndian(0, 4)
      else LittleEndian(Size(payload, v.inner), 4) + Encode(payload, [], v.inner)
  }

  function EncodeMany(s: Schema, items: seq<Value>): seq<byte>
    requires s.Repeat? && forall i :: 0 <= i < |items| ==> Valid(s.elem, [], items[i])
    decreases s, 0, |items|
  {
    if items == [] then [] else Encode(s.elem, [], items[0]) + EncodeMany(s, items[1..])
  }

  function EncodeFields(s: Schema, items: seq<Value>, i: nat): seq<byte>
    requires s.Record? && |items| == |s.fields| && i <= |items|
    requires forall j :: i <= j < |items| ==> Valid(s.fields[j], items[..j], items[j])
    decreases s, 0, |items| - i
  {
    if i == |items| then [] else Encode(s.fields[i], items[..i], items[i]) + EncodeFields(s, items, i + 1)
  }

  // ---- the decoder: the value and the bytes left over, or a failure

  function Decode(s: Schema, context: Context, input: seq<byte>): Option<(Value, seq<byte>)>
    decreases s, 1
  {
    match s
    case Number(width, lo, hi) =>
      if |input| < width then None
      else
        var n := FromLittleEndian(input[..width]);
        if lo <= n <= hi then Some((Num(n), input[width..])) else None
    case Ahead(terms) => if Demand(context, terms) > |input| then None else Some((Unit, input))
    case Blob(count) =>
      if count >= |context| || !context[count].Num? || context[count].n > |input| then None
      else Some((Raw(input[..context[count].n]), input[context[count].n..]))
    case Repeat(count, _) =>
      if count >= |context| || !context[count].Num? then None
      else
        (match DecodeMany(s, context[count].n, input)
         case None => None
         case Some((items, rest)) => Some((Many(items), rest)))
    case Record(_, rule) =>
      (match DecodeFields(s, [], input)
       case None => None
       case Some((items, rest)) => if rule(Many(items)) then Some((Many(items), rest)) else None)
    case Tagged(alts) =>
      if input == [] || input[0] >= |alts| then None
      else
        (match Decode(alts[input[0]], [], input[1..])
         case None => None
         case Some((body, rest)) => Some((Pick(input[0], body), rest)))
    case Framed(limit, payload) =>
      if |input| < 4 then None
      else
        var length := FromLittleEndian(input[..4]);
        if length == 0 then Some((Absent, input[4..]))
        else if length > limit || length > |input| - 4 then None
        else
          (match Decode(payload, [], input[4..][..length])
           case None => None
           case Some((inner, rest)) => if rest == [] then Some((Present(inner), input[4..][length..])) else None)
  }

  function DecodeMany(s: Schema, n: nat, input: seq<byte>): (r: Option<(seq<Value>, seq<byte>)>)
    requires s.Repeat?
    ensures r.Some? ==> |r.value.0| == n
    decreases s, 0, n
  {
    if n == 0 then Some(([], input))
    else
      match Decode(s.elem, [], input)
      case None => None
      case Some((v, rest)) =>
        match DecodeMany(s, n - 1, rest)
        case None => None
        case Some((vs, end)) => Some(([v] + vs, end))
  }

  function DecodeFields(s: Schema, done: seq<Value>, input: seq<byte>): (r: Option<(seq<Value>, seq<byte>)>)
    requires s.Record? && |done| <= |s.fields|
    ensures r.Some? ==> |r.value.0| == |s.fields| && done <= r.value.0
    decreases s, 0, |s.fields| - |done|
  {
    if |done| == |s.fields| then Some((done, input))
    else
      match Decode(s.fields[|done|], done, input)
      case None => None
      case Some((v, rest)) => DecodeFields(s, done + [v], rest)
  }

  // ---- static conditions on a schema

  /** The least number of bytes any value takes (`min_width`). */
  function MinWidth(s: Schema): nat
    decreases s, 1
  {
    match s
    case Number(width, _, _) => width
    case Ahead(_) => 0
    case Blob(_) => 0
    case Repeat(_, _) => 0
    case Record(_, _) => FieldsMin(s, 0)
    case Tagged(alts) => 1 + LeastAlt(s, |alts|)
    case Framed(_, _) => 4
  }

  function LeastAlt(s: Schema, n: nat): nat
    requires s.Tagged? && n <= |s.alts|
    decreases s, 0, n
  {
    if n == 0 then 0
    else if n == 1 then MinWidth(s.alts[0])
    else
      var rest := LeastAlt(s, n - 1);
      if MinWidth(s.alts[n - 1]) < rest then MinWidth(s.alts[n - 1]) else rest
  }

  function FieldsMin(s: Schema, i: nat): nat
    requires s.Record? && i <= |s.fields|
    decreases s, 0, |s.fields| - i
  {
    if i == |s.fields| then 0
    else
      (match s.fields[i]
       case Blob(count) => Floor(s.fields, count)
       case Repeat(count, elem) => Floor(s.fields, count) * MinWidth(elem)
       case _ => MinWidth(s.fields[i]))
      + FieldsMin(s, i + 1)
  }

  function Floor(fields: seq<Schema>, count: nat): nat {
    if count < |fields| && fields[count].Number? then fields[count].lo else 0
  }

  /** Each checked term is a list or blob that still follows, in this order,
      and is counted at no more than its elements' least width. */
  predicate Covered(terms: seq<(nat, nat)>, fields: seq<Schema>) {
    if terms == [] then true
    else if fields == [] then false
    else if (fields[0].Blob? && terms[0] == (fields[0].count, 1))
         || (fields[0].Repeat? && terms[0].0 == fields[0].count && terms[0].1 <= MinWidth(fields[0].elem))
    then Covered(terms[1..], fields[1..])
    else Covered(terms, fields[1..])
  }

  predicate Standalone(s: Schema) {
    s.Number? || s.Record? || s.Tagged? || s.Framed?
  }

  /** A field names only an earlier number as its count; a check names only
      counts already read, of lists still to come. */
  predicate InPlace(fields: seq<Schema>, i: nat)
    requires i < |fields|
  {
    match fields[i]
    case Blob(count) => count < i && fields[count].Number?
    case Repeat(count, _) => count < i && fields[count].Number?
    case Ahead(terms) =>
      Covered(terms, fields[i + 1..]) && forall t :: 0 <= t < |terms| ==> terms[t].0 < i
    case _ => true
  }

  predicate WellFormed(s: Schema)
    decreases s
  {
    match s
    case Number(width, lo, hi) => lo <= hi < Pow256(width)
    case Ahead(_) => true
    case Blob(_) => true
    case Repeat(_, elem) => Standalone(elem) && WellFormed(elem)
    case Record(fields, _) =>
      forall i :: 0 <= i < |fields| ==> WellFormed(fields[i]) && InPlace(fields, i)
    case Tagged(alts) =>
      0 < |alts| <= 256 && forall i :: 0 <= i < |alts| ==> Standalone(alts[i]) && WellFormed(alts[i])
    case Framed(limit, payload) => limit < Pow256(4) && Standalone(payload) && WellFormed(payload)
  }

  // ---- sizes

  /** The precomputed size is the number of bytes written. */
  lemma {:induction false} SizeIsLength(s: Schema, context: Context, v: Value)
    requires Valid(s, context, v)
    ensures |Encode(s, context, v)| == Size(s, v)
    decreases s, 1
  {
    match s
    case Repeat(_, _) => SizeIsLengthMany(s, v.items);
    case Record(_, _) => SizeIsLengthFields(s, v.items, 0);
    case Tagged(alts) => SizeIsLength(alts[v.tag], [], v.body);
    case Framed(_, payload) => if v.Present? { SizeIsLength(payload, [], v.inner); }
    case _ =>
  }

  lemma {:induction false} SizeIsLengthMany(s: Schema, items: seq<Value>)
    requires s.Repeat? && forall i :: 0 <= i < |items| ==> Valid(s.elem, [], items[i])
    ensures |EncodeMany(s, items)| == SizeMany(s, items)
    decreases s, 0, |items|
  {
    if items != [] {
      SizeIsLength(s.elem, [], items[0]);
      SizeIsLengthMany(s, items[1..]);
    }
  }

  lemma {:induction false} SizeIsLengthFields(s: Schema, items: seq<Value>, i: nat)
    requires s.Record? && |items| == |s.fields| && i <= |items|
    requires forall j :: i <= j < |items| ==> Valid(s.fields[j], items[..j], items[j])
    ensures |EncodeFields(s, items, i)| == SizeFields(s, items, i)
    decreases s, 0, |items| - i
  {
    if i < |items| {
      SizeIsLength(s.fields[i], items[..i], items[i]);
      SizeIsLengthFields(s, items, i + 1);
    }
  }

  lemma {:induction false} AtLeastMinWidth(s: Schema, context: Context, v: Value)
    requires WellFormed(s) && Valid(s, context, v)
    ensures |Encode(s, context, v)| >= MinWidth(s)
    decreases s, 1
  {
    match s
    case Record(_, _) => FieldsAtLeastMin(s, v.items, 0);
    case Tagged(alts) =>
      AtLeastMinWidth(alts[v.tag], [], v.body);
      LeastAltIsLeast(s, |alts|, v.tag);
    case _ =>
  }

  lemma {:induction false} LeastAltIsLeast(s: Schema, n: nat, i: nat)
    requires s.Tagged? && i < n <= |s.alts|
    ensures LeastAlt(s, n) <= MinWidth(s.alts[i])
  {
    if i < n - 1 {
      LeastAltIsLeast(s, n - 1, i);
    }
  }

  lemma {:induction false} ManyAtLeastMin(s: Schema, items: seq<Value>)
    requires s.Repeat? && WellFormed(s)
    requires forall i :: 0 <= i < |items| ==> Valid(s.elem, [], items[i])
    ensures |EncodeMany(s, items)| >= |items| * MinWidth(s.elem)
    decreases s, 0, |items|
  {
    hide Encode, Valid, MinWidth;
    if items != [] {
      AtLeastMinWidth(s.elem, [], items[0]);
      ManyAtLeastMin(s, items[1..]);
      OneMore(|items|, MinWidth(s.elem));
    }
  }

  lemma OneMore(n: nat, m: nat)
    requires n > 0
    ensures n * m == m + (n - 1) * m
  {}

  lemma {:induction false} FieldsAtLeastMin(s: Schema, items: seq<Value>, i: nat)
    requires s.Record? && WellFormed(s) && |items| == |s.fields| && i <= |items|
    requires forall j :: 0 <= j < |items| ==> Valid(s.fields[j], items[..j], items[j])
    ensures |EncodeFields(s, items, i)| >= FieldsMin(s, i)
    decreases s, 0, |items| - i
  {
    if i < |items| {
      var f := s.fields[i];
      assert Valid(f, items[..i], items[i]) && WellFormed(f) && InPlace(s.fields, i);
      if f.Blob? {
        assert Valid(s.fields[f.count], items[..f.count], items[f.count]);
      } else if f.Repeat? {
        assert Valid(s.fields[f.count], items[..f.count], items[f.count]);
        ManyAtLeastMin(f, items[i].items);
        Multiply(s.fields[f.count].lo, |items[i].items|, MinWidth(f.elem));
      } else {
        AtLeastMinWidth(f, items[..i], items[i]);
      }
      FieldsAtLeastMin(s, items, i + 1);
    }
  }

  /** An early "truncated" check never refuses the encoding of a valid record:
      the fields from `i` on take at least what `terms` asks for. */
  lemma {:induction false} DemandIsMet(s: Schema, items: seq<Value>, i: nat, k: nat, terms: seq<(nat, nat)>)
    requires s.Record? && WellFormed(s) && |items| == |s.fields| && k <= i <= |items|
    requires forall j :: 0 <= j < |items| ==> Valid(s.fields[j], items[..j], items[j])
    requires Covered(terms, s.fields[i..])
    requires forall t :: 0 <= t < |terms| ==> terms[t].0 < k
    ensures Demand(items[..k], terms) <= |EncodeFields(s, items, i)|
    decreases |items| - i
  {
    hide MinWidth;
    if terms != [] {
      var f := s.fields[i];
      assert s.fields[i..][0] == f && s.fields[i..][1..] == s.fields[i + 1..];
      assert Valid(f, items[..i], items[i]) && WellFormed(f) && InPlace(s.fields, i);
      if f.Blob? && terms[0] == (f.count, 1) {
        assert items[..k][f.count] == items[..i][f.count];
        DemandIsMet(s, items, i + 1, k, terms[1..]);
      } else if f.Repeat? && terms[0].0 == f.count && terms[0].1 <= MinWidth(f.elem) {
        assert items[..k][f.count] == items[..i][f.count];
        ManyAtLeastMin(f, items[i].items);
        Multiply(terms[0].1, MinWidth(f.elem), |items[i].items|);
        DemandIsMet(s, items, i + 1, k, terms[1..]);
      } else {
        DemandIsMet(s, items, i + 1, k, terms);
      }
    }
  }

  /** An early check takes nothing and refuses exactly an input too short for the
      counts it names. */
  lemma EarlyCheck(terms: seq<(nat, nat)>, context: Context, input: seq<byte>)
    ensures Decode(Ahead(terms), context, input) == if Demand(context, terms) <= |input| then Some((Unit, input)) else None
  {}

  /** What one count demands. */
  lemma OneDemand(count: nat, width: nat, context: Context, n: nat)
    requires Holds(context, count, n)
    ensures Demand(context, [(count, width)]) == n * width
  {
    var terms: seq<(nat, nat)> := [(count, width)];
    assert terms[1..] == [];
  }

  // ---- decode undoes encode

  /** Decoding an encoding followed by any bytes returns the value and those bytes. */
  lemma {:induction false} RoundTrip(s: Schema, context: Context, v: Value, tail: seq<byte>)
    requires WellFormed(s) && !s.Ahead? && Valid(s, context, v)
    ensures Decode(s, context, Encode(s, context, v) + tail) == Some((v, tail))
    decreases s, 1
  {
    hide MinWidth, Covered, Demand, Size;
    var input := Encode(s, context, v) + tail;
    match s
    case Number(width, _, _) =>
      LittleEndianRoundTrip(v.n, width);
      assert input[..width] == LittleEndian(v.n, width) && input[width..] == tail;
    case Blob(_) =>
      assert input[..|v.bytes|] == v.bytes && input[|v.bytes|..] == tail;
    case Repeat(_, _) => RoundTripMany(s, v.items, tail);
    case Record(_, _) =>
      RoundTripFields(s, v.items, 0, tail);
      assert v.items[..0] == [];
    case Tagged(alts) =>
      RoundTrip(alts[v.tag], [], v.body, tail);
      TaggedSplit(v.tag, Encode(alts[v.tag], [], v.body), tail);
    case Framed(_, payload) =>
      if v.Absent? {
        FramedSplit(0, [], tail);
        assert LittleEndian(0, 4) + [] == LittleEndian(0, 4);
      } else {
        SizeIsLength(payload, [], v.inner);
        RoundTrip(payload, [], v.inner, []);
        var body := Encode(payload, [], v.inner);
        assert body + [] == body;
        FramedSplit(|body|, body, tail);
      }
  }

  lemma TaggedSplit(tag: nat, body: seq<byte>, tail: seq<byte>)
    requires tag < 256
    ensures var input := LittleEndian(tag, 1) + body + tail;
            input != [] && input[0] == tag && input[1..] == body + tail
  {
    assert LittleEndian(tag, 1) == [tag];
    assert [tag] + body + tail == [tag] + (body + tail);
  }

  lemma FramedSplit(n: nat, body: seq<byte>, tail: seq<byte>)
    requires n == |body| < Pow256(4)
    ensures var input := LittleEndian(n, 4) + body + tail;
            |input| >= 4 && FromLittleEndian(input[..4]) == n && input[4..] == body + tail
            && input[4..][..n] == body && input[4..][n..] == tail
  {
    LittleEndianRoundTrip(n, 4);
    var input := LittleEndian(n, 4) + body + tail;
    assert input == LittleEndian(n, 4) + (body + tail);
    assert input[..4] == LittleEndian(n, 4);
  }

  lemma {:induction false} RoundTripMany(s: Schema, items: seq<Value>, tail: seq<byte>)
    requires s.Repeat? && WellFormed(s)
    requires forall i :: 0 <= i < |items| ==> Valid(s.elem, [], items[i])
    ensures DecodeMany(s, |items|, EncodeMany(s, items) + tail) == Some((items, tail))
    decreases s, 0, |items|
  {
    if items == [] {
      assert EncodeMany(s, items) + tail == tail;
    } else {
      var head, rest := Encode(s.elem, [], items[0]), EncodeMany(s, items[1..]);
      assert EncodeMany(s, items) + tail == head + (rest + tail);
      RoundTrip(s.elem, [], items[0], rest + tail);
      RoundTripMany(s, items[1..], tail);
      assert [items[0]] + items[1..] == items;
    }
  }

  lemma {:induction false} RoundTripFields(s: Schema, items: seq<Value>, i: nat, tail: seq<byte>)
    requires s.Record? && WellFormed(s) && |items| == |s.fields| && i <= |items|
    requires forall j :: 0 <= j < |items| ==> Valid(s.fields[j], items[..j], items[j])
    ensures DecodeFields(s, items[..i], EncodeFields(s, items, i) + tail) == Some((items, tail))
    decreases s, 0, |items| - i
  {
    hide MinWidth, Covered, Demand, Size;
    if i == |items| {
      assert EncodeFields(s, items, i) + tail == tail && items[..i] == items;
    } else {
      var f := s.fields[i];
      assert Valid(f, items[..i], items[i]) && WellFormed(f) && InPlace(s.fields, i);
      var head, rest := Encode(f, items[..i], items[i]), EncodeFields(s, items, i + 1);
      assert EncodeFields(s, items, i) + tail == head + (rest + tail);
      if f.Ahead? {
        DemandIsMet(s, items, i + 1, i, f.terms);
        assert head + (rest + tail) == rest + tail;
      } else {
        RoundTrip(f, items[..i], items[i], rest + tail);
      }
      assert items[..i] + [items[i]] == items[..i + 1];
      RoundTripFields(s, items, i + 1, tail);
    }
  }

  // ---- there is one encoding per value

  /** What decodes is valid, and its encoding is exactly the bytes consumed. */
  lemma Canonical(s: Schema, context: Context, input: seq<byte>)
    requires WellFormed(s) && Decode(s, context, input).Some?
    ensures var (v, rest) := Decode(s, context, input).value;
            Valid(s, context, v) && Encode(s, context, v) + rest == input
  {
    var (v, rest) := Decode(s, context, input).value;
    CanonicalValue(s, context, input, v, rest);
  }

  lemma {:induction false} CanonicalValue(s: Schema, context: Context, input: seq<byte>, v: Value, rest: seq<byte>)
    requires WellFormed(s) && Decode(s, context, input) == Some((v, rest))
    ensures Valid(s, context, v) && Encode(s, context, v) + rest == input
    decreases s, 1
  {
    hide MinWidth, Covered, Demand, InPlace, Standalone, Pow256, Size;
    match s
    case Number(width, _, _) =>
      LittleEndianCanonical(input[..width]);
      assert input[..width] + input[width..] == input;
    case Ahead(_) => assert [] + rest == input;
    case Blob(_) => assert v.bytes + rest == input;
    case Repeat(count, _) => CanonicalMany(s, context[count].n, input, v.items, rest);
    case Record(_, _) => CanonicalFields(s, [], input, v.items, rest);
    case Tagged(alts) =>
      CanonicalValue(alts[v.tag], [], input[1..], v.body, rest);
      TaggedConcat(v.tag, Encode(alts[v.tag], [], v.body), rest, input);
    case Framed(_, _) => CanonicalFramed(s, input, v, rest);
  }

  lemma CanonicalFramed(s: Schema, input: seq<byte>, v: Value, rest: seq<byte>)
    requires s.Framed? && WellFormed(s) && Decode(s, [], input) == Some((v, rest))
    ensures Valid(s, [], v) && Encode(s, [], v) + rest == input
    decreases s, 0, 0
  {
    if v.Absent? {
      FramedConcat(input, [], rest);
      assert LittleEndian(0, 4) + [] == LittleEndian(0, 4);
    } else {
      var part := input[4..][..FromLittleEndian(input[..4])];
      CanonicalValue(s.payload, [], part, v.inner, []);
      SizeIsLength(s.payload, [], v.inner);
      assert Encode(s.payload, [], v.inner) + [] == Encode(s.payload, [], v.inner);
      FramedConcat(input, Encode(s.payload, [], v.inner), rest);
    }
  }

  lemma TaggedConcat(tag: nat, body: seq<byte>, rest: seq<byte>, input: seq<byte>)
    requires input != [] && input[0] == tag && body + rest == input[1..]
    ensures LittleEndian(tag, 1) + body + rest == input
  {
    assert LittleEndian(tag, 1) == [input[0]];
    assert LittleEndian(tag, 1) + body + rest == [input[0]] + (body + rest);
  }

  lemma FramedConcat(input: seq<byte>, body: seq<byte>, rest: seq<byte>)
    requires |input| >= 4 && input[4..] == body + rest
    ensures LittleEndian(FromLittleEndian(input[..4]), 4) + body + rest == input
  {
    LittleEndianCanonical(input[..4]);
    assert input[..4] + body + rest == input[..4] + (body + rest);
  }

  lemma {:induction false} CanonicalMany(s: Schema, n: nat, input: seq<byte>, items: seq<Value>, end: seq<byte>)
    requires s.Repeat? && WellFormed(s) && DecodeMany(s, n, input) == Some((items, end))
    ensures forall i :: 0 <= i < |items| ==> Valid(s.elem, [], items[i])
    ensures EncodeMany(s, items) + end == input
    decreases s, 0, n
  {
    hide Decode, Valid, Encode;
    if n == 0 {
      assert [] + end == input;
    } else {
      var (v, rest) := Decode(s.elem, [], input).value;
      CanonicalValue(s.elem, [], input, v, rest);
      assert items[1..] == DecodeMany(s, n - 1, rest).value.0;
      CanonicalMany(s, n - 1, rest, items[1..], end);
      assert EncodeMany(s, items) + end == Encode(s.elem, [], v) + (EncodeMany(s, items[1..]) + end);
    }
  }

  lemma {:induction false} CanonicalFields(s: Schema, done: seq<Value>, input: seq<byte>, items: seq<Value>, end: seq<byte>)
    requires s.Record? && WellFormed(s) && |done| <= |s.fields|
    requires DecodeFields(s, done, input) == Some((items, end))
    ensures |items| == |s.fields| && forall j :: |done| <= j < |items| ==> Valid(s.fields[j], items[..j], items[j])
    ensures EncodeFields(s, items, |done|) + end == input
    decreases s, 0, |s.fields| - |done|
  {
    var i := |done|;
    if i == |s.fields| {
      assert [] + end == input;
    } else {
      var f := s.fields[i];
      var (v, rest) := Decode(f, done, input).value;
      assert WellFormed(f);
      CanonicalValue(f, done, input, v, rest);
      CanonicalFields(s, done + [v], rest, items, end);
      Prefix(done, v, items);
      FirstField(s, items, i, rest, end);
    }
  }

  lemma Prefix(done: seq<Value>, v: Value, items: seq<Value>)
    requires done + [v] <= items
    ensures items[..|done|] == done && items[|done|] == v
  {
    assert (done + [v])[|done|] == v;
  }

  lemma FirstField(s: Schema, items: seq<Value>, i: nat, rest: seq<byte>, end: seq<byte>)
    requires s.Record? && i < |s.fields| == |items|
    requires forall j :: i <= j < |items| ==> Valid(s.fields[j], items[..j], items[j])
    requires EncodeFields(s, items, i + 1) + end == rest
    ensures EncodeFields(s, items, i) + end == Encode(s.fields[i], items[..i], items[i]) + rest
  {
    var head, tail := Encode(s.fields[i], items[..i], items[i]), EncodeFields(s, items, i + 1);
    assert head + tail + end == head + (tail + end);
  }
}
