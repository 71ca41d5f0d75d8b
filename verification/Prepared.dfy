/** What is checked before the first byte is written, and how far writing gets.
    The validators and the size pass look at rules, counts and lengths; the range
    of a number or enum is only checked when its field is written, after every
    field before it (codecs/telar_codec.hpp, codecs/telar_value_codec.hpp). */
module PreparedValues {
  import opened Wire
  import opened Schemas

  predicate Counts(f: Schema, i: nat) {
    (f.Blob? || f.Repeat?) && f.count == i
  }

  /** A number that counts a list or a blob of its record. */
  predicate IsCount(fields: seq<Schema>, i: nat) {
    exists j :: 0 <= j < |fields| && Counts(fields[j], i)
  }

  /** The schema the size pass checks: numbers that count nothing may have any
      value of their width. */
  function Relax(s: Schema): Schema
    decreases s
  {
    match s
    case Number(width, _, _) => Number(width, 0, Pow256(width) - 1)
    case Ahead(_) => s
    case Blob(_) => s
    case Repeat(count, elem) => Repeat(count, Relax(elem))
    case Record(fields, rule) =>
      Record(seq(|fields|, i requires 0 <= i < |fields| =>
               if fields[i].Number? && IsCount(fields, i) then fields[i] else Relax(fields[i])), rule)
    case Tagged(alts) => Tagged(seq(|alts|, i requires 0 <= i < |alts| => Relax(alts[i])))
    case Framed(limit, payload) => Framed(limit, Relax(payload))
  }

  /** How many bytes are written before the first number out of its range. */
  function Progress(s: Schema, context: Context, v: Value): nat
    decreases s, 1
  {
    match s
    case Number(width, _, _) => if Valid(s, context, v) then width else 0
    case Ahead(_) => 0
    case Blob(_) => Size(s, v)
    case Repeat(_, _) => if v.Many? then ProgressMany(s, v.items) else 0
    case Record(fields, _) => if v.Many? && |v.items| == |fields| then ProgressFields(s, v.items, 0) else 0
    case Tagged(alts) => if v.Pick? && v.tag < |alts| then 1 + Progress(alts[v.tag], [], v.body) else 1
    case Framed(_, payload) => if v.Present? then 4 + Progress(payload, [], v.inner) else 4
  }

  function ProgressMany(s: Schema, items: seq<Value>): nat
    requires s.Repeat?
    decreases s, 0, |items|
  {
    if items == [] then 0
    else if Valid(s.elem, [], items[0]) then Size(s.elem, items[0]) + ProgressMany(s, items[1..])
    else Progress(s.elem, [], items[0])
  }

  function ProgressFields(s: Schema, items: seq<Value>, i: nat): nat
    requires s.Record? && |items| == |s.fields| && i <= |items|
    decreases s, 0, |items| - i
  {
    if i == |items| then 0
    else if Valid(s.fields[i], items[..i], items[i]) then Size(s.fields[i], items[i]) + ProgressFields(s, items, i + 1)
    else Progress(s.fields[i], items[..i], items[i])
  }

  // ---- relaxing changes no byte

  lemma {:induction false} RelaxSize(s: Schema, v: Value)
    ensures Size(Relax(s), v) == Size(s, v)
    decreases s, 1
  {
    match s
    case Repeat(_, _) => if v.Many? { RelaxSizeMany(s, v.items); }
    case Record(fields, _) => if v.Many? && |v.items| == |fields| { RelaxSizeFields(s, v.items, 0); }
    case Tagged(alts) => if v.Pick? && v.tag < |alts| { RelaxSize(alts[v.tag], v.body); }
    case Framed(_, payload) => if v.Present? { RelaxSize(payload, v.inner); }
    case _ =>
  }

  lemma {:induction false} RelaxSizeMany(s: Schema, items: seq<Value>)
    requires s.Repeat?
    ensures SizeMany(Relax(s), items) == SizeMany(s, items)
    decreases s, 0, |items|
  {
    if items != [] {
      RelaxSize(s.elem, items[0]);
      RelaxSizeMany(s, items[1..]);
    }
  }

  lemma {:induction false} RelaxSizeFields(s: Schema, items: seq<Value>, i: nat)
    requires s.Record? && |items| == |s.fields| && i <= |items|
    ensures |Relax(s).fields| == |items| && SizeFields(Relax(s), items, i) == SizeFields(s, items, i)
    decreases s, 0, |items| - i
  {
    if i < |items| {
      RelaxSize(s.fields[i], items[i]);
      RelaxSizeFields(s, items, i + 1);
    }
  }

  /** A valid value is accepted by the relaxed schema, which writes the same bytes. */
  lemma {:induction false} RelaxValid(s: Schema, context: Context, v: Value)
    requires Valid(s, context, v)
    ensures Valid(Relax(s), context, v) && Encode(Relax(s), context, v) == Encode(s, context, v)
    ensures Progress(s, context, v) == Size(s, v)
    decreases s, 1
  {
    match s
    case Number(_, _, _) =>
    case Ahead(_) =>
    case Blob(_) =>
    case Repeat(_, elem) =>
      forall i | 0 <= i < |v.items| ensures Valid(Relax(elem), [], v.items[i]) { RelaxValid(elem, [], v.items[i]); }
      RelaxValidMany(s, v.items);
    case Record(fields, _) =>
      forall i | 0 <= i < |fields| ensures Valid(Relax(s).fields[i], v.items[..i], v.items[i]) {
        RelaxValid(fields[i], v.items[..i], v.items[i]);
      }
      RelaxValidFields(s, v.items, 0);
    case Tagged(alts) => RelaxValid(alts[v.tag], [], v.body);
    case Framed(_, payload) =>
      if v.Present? {
        RelaxValid(payload, [], v.inner);
        RelaxSize(payload, v.inner);
      }
  }

  lemma {:induction false} RelaxValidMany(s: Schema, items: seq<Value>)
    requires s.Repeat? && forall i :: 0 <= i < |items| ==> Valid(s.elem, [], items[i])
    ensures forall i :: 0 <= i < |items| ==> Valid(Relax(s).elem, [], items[i])
    ensures EncodeMany(Relax(s), items) == EncodeMany(s, items) && ProgressMany(s, items) == SizeMany(s, items)
    decreases s, 0, |items|
  {
    if items != [] {
      RelaxValid(s.elem, [], items[0]);
      RelaxValidMany(s, items[1..]);
    }
  }

  lemma {:induction false} RelaxValidFields(s: Schema, items: seq<Value>, i: nat)
    requires s.Record? && |items| == |s.fields| && i <= |items|
    requires forall j :: 0 <= j < |items| ==> Valid(s.fields[j], items[..j], items[j])
    ensures |Relax(s).fields| == |items| && forall j :: i <= j < |items| ==> Valid(Relax(s).fields[j], items[..j], items[j])
    ensures EncodeFields(Relax(s), items, i) == EncodeFields(s, items, i) && ProgressFields(s, items, i) == SizeFields(s, items, i)
    decreases s, 0, |items| - i
  {
    if i < |items| {
      RelaxValid(s.fields[i], items[..i], items[i]);
      RelaxValidFields(s, items, i + 1);
    }
  }

  /** The field of a relaxed record, whether it counts something or not. */
  lemma RelaxedField(s: Schema, items: seq<Value>, i: nat)
    requires s.Record? && i < |s.fields| == |items| && Valid(Relax(s).fields[i], items[..i], items[i])
    ensures Valid(Relax(s.fields[i]), items[..i], items[i])
    ensures Encode(Relax(s).fields[i], items[..i], items[i]) == Encode(Relax(s.fields[i]), items[..i], items[i])
  {
    if s.fields[i].Number? && IsCount(s.fields, i) {
      RelaxValid(s.fields[i], items[..i], items[i]);
    }
  }

  // ---- writing stops inside what would have been written

  /** A value that is not valid stops the writing before its end. */
  lemma {:induction false} StopsShort(s: Schema, context: Context, v: Value)
    requires WellFormed(s) && Valid(Relax(s), context, v)
    ensures Progress(s, context, v) <= Size(s, v)
    ensures Progress(s, context, v) == Size(s, v) <==> Valid(s, context, v)
    decreases s, 1
  {
    if Valid(s, context, v) {
      RelaxValid(s, context, v);
    } else {
      match s
      case Number(_, _, _) =>
      case Repeat(_, _) => StopsShortMany(s, v.items);
      case Record(_, _) => StopsShortFields(s, v.items, 0);
      case Tagged(alts) => StopsShort(alts[v.tag], [], v.body);
      case Framed(_, payload) =>
        RelaxSize(payload, v.inner);
        StopsShort(payload, [], v.inner);
    }
  }

  lemma {:induction false} StopsShortMany(s: Schema, items: seq<Value>)
    requires s.Repeat? && WellFormed(s) && forall i :: 0 <= i < |items| ==> Valid(Relax(s).elem, [], items[i])
    requires exists i :: 0 <= i < |items| && !Valid(s.elem, [], items[i])
    ensures ProgressMany(s, items) < SizeMany(s, items)
    decreases s, 0, |items|
  {
    StopsShort(s.elem, [], items[0]);
    if Valid(s.elem, [], items[0]) {
      var i :| 0 <= i < |items| && !Valid(s.elem, [], items[i]);
      assert items[1..][i - 1] == items[i];
      StopsShortMany(s, items[1..]);
    }
  }

  lemma {:induction false} StopsShortFields(s: Schema, items: seq<Value>, i: nat)
    requires s.Record? && WellFormed(s) && |items| == |s.fields| && i <= |items|
    requires forall j :: 0 <= j < |items| ==> Valid(Relax(s).fields[j], items[..j], items[j])
    requires exists j :: i <= j < |items| && !Valid(s.fields[j], items[..j], items[j])
    ensures ProgressFields(s, items, i) < SizeFields(s, items, i)
    decreases s, 0, |items| - i
  {
    RelaxedField(s, items, i);
    StopsShort(s.fields[i], items[..i], items[i]);
    if Valid(s.fields[i], items[..i], items[i]) {
      StopsShortFields(s, items, i + 1);
    }
  }
}
