/** Encoding into and decoding from the caller's spans, and the two entry
    points `Codec` (tagged message) and `BodyCodec` (telar_codec.hpp,
    telar_value_codec.hpp). */
module Codecs {
  import opened Wire
  import opened Schemas
  import opened PreparedValues

  // ---- the span versions of Encode and Decode

  /** The writing pass, after the validators and the size pass: it fails at the
      first number out of its range, with everything before that written. */
  method EncodeInto(s: Schema, context: Context, v: Value, output: OutputSpan) returns (ok: bool)
    requires Valid(Relax(s), context, v)
    requires output.Valid() && Size(s, v) <= output.stop - output.start
    modifies output`start, output.buffer
    ensures ok == Valid(s, context, v) && Progress(s, context, v) <= |Encode(Relax(s), context, v)|
    ensures output.Wrote(Encode(Relax(s), context, v)[..Progress(s, context, v)])
    decreases s, 1
  {
    hide LittleEndian, WellFormed, MinWidth, IsCount;
    ok := true;
    match s
    case Number(width, lo, hi) =>
      ok := lo <= v.n <= hi;
      if ok {
        output.PutNumber(v.n, width);
        assert LittleEndian(v.n, width)[..width] == LittleEndian(v.n, width);
      }
    case Ahead(_) =>
    case Blob(_) =>
      output.PutBytes(v.bytes);
      assert v.bytes[..|v.bytes|] == v.bytes;
    case Repeat(_, _) => ok := EncodeManyInto(s, v.items, output);
    case Record(_, _) => ok := EncodeFieldsInto(s, v.items, output);
    case Tagged(alts) => ok := EncodePrefixed(v.tag, 1, alts[v.tag], v.body, output);
    case Framed(_, _) => ok := EncodeFramed(s, v, output);
  }

  /** A body behind its length, or a length of zero. */
  method EncodeFramed(s: Schema, v: Value, output: OutputSpan) returns (ok: bool)
    requires s.Framed? && Valid(Relax(s), [], v)
    requires output.Valid() && Size(s, v) <= output.stop - output.start
    modifies output`start, output.buffer
    ensures ok == Valid(s, [], v) && Progress(s, [], v) <= |Encode(Relax(s), [], v)|
    ensures output.Wrote(Encode(Relax(s), [], v)[..Progress(s, [], v)])
    decreases s, 0
  {
    ok := true;
    if v.Absent? {
      output.PutNumber(0, 4);
      assert LittleEndian(0, 4)[..4] == LittleEndian(0, 4);
    } else {
      RelaxSize(s.payload, v.inner);
      ok := EncodePrefixed(Size(s.payload, v.inner), 4, s.payload, v.inner, output);
    }
  }

  /** The same behind `done`, which was written before. */
  method EncodeAfter(s: Schema, context: Context, v: Value, output: OutputSpan,
                     ghost before: seq<byte>, ghost start: nat, ghost done: seq<byte>) returns (ok: bool)
    requires Valid(Relax(s), context, v)
    requires output.Valid() && Size(s, v) <= output.stop - output.start
    requires output.start == start + |done| <= |before| && output.buffer[..] == before[..start] + done + before[output.start..]
    modifies output`start, output.buffer
    ensures ok == Valid(s, context, v) && Progress(s, context, v) <= |Encode(Relax(s), context, v)|
    ensures output.Valid() && output.stop == old(output.stop) && output.start == old(output.start) + Progress(s, context, v)
    ensures output.buffer[..] ==
      before[..start] + (done + Encode(Relax(s), context, v)[..Progress(s, context, v)]) + before[output.start..]
    decreases s, 2
  {
    hide Encode, Size, Valid, Relax, Progress;
    ghost var middle := output.buffer[..];
    ok := EncodeInto(s, context, v, output);
    Splice(before, start, done, middle, Encode(Relax(s), context, v)[..Progress(s, context, v)], output.buffer[..]);
  }

  method EncodePrefixed(n: nat, width: nat, s: Schema, v: Value, output: OutputSpan) returns (ok: bool)
    requires Valid(Relax(s), [], v)
    requires output.Valid() && width + Size(s, v) <= output.stop - output.start
    modifies output`start, output.buffer
    ensures ok == Valid(s, [], v) && Progress(s, [], v) <= |Encode(Relax(s), [], v)|
    ensures output.Wrote((LittleEndian(n, width) + Encode(Relax(s), [], v))[..width + Progress(s, [], v)])
    decreases s, 3
  {
    hide Encode, Size, LittleEndian, Valid, Relax, Progress;
    ghost var before, start := output.buffer[..], output.start;
    output.PutNumber(n, width);
    ghost var done := LittleEndian(n, width);
    ok := EncodeAfter(s, [], v, output, before, start, done);
    ghost var next := Encode(Relax(s), [], v)[..Progress(s, [], v)];
    assert (done + Encode(Relax(s), [], v))[..width + Progress(s, [], v)] == done + next;
  }

  method EncodeManyInto(s: Schema, items: seq<Value>, output: OutputSpan) returns (ok: bool)
    requires s.Repeat? && forall i :: 0 <= i < |items| ==> Valid(Relax(s.elem), [], items[i])
    requires output.Valid() && SizeMany(s, items) <= output.stop - output.start
    modifies output`start, output.buffer
    ensures ok == (forall i :: 0 <= i < |items| ==> Valid(s.elem, [], items[i]))
    ensures ProgressMany(s, items) <= |EncodeMany(Relax(s), items)|
    ensures output.Wrote(EncodeMany(Relax(s), items)[..ProgressMany(s, items)])
    decreases s, 0
  {
    hide Size, Valid, Encode, Progress;
    ghost var before, start, r := output.buffer[..], output.start, Relax(s);
    ghost var done: seq<byte> := [];
    for i := 0 to |items|
      invariant output.Wrote(done) && done + EncodeMany(r, items[i..]) == EncodeMany(r, items)
      invariant |done| + ProgressMany(s, items[i..]) == ProgressMany(s, items)
      invariant SizeMany(s, items[i..]) <= output.stop - output.start
      invariant forall j :: 0 <= j < i ==> Valid(s.elem, [], items[j])
    {
      assert items[i..][0] == items[i] && items[i..][1..] == items[i + 1..];
      ghost var whole, p := Encode(r.elem, [], items[i]), Progress(s.elem, [], items[i]);
      ok := EncodeAfter(s.elem, [], items[i], output, before, start, done);
      assert done + (whole + EncodeMany(r, items[i + 1..])) == done + whole + EncodeMany(r, items[i + 1..]);
      if !ok {
        assert EncodeMany(r, items)[..|done| + p] == done + whole[..p];
        return;
      }
      RelaxValid(s.elem, [], items[i]);
      SizeIsLength(s.elem, [], items[i]);
      assert whole[..p] == whole;
      done := done + whole;
    }
    assert done + [] == done && EncodeMany(r, items)[..|done|] == done;
    ok := true;
  }

  method EncodeFieldsInto(s: Schema, items: seq<Value>, output: OutputSpan) returns (ok: bool)
    requires s.Record? && |items| == |s.fields|
    requires forall j :: 0 <= j < |items| ==> Valid(Relax(s).fields[j], items[..j], items[j])
    requires output.Valid() && SizeFields(s, items, 0) <= output.stop - output.start
    modifies output`start, output.buffer
    ensures ok == (forall j :: 0 <= j < |items| ==> Valid(s.fields[j], items[..j], items[j]))
    ensures ProgressFields(s, items, 0) <= |EncodeFields(Relax(s), items, 0)|
    ensures output.Wrote(EncodeFields(Relax(s), items, 0)[..ProgressFields(s, items, 0)])
    decreases s, 0
  {
    hide Size, SizeFields, Valid, Encode, Progress, Relax, EncodeFields, ProgressFields, WellFormed;
    RelaxedFields(s);
    ghost var before, start, r := output.buffer[..], output.start, Relax(s);
    ghost var done: seq<byte> := [];
    for i := 0 to |items|
      invariant output.Wrote(done) && done + EncodeFields(r, items, i) == EncodeFields(r, items, 0)
      invariant |done| + ProgressFields(s, items, i) == ProgressFields(s, items, 0)
      invariant SizeFields(s, items, i) <= output.stop - output.start
      invariant forall j :: 0 <= j < i ==> Valid(s.fields[j], items[..j], items[j])
    {
      RelaxedField(s, items, i);
      SizeFieldsNext(s, items, i);
      ghost var whole := Encode(r.fields[i], items[..i], items[i]);
      ok := EncodeAfter(s.fields[i], items[..i], items[i], output, before, start, done);
      FieldWritten(s, items, i, done);
      if !ok {
        return;
      }
      done := done + whole;
    }
    FieldsWritten(s, items, done);
    ok := true;
  }

  lemma SizeFieldsNext(s: Schema, items: seq<Value>, i: nat)
    requires s.Record? && i < |items| == |s.fields|
    ensures SizeFields(s, items, i) == Size(s.fields[i], items[i]) + SizeFields(s, items, i + 1)
  {}

  lemma RelaxedFields(s: Schema)
    requires s.Record?
    ensures Relax(s).Record? && |Relax(s).fields| == |s.fields|
  {}

  lemma FieldsWritten(s: Schema, items: seq<Value>, done: seq<byte>)
    requires s.Record? && |items| == |s.fields| && Relax(s).Record? && |Relax(s).fields| == |items|
    requires forall j :: 0 <= j < |items| ==> Valid(Relax(s).fields[j], items[..j], items[j])
    requires done + EncodeFields(Relax(s), items, |items|) == EncodeFields(Relax(s), items, 0)
    requires |done| + ProgressFields(s, items, |items|) == ProgressFields(s, items, 0)
    ensures |EncodeFields(Relax(s), items, 0)| == ProgressFields(s, items, 0)
    ensures EncodeFields(Relax(s), items, 0)[..ProgressFields(s, items, 0)] == done
  {
    hide Relax, Valid, Encode, Progress;
    assert done + [] == done;
  }

  /** One more field written: either whole, and the fields after it are to come, or
      up to its first bad number, and nothing comes after. */
  lemma FieldWritten(s: Schema, items: seq<Value>, i: nat, done: seq<byte>)
    requires s.Record? && i < |items| == |s.fields|
    requires Relax(s).Record? && |Relax(s).fields| == |items|
    requires forall j :: 0 <= j < |items| ==> Valid(Relax(s).fields[j], items[..j], items[j])
    requires done + EncodeFields(Relax(s), items, i) == EncodeFields(Relax(s), items, 0)
    requires |done| + ProgressFields(s, items, i) == ProgressFields(s, items, 0)
    ensures var whole, p := Encode(Relax(s).fields[i], items[..i], items[i]), Progress(s.fields[i], items[..i], items[i]);
      if Valid(s.fields[i], items[..i], items[i]) then
        p == |whole| == Size(s.fields[i], items[i])
        && done + whole + EncodeFields(Relax(s), items, i + 1) == EncodeFields(Relax(s), items, 0)
        && |done + whole| + ProgressFields(s, items, i + 1) == ProgressFields(s, items, 0)
      else
        p <= |whole| ==>
          |done| + p == ProgressFields(s, items, 0) <= |EncodeFields(Relax(s), items, 0)|
          && EncodeFields(Relax(s), items, 0)[..|done| + p] == done + whole[..p]
  {
    hide Size, Valid, Encode, Progress, Relax;
    var r := Relax(s);
    var whole, rest := Encode(r.fields[i], items[..i], items[i]), EncodeFields(r, items, i + 1);
    assert done + (whole + rest) == done + whole + rest;
    RelaxedField(s, items, i);
    if Valid(s.fields[i], items[..i], items[i]) {
      RelaxValid(s.fields[i], items[..i], items[i]);
      SizeIsLength(s.fields[i], items[..i], items[i]);
    }
  }

  /** A valid value is written whole. */
  method EncodeValid(s: Schema, v: Value, output: OutputSpan)
    requires Valid(s, [], v)
    requires output.Valid() && Size(s, v) <= output.stop - output.start
    modifies output`start, output.buffer
    ensures output.Wrote(Encode(s, [], v))
  {
    RelaxValid(s, [], v);
    SizeIsLength(s, [], v);
    var ok := EncodeInto(s, [], v, output);
    assert Encode(s, [], v)[..Size(s, v)] == Encode(s, [], v);
  }

  method DecodeFrom(s: Schema, context: Context, input: InputSpan) returns (r: Option<Value>)
    modifies input
    ensures match Decode(s, context, old(input.rest))
            case None => r == None
            case Some((v, rest)) => r == Some(v) && input.rest == rest
    decreases s, 1
  {
    match s
    case Number(width, lo, hi) =>
      var n := input.TakeNumber(width);
      r := if n.Some? && lo <= n.value <= hi then Some(Num(n.value)) else None;
    case Ahead(terms) =>
      r := if Demand(context, terms) > |input.rest| then None else Some(Unit);
    case Blob(count) =>
      if count >= |context| || !context[count].Num? {
        return None;
      }
      var bytes := input.TakeBytes(context[count].n);
      r := if bytes.Some? then Some(Raw(bytes.value)) else None;
    case Repeat(count, _) =>
      if count >= |context| || !context[count].Num? {
        return None;
      }
      r := DecodeManyFrom(s, context[count].n, input);
    case Record(_, rule) =>
      var items := DecodeFieldsFrom(s, input);
      r := if items.Some? && rule(Many(items.value)) then Some(Many(items.value)) else None;
    case Tagged(alts) =>
      ghost var start := input.rest;
      var tag := input.TakeNumber(1);
      if tag.Some? {
        assert start[..1][1..] == [] && FromLittleEndian(start[..1]) == start[0];
      }
      if tag.None? || tag.value >= |alts| {
        return None;
      }
      var body := DecodeFrom(alts[tag.value], [], input);
      r := if body.Some? then Some(Pick(tag.value, body.value)) else None;
    case Framed(limit, payload) =>
      var length := input.TakeNumber(4);
      if length.None? {
        return None;
      }
      if length.value == 0 {
        return Some(Absent);
      }
      if length.value > limit {
        return None;
      }
      var bytes := input.TakeBytes(length.value);
      if bytes.None? {
        return None;
      }
      var part := new InputSpan(bytes.value);
      var inner := DecodeFrom(payload, [], part);
      r := if inner.Some? && part.rest == [] then Some(Present(inner.value)) else None;
  }

  method DecodeManyFrom(s: Schema, n: nat, input: InputSpan) returns (r: Option<Value>)
    requires s.Repeat?
    modifies input
    ensures match DecodeMany(s, n, old(input.rest))
            case None => r == None
            case Some((items, rest)) => r == Some(Many(items)) && input.rest == rest
    decreases s, 0
  {
    var values := new Value[n];
    ghost var whole := DecodeMany(s, n, input.rest);
    assert whole.Some? ==> values[..0] + whole.value.0 == whole.value.0;
    for i := 0 to n
      invariant match DecodeMany(s, n - i, input.rest)
                case None => whole == None
                case Some((items, rest)) => whole == Some((values[..i] + items, rest))
    {
      var v := DecodeFrom(s.elem, [], input);
      if v.None? {
        return None;
      }
      values[i] := v.value;
      assert forall items: seq<Value> :: values[..i] + ([v.value] + items) == values[..i + 1] + items;
    }
    assert values[..n] + [] == values[..];
    r := Some(Many(values[..]));
  }

  method DecodeFieldsFrom(s: Schema, input: InputSpan) returns (r: Option<seq<Value>>)
    requires s.Record?
    modifies input
    ensures match DecodeFields(s, [], old(input.rest))
            case None => r == None
            case Some((items, rest)) => r == Some(items) && input.rest == rest
    decreases s, 0
  {
    var items: seq<Value> := [];
    while |items| < |s.fields|
      invariant |items| <= |s.fields|
      invariant DecodeFields(s, items, input.rest) == DecodeFields(s, [], old(input.rest))
    {
      var v := DecodeFrom(s.fields[|items|], items, input);
      if v.None? {
        return None;
      }
      items := items + [v.value];
    }
    r := Some(items);
  }

  // ---- whole messages

  /** The payload of a message, or a failure when the value is invalid or too long. */
  function Message(tag: byte, s: Schema, v: Value): Option<seq<byte>> {
    if Valid(s, [], v) && 1 + Size(s, v) <= MAX_PAYLOAD then Some([tag] + Encode(s, [], v)) else None
  }

  function Parse(tag: byte, s: Schema, payload: seq<byte>): Option<Value> {
    if payload == [] || |payload| > MAX_PAYLOAD || payload[0] != tag then None
    else ParseRest(s, payload[1..])
  }

  /** A body alone: no tag, and no bytes left over. */
  function ParseBody(s: Schema, input: seq<byte>): Option<Value> {
    if |input| > MAX_PAYLOAD then None else ParseRest(s, input)
  }

  function ParseRest(s: Schema, input: seq<byte>): Option<Value> {
    match Decode(s, [], input)
    case None => None
    case Some((v, rest)) => if rest == [] then Some(v) else None
  }

  /** What the validators and the size pass let through: everything is valid but
      perhaps the range of a number that is only checked as it is written. */
  predicate Ready(s: Schema, v: Value) {
    Valid(Relax(s), [], v) && 1 + Size(s, v) <= MAX_PAYLOAD
  }

  /** Tag and body into a buffer with room for both; `ok` says whether every number
      was in its range. */
  method WriteMessage(tag: byte, s: Schema, v: Value, buffer: array<byte>) returns (ok: bool)
    requires Valid(Relax(s), [], v) && 1 + Size(s, v) <= buffer.Length
    modifies buffer
    ensures ok == Valid(s, [], v) && Progress(s, [], v) <= |Encode(Relax(s), [], v)| == Size(s, v)
    ensures buffer[..] == [tag] + Encode(Relax(s), [], v)[..Progress(s, [], v)] + old(buffer[..])[1 + Progress(s, [], v)..]
  {
    hide Valid, Size, Encode, Relax, Progress, LittleEndian;
    SizeIsLength(Relax(s), [], v);
    RelaxSize(s, v);
    ghost var before := buffer[..];
    var output := new OutputSpan(buffer, 1 + Size(s, v));
    output.PutNumber(tag, 1);
    assert LittleEndian(tag, 1) == [tag] by {
      OneByte(tag);
    }
    assert before[..0] == [];
    ok := EncodeAfter(s, [], v, output, before, 0, [tag]);
  }

  lemma OneByte(n: byte)
    ensures LittleEndian(n, 1) == [n]
  {}

  /** The buffer is untouched exactly when the validators, the size pass or the
      check of its room refuse. When only a number is out of its range, the tag and
      everything before that number have been written. The "size mismatch" failure
      of the source cannot happen. */
  method EncodeMessage(tag: byte, s: Schema, v: Value, buffer: array<byte>) returns (size: Option<nat>)
    modifies buffer
    ensures match Message(tag, s, v)
            case None => size == None
            case Some(payload) => size == if |payload| <= buffer.Length then Some(|payload|) else None
    ensures !(Ready(s, v) && 1 + Size(s, v) <= buffer.Length) ==> buffer[..] == old(buffer[..])
    ensures Ready(s, v) && 1 + Size(s, v) <= buffer.Length ==>
      Progress(s, [], v) <= |Encode(Relax(s), [], v)| == Size(s, v)
      && buffer[..] == [tag] + Encode(Relax(s), [], v)[..Progress(s, [], v)] + old(buffer[..])[1 + Progress(s, [], v)..]
    ensures size.Some? ==>
      size.value <= buffer.Length && Message(tag, s, v) == Some(buffer[..size.value])
      && buffer[size.value..] == old(buffer[size.value..])
  {
    hide Valid, Size, Encode, Relax, Progress;
    if Valid(s, [], v) {
      RelaxValid(s, [], v);
      SizeIsLength(s, [], v);
    }
    if !Valid(Relax(s), [], v) || 1 + Size(s, v) > MAX_PAYLOAD {
      return None;
    }
    if buffer.Length < 1 + Size(s, v) {
      return None;
    }
    var ok := WriteMessage(tag, s, v, buffer);
    if !ok {
      return None;
    }
    assert buffer[..1 + Size(s, v)] == [tag] + Encode(s, [], v);
    size := Some(1 + Size(s, v));
  }

  method DecodeMessage(tag: byte, s: Schema, payload: seq<byte>) returns (v: Option<Value>)
    ensures v == Parse(tag, s, payload)
  {
    if payload == [] || |payload| > MAX_PAYLOAD {
      return None;
    }
    var input := new InputSpan(payload);
    var t := input.TakeNumber(1);
    assert payload[..1][1..] == [] && FromLittleEndian(payload[..1]) == payload[0];
    if t != Some(tag) {
      return None;
    }
    v := DecodeFrom(s, [], input);
    if v.Some? && input.rest != [] {
      v := None;
    }
  }

  lemma MessageRoundTrip(tag: byte, s: Schema, v: Value)
    requires WellFormed(s) && Standalone(s) && Message(tag, s, v).Some?
    ensures Parse(tag, s, Message(tag, s, v).value) == Some(v)
  {
    var body := Encode(s, [], v);
    RoundTrip(s, [], v, []);
    SizeIsLength(s, [], v);
    assert body + [] == body && ([tag] + body)[1..] == body;
  }

  /** A payload that parses is the only payload of its value. */
  lemma MessageCanonical(tag: byte, s: Schema, payload: seq<byte>)
    requires WellFormed(s) && Parse(tag, s, payload).Some?
    ensures Message(tag, s, Parse(tag, s, payload).value) == Some(payload)
  {
    var v := Parse(tag, s, payload).value;
    Canonical(s, [], payload[1..]);
    SizeIsLength(s, [], v);
    assert Encode(s, [], v) + [] == Encode(s, [], v);
    assert [payload[0]] + payload[1..] == payload;
  }

  lemma BodyRoundTrip(s: Schema, v: Value)
    requires WellFormed(s) && Standalone(s) && Valid(s, [], v) && Size(s, v) <= MAX_PAYLOAD
    ensures ParseBody(s, Encode(s, [], v)) == Some(v)
  {
    RoundTrip(s, [], v, []);
    SizeIsLength(s, [], v);
    assert Encode(s, [], v) + [] == Encode(s, [], v);
  }

  lemma BodyCanonical(s: Schema, input: seq<byte>)
    requires WellFormed(s) && ParseBody(s, input).Some?
    ensures Valid(s, [], ParseBody(s, input).value) && Encode(s, [], ParseBody(s, input).value) == input
  {
    Canonical(s, [], input);
    assert Encode(s, [], ParseBody(s, input).value) + [] == Encode(s, [], ParseBody(s, input).value);
  }
}
