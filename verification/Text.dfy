/** Text and binary fields with a length in front, and optional values
    (codecs/telar_value_codec.hpp). */
module Texts {
  import opened Wire
  import opened Schemas
  import opened NumberRecords
  import opened Codecs
  import Utf8

  datatype Kind = BYTES | UTF8 | UTF8_NO_NUL | DISPLAY | MULTILINE | OPAQUE

  /** Characters a kind of text refuses; all of them are ASCII. */
  predicate Refused(kind: Kind, c: nat) {
    match kind
    case UTF8 => false
    case OPAQUE => false
    case BYTES => c == 0
    case UTF8_NO_NUL => c == 0
    case DISPLAY => c < 0x20 || c == 0x7F
    case MULTILINE => (c < 0x20 && c != 0x0A && c != 0x09) || c == 0x7F
  }

  predicate IsUtf8(text: seq<byte>) {
    text == [] || (Utf8.Takes(text) && IsUtf8(text[Utf8.Announced(text[0])..]))
  }

  predicate Clean(kind: Kind, cs: seq<nat>) {
    forall i :: 0 <= i < |cs| ==> !Refused(kind, cs[i])
  }

  /** The checks on the bytes of a text. */
  predicate TextOk(kind: Kind, text: seq<byte>) {
    Clean(kind, text) && (kind == BYTES || kind == OPAQUE || IsUtf8(text))
  }

  lemma {:induction false} IsUtf8IffWellFormed(text: seq<byte>)
    ensures IsUtf8(text) <==> Utf8.WellFormed(text)
    decreases |text|
  {
    if text == [] {
      assert Utf8.Spells([], text);
    } else if !Utf8.Takes(text) {
      Utf8.Refused(text);
    } else {
      Utf8.TakesScalar(text);
      var n := Utf8.Announced(text[0]);
      assert text == text[..n] + text[n..];
      Utf8.Prepend(Utf8.Scalar(text), text[n..]);
      IsUtf8IffWellFormed(text[n..]);
    }
  }

  lemma HighBytes(c: nat)
    requires Utf8.IsScalar(c)
    ensures if c < 0x80 then Utf8.Encode(c) == [c] else forall i :: 0 <= i < |Utf8.Encode(c)| ==> Utf8.Encode(c)[i] >= 0x80
  {}

  lemma CleanConcat(kind: Kind, a: seq<nat>, b: seq<nat>)
    ensures Clean(kind, a + b) <==> Clean(kind, a) && Clean(kind, b)
  {
    assert forall i :: 0 <= i < |a| ==> (a + b)[i] == a[i];
    assert forall i :: 0 <= i < |b| ==> (a + b)[|a| + i] == b[i];
  }

  lemma CleanCharacter(kind: Kind, c: nat)
    requires Utf8.IsScalar(c)
    ensures Clean(kind, Utf8.Encode(c)) <==> Clean(kind, [c])
  {
    HighBytes(c);
    assert [c][0] == c;
    if c >= 0x80 {
      assert !Refused(kind, c);
    }
  }

  /** Looking for refused bytes finds exactly the refused characters. */
  lemma {:induction false} RefusedCharacters(kind: Kind, cs: seq<nat>)
    requires Utf8.AllScalars(cs)
    ensures Clean(kind, Utf8.EncodeAll(cs)) <==> Clean(kind, cs)
    decreases |cs|
  {
    hide Clean, Utf8.Encode;
    if cs != [] {
      CleanCharacter(kind, cs[0]);
      RefusedCharacters(kind, cs[1..]);
      CleanConcat(kind, Utf8.Encode(cs[0]), Utf8.EncodeAll(cs[1..]));
      CleanConcat(kind, [cs[0]], cs[1..]);
      assert cs == [cs[0]] + cs[1..];
    } else {
      assert Utf8.EncodeAll(cs) == cs;
    }
  }

  predicate SpellsClean(kind: Kind, cs: seq<nat>, text: seq<byte>) {
    Utf8.Spells(cs, text) && Clean(kind, cs)
  }

  /** The checks accept a text exactly when it spells characters none of which its
      kind refuses (a text that need not be UTF-8: when no byte is refused). */
  lemma TextMeans(kind: Kind, text: seq<byte>)
    requires kind != BYTES && kind != OPAQUE
    ensures TextOk(kind, text) <==> exists cs :: SpellsClean(kind, cs, text)
  {
    hide Clean, IsUtf8, Utf8.AllScalars, Utf8.EncodeAll;
    IsUtf8IffWellFormed(text);
    if TextOk(kind, text) {
      var cs :| Utf8.Spells(cs, text);
      RefusedCharacters(kind, cs);
      assert SpellsClean(kind, cs, text);
    }
    if cs :| SpellsClean(kind, cs, text) {
      RefusedCharacters(kind, cs);
    }
  }

  // ---- the fields

  /** A length of `width` bytes from `min` to `max`, then so many bytes. */
  function SizedSchema(width: nat, min: nat, max: nat, rule: Value -> bool): Schema {
    Record([Number(width, min, max), Blob(0)], rule)
  }

  function TextRule(kind: Kind): Value -> bool {
    (v: Value) => v.Many? && |v.items| == 2 && v.items[1].Raw? && TextOk(kind, v.items[1].bytes)
  }

  function TextSchema(width: nat, min: nat, max: nat, kind: Kind): Schema {
    SizedSchema(width, min, max, TextRule(kind))
  }

  function SizedValue(bytes: seq<byte>): Value {
    Many([Num(|bytes|), Raw(bytes)])
  }

  lemma SizedOk(width: nat, min: nat, max: nat, rule: Value -> bool)
    requires min <= max < Pow256(width)
    ensures WellFormed(SizedSchema(width, min, max, rule))
    ensures MinWidth(SizedSchema(width, min, max, rule)) == width + min
  {
    var s := SizedSchema(width, min, max, rule);
    assert s.fields[0] == Number(width, min, max) && s.fields[1] == Blob(0);
    assert forall i :: 0 <= i < 2 ==> WellFormed(s.fields[i]) && InPlace(s.fields, i);
    assert FieldsMin(s, 2) == 0 && FieldsMin(s, 1) == min && FieldsMin(s, 0) == width + min;
  }

  /** A field takes exactly the values of the byte strings within its bounds that
      its rule allows. */
  lemma SizedValid(width: nat, min: nat, max: nat, rule: Value -> bool, v: Value)
    requires min <= max < Pow256(width)
    ensures Valid(SizedSchema(width, min, max, rule), [], v) <==>
      v.Many? && |v.items| == 2 && v.items[1].Raw? && v == SizedValue(v.items[1].bytes)
      && min <= |v.items[1].bytes| <= max && rule(v)
    ensures Valid(SizedSchema(width, min, max, rule), [], v) ==> Size(SizedSchema(width, min, max, rule), v) == width + |v.items[1].bytes|
  {
    var s := SizedSchema(width, min, max, rule);
    if v.Many? && |v.items| == 2 {
      assert v.items[..1][0] == v.items[0];
      assert s.fields[0] == Number(width, min, max) && s.fields[1] == Blob(0);
      if Valid(s, [], v) {
        assert Valid(s.fields[0], v.items[..0], v.items[0]) && Valid(s.fields[1], v.items[..1], v.items[1]);
        assert v.items == [Num(|v.items[1].bytes|), Raw(v.items[1].bytes)];
        assert SizeFields(s, v.items, 2) == 0 && SizeFields(s, v.items, 1) == |v.items[1].bytes|;
        assert SizeFields(s, v.items, 0) == width + |v.items[1].bytes|;
      }
    }
  }

  predicate IsField(width: nat, min: nat, max: nat, bytes: seq<byte>, body: seq<byte>) {
    min <= |bytes| <= max && body == LittleEndian(|bytes|, width) + bytes
  }

  /** A body that holds one such field is accepted exactly when it is the length and the
      bytes of an allowed value, and it then decodes to that value. */
  lemma SizedBodies(width: nat, min: nat, max: nat, rule: Value -> bool, body: seq<byte>)
    requires min <= max < Pow256(width) && width + max <= MAX_PAYLOAD
    ensures ParseBody(SizedSchema(width, min, max, rule), body).Some? <==>
      exists bytes :: IsField(width, min, max, bytes, body) && rule(SizedValue(bytes))
    ensures forall bytes :: IsField(width, min, max, bytes, body) && rule(SizedValue(bytes)) ==>
      ParseBody(SizedSchema(width, min, max, rule), body) == Some(SizedValue(bytes))
  {
    var s := SizedSchema(width, min, max, rule);
    SizedOk(width, min, max, rule);
    if ParseBody(s, body).Some? {
      BodyCanonical(s, body);
      var v := ParseBody(s, body).value;
      SizedValid(width, min, max, rule, v);
      SizedEncoding(width, min, max, rule, v.items[1].bytes);
      assert IsField(width, min, max, v.items[1].bytes, body);
    }
    forall bytes | IsField(width, min, max, bytes, body) && rule(SizedValue(bytes))
      ensures ParseBody(s, body) == Some(SizedValue(bytes))
    {
      SizedValid(width, min, max, rule, SizedValue(bytes));
      SizedEncoding(width, min, max, rule, bytes);
      BodyRoundTrip(s, SizedValue(bytes));
    }
  }

  /** A body that holds one text is accepted exactly when it is the length and the bytes
      of characters the kind allows, and it then decodes to that text. */
  lemma TextBodies(width: nat, min: nat, max: nat, kind: Kind, body: seq<byte>)
    requires min <= max < Pow256(width) && width + max <= MAX_PAYLOAD && kind != BYTES && kind != OPAQUE
    ensures ParseBody(TextSchema(width, min, max, kind), body).Some? <==>
      exists text, cs :: IsField(width, min, max, text, body) && SpellsClean(kind, cs, text)
    ensures forall text, cs :: IsField(width, min, max, text, body) && SpellsClean(kind, cs, text) ==>
      ParseBody(TextSchema(width, min, max, kind), body) == Some(SizedValue(text))
  {
    hide ParseBody, TextOk, SizedSchema, SpellsClean, IsField;
    SizedBodies(width, min, max, TextRule(kind), body);
    forall text: seq<byte> ensures TextRule(kind)(SizedValue(text)) == TextOk(kind, text) {}
    forall text: seq<byte> ensures TextOk(kind, text) <==> exists cs :: SpellsClean(kind, cs, text) {
      TextMeans(kind, text);
    }
    if ParseBody(TextSchema(width, min, max, kind), body).Some? {
      var text :| IsField(width, min, max, text, body) && TextRule(kind)(SizedValue(text));
      var cs :| SpellsClean(kind, cs, text);
    }
  }

  lemma SizedEncoding(width: nat, min: nat, max: nat, rule: Value -> bool, bytes: seq<byte>)
    requires Valid(SizedSchema(width, min, max, rule), [], SizedValue(bytes))
    ensures Encode(SizedSchema(width, min, max, rule), [], SizedValue(bytes)) == LittleEndian(|bytes|, width) + bytes
  {
    var s, items := SizedSchema(width, min, max, rule), SizedValue(bytes).items;
    assert s.fields[0] == Number(width, min, max) && s.fields[1] == Blob(0);
    PairEncoding(s, items);
  }

  lemma PairEncoding(s: Schema, items: seq<Value>)
    requires s.Record? && |s.fields| == |items| == 2 && s.fields[0].Number? && s.fields[1].Blob?
    requires forall j :: 0 <= j < 2 ==> Valid(s.fields[j], items[..j], items[j])
    ensures EncodeFields(s, items, 0) == LittleEndian(items[0].n, s.fields[0].width) + items[1].bytes
  {
    hide LittleEndian;
    assert Valid(s.fields[0], items[..0], items[0]) && Valid(s.fields[1], items[..1], items[1]);
    assert EncodeFields(s, items, 2) == [];
    assert EncodeFields(s, items, 1) == items[1].bytes + [];
  }

  // ---- optional values

  function OptionalSchema(s: Schema): Schema {
    Tagged([Record([], ANY), s])
  }

  function OptionalValue(v: Option<Value>): Value {
    if v.Some? then Pick(1, v.value) else Pick(0, Many([]))
  }

  /** A flag that is 0 or 1, and the value behind a 1. */
  lemma OptionalBodies(s: Schema, v: Option<Value>)
    requires WellFormed(s) && Standalone(s) && (v.Some? ==> Valid(s, [], v.value) && 1 + Size(s, v.value) <= MAX_PAYLOAD)
    ensures var o := OptionalSchema(s);
      WellFormed(o) && MinWidth(o) == 1 && Valid(o, [], OptionalValue(v))
      && Encode(o, [], OptionalValue(v)) == (if v.Some? then [1] + Encode(s, [], v.value) else [0])
      && ParseBody(o, Encode(o, [], OptionalValue(v))) == Some(OptionalValue(v))
  {
    var o := OptionalSchema(s);
    assert MinWidth(Record([], ANY)) == 0;
    assert LeastAlt(o, 1) == 0;
    assert LittleEndian(0, 1) == [0] && LittleEndian(1, 1) == [1];
    BodyRoundTrip(o, OptionalValue(v));
  }
}
