/** The UTF-8 recogniser (codecs/telar_value_codec.hpp) against the definition
    of UTF-8 in sections 3 and 4 of RFC 3629. */
module Utf8 {
  import opened Wire

  /** Unicode scalar values: code points that are not surrogates. */
  predicate IsScalar(c: nat) {
    c <= 0x10FFFF && !(0xD800 <= c <= 0xDFFF)
  }

  function Continuation(bits: nat): byte {
    0x80 + bits % 64
  }

  /** One scalar value in the bit layout of section 3. */
  function Encode(c: nat): (bytes: seq<byte>)
    requires IsScalar(c)
    ensures 1 <= |bytes| <= 4
  {
    if c < 0x80 then [c]
    else if c < 0x800 then [0xC0 + c / 64, Continuation(c)]
    else if c < 0x10000 then [0xE0 + c / 64 / 64, Continuation(c / 64), Continuation(c)]
    else [0xF0 + c / 64 / 64 / 64, Continuation(c / 64 / 64), Continuation(c / 64), Continuation(c)]
  }

  predicate AllScalars(cs: seq<nat>) {
    forall i :: 0 <= i < |cs| ==> IsScalar(cs[i])
  }

  function EncodeAll(cs: seq<nat>): seq<byte>
    requires AllScalars(cs)
  {
    if cs == [] then [] else Encode(cs[0]) + EncodeAll(cs[1..])
  }

  /** Well-formed UTF-8: the encoding of some scalar values. */
  ghost predicate WellFormed(bytes: seq<byte>) {
    exists cs :: Spells(cs, bytes)
  }

  predicate Spells(cs: seq<nat>, bytes: seq<byte>) {
    AllScalars(cs) && EncodeAll(cs) == bytes
  }

  // ---- one sequence at the front

  /** The length the lead byte announces; 0 when no sequence starts with it. */
  function Announced(lead: byte): nat {
    if lead < 0x80 then 1
    else if 0xC2 <= lead <= 0xDF then 2
    else if 0xE0 <= lead <= 0xEF then 3
    else if 0xF0 <= lead <= 0xF4 then 4
    else 0
  }

  predicate Continues(b: byte) {
    0x80 <= b <= 0xBF
  }

  predicate SecondOk(lead: byte, second: byte) {
    !((lead == 0xE0 && second < 0xA0) || (lead == 0xED && second >= 0xA0)
      || (lead == 0xF0 && second < 0x90) || (lead == 0xF4 && second > 0x8F))
  }

  /** Whether the recogniser takes a sequence off the front. */
  predicate Takes(s: seq<byte>)
    requires s != []
  {
    var n := Announced(s[0]);
    0 < n <= |s| && (forall i :: 1 <= i < n ==> Continues(s[i])) && (n > 1 ==> SecondOk(s[0], s[1]))
  }

  /** The payload of a byte below its marker bits. */
  function Bits(b: byte, marker: nat): nat
    requires marker <= b
  {
    b - marker
  }

  function Scalar(s: seq<byte>): nat
    requires s != [] && Takes(s)
  {
    match Announced(s[0])
    case 1 => s[0]
    case 2 => 64 * Bits(s[0], 0xC0) + Bits(s[1], 0x80)
    case 3 => 64 * (64 * Bits(s[0], 0xE0) + Bits(s[1], 0x80)) + Bits(s[2], 0x80)
    case _ => 64 * (64 * (64 * Bits(s[0], 0xF0) + Bits(s[1], 0x80)) + Bits(s[2], 0x80)) + Bits(s[3], 0x80)
  }

  /** What it takes is the encoding of a scalar value. */
  lemma TakesScalar(s: seq<byte>)
    requires s != [] && Takes(s)
    ensures var n := Announced(s[0]);
      n <= |s| && IsScalar(Scalar(s)) && Encode(Scalar(s)) == s[..n]
  {
    var n := Announced(s[0]);
    if n == 2 {
      Digit(Bits(s[0], 0xC0), Bits(s[1], 0x80));
    } else if n == 3 {
      Digit(Bits(s[0], 0xE0), Bits(s[1], 0x80));
      Digit(64 * Bits(s[0], 0xE0) + Bits(s[1], 0x80), Bits(s[2], 0x80));
    } else if n == 4 {
      Digit(Bits(s[0], 0xF0), Bits(s[1], 0x80));
      Digit(64 * Bits(s[0], 0xF0) + Bits(s[1], 0x80), Bits(s[2], 0x80));
      Digit(64 * (64 * Bits(s[0], 0xF0) + Bits(s[1], 0x80)) + Bits(s[2], 0x80), Bits(s[3], 0x80));
    }
  }

  lemma Digit(high: nat, low: nat)
    requires low < 64
    ensures (64 * high + low) / 64 == high && (64 * high + low) % 64 == low
  {}

  lemma Taken1(c: nat, rest: seq<byte>)
    requires c < 0x80
    ensures var s := [c as byte] + rest; Takes(s) && Announced(s[0]) == 1 && Scalar(s) == c
  {}

  lemma Taken2(a: nat, b: nat, rest: seq<byte>)
    requires 2 <= a < 32 && b < 64
    ensures var s := [0xC0 + a, 0x80 + b] + rest; Takes(s) && Announced(s[0]) == 2 && Scalar(s) == 64 * a + b
  {}

  lemma Taken3(a: nat, b: nat, c: nat, rest: seq<byte>)
    requires a < 16 && b < 64 && c < 64 && (a == 0 ==> b >= 32) && (a == 13 ==> b < 32)
    ensures var s := [0xE0 + a, 0x80 + b, 0x80 + c] + rest;
      Takes(s) && Announced(s[0]) == 3 && Scalar(s) == 64 * (64 * a + b) + c
  {
    var s: seq<byte> := [0xE0 + a, 0x80 + b, 0x80 + c] + rest;
    assert Continues(s[1]) && Continues(s[2]);
  }

  lemma Taken4(a: nat, b: nat, c: nat, d: nat, rest: seq<byte>)
    requires a <= 4 && b < 64 && c < 64 && d < 64 && (a == 0 ==> b >= 16) && (a == 4 ==> b < 16)
    ensures var s := [0xF0 + a, 0x80 + b, 0x80 + c, 0x80 + d] + rest;
      Takes(s) && Announced(s[0]) == 4 && Scalar(s) == 64 * (64 * (64 * a + b) + c) + d
  {
    var s: seq<byte> := [0xF0 + a, 0x80 + b, 0x80 + c, 0x80 + d] + rest;
    assert Continues(s[1]) && Continues(s[2]) && Continues(s[3]);
  }

  /** It takes the encoding of every scalar value, whatever follows. */
  lemma ScalarTaken(c: nat, rest: seq<byte>)
    requires IsScalar(c)
    ensures var s := Encode(c) + rest;
      Takes(s) && Announced(s[0]) == |Encode(c)| && s[|Encode(c)|..] == rest && Scalar(s) == c
  {
    hide Takes, Scalar, Announced;
    var q, r := c / 64, c / 64 / 64;
    assert c == 64 * q + c % 64 && q == 64 * r + q % 64 && r == 64 * (r / 64) + r % 64;
    if c < 0x80 {
      Taken1(c, rest);
    } else if c < 0x800 {
      Taken2(q, c % 64, rest);
    } else if c < 0x10000 {
      Taken3(r, q % 64, c % 64, rest);
    } else {
      Taken4(r / 64, r % 64, q % 64, c % 64, rest);
    }
  }

  lemma Prepend(c: nat, rest: seq<byte>)
    requires IsScalar(c)
    ensures WellFormed(Encode(c) + rest) <==> WellFormed(rest)
  {
    var s := Encode(c) + rest;
    if WellFormed(rest) {
      var cs :| Spells(cs, rest);
      assert ([c] + cs)[1..] == cs;
      assert Spells([c] + cs, s);
    }
    if WellFormed(s) {
      var cs :| Spells(cs, s);
      assert s == Encode(cs[0]) + EncodeAll(cs[1..]);
      ScalarTaken(c, rest);
      ScalarTaken(cs[0], EncodeAll(cs[1..]));
      assert Spells(cs[1..], rest);
    }
  }

  lemma OnlyScalarsTaken(s: seq<byte>)
    requires s != [] && WellFormed(s)
    ensures Takes(s)
  {
    var cs :| Spells(cs, s);
    ScalarTaken(cs[0], EncodeAll(cs[1..]));
  }

  // ---- the recogniser

  /** Accepts exactly well-formed UTF-8, reading no byte past the end. */
  method Validate(value: seq<byte>) returns (ok: bool)
    ensures ok <==> WellFormed(value)
  {
    var index: nat := 0;
    assert value[0..] == value;
    while index < |value|
      invariant index <= |value| && (WellFormed(value) <==> WellFormed(value[index..]))
    {
      ghost var s := value[index..];
      var lead := value[index];
      var length: nat := 1;
      if lead >= 0x80 {
        length := if 0xC2 <= lead <= 0xDF then 2 else if 0xE0 <= lead <= 0xEF then 3 else if 0xF0 <= lead <= 0xF4 then 4 else 0;
        if length == 0 || length > |value| - index {
          Refused(s);
          return false;
        }
        for i := 1 to length
          invariant forall j :: 1 <= j < i ==> Continues(s[j])
        {
          if value[index + i] < 0x80 || value[index + i] > 0xBF {
            assert !Continues(s[i]);
            Refused(s);
            return false;
          }
        }
        var second := value[index + 1];
        if (lead == 0xE0 && second < 0xA0) || (lead == 0xED && second >= 0xA0) ||
           (lead == 0xF0 && second < 0x90) || (lead == 0xF4 && second > 0x8F) {
          assert !SecondOk(s[0], s[1]);
          Refused(s);
          return false;
        }
      }
      assert Takes(s);
      TakesScalar(s);
      assert s == s[..length] + s[length..] && s[length..] == value[index + length..];
      Prepend(Scalar(s), s[length..]);
      index := index + length;
    }
    assert Spells([], value[index..]);
    ok := true;
  }

  lemma Refused(s: seq<byte>)
    requires s != [] && !Takes(s)
    ensures !WellFormed(s)
  {
    if WellFormed(s) {
      OnlyScalarsTaken(s);
    }
  }

  /** A well-formed text spells one sequence of scalar values only. */
  lemma {:induction false} SpellsOnce(a: seq<nat>, b: seq<nat>)
    requires AllScalars(a) && AllScalars(b) && EncodeAll(a) == EncodeAll(b)
    ensures a == b
    decreases |a|
  {
    if a != [] && b != [] {
      ScalarTaken(a[0], EncodeAll(a[1..]));
      ScalarTaken(b[0], EncodeAll(b[1..]));
      SpellsOnce(a[1..], b[1..]);
      assert a == [a[0]] + a[1..] && b == [b[0]] + b[1..];
    }
  }
}
