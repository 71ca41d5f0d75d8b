/** Bytes, little-endian integers and the caller's output and input spans
    (codecs/telar_wire.hpp). */
module Wire {
  type byte = x: int | 0 <= x < 0x100
  type u16 = x: int | 0 <= x < 0x1_0000
  type u32 = x: int | 0 <= x < 0x1_0000_0000
  type u64 = x: int | 0 <= x < 0x1_0000_0000_0000_0000

  const MAX_PAYLOAD: nat := 4 * 1024 * 1024

  datatype Option<+T> = None | Some(value: T)

  function Pow256(n: nat): (p: nat)
    ensures p > 0
  {
    if n == 0 then 1 else 256 * Pow256(n - 1)
  }

  lemma Multiply(x: nat, y: nat, b: nat)
    requires x <= y
    ensures x * b <= y * b && b * x <= b * y
  {
    assert y * b == x * b + (y - x) * b;
  }

  lemma Pow256Values()
    ensures Pow256(1) == 0x100
    ensures Pow256(2) == 0x1_0000
    ensures Pow256(4) == 0x1_0000_0000
    ensures Pow256(8) == 0x1_0000_0000_0000_0000
  {
    assert Pow256(2) == 256 * Pow256(1);
    assert Pow256(3) == 256 * Pow256(2);
    assert Pow256(4) == 256 * Pow256(3);
    assert Pow256(5) == 256 * Pow256(4);
    assert Pow256(6) == 256 * Pow256(5);
    assert Pow256(7) == 256 * Pow256(6);
    assert Pow256(8) == 256 * Pow256(7);
  }

  /** The `width` low bytes of `n`, least significant first. */
  function LittleEndian(n: nat, width: nat): (bytes: seq<byte>)
    ensures |bytes| == width
  {
    if width == 0 then [] else [n % 256] + LittleEndian(n / 256, width - 1)
  }

  function FromLittleEndian(bytes: seq<byte>): (n: nat)
    ensures n < Pow256(|bytes|)
  {
    if bytes == [] then 0 else bytes[0] + 256 * FromLittleEndian(bytes[1..])
  }

  /** Byte `i` is the i-th digit to base 256, the least significant first. */
  lemma {:induction false} LittleEndianDigits(n: nat, width: nat, i: nat)
    requires i < width
    ensures LittleEndian(n, width)[i] == n / Pow256(i) % 256
  {
    if i > 0 {
      LittleEndianDigits(n / 256, width - 1, i - 1);
      DivideTwice(n, 256, Pow256(i - 1));
    }
  }

  lemma DivideTwice(n: nat, a: nat, b: nat)
    requires a > 0 && b > 0
    ensures a * b > 0 && n / a / b == n / (a * b)
  {
    var q, r := n / a, n % a;
    var p, t := q / b, q % b;
    assert n == a * (b * p + t) + r;
    assert a * (b * p + t) == (a * b) * p + a * t;
    assert a * t + r < a * b by {
      Multiply(t + 1, b, a);
    }
    Quotient(n, a * b, p, a * t + r);
  }

  lemma Quotient(n: nat, d: nat, q: nat, r: nat)
    requires r < d && n == d * q + r
    ensures n / d == q
  {
    var k := n / d;
    if k < q {
      Multiply(k + 1, q, d);
    } else if q < k {
      Multiply(q + 1, k, d);
    }
  }

  lemma {:induction false} LittleEndianRoundTrip(n: nat, width: nat)
    requires n < Pow256(width)
    ensures FromLittleEndian(LittleEndian(n, width)) == n
  {
    if width > 0 {
      LittleEndianRoundTrip(n / 256, width - 1);
      assert LittleEndian(n, width)[1..] == LittleEndian(n / 256, width - 1);
    }
  }

  lemma {:induction false} LittleEndianCanonical(bytes: seq<byte>)
    ensures LittleEndian(FromLittleEndian(bytes), |bytes|) == bytes
  {
    if bytes != [] {
      LittleEndianCanonical(bytes[1..]);
      var n := FromLittleEndian(bytes);
      assert n % 256 == bytes[0] && n / 256 == FromLittleEndian(bytes[1..]);
    }
  }

  lemma {:induction false} FromLittleEndianSnoc(bytes: seq<byte>, b: byte)
    ensures FromLittleEndian(bytes + [b]) == FromLittleEndian(bytes) + b * Pow256(|bytes|)
  {
    if bytes == [] {
      assert bytes + [b] == [b];
    } else {
      FromLittleEndianSnoc(bytes[1..], b);
      assert (bytes + [b])[1..] == bytes[1..] + [b];
      assert b * Pow256(|bytes|) == 256 * (b * Pow256(|bytes| - 1));
    }
  }

  /** Writing `done` and then `next` right after it is writing both. */
  lemma Splice(before: seq<byte>, start: nat, done: seq<byte>, middle: seq<byte>, next: seq<byte>, after: seq<byte>)
    requires start + |done| + |next| <= |before|
    requires middle == before[..start] + done + before[start + |done|..]
    requires after == middle[..start + |done|] + next + middle[start + |done| + |next|..]
    ensures after == before[..start] + (done + next) + before[start + |done| + |next|..]
  {
    assert middle[..start + |done|] == before[..start] + done;
    assert middle[start + |done| + |next|..] == before[start + |done| + |next|..];
  }

  /** `before` with `text` written over it from `start`. */
  function Overlay(before: seq<byte>, start: nat, text: seq<byte>): seq<byte>
    requires start + |text| <= |before|
  {
    before[..start] + text + before[start + |text|..]
  }

  /** Writing the next byte of `text` at its place, the earlier ones being there. */
  lemma OverlayNext(before: seq<byte>, start: nat, text: seq<byte>, i: nat)
    requires i < |text| && start + |text| <= |before|
    ensures |Overlay(before, start, text[..i])| == |before|
    ensures Overlay(before, start, text[..i])[start + i := text[i]] == Overlay(before, start, text[..i + 1])
  {}

  /** The moving output span: writes go to buffer[start..stop] and advance start. */
  class OutputSpan {
    const buffer: array<byte>
    var start: nat
    var stop: nat

    ghost predicate Valid()
      reads this
    {
      start <= stop <= buffer.Length
    }

    constructor (buffer: array<byte>, size: nat)
      requires size <= buffer.Length
      ensures Valid() && this.buffer == buffer && start == 0 && stop == size
    {
      this.buffer := buffer;
      start, stop := 0, size;
    }

    /** `bytes` were appended to what had been written; nothing else changed. */
    twostate predicate Wrote(bytes: seq<byte>)
      reads this, buffer
    {
      && old(Valid()) && Valid() && stop == old(stop)
      && start == old(start) + |bytes|
      && buffer[..] == old(buffer[..])[..old(start)] + bytes + old(buffer[..])[start..]
    }

    method PutNumber(n: nat, width: nat)
      requires Valid() && width <= stop - start
      modifies this`start, buffer
      ensures Wrote(LittleEndian(n, width))
    {
      var i: nat, left: nat := 0, n;
      ghost var before, text := buffer[..], LittleEndian(n, width);
      assert buffer[..] == Overlay(before, start, text[..0]);
      while i < width
        modifies buffer
        invariant i <= width && text[i..] == LittleEndian(left, width - i)
        invariant buffer[..] == Overlay(before, start, text[..i])
      {
        hide Overlay;
        assert text[i] == LittleEndian(left, width - i)[0] == left % 256;
        assert text[i + 1..] == LittleEndian(left, width - i)[1..];
        OverlayNext(before, start, text, i);
        ghost var was := buffer[..];
        buffer[start + i] := left % 256;
        assert buffer[..] == was[start + i := text[i]];
        left := left / 256;
        i := i + 1;
      }
      start := start + width;
      assert text[..width] == text;
    }

    method PutBytes(bytes: seq<byte>)
      requires Valid() && |bytes| <= stop - start
      modifies this`start, buffer
      ensures Wrote(bytes)
    {
      ghost var before := buffer[..];
      assert buffer[..] == Overlay(before, start, bytes[..0]);
      for i := 0 to |bytes|
        modifies buffer
        invariant buffer[..] == Overlay(before, start, bytes[..i])
      {
        hide Overlay;
        OverlayNext(before, start, bytes, i);
        ghost var was := buffer[..];
        buffer[start + i] := bytes[i];
        assert buffer[..] == was[start + i := bytes[i]];
      }
      start := start + |bytes|;
      assert bytes[..|bytes|] == bytes;
    }
  }

  /** The moving input span. */
  class InputSpan {
    var rest: seq<byte>

    constructor (bytes: seq<byte>)
      ensures rest == bytes
    {
      rest := bytes;
    }

    method TakeNumber(width: nat) returns (n: Option<nat>)
      modifies this
      ensures |old(rest)| < width ==> n == None && rest == old(rest)
      ensures |old(rest)| >= width ==> n == Some(FromLittleEndian(old(rest)[..width])) && rest == old(rest)[width..]
    {
      if |rest| < width {
        return None;
      }
      var i: nat, shift: nat, result: nat := 0, 1, 0;
      while i < width
        modifies {}
        invariant i <= width && shift == Pow256(i)
        invariant result == FromLittleEndian(rest[..i])
      {
        assert rest[..i + 1] == rest[..i] + [rest[i]];
        FromLittleEndianSnoc(rest[..i], rest[i]);
        result := result + rest[i] * shift;
        shift := 256 * shift;
        i := i + 1;
      }
      n := Some(result);
      rest := rest[width..];
    }

    method TakeBytes(count: nat) returns (bytes: Option<seq<byte>>)
      modifies this
      ensures |old(rest)| < count ==> bytes == None && rest == old(rest)
      ensures |old(rest)| >= count ==> bytes == Some(old(rest)[..count]) && rest == old(rest)[count..]
    {
      if |rest| < count {
        return None;
      }
      bytes := Some(rest[..count]);
      rest := rest[count..];
    }
  }
}
