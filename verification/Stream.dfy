/** Framing over a byte stream that reads and writes short and is interrupted
    (telar_client.hpp). */
module Streams {
  import opened Wire

  const PREFIX: nat := 4

  predicate Sendable(payload: seq<byte>) {
    1 <= |payload| <= MAX_PAYLOAD
  }

  /** One frame on the wire: the payload's length, then the payload. */
  function Framed(payload: seq<byte>): (f: seq<byte>)
    ensures |f| == PREFIX + |payload|
  {
    LittleEndian(|payload|, PREFIX) + payload
  }

  function Stream(payloads: seq<seq<byte>>): seq<byte> {
    if payloads == [] then [] else Framed(payloads[0]) + Stream(payloads[1..])
  }

  /** What one system call answers: a signal came, up to `count` bytes moved, or
      an error. */
  datatype Reply = Interrupted | Moved(count: nat) | Failure

  /** Short counts and interrupts only. */
  predicate Benign(replies: seq<Reply>) {
    forall i :: 0 <= i < |replies| ==> replies[i].Interrupted? || (replies[i].Moved? && replies[i].count > 0)
  }

  /** How many calls move bytes. */
  function Moves(replies: seq<Reply>): nat {
    if replies == [] then 0 else (if replies[0].Moved? then 1 else 0) + Moves(replies[1..])
  }

  function Min(a: nat, b: nat): nat { if a < b then a else b }

  /** How a receive ended. */
  datatype Received = Got(payload: seq<byte>) | BadLength | Broken

  class Socket {
    /** Bytes that arrived and were not read; bytes that were written. */
    var inbox: seq<byte>
    var outbox: seq<byte>
    /** The answers of the calls to come; none left is a failure. */
    var replies: seq<Reply>

    constructor (inbox: seq<byte>, replies: seq<Reply>)
      ensures this.inbox == inbox && this.replies == replies && outbox == []
    {
      this.inbox, this.replies, outbox := inbox, replies, [];
    }

    /** The operating system's recv: some bytes from the front, 0 at the end,
        negative on an error or a signal. */
    method Recv(buffer: array<byte>, start: nat, size: nat) returns (count: int, interrupted: bool)
      requires 0 < size && start + size <= buffer.Length
      modifies this`inbox, this`replies, buffer
      ensures replies == if old(replies) == [] then [] else old(replies)[1..]
      ensures interrupted <==> old(replies) != [] && old(replies)[0].Interrupted?
      ensures count < 0 <==> old(replies) == [] || !old(replies)[0].Moved?
      ensures count >= 0 ==> count == Min(old(replies)[0].count, Min(size, |old(inbox)|))
      ensures inbox == if count > 0 then old(inbox)[count..] else old(inbox)
      ensures forall k :: 0 <= k < buffer.Length ==>
                buffer[k] == if start <= k < start + count then old(inbox)[k - start] else old(buffer[k])
    {
      var reply := if replies == [] then Failure else replies[0];
      replies := if replies == [] then [] else replies[1..];
      interrupted := reply.Interrupted?;
      if !reply.Moved? {
        return -1, interrupted;
      }
      var n := Min(reply.count, Min(size, |inbox|));
      forall k | 0 <= k < n {
        buffer[start + k] := inbox[k];
      }
      inbox := inbox[n..];
      count := n;
    }

    method Send(buffer: array<byte>, start: nat, size: nat) returns (count: int, interrupted: bool)
      requires 0 < size && start + size <= buffer.Length
      modifies this`outbox, this`replies
      ensures replies == if old(replies) == [] then [] else old(replies)[1..]
      ensures interrupted <==> old(replies) != [] && old(replies)[0].Interrupted?
      ensures count < 0 <==> old(replies) == [] || !old(replies)[0].Moved?
      ensures count >= 0 ==> count == Min(old(replies)[0].count, size)
      ensures outbox == if count > 0 then old(outbox) + buffer[start..start + count] else old(outbox)
    {
      var reply := if replies == [] then Failure else replies[0];
      replies := if replies == [] then [] else replies[1..];
      interrupted := reply.Interrupted?;
      if !reply.Moved? {
        return -1, interrupted;
      }
      var n := Min(reply.count, size);
      outbox := outbox + buffer[start..start + n];
      count := n;
    }

    /** Reads exactly `size` bytes, whatever the pattern of short reads; fails
        only on an error or the end of the stream. */
    method ReadAll(buffer: array<byte>, size: nat) returns (ok: bool)
      requires size <= buffer.Length
      modifies this`inbox, this`replies, buffer
      ensures ok ==> |old(inbox)| >= size && inbox == old(inbox)[size..] && buffer[..size] == old(inbox)[..size]
      ensures buffer[size..] == old(buffer[size..])
      ensures Benign(old(replies)) && Moves(old(replies)) >= size && |old(inbox)| >= size ==>
                ok && Benign(replies) && Moves(replies) >= Moves(old(replies)) - size
    {
      var done: nat := 0;
      while done != size
        modifies this`inbox, this`replies, buffer
        invariant done <= size && done <= |old(inbox)| && inbox == old(inbox)[done..]
        invariant forall k :: 0 <= k < done ==> buffer[k] == old(inbox)[k]
        invariant buffer[size..] == old(buffer[size..])
        invariant Benign(old(replies)) ==> Benign(replies) && Moves(replies) >= Moves(old(replies)) - done
        decreases |replies|
      {
        ghost var before := replies;
        var count, interrupted := Recv(buffer, done, size - done);
        if count < 0 && interrupted {
          continue;
        }
        if count <= 0 {
          return false;
        }
        done := done + count;
      }
      ok := true;
    }

    method WriteAll(buffer: array<byte>, size: nat) returns (ok: bool)
      requires size <= buffer.Length
      modifies this`outbox, this`replies
      ensures ok ==> outbox == old(outbox) + buffer[..size]
      ensures old(outbox) <= outbox <= old(outbox) + buffer[..size]
      ensures Benign(old(replies)) && Moves(old(replies)) >= size ==>
                ok && Benign(replies) && Moves(replies) >= Moves(old(replies)) - size
    {
      var done: nat := 0;
      while done != size
        modifies this`outbox, this`replies
        invariant done <= size && outbox == old(outbox) + buffer[..done]
        invariant Benign(old(replies)) ==> Benign(replies) && Moves(replies) >= Moves(old(replies)) - done
        decreases |replies|
      {
        var count, interrupted := Send(buffer, done, size - done);
        if count < 0 && interrupted {
          continue;
        }
        if count <= 0 {
          return false;
        }
        assert buffer[..done] + buffer[done..done + count] == buffer[..done + count];
        done := done + count;
      }
      ok := true;
    }

    /** Sends a payload encoded behind the prefix of the caller's frame buffer. */
    method SendFrame(frame: array<byte>, size: nat) returns (ok: bool)
      requires 1 <= size <= MAX_PAYLOAD && PREFIX + size <= frame.Length
      modifies this`outbox, this`replies, frame
      ensures frame[PREFIX..] == old(frame[PREFIX..])
      ensures ok ==> outbox == old(outbox) + LittleEndian(size, 4) + frame[PREFIX..PREFIX + size]
      ensures ok ==> outbox == old(outbox) + Framed(frame[PREFIX..PREFIX + size])
      ensures old(outbox) <= outbox <= old(outbox) + Framed(frame[PREFIX..PREFIX + size])
      ensures Benign(old(replies)) && Moves(old(replies)) >= PREFIX + size ==>
                ok && Benign(replies) && Moves(replies) >= Moves(old(replies)) - PREFIX - size
    {
      var prefix := new OutputSpan(frame, PREFIX);
      prefix.PutNumber(size, PREFIX);
      assert frame[..PREFIX + size] == Framed(frame[PREFIX..PREFIX + size]);
      ok := WriteAll(frame, PREFIX + size);
    }

    /** Receives one frame into the caller's buffer. */
    method ReceiveFrame(buffer: array<byte>) returns (r: Received)
      modifies this`inbox, this`replies, buffer
      ensures r.Got? ==> Sendable(r.payload) && |r.payload| <= buffer.Length && buffer[..|r.payload|] == r.payload
      ensures r.Got? ==> old(inbox) == Framed(r.payload) + inbox
      ensures r.BadLength? ==> |old(inbox)| >= PREFIX && !(1 <= Announced(old(inbox)) <= Min(MAX_PAYLOAD, buffer.Length))
      // The length is judged as soon as the prefix is there.
      ensures Serves(old(replies), old(inbox), PREFIX) ==>
        (r.BadLength? <==> !(1 <= Announced(old(inbox)) <= Min(MAX_PAYLOAD, buffer.Length)))
      ensures |old(inbox)| >= PREFIX && Serves(old(replies), old(inbox), PREFIX + Announced(old(inbox))) ==>
                !r.Broken? && Benign(replies) && Moves(replies) >= Moves(old(replies)) - PREFIX - Announced(old(inbox))
    {
      ghost var start := inbox;
      var prefix := new byte[PREFIX];
      var ok := ReadAll(prefix, PREFIX);
      if !ok {
        return Broken;
      }
      assert prefix[..] == prefix[..PREFIX] == start[..PREFIX];
      var input := new InputSpan(prefix[..]);
      var taken := input.TakeNumber(PREFIX);
      var length := taken.value;
      if length == 0 || length > MAX_PAYLOAD || length > buffer.Length {
        return BadLength;
      }
      ok := ReadAll(buffer, length);
      if !ok {
        return Broken;
      }
      LittleEndianCanonical(start[..PREFIX]);
      assert start == start[..PREFIX] + start[PREFIX..][..length] + start[PREFIX..][length..];
      r := Got(buffer[..length]);
    }

    /** Receives as many frames as were sent: what it returns is theirs, in
        order, none missing or repeated, and all of them when nothing failed. */
    method ReceiveAll(buffer: array<byte>, count: nat, ghost sent: seq<seq<byte>>, ghost rest: seq<byte>)
      returns (got: seq<seq<byte>>)
      requires count == |sent| && inbox == Stream(sent) + rest
      requires forall i :: 0 <= i < |sent| ==> Sendable(sent[i]) && |sent[i]| <= buffer.Length
      modifies this`inbox, this`replies, buffer
      ensures got <= sent
      ensures Serves(old(replies), old(inbox), |Stream(sent)|) ==> got == sent && inbox == rest
    {
      got := [];
      for i := 0 to count
        modifies this`inbox, this`replies, buffer
        invariant got == sent[..i] && inbox == Stream(sent[i..]) + rest
        invariant Serves(old(replies), old(inbox), |Stream(sent)|) ==> Serves(replies, inbox, |Stream(sent[i..])|)
      {
        ghost var tail := Stream(sent[i + 1..]) + rest;
        assert sent[i..][1..] == sent[i + 1..] && inbox == Framed(sent[i]) + tail;
        FrameAhead(sent[i], tail);
        var r := ReceiveFrame(buffer);
        if !r.Got? {
          return;
        }
        SameFrame(sent[i], tail, r.payload, inbox);
        got := got + [r.payload];
      }
      assert sent[..count] == sent && sent[count..] == [];
    }
  }

  /** The length the next frame announces. */
  function Announced(inbox: seq<byte>): nat
    requires |inbox| >= PREFIX
  {
    FromLittleEndian(inbox[..PREFIX])
  }

  /** The calls to come deliver `size` bytes of the inbox, however short and
      however often interrupted. */
  predicate Serves(replies: seq<Reply>, inbox: seq<byte>, size: nat) {
    Benign(replies) && Moves(replies) >= size && |inbox| >= size
  }

  lemma FrameAhead(payload: seq<byte>, tail: seq<byte>)
    requires Sendable(payload)
    ensures var s := Framed(payload) + tail; |s| >= PREFIX && Announced(s) == |payload|
  {
    Pow256Values();
    LittleEndianRoundTrip(|payload|, PREFIX);
    assert (Framed(payload) + tail)[..PREFIX] == LittleEndian(|payload|, PREFIX);
  }

  /** A stream starts with one frame only. */
  lemma SameFrame(a: seq<byte>, restA: seq<byte>, b: seq<byte>, restB: seq<byte>)
    requires Sendable(a) && Sendable(b) && Framed(a) + restA == Framed(b) + restB
    ensures a == b && restA == restB
  {
    FrameAhead(a, restA);
    FrameAhead(b, restB);
    var s := Framed(a) + restA;
    assert a == s[PREFIX..PREFIX + |a|] && b == s[PREFIX..PREFIX + |b|];
    assert restA == s[PREFIX + |a|..] && restB == s[PREFIX + |b|..];
  }

  /** Sending one more payload extends the stream: what a connection wrote is
      the stream of what it sent. */
  lemma {:induction false} StreamSnoc(payloads: seq<seq<byte>>, next: seq<byte>)
    ensures Stream(payloads + [next]) == Stream(payloads) + Framed(next)
  {
    if payloads == [] {
      assert ([] + [next])[1..] == [];
    } else {
      StreamSnoc(payloads[1..], next);
      assert (payloads + [next])[1..] == payloads[1..] + [next];
    }
  }

  /** The stream determines the payloads. */
  lemma {:induction false} StreamIsInjective(a: seq<seq<byte>>, b: seq<seq<byte>>)
    requires forall i :: 0 <= i < |a| ==> Sendable(a[i])
    requires forall i :: 0 <= i < |b| ==> Sendable(b[i])
    requires Stream(a) == Stream(b)
    ensures a == b
    decreases |a|
  {
    if a != [] && b != [] {
      SameFrame(a[0], Stream(a[1..]), b[0], Stream(b[1..]));
      StreamIsInjective(a[1..], b[1..]);
      assert a == [a[0]] + a[1..] && b == [b[0]] + b[1..];
    }
  }
}
