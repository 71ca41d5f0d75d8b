/** The event sweep that totals how long a window was dirty and busy
    (tools/gui_slot_probe.py), against its pointwise meaning. Times are whole
    ticks, so a total is a number of instants. */
module Sweep {
  import opened Wire

  datatype Kind = MeasureStart | RequestBegin | PrepareBegin | WaitBegin | CompleteBegin | CloseBegin | CloseEnd | Other
  datatype Event = Event(kind: Kind, at: int, value: int, flags: nat)

  /** What the replay knows after some events. */
  datatype Status = Status(dirty: bool, busy: bool, visible: bool, closed: bool, deadline: int)

  datatype Window = Window(start: int, end: int)
  datatype Totals = Totals(dirtyBusy: int, eligible: int)

  predicate Flag(flags: nat, mask: nat)
    requires mask > 0
  {
    flags / mask % 2 == 1
  }

  function Replay(s: Status, e: Event): Status {
    var t := if Flag(e.flags, 1) then Status(Flag(e.flags, 2), Flag(e.flags, 4), Flag(e.flags, 8), Flag(e.flags, 16), e.value) else s;
    match e.kind
    case RequestBegin => if t.closed then t else t.(dirty := true)
    case PrepareBegin => t.(dirty := false)
    case WaitBegin => t.(busy := true)
    case CompleteBegin => t.(busy := false)
    case CloseBegin => t.(closed := true)
    case _ => t
  }

  predicate Sorted(events: seq<Event>) {
    forall i, j :: 0 <= i < j < |events| ==> events[i].at <= events[j].at
  }

  function After(events: seq<Event>, count: nat): Status
    requires count <= |events| && events != []
  {
    if count == 0 then Status(false, false, false, false, events[0].at) else Replay(After(events, count - 1), events[count - 1])
  }

  // ---- the pointwise meaning

  /** How many events have happened by an instant. */
  function Happened(events: seq<Event>, t: int): (n: nat)
    ensures n <= |events|
  {
    if events == [] then 0
    else Happened(events[..|events| - 1], t) + if events[|events| - 1].at <= t then 1 else 0
  }

  /** The state at an instant: every event up to it replayed. */
  function At(events: seq<Event>, t: int): Status
    requires events != []
  {
    After(events, Happened(events, t))
  }

  datatype Question = DirtyBusy | Eligible

  predicate Meets(q: Question, s: Status, t: int) {
    s.dirty && s.busy && s.visible && !s.closed && (q == Eligible ==> t >= s.deadline)
  }

  /** In how many instants lo .. hi of the trace the condition held. */
  function Instants(q: Question, events: seq<Event>, lo: int, hi: int): nat
    requires events != []
    decreases hi - lo
  {
    if hi <= lo then 0
    else Instants(q, events, lo, hi - 1) + if Meets(q, At(events, hi - 1), hi - 1) then 1 else 0
  }

  /** Totals over two adjacent windows add up to the total over their union. */
  lemma {:induction false} AdjacentWindows(q: Question, events: seq<Event>, lo: int, mid: int, hi: int)
    requires events != [] && lo <= mid <= hi
    ensures Instants(q, events, lo, mid) + Instants(q, events, mid, hi) == Instants(q, events, lo, hi)
    decreases hi - mid
  {
    if mid < hi {
      AdjacentWindows(q, events, lo, mid, hi - 1);
    }
  }

  lemma {:induction false} EligibleIsDirtyBusy(events: seq<Event>, lo: int, hi: int)
    requires events != []
    ensures Instants(Eligible, events, lo, hi) <= Instants(DirtyBusy, events, lo, hi)
    decreases hi - lo
  {
    if lo < hi {
      EligibleIsDirtyBusy(events, lo, hi - 1);
    }
  }

  // ---- between two events

  /** Between the events before `i` and event `i` the state is that after `i` events. */
  lemma {:induction false} Between(events: seq<Event>, i: nat, t: int)
    requires Sorted(events) && 0 < i <= |events|
    requires events[i - 1].at <= t && (i < |events| ==> t < events[i].at)
    ensures Happened(events, t) == i
  {
    var last := events[..|events| - 1];
    if i < |events| {
      Between(last, i, t);
    } else {
      AllHappened(events, t);
    }
  }

  lemma {:induction false} AllHappened(events: seq<Event>, t: int)
    requires forall i :: 0 <= i < |events| ==> events[i].at <= t
    ensures Happened(events, t) == |events|
  {
    if events != [] {
      AllHappened(events[..|events| - 1], t);
    }
  }

  function Max(a: int, b: int): int { if a < b then b else a }
  function Min(a: int, b: int): int { if a < b then a else b }

  /** One stretch without events: all its instants meet the condition, or those
      from the deadline on, or none. */
  lemma {:induction false} Stretch(q: Question, events: seq<Event>, i: nat, lo: int, hi: int)
    requires Sorted(events) && 0 < i < |events|
    requires events[i - 1].at <= lo && hi <= events[i].at
    ensures var s := After(events, i);
      Instants(q, events, lo, hi)
        == if !Meets(DirtyBusy, s, 0) then 0 else Max(0, hi - if q == Eligible then Max(lo, s.deadline) else lo)
    decreases hi - lo
  {
    if lo < hi {
      Stretch(q, events, i, lo, hi - 1);
      Between(events, i, hi - 1);
    }
  }

  /** What the clipped stretch up to event `i` adds. */
  function Clip(q: Question, s: Status, previous: int, at: int, w: Window): int {
    if !Meets(DirtyBusy, s, 0) then 0
    else Max(0, Min(at, w.end) - Max(Max(previous, w.start), if q == Eligible then s.deadline else previous))
  }

  /** Clipping counts the window's instants between two events. */
  lemma ClipCounts(q: Question, events: seq<Event>, i: nat, w: Window)
    requires Sorted(events) && 0 < i < |events| && events[0].at <= w.start
    ensures Clip(q, After(events, i), events[i - 1].at, events[i].at, w)
            == Instants(q, events, w.start, Min(events[i].at, w.end)) - Instants(q, events, w.start, Min(events[i - 1].at, w.end))
  {
    var lo, hi := Max(events[i - 1].at, w.start), Min(events[i].at, w.end);
    Stretch(q, events, i, lo, hi);
    var before := Min(events[i - 1].at, w.end);
    if w.start <= before <= hi {
      AdjacentWindows(q, events, w.start, before, hi);
    }
  }

  // ---- the sweep

  method FindMarker(events: seq<Event>) returns (marker: nat)
    ensures marker <= |events| && (marker < |events| ==> events[marker].kind == MeasureStart)
    ensures forall j :: 0 <= j < marker ==> events[j].kind != MeasureStart
  {
    marker := 0;
    while marker < |events| && events[marker].kind != MeasureStart
      invariant marker <= |events| && forall j :: 0 <= j < marker ==> events[j].kind != MeasureStart
    {
      marker := marker + 1;
    }
  }

  /** The window totals are taken over: the trace's own, clipped to one asked for. */
  function Clipped(events: seq<Event>, asked: Option<Window>): Window
    requires events != []
  {
    var whole := Window(events[0].at, events[|events| - 1].at);
    match asked
    case None => whole
    case Some(w) => Window(Max(whole.start, w.start), Min(whole.end, w.end))
  }

  /** The sweep itself, over events sorted by time: one pass, clipping each
      stretch between events to the window. */
  method Analyze(trace: seq<Event>, dropped: nat, asked: Option<Window>) returns (totals: Option<Totals>, marker: nat)
    requires Sorted(trace)
    ensures marker <= |trace| && forall j :: 0 <= j < marker ==> trace[j].kind != MeasureStart
    ensures totals.Some? <==>
      && dropped == 0 && marker < |trace| && trace[marker].kind == MeasureStart && trace[|trace| - 1].kind == CloseEnd
      && (asked.Some? ==> Clipped(trace[marker..], asked).start < Clipped(trace[marker..], asked).end)
    ensures totals.Some? ==>
      var events := trace[marker..];
      var w := Clipped(events, asked);
      totals.value == Totals(Instants(DirtyBusy, events, w.start, w.end), Instants(Eligible, events, w.start, w.end))
  {
    marker := FindMarker(trace);
    if dropped > 0 || marker == |trace| || trace[|trace| - 1].kind != CloseEnd {
      return None, marker;
    }
    var events := trace[marker..];
    var w := Clipped(events, asked);
    if asked.Some? && w.start >= w.end {
      return None, marker;
    }
    assert Sorted(events) by {
      assert forall i :: 0 <= i < |events| ==> events[i] == trace[marker + i];
    }
    var s := Status(false, false, false, false, events[0].at);
    var previous := events[0].at;
    var dirtyBusy, eligible := 0, 0;
    for i := 0 to |events|
      invariant s == After(events, i) && previous == if i == 0 then events[0].at else events[i - 1].at
      invariant dirtyBusy == Instants(DirtyBusy, events, w.start, Min(previous, w.end))
      invariant eligible == Instants(Eligible, events, w.start, Min(previous, w.end))
    {
      var at := events[i].at;
      if i > 0 {
        ClipCounts(DirtyBusy, events, i, w);
        ClipCounts(Eligible, events, i, w);
      }
      if s.dirty && s.busy && s.visible && !s.closed {
        dirtyBusy := dirtyBusy + Max(0, Min(at, w.end) - Max(previous, w.start));
        eligible := eligible + Max(0, Min(at, w.end) - Max(Max(previous, w.start), s.deadline));
      }
      previous := at;
      s := Replay(s, events[i]);
    }
    totals := Some(Totals(dirtyBusy, eligible));
  }

  /** What the analyses of two adjacent windows report adds up to what that of
      their union reports, and eligible time never exceeds dirty and busy time. */
  lemma TotalsAddUp(q: Question, events: seq<Event>, start: int, mid: int, end: int)
    requires events != [] && start <= mid <= end
    requires Clipped(events, Some(Window(start, mid))).start < Clipped(events, Some(Window(start, mid))).end
    requires Clipped(events, Some(Window(mid, end))).start < Clipped(events, Some(Window(mid, end))).end
    ensures var a, b, c := Clipped(events, Some(Window(start, mid))), Clipped(events, Some(Window(mid, end))), Clipped(events, Some(Window(start, end)));
      Instants(q, events, a.start, a.end) + Instants(q, events, b.start, b.end) == Instants(q, events, c.start, c.end)
    ensures var c := Clipped(events, Some(Window(start, end)));
      Instants(Eligible, events, c.start, c.end) <= Instants(DirtyBusy, events, c.start, c.end)
  {
    var c := Clipped(events, Some(Window(start, end)));
    AdjacentWindows(q, events, c.start, mid, c.end);
    EligibleIsDirtyBusy(events, c.start, c.end);
  }

  // ---- what the replayed state means

  /** The event carries the whole state in its flags. */
  predicate Stated(e: Event) { Flag(e.flags, 1) }

  predicate SpeaksOfBusy(e: Event) { Stated(e) || e.kind == WaitBegin || e.kind == CompleteBegin }
  predicate SpeaksOfClosed(e: Event) { Stated(e) || e.kind == CloseBegin }

  /** A request makes a window dirty only while it is open. */
  predicate SpeaksOfDirty(events: seq<Event>, i: nat)
    requires i < |events|
  {
    Stated(events[i]) || events[i].kind == PrepareBegin || (events[i].kind == RequestBegin && !After(events, i + 1).closed)
  }

  /** Before anything was said the window is idle, clean, open and hidden. */
  lemma {:induction false} Unspoken(events: seq<Event>, n: nat)
    requires events != [] && n <= |events|
    ensures (forall i :: 0 <= i < n ==> !SpeaksOfBusy(events[i])) ==> !After(events, n).busy
    ensures (forall i :: 0 <= i < n ==> !SpeaksOfClosed(events[i])) ==> !After(events, n).closed
    ensures (forall i :: 0 <= i < n ==> !SpeaksOfDirty(events, i)) ==> !After(events, n).dirty
    ensures (forall i :: 0 <= i < n ==> !Stated(events[i])) ==> !After(events, n).visible && After(events, n).deadline == events[0].at
    decreases n
  {
    hide Flag;
    if n > 0 {
      Unspoken(events, n - 1);
      if forall i :: 0 <= i < n ==> !SpeaksOfDirty(events, i) {
        assert !SpeaksOfDirty(events, n - 1);
      }
    }
  }

  /** The state after `n` events is what the last of them to speak of each part of it said. */
  lemma {:induction false} BusyIsLastWord(events: seq<Event>, n: nat, i: nat)
    requires i < n <= |events| && SpeaksOfBusy(events[i]) && forall j :: i < j < n ==> !SpeaksOfBusy(events[j])
    ensures After(events, n).busy <==>
      events[i].kind == WaitBegin || (events[i].kind != CompleteBegin && Flag(events[i].flags, 4))
    decreases n
  {
    hide Flag;
    if i < n - 1 {
      BusyIsLastWord(events, n - 1, i);
    }
  }

  lemma {:induction false} ClosedIsLastWord(events: seq<Event>, n: nat, i: nat)
    requires i < n <= |events| && SpeaksOfClosed(events[i]) && forall j :: i < j < n ==> !SpeaksOfClosed(events[j])
    ensures After(events, n).closed <==> events[i].kind == CloseBegin || Flag(events[i].flags, 16)
    decreases n
  {
    hide Flag;
    if i < n - 1 {
      ClosedIsLastWord(events, n - 1, i);
    }
  }

  lemma {:induction false} DirtyIsLastWord(events: seq<Event>, n: nat, i: nat)
    requires i < n <= |events| && SpeaksOfDirty(events, i) && forall j :: i < j < n ==> !SpeaksOfDirty(events, j)
    ensures After(events, n).dirty <==>
      (events[i].kind == RequestBegin && !After(events, i + 1).closed) || (events[i].kind != PrepareBegin && Flag(events[i].flags, 2))
    decreases n
  {
    hide Flag;
    if i < n - 1 {
      assert !SpeaksOfDirty(events, n - 1);
      DirtyIsLastWord(events, n - 1, i);
    }
  }

  lemma {:induction false} StatedIsLastWord(events: seq<Event>, n: nat, i: nat)
    requires i < n <= |events| && Stated(events[i]) && forall j :: i < j < n ==> !Stated(events[j])
    ensures After(events, n).visible <==> Flag(events[i].flags, 8)
    ensures After(events, n).deadline == events[i].value
    decreases n
  {
    hide Flag;
    if i < n - 1 {
      StatedIsLastWord(events, n - 1, i);
    }
  }

  /** The instants counted, in the fields of the state at each. */
  predicate CountedAt(q: Question, events: seq<Event>, t: int)
    requires events != []
  {
    var s := At(events, t);
    s.dirty && s.busy && s.visible && !s.closed && (q == Eligible ==> s.deadline <= t)
  }

  lemma {:induction false} InstantsAre(q: Question, events: seq<Event>, lo: int, hi: int)
    requires events != []
    ensures Instants(q, events, lo, hi) == |set t: int | lo <= t < hi && CountedAt(q, events, t)|
    decreases hi - lo
  {
    if hi <= lo {
      assert (set t: int | lo <= t < hi && CountedAt(q, events, t)) == {};
    } else {
      InstantsAre(q, events, lo, hi - 1);
      hide CountedAt, At;
      MeetsIsCounted(q, events, hi - 1);
      var before := set t: int | lo <= t < hi - 1 && CountedAt(q, events, t);
      var all := set t: int | lo <= t < hi && CountedAt(q, events, t);
      assert all == if CountedAt(q, events, hi - 1) then before + {hi - 1} else before;
    }
  }

  lemma MeetsIsCounted(q: Question, events: seq<Event>, t: int)
    requires events != []
    ensures Meets(q, At(events, t), t) == CountedAt(q, events, t)
  {}

  /** How many events have happened by an instant of a sorted trace: those not later. */
  lemma {:induction false} HappenedAre(events: seq<Event>, t: int)
    requires Sorted(events)
    ensures forall i :: 0 <= i < |events| ==> (i < Happened(events, t) <==> events[i].at <= t)
    decreases |events|
  {
    if events != [] {
      HappenedAre(events[..|events| - 1], t);
      if events[|events| - 1].at <= t {
        AllHappened(events, t);
      }
    }
  }
}
