/** What the clipboard's worker does for a transfer: it is closed early only for
    cause, and a round of the loop in which the pipes take everything delivers every
    transfer in use (lib/window/linux/clipboard.c). */
module ClipboardProgress {
  import opened Wire
  import opened Clipboards

  /** The receiver hung up or took too long, or the write failed for good. */
  predicate Lost(event: Event) {
    event.Hangup? || event.Broken?
  }

  /** A look at a slot that was not watched, has no room in its pipe, or is to be tried
      again leaves every slot and request as it was. */
  lemma NothingReady(s: State, event: Event)
    requires Safe(s) && Enabled(s, Scan(event)) && (!s.worker.watch[s.worker.index] || event.Quiet? || event.Retry?)
    ensures var t := Next(s, Scan(event)); t.transfers == s.transfers && t.requests == s.requests
  {}

  /** A write that takes `count` bytes hands over exactly the next `count` bytes of the
      snapshot, and closes the descriptor exactly when that was the last of them. */
  lemma WriteDelivers(s: State, count: nat)
    requires Safe(s) && Enabled(s, Scan(Wrote(count))) && s.worker.watch[s.worker.index]
    ensures s.transfers[s.worker.index].fd < |s.requests|
    ensures var i, t := s.worker.index, Next(s, Scan(Wrote(count)));
      var fd, end := s.transfers[i].fd, s.transfers[i].offset + count;
      && end <= |s.requests[fd].snapshot|
      && t.requests == s.requests[fd := Request(s.requests[fd].snapshot, s.requests[fd].snapshot[..end],
                                                if end == |s.requests[fd].snapshot| then 1 else 0)]
      && t.transfers == s.transfers[i := s.transfers[i].(offset := end)]
      && t.worker == if end == |s.requests[fd].snapshot| then Retiring(i, s.worker.watch) else AfterScan(i, s.worker.watch)
  {
    var i := s.worker.index;
    assert SlotOk(s, i);
    var x := s.transfers[i];
    assert x.bytes[..x.offset] + x.bytes[x.offset..x.offset + count] == x.bytes[..x.offset + count];
  }

  /** A lost receiver costs its own transfer only: the descriptor is closed with what
      it got, and everything else is as it was. */
  lemma LostCloses(s: State, event: Event)
    requires Safe(s) && Enabled(s, Scan(event)) && s.worker.watch[s.worker.index] && Lost(event)
    ensures s.transfers[s.worker.index].fd < |s.requests|
    ensures var fd, t := s.transfers[s.worker.index].fd, Next(s, Scan(event));
      t.requests == s.requests[fd := s.requests[fd].(closes := 1)] && t.transfers == s.transfers
  {
    assert SlotOk(s, s.worker.index);
  }

  /** A scan closes a descriptor only when its whole snapshot is then written or its
      receiver was lost. */
  lemma ScanCloses(s: State, event: Event, k: nat)
    requires Safe(s) && Enabled(s, Scan(event)) && k < |s.requests|
    ensures var t := Next(s, Scan(event));
      |t.requests| == |s.requests|
      && (t.requests[k].closes > s.requests[k].closes ==>
            t.requests[k].written == t.requests[k].snapshot
            || (Lost(event) && s.worker.watch[s.worker.index] && s.transfers[s.worker.index].fd == k))
  {
    if !s.worker.watch[s.worker.index] || event.Quiet? || event.Retry? {
      NothingReady(s, event);
    } else if event.Wrote? {
      WriteDelivers(s, event.count);
    } else {
      LostCloses(s, event);
    }
  }

  // ---- over runs

  /** The requests handed to the worker in a run. */
  function HandedOver(s: State, actions: seq<Action>): set<nat>
    requires IsRun(s, actions)
    decreases actions
  {
    if actions == [] then {} else HandedNow(s, actions[0]) + HandedOver(Next(s, actions[0]), actions[1..])
  }

  function HandedNow(s: State, a: Action): set<nat> {
    if a.Activate? && s.window.Filled? then {s.window.fd} else {}
  }

  /** The requests whose receiver was found lost in a run. */
  function LostOver(s: State, actions: seq<Action>): set<nat>
    requires IsRun(s, actions)
    decreases actions
  {
    if actions == [] then {} else LostNow(s, actions[0]) + LostOver(Next(s, actions[0]), actions[1..])
  }

  function LostNow(s: State, a: Action): set<nat>
    requires Shaped(s) && Enabled(s, a)
  {
    if a.Scan? && Lost(a.event) && s.worker.watch[s.worker.index] then {s.transfers[s.worker.index].fd} else {}
  }

  /** What stops the worker: destruction, or a poll that fails. */
  predicate Stops(a: Action) {
    a.BeginDestroy? || (a.Poll? && a.failed && !a.interrupted)
  }

  predicate Ending(s: State) {
    s.worker.Cleaning? || s.worker.CleanRetiring? || s.worker.Ended? || s.window.Joining? || s.window.Last? || s.window.Gone?
  }

  /** Every request handed over, and not lost, is complete if closed. */
  predicate Delivered(s: State, handed: set<nat>, lost: set<nat>) {
    && (Ending(s) ==> s.stopping)
    && (forall k :: k in handed ==> k < |s.requests| && !InWindow(s, k))
    && (!s.stopping ==>
          forall k :: k in handed && k !in lost && s.requests[k].closes > 0 ==> s.requests[k].written == s.requests[k].snapshot)
  }

  lemma StepDelivered(s: State, a: Action, handed: set<nat>, lost: set<nat>)
    requires Safe(s) && Enabled(s, a) && Delivered(s, handed, lost)
    ensures Delivered(Next(s, a), handed + HandedNow(s, a), lost + LostNow(s, a))
    ensures Next(s, a).stopping <==> s.stopping || Stops(a)
  {
    var t := Next(s, a);
    if a.Scan? {
      ScanDelivered(s, a.event, handed, lost);
    } else {
      forall k | k in handed ensures k < |t.requests| && !InWindow(t, k) {
        assert k < |s.requests| && !InWindow(s, k);
      }
      hide Safe, Delivered, ScanOne;
      assert Delivered(s, handed, lost);
      NotByScan(s, a, handed, lost);
    }
  }

  lemma ScanDelivered(s: State, event: Event, handed: set<nat>, lost: set<nat>)
    requires Safe(s) && Enabled(s, Scan(event)) && Delivered(s, handed, lost)
    ensures Delivered(Next(s, Scan(event)), handed, lost + LostNow(s, Scan(event)))
    ensures Next(s, Scan(event)).stopping == s.stopping
  {
    var t := Next(s, Scan(event));
    forall k | k in handed && !t.stopping && k !in lost + LostNow(s, Scan(event)) && t.requests[k].closes > 0
      ensures t.requests[k].written == t.requests[k].snapshot
    {
      ScanCloses(s, event, k);
      WritesOnlyWhileOpen(s, Scan(event), k);
      StepSafe(s, Scan(event));
      assert RequestOk(t.requests[k]) && RequestOk(s.requests[k]);
    }
    ScanKeepsWindow(s, event);
  }

  lemma ScanKeepsWindow(s: State, event: Event)
    requires Safe(s) && Enabled(s, Scan(event))
    ensures var t := Next(s, Scan(event));
      t.window == s.window && t.stopping == s.stopping && |t.requests| == |s.requests| && (Ending(t) ==> Ending(s))
  {}

  lemma NotByScan(s: State, a: Action, handed: set<nat>, lost: set<nat>)
    requires Safe(s) && Enabled(s, a) && Delivered(s, handed, lost) && !a.Scan?
    ensures Delivered(Next(s, a), handed + HandedNow(s, a), lost)
    ensures Next(s, a).stopping <==> s.stopping || Stops(a)
  {
    hide Safe, Delivered, Next;
    if a.Check? || a.Watch? || a.Poll? || a.Retire? || a.Clean? || a.CleanRetire? {
      assert HandedNow(s, a) == {} && handed + {} == handed;
      WorkerDelivered(s, a, handed, lost);
    } else {
      WindowDelivered(s, a, handed, lost);
    }
  }

  lemma WorkerDelivered(s: State, a: Action, handed: set<nat>, lost: set<nat>)
    requires Safe(s) && Enabled(s, a) && Delivered(s, handed, lost)
    requires a.Check? || a.Watch? || a.Poll? || a.Retire? || a.Clean? || a.CleanRetire?
    ensures Delivered(Next(s, a), handed, lost)
    ensures Next(s, a).stopping <==> s.stopping || Stops(a)
  {
    hide SlotOk, Held, WorkerOk, RequestOk, WindowOk;
  }

  lemma WindowDelivered(s: State, a: Action, handed: set<nat>, lost: set<nat>)
    requires Safe(s) && Enabled(s, a) && Delivered(s, handed, lost)
    requires !(a.Scan? || a.Check? || a.Watch? || a.Poll? || a.Retire? || a.Clean? || a.CleanRetire?)
    ensures Delivered(Next(s, a), handed + HandedNow(s, a), lost)
    ensures Next(s, a).stopping <==> s.stopping || Stops(a)
  {
    hide SlotOk, Held, WorkerOk, RequestOk;
  }

  lemma {:induction false} RunDelivered(s: State, actions: seq<Action>, handed: set<nat>, lost: set<nat>)
    requires Safe(s) && IsRun(s, actions) && Delivered(s, handed, lost)
    ensures Delivered(After(s, actions), handed + HandedOver(s, actions), lost + LostOver(s, actions))
    ensures After(s, actions).stopping <==> s.stopping || exists i :: 0 <= i < |actions| && Stops(actions[i])
    decreases actions
  {
    hide Safe, Delivered;
    if actions == [] {
      assert handed + {} == handed && lost + {} == lost;
    } else {
      var a, rest := actions[0], actions[1..];
      StepSafe(s, a);
      StepDelivered(s, a, handed, lost);
      RunDelivered(Next(s, a), rest, handed + HandedNow(s, a), lost + LostNow(s, a));
      assert handed + HandedNow(s, a) + HandedOver(Next(s, a), rest) == handed + HandedOver(s, actions);
      assert lost + LostNow(s, a) + LostOver(Next(s, a), rest) == lost + LostOver(s, actions);
      assert forall i :: 0 <= i < |rest| ==> rest[i] == actions[i + 1];
    }
  }

  /** Under every interleaving in which neither destruction began nor poll failed, a
      request handed to the worker is closed only with its whole snapshot written, unless
      its receiver was lost. */
  lemma ClosedIsComplete(actions: seq<Action>, k: nat)
    requires IsRun(Init(), actions) && forall i :: 0 <= i < |actions| ==> !Stops(actions[i])
    requires k in HandedOver(Init(), actions) && k !in LostOver(Init(), actions)
    ensures var s := After(Init(), actions);
      k < |s.requests| && (s.requests[k].closes > 0 ==> s.requests[k].written == s.requests[k].snapshot)
  {
    RunDelivered(Init(), actions, {}, {});
    assert {} + HandedOver(Init(), actions) == HandedOver(Init(), actions);
    assert {} + LostOver(Init(), actions) == LostOver(Init(), actions);
  }

  // ---- one round of the loop

  lemma Prepend(s: State, a: Action, rest: seq<Action>)
    requires Shaped(s) && Enabled(s, a) && IsRun(Next(s, a), rest)
    ensures IsRun(s, [a] + rest) && After(s, [a] + rest) == After(Next(s, a), rest)
  {
    assert ([a] + rest)[1..] == rest && ([a] + rest)[0] == a;
  }

  /** The slots the worker has been at are given back, and those it has not are watched
      exactly when in use. */
  predicate Served(s: State, n: nat, watch: seq<bool>) {
    && |s.transfers| == TRANSFERS == |watch| && !s.stopping
    && (forall j :: 0 <= j < TRANSFERS ==> s.transfers[j].active == if j < n then false else watch[j])
  }

  /** Whoever held a slot in `s` is complete and closed in `t`, from slot `n` on. */
  predicate AllDelivered(s: State, t: State, n: nat) {
    && |s.transfers| == TRANSFERS && |t.requests| == |s.requests| && t.window == s.window && t.clip == s.clip
    && (forall j :: n <= j < TRANSFERS && s.transfers[j].active ==>
          var fd := s.transfers[j].fd;
          fd < |s.requests| && t.requests[fd] == Request(s.requests[fd].snapshot, s.requests[fd].snapshot, 1))
    && (forall k :: 0 <= k < |s.requests| && s.requests[k].closes > 0 ==> t.requests[k] == s.requests[k])
  }

  /** At a slot in use the pipe takes all that is left: the slot is complete, closed and given back. */
  lemma ServeOne(s: State) returns (left: nat)
    requires Safe(s) && s.worker.Scanning? && Served(s, s.worker.index, s.worker.watch) && s.worker.watch[s.worker.index]
    ensures Enabled(s, Scan(Wrote(left)))
    ensures var u := Next(s, Scan(Wrote(left)));
      && Safe(u) && Enabled(u, Retire)
      && var t, i := Next(u, Retire), s.worker.index;
         && Safe(t) && t.worker == AfterScan(i, s.worker.watch) && Served(t, i + 1, s.worker.watch)
         && s.transfers[i].fd < |s.requests|
         && t.requests == s.requests[s.transfers[i].fd := Request(s.requests[s.transfers[i].fd].snapshot,
                                                                 s.requests[s.transfers[i].fd].snapshot, 1)]
         && t.transfers == s.transfers[i := t.transfers[i]] && t.window == s.window && t.clip == s.clip
  {
    var i := s.worker.index;
    assert SlotOk(s, i);
    left := |s.transfers[i].bytes| - s.transfers[i].offset;
    WriteDelivers(s, left);
    var fd := s.transfers[i].fd;
    assert s.requests[fd].snapshot[..|s.requests[fd].snapshot|] == s.requests[fd].snapshot;
    var u := Next(s, Scan(Wrote(left)));
    StepSafe(s, Scan(Wrote(left)));
    StepSafe(u, Retire);
    WroteKeeps(s, left);
  }

  lemma WroteKeeps(s: State, count: nat)
    requires Safe(s) && Enabled(s, Scan(Wrote(count)))
    ensures var t := Next(s, Scan(Wrote(count))); t.window == s.window && t.clip == s.clip && t.stopping == s.stopping
  {}

  lemma {:induction false} ServeRest(s: State) returns (actions: seq<Action>)
    requires Safe(s) && s.worker.Scanning? && Served(s, s.worker.index, s.worker.watch)
    ensures IsRun(s, actions)
    ensures var t := After(s, actions);
      t.worker.Top? && Served(t, TRANSFERS, s.worker.watch) && AllDelivered(s, t, s.worker.index)
    decreases TRANSFERS - s.worker.index
  {
    var i := s.worker.index;
    if s.worker.watch[i] {
      var left := ServeOne(s);
      var u := Next(s, Scan(Wrote(left)));
      var t := Next(u, Retire);
      var rest := [];
      if i + 1 < TRANSFERS {
        rest := ServeRest(t);
      }
      OneDelivered(s, t, After(t, rest));
      Prepend(u, Retire, rest);
      Prepend(s, Scan(Wrote(left)), [Retire] + rest);
      actions := [Scan(Wrote(left))] + ([Retire] + rest);
    } else {
      NothingReady(s, Quiet);
      StepSafe(s, Scan(Quiet));
      var t := Next(s, Scan(Quiet));
      var rest := [];
      if i + 1 < TRANSFERS {
        rest := ServeRest(t);
      }
      Prepend(s, Scan(Quiet), rest);
      actions := [Scan(Quiet)] + rest;
    }
  }

  lemma OneDelivered(s: State, t: State, u: State)
    requires Safe(s) && s.worker.Scanning? && Served(s, s.worker.index, s.worker.watch) && s.worker.watch[s.worker.index]
    requires s.transfers[s.worker.index].fd < |s.requests|
    requires t.requests == s.requests[s.transfers[s.worker.index].fd :=
               Request(s.requests[s.transfers[s.worker.index].fd].snapshot, s.requests[s.transfers[s.worker.index].fd].snapshot, 1)]
    requires |t.transfers| == |s.transfers| && t.window == s.window && t.clip == s.clip
    requires forall j :: 0 <= j < TRANSFERS && j != s.worker.index ==> t.transfers[j] == s.transfers[j]
    requires AllDelivered(t, u, s.worker.index + 1)
    ensures AllDelivered(s, u, s.worker.index)
  {
    var i := s.worker.index;
    assert SlotOk(s, i);
    forall j | i <= j < TRANSFERS && s.transfers[j].active
      ensures var fd := s.transfers[j].fd;
        fd < |s.requests| && u.requests[fd] == Request(s.requests[fd].snapshot, s.requests[fd].snapshot, 1)
    {
      assert SlotOk(s, j);
      if j == i {
        assert u.requests[s.transfers[i].fd] == t.requests[s.transfers[i].fd];
      } else {
        assert t.transfers[j] == s.transfers[j] && t.requests[s.transfers[j].fd] == s.requests[s.transfers[j].fd];
      }
    }
    forall k | 0 <= k < |s.requests| && s.requests[k].closes > 0 ensures u.requests[k] == s.requests[k] {
      assert t.requests[k] == s.requests[k];
    }
  }

  predicate CanWatch(s: State) {
    Shaped(s) && Enabled(s, Watch)
  }

  /** One look at each slot: those in use are watched. */
  lemma WatchAll(s: State)
    requires Safe(s) && s.worker.Top? && !s.stopping
    ensures Enabled(s, Check) && CanWatch(Next(s, Check)) && CanWatch(Next(Next(s, Check), Watch))
    ensures CanWatch(Next(Next(Next(s, Check), Watch), Watch)) && CanWatch(Next(Next(Next(Next(s, Check), Watch), Watch), Watch))
    ensures var t := Next(Next(Next(Next(Next(s, Check), Watch), Watch), Watch), Watch);
      Safe(t) && t.worker.Polling? && t == s.(worker := t.worker) && Served(t, 0, t.worker.watch)
  {
    StepSafe(s, Check);
    StepSafe(Next(s, Check), Watch);
    StepSafe(Next(Next(s, Check), Watch), Watch);
    StepSafe(Next(Next(Next(s, Check), Watch), Watch), Watch);
    StepSafe(Next(Next(Next(Next(s, Check), Watch), Watch), Watch), Watch);
    hide SlotOk, Held, RequestOk, WindowOk, WorkerOk;
  }

  lemma PollServes(s: State)
    requires Safe(s) && s.worker.Polling? && Served(s, 0, s.worker.watch)
    ensures Enabled(s, Poll(false, false)) && Shaped(s)
    ensures var t := Next(s, Poll(false, false));
      Safe(t) && t.worker == Scanning(0, s.worker.watch) && t == s.(worker := t.worker) && Served(t, 0, s.worker.watch)
  {
    StepSafe(s, Poll(false, false));
    hide SlotOk, Held, RequestOk, WindowOk, WorkerOk;
  }

  /** From the top of its loop the worker, when every pipe takes all it is given,
      writes every transfer in use to its end, closes it and gives its slot back
      within one round: whatever is in use when the round starts is watched and served. */
  lemma RoundDelivers(s: State) returns (actions: seq<Action>)
    requires Safe(s) && s.worker.Top? && !s.stopping
    ensures IsRun(s, actions)
    ensures var t := After(s, actions);
      t.worker.Top? && (forall j :: 0 <= j < |t.transfers| ==> !t.transfers[j].active) && AllDelivered(s, t, 0)
  {
    hide Safe, Served;
    WatchAll(s);
    var w0 := Next(s, Check);
    var w1 := Next(w0, Watch);
    var w2 := Next(w1, Watch);
    var w3 := Next(w2, Watch);
    var w4 := Next(w3, Watch);
    PollServes(w4);
    var rest := ServeRest(Next(w4, Poll(false, false)));
    hide Next;
    Prepend(w4, Poll(false, false), rest);
    Prepend(w3, Watch, [Poll(false, false)] + rest);
    Prepend(w2, Watch, [Watch] + ([Poll(false, false)] + rest));
    Prepend(w1, Watch, [Watch] + ([Watch] + ([Poll(false, false)] + rest)));
    Prepend(w0, Watch, [Watch] + ([Watch] + ([Watch] + ([Poll(false, false)] + rest))));
    Prepend(s, Check, [Watch] + ([Watch] + ([Watch] + ([Watch] + ([Poll(false, false)] + rest)))));
    actions := [Check] + ([Watch] + ([Watch] + ([Watch] + ([Watch] + ([Poll(false, false)] + rest)))));
  }
}
