/** The clipboard object both threads share (lib/window/linux/clipboard.c): the
    text and the slots' copies are fixed byte arrays with lengths. The window
    thread's entry points run as the source writes them, with the worker taking
    any number of steps between any two accesses. */
module ClipboardObjects {
  import opened Wire
  import opened Clipboards
  import opened ClipboardProgress

  /** A slot without its bytes. */
  datatype Head = Head(active: bool, fd: nat, len: nat, offset: nat)

  /** What the outside does at the worker's next step. */
  datatype Choice = Choice(event: Event, failed: bool, interrupted: bool)

  /** The kernel takes no more bytes than are left. */
  function Taken(s: State, event: Event): Event
    requires Shaped(s) && s.worker.Scanning?
  {
    var t := s.transfers[s.worker.index];
    if !event.Wrote? || event.count <= |t.bytes| - t.offset then event
    else if t.offset <= |t.bytes| then Wrote(|t.bytes| - t.offset)
    else Quiet
  }

  function WorkerAction(s: State, c: Choice): Option<Action>
    requires Shaped(s)
  {
    match s.worker
    case Top => Some(Check)
    case Watching(_) => Some(Watch)
    case Polling(_) => Some(Poll(c.failed, c.interrupted))
    case Scanning(_, _) => Some(Scan(Taken(s, c.event)))
    case Retiring(_, _) => Some(Retire)
    case Cleaning(_) => Some(Clean)
    case CleanRetiring(_) => Some(CleanRetire)
    case Ended => None
  }

  function WorkerNext(s: State, c: Choice): State
    requires Shaped(s) && (WorkerAction(s, c).Some? ==> Enabled(s, WorkerAction(s, c).value))
  {
    if WorkerAction(s, c).None? then s else Next(s, WorkerAction(s, c).value)
  }

  /** What any number of worker steps leaves alone: the clipboard, the window
      thread's place, every slot not in use; descriptors only gain bytes, and
      slots only go out of use. */
  predicate RanFrom(s: State, t: State) {
    && t.window == s.window && t.clip == s.clip && t.source == s.source && t.nextSource == s.nextSource
    && (s.stopping ==> t.stopping)
    && |t.requests| == |s.requests|
    && (forall k :: 0 <= k < |s.requests| ==>
          t.requests[k].snapshot == s.requests[k].snapshot && s.requests[k].written <= t.requests[k].written
          && s.requests[k].closes <= t.requests[k].closes)
    && |t.transfers| == |s.transfers|
    && (forall i :: 0 <= i < |s.transfers| ==>
          if s.transfers[i].active then t.transfers[i].fd == s.transfers[i].fd && t.transfers[i].bytes == s.transfers[i].bytes
          else t.transfers[i] == s.transfers[i])
  }

  /** The worker left its loop, to clean up. */
  predicate LoopLeft(s: State) {
    s.worker.Cleaning? || s.worker.CleanRetiring? || s.worker.Ended?
  }

  /** From `s` to `t` descriptors were closed only when complete, unless some look found
      a receiver lost, or the worker left its loop. */
  predicate ClosedForCause(s: State, t: State, choices: seq<Choice>) {
    |t.requests| == |s.requests|
    && forall k :: 0 <= k < |s.requests| && t.requests[k].closes > s.requests[k].closes ==>
         t.requests[k].written == t.requests[k].snapshot || LoopLeft(t) || exists i :: 0 <= i < |choices| && Lost(choices[i].event)
  }

  lemma StepForCause(s: State, c: Choice)
    requires Safe(s)
    ensures Shaped(s) && (WorkerAction(s, c).Some? ==> Enabled(s, WorkerAction(s, c).value))
    ensures ClosedForCause(s, WorkerNext(s, c), [c]) && (LoopLeft(s) ==> LoopLeft(WorkerNext(s, c)))
  {
    WorkerNextSafe(s, c);
    if s.worker.Scanning? {
      var event := Taken(s, c.event);
      assert [c][0] == c;
      forall k | 0 <= k < |s.requests| && WorkerNext(s, c).requests[k].closes > s.requests[k].closes
        ensures WorkerNext(s, c).requests[k].written == WorkerNext(s, c).requests[k].snapshot || Lost(c.event)
      {
        ScanCloses(s, event, k);
      }
    }
    hide Safe, ScanOne, Taken;
  }

  lemma CauseOn(s: State, t: State, u: State, choices: seq<Choice>, c: Choice)
    requires RanFrom(s, t) && RanFrom(t, u) && ClosedForCause(s, t, choices) && ClosedForCause(t, u, [c])
    requires LoopLeft(t) ==> LoopLeft(u)
    requires forall k :: 0 <= k < |u.requests| ==> u.requests[k].written <= u.requests[k].snapshot
    ensures ClosedForCause(s, u, choices + [c])
  {
    var more := choices + [c];
    assert more[|choices|] == c && forall i :: 0 <= i < |choices| ==> more[i] == choices[i];
  }

  predicate OfWorker(a: Action) {
    a.Check? || a.Watch? || a.Poll? || a.Scan? || a.Retire? || a.Clean? || a.CleanRetire?
  }

  lemma StepRan(s: State, a: Action)
    requires Shaped(s) && Enabled(s, a) && OfWorker(a)
    ensures RanFrom(s, Next(s, a))
  {
    if a.Scan? {
      ScanRan(s, a.event);
    } else {
      hide ScanOne;
    }
  }

  lemma ScanRan(s: State, event: Event)
    requires Shaped(s) && Enabled(s, Scan(event))
    ensures RanFrom(s, ScanOne(s, event))
  {
    var i := s.worker.index;
    if s.worker.watch[i] && event.Wrote? {
      WriteRan(s, i, event.count);
    }
    hide WriteMore;
  }

  lemma WriteRan(s: State, i: nat, count: nat)
    requires i < |s.transfers| && s.transfers[i].active && s.transfers[i].fd < |s.requests|
    requires s.transfers[i].offset + count <= |s.transfers[i].bytes|
    ensures RanFrom(s, WriteMore(s, i, count)) && WriteMore(s, i, count).worker == s.worker
  {}

  lemma WorkerNextSafe(s: State, c: Choice)
    requires Safe(s)
    ensures Shaped(s) && (WorkerAction(s, c).Some? ==> Enabled(s, WorkerAction(s, c).value))
    ensures Safe(WorkerNext(s, c)) && RanFrom(s, WorkerNext(s, c))
  {
    hide Safe, RanFrom, Next;
    SafeShaped(s);
    RanNowhere(s);
    var a := WorkerAction(s, c);
    if a.Some? {
      StepRan(s, a.value);
      StepSafe(s, a.value);
    }
  }

  lemma SafeShaped(s: State)
    requires Safe(s)
    ensures Shaped(s)
  {}

  lemma RanOn(s: State, t: State, u: State)
    requires RanFrom(s, t) && RanFrom(t, u)
    ensures RanFrom(s, u)
  {}

  class Clipboard {
    const text: array<byte>
    var len: nat
    const heads: array<Head>
    const pages: array2<byte>
    var source: nat
    var nextSource: nat
    var stopping: bool
    /** Where the worker is in its own loop. */
    var worker: Worker
    /** What the kernel knows of every descriptor handed over. */
    var requests: seq<Request>
    /** Where the window thread is, and what the slots hold. */
    ghost var window: Window
    ghost var slots: seq<Transfer>

    ghost predicate Tied(i: nat)
      requires i < heads.Length && i < pages.Length0 && i < |slots|
      reads this`slots, heads, pages
    {
      var h, t := heads[i], slots[i];
      && h.active == t.active && h.fd == t.fd && h.offset == t.offset && h.len == |t.bytes| <= pages.Length1
      && forall k :: 0 <= k < h.len ==> pages[i, k] == t.bytes[k]
    }

    ghost predicate Framed()
      reads this, text, heads, pages
    {
      && text.Length == LIMIT && len <= LIMIT
      && heads.Length == pages.Length0 == |slots| == TRANSFERS && pages.Length1 == LIMIT
      && forall i :: 0 <= i < TRANSFERS ==> Tied(i)
    }

    ghost function Contents(): State
      requires len <= text.Length
      reads this, text
    {
      State(slots, text[..len], source, nextSource, stopping, window, worker, requests)
    }

    ghost predicate Valid()
      reads this, text, heads, pages
    {
      Framed() && Safe(Contents())
    }

    constructor ()
      ensures Valid() && Contents() == Init() && fresh(text) && fresh(heads) && fresh(pages)
    {
      text := new byte[LIMIT](_ => 0);
      heads := new Head[TRANSFERS](_ => Head(false, 0, 0, 0));
      pages := new byte[TRANSFERS, LIMIT]((_, _) => 0);
      len, source, nextSource, stopping, window, worker, requests := 0, 0, 1, false, Idle, Top, [];
      slots := seq(TRANSFERS, i => Transfer(false, 0, [], 0));
      new;
      assert Contents() == Init();
      InitSafe();
    }

    method CloseDescriptor(fd: nat)
      requires fd < |requests|
      modifies this`requests
      ensures requests == old(requests)[fd := old(requests)[fd].(closes := old(requests)[fd].closes + 1)]
    {
      requests := requests[fd := requests[fd].(closes := requests[fd].closes + 1)];
    }

    method StoreActive(i: nat, active: bool)
      requires Framed() && i < TRANSFERS
      modifies heads, this`slots
      ensures Framed() && slots == old(slots)[i := old(slots)[i].(active := active)]
    {
      assert Tied(i);
      heads[i] := heads[i].(active := active);
      slots := slots[i := slots[i].(active := active)];
      forall j | 0 <= j < TRANSFERS ensures Tied(j) { assert old(Tied(j)); }
    }

    /** A write: the descriptor gets the slot's next `count` bytes. */
    method WriteBytes(i: nat, count: nat)
      requires Framed() && i < TRANSFERS && slots[i].fd < |requests| && slots[i].offset + count <= |slots[i].bytes|
      modifies heads, this`slots, this`requests
      ensures Framed()
      ensures slots == old(slots)[i := old(slots)[i].(offset := old(slots)[i].offset + count)]
      ensures var t := old(slots)[i];
        requests == old(requests)[t.fd := old(requests)[t.fd].(written := old(requests)[t.fd].written
                                                                          + t.bytes[t.offset..t.offset + count])]
    {
      assert Tied(i);
      var fd, from := heads[i].fd, heads[i].offset;
      ghost var bytes := slots[i].bytes;
      var chunk: seq<byte> := [];
      for k := 0 to count
        invariant chunk == bytes[from..from + k]
      {
        chunk := chunk + [pages[i, from + k]];
      }
      requests := requests[fd := requests[fd].(written := requests[fd].written + chunk)];
      heads[i] := heads[i].(offset := from + count);
      slots := slots[i := slots[i].(offset := from + count)];
      forall j | 0 <= j < TRANSFERS ensures Tied(j) { assert old(Tied(j)); }
    }

    /** The worker at one slot it watched: skip it, retire it, or write more. */
    method ScanSlot(event: Event)
      requires Framed() && Shaped(Contents()) && worker.Scanning? && Enabled(Contents(), Scan(Taken(Contents(), event)))
      modifies heads, this`slots, this`requests, this`worker
      ensures Framed() && Contents() == ScanOne(old(Contents()), Taken(old(Contents()), event))
      // Nothing is ready, or is to be tried again: the slot and its descriptor stay.
      ensures !old(worker.watch[worker.index]) || event.Quiet? || event.Retry? ==> slots == old(slots) && requests == old(requests)
      // A lost receiver: its descriptor is closed.
      ensures old(worker.watch[worker.index]) && Lost(event) ==>
        slots == old(slots) && old(slots[worker.index].fd) < |old(requests)|
        && requests == old(requests)[old(slots[worker.index].fd) :=
             old(requests[slots[worker.index].fd].(closes := requests[slots[worker.index].fd].closes + 1))]
    {
      var i, watch := worker.index, worker.watch;
      var retire := false;
      assert Tied(i);
      if watch[i] {
        match event {
          case Hangup => retire := true;
          case Broken => retire := true;
          case Wrote(count) =>
            var left := heads[i].len - heads[i].offset;
            WriteBytes(i, if count <= left then count else left);
            assert Tied(i);
            retire := heads[i].offset == heads[i].len;
          case _ =>
        }
        if retire {
          CloseDescriptor(heads[i].fd);
        }
      }
      worker := if retire then Retiring(i, watch) else AfterScan(i, watch);
    }

    /** At the top of the loop, watching the slots, or after poll. */
    method WatchSlots(c: Choice)
      requires Framed() && Shaped(Contents()) && (worker.Top? || worker.Watching? || worker.Polling?)
      modifies this`worker, this`stopping
      ensures Framed() && Contents() == WorkerNext(old(Contents()), c)
      ensures old(worker.Top?) ==> worker == if stopping then Cleaning(0) else Watching([])
      ensures old(worker.Watching?) ==> var more := old(worker.watch + [heads[|worker.watch|].active]);
        worker == if |more| == TRANSFERS then Polling(more) else Watching(more)
      ensures old(worker.Polling?) ==>
        worker == (if c.interrupted then Top else if c.failed then Cleaning(0) else Scanning(0, old(worker.watch)))
        && stopping == (old(stopping) || (c.failed && !c.interrupted))
    {
      if worker.Watching? {
        assert Tied(|worker.watch|);
      }
      match worker {
        case Top => worker := if stopping then Cleaning(0) else Watching([]);
        case Watching(watch) =>
          assert Tied(|watch|);
          var more := watch + [heads[|watch|].active];
          worker := if |more| == TRANSFERS then Polling(more) else Watching(more);
        case Polling(watch) =>
          if c.interrupted {
            worker := Top;
          } else if c.failed {
            stopping := true;
            worker := Cleaning(0);
          } else {
            worker := Scanning(0, watch);
          }
      }
    }

    /** Gives a closed slot back. */
    method GiveBack(c: Choice)
      requires Framed() && Shaped(Contents()) && (worker.Retiring? || worker.CleanRetiring?)
      modifies heads, this`slots, this`worker
      ensures Framed() && Contents() == WorkerNext(old(Contents()), c)
    {
      var i := worker.index;
      StoreActive(i, false);
      worker := if worker.Retiring? then AfterScan(i, worker.watch) else AfterClean(i);
    }

    /** The worker's own clean-up, at one slot. */
    method CleanOne(c: Choice)
      requires Framed() && Shaped(Contents()) && worker.Cleaning?
      modifies this`requests, this`worker
      ensures Framed() && Contents() == WorkerNext(old(Contents()), c)
    {
      var i := worker.index;
      assert Tied(i);
      if heads[i].active {
        CloseDescriptor(heads[i].fd);
        worker := CleanRetiring(i);
      } else {
        worker := AfterClean(i);
      }
    }

    /** One step of the worker. */
    method WorkerStep(c: Choice)
      requires Valid()
      modifies heads, this`slots, this`requests, this`worker, this`stopping
      ensures Valid() && Shaped(old(Contents())) && RanFrom(old(Contents()), Contents())
      ensures (WorkerAction(old(Contents()), c).Some? ==> Enabled(old(Contents()), WorkerAction(old(Contents()), c).value))
              && Contents() == WorkerNext(old(Contents()), c)
    {
      hide Safe, RanFrom, ScanOne, Taken, Tied, Shaped;
      WorkerNextSafe(Contents(), c);
      if worker.Top? || worker.Watching? || worker.Polling? {
        WatchSlots(c);
      } else if worker.Scanning? {
        ScanSlot(c.event);
      } else if worker.Retiring? || worker.CleanRetiring? {
        GiveBack(c);
      } else if worker.Cleaning? {
        CleanOne(c);
      }
    }

    /** The worker runs for a while: whatever it does, the clipboard, the window
        thread's place and every slot not in use stay as they were, descriptors
        only gain bytes of their snapshots, and none is closed twice. */
    method RunWorker(choices: seq<Choice>)
      requires Valid()
      modifies heads, this`slots, this`requests, this`worker, this`stopping
      ensures Valid() && RanFrom(old(Contents()), Contents())
      ensures forall k :: 0 <= k < |requests| ==> requests[k].closes <= 1 && requests[k].written <= requests[k].snapshot
      ensures ClosedForCause(old(Contents()), Contents(), choices)
    {
      hide Safe, RanFrom, Tied, ClosedForCause, LoopLeft, WorkerNext, WorkerAction;
      RanNowhere(Contents());
      for i := 0 to |choices|
        modifies heads, this`slots, this`requests, this`worker, this`stopping
        invariant Valid() && RanFrom(old(Contents()), Contents())
        invariant ClosedForCause(old(Contents()), Contents(), choices[..i])
      {
        ghost var before := Contents();
        StepForCause(before, choices[i]);
        WorkerStep(choices[i]);
        SafeRequests(Contents());
        CauseOn(old(Contents()), before, Contents(), choices[..i], choices[i]);
        assert choices[..i + 1] == choices[..i] + [choices[i]];
        RanOn(old(Contents()), before, Contents());
      }
      assert choices[..|choices|] == choices;
      SafeRequests(Contents());
    }

    // ---- the window thread's entry points

    /** A new offer replaces the clipboard, byte by byte, unless the worker
        stopped or failed; every hand-over already made keeps its own copy. */
    method PublishOffer(offer: array<byte>, accepted: bool) returns (ok: bool)
      requires Valid() && window.Idle? && offer != text
      modifies text, this`len, this`source, this`nextSource
      ensures Valid() && ok == (!stopping && offer.Length <= LIMIT && accepted)
      ensures ok ==> text[..len] == offer[..] && source == old(nextSource) && nextSource == source + 1
      ensures !ok ==> len == old(len) && text[..] == old(text[..]) && source == old(source) && nextSource == old(nextSource)
    {
      if stopping || offer.Length > LIMIT || !accepted {
        return false;
      }
      StepSafe(Contents(), Publish(offer[..], true));
      hide Safe, Tied;
      ghost var after := Next(Contents(), Publish(offer[..], true));
      len := offer.Length;
      for k := 0 to offer.Length
        modifies text
        invariant text[..k] == offer[..k]
      {
        text[k] := offer[k];
      }
      source, nextSource := nextSource, nextSource + 1;
      assert text[..len] == offer[..] && Contents() == after;
      ok := true;
    }

    /** Copies the clipboard into a slot the worker ignores. */
    method FillSlot(i: nat, fd: nat)
      requires Valid() && window == Filling(fd, i)
      modifies heads, pages, this`slots, this`window
      ensures Valid() && window == Filled(fd, i) && Contents() == old(Next(Contents(), Fill))
      ensures slots[i] == Transfer(false, fd, text[..len], 0)
    {
      FillingSlot(Contents());
      StepSafe(Contents(), Fill);
      hide Safe;
      assert Tied(i);
      heads[i] := Head(heads[i].active, fd, len, 0);
      for k := 0 to len
        modifies pages
        invariant forall m :: 0 <= m < k ==> pages[i, m] == text[m]
        invariant forall j, m :: 0 <= j < TRANSFERS && j != i && 0 <= m < LIMIT ==> pages[j, m] == old(pages[j, m])
      {
        pages[i, k] := text[k];
      }
      slots := slots[i := Transfer(slots[i].active, fd, text[..len], 0)];
      window := Filled(fd, i);
      forall j | 0 <= j < TRANSFERS ensures Tied(j) { assert old(Tied(j)); }
    }

    /** The start of a request: refused at once, or a slot is looked for. */
    method BeginSend(from: nat, known: bool, configured: bool) returns (refused: bool)
      requires Valid() && window.Idle?
      modifies this`requests, this`window
      ensures Valid() && refused == (stopping || from != source || !known || !configured)
      ensures window == if refused then Idle else Looking(|old(requests)|, 0)
      ensures requests == old(requests) + [Request(text[..len], [], if refused then 1 else 0)]
    {
      hide Safe, Tied;
      SafeShaped(Contents());
      StepSafe(Contents(), Send(from, known, configured));
      var fd: nat := |requests|;
      requests := requests + [Request(text[..len], [], 0)];
      refused := stopping || from != source || !known || !configured;
      if refused {
        CloseDescriptor(fd);
      } else {
        window := Looking(fd, 0);
      }
    }

    /** One look at a slot: taken when not in use; with none free the request is closed. */
    method LookAt(i: nat, fd: nat) returns (taken: bool)
      requires Valid() && window == Looking(fd, i)
      modifies this`requests, this`window
      ensures Valid() && |requests| == |old(requests)| && i < TRANSFERS && fd < |requests|
      ensures window == if taken then Filling(fd, i) else if i + 1 < TRANSFERS then Looking(fd, i + 1) else Idle
      ensures requests[fd] == Request(text[..len], [], if window.Idle? then 1 else 0)
    {
      hide Safe;
      SafeShaped(Contents());
      HeldRequest(Contents());
      StepSafe(Contents(), Look);
      assert Tied(i);
      taken := !heads[i].active;
      if taken {
        window := Filling(fd, i);
      } else if i + 1 < TRANSFERS {
        window := Looking(fd, i + 1);
      } else {
        CloseDescriptor(fd);
        window := Idle;
      }
    }

    /** Hands a filled slot to the worker. */
    method Activate(i: nat, fd: nat)
      requires Valid() && window == Filled(fd, i)
      modifies heads, this`slots, this`window
      ensures Valid() && window.Idle? && i < TRANSFERS && fd < |requests|
      ensures slots[i] == Transfer(true, fd, text[..len], 0) && requests[fd] == Request(text[..len], [], 0)
    {
      hide Safe;
      HeldRequest(Contents());
      FilledSlot(Contents());
      StepSafe(Contents(), Action.Activate);
      StoreActive(i, true);
      window := Idle;
    }

    /** One request for the clipboard: closed at once when the worker stopped, the
        source is old, the type unknown or the descriptor unfit, or when every slot
        is in use; else handed to the worker with a copy of the clipboard. The
        worker may take any steps between two looks at the slots. */
    method SendSelection(from: nat, known: bool, configured: bool, meanwhile: nat -> seq<Choice>)
      requires Valid() && window.Idle?
      modifies heads, pages, this`slots, this`requests, this`worker, this`stopping, this`window
      ensures Valid() && window.Idle? && |requests| == |old(requests)| + 1
      ensures var fd := |old(requests)|;
        requests[fd] == Request(old(text[..len]), [], requests[fd].closes)
        && (old(stopping) || from != source || !known || !configured ==> requests[fd].closes == 1)
        && (requests[fd].closes == 1
            || (requests[fd].closes == 0
                && exists i :: 0 <= i < TRANSFERS && slots[i] == Transfer(true, fd, old(text[..len]), 0)))
    {
      hide Safe, RanFrom, Tied;
      var fd: nat := |requests|;
      var refused := BeginSend(from, known, configured);
      if refused {
        return;
      }
      var i, taken := 0, false;
      while i < TRANSFERS && !taken
        modifies heads, this`slots, this`requests, this`worker, this`stopping, this`window
        invariant i <= TRANSFERS && Valid() && |requests| == fd + 1
        invariant window == if taken then Filling(fd, i) else if i < TRANSFERS then Looking(fd, i) else Idle
        invariant i == TRANSFERS ==> requests[fd] == Request(text[..len], [], 1)
        invariant taken ==> i < TRANSFERS
        decreases TRANSFERS - i, if taken then 0 else 1
      {
        ghost var before := Contents();
        RunWorker(meanwhile(i));
        RanKeeps(before, Contents());
        taken := LookAt(i, fd);
        if !taken {
          i := i + 1;
        }
      }
      if taken {
        HandOver(i, fd, meanwhile);
      }
    }

    /** A free slot was found: fill it and hand it to the worker. */
    method HandOver(i: nat, fd: nat, meanwhile: nat -> seq<Choice>)
      requires Valid() && window == Filling(fd, i)
      modifies heads, pages, this`slots, this`requests, this`worker, this`stopping, this`window
      ensures Valid() && window.Idle? && |requests| == |old(requests)| && i < TRANSFERS && fd < |requests|
      ensures slots[i] == Transfer(true, fd, text[..len], 0) && requests[fd] == Request(text[..len], [], 0)
    {
      hide Safe, RanFrom, Tied;
      ghost var found := Contents();
      RunWorker(meanwhile(TRANSFERS));
      RanKeeps(found, Contents());
      FillSlot(i, fd);
      ghost var filled := Contents();
      RunWorker(meanwhile(TRANSFERS + 1));
      RanKeeps(filled, Contents());
      Activate(i, fd);
    }

    /** The compositor dropped a source of ours: only the current one is forgotten,
        and no hand-over is touched. */
    method CancelSource(cancelled: nat)
      requires Valid() && window.Idle?
      modifies this`source
      ensures Valid() && source == if old(source) == cancelled then 0 else old(source)
    {
      hide Safe, Tied;
      SafeShaped(Contents());
      StepSafe(Contents(), Cancelled(cancelled));
      if source == cancelled {
        source := 0;
      }
    }

    /** The last pass of destroy at one slot: nothing else runs. */
    method FinishOne(i: nat)
      requires Valid() && window == Last(i)
      modifies heads, this`slots, this`requests, this`window
      ensures Valid() && |requests| == |old(requests)| && window == if i + 1 == TRANSFERS then Gone else Last(i + 1)
    {
      hide Safe;
      SafeShaped(Contents());
      StepSafe(Contents(), Final);
      assert Tied(i);
      if heads[i].active {
        CloseDescriptor(heads[i].fd);
        StoreActive(i, false);
      }
      window := if i + 1 == TRANSFERS then Gone else Last(i + 1);
    }

    method BeginDestroying()
      requires Valid() && window.Idle?
      modifies this`source, this`stopping, this`window
      ensures Valid() && stopping && window.Joining?
    {
      hide Safe, Tied;
      SafeShaped(Contents());
      StepSafe(Contents(), BeginDestroy);
      source := 0;
      stopping := true;
      window := Joining;
    }

    /** Destroy: the worker is told to stop and joined, and the last pass, alone
        now, closes every slot left in use. Once it is joined every descriptor
        ever handed over was closed exactly once. */
    method Destroy(choices: seq<Choice>) returns (joined: bool)
      requires Valid() && window.Idle?
      modifies heads, this`slots, this`requests, this`worker, this`stopping, this`window, this`source
      ensures Valid() && stopping && |requests| == |old(requests)|
      ensures joined <==> worker.Ended?
      ensures joined ==> window.Gone? && forall k :: 0 <= k < |requests| ==> requests[k].closes == 1
    {
      hide Safe, RanFrom, Tied;
      BeginDestroying();
      ghost var told := Contents();
      RunWorker(choices);
      RanKeeps(told, Contents());
      joined := worker.Ended?;
      if joined {
        SafeShaped(Contents());
        StepSafe(Contents(), Join);
        window := Last(0);
        for i := 0 to TRANSFERS
          modifies heads, this`slots, this`requests, this`window
          invariant Valid() && |requests| == |old(requests)| && window == if i == TRANSFERS then Gone else Last(i)
        {
          FinishOne(i);
        }
        GoneClosed(Contents());
      }
    }
  }

  lemma FilledSlot(s: State)
    requires Safe(s) && s.window.Filled?
    ensures s.window.index < |s.transfers| == TRANSFERS && s.transfers[s.window.index] == Transfer(false, s.window.fd, s.clip, 0)
  {}

  lemma RanKeeps(s: State, t: State)
    requires RanFrom(s, t)
    ensures t.window == s.window && |t.requests| == |s.requests| && (s.stopping ==> t.stopping)
    ensures |t.transfers| == |s.transfers|
    ensures forall i :: 0 <= i < |s.transfers| && !s.transfers[i].active ==> t.transfers[i] == s.transfers[i]
  {}

  /** What the window thread holds while it looks for a slot. */
  lemma HeldRequest(s: State)
    requires Safe(s) && (s.window.Looking? || s.window.Filling? || s.window.Filled?)
    ensures s.window.fd < |s.requests| && s.requests[s.window.fd] == Request(s.clip, [], 0) && Shaped(s)
  {}

  lemma FillingSlot(s: State)
    requires Safe(s) && s.window.Filling?
    ensures s.window.index < |s.transfers| == TRANSFERS && !s.transfers[s.window.index].active && Shaped(s)
  {}

  lemma RanNowhere(s: State)
    ensures RanFrom(s, s) && ClosedForCause(s, s, [])
  {}

  lemma SafeRequests(s: State)
    requires Safe(s)
    ensures forall k :: 0 <= k < |s.requests| ==> s.requests[k].closes <= 1 && s.requests[k].written <= s.requests[k].snapshot
  {
    forall k | 0 <= k < |s.requests|
      ensures s.requests[k].closes <= 1 && s.requests[k].written <= s.requests[k].snapshot
    {
      assert RequestOk(s.requests[k]);
    }
  }
}
