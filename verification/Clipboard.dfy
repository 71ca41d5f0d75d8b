/** The clipboard's hand-over between the window thread and its worker
    (lib/window/linux/clipboard.c). Each action is one access to what the
    threads share, so the theorems hold under every interleaving. */
module Clipboards {
  import opened Wire

  const TRANSFERS: nat := 4
  const LIMIT: nat := 1024 * 1024

  /** One transfer slot. `fd` is the request whose descriptor it holds. */
  datatype Transfer = Transfer(active: bool, fd: nat, bytes: seq<byte>, offset: nat)

  /** History of one call of send_selection: the clipboard at the call, what was
      written to its descriptor, how often that was closed. */
  datatype Request = Request(snapshot: seq<byte>, written: seq<byte>, closes: nat)

  datatype Window =
    | Idle
    | Looking(fd: nat, index: nat)
    | Filling(fd: nat, index: nat)
    | Filled(fd: nat, index: nat)
    | Joining
    | Last(index: nat)
    | Gone

  datatype Worker =
    | Top
    | Watching(watch: seq<bool>)
    | Polling(watch: seq<bool>)
    | Scanning(index: nat, watch: seq<bool>)
    | Retiring(index: nat, watch: seq<bool>)
    | Cleaning(index: nat)
    | CleanRetiring(index: nat)
    | Ended

  datatype State = State(
    transfers: seq<Transfer>, clip: seq<byte>, source: nat, nextSource: nat, stopping: bool,
    window: Window, worker: Worker, requests: seq<Request>)

  /** What one look at a watched descriptor comes to; a deadline that passed counts as
      the receiver hanging up. */
  datatype Event = Quiet | Hangup | Broken | Retry | Wrote(count: nat)

  datatype Action =
    | Publish(bytes: seq<byte>, accepted: bool)
    | Cancelled(source: nat)
    | Send(source: nat, known: bool, configured: bool)
    | Look
    | Fill
    | Activate
    | BeginDestroy
    | Join
    | Final
    | Check
    | Watch
    | Poll(failed: bool, interrupted: bool)
    | Scan(event: Event)
    | Retire
    | Clean
    | CleanRetire

  function Init(): State {
    State(seq(TRANSFERS, i => Transfer(false, 0, [], 0)), [], 0, 1, false, Idle, Top, [])
  }

  predicate Shaped(s: State) {
    && |s.transfers| == TRANSFERS
    && (match s.window
        case Looking(fd, i) => fd < |s.requests| && i < TRANSFERS
        case Filling(fd, i) => fd < |s.requests| && i < TRANSFERS
        case Filled(fd, i) => fd < |s.requests| && i < TRANSFERS
        case Last(i) => i < TRANSFERS
        case _ => true)
    && (match s.worker
        case Watching(watch) => |watch| < TRANSFERS
        case Polling(watch) => |watch| == TRANSFERS
        case Scanning(i, watch) => i < TRANSFERS && |watch| == TRANSFERS && (watch[i] ==> s.transfers[i].active)
        case Retiring(i, watch) => i < TRANSFERS && |watch| == TRANSFERS
        case Cleaning(i) => i < TRANSFERS
        case CleanRetiring(i) => i < TRANSFERS
        case _ => true)
    && (forall i :: 0 <= i < TRANSFERS && s.transfers[i].active ==>
          s.transfers[i].fd < |s.requests| && s.transfers[i].offset <= |s.transfers[i].bytes|)
  }

  function Close(s: State, fd: nat): State
    requires fd < |s.requests|
  {
    s.(requests := s.requests[fd := s.requests[fd].(closes := s.requests[fd].closes + 1)])
  }

  function SetActive(s: State, i: nat, active: bool): State
    requires i < |s.transfers|
  {
    s.(transfers := s.transfers[i := s.transfers[i].(active := active)])
  }

  function AfterScan(i: nat, watch: seq<bool>): Worker {
    if i + 1 == TRANSFERS then Top else Scanning(i + 1, watch)
  }

  function AfterClean(i: nat): Worker {
    if i + 1 == TRANSFERS then Ended else Cleaning(i + 1)
  }

  /** Window-thread entry points run only between others, and none after destroy began. */
  predicate Enabled(s: State, a: Action) {
    match a
    case Publish(_, _) => s.window.Idle?
    case Cancelled(_) => s.window.Idle?
    case Send(_, _, _) => s.window.Idle?
    case Look => s.window.Looking?
    case Fill => s.window.Filling?
    case Activate => s.window.Filled?
    case BeginDestroy => s.window.Idle?
    case Join => s.window.Joining? && s.worker.Ended?
    case Final => s.window.Last?
    case Check => s.worker.Top?
    case Watch => s.worker.Watching?
    case Poll(_, _) => s.worker.Polling?
    case Scan(event) =>
      s.worker.Scanning? && s.worker.index < |s.transfers| &&
      (event.Wrote? ==> event.count <= |s.transfers[s.worker.index].bytes| - s.transfers[s.worker.index].offset)
    case Retire => s.worker.Retiring?
    case Clean => s.worker.Cleaning?
    case CleanRetire => s.worker.CleanRetiring?
  }

  function Next(s: State, a: Action): State
    requires Shaped(s) && Enabled(s, a)
  {
    match a
    case Publish(bytes, accepted) =>
      if s.stopping || |bytes| > LIMIT || !accepted then s
      else s.(clip := bytes, source := s.nextSource, nextSource := s.nextSource + 1)
    case Cancelled(source) =>
      if s.source == source then s.(source := 0) else s
    case Send(source, known, configured) =>
      var t := s.(requests := s.requests + [Request(s.clip, [], 0)]);
      if s.stopping || source != s.source || !known || !configured then Close(t, |s.requests|)
      else t.(window := Looking(|s.requests|, 0))
    case Look =>
      var fd, i := s.window.fd, s.window.index;
      if !s.transfers[i].active then s.(window := Filling(fd, i))
      else if i + 1 < TRANSFERS then s.(window := Looking(fd, i + 1))
      else Close(s, fd).(window := Idle)
    case Fill =>
      var i := s.window.index;
      s.(transfers := s.transfers[i := Transfer(s.transfers[i].active, s.window.fd, s.clip, 0)], window := Filled(s.window.fd, i))
    case Activate =>
      SetActive(s, s.window.index, true).(window := Idle)
    case BeginDestroy => s.(source := 0, stopping := true, window := Joining)
    case Join => s.(window := Last(0))
    case Final =>
      var i := s.window.index;
      var t := if s.transfers[i].active then SetActive(Close(s, s.transfers[i].fd), i, false) else s;
      t.(window := if i + 1 == TRANSFERS then Gone else Last(i + 1))
    case Check => s.(worker := if s.stopping then Cleaning(0) else Watching([]))
    case Watch =>
      var watch := s.worker.watch + [s.transfers[|s.worker.watch|].active];
      s.(worker := if |watch| == TRANSFERS then Polling(watch) else Watching(watch))
    case Poll(failed, interrupted) =>
      if interrupted then s.(worker := Top)
      else if failed then s.(stopping := true, worker := Cleaning(0))
      else s.(worker := Scanning(0, s.worker.watch))
    case Scan(event) => ScanOne(s, event)
    case Retire => SetActive(s, s.worker.index, false).(worker := AfterScan(s.worker.index, s.worker.watch))
    case Clean =>
      var i := s.worker.index;
      if s.transfers[i].active then Close(s, s.transfers[i].fd).(worker := CleanRetiring(i))
      else s.(worker := AfterClean(i))
    case CleanRetire => SetActive(s, s.worker.index, false).(worker := AfterClean(s.worker.index))
  }

  /** The worker at one slot it watched: retire it, skip it, or write more. */
  function ScanOne(s: State, event: Event): State
    requires Shaped(s) && Enabled(s, Scan(event))
  {
    var i, watch := s.worker.index, s.worker.watch;
    var skip := s.(worker := AfterScan(i, watch));
    if !watch[i] then skip
    else
      var t := s.transfers[i];
      var retire := Close(s, t.fd).(worker := Retiring(i, watch));
      match event
      case Quiet => skip
      case Retry => skip
      case Hangup => retire
      case Broken => retire
      case Wrote(count) =>
        var u := WriteMore(s, i, count);
        if t.offset + count == |t.bytes| then Close(u, t.fd).(worker := Retiring(i, watch)) else u.(worker := AfterScan(i, watch))
  }

  /** `count` more bytes of a slot reach its descriptor. */
  function WriteMore(s: State, i: nat, count: nat): State
    requires i < |s.transfers| && s.transfers[i].fd < |s.requests|
    requires s.transfers[i].offset + count <= |s.transfers[i].bytes|
  {
    var t := s.transfers[i];
    var r, end := s.requests[t.fd], t.offset + count;
    s.(transfers := s.transfers[i := t.(offset := end)],
       requests := s.requests[t.fd := r.(written := r.written + t.bytes[t.offset..end])])
  }

  // ---- what always holds

  /** The slot whose descriptor the worker closed but has not given back yet. */
  predicate BeingRetired(s: State, i: nat) {
    (s.worker.Retiring? || s.worker.CleanRetiring?) && s.worker.index == i
  }

  predicate InWindow(s: State, fd: nat) {
    (s.window.Looking? || s.window.Filling? || s.window.Filled?) && s.window.fd == fd
  }

  predicate InSlot(s: State, i: nat, fd: nat)
    requires i < |s.transfers|
  {
    s.transfers[i].active && s.transfers[i].fd == fd && !BeingRetired(s, i)
  }

  /** A slot in use serves one request, whose snapshot it holds and whose
      descriptor has received exactly the bytes before its offset. */
  predicate SlotOk(s: State, i: nat)
    requires i < |s.transfers|
  {
    var t := s.transfers[i];
    t.active ==>
      && t.fd < |s.requests| && t.offset <= |t.bytes|
      && t.bytes == s.requests[t.fd].snapshot && s.requests[t.fd].written == t.bytes[..t.offset]
      && !InWindow(s, t.fd)
      && s.requests[t.fd].closes == if BeingRetired(s, i) then 1 else 0
  }

  predicate RequestOk(r: Request) {
    r.closes <= 1 && r.written <= r.snapshot
  }

  predicate Held(s: State, fd: nat) {
    InWindow(s, fd) || exists i :: 0 <= i < |s.transfers| && InSlot(s, i, fd)
  }

  predicate WindowOk(s: State) {
    match s.window
    case Looking(fd, i) => fd < |s.requests| && s.requests[fd] == Request(s.clip, [], 0)
    case Filling(fd, i) => fd < |s.requests| && s.requests[fd] == Request(s.clip, [], 0) && i < |s.transfers| && !s.transfers[i].active
    case Filled(fd, i) => fd < |s.requests| && s.requests[fd] == Request(s.clip, [], 0) && i < |s.transfers|
                          && s.transfers[i] == Transfer(false, fd, s.clip, 0)
    case Last(i) => s.worker.Ended? && forall j :: 0 <= j < i && j < |s.transfers| ==> !s.transfers[j].active
    case Gone => s.worker.Ended? && forall j :: 0 <= j < |s.transfers| ==> !s.transfers[j].active
    case _ => true
  }

  predicate WorkerOk(s: State) {
    match s.worker
    case Watching(watch) => forall i :: 0 <= i < |watch| && i < |s.transfers| && watch[i] ==> s.transfers[i].active
    case Polling(watch) => forall i :: 0 <= i < |watch| && i < |s.transfers| && watch[i] ==> s.transfers[i].active
    case Scanning(k, watch) => forall i :: k <= i < |watch| && i < |s.transfers| && watch[i] ==> s.transfers[i].active
    case Retiring(k, watch) => k < |s.transfers| && s.transfers[k].active
      && forall i :: k < i < |watch| && i < |s.transfers| && watch[i] ==> s.transfers[i].active
    case CleanRetiring(k) => k < |s.transfers| && s.transfers[k].active
    case _ => true
  }

  predicate Safe(s: State) {
    && Shaped(s) && WindowOk(s) && WorkerOk(s)
    && (forall i :: 0 <= i < TRANSFERS ==> SlotOk(s, i))
    && (forall i, j :: 0 <= i < j < TRANSFERS && s.transfers[i].active && s.transfers[j].active ==>
          s.transfers[i].fd != s.transfers[j].fd)
    && (forall k :: 0 <= k < |s.requests| ==> RequestOk(s.requests[k]) && (s.requests[k].closes == 0 ==> Held(s, k)))
  }

  lemma InitSafe()
    ensures Safe(Init())
  {}

  lemma SendSafe(s: State, a: Action)
    requires Safe(s) && Enabled(s, a) && a.Send?
    ensures Safe(Next(s, a))
  {
    var t := Next(s, a);
    forall i | 0 <= i < TRANSFERS ensures SlotOk(t, i) { assert SlotOk(s, i); }
    forall k | 0 <= k < |t.requests|
      ensures RequestOk(t.requests[k]) && (t.requests[k].closes == 0 ==> Held(t, k))
    {
      if k < |s.requests| {
        assert RequestOk(s.requests[k]);
        if s.requests[k].closes == 0 {
          HeldStays(s, t, k);
        }
      }
    }
  }

  /** A request held by a slot stays held while the slots and the worker do not change. */
  lemma HeldStays(s: State, t: State, k: nat)
    requires Held(s, k) && t.transfers == s.transfers
    requires InWindow(s, k) ==> InWindow(t, k)
    requires forall i :: 0 <= i < |s.transfers| ==> BeingRetired(t, i) == BeingRetired(s, i)
    ensures Held(t, k)
  {
    if !InWindow(s, k) {
      var i :| 0 <= i < |s.transfers| && InSlot(s, i, k);
      assert InSlot(t, i, k);
    }
  }

  /** A step that changes neither slots nor requests, nor who holds what. */
  lemma Unmoved(s: State, t: State)
    requires Safe(s) && Shaped(t) && WindowOk(t) && WorkerOk(t) && t.transfers == s.transfers && t.requests == s.requests
    requires forall fd :: InWindow(t, fd) == InWindow(s, fd)
    requires forall i :: 0 <= i < TRANSFERS ==> BeingRetired(t, i) == BeingRetired(s, i)
    ensures Safe(t)
  {
    hide WindowOk, WorkerOk, InWindow, BeingRetired, Shaped;
    assert |s.transfers| == TRANSFERS by { ShapedSlots(s); }
    forall i | 0 <= i < TRANSFERS ensures SlotOk(t, i) { assert SlotOk(s, i); }
    forall k | 0 <= k < |s.requests| && s.requests[k].closes == 0 ensures Held(t, k) { HeldStays(s, t, k); }
  }

  lemma ShapedSlots(s: State)
    requires Shaped(s)
    ensures |s.transfers| == TRANSFERS
  {}

  predicate Still(a: Action) {
    a.Publish? || a.Cancelled? || a.BeginDestroy? || a.Join? || a.Check? || a.Watch? || a.Poll?
  }

  lemma StillSafe(s: State, a: Action)
    requires Safe(s) && Enabled(s, a) && Still(a)
    ensures Safe(Next(s, a))
  {
    hide SlotOk, RequestOk, Held;
    Unmoved(s, Next(s, a));
  }

  lemma LookSafe(s: State)
    requires Safe(s) && Enabled(s, Look)
    ensures Safe(Next(s, Look))
  {
    var t, fd, i := Next(s, Look), s.window.fd, s.window.index;
    if t.window.Idle? {
      ClosedSafe(s, t, fd);
    } else {
      Unmoved(s, t);
    }
  }

  /** The window thread closes the descriptor it holds. */
  lemma ClosedSafe(s: State, t: State, fd: nat)
    requires Safe(s) && InWindow(s, fd) && fd < |s.requests| && t == Close(s, fd).(window := Idle)
    ensures Safe(t)
  {
    assert s.requests[fd].closes == 0;
    forall i | 0 <= i < TRANSFERS ensures SlotOk(t, i) { assert SlotOk(s, i); }
    forall k | 0 <= k < |t.requests|
      ensures RequestOk(t.requests[k]) && (t.requests[k].closes == 0 ==> Held(t, k))
    {
      assert RequestOk(s.requests[k]);
      if k != fd && s.requests[k].closes == 0 {
        HeldStays(s, t, k);
      }
    }
  }

  lemma FillSafe(s: State)
    requires Safe(s) && Enabled(s, Fill)
    ensures Safe(Next(s, Fill))
  {
    var t, fd, i := Next(s, Fill), s.window.fd, s.window.index;
    forall j | 0 <= j < TRANSFERS ensures SlotOk(t, j) { assert SlotOk(s, j); }
    forall k | 0 <= k < |t.requests| && t.requests[k].closes == 0 ensures Held(t, k) {
      SlotChange(s, t, i, k);
    }
  }

  /** Changing slot `i`, which does not hold request k, keeps k held. */
  lemma SlotChange(s: State, t: State, i: nat, k: nat)
    requires Held(s, k) && |t.transfers| == |s.transfers| && i < |s.transfers| && !InSlot(s, i, k)
    requires forall j :: 0 <= j < |s.transfers| && j != i ==> t.transfers[j] == s.transfers[j] && BeingRetired(t, j) == BeingRetired(s, j)
    requires InWindow(s, k) ==> InWindow(t, k)
    ensures Held(t, k)
  {
    if !InWindow(s, k) {
      var j :| 0 <= j < |s.transfers| && InSlot(s, j, k);
      assert InSlot(t, j, k);
    }
  }

  lemma ActivateSafe(s: State)
    requires Safe(s) && Enabled(s, Activate)
    ensures Safe(Next(s, Activate))
  {
    var t, fd, i := Next(s, Activate), s.window.fd, s.window.index;
    assert !BeingRetired(s, i);
    forall j | 0 <= j < TRANSFERS ensures SlotOk(t, j) && (j != i && t.transfers[j].active ==> t.transfers[j].fd != fd) {
      assert SlotOk(s, j);
    }
    forall k | 0 <= k < |t.requests| && t.requests[k].closes == 0 ensures Held(t, k) {
      if k == fd {
        assert InSlot(t, i, k);
      } else {
        SlotChange(s, t, i, k);
      }
    }
  }

  /** The worker closes the descriptor of an active slot, to give the slot back next. */
  lemma RetiringSafe(s: State, t: State, i: nat)
    requires Safe(s) && i < TRANSFERS && s.transfers[i].active && !s.worker.Retiring? && !s.worker.CleanRetiring? && !s.worker.Ended?
    requires t.worker.Retiring? || t.worker.CleanRetiring?
    requires t == Close(s, s.transfers[i].fd).(worker := t.worker) && t.worker.index == i && Shaped(t) && WorkerOk(t)
    ensures Safe(t)
  {
    var fd := s.transfers[i].fd;
    assert SlotOk(s, i);
    forall j | 0 <= j < TRANSFERS ensures SlotOk(t, j) { assert SlotOk(s, j); }
    forall k | 0 <= k < |t.requests|
      ensures RequestOk(t.requests[k]) && (t.requests[k].closes == 0 ==> Held(t, k))
    {
      assert RequestOk(s.requests[k]);
      if k != fd && s.requests[k].closes == 0 {
        SlotChange(s, t, i, k);
      }
    }
  }

  /** The worker gives a closed slot back. */
  lemma RetiredSafe(s: State, t: State)
    requires Safe(s) && (s.worker.Retiring? || s.worker.CleanRetiring?)
    requires t == SetActive(s, s.worker.index, false).(worker := t.worker) && !t.worker.Retiring? && !t.worker.CleanRetiring?
    requires Shaped(t) && WorkerOk(t) && WindowOk(t)
    ensures Safe(t)
  {
    var i := s.worker.index;
    forall j | 0 <= j < TRANSFERS ensures SlotOk(t, j) { assert SlotOk(s, j); }
    forall k | 0 <= k < |t.requests| && t.requests[k].closes == 0 ensures Held(t, k) {
      SlotChange(s, t, i, k);
    }
  }

  /** The worker wrote some more of a slot's bytes. */
  lemma WroteSafe(s: State, i: nat, count: nat)
    requires Safe(s) && i < TRANSFERS && s.transfers[i].active && !s.worker.Retiring? && !s.worker.CleanRetiring?
    requires s.transfers[i].offset + count <= |s.transfers[i].bytes|
    ensures Safe(WriteMore(s, i, count))
  {
    var x, t := s.transfers[i], WriteMore(s, i, count);
    assert SlotOk(s, i);
    assert x.bytes[..x.offset] + x.bytes[x.offset..x.offset + count] == x.bytes[..x.offset + count];
    forall j | 0 <= j < TRANSFERS ensures SlotOk(t, j) { assert SlotOk(s, j); }
    forall k | 0 <= k < |t.requests|
      ensures RequestOk(t.requests[k]) && (t.requests[k].closes == 0 ==> Held(t, k))
    {
      assert RequestOk(s.requests[k]);
      if k == x.fd {
        assert InSlot(t, i, k);
      } else if s.requests[k].closes == 0 {
        SlotChange(s, t, i, k);
      }
    }
  }

  lemma ScanSafe(s: State, event: Event)
    requires Safe(s) && Enabled(s, Scan(event))
    ensures Safe(Next(s, Scan(event)))
  {
    hide SlotOk, RequestOk, Held;
    var t, i, watch := Next(s, Scan(event)), s.worker.index, s.worker.watch;
    if !watch[i] || event.Quiet? || event.Retry? {
      Unmoved(s, t);
    } else if event.Wrote? {
      WroteScanSafe(s, event.count);
    } else {
      RetiringSafe(s, t, i);
    }
  }

  lemma WroteScanSafe(s: State, count: nat)
    requires Safe(s) && Enabled(s, Scan(Wrote(count))) && s.worker.watch[s.worker.index]
    ensures Safe(Next(s, Scan(Wrote(count))))
  {
    hide SlotOk, RequestOk, Held;
    var t, i := Next(s, Scan(Wrote(count))), s.worker.index;
    WroteSafe(s, i, count);
    var u := WriteMore(s, i, count);
    if s.transfers[i].offset + count == |s.transfers[i].bytes| {
      RetiringSafe(u, t, i);
    } else {
      Unmoved(u, t);
    }
  }

  lemma CleanSafe(s: State)
    requires Safe(s) && Enabled(s, Clean)
    ensures Safe(Next(s, Clean))
  {
    if s.transfers[s.worker.index].active {
      RetiringSafe(s, Next(s, Clean), s.worker.index);
    } else {
      Unmoved(s, Next(s, Clean));
    }
  }

  lemma GiveBackSafe(s: State, a: Action)
    requires Safe(s) && Enabled(s, a) && (a.Retire? || a.CleanRetire?)
    ensures Safe(Next(s, a))
  {
    hide SlotOk, RequestOk, Held;
    RetiredSafe(s, Next(s, a));
  }

  lemma EndedOk(s: State)
    requires s.worker.Ended?
    ensures WorkerOk(s)
  {}

  lemma FinalSafe(s: State)
    requires Safe(s) && Enabled(s, Final)
    ensures Safe(Next(s, Final))
  {
    if s.transfers[s.window.index].active {
      SweptSafe(s);
    } else {
      hide SlotOk, RequestOk, Held;
      Unmoved(s, Next(s, Final));
    }
  }

  /** The final pass of destroy, as sole owner, closes a slot left active. */
  lemma SweptSafe(s: State)
    requires Safe(s) && Enabled(s, Final) && s.transfers[s.window.index].active
    ensures Safe(Next(s, Final))
  {
    var t, i := Next(s, Final), s.window.index;
    hide Held, WorkerOk;
    assert SlotOk(s, i);
    EndedOk(t);
    forall j | 0 <= j < TRANSFERS ensures SlotOk(t, j) { assert SlotOk(s, j); }
    forall k | 0 <= k < |t.requests|
      ensures RequestOk(t.requests[k]) && (t.requests[k].closes == 0 ==> Held(t, k))
    {
      assert RequestOk(s.requests[k]);
      if t.requests[k].closes == 0 {
        SlotChange(s, t, i, k);
      }
    }
  }

  /** Every step of either thread keeps the state safe. */
  lemma StepSafe(s: State, a: Action)
    requires Safe(s) && Enabled(s, a)
    ensures Safe(Next(s, a))
  {
    hide SlotOk, RequestOk, Held, WindowOk, WorkerOk;
    match a
    case Send(_, _, _) => SendSafe(s, a);
    case Look => LookSafe(s);
    case Fill => FillSafe(s);
    case Activate => ActivateSafe(s);
    case Final => FinalSafe(s);
    case Scan(event) => ScanSafe(s, event);
    case Retire => GiveBackSafe(s, a);
    case Clean => CleanSafe(s);
    case CleanRetire => GiveBackSafe(s, a);
    case _ => StillSafe(s, a);
  }

  // ---- runs

  predicate IsRun(s: State, actions: seq<Action>)
    decreases actions
  {
    actions != [] ==> Shaped(s) && Enabled(s, actions[0]) && IsRun(Next(s, actions[0]), actions[1..])
  }

  function After(s: State, actions: seq<Action>): State
    requires IsRun(s, actions)
    decreases actions
  {
    if actions == [] then s else After(Next(s, actions[0]), actions[1..])
  }

  lemma {:induction false} RunSafe(s: State, actions: seq<Action>)
    requires Safe(s) && IsRun(s, actions)
    ensures Safe(After(s, actions))
    decreases actions
  {
    if actions != [] {
      StepSafe(s, actions[0]);
      RunSafe(Next(s, actions[0]), actions[1..]);
    }
  }

  /** Under every interleaving no descriptor is closed twice, and what was
      written to it is a prefix of the clipboard as it was at the request,
      whatever was published since. */
  lemma DescriptorsSafe(actions: seq<Action>, k: nat)
    requires IsRun(Init(), actions) && k < |After(Init(), actions).requests|
    ensures var r := After(Init(), actions).requests[k];
      r.closes <= 1 && r.written <= r.snapshot
  {
    RunSafe(Init(), actions);
    assert RequestOk(After(Init(), actions).requests[k]);
  }

  lemma GoneClosed(s: State)
    requires Safe(s) && s.window.Gone?
    ensures forall k :: 0 <= k < |s.requests| ==> s.requests[k].closes == 1
  {
    forall k | 0 <= k < |s.requests| ensures s.requests[k].closes == 1 {
      assert RequestOk(s.requests[k]);
    }
  }

  /** Once destroy has returned every descriptor was closed exactly once, even
      one handed over after the worker failed and cleaned up. */
  lemma AllClosed(actions: seq<Action>, k: nat)
    requires IsRun(Init(), actions) && After(Init(), actions).window == Gone && k < |After(Init(), actions).requests|
    ensures After(Init(), actions).requests[k].closes == 1
  {
    RunSafe(Init(), actions);
    GoneClosed(After(Init(), actions));
  }

  /** Nothing is written to a closed descriptor, and what was written is never
      taken back: a step changes a request's bytes only by appending, only while open. */
  lemma WritesOnlyWhileOpen(s: State, a: Action, k: nat)
    requires Safe(s) && Enabled(s, a) && k < |s.requests|
    ensures k < |Next(s, a).requests| && Next(s, a).requests[k].snapshot == s.requests[k].snapshot
    ensures s.requests[k].written <= Next(s, a).requests[k].written
    ensures s.requests[k].closes > 0 ==> Next(s, a).requests[k].written == s.requests[k].written
  {
    hide WindowOk, WorkerOk, Held;
    if a.Scan? {
      assert SlotOk(s, s.worker.index);
    }
  }

  /** A descriptor the worker retires after a write has received the whole snapshot. */
  lemma CompleteWhenDone(s: State, count: nat)
    requires Safe(s) && Enabled(s, Scan(Wrote(count))) && s.worker.watch[s.worker.index]
    ensures s.transfers[s.worker.index].fd < |s.requests|
    ensures var t, fd := Next(s, Scan(Wrote(count))), s.transfers[s.worker.index].fd;
      t.requests[fd].closes == 1 <==> t.requests[fd].written == t.requests[fd].snapshot
  {
    var i := s.worker.index;
    var t, fd := Next(s, Scan(Wrote(count))), s.transfers[i].fd;
    StepSafe(s, Scan(Wrote(count)));
    assert SlotOk(s, i) && SlotOk(t, i);
    assert |t.transfers[i].bytes[..t.transfers[i].offset]| == t.transfers[i].offset;
  }
}
