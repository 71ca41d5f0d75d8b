/** The plugin that reports a pane's state through a bounded queue of payloads
    (src/cli/integration/opencode.ts). Every handler runs to its end before the
    next, so one handler is one step. */
module Reports {
  import opened Wire

  const LIMIT: nat := 32

  datatype Blocked = Permission | Question
  datatype Prompt = Prompt(id: string, kind: Blocked)
  datatype Payload = Payload(event: string, session: Option<string>, busy: Option<bool>, blocked: Option<Blocked>, title: Option<string>)
  /** What decides whether the state changed since it was last sent. */
  datatype Key = Key(session: Option<string>, busy: bool, prompt: Option<string>)
  datatype Info = Info(id: Option<string>, parent: Option<string>, title: Option<string>)

  /** One attempt to start the hook for an accepted payload, by its number. */
  datatype Attempt = Attempt(index: nat, spawned: bool)

  function Min(a: nat, b: nat): nat { if a < b then a else b }

  /** The queue, the flag that a delivery runs, and the history of both: what was
      accepted, every attempt, and which attempts' completion ran. */
  datatype Outbox = Outbox(queue: seq<Payload>, sending: bool, accepted: seq<Payload>, attempts: seq<Attempt>, finished: seq<bool>)

  datatype State = State(
    out: Outbox,
    root: Option<string>, children: set<string>, busy: bool, pending: seq<Prompt>,
    reported: Option<Key>, titled: Option<(string, string)>, refresh: bool, instances: int)

  function Init(): State {
    State(Outbox([], false, [], [], []), None, {}, false, [], None, None, false, 0)
  }

  /** Circumstances of one handler: whether the payload fits its bound, and how
      many starts of the hook throw before one works. */
  datatype Luck = Luck(fits: bool, throws: nat)

  // ---- the queue

  /** How many payloads leave the queue: none while a delivery runs, else those
      whose start throws and the first whose start works. */
  function Leaving(o: Outbox, throws: nat): nat {
    if o.sending then 0 else Min(|o.queue|, throws + 1)
  }

  function NewAttempts(first: nat, count: nat, throws: nat): seq<Attempt> {
    seq(count, i requires 0 <= i < count => Attempt(first + i, i == throws))
  }

  /** Of those, the ones whose start threw complete at once. */
  function GivenUp(count: nat, throws: nat): seq<bool> {
    seq(count, i => i != throws)
  }

  function Drain(o: Outbox, throws: nat): (r: Outbox)
    requires |o.queue| <= |o.accepted|
    ensures |r.queue| <= |r.accepted|
  {
    var n, first := Leaving(o, throws), |o.accepted| - |o.queue|;
    o.(queue := o.queue[n..],
       sending := o.sending || throws < |o.queue|,
       attempts := o.attempts + NewAttempts(first, n, throws),
       finished := o.finished + GivenUp(n, throws))
  }

  /** The completion of an attempt runs once, whichever of its child's events
      comes first, and lets the next delivery start. */
  function Complete(o: Outbox, which: nat, throws: nat): (r: Outbox)
    requires |o.queue| <= |o.accepted|
    ensures |r.queue| <= |r.accepted|
  {
    if which >= |o.finished| || o.finished[which] then o
    else Drain(o.(sending := false, finished := o.finished[which := true]), throws)
  }

  /** A full queue drops its oldest payload. */
  function Push(o: Outbox, p: Payload): Outbox {
    o.(queue := (if |o.queue| == LIMIT then o.queue[1..] else o.queue) + [p], accepted := o.accepted + [p])
  }

  function Send(o: Outbox, p: Payload, luck: Luck): (r: Outbox)
    requires |o.queue| <= |o.accepted|
    ensures |r.queue| <= |r.accepted|
  {
    if luck.fits then Drain(Push(o, p), luck.throws) else o
  }

  // ---- the pane's state

  /** The newest permission, else the newest question. */
  function OpenPrompt(pending: seq<Prompt>): Option<Prompt> {
    match Newest(pending, Permission)
    case Some(p) => Some(p)
    case None => Newest(pending, Question)
  }

  function Newest(pending: seq<Prompt>, kind: Blocked): Option<Prompt> {
    if pending == [] then None
    else if pending[|pending| - 1].kind == kind then Some(pending[|pending| - 1])
    else Newest(pending[..|pending| - 1], kind)
  }

  function KeyOf(s: State): Key {
    var prompt := OpenPrompt(s.pending);
    Key(s.root, s.busy, if prompt.Some? then Some(prompt.value.id) else None)
  }

  function StatePayload(s: State, event: string): Payload {
    var prompt := OpenPrompt(s.pending);
    Payload(event, s.root, Some(s.busy), if prompt.Some? then Some(prompt.value.kind) else None, None)
  }

  function ToolPayload(s: State, event: string): Payload {
    var prompt := OpenPrompt(s.pending);
    Payload(event, s.root, None, if prompt.Some? then Some(prompt.value.kind) else None, None)
  }

  const SNAPSHOT := "state_snapshot"

  function Report(s: State, event: string, luck: Luck): State
    requires |s.out.queue| <= |s.out.accepted|
  {
    var due := (event == SNAPSHOT || s.reported != Some(KeyOf(s))) && luck.fits;
    var t := if due then s.(out := Send(s.out, StatePayload(s, event), luck), reported := Some(KeyOf(s))) else s;
    t.(refresh := s.busy || s.pending != [])
  }

  predicate IsChild(s: State, session: Option<string>) {
    session.Some? && session.value in s.children
  }

  function Adopt(s: State, session: Option<string>): State {
    if session.None? || session.value == "" || IsChild(s, session) || session == s.root then s
    else s.(root := session, busy := false, pending := [])
  }

  /** Setting a prompt replaces the one of its id in place, else appends it. */
  function Ask(pending: seq<Prompt>, p: Prompt): seq<Prompt> {
    if pending == [] then [p]
    else if pending[0].id == p.id then [p] + pending[1..]
    else [pending[0]] + Ask(pending[1..], p)
  }

  function Forget(pending: seq<Prompt>, id: string): seq<Prompt> {
    if pending == [] then []
    else if pending[0].id == id then pending[1..]
    else [pending[0]] + Forget(pending[1..], id)
  }

  function Learn(s: State, info: Option<Info>): State {
    if info.Some? && info.value.id.Some? && info.value.parent.Some? && info.value.parent.value != ""
    then s.(children := s.children + {info.value.id.value}) else s
  }

  function ReportTitle(s: State, info: Option<Info>, luck: Luck): State
    requires |s.out.queue| <= |s.out.accepted|
  {
    var t := if s.root.None? then Adopt(s, if info.Some? then info.value.id else None) else s;
    if info.None? || info.value.id.None? || info.value.id != t.root || info.value.title.None? then t
    else
      var key := Some((info.value.id.value, info.value.title.value));
      if key == t.titled then t
      else t.(titled := key, out := Send(t.out, Payload("session.updated", t.root, None, None, info.value.title), luck))
  }

  /** The last instance reports the exit and forgets the pane's state. */
  function LastDisposed(s: State, luck: Luck): State
    requires |s.out.queue| <= |s.out.accepted|
  {
    s.(refresh := false, busy := false, pending := [], reported := None,
       out := Drain(Send(s.out, Payload("dispose", s.root, None, None, None), luck), 0))
  }

  // ---- steps

  datatype Action =
    | Load(luck: Luck)
    | ChatMessage(session: Option<string>, luck: Luck)
    | Tool(event: string, session: Option<string>, luck: Luck)
    | SessionInfo(info: Option<Info>, luck: Luck)
    | Status(session: Option<string>, idle: bool, luck: Luck)
    | Asked(kind: Blocked, id: string, session: Option<string>, luck: Luck)
    | Answered(event: string, id: string, luck: Luck)
    | Dispose(luck: Luck)
    | Tick(luck: Luck)
    | ChildEvent(which: nat, throws: nat)

  /** The timer ticks while it is set. The child of any attempt may fail or close
      at any time, and may do both. */
  predicate Enabled(s: State, a: Action) {
    (a.Tick? ==> s.refresh) && (a.ChildEvent? ==> a.which < |s.out.attempts|)
  }

  function Next(s: State, a: Action): State
    requires |s.out.queue| <= |s.out.accepted| && Enabled(s, a)
  {
    match a
    case Load(luck) =>
      var t := s.(instances := s.instances + 1);
      if t.instances == 1 then Report(t, "load", luck) else t
    case ChatMessage(session, luck) =>
      if IsChild(s, session) then s else Report(Adopt(s, session).(busy := true), "chat.message", luck)
    case Tool(event, session, luck) =>
      if IsChild(s, session) then s
      else
        var t := Adopt(s, session);
        t.(out := Send(t.out, ToolPayload(t, event), luck))
    case SessionInfo(info, luck) => ReportTitle(Learn(s, info), info, luck)
    case Status(session, idle, luck) =>
      if IsChild(s, session) then s
      else
        var t := Adopt(s, session);
        Report(t.(busy := !idle, pending := if idle then [] else t.pending), "session.status", luck)
    case Asked(kind, id, session, luck) =>
      var t := Adopt(s, session);
      Report(t.(pending := Ask(t.pending, Prompt(id, kind))), if kind == Permission then "permission.asked" else "question.asked", luck)
    case Answered(event, id, luck) =>
      Report(s.(pending := Forget(s.pending, id)), event, luck)
    case Dispose(luck) =>
      var t := s.(instances := s.instances - 1);
      if t.instances > 0 then t else LastDisposed(t, luck)
    case Tick(luck) => Report(s, SNAPSHOT, luck)
    case ChildEvent(which, throws) => s.(out := Complete(s.out, which, throws))
  }

  // ---- what holds between handlers

  predicate Rising(attempts: seq<Attempt>) {
    forall i, j :: 0 <= i < j < |attempts| ==> attempts[i].index < attempts[j].index
  }

  predicate Attempted(attempts: seq<Attempt>, index: nat) {
    exists i :: 0 <= i < |attempts| && attempts[i].index == index
  }

  /** The queue is the newest accepted payloads; the rest were attempted in
      order, once each, or dropped with at least LIMIT newer ones accepted. */
  predicate QueueOk(o: Outbox) {
    && |o.queue| <= LIMIT && |o.queue| <= |o.accepted|
    && o.queue == o.accepted[|o.accepted| - |o.queue|..]
    && Rising(o.attempts)
    && (forall i :: 0 <= i < |o.attempts| ==> o.attempts[i].index < |o.accepted| - |o.queue|)
    && (forall k :: 0 <= k < |o.accepted| - |o.queue| ==> Attempted(o.attempts, k) || k + LIMIT < |o.accepted|)
  }

  /** The latest payload waits or was attempted: it is never dropped. */
  predicate LatestOk(o: Outbox) {
    o.accepted != [] && o.queue == [] ==> o.attempts != [] && o.attempts[|o.attempts| - 1].index == |o.accepted| - 1
  }

  /** The attempts whose completion has not run. */
  function Outstanding(o: Outbox): set<nat> {
    set i | 0 <= i < |o.finished| && !o.finished[i]
  }

  /** Only the last attempt can be outstanding, exactly while the flag is set,
      and it is one that started. */
  predicate OneOutstanding(o: Outbox) {
    && |o.finished| == |o.attempts|
    && Outstanding(o) == (if o.sending && o.attempts != [] then {|o.attempts| - 1} else {})
    && (o.sending ==> o.attempts != [] && o.attempts[|o.attempts| - 1].spawned)
  }

  /** Between handlers nothing waits unless a delivery runs. */
  predicate OutboxOk(o: Outbox) {
    QueueOk(o) && LatestOk(o) && OneOutstanding(o) && (o.sending || o.queue == [])
  }

  predicate TimerOk(s: State) {
    s.busy || s.pending != [] ==> s.refresh
  }

  predicate Safe(s: State) {
    OutboxOk(s.out) && TimerOk(s)
  }

  lemma InitSafe()
    ensures Safe(Init())
  {}

  lemma AttemptedStays(attempts: seq<Attempt>, more: seq<Attempt>, k: nat)
    requires Attempted(attempts, k) || Attempted(more, k)
    ensures Attempted(attempts + more, k)
  {
    if Attempted(attempts, k) {
      var i :| 0 <= i < |attempts| && attempts[i].index == k;
      assert (attempts + more)[i] == attempts[i];
    } else {
      var i :| 0 <= i < |more| && more[i].index == k;
      assert (attempts + more)[|attempts| + i] == more[i];
    }
  }

  lemma DrainQueueOk(o: Outbox, throws: nat)
    requires QueueOk(o)
    ensures QueueOk(Drain(o, throws))
  {
    var t, n, first := Drain(o, throws), Leaving(o, throws), |o.accepted| - |o.queue|;
    var more := NewAttempts(first, n, throws);
    assert t.queue == t.accepted[|t.accepted| - |t.queue|..];
    assert Rising(t.attempts);
    forall k | 0 <= k < |t.accepted| - |t.queue| ensures Attempted(t.attempts, k) || k + LIMIT < |t.accepted| {
      if k >= first {
        assert more[k - first].index == k;
        AttemptedStays(o.attempts, more, k);
      } else if Attempted(o.attempts, k) {
        AttemptedStays(o.attempts, more, k);
      }
    }
  }

  /** Draining keeps the queue right and leaves nothing waiting without a
      delivery running, one delivery at most. */
  lemma DrainSafe(o: Outbox, throws: nat)
    requires QueueOk(o) && LatestOk(o) && OneOutstanding(o)
    ensures OutboxOk(Drain(o, throws)) && Drain(o, throws).accepted == o.accepted
  {
    DrainQueueOk(o, throws);
    hide QueueOk;
    var t, n := Drain(o, throws), Leaving(o, throws);
    if n > 0 {
      assert t.attempts[|t.attempts| - 1] == NewAttempts(|o.accepted| - |o.queue|, n, throws)[n - 1];
      assert Outstanding(t) == if t.sending then {|t.attempts| - 1} else {};
    } else {
      assert GivenUp(0, throws) == [] && t == o;
    }
  }

  lemma PushSafe(o: Outbox, p: Payload)
    requires QueueOk(o)
    ensures QueueOk(Push(o, p))
  {
    hide Rising, Attempted;
    assert o.accepted + [p] == o.accepted[..|o.accepted| - |o.queue|] + o.queue + [p];
  }

  /** A payload that fits is accepted and everything stays in order. */
  lemma SendSafe(o: Outbox, p: Payload, luck: Luck)
    requires OutboxOk(o)
    ensures OutboxOk(Send(o, p, luck))
    ensures Send(o, p, luck).accepted == if luck.fits then o.accepted + [p] else o.accepted
  {
    hide QueueOk, OneOutstanding;
    if luck.fits {
      PushSafe(o, p);
      assert OneOutstanding(Push(o, p)) by { SameOutstanding(o, Push(o, p)); }
      DrainSafe(Push(o, p), luck.throws);
    }
  }

  lemma SameOutstanding(o: Outbox, t: Outbox)
    requires OneOutstanding(o) && t.attempts == o.attempts && t.finished == o.finished && t.sending == o.sending
    ensures OneOutstanding(t)
  {}

  lemma ReportSafe(s: State, event: string, luck: Luck)
    requires OutboxOk(s.out)
    ensures Safe(Report(s, event, luck))
  {
    hide OutboxOk, StatePayload, KeyOf, Send;
    SendSafe(s.out, StatePayload(s, event), luck);
  }

  /** Every handler keeps the queue right, and the refresh timer set while the
      pane is busy or a prompt is open. */
  lemma StepSafe(s: State, a: Action)
    requires Safe(s) && Enabled(s, a)
    ensures |s.out.queue| <= |s.out.accepted| && Safe(Next(s, a))
  {
    hide OutboxOk, KeyOf, StatePayload, ToolPayload, Ask, Forget, Report, Send, Drain, Complete, Adopt, Learn, ReportTitle;
    OutboxSized(s.out);
    match a
    case Load(luck) =>
      ReportSafe(s.(instances := s.instances + 1), "load", luck);
    case ChatMessage(session, luck) =>
      AdoptKeeps(s, session);
      ReportSafe(Adopt(s, session).(busy := true), "chat.message", luck);
    case Tool(event, session, luck) =>
      AdoptKeeps(s, session);
      SendSafe(s.out, ToolPayload(Adopt(s, session), event), luck);
    case SessionInfo(info, luck) =>
      LearnKeeps(s, info);
      TitleSafe(Learn(s, info), info, luck);
    case Status(session, idle, luck) =>
      var t := Adopt(s, session);
      AdoptKeeps(s, session);
      ReportSafe(t.(busy := !idle, pending := if idle then [] else t.pending), "session.status", luck);
    case Asked(kind, id, session, luck) =>
      var t := Adopt(s, session);
      AdoptKeeps(s, session);
      ReportSafe(t.(pending := Ask(t.pending, Prompt(id, kind))), if kind == Permission then "permission.asked" else "question.asked", luck);
    case Answered(event, id, luck) =>
      ReportSafe(s.(pending := Forget(s.pending, id)), event, luck);
    case Dispose(luck) =>
      DisposeSafe(s.out, Payload("dispose", s.root, None, None, None), luck);
    case Tick(luck) =>
      ReportSafe(s, SNAPSHOT, luck);
    case ChildEvent(which, throws) =>
      CompleteSafe(s.out, which, throws);
  }

  lemma OutboxSized(o: Outbox)
    requires OutboxOk(o)
    ensures |o.queue| <= |o.accepted|
  {}

  lemma AdoptKeeps(s: State, session: Option<string>)
    ensures var t := Adopt(s, session); t.out == s.out && (TimerOk(s) ==> TimerOk(t))
  {}

  lemma LearnKeeps(s: State, info: Option<Info>)
    ensures var t := Learn(s, info); t.out == s.out && (TimerOk(s) ==> TimerOk(t))
  {}

  lemma DisposeSafe(o: Outbox, p: Payload, luck: Luck)
    requires OutboxOk(o)
    ensures OutboxOk(Drain(Send(o, p, luck), 0))
  {
    SendSafe(o, p, luck);
    DrainSafe(Send(o, p, luck), 0);
  }

  /** One start that throws, then draining again, is draining with one throw more. */
  lemma DrainAgain(o: Outbox, t: Outbox, throws: nat)
    requires !o.sending && o.queue != [] && |o.queue| <= |o.accepted| && throws > 0
    requires t == o.(queue := o.queue[1..], attempts := o.attempts + [Attempt(|o.accepted| - |o.queue|, false)],
                     finished := o.finished + [true])
    ensures Drain(t, throws - 1) == Drain(o, throws)
  {
    var n, first := Leaving(o, throws), |o.accepted| - |o.queue|;
    assert NewAttempts(first, n, throws) == [Attempt(first, false)] + NewAttempts(first + 1, n - 1, throws - 1);
    assert GivenUp(n, throws) == [true] + GivenUp(n - 1, throws - 1);
    assert o.queue[1..][n - 1..] == o.queue[n..];
  }

  lemma NothingLeaves(o: Outbox, throws: nat)
    requires |o.queue| <= |o.accepted| && (o.sending || o.queue == [])
    ensures Drain(o, throws) == o
  {
    assert NewAttempts(|o.accepted| - |o.queue|, 0, throws) == [] && GivenUp(0, throws) == [];
  }

  lemma FirstStarts(o: Outbox)
    requires !o.sending && o.queue != [] && |o.queue| <= |o.accepted|
    ensures Drain(o, 0) == o.(queue := o.queue[1..], sending := true, finished := o.finished + [false],
                              attempts := o.attempts + [Attempt(|o.accepted| - |o.queue|, true)])
  {
    assert NewAttempts(|o.accepted| - |o.queue|, 1, 0) == [Attempt(|o.accepted| - |o.queue|, true)] && GivenUp(1, 0) == [false];
  }

  lemma SafeSizes(s: State)
    requires Safe(s)
    ensures |s.out.queue| <= |s.out.accepted| && |s.out.finished| == |s.out.attempts|
  {}

  lemma SendGrows(o: Outbox, p: Payload, luck: Luck)
    requires |o.queue| <= |o.accepted|
    ensures o.attempts <= Send(o, p, luck).attempts
    ensures o.attempts <= Drain(Send(o, p, luck), 0).attempts
  {}

  lemma ReportGrows(s: State, event: string, luck: Luck)
    requires |s.out.queue| <= |s.out.accepted|
    ensures s.out.attempts <= Report(s, event, luck).out.attempts
  {
    SendGrows(s.out, StatePayload(s, event), luck);
  }

  lemma TitleGrows(s: State, info: Option<Info>, luck: Luck)
    requires |s.out.queue| <= |s.out.accepted|
    ensures s.out.attempts <= ReportTitle(s, info, luck).out.attempts
  {
    if info.Some? && info.value.id.Some? && info.value.title.Some? {
      var t := if s.root.None? then Adopt(s, info.value.id) else s;
      SendGrows(s.out, Payload("session.updated", t.root, None, None, info.value.title), luck);
    }
  }

  /** A step only adds attempts, and leaves one outstanding at most. */
  lemma StepKeepsAttempts(s: State, a: Action)
    requires Safe(s) && Enabled(s, a)
    ensures |s.out.queue| <= |s.out.accepted|
    ensures s.out.attempts <= Next(s, a).out.attempts && |Outstanding(Next(s, a).out)| <= 1
  {
    hide Safe, KeyOf, StatePayload, ToolPayload, Ask, Forget, Report, Send, Drain, Adopt, Learn, ReportTitle, Outstanding;
    SafeSizes(s);
    StepSafe(s, a);
    SafeOutstanding(Next(s, a));
    match a
    case Load(luck) => ReportGrows(s.(instances := s.instances + 1), "load", luck);
    case ChatMessage(session, luck) =>
      AdoptKeeps(s, session);
      ReportGrows(Adopt(s, session).(busy := true), "chat.message", luck);
    case Tool(event, session, luck) =>
      AdoptKeeps(s, session);
      SendGrows(s.out, ToolPayload(Adopt(s, session), event), luck);
    case SessionInfo(info, luck) =>
      LearnKeeps(s, info);
      TitleGrows(Learn(s, info), info, luck);
    case Status(session, idle, luck) =>
      var t := Adopt(s, session);
      AdoptKeeps(s, session);
      ReportGrows(t.(busy := !idle, pending := if idle then [] else t.pending), "session.status", luck);
    case Asked(kind, id, session, luck) =>
      var t := Adopt(s, session);
      AdoptKeeps(s, session);
      ReportGrows(t.(pending := Ask(t.pending, Prompt(id, kind))), if kind == Permission then "permission.asked" else "question.asked", luck);
    case Answered(event, id, luck) => ReportGrows(s.(pending := Forget(s.pending, id)), event, luck);
    case Dispose(luck) => SendGrows(s.out, Payload("dispose", s.root, None, None, None), luck);
    case Tick(luck) => ReportGrows(s, SNAPSHOT, luck);
    case ChildEvent(which, throws) => CompletedOnce(s, which, throws);
  }

  lemma SafeOutstanding(s: State)
    requires Safe(s)
    ensures |Outstanding(s.out)| <= 1
  {}

  lemma CompletedOnce(s: State, which: nat, throws: nat)
    requires Safe(s) && which < |s.out.finished|
    ensures |s.out.queue| <= |s.out.accepted|
    ensures var t := Complete(s.out, which, throws);
      which < |t.finished| && t.finished[which] && |Outstanding(t)| <= 1 && s.out.attempts <= t.attempts
  {
    CompleteSafe(s.out, which, throws);
  }

  /** However often its child's events come, an attempt completes once. */
  lemma CompleteSafe(o: Outbox, which: nat, throws: nat)
    requires OutboxOk(o) && which < |o.attempts|
    ensures OutboxOk(Complete(o, which, throws))
  {
    if !o.finished[which] {
      var t := o.(sending := false, finished := o.finished[which := true]);
      assert which in Outstanding(o);
      forall i | 0 <= i < |t.finished| ensures t.finished[i] {
        if !o.finished[i] {
          assert i in Outstanding(o);
        }
      }
      assert Outstanding(t) == {};
      hide QueueOk;
      DrainSafe(t, throws);
    }
  }

  lemma TitleSafe(s: State, info: Option<Info>, luck: Luck)
    requires Safe(s)
    ensures |s.out.queue| <= |s.out.accepted| && Safe(ReportTitle(s, info, luck))
  {
    assert |s.out.queue| <= |s.out.accepted|;
    hide OutboxOk, Send;
    if info.Some? && info.value.id.Some? && info.value.title.Some? {
      var t := if s.root.None? then Adopt(s, info.value.id) else s;
      SendSafe(s.out, Payload("session.updated", t.root, None, None, info.value.title), luck);
    }
  }

  // ---- runs

  predicate IsRun(s: State, actions: seq<Action>)
    decreases actions
  {
    actions != [] ==> |s.out.queue| <= |s.out.accepted| && Enabled(s, actions[0]) && IsRun(Next(s, actions[0]), actions[1..])
  }

  function After(s: State, actions: seq<Action>): State
    requires IsRun(s, actions)
    decreases actions
  {
    if actions == [] then s else After(Next(s, actions[0]), actions[1..])
  }

  lemma {:induction false} RunSafe(s: State, actions: seq<Action>)
    requires Safe(s) && IsRun(s, actions)
    ensures Safe(After(s, actions))
    decreases actions
  {
    hide Safe;
    if actions != [] {
      StepSafe(s, actions[0]);
      RunSafe(Next(s, actions[0]), actions[1..]);
    }
  }

  /** The payloads whose hook was started, in the order it was. */
  function Delivered(o: Outbox, attempts: seq<Attempt>): seq<Payload>
    requires forall i :: 0 <= i < |attempts| ==> attempts[i].index < |o.accepted|
  {
    if attempts == [] then []
    else
      var last := attempts[|attempts| - 1];
      Delivered(o, attempts[..|attempts| - 1]) + if last.spawned then [o.accepted[last.index]] else []
  }

  /** A subsequence takes some items, in order and without repeats. */
  ghost predicate Subsequence(a: seq<Payload>, b: seq<Payload>)
    decreases |b|
  {
    a == [] || (b != [] && (Subsequence(a, b[..|b| - 1])
                            || (a[|a| - 1] == b[|b| - 1] && Subsequence(a[..|a| - 1], b[..|b| - 1]))))
  }

  lemma Skip(a: seq<Payload>, b: seq<Payload>, x: Payload)
    requires Subsequence(a, b)
    ensures Subsequence(a, b + [x])
  {
    assert (b + [x])[..|b|] == b;
  }

  lemma Take(a: seq<Payload>, b: seq<Payload>, x: Payload)
    requires Subsequence(a, b)
    ensures Subsequence(a + [x], b + [x])
  {
    assert (b + [x])[..|b|] == b && (a + [x])[..|a|] == a;
  }

  lemma {:induction false} DeliveredInOrder(o: Outbox, attempts: seq<Attempt>, end: nat)
    requires Rising(attempts) && end <= |o.accepted|
    requires forall i :: 0 <= i < |attempts| ==> attempts[i].index < end
    ensures Subsequence(Delivered(o, attempts), o.accepted[..end])
    decreases end
  {
    if attempts != [] {
      var last, front := attempts[|attempts| - 1], attempts[..|attempts| - 1];
      var shorter, x := o.accepted[..end - 1], o.accepted[end - 1];
      assert o.accepted[..end] == shorter + [x];
      assert Rising(front) && forall i :: 0 <= i < |front| ==> front[i].index < last.index;
      hide Subsequence, Rising;
      if last.index < end - 1 {
        DeliveredInOrder(o, attempts, end - 1);
        Skip(Delivered(o, attempts), shorter, x);
      } else {
        DeliveredInOrder(o, front, end - 1);
        if last.spawned {
          Take(Delivered(o, front), shorter, x);
        } else {
          Skip(Delivered(o, front), shorter, x);
          assert Delivered(o, front) + [] == Delivered(o, front);
        }
      }
    }
  }

  /** Over every run of handlers: what reached the hook is a subsequence of what
      was accepted; the queue is the newest payloads, at most LIMIT; one is dropped
      only with LIMIT newer accepted, and the latest never; at most one delivery is
      outstanding, and nothing waits without one; a busy pane or an open prompt has
      its timer set. */
  lemma RunReports(actions: seq<Action>)
    requires IsRun(Init(), actions)
    ensures var s := After(Init(), actions);
      var o := s.out;
      && |o.queue| <= LIMIT && |o.queue| <= |o.accepted| && o.queue == o.accepted[|o.accepted| - |o.queue|..]
      && (forall i :: 0 <= i < |o.attempts| ==> o.attempts[i].index < |o.accepted|)
      && Subsequence(Delivered(o, o.attempts), o.accepted)
      && (forall k :: 0 <= k < |o.accepted| - |o.queue| ==> Attempted(o.attempts, k) || k + LIMIT < |o.accepted|)
      && (o.accepted != [] ==> o.queue != [] || Attempted(o.attempts, |o.accepted| - 1))
      && |Outstanding(o)| == (if o.sending then 1 else 0) && (o.sending || o.queue == [])
      && TimerOk(s)
  {
    hide Next, Enabled, Subsequence, Delivered, Rising;
    InitSafe();
    RunSafe(Init(), actions);
    var o := After(Init(), actions).out;
    DeliveredInOrder(o, o.attempts, |o.accepted|);
    assert o.accepted[..|o.accepted|] == o.accepted;
  }

  // ---- the newest prompt

  predicate IsNewest(pending: seq<Prompt>, kind: Blocked, i: nat)
    requires i < |pending|
  {
    pending[i].kind == kind && forall j :: i < j < |pending| ==> pending[j].kind != kind
  }

  /** A permission, the newest first, blocks before any question. */
  lemma {:induction false} NewestIsLast(pending: seq<Prompt>, kind: Blocked)
    ensures Newest(pending, kind).Some? <==> exists i :: 0 <= i < |pending| && pending[i].kind == kind
    ensures Newest(pending, kind).Some? ==> exists i :: 0 <= i < |pending| && IsNewest(pending, kind, i) && pending[i] == Newest(pending, kind).value
  {
    if pending != [] {
      var front := pending[..|pending| - 1];
      NewestIsLast(front, kind);
      assert forall i :: 0 <= i < |front| ==> front[i] == pending[i];
      if pending[|pending| - 1].kind == kind {
        assert IsNewest(pending, kind, |pending| - 1);
      } else if Newest(front, kind).Some? {
        var i :| 0 <= i < |front| && IsNewest(front, kind, i) && front[i] == Newest(front, kind).value;
        assert IsNewest(pending, kind, i);
      }
    }
  }

  // ---- what the handlers say and do

  predicate HasKind(pending: seq<Prompt>, kind: Blocked) {
    exists i :: 0 <= i < |pending| && pending[i].kind == kind
  }

  /** What blocks the pane: a permission if one is pending, else a question if one is. */
  predicate Blocks(pending: seq<Prompt>, blocked: Option<Blocked>) {
    && (blocked == Some(Permission) <==> HasKind(pending, Permission))
    && (blocked == Some(Question) <==> !HasKind(pending, Permission) && HasKind(pending, Question))
    && (blocked == None <==> pending == [])
  }

  /** The prompt shown: the newest permission, else the newest question. */
  predicate ShowsPrompt(pending: seq<Prompt>, id: Option<string>) {
    && (id.None? <==> pending == [])
    && (id.Some? ==> exists i :: 0 <= i < |pending| && pending[i].id == id.value && IsNewest(pending, pending[i].kind, i)
                                 && (pending[i].kind == Question ==> !HasKind(pending, Permission)))
  }

  lemma OpenPromptIs(pending: seq<Prompt>)
    ensures var p := OpenPrompt(pending);
      && Blocks(pending, if p.Some? then Some(p.value.kind) else None)
      && ShowsPrompt(pending, if p.Some? then Some(p.value.id) else None)
  {
    NewestIsLast(pending, Permission);
    NewestIsLast(pending, Question);
    if pending != [] {
      assert pending[0].kind == Permission || pending[0].kind == Question;
    }
  }

  lemma OnePromptShown(pending: seq<Prompt>, a: Option<string>, b: Option<string>)
    requires ShowsPrompt(pending, a) && ShowsPrompt(pending, b)
    ensures a == b
  {
    if a.Some? {
      var i :| 0 <= i < |pending| && pending[i].id == a.value && IsNewest(pending, pending[i].kind, i)
                 && (pending[i].kind == Question ==> !HasKind(pending, Permission));
      var j :| 0 <= j < |pending| && pending[j].id == b.value && IsNewest(pending, pending[j].kind, j)
                 && (pending[j].kind == Question ==> !HasKind(pending, Permission));
      assert HasKind(pending, pending[i].kind) && HasKind(pending, pending[j].kind);
    }
  }

  /** The last report told the hook this session, this activity and this prompt. */
  predicate Told(reported: Option<Key>, s: State) {
    reported.Some? && reported.value.session == s.root && reported.value.busy == s.busy
    && ShowsPrompt(s.pending, reported.value.prompt)
  }

  lemma ToldIffKey(reported: Option<Key>, s: State)
    ensures Told(reported, s) <==> reported == Some(KeyOf(s))
  {
    OpenPromptIs(s.pending);
    if Told(reported, s) {
      OnePromptShown(s.pending, reported.value.prompt, KeyOf(s).prompt);
    }
  }

  /** One more payload was accepted. */
  predicate Accepted(before: Outbox, after: Outbox, p: Payload) {
    after.accepted == before.accepted + [p]
  }

  /** The handler ended with a report of the pane's new state `t`: a payload that fits
      is accepted exactly when the state differs from what was last told or a renewal is due;
      it carries the pane's session, its activity and what blocks it, no title. What is then told
      is the pane's state, and the timer runs exactly while it is busy or blocked. */
  ghost predicate Spoke(s: State, t: State, event: string, fits: bool) {
    && (if fits && (event == SNAPSHOT || !Told(s.reported, t)) then
          exists blocked :: Blocks(t.pending, blocked) && Accepted(s.out, t.out, Payload(event, t.root, Some(t.busy), blocked, None))
        else t.out.accepted == s.out.accepted)
    && (if fits then Told(t.reported, t) else t.reported == s.reported)
    && (t.refresh <==> t.busy || t.pending != [])
  }

  lemma ReportSpeaks(s: State, event: string, luck: Luck)
    requires OutboxOk(s.out) && |s.out.queue| <= |s.out.accepted|
    ensures var t := Report(s, event, luck);
      && Spoke(s, t, event, luck.fits)
      && t.root == s.root && t.busy == s.busy && t.pending == s.pending && t.children == s.children
      && t.titled == s.titled && t.instances == s.instances
  {
    hide Send, OpenPrompt, ShowsPrompt, Blocks, QueueOk, LatestOk;
    SendSafe(s.out, StatePayload(s, event), luck);
    OpenPromptIs(s.pending);
    ToldIffKey(s.reported, s);
    ToldIffKey(Some(KeyOf(s)), s);
    var prompt := OpenPrompt(s.pending);
    assert Blocks(s.pending, if prompt.Some? then Some(prompt.value.kind) else None);
  }

  /** A session makes the pane its own when it is a real one, no subagent's, and another. */
  predicate Adopts(s: State, session: Option<string>) {
    session.Some? && session.value != "" && session.value !in s.children && session != s.root
  }

  /** The pane's state but what a handler reports: session, activity and prompts. */
  predicate Pane(t: State, root: Option<string>, busy: bool, pending: seq<Prompt>) {
    t.root == root && t.busy == busy && t.pending == pending
  }

  predicate SameRest(s: State, t: State) {
    t.children == s.children && t.titled == s.titled && t.instances == s.instances
  }

  /** A prompt of the user makes the pane busy, in its session. */
  lemma ChatMessageDoes(s: State, session: Option<string>, luck: Luck)
    requires OutboxOk(s.out) && |s.out.queue| <= |s.out.accepted|
    ensures var t := Next(s, ChatMessage(session, luck));
      if session.Some? && session.value in s.children then t == s
      else Spoke(s, t, "chat.message", luck.fits) && SameRest(s, t)
           && Pane(t, if Adopts(s, session) then session else s.root, true, if Adopts(s, session) then [] else s.pending)
  {
    hide Report, Spoke, OutboxOk;
    ReportSpeaks(Adopt(s, session).(busy := true), "chat.message", luck);
    if !(session.Some? && session.value in s.children) {
      SpokeFrom(s, Adopt(s, session).(busy := true), Next(s, ChatMessage(session, luck)), "chat.message", luck.fits);
    }
  }

  /** What a handler said does not depend on how it reached the state it reports. */
  lemma SpokeFrom(s: State, u: State, t: State, event: string, fits: bool)
    requires Spoke(u, t, event, fits) && u.out == s.out && u.reported == s.reported
    ensures Spoke(s, t, event, fits)
  {}

  /** A status makes the pane busy or idle; an idle one ends its prompts. */
  lemma StatusDoes(s: State, session: Option<string>, idle: bool, luck: Luck)
    requires OutboxOk(s.out) && |s.out.queue| <= |s.out.accepted|
    ensures var t := Next(s, Status(session, idle, luck));
      if session.Some? && session.value in s.children then t == s
      else Spoke(s, t, "session.status", luck.fits) && SameRest(s, t)
           && Pane(t, if Adopts(s, session) then session else s.root, !idle, if idle || Adopts(s, session) then [] else s.pending)
  {
    hide Report, Spoke, OutboxOk;
    var a := Adopt(s, session);
    var u := a.(busy := !idle, pending := if idle then [] else a.pending);
    ReportSpeaks(u, "session.status", luck);
    if !(session.Some? && session.value in s.children) {
      SpokeFrom(s, u, Next(s, Status(session, idle, luck)), "session.status", luck.fits);
    }
  }

  predicate HasPrompt(pending: seq<Prompt>, id: string, i: nat) {
    i < |pending| && pending[i].id == id && forall j :: 0 <= j < i ==> pending[j].id != id
  }

  lemma OnlyFirst(pending: seq<Prompt>, id: string)
    requires pending != [] && pending[0].id == id
    ensures forall i: nat :: HasPrompt(pending, id, i) ==> i == 0
  {}

  /** A prompt asked again keeps its place, a new one comes last. */
  lemma {:induction false} AskPlaces(pending: seq<Prompt>, p: Prompt)
    ensures forall i: nat :: HasPrompt(pending, p.id, i) ==> Ask(pending, p) == pending[i := p]
    ensures (forall i :: 0 <= i < |pending| ==> pending[i].id != p.id) ==> Ask(pending, p) == pending + [p]
    decreases |pending|
  {
    if pending != [] && pending[0].id == p.id {
      OnlyFirst(pending, p.id);
    } else if pending != [] {
      var rest := pending[1..];
      AskPlaces(rest, p);
      forall i: nat | HasPrompt(pending, p.id, i) ensures Ask(pending, p) == pending[i := p] {
        assert HasPrompt(rest, p.id, i - 1);
        assert pending[i := p] == [pending[0]] + rest[i - 1 := p];
      }
      assert pending + [p] == [pending[0]] + (rest + [p]);
    }
  }

  /** A reply ends its own prompt only. */
  lemma {:induction false} ForgetRemoves(pending: seq<Prompt>, id: string)
    ensures forall i: nat :: HasPrompt(pending, id, i) ==> Forget(pending, id) == pending[..i] + pending[i + 1..]
    ensures (forall i :: 0 <= i < |pending| ==> pending[i].id != id) ==> Forget(pending, id) == pending
    decreases |pending|
  {
    if pending != [] && pending[0].id == id {
      OnlyFirst(pending, id);
    } else if pending != [] {
      var rest := pending[1..];
      ForgetRemoves(rest, id);
      forall i: nat | HasPrompt(pending, id, i) ensures Forget(pending, id) == pending[..i] + pending[i + 1..] {
        assert HasPrompt(rest, id, i - 1);
        assert pending[..i] == [pending[0]] + rest[..i - 1];
      }
    }
  }

  /** A permission or question, a subagent's too, is pending from then on. */
  lemma AskedDoes(s: State, kind: Blocked, id: string, session: Option<string>, luck: Luck)
    requires OutboxOk(s.out) && |s.out.queue| <= |s.out.accepted|
    ensures var t := Next(s, Asked(kind, id, session, luck));
      var pending := if Adopts(s, session) then [] else s.pending;
      && Spoke(s, t, if kind == Permission then "permission.asked" else "question.asked", luck.fits) && SameRest(s, t)
      && t.root == (if Adopts(s, session) then session else s.root) && t.busy == (s.busy && !Adopts(s, session))
      && (forall i: nat :: HasPrompt(pending, id, i) ==> t.pending == pending[i := Prompt(id, kind)])
      && ((forall i :: 0 <= i < |pending| ==> pending[i].id != id) ==> t.pending == pending + [Prompt(id, kind)])
  {
    hide Report, Spoke, OutboxOk, Ask, HasPrompt;
    var a := Adopt(s, session);
    var u := a.(pending := Ask(a.pending, Prompt(id, kind)));
    var event := if kind == Permission then "permission.asked" else "question.asked";
    ReportSpeaks(u, event, luck);
    AskPlaces(a.pending, Prompt(id, kind));
    SpokeFrom(s, u, Next(s, Asked(kind, id, session, luck)), event, luck.fits);
  }

  lemma AnsweredDoes(s: State, event: string, id: string, luck: Luck)
    requires OutboxOk(s.out) && |s.out.queue| <= |s.out.accepted|
    ensures var t := Next(s, Answered(event, id, luck));
      && Spoke(s, t, event, luck.fits) && SameRest(s, t) && t.root == s.root && t.busy == s.busy
      && (forall i: nat :: HasPrompt(s.pending, id, i) ==> t.pending == s.pending[..i] + s.pending[i + 1..])
      && ((forall i :: 0 <= i < |s.pending| ==> s.pending[i].id != id) ==> t.pending == s.pending)
  {
    hide Report, Spoke, OutboxOk, Forget, HasPrompt;
    var u := s.(pending := Forget(s.pending, id));
    ReportSpeaks(u, event, luck);
    ForgetRemoves(s.pending, id);
    SpokeFrom(s, u, Next(s, Answered(event, id, luck)), event, luck.fits);
  }

  /** A tool call of the pane's own session is reported whenever it fits, with what
      blocks the pane; it says nothing of its activity. */
  lemma ToolDoes(s: State, event: string, session: Option<string>, luck: Luck)
    requires OutboxOk(s.out) && |s.out.queue| <= |s.out.accepted|
    ensures var t := Next(s, Tool(event, session, luck));
      if session.Some? && session.value in s.children then t == s
      else SameRest(s, t) && t.reported == s.reported && t.refresh == s.refresh
           && Pane(t, if Adopts(s, session) then session else s.root, s.busy && !Adopts(s, session),
                   if Adopts(s, session) then [] else s.pending)
           && (if luck.fits then exists blocked :: Blocks(t.pending, blocked) && Accepted(s.out, t.out, Payload(event, t.root, None, blocked, None))
               else t.out == s.out)
  {
    hide Send, OutboxOk, Blocks, OpenPrompt;
    var a := Adopt(s, session);
    SendSafe(s.out, ToolPayload(a, event), luck);
    OpenPromptIs(a.pending);
    var prompt := OpenPrompt(a.pending);
    assert Blocks(a.pending, if prompt.Some? then Some(prompt.value.kind) else None);
    SendNothing(s.out, ToolPayload(a, event), luck);
  }

  lemma SendNothing(o: Outbox, p: Payload, luck: Luck)
    requires |o.queue| <= |o.accepted|
    ensures !luck.fits ==> Send(o, p, luck) == o
  {}

  /** A session with a parent is a subagent's from then on. The title of the pane's
      own session, or of the first one heard of, is reported once for each change. */
  lemma SessionInfoDoes(s: State, info: Option<Info>, luck: Luck)
    requires OutboxOk(s.out) && |s.out.queue| <= |s.out.accepted|
    ensures var t := Next(s, SessionInfo(info, luck));
      var id := if info.Some? then info.value.id else None;
      var child := info.Some? && id.Some? && info.value.parent.Some? && info.value.parent.value != "";
      var first := s.root.None? && id.Some? && id.value != "" && id.value !in t.children;
      && t.children == (if child then s.children + {id.value} else s.children)
      && Pane(t, if first then id else s.root, s.busy && !first, if first then [] else s.pending)
      && t.reported == s.reported && t.refresh == s.refresh && t.instances == s.instances
      && (if info.Some? && id.Some? && id == t.root && info.value.title.Some? && s.titled != Some((id.value, info.value.title.value))
          then t.titled == Some((id.value, info.value.title.value))
               && (luck.fits ==> Accepted(s.out, t.out, Payload("session.updated", t.root, None, None, info.value.title)))
               && (!luck.fits ==> t.out == s.out)
          else t.titled == s.titled && t.out == s.out)
  {
    hide Send, OutboxOk;
    var l := Learn(s, info);
    var a := if s.root.None? then Adopt(l, if info.Some? then info.value.id else None) else l;
    if info.Some? {
      SendSafe(s.out, Payload("session.updated", a.root, None, None, info.value.title), luck);
      SendNothing(s.out, Payload("session.updated", a.root, None, None, info.value.title), luck);
    }
  }

  /** The first instance reports the state it starts in; another says nothing. */
  lemma LoadDoes(s: State, luck: Luck)
    requires OutboxOk(s.out) && |s.out.queue| <= |s.out.accepted|
    ensures var t := Next(s, Load(luck));
      && t.instances == s.instances + 1 && Pane(t, s.root, s.busy, s.pending) && t.children == s.children && t.titled == s.titled
      && (if s.instances == 0 then Spoke(s, t, "load", luck.fits) else t == s.(instances := s.instances + 1))
  {
    hide Report, Spoke, OutboxOk;
    ReportSpeaks(s.(instances := s.instances + 1), "load", luck);
    if s.instances == 0 {
      SpokeFrom(s, s.(instances := 1), Next(s, Load(luck)), "load", luck.fits);
    }
  }

  /** The last instance reports its exit, naming the session only, and forgets the
      pane's activity, prompts and what it last told, so that a reload speaks again. */
  lemma DisposeDoes(s: State, luck: Luck)
    requires OutboxOk(s.out) && |s.out.queue| <= |s.out.accepted|
    ensures var t := Next(s, Dispose(luck));
      && t.instances == s.instances - 1 && t.root == s.root && t.children == s.children && t.titled == s.titled
      && (if s.instances > 1 then t == s.(instances := s.instances - 1)
          else Pane(t, s.root, false, []) && t.reported == None && !t.refresh
               && t.out.accepted == if luck.fits then s.out.accepted + [Payload("dispose", s.root, None, None, None)] else s.out.accepted)
  {
    hide Send, OutboxOk;
    SendSafe(s.out, Payload("dispose", s.root, None, None, None), luck);
  }

  /** The timer renews the report, changed or not. */
  lemma TickDoes(s: State, luck: Luck)
    requires OutboxOk(s.out) && |s.out.queue| <= |s.out.accepted| && s.refresh
    ensures var t := Next(s, Tick(luck));
      Spoke(s, t, SNAPSHOT, luck.fits) && SameRest(s, t) && Pane(t, s.root, s.busy, s.pending)
  {
    hide Report, Spoke, OutboxOk;
    ReportSpeaks(s, SNAPSHOT, luck);
  }

  // ---- the module's own variables, changed by the handlers

  /** The prompts are a map with an order of insertion, the queue an array that is
      pushed at its end and shifted at its front. */
  class Plugin {
    var queue: seq<Payload>
    var sending: bool
    var root: Option<string>
    var children: set<string>
    var busy: bool
    var kinds: map<string, Blocked>
    var order: seq<string>
    var reported: Option<Key>
    var titled: Option<(string, string)>
    var refresh: bool
    var instances: int
    /** The `finished` flags the completions of all attempts close over. */
    var finished: seq<bool>
    ghost var accepted: seq<Payload>
    ghost var attempts: seq<Attempt>

    predicate Ordered()
      reads this`kinds, this`order
    {
      InOrder(order, kinds)
    }

    /** The prompts in the order they were set. */
    ghost function Pending(): seq<Prompt>
      reads this`kinds, this`order
    {
      Listed(order, kinds)
    }

    ghost function Out(): Outbox
      reads this`queue, this`sending, this`accepted, this`attempts, this`finished
    {
      Outbox(queue, sending, accepted, attempts, finished)
    }

    ghost function Contents(): State
      reads this
    {
      State(Out(), root, children, busy, Pending(), reported, titled, refresh, instances)
    }

    ghost predicate Valid()
      reads this
    {
      Ordered() && Safe(Contents())
    }

    constructor ()
      ensures Valid() && Contents() == Init()
    {
      queue, sending, root, children, busy, kinds, order := [], false, None, {}, false, map[], [];
      reported, titled, refresh, instances, accepted, attempts, finished := None, None, false, 0, [], [], [];
      new;
      assert Contents() == Init();
      InitSafe();
    }

    // ---- deliveries

    /** Starts the hook for the oldest payload unless one runs. A start that throws
        runs its completion at once, which drains again. */
    method DrainQueue(throws: nat)
      requires |queue| <= |accepted| && |finished| == |attempts|
      modifies this`queue, this`sending, this`attempts, this`finished
      ensures Out() == Drain(old(Out()), throws) && |finished| == |attempts|
      decreases |queue|
    {
      ghost var before := Out();
      ghost var first := |accepted| - |queue|;
      if sending || queue == [] {
        NothingLeaves(before, throws);
        return;
      }
      attempts := attempts + [Attempt(first, throws == 0)];
      queue := queue[1..];
      sending := true;
      finished := finished + [false];
      if throws > 0 {
        finished := finished[|finished| - 1 := true];
        sending := false;
        ghost var middle := Out();
        DrainQueue(throws - 1);
        DrainAgain(before, middle, throws);
      } else {
        FirstStarts(before);
      }
    }

    /** The completion of one attempt, run by whichever event of its child comes
        first: nothing that reached the hook is lost, and at most one delivery is
        outstanding after it. */
    method OnChildEvent(which: nat, throws: nat)
      requires Valid() && which < |finished|
      modifies this`queue, this`sending, this`attempts, this`finished
      ensures Valid() && Contents() == old(Next(Contents(), ChildEvent(which, throws)))
      ensures which < |finished| && finished[which] && |Outstanding(Out())| <= 1 && old(attempts) <= attempts
    {
      hide Safe, Drain;
      SafeSizes(Contents());
      StepSafe(Contents(), ChildEvent(which, throws));
      CompletedOnce(Contents(), which, throws);
      if finished[which] {
        return;
      }
      finished := finished[which := true];
      sending := false;
      DrainQueue(throws);
    }

    method SendPayload(p: Payload, luck: Luck) returns (ok: bool)
      requires |queue| <= |accepted| && |finished| == |attempts|
      modifies this`queue, this`sending, this`attempts, this`finished, this`accepted
      ensures ok == luck.fits && Out() == Send(old(Out()), p, luck) && |finished| == |attempts|
      ensures !ok ==> Out() == old(Out())
    {
      if !luck.fits {
        return false;
      }
      if |queue| == LIMIT {
        queue := queue[1..];
      }
      queue := queue + [p];
      accepted := accepted + [p];
      DrainQueue(luck.throws);
      ok := true;
    }

    // ---- prompts

    /** Setting a key that is there keeps its place, a new one goes last. */
    method SetPrompt(id: string, kind: Blocked)
      requires Ordered()
      modifies this`kinds, this`order
      ensures Ordered() && kinds == old(kinds)[id := kind]
      ensures Pending() == Ask(old(Pending()), Prompt(id, kind))
    {
      AskListed(order, kinds, id, kind);
      if id !in kinds {
        order := order + [id];
      }
      kinds := kinds[id := kind];
    }

    method IndexOf(id: string) returns (i: nat)
      requires id in order
      ensures i < |order| && order[i] == id
    {
      i := 0;
      while order[i] != id
        invariant i < |order| && id in order[i..]
        decreases |order| - i
      {
        assert order[i..] == [order[i]] + order[i + 1..];
        i := i + 1;
      }
    }

    method DeletePrompt(id: string)
      requires Ordered()
      modifies this`kinds, this`order
      ensures Ordered() && kinds == old(kinds) - {id}
      ensures Pending() == Forget(old(Pending()), id)
    {
      hide Listed, Forget;
      if id !in kinds {
        ForgetAbsent(order, kinds, id);
        return;
      }
      var i := IndexOf(id);
      ForgetListed(order, kinds, id, i);
      RemovedInOrder(order, kinds, i);
      hide InOrder;
      order := order[..i] + order[i + 1..];
      kinds := kinds - {id};
    }

    /** One scan in insertion order, remembering the last permission and the last question. */
    method FindPrompt() returns (prompt: Option<Prompt>)
      requires Ordered()
      ensures prompt == OpenPrompt(Pending())
    {
      var permission, question: Option<Prompt> := None, None;
      ghost var pending := Pending();
      assert pending[..0] == [];
      for i := 0 to |order|
        invariant permission == Newest(pending[..i], Permission) && question == Newest(pending[..i], Question)
      {
        assert pending[..i + 1][..i] == pending[..i];
        var p := Prompt(order[i], kinds[order[i]]);
        if p.kind == Permission {
          permission := Some(p);
        } else {
          question := Some(p);
        }
      }
      assert pending[..|order|] == pending;
      prompt := if permission.Some? then permission else question;
    }

    // ---- the pane's state

    method ReportState(event: string, luck: Luck)
      requires Ordered() && |queue| <= |accepted| && |finished| == |attempts|
      modifies this`queue, this`sending, this`attempts, this`finished, this`accepted, this`reported, this`refresh
      ensures Contents() == Report(old(Contents()), event, luck) && |finished| == |attempts|
    {
      hide OpenPrompt, InOrder, Send, Listed;
      NoneListed(order, kinds);
      var prompt := FindPrompt();
      var key := Key(root, busy, if prompt.Some? then Some(prompt.value.id) else None);
      if event == SNAPSHOT || reported != Some(key) {
        var sent := SendPayload(Payload(event, root, Some(busy), if prompt.Some? then Some(prompt.value.kind) else None, None), luck);
        if sent {
          reported := Some(key);
        }
      }
      refresh := busy || order != [];
    }

    method AdoptSession(session: Option<string>)
      requires Ordered()
      modifies this`root, this`busy, this`kinds, this`order
      ensures Ordered() && Contents() == Adopt(old(Contents()), session)
    {
      if session.None? || session.value == "" || session.value in children || session == root {
        return;
      }
      root := session;
      busy := false;
      kinds, order := map[], [];
      NoneListed(order, kinds);
    }

    method OnLoad(luck: Luck)
      requires Ordered() && |queue| <= |accepted| && |finished| == |attempts|
      modifies this
      ensures Ordered() && Contents() == old(Next(Contents(), Load(luck)))
    {
      hide InOrder, Report, Listed;
      instances := instances + 1;
      if instances == 1 {
        ReportState("load", luck);
      }
    }

    method OnChatMessage(session: Option<string>, luck: Luck)
      requires Ordered() && |queue| <= |accepted| && |finished| == |attempts|
      modifies this
      ensures Ordered() && Contents() == old(Next(Contents(), ChatMessage(session, luck)))
    {
      hide InOrder, Report, Listed;
      if session.Some? && session.value in children {
        return;
      }
      AdoptSession(session);
      busy := true;
      ReportState("chat.message", luck);
    }

    method OnTool(event: string, session: Option<string>, luck: Luck)
      requires Ordered() && |queue| <= |accepted| && |finished| == |attempts|
      modifies this
      ensures Ordered() && Contents() == old(Next(Contents(), Tool(event, session, luck)))
    {
      hide InOrder, Send, Listed, OpenPrompt;
      if session.Some? && session.value in children {
        return;
      }
      AdoptSession(session);
      var prompt := FindPrompt();
      var sent := SendPayload(Payload(event, root, None, if prompt.Some? then Some(prompt.value.kind) else None, None), luck);
    }

    method LearnSession(info: Option<Info>)
      modifies this`children
      ensures Contents() == Learn(old(Contents()), info)
    {
      if info.Some? && info.value.id.Some? && info.value.parent.Some? && info.value.parent.value != "" {
        children := children + {info.value.id.value};
      }
    }

    method TitleSession(info: Option<Info>, luck: Luck)
      requires Ordered() && |queue| <= |accepted| && |finished| == |attempts|
      modifies this
      ensures Ordered() && Contents() == ReportTitle(old(Contents()), info, luck)
    {
      hide InOrder, Send, Listed, Adopt;
      if root.None? {
        AdoptSession(if info.Some? then info.value.id else None);
      }
      if info.None? || info.value.id.None? || info.value.id != root || info.value.title.None? {
        return;
      }
      var key := Some((info.value.id.value, info.value.title.value));
      if key == titled {
        return;
      }
      titled := key;
      var sent := SendPayload(Payload("session.updated", root, None, None, info.value.title), luck);
    }

    method OnSessionInfo(info: Option<Info>, luck: Luck)
      requires Ordered() && |queue| <= |accepted| && |finished| == |attempts|
      modifies this
      ensures Ordered() && Contents() == old(Next(Contents(), SessionInfo(info, luck)))
    {
      hide InOrder, Learn, ReportTitle, Listed;
      LearnSession(info);
      TitleSession(info, luck);
    }

    method ClearPrompts()
      modifies this`kinds, this`order
      ensures Ordered() && Pending() == []
    {
      kinds, order := map[], [];
      NoneListed(order, kinds);
    }

    method OnStatus(session: Option<string>, idle: bool, luck: Luck)
      requires Ordered() && |queue| <= |accepted| && |finished| == |attempts|
      modifies this
      ensures Ordered() && Contents() == old(Next(Contents(), Status(session, idle, luck)))
    {
      hide InOrder, Report, Listed;
      if session.Some? && session.value in children {
        return;
      }
      AdoptSession(session);
      busy := !idle;
      if !busy {
        ClearPrompts();
      }
      ReportState("session.status", luck);
    }

    method OnAsked(kind: Blocked, id: string, session: Option<string>, luck: Luck)
      requires Ordered() && |queue| <= |accepted| && |finished| == |attempts|
      modifies this
      ensures Ordered() && Contents() == old(Next(Contents(), Asked(kind, id, session, luck)))
    {
      hide InOrder, Report, Listed, Ask;
      AdoptSession(session);
      SetPrompt(id, kind);
      ReportState(if kind == Permission then "permission.asked" else "question.asked", luck);
    }

    method OnAnswered(event: string, id: string, luck: Luck)
      requires Ordered() && |queue| <= |accepted| && |finished| == |attempts|
      modifies this
      ensures Ordered() && Contents() == old(Next(Contents(), Answered(event, id, luck)))
    {
      hide InOrder, Report, Listed, Forget;
      DeletePrompt(id);
      ReportState(event, luck);
    }

    method DisposeLast(luck: Luck)
      requires |queue| <= |accepted| && |finished| == |attempts|
      modifies this`queue, this`sending, this`attempts, this`finished, this`accepted
      modifies this`refresh, this`busy, this`kinds, this`order, this`reported
      ensures Ordered() && Contents() == LastDisposed(old(Contents()), luck)
    {
      hide InOrder, Send, Drain, Listed;
      SendSized(Out(), Payload("dispose", root, None, None, None), luck);
      refresh := false;
      busy := false;
      ClearPrompts();
      reported := None;
      var sent := SendPayload(Payload("dispose", root, None, None, None), luck);
      DrainQueue(0);
    }

    method OnDispose(luck: Luck)
      requires Ordered() && |queue| <= |accepted| && |finished| == |attempts|
      modifies this
      ensures Ordered() && Contents() == old(Next(Contents(), Dispose(luck)))
    {
      hide InOrder, Listed, LastDisposed;
      instances := instances - 1;
      if instances <= 0 {
        DisposeLast(luck);
      }
    }

    /** One handler is exactly one step of the model, so every promise of a run
        holds of the module's variables; what reached the hook stays as it was,
        with at most one delivery outstanding. */
    method Handle(a: Action)
      requires Valid() && Enabled(Contents(), a)
      modifies this
      ensures Valid() && Contents() == old(Next(Contents(), a))
      ensures old(attempts) <= attempts && |Outstanding(Out())| <= 1
    {
      hide Safe, InOrder, Report, Send, Drain, Complete, Next, Listed, OpenPrompt, Outstanding;
      SafeSizes(Contents());
      StepSafe(Contents(), a);
      StepKeepsAttempts(Contents(), a);
      match a {
        case Load(luck) => OnLoad(luck);
        case ChatMessage(session, luck) => OnChatMessage(session, luck);
        case Tool(event, session, luck) => OnTool(event, session, luck);
        case SessionInfo(info, luck) => OnSessionInfo(info, luck);
        case Status(session, idle, luck) => OnStatus(session, idle, luck);
        case Asked(kind, id, session, luck) => OnAsked(kind, id, session, luck);
        case Answered(event, id, luck) => OnAnswered(event, id, luck);
        case Dispose(luck) => OnDispose(luck);
        case Tick(luck) => OnTick(luck);
        case ChildEvent(which, throws) => OnChildEvent(which, throws);
      }
    }

    /** The refresh timer fired. */
    method OnTick(luck: Luck)
      requires Ordered() && |queue| <= |accepted| && |finished| == |attempts| && refresh
      modifies this
      ensures Ordered() && Contents() == old(Next(Contents(), Tick(luck)))
    {
      hide InOrder, Report, Listed;
      ReportState(SNAPSHOT, luck);
    }
  }

  lemma SendSized(o: Outbox, p: Payload, luck: Luck)
    requires |o.queue| <= |o.accepted|
    ensures |Send(o, p, luck).queue| <= |Send(o, p, luck).accepted|
  {}

  lemma NoneListed(order: seq<string>, kinds: map<string, Blocked>)
    ensures Listed(order, kinds) == [] <==> order == []
  {
    if order == [] {
      assert Listed(order, kinds) == [];
    }
  }

  /** The keys of a map, each once. */
  predicate InOrder(order: seq<string>, kinds: map<string, Blocked>) {
    && (forall i :: 0 <= i < |order| ==> order[i] in kinds)
    && (forall id :: id in kinds ==> id in order)
    && (forall i, j :: 0 <= i < j < |order| ==> order[i] != order[j])
  }

  /** A map's entries in the order of their keys' insertion. */
  ghost function Listed(order: seq<string>, kinds: map<string, Blocked>): seq<Prompt> {
    seq(|order|, i requires 0 <= i < |order| => Prompt(order[i], if order[i] in kinds then kinds[order[i]] else Question))
  }

  lemma RemovedInOrder(order: seq<string>, kinds: map<string, Blocked>, i: nat)
    requires InOrder(order, kinds) && i < |order|
    ensures InOrder(order[..i] + order[i + 1..], kinds - {order[i]})
  {
    var rest := order[..i] + order[i + 1..];
    forall id | id in kinds - {order[i]} ensures id in rest {
      var k :| 0 <= k < |order| && order[k] == id;
      assert rest[if k < i then k else k - 1] == id;
    }
  }

  lemma ListedFirst(order: seq<string>, kinds: map<string, Blocked>)
    requires order != [] && order[0] in kinds
    ensures Listed(order, kinds) == [Prompt(order[0], kinds[order[0]])] + Listed(order[1..], kinds)
  {}

  lemma ListedUnchanged(order: seq<string>, kinds: map<string, Blocked>, id: string, kind: Blocked)
    requires id !in order
    ensures Listed(order, kinds[id := kind]) == Listed(order, kinds) && Listed(order, kinds - {id}) == Listed(order, kinds)
  {}

  lemma ListedNone(kinds: map<string, Blocked>)
    ensures Listed([], kinds) == []
  {}

  lemma {:induction false} AskListed(order: seq<string>, kinds: map<string, Blocked>, id: string, kind: Blocked)
    requires forall i :: 0 <= i < |order| ==> order[i] in kinds
    requires forall i, j :: 0 <= i < j < |order| ==> order[i] != order[j]
    ensures Ask(Listed(order, kinds), Prompt(id, kind))
            == Listed(if id in order then order else order + [id], kinds[id := kind])
    decreases |order|
  {
    hide Listed;
    var updated := kinds[id := kind];
    if order == [] {
      assert ([] + [id])[1..] == [];
      ListedFirst([] + [id], updated);
      ListedNone(kinds);
      ListedNone(updated);
    } else {
      ListedFirst(order, kinds);
      ListedFirst(order, updated);
      assert Listed(order, kinds)[1..] == Listed(order[1..], kinds);
      if order[0] == id {
        assert id !in order[1..];
        ListedUnchanged(order[1..], kinds, id, kind);
      } else {
        AskListed(order[1..], kinds, id, kind);
        if id !in order {
          assert (order + [id])[1..] == order[1..] + [id];
          ListedFirst(order + [id], updated);
        } else {
          assert id in order[1..];
        }
      }
    }
  }

  lemma {:induction false} ForgetAbsent(order: seq<string>, kinds: map<string, Blocked>, id: string)
    requires id !in order
    ensures Forget(Listed(order, kinds), id) == Listed(order, kinds)
    decreases |order|
  {
    if order != [] {
      ForgetAbsent(order[1..], kinds, id);
      assert Listed(order, kinds)[1..] == Listed(order[1..], kinds);
    }
  }

  lemma {:induction false} ForgetListed(order: seq<string>, kinds: map<string, Blocked>, id: string, i: nat)
    requires i < |order| && order[i] == id
    requires forall i :: 0 <= i < |order| ==> order[i] in kinds
    requires forall i, j :: 0 <= i < j < |order| ==> order[i] != order[j]
    ensures Forget(Listed(order, kinds), id) == Listed(order[..i] + order[i + 1..], kinds - {id})
    decreases |order|
  {
    hide Listed;
    ListedFirst(order, kinds);
    assert Listed(order, kinds)[1..] == Listed(order[1..], kinds);
    if i == 0 {
      assert order[..0] + order[1..] == order[1..] && id !in order[1..];
      ListedUnchanged(order[1..], kinds, id, Question);
    } else {
      var shorter := order[..i] + order[i + 1..];
      ForgetListed(order[1..], kinds, id, i - 1);
      assert shorter[1..] == order[1..][..i - 1] + order[1..][i..];
      ListedFirst(shorter, kinds - {id});
    }
  }
}
