/** Theorems about whole runs of the image upload worker: from its creation,
    through any interleaving of its threads, to its destruction. */
module ImageRuns {
  import opened Wire
  import opened ImageSteps
  import opened ImageSafety

  lemma InitSafe(deviceSide: nat, made: nat, started: bool)
    requires made <= 3 && (started ==> made == 3)
    ensures Safe(Init(deviceSide, made, started)) && Init(deviceSide, made, started).reported == []
  {
    var s := Init(deviceSide, made, started);
    forall id: nat | id >= 1 ensures Once(s, id) {
      NoCopies(Images(s.slots), id);
      MadeCopies(made, 1, id);
    }
  }

  lemma ReleaseSafe(s: State, handle: nat)
    requires Safe(s) && !s.gone && s.drawing == {}
    ensures var t := Release(s, handle); Safe(t) && !t.gone && t.drawing == {}
  {
    ReleaseLive(s, handle);
    ReleaseConserved(s, handle);
    assert Work(Release(s, handle)) == Work(s);
    hide Live, Conserved;
  }

  lemma {:induction false} ReleaseAllSafe(s: State, handles: seq<nat>)
    requires Safe(s) && !s.gone && s.drawing == {}
    ensures var t := ReleaseAll(s, handles); Safe(t) && !t.gone && t.drawing == {}
    decreases handles
  {
    hide Safe;
    SafeShaped(s);
    if handles != [] {
      ReleaseSafe(s, handles[0]);
      ReleaseAllSafe(Release(s, handles[0]), handles[1..]);
    }
  }

  lemma OfferHistory(s: State, r: Request)
    requires HistoryOk(s) && Bounded(s) && |s.slots| == CAPACITY
    ensures HistoryOk(Offer(s, r)) && Bounded(Offer(s, r))
  {
    var t, before := Offer(s, r), Uploads(s.decided);
    hide UploadValid, Uploads, Reusable;
    UploadsSnoc(s.decided, Rejected(r));
    if !Refused(s, r) {
      assert Work(t) == Work(s) + [r];
      assert before + Work(t) == before + Work(s) + [r];
    } else {
      assert Work(t) == Work(s) && before + [] == before;
    }
  }

  lemma OfferSafe(s: State, r: Request)
    requires Safe(s) && !s.gone && s.drawing == {}
    ensures var t := Offer(s, r); Safe(t) && !t.gone && t.drawing == {}
  {
    OfferLive(s, r);
    OfferConserved(s, r);
    OfferHistory(s, r);
    hide Live, Conserved, HistoryOk, Bounded, Refused, UploadValid;
  }

  lemma {:induction false} OfferAllSafe(s: State, uploads: seq<Request>)
    requires Safe(s) && !s.gone && s.drawing == {}
    ensures var t := OfferAll(s, uploads); Safe(t) && !t.gone && t.drawing == {}
    decreases uploads
  {
    hide Safe;
    SafeShaped(s);
    if uploads != [] {
      OfferSafe(s, uploads[0]);
      OfferAllSafe(Offer(s, uploads[0]), uploads[1..]);
    }
  }

  lemma FinishHistory(s: State, ok: bool)
    requires HistoryOk(s) && Bounded(s) && s.worker.Running? && InRange(s.worker.request.handle) && |s.slots| == CAPACITY
    requires Work(s) == [s.worker.request] + Work(Finish(s, ok))
    ensures HistoryOk(Finish(s, ok)) && Bounded(Finish(s, ok))
  {
    var t, r, before := Finish(s, ok), s.worker.request, Uploads(s.decided);
    UploadsSnoc(s.decided, Finished(r, ok));
    hide Uploads, Work;
    assert before + ([r] + Work(t)) == before + [r] + Work(t);
  }

  /** A step that moves no image and decides no upload. */
  lemma Untouched(s: State, t: State)
    requires Safe(s) && !s.gone && !t.gone
    requires t.slots == s.slots && t.fallback == s.fallback && t.released == s.released && t.homes == s.homes
    requires t.destroyed == s.destroyed && t.next == s.next && t.queue == s.queue
    requires t.worker == s.worker || (!s.worker.Running? && !s.worker.Clearing? && t.worker == Exited)
    requires t.done == s.done || t.done == []
    requires t.decided == s.decided && t.accepted == s.accepted && DrawingOk(t.slots, t.drawing)
    ensures Safe(t)
  {
    assert Work(t) == Work(s);
    forall id: nat | id >= 1 ensures Once(t, id) { assert Once(s, id); }
    hide SlotsOk, QueueOk, Distinct, DrawingOk, Once;
  }

  lemma TakeBatchSafe(s: State)
    requires Safe(s) && Enabled(s, TakeBatch)
    ensures Safe(TakeReleased(s))
  {
    TakeReleasedSafe(s);
    assert Work(TakeReleased(s)) == Work(s);
    hide Live, Conserved, Uploads;
  }

  lemma DestroyOneSafe(s: State)
    requires Safe(s) && Enabled(s, DestroyOne)
    ensures Shaped(s) && Safe(DestroyNext(s))
  {
    DestroyNextSafe(s);
    assert Work(DestroyNext(s)) == Work(s);
    assert Shaped(s) by { hide Conserved, SlotOk, QueueOk, HomesOk; }
    hide Live, Conserved, Uploads;
  }

  lemma DequeueOneSafe(s: State)
    requires Safe(s) && Enabled(s, DequeueOne)
    ensures Safe(Dequeue(s))
  {
    DequeueSafe(s);
    hide Live, Conserved, Uploads, Work;
  }

  lemma PrepareImageSafe(s: State, made: nat)
    requires Safe(s) && Enabled(s, PrepareImage(made))
    ensures Shaped(s) && Safe(Prepare(s, made))
  {
    PrepareLive(s, made);
    PrepareConserved(s, made);
    assert Shaped(s) by { hide Conserved, SlotOk, QueueOk, HomesOk; }
    hide Live, Conserved, Uploads, Work;
  }

  lemma FinishUploadSafe(s: State, ok: bool)
    requires Safe(s) && Enabled(s, FinishUpload(ok))
    ensures Shaped(s) && Safe(Finish(s, ok))
  {
    FinishLive(s, ok);
    FinishConserved(s, ok);
    assert Shaped(s) by { hide Conserved, SlotOk, QueueOk, HomesOk; }
    FinishHistory(s, ok);
    hide Live, Conserved, HistoryOk, Bounded;
  }

  lemma SafeShaped(s: State)
    requires Safe(s) && !s.gone
    ensures Shaped(s) && DrawingOk(s.slots, s.drawing)
  {
    hide Conserved, SlotOk, QueueOk, HomesOk;
  }

  predicate Quiet(a: Action) {
    a.ReportDone? || a.Stop? || a.Exit? || a.DrawHandle? || a.EndFrame?
  }

  lemma QuietSafe(s: State, a: Action)
    requires Safe(s) && Enabled(s, a) && Quiet(a) && Shaped(s)
    ensures Safe(Next(s, a))
  {
    hide Safe;
    SafeShaped(s);
    Untouched(s, Next(s, a));
  }

  /** Every step a thread can take is defined and keeps the state safe. */
  lemma StepSafe(s: State, a: Action)
    requires Safe(s) && Enabled(s, a)
    ensures Shaped(s) && Safe(Next(s, a))
  {
    hide Safe, Shaped, Accept, Report, TakeReleased, DestroyNext, Dequeue, Prepare, Finish, Destroy, Draw;
    SafeShaped(s);
    match a
    case AcceptFrame(releases, uploads) => AcceptSafe(s, releases, uploads);
    case DestroyAll => DestroySafe(s);
    case TakeBatch => TakeBatchSafe(s);
    case DestroyOne => DestroyOneSafe(s);
    case DequeueOne => DequeueOneSafe(s);
    case PrepareImage(made) => PrepareImageSafe(s, made);
    case FinishUpload(ok) => FinishUploadSafe(s, ok);
    case _ => QuietSafe(s, a);
  }

  lemma AcceptSafe(s: State, releases: seq<nat>, uploads: seq<Request>)
    requires Safe(s) && !s.gone && s.drawing == {}
    ensures Shaped(s) && Safe(Accept(s, releases, uploads))
  {
    hide Safe;
    SafeShaped(s);
    ReleaseAllSafe(s, releases);
    OfferAllSafe(ReleaseAll(s, releases), Considered(uploads));
  }

  lemma DestroySafe(s: State)
    requires Safe(s) && !s.gone && s.worker.Exited?
    ensures Safe(Destroy(s))
  {
    DestroyConserved(s);
    hide Live, Conserved, AllDestroyed;
  }

  /** Safety over whole runs. */
  lemma {:induction false} RunSafe(s: State, actions: seq<Action>)
    requires Safe(s) && IsRun(s, actions)
    ensures Safe(After(s, actions))
    decreases actions
  {
    hide Safe;
    if actions != [] {
      StepSafe(s, actions[0]);
      RunSafe(Next(s, actions[0]), actions[1..]);
    }
  }

  /** States some run of the image worker reaches. */
  ghost predicate Reachable(s: State) {
    exists deviceSide: nat, made: nat, started: bool, actions ::
      FromCreation(deviceSide, made, started, actions, s)
  }

  ghost predicate FromCreation(deviceSide: nat, made: nat, started: bool, actions: seq<Action>, s: State) {
    made <= 3 && (started ==> made == 3)
    && IsRun(Init(deviceSide, made, started), actions) && After(Init(deviceSide, made, started), actions) == s
  }

  lemma ReachableSafe(s: State)
    requires Reachable(s)
    ensures Safe(s)
  {
    var deviceSide: nat, made: nat, started: bool, actions :| FromCreation(deviceSide, made, started, actions, s);
    InitSafe(deviceSide, made, started);
    RunSafe(Init(deviceSide, made, started), actions);
  }

  /** No object is lost or destroyed twice, whatever failed half-built; once
      destruction ran, each was destroyed exactly once. */
  lemma ImagesAccountedFor(s: State, id: nat)
    requires Reachable(s) && 1 <= id < s.next
    ensures Places(s, id) == 1
    ensures s.gone ==> Copies(s.destroyed, id) == 1
  {
    ReachableSafe(s);
    assert Once(s, id);
  }

  lemma FreeSlotOwnsNothing(s: State, handle: nat)
    requires Reachable(s) && InRange(handle) && !s.gone
    ensures |s.slots| == CAPACITY
    ensures s.slots[handle - 1].residency == Free ==> s.slots[handle - 1] == EMPTY
  {
    ReachableSafe(s);
    assert SlotOk(s.slots[handle - 1], handle, Work(s));
  }

  /** How many queued or running uploads name a handle. */
  function Named(work: seq<Request>, handle: nat): nat {
    if work == [] then 0 else (if work[0].handle == handle then 1 else 0) + Named(work[1..], handle)
  }

  /** A slot is uploading exactly when one upload, queued or running, names it;
      otherwise none does. */
  lemma UploadingIffPending(s: State, handle: nat)
    requires Reachable(s) && InRange(handle) && !s.gone
    ensures |s.slots| == CAPACITY
    ensures Named(Work(s), handle) == if s.slots[handle - 1].residency == Uploading then 1 else 0
  {
    ReachableSafe(s);
    assert SlotOk(s.slots[handle - 1], handle, Work(s));
    NamedOnce(Work(s), handle);
  }

  lemma {:induction false} NamedOnce(work: seq<Request>, handle: nat)
    requires Distinct(work)
    ensures Named(work, handle) == if Has(work, handle) then 1 else 0
  {
    if work != [] {
      assert [work[0]] + work[1..] == work;
      DistinctTail(work[0], work[1..]);
      HasCons(work[0], work[1..], handle);
      NamedOnce(work[1..], handle);
    }
  }

  // ---- releases

  lemma ReleaseTaken(s: State, handle: nat)
    requires Safe(s) && !s.gone && s.drawing == {}
    ensures var t := Release(s, handle); Safe(t) && !t.gone && t.drawing == {}
    ensures forall h :: InRange(h) ==>
      Release(s, handle).slots[h - 1] == if h == handle && s.slots[h - 1].residency == Ready then EMPTY else s.slots[h - 1]
  {
    ReleaseLive(s, handle);
    ReleaseSafe(s, handle);
    hide Safe;
  }

  /** A release is never refused for want of room: after the releases of a frame
      every ready slot it named is free, every other slot as before. */
  lemma {:induction false} ReleasesAllTaken(s: State, handles: seq<nat>)
    requires Safe(s) && !s.gone && s.drawing == {}
    ensures var t := ReleaseAll(s, handles);
      forall h :: InRange(h) ==>
        t.slots[h - 1] == if h in handles && s.slots[h - 1].residency == Ready then EMPTY else s.slots[h - 1]
    decreases handles
  {
    if handles != [] {
      ReleaseTaken(s, handles[0]);
      hide Safe, Release;
      ReleasesAllTaken(Release(s, handles[0]), handles[1..]);
      assert forall h :: h in handles <==> h == handles[0] || h in handles[1..];
    }
  }

  // ---- frames

  /** The set bound for a handle shows a whole image that is nowhere else: not
      released, not being destroyed, not destroyed, not being written. */
  lemma BoundImageIsLive(s: State, handle: nat, id: nat)
    requires Reachable(s) && !s.gone && |s.slots| == CAPACITY && SetOf(s, handle).Some?
    requires id >= 1 && CopiesIn(s.slots[handle - 1].image, id) > 0
    ensures Complete(s.slots[handle - 1].image)
    ensures Copies(s.released, id) == Copies(Batch(s.worker), id) == Copies(s.destroyed, id) == 0
    ensures Named(Work(s), handle) == 0
  {
    ReachableSafe(s);
    assert SlotOk(s.slots[handle - 1], handle, Work(s));
    NamedOnce(Work(s), handle);
    assert Once(s, id);
    CopiesUpdate(Images(s.slots), handle - 1, NONE, id);
    NothingInNone(id);
  }

  /** While a frame is drawn no step of any thread touches the images it bound. */
  lemma DrawnImagesStay(s: State, a: Action, handle: nat)
    requires Safe(s) && Enabled(s, a) && handle in s.drawing && !a.EndFrame?
    ensures Shaped(s) && InRange(handle)
    ensures var t := Next(s, a);
      |t.slots| == CAPACITY && handle in t.drawing && t.slots[handle - 1] == s.slots[handle - 1]
  {
    SafeShaped(s);
    if s.worker.Running? {
      RunningUnnamed(s);
    }
    hide Safe, Accept, Report, Create;
  }

  // ---- completions

  function Answer(d: Decision): Completion {
    match d
    case Rejected(r) => Completion(r.handle, false)
    case Finished(r, success) => Completion(r.handle, success)
  }

  function Answers(decided: seq<Decision>): seq<Completion> {
    seq(|decided|, i requires 0 <= i < |decided| => Answer(decided[i]))
  }

  /** Every decision was reported or waits to be, once and in order. */
  predicate NoneLost(s: State) {
    s.reported + s.done == Answers(s.decided)
  }

  /** The client offers uploads only while, with them, at most `limit` are in flight. */
  predicate Paced(s: State, a: Action, limit: nat) {
    a.AcceptFrame? ==> InFlight(s) + |a.uploads| <= limit
  }

  ghost predicate IsPacedRun(s: State, actions: seq<Action>, limit: nat)
    decreases actions
  {
    actions != [] ==>
      Shaped(s) && Enabled(s, actions[0]) && Paced(s, actions[0], limit) && IsPacedRun(Next(s, actions[0]), actions[1..], limit)
  }

  lemma {:induction false} PacedIsRun(s: State, actions: seq<Action>, limit: nat)
    requires IsPacedRun(s, actions, limit)
    ensures IsRun(s, actions)
    decreases actions
  {
    if actions != [] {
      PacedIsRun(Next(s, actions[0]), actions[1..], limit);
    }
  }

  lemma PostKept(s: State, d: Decision)
    requires NoneLost(s) && |s.done| < RING
    ensures s.reported + Post(s.done, Answer(d)) == Answers(s.decided + [d])
  {
    assert Answers(s.decided + [d]) == Answers(s.decided) + [Answer(d)];
  }

  lemma OfferKept(s: State, r: Request)
    requires |s.slots| == CAPACITY && InFlight(s) < RING && NoneLost(s)
    ensures NoneLost(Offer(s, r)) && InFlight(Offer(s, r)) <= InFlight(s) + 1
  {
    hide UploadValid, Reusable, Answers;
    PostKept(s, Rejected(r));
  }

  lemma {:induction false} OfferAllKept(s: State, uploads: seq<Request>)
    requires |s.slots| == CAPACITY && InFlight(s) + |uploads| <= RING && NoneLost(s)
    ensures NoneLost(OfferAll(s, uploads)) && InFlight(OfferAll(s, uploads)) <= InFlight(s) + |uploads|
    decreases uploads
  {
    if uploads != [] {
      OfferKept(s, uploads[0]);
      hide NoneLost, InFlight, Offer;
      OfferAllKept(Offer(s, uploads[0]), uploads[1..]);
    }
  }

  lemma {:induction false} ReleaseAllKept(s: State, handles: seq<nat>)
    requires |s.slots| == CAPACITY
    ensures var t := ReleaseAll(s, handles);
      t.queue == s.queue && t.worker == s.worker && t.done == s.done && t.reported == s.reported && t.decided == s.decided
    decreases handles
  {
    if handles != [] {
      ReleaseAllKept(Release(s, handles[0]), handles[1..]);
    }
  }

  lemma StepKept(s: State, a: Action, limit: nat)
    requires Safe(s) && Enabled(s, a) && Paced(s, a, limit) && limit <= RING && InFlight(s) <= limit && NoneLost(s)
    ensures Shaped(s) && InFlight(Next(s, a)) <= limit && NoneLost(Next(s, a))
  {
    hide Safe;
    SafeShaped(s);
    match a
    case AcceptFrame(releases, uploads) =>
      ReleaseAllKept(s, releases);
      var t := ReleaseAll(s, releases);
      assert Work(t) == Work(s);
      OfferAllKept(t, Considered(uploads));
    case FinishUpload(ok) =>
      PostKept(s, Finished(s.worker.request, ok));
    case _ =>
      hide Answers;
  }

  /** As long as the client keeps at most `limit` uploads in flight, and that is
      no more than the rings hold, no completion is dropped over any run. */
  lemma {:induction false} PacedRunKept(s: State, actions: seq<Action>, limit: nat)
    requires Safe(s) && IsPacedRun(s, actions, limit) && limit <= RING && InFlight(s) <= limit && NoneLost(s)
    ensures IsRun(s, actions)
    ensures NoneLost(After(s, actions)) && InFlight(After(s, actions)) <= limit
    decreases actions
  {
    hide Safe, NoneLost, InFlight;
    PacedIsRun(s, actions, limit);
    if actions != [] {
      StepKept(s, actions[0], limit);
      StepSafe(s, actions[0]);
      PacedRunKept(Next(s, actions[0]), actions[1..], limit);
    }
  }

  /** An upload is queued exactly when there is room in flight, it is valid, and its
      slot is free or holds a spare of its size, which it keeps; any other is answered
      with a failure, unless its handle is out of range or already uploading, or the
      completions are full. */
  lemma OfferAnswered(s: State, r: Request)
    requires Safe(s) && !s.gone
    ensures Shaped(s)
    ensures var t := Offer(s, r);
      var known := InRange(r.handle);
      var usable := known && (s.slots[r.handle - 1].residency == Free || Reusable(s.slots[r.handle - 1], r));
      if UploadValid(r) && usable && InFlight(s) < RING then
        Work(t) == Work(s) + [r] && t.done == s.done && t.accepted == s.accepted + [r]
        && t.slots == s.slots[r.handle - 1 := s.slots[r.handle - 1].(residency := Uploading)]
      else
        t.slots == s.slots && Work(t) == Work(s) && t.accepted == s.accepted && t.done ==
          if known && s.slots[r.handle - 1].residency != Uploading && |s.done| < RING
          then s.done + [Completion(r.handle, false)] else s.done
  {
    hide Safe;
    SafeShaped(s);
    assert !Refused(s, r) ==> Work(Offer(s, r)) == Work(s) + [r];
  }

  /** No run of a client that keeps at most `limit` uploads in flight loses a completion. */
  ghost predicate NoLoss(limit: nat) {
    forall deviceSide: nat, made: nat, started: bool, actions ::
      CanPace(deviceSide, made, started, actions, limit) ==> NoneLost(After(Init(deviceSide, made, started), actions))
  }

  ghost predicate CanPace(deviceSide: nat, made: nat, started: bool, actions: seq<Action>, limit: nat)
    ensures CanPace(deviceSide, made, started, actions, limit) ==>
              made <= 3 && (started ==> made == 3) && IsRun(Init(deviceSide, made, started), actions)
  {
    made <= 3 && (started ==> made == 3) && IsPacedRun(Init(deviceSide, made, started), actions, limit)
    && (PacedIsRun(Init(deviceSide, made, started), actions, limit); true)
  }

  /** The reject path does not count against the ring the way uploads do, so the
      client's limit is what keeps completions from being dropped: up to the
      ring's 16 it suffices, above that some run loses one. */
  lemma NoLossIff(limit: nat)
    ensures NoLoss(limit) <==> limit <= RING
  {
    if limit <= RING {
      forall deviceSide: nat, made: nat, started: bool, actions
        | CanPace(deviceSide, made, started, actions, limit)
        ensures NoneLost(After(Init(deviceSide, made, started), actions))
      {
        var s := Init(deviceSide, made, started);
        InitSafe(deviceSide, made, started);
        PacedRunKept(s, actions, limit);
      }
    } else {
      var actions := LosingRun(limit);
      assert CanPace(1, 3, true, actions, limit);
    }
  }

  /** The client's documented limit is well within the ring. */
  lemma ClientLimitSuffices()
    ensures NoLoss(UPLOADS)
  {
    NoLossIff(UPLOADS);
  }

  const GOOD := Request(1, 1, 1, RGBA_BYTES, Some([]))
  const BAD := Request(2, 0, 0, RGBA_BYTES, None)

  /** One upload running, and all but `n` places of the completion ring taken by rejections. */
  predicate Crowded(s: State, n: nat) {
    && n <= RING && |s.slots| == CAPACITY && s.slots[1] == EMPTY && s.slots[0] == EMPTY.(residency := Uploading)
    && s.worker == Running(GOOD, Started) && s.queue == [] && s.reported == []
    && |s.done| == RING - n && |s.decided| == RING - n
    && !s.gone && !s.stopping && s.drawing == {}
  }

  lemma AcceptOne(s: State, r: Request)
    requires |s.slots| == CAPACITY
    ensures Accept(s, [], [r]) == Offer(s, r)
  {
    assert [r][1..] == [] && Considered([r]) == [r] && ReleaseAll(s, []) == s;
    assert OfferAll(s, [r]) == OfferAll(Offer(s, r), []);
  }

  lemma StepFirst(s: State, a: Action, rest: seq<Action>, limit: nat)
    requires Shaped(s) && Enabled(s, a) && Paced(s, a, limit) && IsPacedRun(Next(s, a), rest, limit)
    ensures IsPacedRun(s, [a] + rest, limit) && IsRun(s, [a] + rest) && IsRun(Next(s, a), rest)
    ensures After(s, [a] + rest) == After(Next(s, a), rest)
  {
    assert ([a] + rest)[1..] == rest && ([a] + rest)[0] == a;
    PacedIsRun(Next(s, a), rest, limit);
  }

  lemma LosingRun(limit: nat) returns (actions: seq<Action>)
    requires limit > RING
    ensures IsPacedRun(Init(1, 3, true), actions, limit)
    ensures IsRun(Init(1, 3, true), actions) && !NoneLost(After(Init(1, 3, true), actions))
  {
    var s := Init(1, 3, true);
    AcceptOne(s, GOOD);
    var t := Offer(s, GOOD);
    var u := Dequeue(t);
    var rest := FillAndLose(u, RING, limit);
    StepFirst(t, DequeueOne, rest, limit);
    StepFirst(s, AcceptFrame([], [GOOD]), [DequeueOne] + rest, limit);
    actions := [AcceptFrame([], [GOOD])] + ([DequeueOne] + rest);
  }

  lemma {:induction false} FillAndLose(s: State, n: nat, limit: nat) returns (actions: seq<Action>)
    requires Crowded(s, n) && limit > RING
    ensures IsPacedRun(s, actions, limit) && IsRun(s, actions) && !NoneLost(After(s, actions))
    decreases n
  {
    if n == 0 {
      var t := Prepare(s, 0);
      var u := Finish(t, false);
      assert |u.reported + u.done| == RING && |Answers(u.decided)| == RING + 1;
      StepFirst(t, FinishUpload(false), [], limit);
      StepFirst(s, PrepareImage(0), [FinishUpload(false)] + [], limit);
      actions := [PrepareImage(0)] + ([FinishUpload(false)] + []);
    } else {
      AcceptOne(s, BAD);
      var rest := FillAndLose(Offer(s, BAD), n - 1, limit);
      StepFirst(s, AcceptFrame([], [BAD]), rest, limit);
      actions := [AcceptFrame([], [BAD])] + rest;
    }
  }

  // ---- outcomes

  /** What the last finished upload of a handle came to. */
  function Outcome(decided: seq<Decision>, handle: nat): Option<bool> {
    if decided == [] then None
    else
      var d := decided[|decided| - 1];
      if d.Finished? && d.request.handle == handle then Some(d.success) else Outcome(decided[..|decided| - 1], handle)
  }

  /** A slot is ready only through the last upload of its handle having
      succeeded, the outcome its completion reports. */
  ghost predicate OutcomesOk(s: State) {
    |s.slots| == CAPACITY && forall h :: InRange(h) && s.slots[h - 1].residency == Ready ==> Outcome(s.decided, h) == Some(true)
  }

  lemma OutcomeSnoc(decided: seq<Decision>, d: Decision, handle: nat)
    ensures Outcome(decided + [d], handle)
            == if d.Finished? && d.request.handle == handle then Some(d.success) else Outcome(decided, handle)
  {
    assert (decided + [d])[..|decided|] == decided;
  }

  lemma {:induction false} OfferAllOutcomes(s: State, uploads: seq<Request>)
    requires OutcomesOk(s)
    ensures OutcomesOk(OfferAll(s, uploads))
    decreases uploads
  {
    if uploads != [] {
      var t := Offer(s, uploads[0]);
      forall h | InRange(h) { OutcomeSnoc(s.decided, Rejected(uploads[0]), h); }
      assert OutcomesOk(t) by { hide Outcome, UploadValid, Reusable; }
      OfferAllOutcomes(t, uploads[1..]);
    }
  }

  lemma {:induction false} ReleaseAllOutcomes(s: State, handles: seq<nat>)
    requires OutcomesOk(s)
    ensures OutcomesOk(ReleaseAll(s, handles))
    decreases handles
  {
    if handles != [] {
      ReleaseAllOutcomes(Release(s, handles[0]), handles[1..]);
    }
  }

  lemma StepOutcomes(s: State, a: Action)
    requires OutcomesOk(s) && Shaped(s) && Enabled(s, a)
    ensures OutcomesOk(Next(s, a))
  {
    match a
    case AcceptFrame(releases, uploads) =>
      ReleaseAllOutcomes(s, releases);
      OfferAllOutcomes(ReleaseAll(s, releases), Considered(uploads));
    case FinishUpload(ok) =>
      forall h | InRange(h) { OutcomeSnoc(s.decided, Finished(s.worker.request, ok), h); }
      hide Outcome;
    case _ =>
      hide Outcome;
  }

  lemma {:induction false} RunOutcomes(s: State, actions: seq<Action>)
    requires OutcomesOk(s) && IsRun(s, actions)
    ensures OutcomesOk(After(s, actions))
    decreases actions
  {
    if actions != [] {
      StepOutcomes(s, actions[0]);
      hide OutcomesOk;
      RunOutcomes(Next(s, actions[0]), actions[1..]);
    }
  }

  /** Along any run the uploads finish in the order they were accepted, each
      decided once, and a ready slot shows the last one's success. */
  lemma UploadsDecidedInOrder(s: State)
    requires Reachable(s)
    ensures Uploads(s.decided) + Work(s) == s.accepted
    ensures OutcomesOk(s)
  {
    ReachableSafe(s);
    var deviceSide: nat, made: nat, started: bool, actions :| FromCreation(deviceSide, made, started, actions, s);
    RunOutcomes(Init(deviceSide, made, started), actions);
  }

  /** A released handle is free for a new upload at once: one frame may release
      and upload it, and the upload starts from an empty slot. */
  lemma ReleasedThenUploaded(s: State, releases: seq<nat>, r: Request)
    requires Safe(s) && !s.gone && s.drawing == {} && InFlight(s) < RING
    requires UploadValid(r) && r.handle in releases && Shaped(s) && s.slots[r.handle - 1].residency == Ready
    ensures var t := Accept(s, releases, [r]);
      |t.slots| == CAPACITY && Work(t) == Work(s) + [r] && t.slots[r.handle - 1] == EMPTY.(residency := Uploading)
  {
    ReleasesAllTaken(s, releases);
    ReleaseAllSafe(s, releases);
    ReleaseAllKept(s, releases);
    hide Safe, ReleaseAll;
    var t := ReleaseAll(s, releases);
    assert Work(t) == Work(s);
    OfferAnswered(t, r);
    assert [r][1..] == [] && Considered([r]) == [r];
    assert OfferAll(t, [r]) == OfferAll(Offer(t, r), []);
  }

  // ---- each accepted upload and its completion

  /** Where the upload accepted as number k was decided. */
  function Position(decided: seq<Decision>, k: nat): (p: nat)
    requires k < |Uploads(decided)|
    ensures p < |decided|
  {
    if decided[|decided| - 1].Finished? && k == |Uploads(decided)| - 1 then |decided| - 1
    else Position(decided[..|decided| - 1], k)
  }

  lemma {:induction false} PositionDecides(decided: seq<Decision>, k: nat)
    requires k < |Uploads(decided)|
    ensures var d := decided[Position(decided, k)]; d.Finished? && d.request == Uploads(decided)[k]
  {
    var front, last := decided[..|decided| - 1], decided[|decided| - 1];
    if !(last.Finished? && k == |Uploads(decided)| - 1) {
      PositionDecides(front, k);
    }
  }

  /** Every finished decision is that of exactly one accepted upload. */
  lemma {:induction false} PositionOfFinish(decided: seq<Decision>, p: nat)
    requires p < |decided| && decided[p].Finished?
    ensures |Uploads(decided[..p])| < |Uploads(decided)| && Position(decided, |Uploads(decided[..p])|) == p
    decreases |decided|
  {
    var front := decided[..|decided| - 1];
    if p < |decided| - 1 {
      PositionOfFinish(front, p);
      assert front[..p] == decided[..p];
    } else {
      assert decided[..p] == front;
    }
  }

  lemma {:induction false} PositionsRise(decided: seq<Decision>, j: nat, k: nat)
    requires j < k < |Uploads(decided)|
    ensures Position(decided, j) < Position(decided, k)
  {
    var last := decided[|decided| - 1];
    if !(last.Finished? && k == |Uploads(decided)| - 1) {
      PositionsRise(decided[..|decided| - 1], j, k);
    }
  }

  /** Exactly-once reporting. For a client that keeps within the ring, the k-th
      accepted upload, once decided, has one place in the completions reported
      or waiting, which carries its handle and the outcome that decided its slot;
      different uploads have different places, in order; and when nothing is in
      flight every accepted upload was reported. */
  lemma ReportedExactlyOnce(deviceSide: nat, made: nat, started: bool, actions: seq<Action>, limit: nat, k: nat)
    requires CanPace(deviceSide, made, started, actions, limit) && limit <= RING
    requires k < |After(Init(deviceSide, made, started), actions).accepted|
    ensures var s := After(Init(deviceSide, made, started), actions);
      var completions := s.reported + s.done;
      && |Uploads(s.decided)| <= |s.accepted| && |completions| == |s.decided|
      && (InFlight(s) == 0 ==> |Uploads(s.decided)| == |s.accepted| && completions == s.reported)
      && (k < |Uploads(s.decided)| ==>
            var p := Position(s.decided, k);
            && s.decided[p].Finished? && s.decided[p].request == s.accepted[k]
            && completions[p] == Completion(s.accepted[k].handle, s.decided[p].success)
            && forall j :: 0 <= j < k ==> Position(s.decided, j) < p)
  {
    var start := Init(deviceSide, made, started);
    InitSafe(deviceSide, made, started);
    PacedRunKept(start, actions, limit);
    RunSafe(start, actions);
    var s := After(start, actions);
    assert Uploads(s.decided) + Work(s) == s.accepted && NoneLost(s);
    if k < |Uploads(s.decided)| {
      PositionDecides(s.decided, k);
      forall j | 0 <= j < k ensures Position(s.decided, j) < Position(s.decided, k) { PositionsRise(s.decided, j, k); }
    }
  }
}
