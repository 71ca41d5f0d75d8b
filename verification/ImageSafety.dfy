/** What holds in every reachable state of the image upload worker. */
module ImageSafety {
  import opened Wire
  import opened ImageSteps

  predicate Complete(i: Image) {
    i.image != 0 && i.memory != 0 && i.view != 0
  }

  predicate Has(work: seq<Request>, handle: nat) {
    exists i :: 0 <= i < |work| && work[i].handle == handle
  }

  predicate Distinct(work: seq<Request>) {
    forall i, j :: 0 <= i < j < |work| ==> work[i].handle != work[j].handle
  }

  /** A slot waiting for its upload holds no image, or a spare of exactly the
      upload's size: so creating one never overwrites another. */
  predicate Waiting(slot: Slot, r: Request) {
    slot == EMPTY.(residency := Uploading) || Drawable(slot, r)
  }

  predicate Drawable(slot: Slot, r: Request) {
    Complete(slot.image) && slot.width == r.width && slot.height == r.height && slot.residency == Uploading
  }

  /** A free slot owns nothing, a ready one a whole image, and a slot is
      uploading exactly when one queued or running upload names it. */
  predicate SlotOk(slot: Slot, handle: nat, work: seq<Request>) {
    match slot.residency
    case Free => slot == EMPTY && !Has(work, handle)
    case Ready => Complete(slot.image) && !Has(work, handle)
    case Uploading => Has(work, handle)
  }

  predicate SlotsOk(slots: seq<Slot>, work: seq<Request>) {
    |slots| == CAPACITY && forall i :: 0 <= i < CAPACITY ==> SlotOk(slots[i], i + 1, work)
  }

  predicate QueueOk(slots: seq<Slot>, queue: seq<Request>) {
    |slots| == CAPACITY &&
    forall i :: 0 <= i < |queue| ==> UploadValid(queue[i]) && Waiting(slots[queue[i].handle - 1], queue[i])
  }

  predicate WorkerOk(slots: seq<Slot>, worker: Worker) {
    match worker
    case Running(r, stage) =>
      |slots| == CAPACITY && UploadValid(r) &&
      (stage == Started ==> Waiting(slots[r.handle - 1], r)) && (stage == Drawing ==> Drawable(slots[r.handle - 1], r))
    case Clearing(batch) => batch != []
    case _ => true
  }

  /** Each waiting released image came from a different slot, which has not been
      filled again since. */
  predicate HomesOk(slots: seq<Slot>, worker: Worker, homes: seq<nat>) {
    && |slots| == CAPACITY
    && (forall i, j :: 0 <= i < j < |homes| ==> homes[i] != homes[j])
    && (forall i :: 0 <= i < |homes| ==> InRange(homes[i]) && slots[homes[i] - 1].residency != Ready)
    && (worker.Running? ==> worker.request.handle !in homes)
  }

  predicate DrawingOk(slots: seq<Slot>, drawing: set<nat>) {
    |slots| == CAPACITY && forall h :: h in drawing ==> InRange(h) && slots[h - 1].residency == Ready
  }

  /** The uploads decided by the upload thread, in order. */
  function Uploads(decided: seq<Decision>): seq<Request> {
    if decided == [] then []
    else Uploads(decided[..|decided| - 1]) + if decided[|decided| - 1].Finished? then [decided[|decided| - 1].request] else []
  }

  function Batch(w: Worker): seq<Image> {
    if w.Clearing? then w.batch else []
  }

  /** How often `images` hold the object `id`. */
  function Copies(images: seq<Image>, id: nat): nat {
    if images == [] then 0 else CopiesIn(images[0], id) + Copies(images[1..], id)
  }

  function CopiesIn(i: Image, id: nat): nat {
    (if i.image == id then 1 else 0) + (if i.memory == id then 1 else 0) + (if i.view == id then 1 else 0)
  }

  /** In how many places the object is: a slot, the fallback, the released list,
      the upload thread's batch, destroyed. */
  function Places(s: State, id: nat): nat {
    Copies(Images(s.slots), id) + CopiesIn(s.fallback.image, id) + Copies(s.released, id)
    + Copies(Batch(s.worker), id) + Copies(s.destroyed, id)
  }

  predicate Once(s: State, id: nat) {
    Places(s, id) == if id < s.next then 1 else 0
  }

  /** Conservation: every object made is in exactly one place. */
  ghost predicate Conserved(s: State) {
    s.next >= 1 && forall id: nat :: id >= 1 ==> Once(s, id)
  }

  /** Every object made was destroyed, once. */
  ghost predicate AllDestroyed(s: State) {
    forall id: nat :: id >= 1 ==> Copies(s.destroyed, id) == if id < s.next then 1 else 0
  }

  predicate HistoryOk(s: State) {
    Uploads(s.decided) + Work(s) == s.accepted
  }

  predicate Bounded(s: State) {
    |Work(s)| <= RING && |s.done| <= RING
  }

  predicate Live(s: State) {
    && SlotsOk(s.slots, Work(s)) && Distinct(Work(s))
    && QueueOk(s.slots, s.queue) && WorkerOk(s.slots, s.worker)
    && |s.homes| == |s.released| && HomesOk(s.slots, s.worker, s.homes)
    && DrawingOk(s.slots, s.drawing)
  }

  ghost predicate Safe(s: State) {
    && Conserved(s) && HistoryOk(s) && Bounded(s)
    && (if s.gone then AllDestroyed(s) else Live(s))
  }

  // ---- bookkeeping

  lemma {:induction false} CopiesUpdate(images: seq<Image>, k: nat, i: Image, id: nat)
    requires k < |images|
    ensures Copies(images[k := i], id) + CopiesIn(images[k], id) == Copies(images, id) + CopiesIn(i, id)
  {
    hide CopiesIn;
    if k == 0 {
      assert images[0 := i][1..] == images[1..];
    } else {
      CopiesUpdate(images[1..], k - 1, i, id);
      assert images[k := i][1..] == images[1..][k - 1 := i];
    }
  }

  lemma {:induction false} CopiesConcat(a: seq<Image>, b: seq<Image>, id: nat)
    ensures Copies(a + b, id) == Copies(a, id) + Copies(b, id)
    decreases |a|
  {
    hide CopiesIn;
    if a == [] {
      assert a + b == b;
    } else {
      CopiesConcat(a[1..], b, id);
      assert (a + b)[1..] == a[1..] + b;
    }
  }

  lemma CopiesSnoc(images: seq<Image>, i: Image, id: nat)
    ensures Copies(images + [i], id) == Copies(images, id) + CopiesIn(i, id)
  {
    CopiesConcat(images, [i], id);
    assert [i][1..] == [];
  }

  lemma SlotUpdate(slots: seq<Slot>, k: nat, slot: Slot, id: nat)
    requires k < |slots|
    ensures Copies(Images(slots[k := slot]), id) + CopiesIn(slots[k].image, id)
            == Copies(Images(slots), id) + CopiesIn(slot.image, id)
  {
    CopiesUpdate(Images(slots), k, slot.image, id);
    assert Images(slots[k := slot]) == Images(slots)[k := slot.image];
  }

  lemma {:induction false} NoCopies(images: seq<Image>, id: nat)
    requires id >= 1 && forall i :: 0 <= i < |images| ==> images[i] == NONE
    ensures Copies(images, id) == 0
  {
    if images != [] {
      NoCopies(images[1..], id);
    }
  }

  /** As long as some slot is ready the released list has room: the guard on its
      capacity never refuses a release. */
  lemma ReleasedHasRoom(s: State, handle: nat)
    requires Live(s) && InRange(handle) && s.slots[handle - 1].residency == Ready
    ensures |s.released| < CAPACITY
  {
    var homes := set i | 0 <= i < |s.homes| :: s.homes[i];
    DistinctCount(s.homes);
    HandlesCount(CAPACITY);
    assert homes <= Handles(CAPACITY) - {handle};
    SubsetCount(homes, Handles(CAPACITY) - {handle});
  }

  lemma {:induction false} DistinctCount(items: seq<nat>)
    requires forall i, j :: 0 <= i < j < |items| ==> items[i] != items[j]
    ensures |set i | 0 <= i < |items| :: items[i]| == |items|
  {
    if items != [] {
      var rest := items[..|items| - 1];
      DistinctCount(rest);
      assert (set i | 0 <= i < |items| :: items[i]) == (set i | 0 <= i < |rest| :: rest[i]) + {items[|items| - 1]};
    }
  }

  ghost function Handles(n: nat): set<nat> {
    if n == 0 then {} else Handles(n - 1) + {n}
  }

  lemma {:induction false} HandlesCount(n: nat)
    ensures |Handles(n)| == n && forall h: nat :: h in Handles(n) <==> 1 <= h <= n
  {
    if n > 0 {
      HandlesCount(n - 1);
    }
  }

  lemma {:induction false} SubsetCount(a: set<nat>, b: set<nat>)
    requires a <= b
    ensures |a| <= |b|
    decreases a
  {
    if x :| x in a {
      SubsetCount(a - {x}, b - {x});
    }
  }

  // ---- every step keeps the state safe

  lemma HasSnoc(work: seq<Request>, r: Request, handle: nat)
    ensures Has(work + [r], handle) <==> Has(work, handle) || handle == r.handle
  {
    if Has(work, handle) {
      var i :| 0 <= i < |work| && work[i].handle == handle;
      assert (work + [r])[i] == work[i];
    }
    assert (work + [r])[|work|] == r;
  }

  lemma HasCons(r: Request, work: seq<Request>, handle: nat)
    ensures Has([r] + work, handle) <==> handle == r.handle || Has(work, handle)
  {
    if Has(work, handle) {
      var i :| 0 <= i < |work| && work[i].handle == handle;
      assert ([r] + work)[i + 1] == work[i];
    }
    assert ([r] + work)[0] == r;
  }

  lemma ReleaseConserved(s: State, handle: nat)
    requires Conserved(s) && |s.slots| == CAPACITY
    ensures Conserved(Release(s, handle))
  {
    var t := Release(s, handle);
    if t != s {
      forall id: nat | id >= 1 ensures Once(t, id) {
        assert Once(s, id);
        hide Copies, CopiesIn, Images;
        SlotUpdate(s.slots, handle - 1, EMPTY, id);
        CopiesSnoc(s.released, s.slots[handle - 1].image, id);
        NothingInNone(id);
      }
    }
  }

  lemma NothingInNone(id: nat)
    requires id >= 1
    ensures CopiesIn(NONE, id) == 0
  {}

  // Changing the slot of one handle, one part of `Live` at a time.

  lemma SlotsUpdate(slots: seq<Slot>, work: seq<Request>, handle: nat, slot: Slot)
    requires SlotsOk(slots, work) && InRange(handle) && SlotOk(slot, handle, work)
    ensures SlotsOk(slots[handle - 1 := slot], work)
  {
    hide SlotOk;
  }

  predicate Unnamed(handle: nat, queue: seq<Request>) {
    forall i :: 0 <= i < |queue| ==> queue[i].handle != handle
  }

  lemma QueueUpdate(slots: seq<Slot>, queue: seq<Request>, handle: nat, slot: Slot)
    requires QueueOk(slots, queue) && InRange(handle) && Unnamed(handle, queue)
    ensures QueueOk(slots[handle - 1 := slot], queue)
  {
    hide Waiting;
    forall i | 0 <= i < |queue|
      ensures UploadValid(queue[i]) && Waiting(slots[handle - 1 := slot][queue[i].handle - 1], queue[i])
    {
      assert UploadValid(queue[i]) && queue[i].handle != handle;
    }
  }

  lemma WorkerUpdate(slots: seq<Slot>, worker: Worker, handle: nat, slot: Slot)
    requires WorkerOk(slots, worker) && |slots| == CAPACITY && InRange(handle)
    requires worker.Running? ==> worker.request.handle != handle
    ensures WorkerOk(slots[handle - 1 := slot], worker)
  {
    hide Waiting, Drawable;
  }

  lemma HomesUpdate(slots: seq<Slot>, worker: Worker, homes: seq<nat>, handle: nat, slot: Slot)
    requires HomesOk(slots, worker, homes) && InRange(handle) && (slot.residency != Ready || handle !in homes)
    ensures HomesOk(slots[handle - 1 := slot], worker, homes)
  {
    forall i | 0 <= i < |homes|
      ensures InRange(homes[i]) && slots[handle - 1 := slot][homes[i] - 1].residency != Ready
    {
      assert InRange(homes[i]) && homes[i] in homes;
    }
  }

  lemma HomesSnoc(slots: seq<Slot>, worker: Worker, homes: seq<nat>, handle: nat)
    requires HomesOk(slots, worker, homes) && InRange(handle) && slots[handle - 1].residency == Free
    requires handle !in homes && (worker.Running? ==> worker.request.handle != handle)
    ensures HomesOk(slots, worker, homes + [handle])
  {
    assert forall i :: 0 <= i < |homes| ==> homes[i] in homes;
  }

  lemma ReleaseLive(s: State, handle: nat)
    requires Live(s) && s.drawing == {}
    ensures Live(Release(s, handle)) && Release(s, handle).drawing == {}
    ensures InRange(handle) ==> Release(s, handle).slots[handle - 1].residency != Ready
    ensures InRange(handle) && s.slots[handle - 1].residency == Ready ==>
              Release(s, handle).slots == s.slots[handle - 1 := EMPTY]
              && Release(s, handle).released == s.released + [s.slots[handle - 1].image]
  {
    if InRange(handle) && s.slots[handle - 1].residency == Ready {
      ReleasedHasRoom(s, handle);
      PendingOrNot(s, handle);
      NotHome(s, handle);
      hide Has, Distinct, UploadValid, SlotsOk, QueueOk, WorkerOk, HomesOk;
      SlotsUpdate(s.slots, Work(s), handle, EMPTY);
      QueueUpdate(s.slots, s.queue, handle, EMPTY);
      WorkerUpdate(s.slots, s.worker, handle, EMPTY);
      HomesUpdate(s.slots, s.worker, s.homes, handle, EMPTY);
      HomesSnoc(s.slots[handle - 1 := EMPTY], s.worker, s.homes, handle);
      assert Work(Release(s, handle)) == Work(s);
    }
  }

  lemma NotHome(s: State, handle: nat)
    requires Live(s) && InRange(handle) && s.slots[handle - 1].residency == Ready
    ensures handle !in s.homes
  {}

  /** The handle of a slot that is not uploading is named by no queued or running upload. */
  lemma PendingOrNot(s: State, handle: nat)
    requires Live(s) && InRange(handle) && s.slots[handle - 1].residency != Uploading
    ensures !Has(Work(s), handle) && Unnamed(handle, s.queue)
    ensures s.worker.Running? ==> s.worker.request.handle != handle
  {
    assert SlotOk(s.slots[handle - 1], handle, Work(s));
    hide Has, Unnamed, SlotsOk, QueueOk, HomesOk, DrawingOk, Distinct;
    if s.worker.Running? {
      UnnamedTail([s.worker.request], s.queue, handle);
    } else {
      assert [] + s.queue == s.queue;
      UnnamedTail([], s.queue, handle);
    }
  }

  lemma UnnamedTail(front: seq<Request>, queue: seq<Request>, handle: nat)
    requires !Has(front + queue, handle)
    ensures Unnamed(handle, queue) && (front != [] ==> front[0].handle != handle)
  {
    assert front != [] ==> (front + queue)[0] == front[0];
    assert forall i :: 0 <= i < |queue| ==> queue[i] == (front + queue)[|front| + i];
  }

  lemma DistinctSnoc(work: seq<Request>, r: Request)
    requires Distinct(work) && !Has(work, r.handle)
    ensures Distinct(work + [r])
  {
    assert forall i :: 0 <= i < |work| ==> work[i].handle != r.handle;
  }

  lemma OfferConserved(s: State, r: Request)
    requires Conserved(s) && |s.slots| == CAPACITY
    ensures Conserved(Offer(s, r))
  {
    var t := Offer(s, r);
    forall id: nat | id >= 1 ensures Once(t, id) {
      assert Once(s, id);
      if !Refused(s, r) {
        hide Copies, CopiesIn, Images;
        SlotUpdate(s.slots, r.handle - 1, t.slots[r.handle - 1], id);
      }
    }
  }

  lemma SlotsSnoc(slots: seq<Slot>, work: seq<Request>, r: Request, slot: Slot)
    requires SlotsOk(slots, work) && InRange(r.handle) && slot.residency == Uploading
    ensures SlotsOk(slots[r.handle - 1 := slot], work + [r])
  {
    forall h: nat ensures Has(work + [r], h) <==> Has(work, h) || h == r.handle { HasSnoc(work, r, h); }
    hide Has;
    var t := slots[r.handle - 1 := slot];
    forall i | 0 <= i < CAPACITY ensures SlotOk(t[i], i + 1, work + [r]) {
      assert SlotOk(slots[i], i + 1, work);
    }
  }

  lemma QueueSnoc(slots: seq<Slot>, queue: seq<Request>, r: Request)
    requires QueueOk(slots, queue) && UploadValid(r) && Waiting(slots[r.handle - 1], r)
    ensures QueueOk(slots, queue + [r])
  {
    hide Waiting, UploadValid;
  }

  lemma OfferLive(s: State, r: Request)
    requires Live(s) && s.drawing == {}
    ensures Live(Offer(s, r)) && Offer(s, r).drawing == {}
  {
    var t := Offer(s, r);
    if !Refused(s, r) {
      var slot := s.slots[r.handle - 1];
      var taken := slot.(residency := Uploading);
      assert Waiting(taken, r) by { assert SlotOk(slot, r.handle, Work(s)); }
      assert Work(t) == Work(s) + [r];
      hide Has, Distinct, SlotsOk, QueueOk, WorkerOk, HomesOk, UploadValid, Unnamed;
      PendingOrNot(s, r.handle);
      DistinctSnoc(Work(s), r);
      SlotsSnoc(s.slots, Work(s), r, taken);
      QueueUpdate(s.slots, s.queue, r.handle, taken);
      QueueSnoc(t.slots, s.queue, r);
      WorkerUpdate(s.slots, s.worker, r.handle, taken);
      HomesUpdate(s.slots, s.worker, s.homes, r.handle, taken);
    }
  }

  // The upload thread.

  lemma TakeReleasedSafe(s: State)
    requires Live(s) && Conserved(s) && s.worker.Idle? && s.released != []
    ensures Live(TakeReleased(s)) && Conserved(TakeReleased(s))
  {
    var t := TakeReleased(s);
    assert Work(t) == Work(s);
    hide SlotsOk, QueueOk, Distinct, DrawingOk;
    forall id: nat | id >= 1 ensures Once(t, id) { assert Once(s, id); }
  }

  lemma DestroyNextSafe(s: State)
    requires Live(s) && Conserved(s) && s.worker.Clearing?
    ensures Live(DestroyNext(s)) && Conserved(DestroyNext(s))
  {
    var t := DestroyNext(s);
    assert Work(t) == Work(s);
    hide SlotsOk, QueueOk, Distinct, DrawingOk;
    forall id: nat | id >= 1 ensures Once(t, id) {
      assert Once(s, id);
      CopiesSnoc(s.destroyed, s.worker.batch[0], id);
      assert Copies(s.worker.batch, id) == CopiesIn(s.worker.batch[0], id) + Copies(s.worker.batch[1..], id);
    }
  }

  lemma DequeueSafe(s: State)
    requires Live(s) && Conserved(s) && s.worker.Idle? && s.queue != [] && s.released == []
    ensures Live(Dequeue(s)) && Conserved(Dequeue(s)) && Work(Dequeue(s)) == Work(s)
  {
    var t := Dequeue(s);
    assert Work(t) == Work(s);
    assert UploadValid(s.queue[0]) && Waiting(s.slots[s.queue[0].handle - 1], s.queue[0]);
    hide SlotsOk, Distinct, DrawingOk, UploadValid, Waiting;
    forall id: nat | id >= 1 ensures Once(t, id) { assert Once(s, id); }
  }

  /** What the running upload's slot may become while it is worked on. */
  lemma RunningUpdate(s: State, slot: Slot)
    requires Live(s) && s.worker.Running? && slot.residency == Uploading
    ensures var slots := s.slots[s.worker.request.handle - 1 := slot];
      SlotsOk(slots, Work(s)) && QueueOk(slots, s.queue) && HomesOk(slots, s.worker, s.homes) && DrawingOk(slots, s.drawing)
  {
    var h := s.worker.request.handle;
    assert Work(s)[0].handle == h;
    assert Has(Work(s), h);
    assert SlotOk(s.slots[h - 1], h, Work(s));
    RunningUnnamed(s);
    hide SlotsOk, QueueOk, HomesOk, Distinct, UploadValid, Has, WorkerOk;
    SlotsUpdate(s.slots, Work(s), h, slot);
    QueueUpdate(s.slots, s.queue, h, slot);
    HomesUpdate(s.slots, s.worker, s.homes, h, slot);
  }

  lemma RunningUnnamed(s: State)
    requires Live(s) && s.worker.Running?
    ensures Unnamed(s.worker.request.handle, s.queue)
    ensures s.slots[s.worker.request.handle - 1].residency == Uploading
  {
    var h := s.worker.request.handle;
    assert Work(s)[0].handle == h;
    assert SlotOk(s.slots[h - 1], h, Work(s));
    forall i | 0 <= i < |s.queue| ensures s.queue[i].handle != h {
      assert Work(s)[i + 1] == s.queue[i];
    }
  }

  lemma PrepareLive(s: State, made: nat)
    requires Live(s) && s.worker.Running? && s.worker.stage == Started && made <= 3 && s.next >= 1
    ensures Live(Prepare(s, made)) && Work(Prepare(s, made)) == Work(s)
  {
    var r, t := s.worker.request, Prepare(s, made);
    var slot := s.slots[r.handle - 1];
    RunningUnnamed(s);
    assert Waiting(slot, r);
    assert Work(t) == Work(s);
    assert WorkerOk(t.slots, t.worker) by {
      hide SlotsOk, QueueOk, HomesOk, Distinct, UploadValid, DrawingOk;
    }
    hide SlotsOk, QueueOk, HomesOk, Distinct, UploadValid, DrawingOk, WorkerOk, Waiting;
    RunningUpdate(s, t.slots[r.handle - 1]);
    assert HomesOk(t.slots, t.worker, s.homes) by {
      assert HomesOk(t.slots, s.worker, s.homes);
      OtherStage(t.slots, r, s.worker.stage, t.worker.stage, s.homes);
    }
  }

  lemma OtherStage(slots: seq<Slot>, r: Request, a: Stage, b: Stage, homes: seq<nat>)
    requires HomesOk(slots, Running(r, a), homes)
    ensures HomesOk(slots, Running(r, b), homes)
  {}

  /** A slot that needs an image made holds none: nothing is overwritten. */
  lemma PrepareMakes(s: State, made: nat)
    requires s.next >= 1 && Live(s) && s.worker.Running? && s.worker.stage == Started && made <= 3
    ensures var t, k := Prepare(s, made), s.worker.request.handle - 1;
      t == s.(slots := t.slots, next := t.next, worker := t.worker) && t.worker.Running? &&
      if t.slots == s.slots then t.next == s.next
      else t.next == s.next + made && t.slots == s.slots[k := t.slots[k]]
           && s.slots[k].image == NONE && t.slots[k].image == Made(NONE, made, s.next)
  {
    var r := s.worker.request;
    assert Waiting(s.slots[r.handle - 1], r);
    hide SlotsOk, QueueOk, HomesOk, Distinct, UploadValid, DrawingOk;
    if made > 0 {
      assert Made(NONE, made, s.next).image == s.next;
    } else {
      assert Create(s.slots[r.handle - 1], r.width, r.height, made, s.next) == s.slots[r.handle - 1];
    }
  }

  lemma PrepareConserved(s: State, made: nat)
    requires Live(s) && Conserved(s) && s.worker.Running? && s.worker.stage == Started && made <= 3
    ensures Conserved(Prepare(s, made))
  {
    var t, k := Prepare(s, made), s.worker.request.handle - 1;
    PrepareMakes(s, made);
    hide Live, Prepare;
    forall id: nat | id >= 1 ensures Once(t, id) {
      assert Once(s, id);
      hide Copies, CopiesIn, Images;
      if t.slots != s.slots {
        SlotUpdate(s.slots, k, t.slots[k], id);
        MadeCopies(made, s.next, id);
      }
    }
  }

  lemma MadeCopies(made: nat, next: nat, id: nat)
    requires made <= 3 && next >= 1 && id >= 1
    ensures CopiesIn(Made(NONE, made, next), id) == if next <= id < next + made then 1 else 0
    ensures CopiesIn(NONE, id) == 0
  {}

  lemma FinishLive(s: State, ok: bool)
    requires Live(s) && s.worker.Running? && s.worker.stage != Started && (s.worker.stage == Failed ==> !ok)
    ensures Live(Finish(s, ok)) && Work(s) == [s.worker.request] + Work(Finish(s, ok))
  {
    var r, t := s.worker.request, Finish(s, ok);
    var slot := t.slots[r.handle - 1];
    RunningUnnamed(s);
    DistinctTail(r, s.queue);
    RunningHome(s.slots, s.worker, s.homes);
    hide SlotsOk, QueueOk, HomesOk, UploadValid, Has, Distinct;
    assert SlotOk(slot, r.handle, s.queue);
    SlotsTail(s.slots, r, s.queue, slot);
    QueueUpdate(s.slots, s.queue, r.handle, slot);
    HomesUpdate(s.slots, Idle, s.homes, r.handle, slot);
    FinishDrawing(s, slot);
  }

  lemma FinishDrawing(s: State, slot: Slot)
    requires Live(s) && s.worker.Running?
    ensures DrawingOk(s.slots[s.worker.request.handle - 1 := slot], s.drawing)
  {
    RunningUnnamed(s);
  }

  lemma DistinctTail(r: Request, queue: seq<Request>)
    requires Distinct([r] + queue)
    ensures Distinct(queue) && !Has(queue, r.handle)
  {
    assert forall i :: 0 <= i < |queue| ==> queue[i] == ([r] + queue)[i + 1];
    assert ([r] + queue)[0] == r;
  }

  lemma RunningHome(slots: seq<Slot>, worker: Worker, homes: seq<nat>)
    requires HomesOk(slots, worker, homes) && worker.Running?
    ensures HomesOk(slots, Idle, homes) && worker.request.handle !in homes
  {}

  lemma SlotsTail(slots: seq<Slot>, r: Request, queue: seq<Request>, slot: Slot)
    requires SlotsOk(slots, [r] + queue) && InRange(r.handle) && SlotOk(slot, r.handle, queue)
    ensures SlotsOk(slots[r.handle - 1 := slot], queue)
  {
    forall h: nat ensures Has([r] + queue, h) <==> h == r.handle || Has(queue, h) { HasCons(r, queue, h); }
    hide Has;
    var t := slots[r.handle - 1 := slot];
    forall i | 0 <= i < CAPACITY ensures SlotOk(t[i], i + 1, queue) {
      assert SlotOk(slots[i], i + 1, [r] + queue);
    }
  }

  lemma FinishConserved(s: State, ok: bool)
    requires Conserved(s) && s.worker.Running? && InRange(s.worker.request.handle) && |s.slots| == CAPACITY
    ensures Conserved(Finish(s, ok))
  {
    var r, t := s.worker.request, Finish(s, ok);
    forall id: nat | id >= 1 ensures Once(t, id) {
      assert Once(s, id);
      SlotUpdate(s.slots, r.handle - 1, t.slots[r.handle - 1], id);
      CopiesSnoc(s.destroyed, s.slots[r.handle - 1].image, id);
      NothingInNone(id);
      hide Copies, CopiesIn, Images;
    }
  }

  lemma UploadsSnoc(decided: seq<Decision>, d: Decision)
    ensures Uploads(decided + [d]) == Uploads(decided) + if d.Finished? then [d.request] else []
  {
    assert (decided + [d])[..|decided|] == decided;
  }

  /** Destruction destroys what is left, and nothing twice. */
  lemma DestroyConserved(s: State)
    requires Conserved(s) && !s.worker.Clearing?
    ensures Conserved(Destroy(s)) && AllDestroyed(Destroy(s))
  {
    var t := Destroy(s);
    forall id: nat | id >= 1
      ensures Once(t, id) && Copies(t.destroyed, id) == if id < t.next then 1 else 0
    {
      assert Once(s, id);
      CopiesSnoc(s.destroyed + Images(s.slots) + s.released, s.fallback.image, id);
      CopiesConcat(s.destroyed + Images(s.slots), s.released, id);
      CopiesConcat(s.destroyed, Images(s.slots), id);
      NoCopies(Images(t.slots), id);
      NothingInNone(id);
      hide CopiesIn, Images;
    }
  }
}
