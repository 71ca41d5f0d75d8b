/** The object the threads share: fixed arrays updated in place
    (lib/window/vulkan/vulkan_images.c). Each method is one critical section and
    is proved to take exactly one step of the transition system. */
module ImagePools {
  import opened Wire
  import opened ImageSteps
  import opened ImageSafety
  import opened ImageRuns
  import opened ImageOutcomes

  /** What a ring buffer holds, oldest first. */
  function Ring(cells: seq<Request>, head: nat, len: nat): seq<Request>
    requires |cells| == RING && len <= RING
  {
    seq(len, i requires 0 <= i < len => cells[(head + i) % RING])
  }

  lemma RingPush(cells: seq<Request>, head: nat, len: nat, r: Request)
    requires |cells| == RING && len < RING && head < RING
    ensures Ring(cells[(head + len) % RING := r], head, len + 1) == Ring(cells, head, len) + [r]
  {
    var after := cells[(head + len) % RING := r];
    forall i | 0 <= i < len ensures Ring(after, head, len + 1)[i] == Ring(cells, head, len)[i] {
      assert (head + i) % RING != (head + len) % RING;
    }
  }

  lemma RingPop(cells: seq<Request>, head: nat, len: nat)
    requires |cells| == RING && 0 < len <= RING && head < RING
    ensures Ring(cells, head, len)[0] == cells[head]
    ensures Ring(cells, (head + 1) % RING, len - 1) == Ring(cells, head, len)[1..]
  {
    var rest := Ring(cells, (head + 1) % RING, len - 1);
    forall i | 0 <= i < len - 1 ensures rest[i] == Ring(cells, head, len)[i + 1] {
      assert ((head + 1) % RING + i) % RING == (head + (i + 1)) % RING;
    }
  }

  lemma RingLength(cells: seq<Request>, head: nat, len: nat)
    requires |cells| == RING && len <= RING
    ensures |Ring(cells, head, len)| == len
  {}

  lemma ValidHandle(r: Request)
    requires UploadValid(r)
    ensures InRange(r.handle)
  {}

  /** The part of the state the object holds. */
  datatype Shared = Shared(
    slots: seq<Slot>, queue: seq<Request>, done: seq<Completion>, released: seq<Image>,
    fallback: Slot, worker: Worker, running: nat, stopping: bool, deviceSide: nat, next: nat)

  function SharedOf(s: State): Shared {
    Shared(s.slots, s.queue, s.done, s.released, s.fallback, s.worker, RunningCount(s), s.stopping, s.deviceSide, s.next)
  }

  class ImagePool {
    const slots: array<Slot>
    const queue: array<Request>
    const done: array<Completion>
    const released: array<Image>
    const deviceSide: nat
    var fallback: Slot
    var queueHead: nat
    var queueLen: nat
    var running: nat
    var doneLen: nat
    var releasedLen: nat
    var stopping: bool
    /** The upload thread's own locals: its batch, or its request and progress. */
    var worker: Worker
    /** The number Vulkan gives the next object. */
    var next: nat
    ghost var model: State

    /** The arrays and the indices into them. */
    predicate Framed()
      reads this
    {
      && slots.Length == CAPACITY && queue.Length == RING && done.Length == RING && released.Length == CAPACITY
      && queueHead < RING && queueLen <= RING && doneLen <= RING && releasedLen <= CAPACITY
    }

    function Queued(): seq<Request>
      requires Framed()
      reads this, queue
    {
      Ring(queue[..], queueHead, queueLen)
    }

    /** What the arrays hold. */
    function View(): Shared
      requires Framed()
      reads this, slots, queue, done, released
    {
      Shared(slots[..], Queued(), done[..doneLen], released[..releasedLen], fallback, worker, running, stopping, deviceSide, next)
    }

    ghost predicate Valid()
      reads this, slots, queue, done, released
    {
      && Framed()
      && View() == SharedOf(model)
      && Safe(model)
    }

    /** Creation: the fallback is uploaded first, then the thread starts. */
    constructor (deviceSide: nat, made: nat, started: bool)
      requires made <= 3 && (started ==> made == 3)
      ensures Valid() && model == Init(deviceSide, made, started)
      ensures fresh(slots) && fresh(queue) && fresh(done) && fresh(released)
    {
      hide Safe;
      this.deviceSide := deviceSide;
      slots := new Slot[CAPACITY](_ => EMPTY);
      queue := new Request[RING](_ => Request(0, 0, 0, 0, None));
      done := new Completion[RING](_ => Completion(0, false));
      released := new Image[CAPACITY](_ => NONE);
      fallback := Create(EMPTY, 1, 1, made, 1);
      queueHead, queueLen, running, doneLen, releasedLen := 0, 0, 0, 0, 0;
      stopping := !started;
      worker := if started then Idle else Exited;
      next := 1 + made;
      model := Init(deviceSide, made, started);
      new;
      InitSafe(deviceSide, made, started);
      assert slots[..] == model.slots;
    }

    method SetSlot(handle: nat, slot: Slot)
      requires Framed() && InRange(handle)
      modifies slots
      ensures slots[..] == old(slots[..])[handle - 1 := slot]
    {
      slots[handle - 1] := slot;
    }

    method PushReleased(image: Image)
      requires Framed() && releasedLen < CAPACITY
      modifies this`releasedLen, released
      ensures Framed() && released[..releasedLen] == old(released[..releasedLen]) + [image]
    {
      released[releasedLen] := image;
      releasedLen := releasedLen + 1;
    }

    /** A completion is posted while there is room for it. */
    method PostDone(c: Completion)
      requires Framed()
      modifies this`doneLen, done
      ensures Framed() && done[..doneLen] == Post(old(done[..doneLen]), c)
    {
      if doneLen < RING {
        done[doneLen] := c;
        doneLen := doneLen + 1;
      }
    }

    method PushQueue(r: Request)
      requires Framed() && queueLen < RING
      modifies this`queueLen, queue
      ensures Framed() && Queued() == old(Queued()) + [r]
    {
      RingPush(queue[..], queueHead, queueLen, r);
      var tail := (queueHead + queueLen) % RING;
      ghost var cells := queue[..];
      queue[tail] := r;
      queueLen := queueLen + 1;
      assert queue[..] == cells[tail := r];
    }

    method PopQueue() returns (r: Request)
      requires Framed() && queueLen > 0
      modifies this`queueHead, this`queueLen
      ensures Framed() && [r] + Queued() == old(Queued())
    {
      RingPop(queue[..], queueHead, queueLen);
      r := queue[queueHead];
      queueHead := (queueHead + 1) % RING;
      queueLen := queueLen - 1;
    }

    method ReleaseSlot(handle: nat)
      requires Valid() && !model.gone && model.drawing == {}
      modifies this`model, this`releasedLen, slots, released
      ensures Valid() && model == Release(old(model), handle)
      ensures InRange(handle) && old(slots[handle - 1].residency) == Ready ==>
        slots[..] == old(slots[..])[handle - 1 := Slot(Image(0, 0, 0), 0, 0, Free)]
        && released[..releasedLen] == old(released[..releasedLen]) + [old(slots[handle - 1].image)]
      ensures !InRange(handle) || old(slots[handle - 1].residency) != Ready ==>
        slots[..] == old(slots[..]) && released[..releasedLen] == old(released[..releasedLen])
    {
      hide Safe, Ring;
      if InRange(handle) {
        ReleaseHandsOver(model, handle);
      }
      ghost var after := Release(model, handle);
      ReleaseSafe(model, handle);
      if InRange(handle) && slots[handle - 1].residency == Ready && releasedLen < CAPACITY {
        PushReleased(slots[handle - 1].image);
        SetSlot(handle, EMPTY);
      }
      model := after;
    }

    method OfferUpload(upload: Request)
      requires Valid() && !model.gone && model.drawing == {}
      modifies this`model, this`queueLen, this`doneLen, slots, queue, done
      ensures Valid() && model == Offer(old(model), upload)
    {
      hide Safe, Ring, UploadValid;
      ghost var after := Offer(model, upload);
      OfferSafe(model, upload);
      var inRange := InRange(upload.handle);
      var reusable := inRange && Reusable(slots[upload.handle - 1], upload);
      var taken := inRange && slots[upload.handle - 1].residency != Free && !reusable;
      var full := queueLen + running + doneLen >= RING;
      assert |model.queue| == queueLen by { RingLength(queue[..], queueHead, queueLen); }
      if !UploadValid(upload) || taken || full {
        if inRange && slots[upload.handle - 1].residency != Uploading && doneLen < RING {
          PostDone(Completion(upload.handle, false));
        }
      } else {
        ValidHandle(upload);
        SetSlot(upload.handle, slots[upload.handle - 1].(residency := Uploading));
        PushQueue(upload);
      }
      model := after;
    }

    /** Releases first, then at most UPLOADS uploads. */
    method AcceptFrame(releases: seq<nat>, uploads: seq<Request>)
      requires Valid() && Enabled(model, ImageSteps.AcceptFrame(releases, uploads))
      modifies this`model, this`releasedLen, this`queueLen, this`doneLen, slots, queue, done, released
      ensures Valid() && model == Accept(old(model), releases, uploads)
    {
      hide Safe, Release, Offer;
      SafeShaped(model);
      for i := 0 to |releases|
        invariant Valid() && !model.gone && model.drawing == {}
        invariant ReleaseAll(old(model), releases) == ReleaseAll(model, releases[i..])
      {
        assert releases[i..][1..] == releases[i + 1..];
        KeepsFrame(model, releases[i]);
        ReleaseSlot(releases[i]);
      }
      ghost var cleared := model;
      var count := if |uploads| > UPLOADS then UPLOADS else |uploads|;
      ghost var offered := Considered(uploads);
      for i := 0 to count
        invariant Valid() && !model.gone && model.drawing == {}
        invariant OfferAll(cleared, offered) == OfferAll(model, offered[i..])
      {
        assert offered[i..][1..] == offered[i + 1..] && offered[i] == uploads[i];
        KeepsFrameOffer(model, uploads[i]);
        OfferUpload(uploads[i]);
      }
    }

    lemma KeepsFrame(s: State, handle: nat)
      requires |s.slots| == CAPACITY
      ensures Release(s, handle).gone == s.gone && Release(s, handle).drawing == s.drawing
    {}

    lemma KeepsFrameOffer(s: State, r: Request)
      requires |s.slots| == CAPACITY
      ensures Offer(s, r).gone == s.gone && Offer(s, r).drawing == s.drawing
    {}

    /** Reports every completion there is. */
    method TakeCompletions() returns (taken: seq<Completion>)
      requires Valid() && Enabled(model, ReportDone)
      modifies this`model, this`doneLen
      ensures Valid() && model == Report(old(model)) && taken == old(done[..doneLen]) && doneLen == 0
    {
      hide Safe, Ring;
      StepSafe(model, ReportDone);
      taken := done[..doneLen];
      doneLen := 0;
      model := Report(model);
    }

    method Set(handle: nat) returns (set_: Option<nat>)
      requires Valid()
      ensures |model.slots| == CAPACITY && set_ == SetOf(model, handle)
      ensures set_ == if InRange(handle) && slots[handle - 1].residency == Ready then Some(handle) else None
    {
      if !InRange(handle) {
        return None;
      }
      set_ := if slots[handle - 1].residency == Ready then Some(handle) else None;
    }

    /** One turn of the upload thread's loop, once it has something to do:
        stop, or destroy what was released, or start the next upload. */
    method Turn()
      requires Valid() && !model.gone && worker.Idle? && (queueLen != 0 || releasedLen != 0 || stopping)
      modifies this`model, this`worker, this`releasedLen, this`queueHead, this`queueLen, this`running
      ensures Valid() && old(Shaped(model) && Enabled(model, Chosen(model))) && model == old(Next(model, Chosen(model)))
      ensures old(stopping) ==> worker.Exited?
      ensures !old(stopping) && old(releasedLen) > 0 ==> worker == Clearing(old(released[..releasedLen])) && releasedLen == 0
      ensures !old(stopping) && old(releasedLen) == 0 ==>
        worker.Running? && worker.stage.Started? && [worker.request] + Queued() == old(Queued())
    {
      hide Safe, Ring;
      assert |model.queue| == queueLen by { RingLength(queue[..], queueHead, queueLen); }
      StepSafe(model, Chosen(model));
      ghost var after := Next(model, Chosen(model));
      if stopping {
        worker := Exited;
      } else if releasedLen != 0 {
        worker := Clearing(released[..releasedLen]);
        releasedLen := 0;
      } else {
        var request := PopQueue();
        worker := Running(request, Started);
        running := 1;
      }
      model := after;
    }

    /** The thread destroys one image of its batch, the mutex not held. */
    method DestroyImage()
      requires Valid() && Enabled(model, DestroyOne)
      modifies this`model, this`worker
      ensures Valid() && model == DestroyNext(old(model))
      ensures var batch := old(worker.batch);
        batch != [] && model.destroyed == old(model.destroyed) + [batch[0]]
        && worker == if |batch| == 1 then Idle else Clearing(batch[1..])
    {
      hide Safe, Ring;
      StepSafe(model, DestroyOne);
      var batch := worker.batch;
      worker := if |batch| == 1 then Idle else Clearing(batch[1..]);
      model := DestroyNext(model);
    }

    /** The thread gets its slot an image, of which Vulkan makes `made` objects. */
    method PrepareSlot(made: nat)
      requires Valid() && Enabled(model, PrepareImage(made))
      modifies this`model, this`worker, this`next, slots
      ensures Valid() && model == old(Next(model, PrepareImage(made)))
      ensures var r := old(worker.request);
        InRange(r.handle) && worker.Running? && worker.request == r
        && (worker.stage.Drawing? <==>
              old(slots[r.handle - 1].image.image) != 0 || (r.width <= deviceSide && r.height <= deviceSide && made == 3))
        && (worker.stage.Drawing? ==>
              slots[r.handle - 1].residency == Uploading && slots[r.handle - 1].width == r.width
              && slots[r.handle - 1].height == r.height
              && slots[r.handle - 1].image ==
                 if old(slots[r.handle - 1].image.image) != 0 then old(slots[r.handle - 1].image)
                 else Image(old(next), old(next) + 1, old(next) + 2))
    {
      hide Safe, Ring, Create;
      PrepareDecides(model, made);
      SpareIsWhole(model);
      StepSafe(model, PrepareImage(made));
      ghost var after := Next(model, PrepareImage(made));
      var r := worker.request;
      var slot := slots[r.handle - 1];
      var reused := slot.image.image != 0 && slot.width == r.width && slot.height == r.height;
      if reused {
        worker := Running(r, Drawing);
      } else if r.width > deviceSide || r.height > deviceSide {
        worker := Running(r, Failed);
      } else {
        SetSlot(r.handle, Create(slot, r.width, r.height, made, next));
        next := next + made;
        worker := Running(r, if made == 3 then Drawing else Failed);
      }
      model := after;
    }

    /** The thread decides its upload and posts the completion. */
    method FinishRunning(ok: bool)
      requires Valid() && Enabled(model, FinishUpload(ok))
      modifies this`model, this`worker, this`running, this`doneLen, slots, done
      ensures Valid() && model == old(Next(model, FinishUpload(ok)))
      ensures InRange(old(worker.request.handle)) && worker.Idle? && running == 0
      ensures ok ==> var h := old(worker.request.handle);
        slots[..] == old(slots[..])[h - 1 := Slot(old(slots[h - 1].image), old(worker.request.width), old(worker.request.height), Ready)]
        && model.destroyed == old(model.destroyed)
      ensures !ok ==> var h := old(worker.request.handle);
        slots[..] == old(slots[..])[h - 1 := Slot(Image(0, 0, 0), 0, 0, Free)]
        && model.destroyed == old(model.destroyed) + [old(slots[h - 1].image)]
      ensures done[..doneLen] == if old(doneLen) < RING then old(done[..doneLen]) + [Completion(old(worker.request.handle), ok)]
                                 else old(done[..doneLen])
    {
      hide Safe, Ring, Post;
      PostIs(done[..doneLen], Completion(worker.request.handle, ok));
      FinishDecides(model, ok);
      StepSafe(model, FinishUpload(ok));
      ghost var after := Next(model, FinishUpload(ok));
      var r := worker.request;
      running := 0;
      if ok {
        SetSlot(r.handle, slots[r.handle - 1].(residency := Ready));
      } else {
        SetSlot(r.handle, EMPTY);
      }
      PostDone(Completion(r.handle, ok));
      worker := Idle;
      model := after;
    }

    /** After the thread is joined: every slot, what is still released, the fallback. */
    method Destroy()
      requires Valid() && Enabled(model, DestroyAll)
      modifies this`model, this`fallback, this`releasedLen, slots
      ensures Valid() && model == ImageSteps.Destroy(old(model))
      ensures releasedLen == 0 && fallback == Slot(Image(0, 0, 0), 0, 0, Free)
      ensures forall i :: 0 <= i < CAPACITY ==> slots[i] == Slot(Image(0, 0, 0), 0, 0, Free)
    {
      hide Safe, Ring;
      StepSafe(model, DestroyAll);
      ghost var after := ImageSteps.Destroy(model);
      ghost var was := slots[..];
      for i := 0 to CAPACITY
        modifies slots
        invariant forall j :: 0 <= j < CAPACITY ==> slots[j] == if j < i then EMPTY else was[j]
      {
        slots[i] := EMPTY;
      }
      releasedLen := 0;
      fallback := EMPTY;
      model := after;
      assert slots[..] == after.slots;
    }
  }

  lemma PostIs(done: seq<Completion>, c: Completion)
    ensures Post(done, c) == if |done| < RING then done + [c] else done
  {}

  /** An upload that starts finds no image in its slot, or a whole one. */
  lemma SpareIsWhole(s: State)
    requires Safe(s) && !s.gone && s.worker.Running? && s.worker.stage.Started?
    ensures |s.slots| == CAPACITY && InRange(s.worker.request.handle)
    ensures var i := s.slots[s.worker.request.handle - 1].image; Complete(i) <==> i.image != 0
  {}

  /** The step the upload thread takes next, in its order of preference. */
  function Chosen(s: State): Action {
    if s.stopping then Exit else if s.released != [] then TakeBatch else DequeueOne
  }
}
