/** What an upload leaves behind: a success its image, shown until the handle is
    released or uploaded to again; a failure an empty slot
    (lib/window/vulkan/vulkan_images.c). */
module ImageOutcomes {
  import opened Wire
  import opened ImageSteps
  import opened ImageSafety
  import opened ImageRuns

  /** What one decision does to the slot of its upload, and to nothing else. */
  lemma FinishDecides(s: State, ok: bool)
    requires Safe(s) && Enabled(s, FinishUpload(ok))
    ensures Shaped(s) && InRange(s.worker.request.handle)
    ensures var r, t := s.worker.request, Finish(s, ok);
      var before, after := s.slots[r.handle - 1], t.slots[r.handle - 1];
      && |t.slots| == CAPACITY
      && (ok ==> Complete(before.image) && after.image == before.image && after.width == r.width && after.height == r.height
                 && after.residency == Ready && t.destroyed == s.destroyed)
      && (!ok ==> after == Slot(Image(0, 0, 0), 0, 0, Free) && t.destroyed == s.destroyed + [before.image])
      && (forall h :: InRange(h) && h != r.handle ==> t.slots[h - 1] == s.slots[h - 1])
  {
    SafeShaped(s);
    hide Conserved, HistoryOk, SlotsOk, QueueOk, HomesOk, DrawingOk;
  }

  /** How a preparation leaves the slot of its upload and every other. */
  ghost predicate Readied(s: State, t: State, r: Request, made: nat)
    requires |s.slots| == CAPACITY && InRange(r.handle)
  {
    var before := s.slots[r.handle - 1];
    var spare := Complete(before.image);
    && |t.slots| == CAPACITY && t.destroyed == s.destroyed
    && (if spare || (r.width <= s.deviceSide && r.height <= s.deviceSide && made == 3) then
          t.worker == Running(r, Drawing)
          && t.slots[r.handle - 1] ==
             Slot(if spare then before.image else Image(s.next, s.next + 1, s.next + 2), r.width, r.height, Uploading)
        else t.worker == Running(r, Failed))
    && (forall h :: InRange(h) && h != r.handle ==> t.slots[h - 1] == s.slots[h - 1])
  }

  /** When an upload gets an image to draw into: when its slot holds a spare of its
      size, or the device takes its size and all three objects are made. */
  lemma PrepareDecides(s: State, made: nat)
    requires Safe(s) && Enabled(s, PrepareImage(made))
    ensures Shaped(s) && InRange(s.worker.request.handle)
    ensures Readied(s, Prepare(s, made), s.worker.request, made)
  {
    hide Safe, Readied, Prepare, Waiting;
    SafeShaped(s);
    StartedWaits(s);
    PrepareWaiting(s, made);
  }

  lemma StartedWaits(s: State)
    requires Safe(s) && !s.gone && s.worker.Running? && s.worker.stage.Started?
    ensures |s.slots| == CAPACITY && InRange(s.worker.request.handle)
    ensures Waiting(s.slots[s.worker.request.handle - 1], s.worker.request)
  {
    hide Conserved, HistoryOk, SlotsOk, QueueOk, HomesOk, DrawingOk, Bounded, Waiting;
  }

  lemma PrepareWaiting(s: State, made: nat)
    requires |s.slots| == CAPACITY && s.worker.Running? && InRange(s.worker.request.handle) && made <= 3
    requires Waiting(s.slots[s.worker.request.handle - 1], s.worker.request)
    ensures Readied(s, Prepare(s, made), s.worker.request, made)
  {}

  /** From its preparation to its decision an upload keeps its image, whatever the
      other threads do. */
  lemma DrawnImageStays(s: State, a: Action)
    requires Safe(s) && Enabled(s, a) && s.worker.Running? && s.worker.stage.Drawing? && !a.FinishUpload?
    ensures Shaped(s) && InRange(s.worker.request.handle)
    ensures var t, h := Next(s, a), s.worker.request.handle;
      |t.slots| == CAPACITY && t.worker == s.worker && t.slots[h - 1] == s.slots[h - 1]
  {
    SafeShaped(s);
    var h := s.worker.request.handle;
    assert s.slots[h - 1].residency == Uploading by { hide Conserved, HistoryOk, SlotsOk, QueueOk, HomesOk, DrawingOk; }
    hide Safe;
    if a.AcceptFrame? {
      BusyKept(s, a.releases, a.uploads, h);
    }
  }

  /** A frame leaves an uploading slot alone, even one it names. */
  lemma BusyKept(s: State, releases: seq<nat>, uploads: seq<Request>, handle: nat)
    requires |s.slots| == CAPACITY && InRange(handle) && s.slots[handle - 1].residency == Uploading
    ensures var t := Accept(s, releases, uploads); t.slots[handle - 1] == s.slots[handle - 1] && t.worker == s.worker
  {
    BusyReleases(s, releases, handle);
    BusyOffers(ReleaseAll(s, releases), Considered(uploads), handle);
  }

  lemma {:induction false} BusyReleases(s: State, releases: seq<nat>, handle: nat)
    requires |s.slots| == CAPACITY && InRange(handle) && s.slots[handle - 1].residency == Uploading
    ensures var t := ReleaseAll(s, releases); t.slots[handle - 1] == s.slots[handle - 1] && t.worker == s.worker
    decreases releases
  {
    if releases != [] {
      BusyReleases(Release(s, releases[0]), releases[1..], handle);
    }
  }

  lemma {:induction false} BusyOffers(s: State, uploads: seq<Request>, handle: nat)
    requires |s.slots| == CAPACITY && InRange(handle) && s.slots[handle - 1].residency == Uploading
    ensures var t := OfferAll(s, uploads); t.slots[handle - 1] == s.slots[handle - 1] && t.worker == s.worker
    decreases uploads
  {
    if uploads != [] {
      BusyOffers(Offer(s, uploads[0]), uploads[1..], handle);
    }
  }

  // ---- a shown image stays

  /** None of the uploads accepted from number `from` on is for the handle. */
  predicate NotAccepted(accepted: seq<Request>, from: nat, handle: nat) {
    forall i :: from <= i < |accepted| ==> accepted[i].handle != handle
  }

  predicate NotReleased(a: Action, handle: nat) {
    (a.AcceptFrame? ==> handle !in a.releases) && !a.DestroyAll?
  }

  lemma {:induction false} OthersReleased(s: State, releases: seq<nat>, handle: nat)
    requires |s.slots| == CAPACITY && InRange(handle) && handle !in releases
    ensures var t := ReleaseAll(s, releases); t.slots[handle - 1] == s.slots[handle - 1] && t.accepted == s.accepted
    decreases releases
  {
    if releases != [] {
      OthersReleased(Release(s, releases[0]), releases[1..], handle);
    }
  }

  lemma {:induction false} OthersOffered(s: State, uploads: seq<Request>, handle: nat)
    requires |s.slots| == CAPACITY && InRange(handle) && NotAccepted(OfferAll(s, uploads).accepted, |s.accepted|, handle)
    ensures var t := OfferAll(s, uploads); t.slots[handle - 1] == s.slots[handle - 1]
    decreases uploads
  {
    if uploads != [] {
      var t := Offer(s, uploads[0]);
      AcceptedGrows(t, uploads[1..]);
      if !Refused(s, uploads[0]) {
        assert OfferAll(t, uploads[1..]).accepted[|s.accepted|] == uploads[0];
      }
      OthersOffered(t, uploads[1..], handle);
    }
  }

  lemma {:induction false} AcceptedGrows(s: State, uploads: seq<Request>)
    requires |s.slots| == CAPACITY
    ensures s.accepted <= OfferAll(s, uploads).accepted
    decreases uploads
  {
    if uploads != [] {
      AcceptedGrows(Offer(s, uploads[0]), uploads[1..]);
    }
  }

  lemma {:induction false} ReleasesAcceptNothing(s: State, releases: seq<nat>)
    requires |s.slots| == CAPACITY
    ensures ReleaseAll(s, releases).accepted == s.accepted
    decreases releases
  {
    if releases != [] {
      ReleasesAcceptNothing(Release(s, releases[0]), releases[1..]);
    }
  }

  lemma StepAccepted(s: State, a: Action)
    requires Shaped(s) && Enabled(s, a)
    ensures s.accepted <= Next(s, a).accepted
  {
    if a.AcceptFrame? {
      ReleasesAcceptNothing(s, a.releases);
      AcceptedGrows(ReleaseAll(s, a.releases), Considered(a.uploads));
    }
  }

  lemma {:induction false} RunAccepted(s: State, actions: seq<Action>)
    requires IsRun(s, actions)
    ensures s.accepted <= After(s, actions).accepted
    decreases actions
  {
    if actions != [] {
      StepAccepted(s, actions[0]);
      RunAccepted(Next(s, actions[0]), actions[1..]);
    }
  }

  lemma ReadyStays(s: State, a: Action, handle: nat)
    requires Safe(s) && Enabled(s, a) && NotReleased(a, handle) && InRange(handle)
    requires |s.slots| == CAPACITY && s.slots[handle - 1].residency == Ready
    requires Shaped(s) && NotAccepted(Next(s, a).accepted, |s.accepted|, handle)
    ensures var t := Next(s, a); !t.gone && |t.slots| == CAPACITY && t.slots[handle - 1] == s.slots[handle - 1]
  {
    assert SlotOk(s.slots[handle - 1], handle, Work(s));
    assert s.worker.Running? ==> s.worker.request.handle != handle by {
      assert s.worker.Running? ==> Work(s)[0] == s.worker.request;
    }
    hide Safe;
    if a.AcceptFrame? {
      OthersReleased(s, a.releases, handle);
      OthersOffered(ReleaseAll(s, a.releases), Considered(a.uploads), handle);
      OffersKeepGone(ReleaseAll(s, a.releases), Considered(a.uploads));
      ReleasesKeepGone(s, a.releases);
    }
  }

  lemma {:induction false} OffersKeepGone(s: State, uploads: seq<Request>)
    requires |s.slots| == CAPACITY
    ensures OfferAll(s, uploads).gone == s.gone
    decreases uploads
  {
    if uploads != [] {
      OffersKeepGone(Offer(s, uploads[0]), uploads[1..]);
    }
  }

  lemma {:induction false} ReleasesKeepGone(s: State, releases: seq<nat>)
    requires |s.slots| == CAPACITY
    ensures ReleaseAll(s, releases).gone == s.gone
    decreases releases
  {
    if releases != [] {
      ReleasesKeepGone(Release(s, releases[0]), releases[1..]);
    }
  }

  lemma {:induction false} ReadyStaysOver(s: State, actions: seq<Action>, handle: nat)
    requires Safe(s) && !s.gone && IsRun(s, actions) && InRange(handle)
    requires forall i :: 0 <= i < |actions| ==> NotReleased(actions[i], handle)
    requires |s.slots| == CAPACITY && s.slots[handle - 1].residency == Ready
    requires NotAccepted(After(s, actions).accepted, |s.accepted|, handle)
    ensures var t := After(s, actions);
      Safe(t) && !t.gone && |t.slots| == CAPACITY && t.slots[handle - 1] == s.slots[handle - 1]
    decreases actions
  {
    hide Safe;
    if actions != [] {
      var t := Next(s, actions[0]);
      StepAccepted(s, actions[0]);
      RunAccepted(t, actions[1..]);
      assert After(t, actions[1..]).accepted == After(s, actions).accepted;
      forall i | |s.accepted| <= i < |t.accepted| ensures t.accepted[i].handle != handle {
        assert After(s, actions).accepted[i] == t.accepted[i];
      }
      ReadyStays(s, actions[0], handle);
      StepSafe(s, actions[0]);
      ReadyStaysOver(t, actions[1..], handle);
    }
  }

  /** What ends the showing of a handle: a frame that releases it, another upload to
      it that is accepted, the pool's destruction. */
  ghost predicate LeftAlone(s: State, actions: seq<Action>, handle: nat)
    requires IsRun(s, actions)
  {
    (forall i :: 0 <= i < |actions| ==> NotReleased(actions[i], handle))
    && NotAccepted(After(s, actions).accepted, |s.accepted|, handle)
  }

  /** The slot shows `image` at the size of `r`: its set is found, and none of the
      image's objects was destroyed. */
  ghost predicate ShowsImage(s: State, r: Request, image: Image) {
    && |s.slots| == CAPACITY && InRange(r.handle) && s.slots[r.handle - 1] == Slot(image, r.width, r.height, Ready)
    && SetOf(s, r.handle) == Some(r.handle) && Complete(image)
    && forall id: nat :: id >= 1 && CopiesIn(image, id) > 0 ==> Copies(s.destroyed, id) == 0
  }

  /** After an upload succeeded its slot shows the very image that was drawn into, at
      the upload's size, in every later state of any run, until the handle is released or
      uploaded to again or the pool is destroyed. */
  lemma SuccessShows(s: State, r: Request, actions: seq<Action>)
    requires Reachable(s) && Enabled(s, FinishUpload(true)) && s.worker == Running(r, Drawing)
    requires Shaped(s) && IsRun(Next(s, FinishUpload(true)), actions)
    requires LeftAlone(Next(s, FinishUpload(true)), actions, r.handle)
    ensures ShowsImage(After(Next(s, FinishUpload(true)), actions), r, s.slots[r.handle - 1].image)
  {
    hide Safe, Reachable, Next, Enabled, IsRun, After, Complete;
    Succeeds(s, r);
    var t := Next(s, FinishUpload(true));
    ReadyStaysOver(t, actions, r.handle);
    var u, image := After(t, actions), s.slots[r.handle - 1].image;
    forall id: nat | id >= 1 && CopiesIn(image, id) > 0 ensures Copies(u.destroyed, id) == 0 {
      HeldIsNotDestroyed(u, r.handle, id);
    }
  }

  lemma Succeeds(s: State, r: Request)
    requires Reachable(s) && Enabled(s, FinishUpload(true)) && s.worker == Running(r, Drawing)
    ensures Shaped(s) && InRange(r.handle) && |s.slots| == CAPACITY
    ensures var t := Next(s, FinishUpload(true));
      && Safe(t) && !t.gone && |t.slots| == CAPACITY && t.accepted == s.accepted
      && t.slots[r.handle - 1] == Slot(s.slots[r.handle - 1].image, r.width, r.height, Ready)
      && Complete(s.slots[r.handle - 1].image)
  {
    hide Safe, Reachable;
    ReachableSafe(s);
    FinishDecides(s, true);
    StepSafe(s, FinishUpload(true));
  }

  lemma HeldIsNotDestroyed(s: State, handle: nat, id: nat)
    requires Safe(s) && !s.gone && InRange(handle) && |s.slots| == CAPACITY && id >= 1
    requires CopiesIn(s.slots[handle - 1].image, id) > 0
    ensures Copies(s.destroyed, id) == 0
  {
    assert Once(s, id);
    CopiesUpdate(Images(s.slots), handle - 1, NONE, id);
    NothingInNone(id);
  }

  // ---- the other steps of the window thread and the frame worker

  /** A taken release hands the slot's image to the upload thread, to be destroyed
      later; the window thread destroys nothing. */
  lemma ReleaseHandsOver(s: State, handle: nat)
    requires Safe(s) && !s.gone && InRange(handle)
    ensures |s.slots| == CAPACITY
    ensures var t := Release(s, handle);
      t.destroyed == s.destroyed
      && t.released == (if s.slots[handle - 1].residency == Ready then s.released + [s.slots[handle - 1].image] else s.released)
  {
    if s.slots[handle - 1].residency == Ready {
      ReleasedHasRoom(s, handle);
    }
  }

  /** The set of a handle is found exactly while its slot is ready, and looking it
      up while drawing binds it until the frame ends. */
  lemma LookupBinds(s: State, handle: nat)
    requires Safe(s) && !s.gone
    ensures |s.slots| == CAPACITY
    ensures SetOf(s, handle) == Some(handle) <==> InRange(handle) && s.slots[handle - 1].residency == Ready
    ensures SetOf(s, handle).Some? <==> SetOf(s, handle) == Some(handle)
    ensures Draw(s, handle).drawing == (if SetOf(s, handle).Some? then s.drawing + {handle} else s.drawing)
    ensures Draw(s, handle).(drawing := s.drawing) == s
  {}
}
