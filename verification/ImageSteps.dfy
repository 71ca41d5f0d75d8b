/** The image upload worker (lib/window/vulkan/vulkan_images.c) as a transition
    system. One action is one critical section of the mutex, or one unlocked
    stretch of the upload thread; actions of the window thread, the upload
    thread and the frame worker interleave in any order. */
module ImageSteps {
  import opened Wire

  const CAPACITY: nat := 512
  const RING: nat := 16
  const UPLOADS: nat := 4
  const MAX_SIDE: nat := 16384
  const RGB_BYTES: nat := 3
  const RGBA_BYTES: nat := 4

  /** The three Vulkan objects behind an image; 0 is the null handle. */
  datatype Image = Image(image: nat, memory: nat, view: nat)
  datatype Residency = Free | Uploading | Ready
  datatype Slot = Slot(image: Image, width: nat, height: nat, residency: Residency)
  datatype Request = Request(handle: nat, width: nat, height: nat, bytesPerPixel: nat, pixels: Option<seq<byte>>)
  datatype Completion = Completion(handle: nat, success: bool)

  const NONE := Image(0, 0, 0)
  const EMPTY := Slot(NONE, 0, 0, Free)

  /** How far the upload thread got with the request it is running. */
  datatype Stage = Started | Failed | Drawing
  datatype Worker = Idle | Clearing(batch: seq<Image>) | Running(request: Request, stage: Stage) | Exited

  /** History: what was decided about each upload, in order. */
  datatype Decision = Rejected(request: Request) | Finished(request: Request, success: bool)

  datatype State = State(
    slots: seq<Slot>,
    fallback: Slot,
    queue: seq<Request>,
    worker: Worker,
    done: seq<Completion>,
    released: seq<Image>,
    stopping: bool,
    gone: bool,
    /** The largest side the device takes. */
    deviceSide: nat,
    /** Handles whose set the frame being drawn looked up. */
    drawing: set<nat>,
    // History, read by no step.
    /** Objects are numbered in the order Vulkan made them. */
    next: nat,
    destroyed: seq<Image>,
    /** The handle each released image came from. */
    homes: seq<nat>,
    accepted: seq<Request>,
    decided: seq<Decision>,
    reported: seq<Completion>)

  predicate InRange(handle: nat) {
    1 <= handle <= CAPACITY
  }

  predicate UploadValid(r: Request) {
    && r.pixels.Some? && InRange(r.handle) && 1 <= r.width <= MAX_SIDE && 1 <= r.height <= MAX_SIDE
    && (r.bytesPerPixel == RGB_BYTES || r.bytesPerPixel == RGBA_BYTES)
  }

  /** Queued uploads behind the running one, in the order they will finish. */
  function Work(s: State): seq<Request> {
    if s.worker.Running? then [s.worker.request] + s.queue else s.queue
  }

  function RunningCount(s: State): nat {
    if s.worker.Running? then 1 else 0
  }

  function InFlight(s: State): nat {
    |Work(s)| + |s.done|
  }

  // ---- the window thread

  function Release(s: State, handle: nat): State
    requires |s.slots| == CAPACITY
  {
    if InRange(handle) && s.slots[handle - 1].residency == Ready && |s.released| < CAPACITY then
      s.(slots := s.slots[handle - 1 := EMPTY],
         released := s.released + [s.slots[handle - 1].image],
         homes := s.homes + [handle])
    else s
  }

  function ReleaseAll(s: State, handles: seq<nat>): (t: State)
    requires |s.slots| == CAPACITY
    ensures |t.slots| == CAPACITY
    decreases handles
  {
    if handles == [] then s else ReleaseAll(Release(s, handles[0]), handles[1..])
  }

  predicate Reusable(slot: Slot, r: Request) {
    slot.residency == Ready && slot.width == r.width && slot.height == r.height
  }

  predicate Refused(s: State, r: Request)
    requires |s.slots| == CAPACITY
  {
    || !UploadValid(r)
    || (s.slots[r.handle - 1].residency != Free && !Reusable(s.slots[r.handle - 1], r))
    || |s.queue| + RunningCount(s) + |s.done| >= RING
  }

  function Post(done: seq<Completion>, c: Completion): seq<Completion> {
    if |done| < RING then done + [c] else done
  }

  function Offer(s: State, r: Request): State
    requires |s.slots| == CAPACITY
  {
    if !Refused(s, r) then
      s.(slots := s.slots[r.handle - 1 := s.slots[r.handle - 1].(residency := Uploading)],
         queue := s.queue + [r],
         accepted := s.accepted + [r])
    else if InRange(r.handle) && s.slots[r.handle - 1].residency != Uploading then
      s.(done := Post(s.done, Completion(r.handle, false)), decided := s.decided + [Rejected(r)])
    else s
  }

  function OfferAll(s: State, uploads: seq<Request>): (t: State)
    requires |s.slots| == CAPACITY
    ensures |t.slots| == CAPACITY
    decreases uploads
  {
    if uploads == [] then s else OfferAll(Offer(s, uploads[0]), uploads[1..])
  }

  /** Only the first UPLOADS uploads of a frame are looked at. */
  function Considered(uploads: seq<Request>): (r: seq<Request>)
    ensures r == uploads[..if |uploads| <= 4 then |uploads| else 4]
  {
    if |uploads| > UPLOADS then uploads[..UPLOADS] else uploads
  }

  function Accept(s: State, releases: seq<nat>, uploads: seq<Request>): State
    requires |s.slots| == CAPACITY
  {
    OfferAll(ReleaseAll(s, releases), Considered(uploads))
  }

  function Report(s: State): State {
    s.(done := [], reported := s.reported + s.done)
  }

  // ---- the upload thread

  function TakeReleased(s: State): State {
    s.(worker := Clearing(s.released), released := [], homes := [])
  }

  function DestroyNext(s: State): State
    requires s.worker.Clearing? && s.worker.batch != []
  {
    s.(worker := if |s.worker.batch| == 1 then Idle else Clearing(s.worker.batch[1..]),
       destroyed := s.destroyed + [s.worker.batch[0]])
  }

  function Dequeue(s: State): State
    requires s.queue != []
  {
    s.(queue := s.queue[1..], worker := Running(s.queue[0], Started))
  }

  /** `image` with the first `made` of its objects made, numbered from `next`. */
  function Made(image: Image, made: nat, next: nat): Image {
    Image(if made >= 1 then next else image.image,
          if made >= 2 then next + 1 else image.memory,
          if made >= 3 then next + 2 else image.view)
  }

  /** Creating an image: `made` objects come into being, three when all went
      well. A failed creation leaves what it made in the slot. */
  function Create(slot: Slot, width: nat, height: nat, made: nat, next: nat): Slot {
    var filled := slot.(image := Made(slot.image, made, next));
    if made == 3 then filled.(width := width, height := height) else filled
  }

  predicate Fits(slot: Slot, r: Request) {
    slot.image.image != 0 && slot.width == r.width && slot.height == r.height
  }

  /** Getting the slot an image of the request's size: the spare it holds, or a
      new one of which Vulkan makes `made` objects. */
  function Prepare(s: State, made: nat): State
    requires s.worker.Running? && InRange(s.worker.request.handle) && |s.slots| == CAPACITY && made <= 3
  {
    var r := s.worker.request;
    var slot := s.slots[r.handle - 1];
    if Fits(slot, r) then s.(worker := Running(r, Drawing))
    else if r.width > s.deviceSide || r.height > s.deviceSide then s.(worker := Running(r, Failed))
    else
      s.(slots := s.slots[r.handle - 1 := Create(slot, r.width, r.height, made, s.next)],
         next := s.next + made,
         worker := Running(r, if made == 3 then Drawing else Failed))
  }

  function Finish(s: State, ok: bool): State
    requires s.worker.Running? && InRange(s.worker.request.handle) && |s.slots| == CAPACITY
  {
    var r := s.worker.request;
    var slot := s.slots[r.handle - 1];
    s.(worker := Idle,
       slots := s.slots[r.handle - 1 := if ok then slot.(residency := Ready) else EMPTY],
       destroyed := if ok then s.destroyed else s.destroyed + [slot.image],
       done := Post(s.done, Completion(r.handle, ok)),
       decided := s.decided + [Finished(r, ok)])
  }

  // ---- the frame worker

  /** The descriptor set bound for a handle: that of its slot while it is ready. */
  function SetOf(s: State, handle: nat): Option<nat>
    requires |s.slots| == CAPACITY
  {
    if InRange(handle) && s.slots[handle - 1].residency == Ready then Some(handle) else None
  }

  function Draw(s: State, handle: nat): State
    requires |s.slots| == CAPACITY
  {
    if SetOf(s, handle).Some? then s.(drawing := s.drawing + {handle}) else s
  }

  // ---- the end

  function Images(slots: seq<Slot>): seq<Image> {
    seq(|slots|, i requires 0 <= i < |slots| => slots[i].image)
  }

  function Destroy(s: State): State {
    s.(slots := seq(|s.slots|, i => EMPTY), fallback := EMPTY, released := [], homes := [], gone := true,
       destroyed := s.destroyed + Images(s.slots) + s.released + [s.fallback.image])
  }

  // ---- runs

  datatype Action =
    | AcceptFrame(releases: seq<nat>, uploads: seq<Request>)
    | ReportDone
    | Stop
    | DestroyAll
    | TakeBatch
    | DestroyOne
    | DequeueOne
    | PrepareImage(made: nat)
    | FinishUpload(ok: bool)
    | Exit
    | DrawHandle(handle: nat)
    | EndFrame

  /** When each thread takes each step. The window thread calls no entry point
      after it began to destroy, and none but Report while a frame is drawn;
      the upload thread looks at `stopping`, then the released list, then the queue. */
  predicate Enabled(s: State, a: Action) {
    !s.gone &&
    match a
    case AcceptFrame(_, _) => !s.stopping && s.drawing == {}
    case ReportDone => !s.stopping
    case Stop => !s.stopping && s.drawing == {}
    case DestroyAll => s.worker.Exited? && s.drawing == {}
    case TakeBatch => s.worker.Idle? && !s.stopping && s.released != []
    case DestroyOne => s.worker.Clearing?
    case DequeueOne => s.worker.Idle? && !s.stopping && s.released == [] && s.queue != []
    case PrepareImage(made) => s.worker.Running? && s.worker.stage.Started? && made <= 3
    case FinishUpload(ok) => s.worker.Running? && !s.worker.stage.Started? && (s.worker.stage.Failed? ==> !ok)
    case Exit => s.worker.Idle? && s.stopping
    case DrawHandle(_) => !s.stopping
    case EndFrame => true
  }

  /** What the steps need of a state to be defined at all. */
  predicate Shaped(s: State) {
    && |s.slots| == CAPACITY
    && (s.worker.Running? ==> InRange(s.worker.request.handle))
    && (s.worker.Clearing? ==> s.worker.batch != [])
  }

  function Next(s: State, a: Action): State
    requires Shaped(s) && Enabled(s, a)
  {
    match a
    case AcceptFrame(releases, uploads) => Accept(s, releases, uploads)
    case ReportDone => Report(s)
    case Stop => s.(stopping := true)
    case DestroyAll => Destroy(s)
    case TakeBatch => TakeReleased(s)
    case DestroyOne => DestroyNext(s)
    case DequeueOne => Dequeue(s)
    case PrepareImage(made) => Prepare(s, made)
    case FinishUpload(ok) => Finish(s, ok)
    case Exit => s.(worker := Exited)
    case DrawHandle(handle) => Draw(s, handle)
    case EndFrame => s.(drawing := {})
  }

  /** Creation uploads a 1x1 fallback first, of which Vulkan makes `made`
      objects; when that or the thread fails the caller never gets the pool, and
      only destruction follows. */
  function Init(deviceSide: nat, made: nat, started: bool): State
    requires made <= 3 && (started ==> made == 3)
  {
    State(seq(CAPACITY, i => EMPTY), Create(EMPTY, 1, 1, made, 1), [], if started then Idle else Exited, [], [],
          !started, false, deviceSide, {}, 1 + made, [], [], [], [], [])
  }

  /** A run: every step enabled where it is taken. */
  ghost predicate IsRun(s: State, actions: seq<Action>)
    decreases actions
  {
    actions != [] ==> Shaped(s) && Enabled(s, actions[0]) && IsRun(Next(s, actions[0]), actions[1..])
  }

  ghost function After(s: State, actions: seq<Action>): State
    requires IsRun(s, actions)
    decreases actions
  {
    if actions == [] then s else After(Next(s, actions[0]), actions[1..])
  }
}
