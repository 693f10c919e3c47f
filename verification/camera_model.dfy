/**
 The single-camera capture pipeline as a step system.

 Three actors share state: the framework thread (SubmitRequests, DestroyPipelines), the
 WorkThread (HandleRequest, HandleIntent, CapAndFeed, and the VideoStream calls it makes) and the
 ImgProcThread (HandleImage).  One step is one lock region, or one stretch of thread-local work
 between two lock regions.  The V4L2 driver is a set of queued buffers from which any one may be
 dequeued.
 */
module CameraModel {
  import opened Common

  const MAX_RECOVER_COUNT: nat := 1
  const MAX_STREAM_BUFFERS: nat := 32

  /** fences[j] says that output buffer j arrived with an acquire fence that could be imported. */
  datatype Request = Request(pipeline: nat, fences: seq<bool>)

  datatype Submission = Submission(frame: nat, requests: seq<Request>)

  /** Element idx of the request vector that the submission number vec allocated. */
  datatype Ref = Ref(vec: nat, idx: nat)

  /** The descriptor imported for output buffer buf of a request. */
  datatype Fd = Fd(ref: Ref, buf: nat)

  /** Driver buffer index, tagged with the stream start that allocated it. */
  datatype Buffer = Buffer(gen: nat, index: nat)

  datatype Feed = Feed(ref: Ref, buffer: Option<Buffer>)

  /** Callbacks made to the framework. */
  datatype Outcome =
    | ErrorDevice(ref: Ref, frame: nat)
    | Shutter(ref: Ref, frame: nat)
    | Result(ref: Ref, frame: nat, outBuffers: nat)

  /** History of the requests whose last callback has been made. */
  datatype Done = Failed(ref: Ref) | Captured(ref: Ref)

  /** DestroyPipelines: polling mDeQueRequestIdx; then, with mLock held, draining images; then cleaning. */
  datatype FrameworkPc = FIdle | FWait | FDrain | FClean

  datatype WorkPc =
    | WIdle
    | WNext(vec: nat, idx: nat)                    // head of the loop over one request vector
    | WDrain(vec: nat, idx: nat, recover: bool)    // ConfigAndStart, in drainImages
    | WConfig(vec: nat, idx: nat, recover: bool)   // ConfigAndStart, holding mV4l2Lock
    | WAcquire(vec: nat, idx: nat)                 // onFrameAcquire, at capture_data
    | WFeed(vec: nat, idx: nat, buffer: Option<Buffer>)

  datatype ImagePc =
    | IIdle
    | ITaken(feed: Feed)        // popped from mImageList
    | IProcess(feed: Feed)      // shutter notified
    | IReturn(feed: Feed)       // output buffers filled, V4L2 buffer still held
    | IResult(feed: Feed)       // V4L2 buffer given back
    | ICount(feed: Feed)        // result delivered, mProcdImageIdx not yet bumped
    | INullNotify(feed: Feed)   // no buffer: mProcdImageIdx already bumped, error not yet notified
    | IRelease(feed: Feed)      // in releaseImgFeed

  /** VideoStream fields, and the driver's view of the buffers of the current start. */
  datatype Device = Device(
    started: bool, gen: nat, count: nat,
    queued: set<Buffer>, lost: set<Buffer>,
    frames: nat, omit: nat, recovered: nat)

  datatype State = State(
    subs: seq<Submission>,        // history: every SubmitRequests call so far
    pending: map<nat, nat>,       // map_frame_request: frame number to request vector
    inQue: nat, deQue: nat,
    pipes: set<nat>, nextPipe: nat, built: bool,
    fw: FrameworkPc, work: WorkPc, img: ImagePc,
    images: seq<Feed>, latest: nat, procd: nat,
    dev: Device,
    armed: set<Fd>,               // fence fields that are not -1
    closed: multiset<Fd>,         // history: every close() made
    liveVecs: set<nat>, freedVecs: multiset<nat>,
    log: seq<Outcome>,            // history: callbacks in the order made
    done: seq<Done>,              // history
    released: nat)                // history: requests that went through releaseImgFeed

  datatype StartOutcome = StartFails | Starts(count: nat, omit: nat)

  /** Lock regions of BuildPipelines' caller, SubmitRequests and DestroyPipelines. */
  datatype FrameworkStep =
    | Configure
    | Build
    | Submit(sub: Submission)
    | DestroyBegin
    | DestroyQuiesced
    | DestroyDrained
    | DestroyFinish

  /** HandleRequest, HandleIntent, ConfigAndStart, onFrameAcquire, CapAndFeed. */
  datatype WorkStep =
    | DequeueRequest(frame: nat)
    | SkipRequest
    | Intent(reconfigure: bool)
    | WorkDrained
    | Restart(outcome: StartOutcome)
    | SelectTimeout
    | DequeueFrame(buffer: Buffer, requeued: bool)
    | AcquireFails
    | FeedImage
    | CountRequest

  /** HandleImage. */
  datatype ImageStep =
    | TakeImage
    | DropImage
    | CountNull
    | NotifyError
    | NotifyShutter
    | ProcessImage
    | ReturnBuffer(requeued: bool)
    | NotifyResult
    | CountImage
    | ReleaseImage

  datatype Step = Framework(fw: FrameworkStep) | Work(work: WorkStep) | Image(img: ImageStep)

  const STOPPED := Device(false, 0, 0, {}, {}, 0, 0, 0)

  const INIT := State([], map[], 0, 0, {}, 0, false, FIdle, WIdle, IIdle, [], 0, 0, STOPPED,
                      {}, multiset{}, {}, multiset{}, [], [], 0)

  function VecLen(subs: seq<Submission>, vec: nat): nat {
    if vec < |subs| then |subs[vec].requests| else 0
  }

  predicate ValidRef(subs: seq<Submission>, r: Ref) {
    r.idx < VecLen(subs, r.vec)
  }

  function RequestAt(subs: seq<Submission>, r: Ref): Request
    requires ValidRef(subs, r)
  {
    subs[r.vec].requests[r.idx]
  }

  /** Buffers that VIDIOC_QBUF hands to the driver when a stream of n buffers starts. */
  function StartBuffers(gen: nat, n: nat): set<Buffer> {
    set i | 0 <= i < n :: Buffer(gen, i)
  }

  /** Descriptors imported by SubmitRequests for one request. */
  function ImportedFds(r: Ref, request: Request): set<Fd> {
    set j | 0 <= j < |request.fences| && request.fences[j] :: Fd(r, j)
  }

  function ImportedBy(vec: nat, requests: seq<Request>): set<Fd> {
    set i, j | 0 <= i < |requests| && 0 <= j < |requests[i].fences| && requests[i].fences[j] :: Fd(Ref(vec, i), j)
  }

  /** Fence fields of one request that still hold a descriptor. */
  function ArmedOf(armed: set<Fd>, r: Ref): set<Fd> {
    set fd | fd in armed && fd.ref == r
  }

  /** What closing every armed fence of a request does. */
  function CloseFences(s: State, r: Ref): State {
    var fds := ArmedOf(s.armed, r);
    s.(armed := s.armed - fds, closed := s.closed + multiset(fds))
  }

  /** mLock is held across drainImages and CleanRequestsLocked. */
  predicate HoldsLock(fw: FrameworkPc) {
    fw.FDrain? || fw.FClean?
  }

  predicate IsFirst(pending: map<nat, nat>, frame: nat) {
    frame in pending && forall f | f in pending :: frame <= f
  }

  predicate Busy(work: WorkPc) {
    !work.WIdle?
  }

  /** The request the image thread is busy with, if it has not yet been counted in mProcdImageIdx. */
  predicate Uncounted(img: ImagePc) {
    img.ITaken? || img.IProcess? || img.IReturn? || img.IResult? || img.ICount?
  }

  /** The request the WorkThread is about to capture for. */
  function WorkRef(work: WorkPc): Ref
    requires Busy(work)
  {
    Ref(work.vec, work.idx)
  }

  predicate PipeConfigured(s: State, r: Ref) {
    ValidRef(s.subs, r) && RequestAt(s.subs, r).pipeline in s.pipes
  }

  predicate FrameworkEnabled(s: State, step: FrameworkStep) {
    match step
    case Configure => !HoldsLock(s.fw) && !s.built
    case Build => !HoldsLock(s.fw) && !s.built && s.pipes != {}
    case Submit(_) => !HoldsLock(s.fw)
    case DestroyBegin => s.fw.FIdle?
    case DestroyQuiesced => s.fw.FWait? && s.deQue == s.inQue
    case DestroyDrained => s.fw.FDrain? && s.latest == s.procd
    case DestroyFinish => s.fw.FClean?
  }

  predicate WorkEnabled(s: State, step: WorkStep) {
    match step
    case DequeueRequest(frame) => s.work.WIdle? && !HoldsLock(s.fw) && IsFirst(s.pending, frame)
    case SkipRequest => s.work.WNext? && ValidRef(s.subs, WorkRef(s.work)) && !PipeConfigured(s, WorkRef(s.work))
    case Intent(_) => s.work.WNext? && PipeConfigured(s, WorkRef(s.work))
    case WorkDrained => s.work.WDrain? && s.latest == s.procd
    case Restart(outcome) => s.work.WConfig? && (outcome.Starts? ==> outcome.count <= MAX_STREAM_BUFFERS)
    case SelectTimeout => s.work.WAcquire?
    case DequeueFrame(buffer, _) => s.work.WAcquire? && buffer in s.dev.queued
    case AcquireFails => s.work.WAcquire?
    case FeedImage => s.work.WFeed?
    case CountRequest => s.work.WNext? && s.work.idx == VecLen(s.subs, s.work.vec) && !HoldsLock(s.fw)
  }

  predicate ImageEnabled(s: State, step: ImageStep) {
    match step
    case TakeImage => s.img.IIdle? && s.images != []
    case DropImage => s.img.ITaken? && !PipeConfigured(s, s.img.feed.ref)
    case CountNull => s.img.ITaken? && PipeConfigured(s, s.img.feed.ref) && s.img.feed.buffer.None?
    case NotifyError => s.img.INullNotify? && ValidRef(s.subs, s.img.feed.ref)
    case NotifyShutter => s.img.ITaken? && PipeConfigured(s, s.img.feed.ref) && s.img.feed.buffer.Some?
    case ProcessImage => s.img.IProcess?
    case ReturnBuffer(_) => s.img.IReturn? && s.img.feed.buffer.Some? && !s.work.WConfig?
    case NotifyResult => s.img.IResult? && ValidRef(s.subs, s.img.feed.ref)
    case CountImage => s.img.ICount?
    case ReleaseImage => s.img.IRelease?
  }

  predicate Enabled(s: State, step: Step) {
    match step
    case Framework(f) => FrameworkEnabled(s, f)
    case Work(w) => WorkEnabled(s, w)
    case Image(i) => ImageEnabled(s, i)
  }

  /** STREAMOFF, freed buffer table, and either a failed start or a fresh one. */
  function Restarted(dev: Device, outcome: StartOutcome): Device {
    match outcome
    case StartFails => dev.(started := false, count := 0, queued := {}, lost := {})
    case Starts(n, omit) =>
      Device(true, dev.gen + 1, n, StartBuffers(dev.gen + 1, n), {}, 0, omit, dev.recovered)
  }

  /** A VIDIOC_DQBUF that succeeded: the first frame of a start resets the recovery budget. */
  function Dequeued(dev: Device): Device {
    dev.(frames := dev.frames + 1, recovered := if dev.frames == 0 then 0 else dev.recovered)
  }

  function AfterDequeue(s: State, buffer: Buffer, requeued: bool): State
    requires s.work.WAcquire?
  {
    var v, i := s.work.vec, s.work.idx;
    var d := Dequeued(s.dev);
    if d.omit > 0 then
      if requeued then s.(dev := d.(omit := d.omit - 1))
      else s.(dev := d.(queued := d.queued - {buffer}, lost := d.lost + {buffer}), work := WFeed(v, i, None))
    else
      s.(dev := d.(queued := d.queued - {buffer}), work := WFeed(v, i, Some(buffer)))
  }

  /** releaseImgFeed: close what is still armed; the last request of a vector deletes it. */
  function AfterRelease(s: State, r: Ref): State {
    var t := CloseFences(s, r).(img := IIdle, released := s.released + 1);
    if r.idx + 1 == VecLen(s.subs, r.vec)
    then t.(liveVecs := t.liveVecs - {r.vec}, freedVecs := t.freedVecs + multiset{r.vec})
    else t
  }

  function PendingVectors(pending: map<nat, nat>): set<nat> {
    set f | f in pending :: pending[f]
  }

  /** Armed fences of the requests of the given vectors. */
  function FencesOfVectors(armed: set<Fd>, vecs: set<nat>): set<Fd> {
    set fd | fd in armed && fd.ref.vec in vecs
  }

  /** CleanRequestsLocked: what is still pending is released and its vectors deleted. */
  function CleanPending(s: State): State {
    var vecs := PendingVectors(s.pending);
    var fds := FencesOfVectors(s.armed, vecs);
    s.(pending := map[], armed := s.armed - fds, closed := s.closed + multiset(fds),
       liveVecs := s.liveVecs - vecs, freedVecs := s.freedVecs + multiset(vecs))
  }

  function FrameOf(s: State, r: Ref): nat
    requires ValidRef(s.subs, r)
  {
    s.subs[r.vec].frame
  }

  function ApplyFramework(s: State, step: FrameworkStep): State
    requires FrameworkEnabled(s, step)
  {
    match step
    case Configure => s.(pipes := s.pipes + {s.nextPipe}, nextPipe := s.nextPipe + 1)
    case Build => s.(built := true)
    case Submit(sub) =>
      var v := |s.subs|;
      s.(subs := s.subs + [sub], pending := s.pending[sub.frame := v], inQue := s.inQue + 1,
         armed := s.armed + ImportedBy(v, sub.requests), liveVecs := s.liveVecs + {v})
    case DestroyBegin => if s.built then s.(fw := FWait) else s
    case DestroyQuiesced => s.(fw := FDrain)
    case DestroyDrained => s.(fw := FClean)
    case DestroyFinish => CleanPending(s).(pipes := {}, built := false, fw := FIdle)
  }

  function ApplyWork(s: State, step: WorkStep): State
    requires WorkEnabled(s, step)
  {
    match step
    case DequeueRequest(frame) => s.(pending := s.pending - {frame}, work := WNext(s.pending[frame], 0))
    case SkipRequest => s.(work := WNext(s.work.vec, s.work.idx + 1))
    case Intent(reconfigure) =>
      s.(work := if reconfigure then WDrain(s.work.vec, s.work.idx, false) else WAcquire(s.work.vec, s.work.idx))
    case WorkDrained => s.(work := WConfig(s.work.vec, s.work.idx, s.work.recover))
    case Restart(outcome) =>
      s.(dev := Restarted(s.dev, outcome),
         work := if s.work.recover && outcome.StartFails? then WFeed(s.work.vec, s.work.idx, None)
                 else WAcquire(s.work.vec, s.work.idx))
    case SelectTimeout =>
      s.(dev := s.dev.(recovered := s.dev.recovered + 1),
         work := if s.dev.recovered + 1 > MAX_RECOVER_COUNT then WFeed(s.work.vec, s.work.idx, None)
                 else WDrain(s.work.vec, s.work.idx, true))
    case DequeueFrame(buffer, requeued) => AfterDequeue(s, buffer, requeued)
    case AcquireFails => s.(work := WFeed(s.work.vec, s.work.idx, None))
    case FeedImage =>
      s.(images := s.images + [Feed(WorkRef(s.work), s.work.buffer)], latest := s.latest + 1,
         work := WNext(s.work.vec, s.work.idx + 1))
    case CountRequest => s.(deQue := s.deQue + 1, work := WIdle)
  }

  function ApplyImage(s: State, step: ImageStep): State
    requires ImageEnabled(s, step)
  {
    match step
    case TakeImage => s.(img := ITaken(s.images[0]), images := s.images[1..])
    case DropImage => s.(img := IIdle)
    case CountNull => s.(procd := s.procd + 1, img := INullNotify(s.img.feed))
    case NotifyError =>
      var r := s.img.feed.ref;
      s.(log := s.log + [ErrorDevice(r, FrameOf(s, r))], done := s.done + [Failed(r)], img := IRelease(s.img.feed))
    case NotifyShutter =>
      var r := s.img.feed.ref;
      s.(log := s.log + [Shutter(r, FrameOf(s, r))], img := IProcess(s.img.feed))
    case ProcessImage => CloseFences(s, s.img.feed.ref).(img := IReturn(s.img.feed))
    case ReturnBuffer(requeued) =>
      var b := s.img.feed.buffer.value;
      s.(dev := if requeued then s.dev.(queued := s.dev.queued + {b}) else s.dev.(lost := s.dev.lost + {b}),
         img := IResult(s.img.feed))
    case NotifyResult =>
      var r := s.img.feed.ref;
      s.(log := s.log + [Result(r, FrameOf(s, r), |RequestAt(s.subs, r).fences|)], done := s.done + [Captured(r)],
         img := ICount(s.img.feed))
    case CountImage => s.(procd := s.procd + 1, img := IRelease(s.img.feed))
    case ReleaseImage => AfterRelease(s, s.img.feed.ref)
  }

  function Apply(s: State, step: Step): State
    requires Enabled(s, step)
  {
    match step
    case Framework(f) => ApplyFramework(s, f)
    case Work(w) => ApplyWork(s, w)
    case Image(i) => ApplyImage(s, i)
  }

  /** What the framework promises: frame numbers increase, and requests name configured pipelines. */
  predicate AllowedSubmit(s: State, step: FrameworkStep) {
    step.Submit? ==>
      && (forall k | 0 <= k < |s.subs| :: s.subs[k].frame < step.sub.frame)
      && (forall q | q in step.sub.requests :: q.pipeline in s.pipes)
  }

  predicate Allowed(s: State, step: Step) {
    step.Framework? ==> AllowedSubmit(s, step.fw)
  }

  ghost predicate IsRun(s: State, steps: seq<Step>, t: State)
    decreases |steps|
  {
    if steps == [] then t == s
    else Enabled(s, steps[0]) && Allowed(s, steps[0]) && IsRun(Apply(s, steps[0]), steps[1..], t)
  }

  ghost predicate Reachable(s: State) {
    exists steps :: IsRun(INIT, steps, s)
  }
}
