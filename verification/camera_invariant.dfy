/** The inductive invariant of the capture pipeline, one clause group at a time. */
module CameraInvariant {
  import opened CameraModel
  import opened Common

  // ---------------------------------------------------------------- request order

  /** Requests i..n of vector vec. */
  function VecRefs(vec: nat, i: nat, n: nat): seq<Ref> {
    if i < n then seq(n - i, k requires 0 <= k => Ref(vec, i + k)) else []
  }

  function RefsFrom(subs: seq<Submission>, lo: nat): seq<Ref>
    decreases |subs| - lo
  {
    if lo >= |subs| then [] else VecRefs(lo, 0, VecLen(subs, lo)) + RefsFrom(subs, lo + 1)
  }

  /** Every submitted request, in submission order. */
  function AllRefs(subs: seq<Submission>): seq<Ref> {
    RefsFrom(subs, 0)
  }

  function FeedRefs(images: seq<Feed>): seq<Ref> {
    seq(|images|, i requires 0 <= i < |images| => images[i].ref)
  }

  function ImageRefs(img: ImagePc): seq<Ref> {
    if img.IIdle? then [] else [img.feed.ref]
  }

  function WorkRefs(subs: seq<Submission>, work: WorkPc): seq<Ref> {
    if work.WIdle? then [] else VecRefs(work.vec, work.idx, VecLen(subs, work.vec))
  }

  /** The first vector that the WorkThread has not taken out of map_frame_request. */
  function Next(s: State): nat {
    s.deQue + if Busy(s.work) then 1 else 0
  }

  /** Requests that the image thread has not taken yet, oldest first. */
  function Waiting(s: State): seq<Ref> {
    FeedRefs(s.images) + WorkRefs(s.subs, s.work) + RefsFrom(s.subs, Next(s))
  }

  /** Every request still inside the pipeline, oldest first. */
  function Unreleased(s: State): seq<Ref> {
    ImageRefs(s.img) + Waiting(s)
  }

  function DoneRefs(done: seq<Done>): seq<Ref> {
    seq(|done|, i requires 0 <= i < |done| => done[i].ref)
  }

  /** The callbacks one finished request is entitled to. */
  function CallbacksOf(subs: seq<Submission>, d: Done): seq<Outcome>
    requires ValidRef(subs, d.ref)
  {
    var frame := subs[d.ref.vec].frame;
    if d.Failed? then [ErrorDevice(d.ref, frame)]
    else [Shutter(d.ref, frame), Result(d.ref, frame, |RequestAt(subs, d.ref).fences|)]
  }

  predicate AllValid(subs: seq<Submission>, done: seq<Done>) {
    forall d | d in done :: ValidRef(subs, d.ref)
  }

  function LogOf(subs: seq<Submission>, done: seq<Done>): seq<Outcome>
    requires AllValid(subs, done)
  {
    if done == [] then [] else LogOf(subs, done[..|done| - 1]) + CallbacksOf(subs, done[|done| - 1])
  }

  /** A shutter whose result has not been delivered yet. */
  function OpenShutter(s: State): seq<Outcome> {
    if (s.img.IProcess? || s.img.IReturn? || s.img.IResult?) && ValidRef(s.subs, s.img.feed.ref)
    then [Shutter(s.img.feed.ref, FrameOf(s, s.img.feed.ref))] else []
  }

  // ---------------------------------------------------------------- clause groups

  ghost predicate InvCounters(s: State) {
    && s.inQue == |s.subs|
    && Next(s) <= |s.subs|
    && (Busy(s.work) ==> s.work.vec == s.deQue && s.work.idx <= VecLen(s.subs, s.work.vec))
    && (Busy(s.work) && !s.work.WNext? ==> s.work.idx < VecLen(s.subs, s.work.vec))
    && s.latest == s.procd + |s.images| + (if Uncounted(s.img) then 1 else 0)
  }

  /** map_frame_request holds exactly the submissions from next on, under increasing frame numbers. */
  ghost predicate PendingOk(subs: seq<Submission>, pending: map<nat, nat>, next: nat) {
    && (forall j, k | 0 <= j < k < |subs| :: subs[j].frame < subs[k].frame)
    && (forall v | next <= v < |subs| :: subs[v].frame in pending && pending[subs[v].frame] == v)
    && (forall f | f in pending :: next <= pending[f] < |subs| && subs[pending[f]].frame == f)
  }

  ghost predicate InvPending(s: State) {
    PendingOk(s.subs, s.pending, Next(s))
  }

  /** What the two waits of DestroyPipelines and the wait of ConfigAndStart establish. */
  ghost predicate InvWaits(s: State) {
    && (HoldsLock(s.fw) ==> s.deQue == s.inQue)
    && (s.fw.FClean? ==> s.images == [] && !Uncounted(s.img))
    && (s.work.WConfig? ==> s.images == [] && !Uncounted(s.img))
  }

  ghost predicate InvFlow(s: State) {
    && s.released <= |AllRefs(s.subs)|
    && Unreleased(s) == AllRefs(s.subs)[s.released..]
    && |s.done| == s.released + (if s.img.ICount? || s.img.IRelease? then 1 else 0)
    && |s.done| <= |AllRefs(s.subs)|
    && DoneRefs(s.done) == AllRefs(s.subs)[..|s.done|]
  }

  ghost predicate InvLog(s: State) {
    && AllValid(s.subs, s.done)
    && s.log == LogOf(s.subs, s.done) + OpenShutter(s)
  }

  function Holds(buffer: Option<Buffer>, b: Buffer): nat {
    if buffer == Some(b) then 1 else 0
  }

  function FeedsHolding(images: seq<Feed>, b: Buffer): nat {
    if images == [] then 0 else Holds(images[0].buffer, b) + FeedsHolding(images[1..], b)
  }

  function WorkHolds(work: WorkPc, b: Buffer): nat {
    if work.WFeed? then Holds(work.buffer, b) else 0
  }

  function ImageHolds(img: ImagePc, b: Buffer): nat {
    if img.ITaken? || img.IProcess? || img.IReturn? then Holds(img.feed.buffer, b) else 0
  }

  /** How many owners a buffer has: driver queue, lost, WorkThread, image list, image thread. */
  function Owners(s: State, b: Buffer): nat {
    (if b in s.dev.queued then 1 else 0) + (if b in s.dev.lost then 1 else 0)
    + WorkHolds(s.work, b) + FeedsHolding(s.images, b) + ImageHolds(s.img, b)
  }

  ghost predicate InvBuffers(s: State) {
    && (forall b :: Owners(s, b) == if b in StartBuffers(s.dev.gen, s.dev.count) then 1 else 0)
    && (s.img.IProcess? || s.img.IReturn? || s.img.IResult? || s.img.ICount? ==> s.img.feed.buffer.Some?)
    && (s.img.INullNotify? ==> s.img.feed.buffer.None?)
  }

  /** Requests whose pipeline some thread will still look at. */
  function PipeUsers(s: State): seq<Ref> {
    (if s.img.ITaken? || s.img.IProcess? || s.img.IReturn? || s.img.IResult? then [s.img.feed.ref] else []) + Waiting(s)
  }

  ghost predicate InvPipes(s: State) {
    && (forall r | r in PipeUsers(s) :: ValidRef(s.subs, r) && RequestAt(s.subs, r).pipeline in s.pipes)
    && (forall p | p in s.pipes :: p < s.nextPipe)
  }

  /** Every descriptor ever imported. */
  function Imported(subs: seq<Submission>): set<Fd> {
    set v, i, j | 0 <= v < |subs| && 0 <= i < |subs[v].requests| && 0 <= j < |subs[v].requests[i].fences|
                  && subs[v].requests[i].fences[j] :: Fd(Ref(v, i), j)
  }

  /** Every descriptor is either armed in exactly one unreleased request or was closed once. */
  ghost predicate FencesOk(subs: seq<Submission>, armed: set<Fd>, closed: multiset<Fd>, unreleased: seq<Ref>) {
    && multiset(armed) + closed == multiset(Imported(subs))
    && (forall fd | fd in armed :: fd.ref in unreleased)
  }

  ghost predicate InvFences(s: State) {
    FencesOk(s.subs, s.armed, s.closed, Unreleased(s))
  }

  /** Is the last request of vector v among refs?  An empty vector has none. */
  predicate LastIn(subs: seq<Submission>, v: nat, refs: seq<Ref>) {
    VecLen(subs, v) == 0 || Ref(v, VecLen(subs, v) - 1) in refs
  }

  /** Every vector is either live or was deleted once, and it lives as long as its last request is unreleased. */
  ghost predicate VectorsOk(subs: seq<Submission>, live: set<nat>, freed: multiset<nat>, unreleased: seq<Ref>) {
    && (forall v: nat {:trigger v in live} ::
          (if v in live then 1 else 0) + freed[v] == (if v < |subs| then 1 else 0))
    && (forall v | 0 <= v < |subs| :: v in live <==> LastIn(subs, v, unreleased))
  }

  ghost predicate InvVectors(s: State) {
    VectorsOk(s.subs, s.liveVecs, s.freedVecs, Unreleased(s))
  }

  ghost predicate Inv(s: State) {
    && InvCounters(s) && InvPending(s) && InvWaits(s) && InvFlow(s) && InvLog(s)
    && InvBuffers(s) && InvPipes(s) && InvFences(s) && InvVectors(s)
  }

  // ---------------------------------------------------------------- sequences of requests

  lemma {:induction false} RefsFromAppend(subs: seq<Submission>, sub: Submission, lo: nat)
    requires lo <= |subs|
    ensures RefsFrom(subs + [sub], lo) == RefsFrom(subs, lo) + VecRefs(|subs|, 0, |sub.requests|)
    decreases |subs| - lo
  {
    if lo == |subs| {
      assert RefsFrom(subs + [sub], lo + 1) == [];
    } else {
      RefsFromAppend(subs, sub, lo + 1);
    }
  }

  lemma {:induction false} RefsFromMember(subs: seq<Submission>, lo: nat, r: Ref)
    ensures r in RefsFrom(subs, lo) <==> lo <= r.vec && ValidRef(subs, r)
    decreases |subs| - lo
  {
    if lo >= |subs| {
    } else {
      RefsFromMember(subs, lo + 1, r);
      var here := VecRefs(lo, 0, VecLen(subs, lo));
      assert r.vec == lo && ValidRef(subs, r) ==> here[r.idx] == r;
    }
  }

  predicate Before(a: Ref, b: Ref) {
    a.vec < b.vec || (a.vec == b.vec && a.idx < b.idx)
  }

  lemma {:induction false} RefsFromSorted(subs: seq<Submission>, lo: nat)
    ensures forall j, k | 0 <= j < k < |RefsFrom(subs, lo)| :: Before(RefsFrom(subs, lo)[j], RefsFrom(subs, lo)[k])
    decreases |subs| - lo
  {
    if lo >= |subs| {
    } else {
      RefsFromSorted(subs, lo + 1);
      var here, rest := VecRefs(lo, 0, VecLen(subs, lo)), RefsFrom(subs, lo + 1);
      forall k | 0 <= k < |rest| ensures lo < rest[k].vec {
        assert rest[k] in rest;
        RefsFromMember(subs, lo + 1, rest[k]);
      }
    }
  }

  lemma {:induction false} LogOfExtend(subs: seq<Submission>, sub: Submission, done: seq<Done>)
    requires AllValid(subs, done)
    ensures AllValid(subs + [sub], done)
    ensures LogOf(subs + [sub], done) == LogOf(subs, done)
  {
    if done == [] {
    } else {
      LogOfExtend(subs, sub, done[..|done| - 1]);
      assert done[|done| - 1] in done;
    }
  }

  lemma LogOfAppend(subs: seq<Submission>, done: seq<Done>, d: Done)
    requires AllValid(subs, done) && ValidRef(subs, d.ref)
    ensures AllValid(subs, done + [d])
    ensures LogOf(subs, done + [d]) == LogOf(subs, done) + CallbacksOf(subs, d)
  {
    assert (done + [d])[..|done|] == done;
  }

  lemma {:induction false} FeedsHoldingAppend(images: seq<Feed>, f: Feed, b: Buffer)
    ensures FeedsHolding(images + [f], b) == FeedsHolding(images, b) + Holds(f.buffer, b)
  {
    if images == [] {
      assert (images + [f])[1..] == [];
    } else {
      FeedsHoldingAppend(images[1..], f, b);
      assert (images + [f])[1..] == images[1..] + [f];
    }
  }

  // ---------------------------------------------------------------- preservation

  /** map_frame_request.begin() is the oldest submission not yet taken. */
  lemma FirstPendingIsNext(s: State, frame: nat)
    requires InvCounters(s) && InvPending(s) && IsFirst(s.pending, frame)
    ensures s.pending[frame] == Next(s) < |s.subs|
  {
    assert s.subs[s.pending[frame]].frame == frame;
    assert s.subs[Next(s)].frame in s.pending;
  }

  /** The request under the image thread's hands is the oldest one that is not finished. */
  lemma FinishOldest(s: State, d: Done)
    requires InvFlow(s) && !s.img.IIdle? && !s.img.ICount? && !s.img.IRelease? && d.ref == s.img.feed.ref
    ensures |s.done| < |AllRefs(s.subs)|
    ensures DoneRefs(s.done + [d]) == AllRefs(s.subs)[..|s.done| + 1]
  {
    assert Unreleased(s)[0] == d.ref;
    assert AllRefs(s.subs)[s.released] == d.ref;
    assert DoneRefs(s.done + [d]) == DoneRefs(s.done) + [d.ref];
  }

  lemma FrameworkCounters(s: State, step: FrameworkStep)
    requires InvCounters(s) && InvWaits(s) && FrameworkEnabled(s, step)
    ensures InvCounters(ApplyFramework(s, step)) && InvWaits(ApplyFramework(s, step))
  {
  }

  lemma WorkCounters(s: State, step: WorkStep)
    requires InvCounters(s) && WorkEnabled(s, step)
    requires step.DequeueRequest? ==> InvPending(s)
    ensures InvCounters(ApplyWork(s, step))
  {
    if step.DequeueRequest? {
      FirstPendingIsNext(s, step.frame);
    }
  }

  lemma WorkWaits(s: State, step: WorkStep)
    requires InvCounters(s) && InvWaits(s) && WorkEnabled(s, step)
    ensures InvWaits(ApplyWork(s, step))
  {
  }

  lemma ImageCounters(s: State, step: ImageStep)
    requires InvCounters(s) && InvWaits(s) && ImageEnabled(s, step) && !step.DropImage?
    ensures InvCounters(ApplyImage(s, step)) && InvWaits(ApplyImage(s, step))
  {
  }

  lemma FrameworkPending(s: State, step: FrameworkStep)
    requires InvCounters(s) && InvPending(s) && InvWaits(s) && FrameworkEnabled(s, step) && AllowedSubmit(s, step)
    ensures InvPending(ApplyFramework(s, step))
  {
  }

  lemma DequeuePending(s: State, frame: nat)
    requires InvCounters(s) && InvPending(s) && WorkEnabled(s, DequeueRequest(frame))
    ensures InvPending(ApplyWork(s, DequeueRequest(frame)))
  {
    FirstPendingIsNext(s, frame);
  }

  lemma SamePending(s: State, t: State)
    requires InvPending(s) && t.subs == s.subs && t.pending == s.pending && Next(t) == Next(s)
    ensures InvPending(t)
  {
  }

  lemma WorkPending(s: State, step: WorkStep)
    requires InvCounters(s) && InvPending(s) && WorkEnabled(s, step)
    ensures InvPending(ApplyWork(s, step))
  {
    if step.DequeueRequest? {
      DequeuePending(s, step.frame);
    } else {
      SamePending(s, ApplyWork(s, step));
    }
  }

  /** The stages before the image thread, put back together. */
  lemma SameWaiting(s: State, t: State)
    requires FeedRefs(s.images) == FeedRefs(t.images)
    requires WorkRefs(s.subs, s.work) == WorkRefs(t.subs, t.work) && RefsFrom(s.subs, Next(s)) == RefsFrom(t.subs, Next(t))
    ensures Waiting(s) == Waiting(t)
  {
  }

  lemma FrameworkFlow(s: State, step: FrameworkStep)
    requires InvCounters(s) && InvFlow(s) && FrameworkEnabled(s, step)
    ensures InvFlow(ApplyFramework(s, step))
    ensures !step.Submit? ==> Unreleased(ApplyFramework(s, step)) == Unreleased(s)
  {
    if step.Submit? {
      SubmitFlow(s, step.sub);
    } else {
      SameWaiting(s, ApplyFramework(s, step));
    }
  }

  lemma SubmitWaiting(s: State, sub: Submission)
    requires InvCounters(s) && FrameworkEnabled(s, Submit(sub))
    ensures Waiting(ApplyFramework(s, Submit(sub))) == Waiting(s) + VecRefs(|s.subs|, 0, |sub.requests|)
  {
    var t := ApplyFramework(s, Submit(sub));
    RefsFromAppend(s.subs, sub, Next(s));
    assert WorkRefs(t.subs, t.work) == WorkRefs(s.subs, s.work);
  }

  lemma SlicesOfAppend(a: seq<Ref>, more: seq<Ref>, k: nat)
    requires k <= |a|
    ensures (a + more)[k..] == a[k..] + more && (a + more)[..k] == a[..k]
  {
  }

  lemma SubmitUnreleased(s: State, sub: Submission)
    requires InvCounters(s) && FrameworkEnabled(s, Submit(sub))
    ensures Unreleased(ApplyFramework(s, Submit(sub))) == Unreleased(s) + VecRefs(|s.subs|, 0, |sub.requests|)
  {
    SubmitWaiting(s, sub);
    Associative(ImageRefs(s.img), Waiting(s), VecRefs(|s.subs|, 0, |sub.requests|));
  }

  lemma SubmitFlow(s: State, sub: Submission)
    requires InvCounters(s) && InvFlow(s) && FrameworkEnabled(s, Submit(sub))
    ensures InvFlow(ApplyFramework(s, Submit(sub)))
  {
    var all, more := AllRefs(s.subs), VecRefs(|s.subs|, 0, |sub.requests|);
    RefsFromAppend(s.subs, sub, 0);
    SubmitUnreleased(s, sub);
    SlicesOfAppend(all, more, s.released);
    SlicesOfAppend(all, more, |s.done|);
  }

  /** The WorkThread only moves requests from one stage to the next. */
  lemma WorkWaiting(s: State, step: WorkStep)
    requires InvCounters(s) && WorkEnabled(s, step) && !step.SkipRequest?
    requires step.DequeueRequest? ==> InvPending(s)
    ensures Waiting(ApplyWork(s, step)) == Waiting(s)
  {
    var t := ApplyWork(s, step);
    if step.DequeueRequest? {
      FirstPendingIsNext(s, step.frame);
    } else if step.FeedImage? {
      assert WorkRefs(s.subs, s.work) == [WorkRef(s.work)] + WorkRefs(t.subs, t.work);
      assert FeedRefs(t.images) == FeedRefs(s.images) + [WorkRef(s.work)];
    } else {
      SameWaiting(s, t);
    }
  }

  lemma WorkFlow(s: State, step: WorkStep)
    requires InvCounters(s) && InvFlow(s) && WorkEnabled(s, step) && !step.SkipRequest?
    requires step.DequeueRequest? ==> InvPending(s)
    ensures InvFlow(ApplyWork(s, step))
  {
    WorkWaiting(s, step);
  }

  lemma ImageWaiting(s: State, step: ImageStep)
    requires ImageEnabled(s, step)
    ensures Waiting(s) == (if step.TakeImage? then [s.images[0].ref] else []) + Waiting(ApplyImage(s, step))
  {
    var t := ApplyImage(s, step);
    if step.TakeImage? {
      assert FeedRefs(s.images) == [s.images[0].ref] + FeedRefs(t.images);
      var first, work, rest := [s.images[0].ref], WorkRefs(s.subs, s.work), RefsFrom(s.subs, Next(s));
      Associative(first, FeedRefs(t.images), work);
      Associative(first, FeedRefs(t.images) + work, rest);
    } else {
      SameWaiting(s, t);
      NothingBefore(Waiting(t));
    }
  }

  lemma ImageUnreleased(s: State, step: ImageStep)
    requires ImageEnabled(s, step) && !step.DropImage?
    ensures Unreleased(s) == (if step.ReleaseImage? then [s.img.feed.ref] else []) + Unreleased(ApplyImage(s, step))
  {
    var t := ApplyImage(s, step);
    ImageWaiting(s, step);
    NothingBefore(Unreleased(t));
    if step.TakeImage? {
      NothingBefore(Waiting(s));
    } else {
      NothingBefore(Waiting(t));
    }
  }

  lemma NothingBefore(a: seq<Ref>)
    ensures [] + a == a
  {
  }

  lemma ImageFlow(s: State, step: ImageStep)
    requires InvFlow(s) && ImageEnabled(s, step) && !step.DropImage?
    ensures InvFlow(ApplyImage(s, step))
  {
    ImageUnreleased(s, step);
    if step.NotifyError? {
      FinishOldest(s, Failed(s.img.feed.ref));
    } else if step.NotifyResult? {
      FinishOldest(s, Captured(s.img.feed.ref));
    }
  }

  lemma FrameworkLog(s: State, step: FrameworkStep)
    requires InvLog(s) && InvPipes(s) && FrameworkEnabled(s, step)
    ensures InvLog(ApplyFramework(s, step))
  {
    if step.Submit? {
      LogOfExtend(s.subs, step.sub, s.done);
      if s.img.IProcess? || s.img.IReturn? || s.img.IResult? {
        assert s.img.feed.ref in PipeUsers(s);
      }
    }
  }

  lemma WorkLog(s: State, step: WorkStep)
    requires InvLog(s) && WorkEnabled(s, step)
    ensures InvLog(ApplyWork(s, step))
  {
  }

  lemma SameLog(s: State, t: State)
    requires InvLog(s) && t.subs == s.subs && t.done == s.done && t.log == s.log && OpenShutter(t) == OpenShutter(s)
    ensures InvLog(t)
  {
  }

  lemma ShutterLog(s: State)
    requires InvLog(s) && ImageEnabled(s, NotifyShutter)
    ensures InvLog(ApplyImage(s, NotifyShutter))
  {
    var r := s.img.feed.ref;
    assert OpenShutter(s) == [] && LogOf(s.subs, s.done) + [] == LogOf(s.subs, s.done);
    assert OpenShutter(ApplyImage(s, NotifyShutter)) == [Shutter(r, FrameOf(s, r))];
  }

  lemma ImageLog(s: State, step: ImageStep)
    requires InvLog(s) && ImageEnabled(s, step)
    ensures InvLog(ApplyImage(s, step))
  {
    match step
    case NotifyError => NotifyErrorLog(s);
    case NotifyResult => NotifyResultLog(s);
    case NotifyShutter => ShutterLog(s);
    case _ => SameLog(s, ApplyImage(s, step));
  }

  /** Delivering the last callbacks of a request closes its entry in the log. */
  lemma LogGrows(subs: seq<Submission>, log: seq<Outcome>, open: seq<Outcome>, last: seq<Outcome>,
                 done: seq<Done>, d: Done)
    requires AllValid(subs, done) && ValidRef(subs, d.ref)
    requires log == LogOf(subs, done) + open && open + last == CallbacksOf(subs, d)
    ensures AllValid(subs, done + [d]) && log + last == LogOf(subs, done + [d])
  {
    LogOfAppend(subs, done, d);
    Associative(LogOf(subs, done), open, last);
  }

  lemma Associative<T>(a: seq<T>, b: seq<T>, c: seq<T>)
    ensures a + b + c == a + (b + c)
  {
  }

  lemma NotifyErrorLog(s: State)
    requires InvLog(s) && ImageEnabled(s, NotifyError)
    ensures InvLog(ApplyImage(s, NotifyError))
  {
    var d := Failed(s.img.feed.ref);
    NothingOpen(s);
    LogOfAppend(s.subs, s.done, d);
    ClosedLog(ApplyImage(s, NotifyError));
  }

  lemma NothingOpen(s: State)
    requires InvLog(s) && OpenShutter(s) == []
    ensures s.log == LogOf(s.subs, s.done)
  {
  }

  lemma ClosedLog(s: State)
    requires AllValid(s.subs, s.done) && OpenShutter(s) == [] && s.log == LogOf(s.subs, s.done)
    ensures InvLog(s)
  {
  }

  lemma ResultCloses(s: State, last: Outcome)
    requires s.img.IResult? && ValidRef(s.subs, s.img.feed.ref)
    requires last == Result(s.img.feed.ref, FrameOf(s, s.img.feed.ref), |RequestAt(s.subs, s.img.feed.ref).fences|)
    ensures OpenShutter(s) + [last] == CallbacksOf(s.subs, Captured(s.img.feed.ref))
  {
  }

  lemma NotifyResultLog(s: State)
    requires InvLog(s) && ImageEnabled(s, NotifyResult)
    ensures InvLog(ApplyImage(s, NotifyResult))
  {
    var d := Captured(s.img.feed.ref);
    var last := Result(d.ref, FrameOf(s, d.ref), |RequestAt(s.subs, d.ref).fences|);
    var t := ApplyImage(s, NotifyResult);
    ResultCloses(s, last);
    LogGrows(s.subs, s.log, OpenShutter(s), [last], s.done, d);
    assert t.log == s.log + [last] && t.done == s.done + [d] && t.subs == s.subs;
    ClosedLog(t);
  }

  lemma FrameworkBuffers(s: State, step: FrameworkStep)
    requires InvBuffers(s) && FrameworkEnabled(s, step)
    ensures InvBuffers(ApplyFramework(s, step))
  {
    var t := ApplyFramework(s, step);
    forall b ensures Owners(t, b) == Owners(s, b) {
    }
  }

  /** Nobody but the driver owns a buffer when ConfigAndStart is about to free them. */
  lemma RestartBuffers(s: State, outcome: StartOutcome)
    requires InvWaits(s) && InvBuffers(s) && WorkEnabled(s, Restart(outcome))
    ensures InvBuffers(ApplyWork(s, Restart(outcome)))
  {
    var t := ApplyWork(s, Restart(outcome));
    forall b ensures Owners(t, b) == if b in StartBuffers(t.dev.gen, t.dev.count) then 1 else 0 {
      assert FeedsHolding(s.images, b) == 0 && ImageHolds(s.img, b) == 0;
    }
  }

  lemma WorkBuffers(s: State, step: WorkStep)
    requires InvBuffers(s) && WorkEnabled(s, step) && !step.Restart?
    ensures InvBuffers(ApplyWork(s, step))
  {
    var t := ApplyWork(s, step);
    forall b ensures Owners(t, b) == Owners(s, b) {
      if step.FeedImage? {
        FeedsHoldingAppend(s.images, Feed(WorkRef(s.work), s.work.buffer), b);
      }
    }
  }

  lemma ImageBuffers(s: State, step: ImageStep)
    requires InvBuffers(s) && ImageEnabled(s, step) && !step.DropImage?
    ensures InvBuffers(ApplyImage(s, step))
  {
    var t := ApplyImage(s, step);
    forall b ensures Owners(t, b) == Owners(s, b) {
    }
  }

  lemma FrameworkPipes(s: State, step: FrameworkStep)
    requires InvCounters(s) && InvWaits(s) && InvPipes(s) && FrameworkEnabled(s, step) && AllowedSubmit(s, step)
    ensures InvPipes(ApplyFramework(s, step))
  {
    var t := ApplyFramework(s, step);
    if step.Submit? {
      SubmitPipes(s, step.sub);
    } else if step.DestroyFinish? {
      assert PipeUsers(s) == [];
      SameWaiting(s, t);
    } else {
      SameWaiting(s, t);
    }
  }

  lemma SubmitPipes(s: State, sub: Submission)
    requires InvCounters(s) && InvPipes(s) && FrameworkEnabled(s, Submit(sub)) && AllowedSubmit(s, Submit(sub))
    ensures InvPipes(ApplyFramework(s, Submit(sub)))
  {
    var t := ApplyFramework(s, Submit(sub));
    var more := VecRefs(|s.subs|, 0, |sub.requests|);
    SubmitWaiting(s, sub);
    assert PipeUsers(t) == PipeUsers(s) + more;
    forall r | r in PipeUsers(t) ensures ValidRef(t.subs, r) && RequestAt(t.subs, r).pipeline in t.pipes {
      if r in more {
        assert sub.requests[r.idx] in sub.requests;
      } else {
        assert r in PipeUsers(s);
      }
    }
  }

  lemma WorkRefIsUser(s: State)
    ensures Busy(s.work) && ValidRef(s.subs, WorkRef(s.work)) ==> WorkRef(s.work) in PipeUsers(s)
  {
    if Busy(s.work) && ValidRef(s.subs, WorkRef(s.work)) {
      assert WorkRefs(s.subs, s.work)[0] == WorkRef(s.work);
    }
  }

  /** The WorkThread's request is still among the users of its pipeline. */
  lemma SkipCannotHappen(s: State, step: WorkStep)
    requires InvPipes(s) && WorkEnabled(s, step)
    ensures !step.SkipRequest?
  {
    WorkRefIsUser(s);
  }

  lemma WorkPipes(s: State, step: WorkStep)
    requires InvCounters(s) && InvPipes(s) && WorkEnabled(s, step)
    requires step.DequeueRequest? ==> InvPending(s)
    ensures !step.SkipRequest? && InvPipes(ApplyWork(s, step))
  {
    SkipCannotHappen(s, step);
    WorkWaiting(s, step);
    SamePipes(s, ApplyWork(s, step));
  }

  lemma SamePipes(s: State, t: State)
    requires InvPipes(s) && t.subs == s.subs && t.pipes == s.pipes && t.nextPipe == s.nextPipe && t.built == s.built
    requires PipeUsers(t) == PipeUsers(s)
    ensures InvPipes(t)
  {
  }

  /** DropImage cannot happen either. */
  lemma ImagePipes(s: State, step: ImageStep)
    requires InvPipes(s) && ImageEnabled(s, step)
    ensures !step.DropImage? && InvPipes(ApplyImage(s, step))
  {
    assert s.img.ITaken? ==> s.img.feed.ref in PipeUsers(s);
    if !step.DropImage? {
      var t := ApplyImage(s, step);
      ImageWaiting(s, step);
      forall r | r in PipeUsers(t) ensures r in PipeUsers(s) {
      }
    }
  }

  lemma ImportedExtend(subs: seq<Submission>, sub: Submission)
    ensures Imported(subs + [sub]) == Imported(subs) + ImportedBy(|subs|, sub.requests)
    ensures Imported(subs) !! ImportedBy(|subs|, sub.requests)
  {
    var all := subs + [sub];
    forall fd ensures fd in Imported(all) <==> fd in Imported(subs) || fd in ImportedBy(|subs|, sub.requests) {
    }
  }

  lemma SplitSet<T>(a: set<T>, b: set<T>)
    requires b <= a
    ensures multiset(a) == multiset(a - b) + multiset(b)
  {
  }

  /** Closing the armed fences of a request moves them from the armed set to the close history. */
  lemma CloseMoves(s: State, r: Ref)
    ensures multiset(CloseFences(s, r).armed) + CloseFences(s, r).closed == multiset(s.armed) + s.closed
  {
    SplitSet(s.armed, ArmedOf(s.armed, r));
  }

  lemma SubmitFences(s: State, sub: Submission)
    requires InvCounters(s) && InvFences(s) && FrameworkEnabled(s, Submit(sub))
    ensures InvFences(ApplyFramework(s, Submit(sub)))
  {
    var t, added := ApplyFramework(s, Submit(sub)), ImportedBy(|s.subs|, sub.requests);
    ImportedExtend(s.subs, sub);
    SubmitWaiting(s, sub);
    SplitSet(Imported(t.subs), added);
    assert Imported(t.subs) - added == Imported(s.subs);
    forall fd | fd in s.armed ensures fd !in added {
      assert multiset(Imported(s.subs))[fd] > 0;
    }
    SplitSet(t.armed, added);
    assert t.armed - added == s.armed;
    var more := VecRefs(|s.subs|, 0, |sub.requests|);
    forall fd | fd in t.armed ensures fd.ref in Unreleased(t) {
      if fd in added {
        assert more[fd.ref.idx] == fd.ref;
      }
    }
  }

  /** Nothing is pending when DestroyPipelines gets as far as CleanRequestsLocked. */
  lemma NothingToClean(s: State)
    requires InvCounters(s) && InvPending(s) && InvWaits(s) && s.fw.FClean?
    ensures s.pending == map[] && CleanPending(s) == s
  {
    assert s.pending == map[];
    assert PendingVectors(s.pending) == {};
  }

  lemma FrameworkFences(s: State, step: FrameworkStep)
    requires InvCounters(s) && InvPending(s) && InvWaits(s) && InvFlow(s) && InvFences(s) && FrameworkEnabled(s, step)
    ensures InvFences(ApplyFramework(s, step))
  {
    if step.Submit? {
      SubmitFences(s, step.sub);
    } else {
      FrameworkFlow(s, step);
      if step.DestroyFinish? {
        NothingToClean(s);
      }
    }
  }

  lemma WorkFences(s: State, step: WorkStep)
    requires InvCounters(s) && InvFences(s) && WorkEnabled(s, step) && !step.SkipRequest?
    requires step.DequeueRequest? ==> InvPending(s)
    ensures InvFences(ApplyWork(s, step))
  {
    WorkWaiting(s, step);
  }

  lemma ImageFences(s: State, step: ImageStep)
    requires InvFences(s) && ImageEnabled(s, step) && !step.DropImage?
    ensures InvFences(ApplyImage(s, step))
  {
    var t := ApplyImage(s, step);
    ImageUnreleased(s, step);
    if step.ProcessImage? || step.ReleaseImage? {
      CloseMoves(s, s.img.feed.ref);
      assert t.armed == CloseFences(s, s.img.feed.ref).armed;
    }
  }

  lemma UnreleasedAreSubmitted(s: State, r: Ref)
    requires InvFlow(s) && r in Unreleased(s)
    ensures ValidRef(s.subs, r)
  {
    RefsFromMember(s.subs, 0, r);
  }

  lemma VectorAdded(subs: seq<Submission>, sub: Submission, live: set<nat>, freed: multiset<nat>, refs: seq<Ref>)
    requires VectorsOk(subs, live, freed, refs) && forall r | r in refs :: ValidRef(subs, r)
    ensures VectorsOk(subs + [sub], live + {|subs|}, freed, refs + VecRefs(|subs|, 0, |sub.requests|))
  {
    var n, more := |subs|, VecRefs(|subs|, 0, |sub.requests|);
    assert n !in live && freed[n] == 0;
    forall v | 0 <= v < n + 1 ensures v in live + {n} <==> LastIn(subs + [sub], v, refs + more) {
      if v < n {
        assert LastIn(subs + [sub], v, refs + more) == LastIn(subs, v, refs);
      } else if sub.requests != [] {
        assert more[|sub.requests| - 1] == Ref(n, |sub.requests| - 1);
      }
    }
  }

  lemma SubmitVectors(s: State, sub: Submission)
    requires InvCounters(s) && InvFlow(s) && InvVectors(s) && FrameworkEnabled(s, Submit(sub))
    ensures InvVectors(ApplyFramework(s, Submit(sub)))
  {
    SubmitWaiting(s, sub);
    Associative(ImageRefs(s.img), Waiting(s), VecRefs(|s.subs|, 0, |sub.requests|));
    forall r | r in Unreleased(s) ensures ValidRef(s.subs, r) {
      UnreleasedAreSubmitted(s, r);
    }
    VectorAdded(s.subs, sub, s.liveVecs, s.freedVecs, Unreleased(s));
  }

  lemma FrameworkVectors(s: State, step: FrameworkStep)
    requires InvCounters(s) && InvPending(s) && InvWaits(s) && InvFlow(s) && InvVectors(s) && FrameworkEnabled(s, step)
    ensures InvVectors(ApplyFramework(s, step))
  {
    if step.Submit? {
      SubmitVectors(s, step.sub);
    } else {
      FrameworkFlow(s, step);
      if step.DestroyFinish? {
        NothingToClean(s);
      }
    }
  }

  lemma WorkVectors(s: State, step: WorkStep)
    requires InvCounters(s) && InvVectors(s) && WorkEnabled(s, step) && !step.SkipRequest?
    requires step.DequeueRequest? ==> InvPending(s)
    ensures InvVectors(ApplyWork(s, step))
  {
    WorkWaiting(s, step);
  }

  /** The oldest request occurs once. */
  lemma HeadIsUnique(subs: seq<Submission>, k: nat, r: Ref, rest: seq<Ref>)
    requires k <= |AllRefs(subs)| && AllRefs(subs)[k..] == [r] + rest
    ensures r !in rest && ValidRef(subs, r)
  {
    RefsFromSorted(subs, 0);
    var all := AllRefs(subs);
    assert all[k] == all[k..][0] == r;
    RefsFromMember(subs, 0, r);
    forall j | 0 <= j < |rest| ensures rest[j] != r {
      assert rest[j] == all[k..][j + 1] == all[k + 1 + j];
    }
  }

  /** Releasing the oldest request deletes its vector exactly when it was the last one in it. */
  lemma VectorReleased(subs: seq<Submission>, live: set<nat>, freed: multiset<nat>, r: Ref, rest: seq<Ref>)
    requires VectorsOk(subs, live, freed, [r] + rest) && ValidRef(subs, r) && r !in rest
    ensures if r.idx + 1 == VecLen(subs, r.vec)
            then r.vec in live && VectorsOk(subs, live - {r.vec}, freed + multiset{r.vec}, rest)
            else VectorsOk(subs, live, freed, rest)
  {
    var last := r.idx + 1 == VecLen(subs, r.vec);
    assert r.vec in live <==> LastIn(subs, r.vec, [r] + rest);
    forall v | 0 <= v < |subs| ensures LastIn(subs, v, rest) == (v in live && !(last && v == r.vec)) {
      assert LastIn(subs, v, [r] + rest) == (LastIn(subs, v, rest) || Ref(v, VecLen(subs, v) - 1) == r);
    }
  }

  lemma ReleaseVectors(s: State)
    requires InvFlow(s) && InvVectors(s) && ImageEnabled(s, ReleaseImage)
    ensures InvVectors(ApplyImage(s, ReleaseImage))
  {
    var t, r := ApplyImage(s, ReleaseImage), s.img.feed.ref;
    ImageUnreleased(s, ReleaseImage);
    HeadIsUnique(s.subs, s.released, r, Unreleased(t));
    VectorReleased(s.subs, s.liveVecs, s.freedVecs, r, Unreleased(t));
  }

  lemma ImageVectors(s: State, step: ImageStep)
    requires InvFlow(s) && InvVectors(s) && ImageEnabled(s, step) && !step.DropImage?
    ensures InvVectors(ApplyImage(s, step))
  {
    if step.ReleaseImage? {
      ReleaseVectors(s);
    } else {
      ImageUnreleased(s, step);
    }
  }

  // ---------------------------------------------------------------- every step, every run

  lemma FrameworkKeepsInv(s: State, step: FrameworkStep)
    requires Inv(s) && FrameworkEnabled(s, step) && AllowedSubmit(s, step)
    ensures Inv(ApplyFramework(s, step))
  {
    FrameworkCounters(s, step);
    FrameworkPending(s, step);
    FrameworkFlow(s, step);
    FrameworkLog(s, step);
    FrameworkBuffers(s, step);
    FrameworkPipes(s, step);
    FrameworkFences(s, step);
    FrameworkVectors(s, step);
  }

  lemma WorkKeepsInv(s: State, step: WorkStep)
    requires Inv(s) && WorkEnabled(s, step)
    ensures Inv(ApplyWork(s, step))
  {
    WorkPipes(s, step);
    WorkCounters(s, step);
    WorkWaits(s, step);
    WorkPending(s, step);
    WorkFlow(s, step);
    WorkLog(s, step);
    if step.Restart? {
      RestartBuffers(s, step.outcome);
    } else {
      WorkBuffers(s, step);
    }
    WorkFences(s, step);
    WorkVectors(s, step);
  }

  lemma ImageKeepsInv(s: State, step: ImageStep)
    requires Inv(s) && ImageEnabled(s, step)
    ensures Inv(ApplyImage(s, step))
  {
    ImagePipes(s, step);
    ImageCounters(s, step);
    ImageFlow(s, step);
    ImageLog(s, step);
    ImageBuffers(s, step);
    ImageFences(s, step);
    ImageVectors(s, step);
    ImagePending(s, step);
  }

  lemma ImagePending(s: State, step: ImageStep)
    requires InvPending(s) && ImageEnabled(s, step)
    ensures InvPending(ApplyImage(s, step))
  {
    SamePending(s, ApplyImage(s, step));
  }

  lemma InvStep(s: State, step: Step)
    requires Inv(s) && Enabled(s, step) && Allowed(s, step)
    ensures Inv(Apply(s, step))
  {
    match step
    case Framework(f) => FrameworkKeepsInv(s, f);
    case Work(w) => WorkKeepsInv(s, w);
    case Image(i) => ImageKeepsInv(s, i);
  }

  lemma InvInit()
    ensures Inv(INIT)
  {
    assert Imported([]) == {};
    assert Unreleased(INIT) == [];
    forall b ensures Owners(INIT, b) == 0 && b !in StartBuffers(0, 0) {
    }
  }

  lemma {:induction false} InvRun(s: State, steps: seq<Step>, t: State)
    requires Inv(s) && IsRun(s, steps, t)
    ensures Inv(t)
    decreases |steps|
  {
    if steps == [] {
    } else {
      InvStep(s, steps[0]);
      InvRun(Apply(s, steps[0]), steps[1..], t);
    }
  }

  /** The invariant holds in every reachable state. */
  lemma InvReachable(s: State)
    requires Reachable(s)
    ensures Inv(s)
  {
    var steps :| IsRun(INIT, steps, s);
    InvInit();
    InvRun(INIT, steps, s);
  }
}
