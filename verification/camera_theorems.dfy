/** What the invariant of the capture pipeline means for its callers. */
module CameraTheorems {
  import opened CameraModel
  import opened Common
  import opened CameraInvariant

  // ---------------------------------------------------------------- counters

  lemma {:induction false} PendingSize(subs: seq<Submission>, pending: map<nat, nat>, next: nat)
    requires PendingOk(subs, pending, next) && next <= |subs|
    ensures |pending| == |subs| - next
    decreases |subs| - next
  {
    if next == |subs| {
      assert pending == map[];
    } else {
      var f := subs[next].frame;
      var rest := pending - {f};
      assert rest.Keys == pending.Keys - {f};
      PendingSize(subs, rest, next + 1);
      assert |rest.Keys| == |rest| && |pending.Keys| == |pending|;
    }
  }

  /** The two counter pairs account for every request and every image in flight. */
  lemma CountersBalance(s: State)
    requires Reachable(s)
    ensures s.inQue == s.deQue + |s.pending| + if Busy(s.work) then 1 else 0
    ensures s.latest == s.procd + |s.images| + if Uncounted(s.img) then 1 else 0
  {
    InvReachable(s);
    PendingSize(s.subs, s.pending, Next(s));
  }

  // ---------------------------------------------------------------- buffer ownership

  /** Every buffer of the current start has exactly one owner, and no other buffer has any. */
  lemma OneOwnerEach(s: State, b: Buffer)
    requires Reachable(s)
    ensures Owners(s, b) == if b in StartBuffers(s.dev.gen, s.dev.count) then 1 else 0
  {
    InvReachable(s);
  }

  /** When ConfigAndStart, normal or recovering, frees the buffers, no thread and no list entry holds one. */
  lemma FreeIsSafe(s: State, b: Buffer)
    requires Reachable(s) && s.work.WConfig?
    ensures WorkHolds(s.work, b) == FeedsHolding(s.images, b) == ImageHolds(s.img, b) == 0
    ensures b in StartBuffers(s.dev.gen, s.dev.count) <==> b in s.dev.queued || b in s.dev.lost
  {
    InvReachable(s);
    assert Owners(s, b) <= 1;
  }

  /** A buffer is given back to the start that it was dequeued from. */
  lemma ReturnsAreCurrent(s: State, requeued: bool)
    requires Reachable(s) && ImageEnabled(s, ReturnBuffer(requeued))
    ensures s.dev.started ==> s.img.feed.buffer.value.gen == s.dev.gen
    ensures s.img.feed.buffer.value in StartBuffers(s.dev.gen, s.dev.count)
    ensures s.img.feed.buffer.value !in s.dev.queued && s.img.feed.buffer.value !in s.dev.lost
  {
    InvReachable(s);
    var b := s.img.feed.buffer.value;
    assert ImageHolds(s.img, b) == 1 && Owners(s, b) <= 1;
  }

  // ---------------------------------------------------------------- DestroyPipelines

  /** The request whose PipelineInfo a step dereferences. */
  function PipelineUsed(s: State, step: Step): Option<Ref>
    requires Enabled(s, step)
  {
    match step
    case Work(Intent(_)) => Some(WorkRef(s.work))
    case Image(NotifyError) => Some(s.img.feed.ref)
    case Image(NotifyShutter) => Some(s.img.feed.ref)
    case Image(ProcessImage) => Some(s.img.feed.ref)
    case Image(NotifyResult) => Some(s.img.feed.ref)
    case _ => None
  }

  predicate UsesFreedPipeline(s: State, step: Step) {
    Enabled(s, step) && PipelineUsed(s, step).Some? && !PipeConfigured(s, PipelineUsed(s, step).value)
  }

  /** Neither exit taken for an unknown pipeline can happen. */
  lemma NoUnknownPipeline(s: State)
    requires Reachable(s)
    ensures !WorkEnabled(s, SkipRequest) && !ImageEnabled(s, DropImage)
  {
    InvReachable(s);
    WorkRefIsUser(s);
    assert s.img.ITaken? ==> s.img.feed.ref in PipeUsers(s);
  }

  lemma WorkKeepsToLivePipelines(s: State)
    requires InvPipes(s) && Busy(s.work) && ValidRef(s.subs, WorkRef(s.work))
    ensures PipeConfigured(s, WorkRef(s.work))
  {
    WorkRefIsUser(s);
  }

  lemma ImageKeepsToLivePipelines(s: State)
    requires InvPipes(s) && (s.img.ITaken? || s.img.IProcess? || s.img.IReturn? || s.img.IResult?)
    ensures PipeConfigured(s, s.img.feed.ref)
  {
    assert PipeUsers(s)[0] == s.img.feed.ref;
  }

  /** The one step that can reach a freed PipelineInfo is the error callback of HandleImage. */
  lemma OnlyErrorCallbackAtRisk(s: State, step: Step)
    requires Reachable(s)
    ensures UsesFreedPipeline(s, step) <==> step == Image(NotifyError) && s.img.INullNotify? && !PipeConfigured(s, s.img.feed.ref)
  {
    InvReachable(s);
    if step.Work? && Busy(s.work) && ValidRef(s.subs, WorkRef(s.work)) {
      WorkKeepsToLivePipelines(s);
    } else if step.Image? {
      if s.img.INullNotify? {
        assert Unreleased(s)[0] == s.img.feed.ref;
        UnreleasedAreSubmitted(s, s.img.feed.ref);
      } else if s.img.ITaken? || s.img.IProcess? || s.img.IReturn? || s.img.IResult? {
        ImageKeepsToLivePipelines(s);
      }
    }
  }

  /** When both waits have passed, nothing is in flight and CleanRequestsLocked finds nothing. */
  lemma WaitsEmptyThePipeline(s: State)
    requires Reachable(s) && s.fw.FClean?
    ensures s.pending == map[] && s.work.WIdle? && s.images == [] && !Uncounted(s.img)
    ensures CleanPending(s) == s
    ensures PipeUsers(s) == []
  {
    InvReachable(s);
    NothingToClean(s);
  }

  lemma ReachStep(s: State, step: Step)
    requires Reachable(s) && Enabled(s, step) && Allowed(s, step)
    ensures Reachable(Apply(s, step))
  {
    var steps :| IsRun(INIT, steps, s);
    RunAppend(INIT, steps, s, step);
  }

  lemma {:induction false} RunAppend(s: State, steps: seq<Step>, t: State, step: Step)
    requires IsRun(s, steps, t) && Enabled(t, step) && Allowed(t, step)
    ensures IsRun(s, steps + [step], Apply(t, step))
    decreases |steps|
  {
    var all := steps + [step];
    if steps == [] {
      assert all[1..] == [];
    } else {
      RunAppend(Apply(s, steps[0]), steps[1..], t, step);
      assert all[1..] == steps[1..] + [step];
    }
  }

  /**
   DestroyPipelines frees a PipelineInfo that a thread goes on to use exactly when the image thread
   is between bumping mProcdImageIdx for a missing buffer and making the error callback.
   */
  lemma DestroyRace(s: State)
    requires Reachable(s) && s.fw.FClean?
    ensures (exists step :: UsesFreedPipeline(Apply(s, Framework(DestroyFinish)), step)) <==> s.img.INullNotify?
  {
    var t := Apply(s, Framework(DestroyFinish));
    ReachStep(s, Framework(DestroyFinish));
    WaitsEmptyThePipeline(s);
    forall step ensures UsesFreedPipeline(t, step) <==> step == Image(NotifyError) && s.img.INullNotify? {
      OnlyErrorCallbackAtRisk(t, step);
    }
    if s.img.INullNotify? {
      assert UsesFreedPipeline(t, Image(NotifyError));
    }
  }

  /** One more step of a run that starts in INIT. */
  lemma Extend(steps: seq<Step>, s: State, step: Step) returns (more: seq<Step>)
    requires IsRun(INIT, steps, s) && Enabled(s, step) && Allowed(s, step)
    ensures IsRun(INIT, more, Apply(s, step))
  {
    more := steps + [step];
    RunAppend(INIT, steps, s, step);
  }

  const ONE_REQUEST := Submission(0, [Request(0, [])])

  /** One pipeline, one submission of one request without fences. */
  const SUBMITTED := INIT.(subs := [ONE_REQUEST], pending := map[0 := 0], inQue := 1, pipes := {0}, nextPipe := 1,
                           built := true, liveVecs := {0})

  const DISPATCHED := SUBMITTED.(pending := map[], deQue := 1, images := [Feed(Ref(0, 0), None)], latest := 1)

  const UNREPORTED := DISPATCHED.(images := [], procd := 1, img := INullNotify(Feed(Ref(0, 0), None)))

  const DESTROYED := UNREPORTED.(pipes := {}, built := false)

  lemma RunToBuilt() returns (steps: seq<Step>)
    ensures IsRun(INIT, steps, INIT.(pipes := {0}, nextPipe := 1, built := true))
  {
    steps := Extend([], INIT, Framework(Configure));
    var s := INIT.(pipes := {0}, nextPipe := 1);
    assert Apply(INIT, Framework(Configure)) == s;
    steps := Extend(steps, s, Framework(Build));
  }

  lemma RunToSubmitted() returns (steps: seq<Step>)
    ensures IsRun(INIT, steps, SUBMITTED)
  {
    steps := RunToBuilt();
    var s := INIT.(pipes := {0}, nextPipe := 1, built := true);
    assert ImportedBy(0, ONE_REQUEST.requests) == {};
    steps := Extend(steps, s, Framework(Submit(ONE_REQUEST)));
    assert Apply(s, Framework(Submit(ONE_REQUEST))) == SUBMITTED;
  }

  lemma RunToDispatched() returns (steps: seq<Step>)
    ensures IsRun(INIT, steps, DISPATCHED)
  {
    steps := RunToSubmitted();
    var s0 := SUBMITTED.(pending := map[], work := WNext(0, 0));
    steps := Extend(steps, SUBMITTED, Work(DequeueRequest(0)));
    assert Apply(SUBMITTED, Work(DequeueRequest(0))) == s0;
    steps := RunCapture(steps, s0);
  }

  lemma RunCapture(steps: seq<Step>, s: State) returns (more: seq<Step>)
    requires s == SUBMITTED.(pending := map[], work := WNext(0, 0)) && IsRun(INIT, steps, s)
    ensures IsRun(INIT, more, DISPATCHED)
  {
    more := Extend(steps, s, Work(Intent(false)));
    var s1 := s.(work := WAcquire(0, 0));
    more := Extend(more, s1, Work(AcquireFails));
    more := RunFeed(more, s.(work := WFeed(0, 0, None)));
  }

  lemma RunFeed(steps: seq<Step>, s: State) returns (more: seq<Step>)
    requires s == SUBMITTED.(pending := map[], work := WFeed(0, 0, None)) && IsRun(INIT, steps, s)
    ensures IsRun(INIT, more, DISPATCHED)
  {
    more := Extend(steps, s, Work(FeedImage));
    var s1 := DISPATCHED.(deQue := 0, work := WNext(0, 1));
    assert Apply(s, Work(FeedImage)) == s1;
    more := Extend(more, s1, Work(CountRequest));
  }

  lemma RunToUnreported() returns (steps: seq<Step>)
    ensures IsRun(INIT, steps, UNREPORTED)
  {
    steps := RunToDispatched();
    steps := Extend(steps, DISPATCHED, Image(TakeImage));
    var s := DISPATCHED.(images := [], img := ITaken(Feed(Ref(0, 0), None)));
    assert Apply(DISPATCHED, Image(TakeImage)) == s;
    steps := Extend(steps, s, Image(CountNull));
  }

  lemma RunToDestroyed() returns (steps: seq<Step>)
    ensures IsRun(INIT, steps, DESTROYED)
  {
    steps := RunToUnreported();
    steps := Extend(steps, UNREPORTED, Framework(DestroyBegin));
    steps := Extend(steps, UNREPORTED.(fw := FWait), Framework(DestroyQuiesced));
    steps := Extend(steps, UNREPORTED.(fw := FDrain), Framework(DestroyDrained));
    var s := UNREPORTED.(fw := FClean);
    steps := Extend(steps, s, Framework(DestroyFinish));
    assert PendingVectors(s.pending) == {};
    assert CleanPending(s) == s;
  }

  /** The race happens: one failed capture, and a DestroyPipelines that runs while its error is being reported. */
  lemma DestroyRaceHappens()
    ensures exists s :: Reachable(s) && UsesFreedPipeline(s, Image(NotifyError))
  {
    var steps := RunToDestroyed();
    assert Reachable(DESTROYED);
    assert UsesFreedPipeline(DESTROYED, Image(NotifyError));
  }

  /** Every capture of the run so far produced a buffer. */
  ghost predicate AlwaysCaptured(s: State, steps: seq<Step>)
    decreases |steps|
  {
    steps != [] && Enabled(s, steps[0]) ==>
      && (steps[0] == Work(FeedImage) ==> s.work.buffer.Some?)
      && AlwaysCaptured(Apply(s, steps[0]), steps[1..])
  }

  predicate NoNullFeed(s: State) {
    (forall f | f in s.images :: f.buffer.Some?) && (s.img.ITaken? ==> s.img.feed.buffer.Some?) && !s.img.INullNotify?
  }

  lemma {:induction false} NullFreeRun(s: State, steps: seq<Step>, t: State)
    requires NoNullFeed(s) && IsRun(s, steps, t) && AlwaysCaptured(s, steps)
    ensures NoNullFeed(t)
    decreases |steps|
  {
    if steps == [] {
    } else {
      NullFreeStep(s, steps[0]);
      NullFreeRun(Apply(s, steps[0]), steps[1..], t);
    }
  }

  lemma NullFreeStep(s: State, step: Step)
    requires NoNullFeed(s) && Enabled(s, step) && (step == Work(FeedImage) ==> s.work.buffer.Some?)
    ensures NoNullFeed(Apply(s, step))
  {
  }

  /** So a run whose captures all succeed never uses a freed PipelineInfo. */
  lemma CapturedRunsAreSafe(steps: seq<Step>, s: State, step: Step)
    requires IsRun(INIT, steps, s) && AlwaysCaptured(INIT, steps)
    ensures !UsesFreedPipeline(s, step)
  {
    NullFreeRun(INIT, steps, s);
    OnlyErrorCallbackAtRisk(s, step);
  }

  // ---------------------------------------------------------------- outcomes

  /** Nothing is in flight. */
  predicate Quiet(s: State) {
    s.pending == map[] && s.work.WIdle? && s.images == [] && s.img.IIdle?
  }

  /**
   At any time the callbacks made are those of the oldest requests, each complete, in submission
   order, followed at most by the shutter of the request now being processed.
   */
  lemma OutcomesInOrder(s: State)
    requires Reachable(s)
    ensures AllValid(s.subs, s.done) && s.log == LogOf(s.subs, s.done) + OpenShutter(s)
    ensures DoneRefs(s.done) <= AllRefs(s.subs)
  {
    InvReachable(s);
  }

  lemma QuietIsEmpty(s: State)
    requires Inv(s) && Quiet(s)
    ensures Unreleased(s) == [] && s.released == |AllRefs(s.subs)| == |s.done|
  {
    PendingSize(s.subs, s.pending, Next(s));
    assert Waiting(s) == [];
    assert |AllRefs(s.subs)[s.released..]| == 0;
  }

  function Entries(log: seq<Outcome>, r: Ref): seq<Outcome> {
    if log == [] then []
    else Entries(log[..|log| - 1], r) + if log[|log| - 1].ref == r then [log[|log| - 1]] else []
  }

  lemma {:induction false} EntriesAppend(a: seq<Outcome>, b: seq<Outcome>, r: Ref)
    ensures Entries(a + b, r) == Entries(a, r) + Entries(b, r)
    decreases |b|
  {
    if b == [] {
      assert a + b == a;
    } else {
      var init := b[..|b| - 1];
      EntriesAppend(a, init, r);
      assert (a + b)[..|a + b| - 1] == a + init;
    }
  }

  lemma EntriesOfCallbacks(subs: seq<Submission>, d: Done, r: Ref)
    requires ValidRef(subs, d.ref)
    ensures Entries(CallbacksOf(subs, d), r) == if d.ref == r then CallbacksOf(subs, d) else []
  {
    var c := CallbacksOf(subs, d);
    assert [c[0]][..0] == [] && Entries([], r) == [];
    assert Entries([c[0]], r) == if d.ref == r then [c[0]] else [];
    if d.Captured? {
      assert c[..1] == [c[0]];
    } else {
      assert c == [c[0]];
    }
  }

  lemma {:induction false} EntriesOfLog(subs: seq<Submission>, done: seq<Done>, k: nat)
    requires AllValid(subs, done) && k < |done|
    requires forall i, j | 0 <= i < j < |done| :: done[i].ref != done[j].ref
    ensures Entries(LogOf(subs, done), done[k].ref) == CallbacksOf(subs, done[k])
    decreases |done|
  {
    var init, last := done[..|done| - 1], done[|done| - 1];
    EntriesAppend(LogOf(subs, init), CallbacksOf(subs, last), done[k].ref);
    EntriesOfCallbacks(subs, last, done[k].ref);
    if k < |init| {
      EntriesOfLog(subs, init, k);
    } else {
      NoEntries(subs, init, last.ref);
    }
  }

  lemma {:induction false} NoEntries(subs: seq<Submission>, done: seq<Done>, r: Ref)
    requires AllValid(subs, done) && forall d | d in done :: d.ref != r
    ensures Entries(LogOf(subs, done), r) == []
    decreases |done|
  {
    if done == [] {
    } else {
      var init, last := done[..|done| - 1], done[|done| - 1];
      NoEntries(subs, init, r);
      EntriesAppend(LogOf(subs, init), CallbacksOf(subs, last), r);
      EntriesOfCallbacks(subs, last, r);
    }
  }

  /** The callbacks about r are one device error, or one shutter and then one result with all its buffers. */
  predicate Answered(s: State, r: Ref)
    requires ValidRef(s.subs, r)
  {
    var frame := s.subs[r.vec].frame;
    || Entries(s.log, r) == [ErrorDevice(r, frame)]
    || Entries(s.log, r) == [Shutter(r, frame), Result(r, frame, |RequestAt(s.subs, r).fences|)]
  }

  /** When all requests are done, each is so once, in the order of submission. */
  lemma DoneOnce(s: State, r: Ref) returns (k: nat)
    requires InvFlow(s) && |s.done| == |AllRefs(s.subs)| && ValidRef(s.subs, r)
    ensures k < |s.done| && s.done[k].ref == r
    ensures forall i, j | 0 <= i < j < |s.done| :: s.done[i].ref != s.done[j].ref
  {
    var all := AllRefs(s.subs);
    RefsFromMember(s.subs, 0, r);
    RefsFromSorted(s.subs, 0);
    assert all[..|all|] == all;
    forall i | 0 <= i < |s.done| ensures s.done[i].ref == all[i] {
      assert DoneRefs(s.done)[i] == s.done[i].ref;
    }
    k :| k < |all| && all[k] == r;
  }

  /**
   Once the pipeline is quiet, every request of every submission has had exactly one outcome:
   one device error, or one shutter followed by one result with all its output buffers.
   */
  lemma EveryRequestAnswered(s: State, r: Ref)
    requires Reachable(s) && Quiet(s) && ValidRef(s.subs, r)
    ensures Answered(s, r)
  {
    InvReachable(s);
    QuietIsEmpty(s);
    NothingOpen(s);
    var k := DoneOnce(s, r);
    EntriesOfLog(s.subs, s.done, k);
  }

  // ---------------------------------------------------------------- fences and vectors

  /** A descriptor is closed at most once, and only if it was imported; when all is quiet each one has been closed. */
  lemma FencesClosedOnce(s: State, fd: Fd)
    requires Reachable(s)
    ensures s.closed[fd] <= 1 && (s.closed[fd] == 1 ==> fd in Imported(s.subs) && fd !in s.armed)
    ensures Quiet(s) ==> s.closed[fd] == if fd in Imported(s.subs) then 1 else 0
  {
    InvReachable(s);
    assert (multiset(s.armed) + s.closed)[fd] == multiset(Imported(s.subs))[fd];
    if Quiet(s) {
      QuietIsEmpty(s);
    }
  }

  /** What is left of the requests contains everything after any of its members. */
  lemma LastIsUnreleased(s: State, r: Ref)
    requires InvFlow(s) && r in Unreleased(s)
    ensures ValidRef(s.subs, r) && Ref(r.vec, VecLen(s.subs, r.vec) - 1) in Unreleased(s)
  {
    var all := AllRefs(s.subs);
    UnreleasedAreSubmitted(s, r);
    var last := Ref(r.vec, VecLen(s.subs, r.vec) - 1);
    RefsFromMember(s.subs, 0, last);
    RefsFromSorted(s.subs, 0);
    var j :| 0 <= j < |all| && all[j] == last;
    var k :| 0 <= k < |Unreleased(s)| && Unreleased(s)[k] == r;
    assert all[s.released + k] == r;
    assert Unreleased(s)[j - s.released] == last;
  }

  lemma DeletedVector(s: State, v: nat)
    requires InvVectors(s)
    ensures s.freedVecs[v] <= 1 && (s.freedVecs[v] == 1 ==> v < |s.subs| && v !in s.liveVecs)
    ensures v < |s.subs| ==> (s.freedVecs[v] == 1 <==> !LastIn(s.subs, v, Unreleased(s)))
  {
    assert (if v in s.liveVecs then 1 else 0) + s.freedVecs[v] == (if v < |s.subs| then 1 else 0);
  }

  lemma DeletedIsUnused(s: State, v: nat)
    requires InvFlow(s) && InvVectors(s) && s.freedVecs[v] == 1
    ensures forall r | r in Unreleased(s) :: r.vec != v
  {
    DeletedVector(s, v);
    forall r | r in Unreleased(s) ensures r.vec != v {
      LastIsUnreleased(s, r);
    }
  }

  /**
   A vector is deleted once, by the release of its last request, when no request of it is left; an empty vector
   never is.
   */
  lemma VectorsDeletedOnce(s: State, v: nat)
    requires Reachable(s)
    ensures s.freedVecs[v] <= 1 && (s.freedVecs[v] == 1 ==> v < |s.subs| && v !in s.liveVecs)
    ensures s.freedVecs[v] == 1 ==> forall r | r in Unreleased(s) :: r.vec != v
    ensures Quiet(s) && v < |s.subs| ==> (s.freedVecs[v] == 1 <==> VecLen(s.subs, v) > 0)
  {
    InvReachable(s);
    DeletedVector(s, v);
    if s.freedVecs[v] == 1 {
      DeletedIsUnused(s, v);
    }
    if Quiet(s) {
      QuietIsEmpty(s);
    }
  }

  const NO_REQUEST := Submission(0, [])

  /** One pipeline, and one submission without requests that was dispatched and counted. */
  const EMPTIED := INIT.(subs := [NO_REQUEST], inQue := 1, deQue := 1, pipes := {0}, nextPipe := 1, built := true,
                         liveVecs := {0})

  /** The empty vector that stays: it is still allocated although nothing is in flight. */
  lemma EmptyVectorStays() returns (steps: seq<Step>)
    ensures IsRun(INIT, steps, EMPTIED) && Quiet(EMPTIED)
    ensures VecLen(EMPTIED.subs, 0) == 0 && 0 in EMPTIED.liveVecs && EMPTIED.freedVecs[0] == 0
  {
    var submitted := EMPTIED.(pending := map[0 := 0], deQue := 0);
    steps := RunToNoRequest(submitted);
    var taken := submitted.(pending := map[], work := WNext(0, 0));
    assert Apply(submitted, Work(DequeueRequest(0))) == taken;
    steps := Extend(steps, submitted, Work(DequeueRequest(0)));
    steps := Extend(steps, taken, Work(CountRequest));
  }

  lemma RunToNoRequest(submitted: State) returns (steps: seq<Step>)
    requires submitted == EMPTIED.(pending := map[0 := 0], deQue := 0)
    ensures IsRun(INIT, steps, submitted)
  {
    steps := RunToBuilt();
    var built := INIT.(pipes := {0}, nextPipe := 1, built := true);
    assert ImportedBy(0, NO_REQUEST.requests) == {};
    assert Apply(built, Framework(Submit(NO_REQUEST))) == submitted;
    steps := Extend(steps, built, Framework(Submit(NO_REQUEST)));
  }

  /** The request vector a step reads or writes. */
  function VectorUsed(s: State, step: Step): Option<nat>
    requires Enabled(s, step)
  {
    match step
    case Work(DequeueRequest(frame)) => Some(s.pending[frame])
    case Work(SkipRequest) => Some(s.work.vec)
    case Work(CountRequest) => None
    case Work(_) => Some(s.work.vec)
    case Image(TakeImage) => Some(s.images[0].ref.vec)
    case Image(_) => Some(s.img.feed.ref.vec)
    case Framework(_) => None
  }

  lemma UnreleasedVectorIsLive(s: State, r: Ref)
    requires InvFlow(s) && InvVectors(s) && r in Unreleased(s)
    ensures ValidRef(s.subs, r) && r.vec in s.liveVecs
  {
    LastIsUnreleased(s, r);
  }

  lemma WorkVectorIsLive(s: State)
    requires InvFlow(s) && InvVectors(s) && Busy(s.work) && ValidRef(s.subs, WorkRef(s.work))
    ensures s.work.vec in s.liveVecs
  {
    assert WorkRefs(s.subs, s.work)[0] == WorkRef(s.work);
    UnreleasedVectorIsLive(s, WorkRef(s.work));
  }

  lemma ImageVectorIsLive(s: State)
    requires InvFlow(s) && InvVectors(s) && !s.img.IIdle?
    ensures ValidRef(s.subs, s.img.feed.ref) && s.img.feed.ref.vec in s.liveVecs
  {
    assert Unreleased(s)[0] == s.img.feed.ref;
    UnreleasedVectorIsLive(s, s.img.feed.ref);
  }

  lemma ListedVectorIsLive(s: State)
    requires InvFlow(s) && InvVectors(s) && s.images != []
    ensures s.images[0].ref.vec in s.liveVecs
  {
    assert FeedRefs(s.images)[0] == s.images[0].ref;
    assert s.images[0].ref in Waiting(s);
    UnreleasedVectorIsLive(s, s.images[0].ref);
  }

  /** No step touches a deleted request vector. */
  lemma NoDeletedVectorUsed(s: State, step: Step)
    requires Reachable(s) && Enabled(s, step) && VectorUsed(s, step).Some?
    ensures VectorUsed(s, step).value in s.liveVecs
  {
    InvReachable(s);
    if step.Work? {
      if step.work.DequeueRequest? {
        DequeuedVectorIsLive(s, step.work.frame);
      } else {
        WorkVectorIsLive(s);
      }
    } else if step.img.TakeImage? {
      ListedVectorIsLive(s);
    } else {
      ImageVectorIsLive(s);
    }
  }

  lemma DequeuedVectorIsLive(s: State, frame: nat)
    requires Inv(s) && WorkEnabled(s, DequeueRequest(frame))
    ensures s.pending[frame] in s.liveVecs
  {
    FirstPendingIsNext(s, frame);
    var v := s.pending[frame];
    if VecLen(s.subs, v) > 0 {
      RefsFromMember(s.subs, Next(s), Ref(v, VecLen(s.subs, v) - 1));
      assert Ref(v, VecLen(s.subs, v) - 1) in Unreleased(s);
    }
  }

  // ---------------------------------------------------------------- progress

  /** Image-thread steps still to be made before every fed image has been counted and released. */
  function ImageWork(s: State): nat {
    7 * |s.images| +
    match s.img
    case IIdle => 0
    case ITaken(_) => 6
    case IProcess(_) => 5
    case IReturn(_) => 4
    case IResult(_) => 3
    case ICount(_) => 2
    case INullNotify(_) => 2
    case IRelease(_) => 1
  }

  lemma ImageWorkShrinks(s: State, step: ImageStep)
    requires ImageEnabled(s, step) && !step.DropImage?
    ensures ImageWork(ApplyImage(s, step)) < ImageWork(s)
    ensures ApplyImage(s, step).work == s.work && ApplyImage(s, step).fw == s.fw
  {
  }

  datatype Lock = MLock | ImageListLock | V4l2Lock

  /** The locks a region takes; DestroyFinish and Restart run under a lock their thread already has. */
  function LocksTaken(step: Step): set<Lock> {
    match step
    case Framework(DestroyDrained) => {ImageListLock}
    case Framework(DestroyFinish) => {}
    case Framework(_) => {MLock}
    case Work(DequeueRequest(_)) => {MLock}
    case Work(CountRequest) => {MLock}
    case Work(WorkDrained) => {ImageListLock, V4l2Lock}
    case Work(DequeueFrame(_, _)) => {V4l2Lock}
    case Work(AcquireFails) => {V4l2Lock}
    case Work(FeedImage) => {ImageListLock}
    case Work(_) => {}
    case Image(TakeImage) => {ImageListLock}
    case Image(CountNull) => {ImageListLock}
    case Image(CountImage) => {ImageListLock}
    case Image(ReturnBuffer(_)) => {V4l2Lock}
    case Image(_) => {}
  }

  /** The locks a thread keeps from one region to the next; the image thread keeps none. */
  function KeptByFramework(fw: FrameworkPc): set<Lock> {
    if HoldsLock(fw) then {MLock} else {}
  }

  function KeptByWork(work: WorkPc): set<Lock> {
    if work.WConfig? then {V4l2Lock} else {}
  }

  /** No region is entered while another thread keeps a lock it takes. */
  lemma RegionsRespectLocks(s: State, step: Step)
    requires Enabled(s, step)
    ensures !step.Work? ==> LocksTaken(step) !! KeptByWork(s.work)
    ensures !step.Framework? ==> LocksTaken(step) !! KeptByFramework(s.fw)
  {
  }

  /** While a thread waits in either drain, no lock that any image region takes is kept by anyone. */
  lemma DrainsKeepNoNeededLock(s: State, step: ImageStep)
    requires Reachable(s) && (s.fw.FDrain? || s.work.WDrain?)
    ensures LocksTaken(Image(step)) !! KeptByFramework(s.fw) + KeptByWork(s.work)
  {
    InvReachable(s);
  }

  lemma NextImageStep(s: State) returns (step: ImageStep)
    requires Reachable(s) && s.latest != s.procd
    ensures ImageEnabled(s, step)
  {
    InvReachable(s);
    NoUnknownPipeline(s);
    if !s.img.IIdle? {
      ImageVectorIsLive(s);
    }
    match s.img
    case IIdle => step := TakeImage;
    case ITaken(f) => step := if f.buffer.None? then CountNull else NotifyShutter;
    case IProcess(_) => step := ProcessImage;
    case IReturn(_) => step := ReturnBuffer(true);
    case IResult(_) => step := NotifyResult;
    case ICount(_) => step := CountImage;
    case INullNotify(_) => step := NotifyError;
    case IRelease(_) => step := ReleaseImage;
  }

  /** While images are left the image thread has a step to make, and the locks that step takes are free. */
  lemma ImageThreadRuns(s: State) returns (step: ImageStep)
    requires Reachable(s) && s.latest != s.procd
    ensures ImageEnabled(s, step)
    ensures LocksTaken(Image(step)) !! KeptByFramework(s.fw) + KeptByWork(s.work)
  {
    step := NextImageStep(s);
    RegionsRespectLocks(s, Image(step));
  }

  lemma NoImageWorkMeansDrained(s: State)
    requires InvCounters(s) && ImageWork(s) == 0
    ensures s.latest == s.procd
  {
  }

  /**
   So a drain always ends.  Every run of the image thread alone is bounded, it is not stuck while a
   drain would wait, and if it is as long as the bound allows the drain is over.
   */
  lemma {:induction false} DrainEnds(s: State, steps: seq<Step>, t: State)
    requires Reachable(s) && IsRun(s, steps, t) && forall k | 0 <= k < |steps| :: steps[k].Image?
    ensures |steps| + ImageWork(t) <= ImageWork(s) && t.work == s.work && t.fw == s.fw
    ensures t.latest != t.procd ==> exists i :: ImageEnabled(t, i)
    ensures |steps| == ImageWork(s) ==> t.latest == t.procd
    decreases |steps|
  {
    if steps == [] {
      if t.latest != t.procd {
        var i := ImageThreadRuns(t);
        InvReachable(t);
        if ImageWork(t) == 0 {
          NoImageWorkMeansDrained(t);
        }
      }
    } else {
      var i := steps[0].img;
      NoUnknownPipeline(s);
      ImageWorkShrinks(s, i);
      ReachStep(s, steps[0]);
      var next := Apply(s, steps[0]);
      DrainEnds(next, steps[1..], t);
      if |steps| == ImageWork(s) {
        assert |steps[1..]| == ImageWork(next);
      }
    }
  }

  /** In particular the image thread can end it. */
  lemma {:induction false} DrainCanEnd(s: State) returns (steps: seq<Step>, t: State)
    requires Reachable(s)
    ensures IsRun(s, steps, t) && t.latest == t.procd && t.work == s.work && t.fw == s.fw
    ensures |steps| <= ImageWork(s) && forall k | 0 <= k < |steps| :: steps[k].Image?
    decreases ImageWork(s)
  {
    if s.latest == s.procd {
      steps, t := [], s;
    } else {
      var step := ImageThreadRuns(s);
      NoUnknownPipeline(s);
      ImageWorkShrinks(s, step);
      ReachStep(s, Image(step));
      steps, t := DrainCanEnd(ApplyImage(s, step));
      steps := [Image(step)] + steps;
    }
  }

  /** While DestroyPipelines has anything to wait for, one of the two threads can move. */
  lemma NoDeadlock(s: State) returns (step: Step)
    requires Reachable(s) && (s.inQue != s.deQue || s.latest != s.procd)
    ensures Enabled(s, step) && !step.Framework?
  {
    InvReachable(s);
    NoUnknownPipeline(s);
    if s.latest != s.procd {
      var i := ImageThreadRuns(s);
      step := Image(i);
    } else {
      match s.work
      case WIdle => step := Work(DequeueRequest(s.subs[Next(s)].frame));
      case WNext(v, i) => step := Work(if i < VecLen(s.subs, v) then Intent(false) else CountRequest);
      case WDrain(_, _, _) => step := Work(WorkDrained);
      case WConfig(_, _, _) => step := Work(Restart(StartFails));
      case WAcquire(_, _) => step := Work(AcquireFails);
      case WFeed(_, _, _) => step := Work(FeedImage);
    }
  }

  // ---------------------------------------------------------------- the pipeline becomes quiet

  const PER_REQUEST: nat := 12

  /** Steps to be made for the request vector being dispatched, up to the count of the vector. */
  function VectorWork(subs: seq<Submission>, work: WorkPc): nat {
    if work.WIdle? then 0
    else
      var n := VecLen(subs, work.vec);
      if work.WNext? then 1 + if work.idx < n then PER_REQUEST * (n - work.idx) else 0
      else
        var later := if work.idx + 1 < n then PER_REQUEST * (n - work.idx - 1) else 0;
        later + 1 + match work
                    case WDrain(_, _, _) => 11
                    case WConfig(_, _, _) => 10
                    case WAcquire(_, _) => 9
                    case _ => 8
  }

  /** And for the submissions not dispatched yet. */
  function QueuedWork(subs: seq<Submission>, lo: nat): nat
    decreases |subs| - lo
  {
    if lo >= |subs| then 0 else 2 + PER_REQUEST * VecLen(subs, lo) + QueuedWork(subs, lo + 1)
  }

  /** Steps that both threads have to make, but for what the device may add. */
  function WorkLeft(s: State): nat {
    ImageWork(s) + VectorWork(s.subs, s.work) + QueuedWork(s.subs, Next(s))
  }

  /** A time-out within the budget costs three steps and brings the request back; a frame to omit costs one. */
  function Added(s: State, step: Step): nat {
    match step
    case Work(SelectTimeout) => if s.dev.recovered < MAX_RECOVER_COUNT then 3 else 0
    case Work(DequeueFrame(_, requeued)) => if s.dev.omit > 0 && requeued then 1 else 0
    case _ => 0
  }

  ghost function AddedBy(s: State, steps: seq<Step>): nat
    decreases |steps|
  {
    if steps == [] || !Enabled(s, steps[0]) then 0 else Added(s, steps[0]) + AddedBy(Apply(s, steps[0]), steps[1..])
  }

  lemma DequeuePays(s: State, frame: nat)
    requires InvCounters(s) && InvPending(s) && WorkEnabled(s, DequeueRequest(frame))
    ensures 1 + WorkLeft(ApplyWork(s, DequeueRequest(frame))) <= WorkLeft(s)
  {
    FirstPendingIsNext(s, frame);
  }

  lemma FeedPays(s: State)
    requires InvCounters(s) && WorkEnabled(s, FeedImage)
    ensures 1 + WorkLeft(ApplyWork(s, FeedImage)) <= WorkLeft(s)
  {
  }

  /** The other steps of the WorkThread only move it along. */
  lemma MovePays(s: State, step: WorkStep)
    requires InvCounters(s) && WorkEnabled(s, step)
    requires !step.DequeueRequest? && !step.FeedImage? && !step.SkipRequest?
    ensures var t := ApplyWork(s, step);
            && ImageWork(t) == ImageWork(s) && t.subs == s.subs && Next(t) == Next(s)
            && 1 + VectorWork(t.subs, t.work) <= VectorWork(s.subs, s.work) + Added(s, Work(step))
  {
  }

  lemma WorkPays(s: State, step: WorkStep)
    requires InvCounters(s) && InvPending(s) && WorkEnabled(s, step) && !step.SkipRequest?
    ensures 1 + WorkLeft(ApplyWork(s, step)) <= WorkLeft(s) + Added(s, Work(step))
  {
    if step.DequeueRequest? {
      DequeuePays(s, step.frame);
    } else if step.FeedImage? {
      FeedPays(s);
    } else {
      MovePays(s, step);
    }
  }

  lemma ImagePays(s: State, step: ImageStep)
    requires ImageEnabled(s, step) && !step.DropImage?
    ensures 1 + WorkLeft(ApplyImage(s, step)) <= WorkLeft(s)
  {
    ImageWorkShrinks(s, step);
  }

  lemma StepPays(s: State, step: Step)
    requires Reachable(s) && Enabled(s, step) && !step.Framework?
    ensures 1 + WorkLeft(Apply(s, step)) <= WorkLeft(s) + Added(s, step)
  {
    InvReachable(s);
    NoUnknownPipeline(s);
    match step
    case Work(w) => WorkPays(s, w);
    case Image(i) => ImagePays(s, i);
  }

  /** Nothing is in flight exactly when neither the WorkThread nor the image thread has a step to make. */
  lemma QuietIff(s: State)
    requires Reachable(s)
    ensures Quiet(s) <==> forall step | Enabled(s, step) :: step.Framework?
  {
    if s.inQue != s.deQue || s.latest != s.procd {
      QuietCounters(s);
      var step := NoDeadlock(s);
    } else if s.img.IIdle? {
      BalancedIsQuiet(s);
    } else {
      LastImageStep(s);
    }
  }

  lemma BalancedIsQuiet(s: State)
    requires Reachable(s) && s.inQue == s.deQue && s.latest == s.procd && s.img.IIdle?
    ensures Quiet(s)
  {
    InvReachable(s);
    PendingSize(s.subs, s.pending, Next(s));
    assert |s.pending| == 0;
  }

  /** An image that has been counted has still to be reported or released. */
  lemma LastImageStep(s: State)
    requires Reachable(s) && s.latest == s.procd && !s.img.IIdle?
    ensures Enabled(s, Image(if s.img.IRelease? then ReleaseImage else NotifyError))
  {
    InvReachable(s);
    ImageVectorIsLive(s);
  }

  /**
   While the framework makes no step, every run of the two other threads, in whatever order, is bounded by
   the work left plus three steps for each time-out within the recovery budget and one for each frame omitted.
   A run that cannot go on has answered every request, and both waits of DestroyPipelines pass.
   */
  lemma {:induction false} BecomesQuiet(s: State, steps: seq<Step>, t: State)
    requires Reachable(s) && IsRun(s, steps, t) && forall k | 0 <= k < |steps| :: !steps[k].Framework?
    ensures |steps| + WorkLeft(t) <= WorkLeft(s) + AddedBy(s, steps)
    ensures (forall step | Enabled(t, step) :: step.Framework?) ==>
              && Quiet(t) && t.deQue == t.inQue && t.latest == t.procd
              && forall r | ValidRef(t.subs, r) :: Answered(t, r)
    decreases |steps|
  {
    if steps == [] {
      InvReachable(t);
      QuietIff(t);
      if Quiet(t) {
        QuietCounters(t);
        forall r | ValidRef(t.subs, r) ensures Answered(t, r) {
          EveryRequestAnswered(t, r);
        }
      }
    } else {
      StepPays(s, steps[0]);
      ReachStep(s, steps[0]);
      BecomesQuiet(Apply(s, steps[0]), steps[1..], t);
    }
  }

  lemma QuietCounters(s: State)
    requires Reachable(s)
    ensures Quiet(s) ==> s.deQue == s.inQue && s.latest == s.procd
  {
    InvReachable(s);
    PendingSize(s.subs, s.pending, Next(s));
  }

  // ---------------------------------------------------------------- why frame numbers must not be reused

  /** Submissions counted in mInQueRequestIdx that can no longer reach mDeQueRequestIdx. */
  function Unaccounted(s: State): int {
    s.inQue - s.deQue - |s.pending| - if Busy(s.work) then 1 else 0
  }

  /** A run in which the framework may submit any frame numbers, also ones still pending. */
  ghost predicate AnyRun(s: State, steps: seq<Step>, t: State)
    decreases |steps|
  {
    if steps == [] then t == s
    else Enabled(s, steps[0]) && AnyRun(Apply(s, steps[0]), steps[1..], t)
  }

  /** The step submits a frame number that is still pending. */
  predicate Overwrites(s: State, step: Step) {
    step.Framework? && step.fw.Submit? && step.fw.sub.frame in s.pending
  }

  /** How many submissions of a run did so. */
  ghost function Overwritten(s: State, steps: seq<Step>): nat
    decreases |steps|
  {
    if steps == [] || !Enabled(s, steps[0]) then 0
    else (if Overwrites(s, steps[0]) then 1 else 0) + Overwritten(Apply(s, steps[0]), steps[1..])
  }

  /** While DestroyPipelines keeps mLock there is nothing that could be counted. */
  predicate Settled(s: State) {
    && Unaccounted(s) >= 0
    && (HoldsLock(s.fw) ==> s.deQue == s.inQue && s.pending == map[] && s.work.WIdle?)
  }

  lemma DequeueAccounts(s: State, frame: nat)
    requires WorkEnabled(s, DequeueRequest(frame))
    ensures Unaccounted(ApplyWork(s, DequeueRequest(frame))) == Unaccounted(s)
  {
    var rest := s.pending - {frame};
    assert rest.Keys == s.pending.Keys - {frame};
    assert |rest.Keys| == |rest| && |s.pending.Keys| == |s.pending|;
  }

  lemma WorkAccounts(s: State, step: WorkStep)
    requires WorkEnabled(s, step)
    ensures Unaccounted(ApplyWork(s, step)) == Unaccounted(s) && ApplyWork(s, step).fw == s.fw
  {
    if step.DequeueRequest? {
      DequeueAccounts(s, step.frame);
    }
  }

  lemma ImageAccounts(s: State, step: ImageStep)
    requires ImageEnabled(s, step)
    ensures Unaccounted(ApplyImage(s, step)) == Unaccounted(s) && ApplyImage(s, step).fw == s.fw
  {
  }

  lemma SubmitAccounts(s: State, sub: Submission)
    requires FrameworkEnabled(s, Submit(sub))
    ensures Unaccounted(ApplyFramework(s, Submit(sub))) == Unaccounted(s) + if sub.frame in s.pending then 1 else 0
  {
    var t := ApplyFramework(s, Submit(sub));
    assert t.pending.Keys == s.pending.Keys + {sub.frame};
    assert |t.pending.Keys| == |t.pending| && |s.pending.Keys| == |s.pending|;
  }

  lemma FrameworkAccounts(s: State, step: FrameworkStep)
    requires FrameworkEnabled(s, step) && Settled(s) && !step.Submit?
    ensures var t := ApplyFramework(s, step); Unaccounted(t) == Unaccounted(s) && Settled(t)
  {
    if step.DestroyFinish? {
      assert PendingVectors(s.pending) == {};
    }
  }

  lemma StepAccounts(s: State, step: Step)
    requires Enabled(s, step) && Settled(s)
    ensures var t := Apply(s, step);
            Unaccounted(t) == Unaccounted(s) + (if Overwrites(s, step) then 1 else 0) && Settled(t)
  {
    match step
    case Framework(Submit(sub)) => SubmitAccounts(s, sub);
    case Framework(f) => FrameworkAccounts(s, f);
    case Work(w) =>
      WorkAccounts(s, w);
      LockedWorkRests(s, w);
    case Image(i) => ImageAccounts(s, i);
  }

  lemma LockedWorkRests(s: State, step: WorkStep)
    requires WorkEnabled(s, step) && Settled(s)
    ensures !HoldsLock(s.fw)
  {
  }

  /**
   Whatever frame numbers a run submits, what its counters have lost is exactly the submissions that overwrote
   one.
   */
  lemma {:induction false} RunAccounts(s: State, steps: seq<Step>, t: State)
    requires Settled(s) && AnyRun(s, steps, t)
    ensures Unaccounted(t) == Unaccounted(s) + Overwritten(s, steps) && Settled(t)
    decreases |steps|
  {
    if steps == [] {
    } else {
      StepAccounts(s, steps[0]);
      RunAccounts(Apply(s, steps[0]), steps[1..], t);
    }
  }

  /**
   A submission keeps the counters balanced exactly when its frame number is not pending; reuse after dispatch
   does no harm.
   */
  lemma ReuseIff(s: State, sub: Submission)
    requires Reachable(s) && FrameworkEnabled(s, Submit(sub))
    ensures Unaccounted(Apply(s, Framework(Submit(sub)))) == 0 <==> sub.frame !in s.pending
    ensures Unaccounted(Apply(s, Framework(Submit(sub)))) == if sub.frame in s.pending then 1 else 0
  {
    CountersBalance(s);
    SubmitAccounts(s, sub);
  }

  /**
   In any run the first wait of DestroyPipelines passes exactly when nothing is queued or dispatched and nothing
   was overwritten.
   */
  lemma FirstWaitPassesIff(steps: seq<Step>, t: State)
    requires AnyRun(INIT, steps, t) && t.fw.FWait?
    ensures FrameworkEnabled(t, DestroyQuiesced) <==>
              Overwritten(INIT, steps) == 0 && t.pending == map[] && t.work.WIdle?
  {
    RunAccounts(INIT, steps, t);
    assert |t.pending| == 0 <==> t.pending == map[];
  }

  /** Once a pending number has been overwritten it never passes again, whatever is submitted later. */
  lemma ReuseBlocksDestroy(s: State, steps: seq<Step>, t: State)
    requires Unaccounted(s) > 0 && !HoldsLock(s.fw) && AnyRun(s, steps, t)
    ensures t.deQue != t.inQue && !HoldsLock(t.fw) && !Enabled(t, Framework(DestroyQuiesced))
  {
    RunAccounts(s, steps, t);
  }

  const SUBMITTED_TWICE := SUBMITTED.(subs := [ONE_REQUEST, ONE_REQUEST], pending := map[0 := 1], inQue := 2, liveVecs := {0, 1})

  /** It happens: one pipeline and frame 0 submitted twice before the WorkThread runs. */
  lemma ReuseHappens() returns (steps: seq<Step>)
    ensures AnyRun(INIT, steps, SUBMITTED_TWICE) && Overwritten(INIT, steps) == 1
    ensures forall more, t | AnyRun(SUBMITTED_TWICE, more, t) :: !Enabled(t, Framework(DestroyQuiesced))
  {
    var step := Framework(Submit(ONE_REQUEST));
    var before := RunToSubmitted();
    RunIsAnyRun(INIT, before, SUBMITTED);
    assert ImportedBy(1, ONE_REQUEST.requests) == {};
    assert Apply(SUBMITTED, step) == SUBMITTED_TWICE;
    steps := before + [step];
    AnyRunAppend(INIT, before, SUBMITTED, step);
    RunAccounts(INIT, steps, SUBMITTED_TWICE);
    forall more, t | AnyRun(SUBMITTED_TWICE, more, t) ensures !Enabled(t, Framework(DestroyQuiesced)) {
      ReuseBlocksDestroy(SUBMITTED_TWICE, more, t);
    }
  }

  lemma {:induction false} RunIsAnyRun(s: State, steps: seq<Step>, t: State)
    requires IsRun(s, steps, t)
    ensures AnyRun(s, steps, t)
    decreases |steps|
  {
    if steps == [] {
    } else {
      RunIsAnyRun(Apply(s, steps[0]), steps[1..], t);
    }
  }

  lemma {:induction false} AnyRunAppend(s: State, steps: seq<Step>, t: State, step: Step)
    requires AnyRun(s, steps, t) && Enabled(t, step)
    ensures AnyRun(s, steps + [step], Apply(t, step))
    decreases |steps|
  {
    var all := steps + [step];
    if steps == [] {
      assert all[1..] == [] && all[0] == step;
    } else {
      AnyRunAppend(Apply(s, steps[0]), steps[1..], t, step);
      assert all[1..] == steps[1..] + [step];
    }
  }
}
