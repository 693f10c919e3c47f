/**
 What the capture pipeline delivers, over runs: which buffers the driver gets back, which requests
 get a frame and which frame that is, and what a reconfiguration and DestroyPipelines lead to.
 */
module CameraDelivery {
  import opened CameraModel
  import opened Common
  import opened CameraInvariant
  import opened CameraTheorems

  // ---------------------------------------------------------------- buffers the driver did not take back

  /** The buffer whose VIDIOC_QBUF fails in a step. */
  function RefusedBy(s: State, step: Step): set<Buffer>
    requires Enabled(s, step)
  {
    match step
    case Work(DequeueFrame(b, requeued)) => if s.dev.omit > 0 && !requeued then {b} else {}
    case Image(ReturnBuffer(requeued)) => if requeued then {} else {s.img.feed.buffer.value}
    case _ => {}
  }

  /** Stopping the stream takes every buffer from the driver and from the lost ones. */
  function RefusedAfter(s: State, was: set<Buffer>, step: Step): set<Buffer>
    requires Enabled(s, step)
  {
    if step.Work? && step.work.Restart? then {} else was + RefusedBy(s, step)
  }

  /** Those refused in a run since the stream was last stopped, where was had been refused before. */
  ghost function RefusedSince(s: State, was: set<Buffer>, steps: seq<Step>): set<Buffer>
    decreases |steps|
  {
    if steps == [] || !Enabled(s, steps[0]) then was
    else RefusedSince(Apply(s, steps[0]), RefusedAfter(s, was, steps[0]), steps[1..])
  }

  lemma LostByWork(s: State, step: WorkStep)
    requires WorkEnabled(s, step)
    ensures ApplyWork(s, step).dev.lost == RefusedAfter(s, s.dev.lost, Work(step))
  {
  }

  lemma LostByImage(s: State, step: ImageStep)
    requires ImageEnabled(s, step)
    ensures ApplyImage(s, step).dev.lost == RefusedAfter(s, s.dev.lost, Image(step))
  {
  }

  lemma LostStep(s: State, step: Step)
    requires Enabled(s, step)
    ensures Apply(s, step).dev.lost == RefusedAfter(s, s.dev.lost, step)
  {
    match step
    case Framework(f) =>
    case Work(w) => LostByWork(s, w);
    case Image(i) => LostByImage(s, i);
  }

  /** The buffers no longer in use are those whose VIDIOC_QBUF failed, no fewer and no more. */
  lemma {:induction false} LostIsRefused(s: State, steps: seq<Step>, t: State)
    requires IsRun(s, steps, t)
    ensures t.dev.lost == RefusedSince(s, s.dev.lost, steps)
    decreases |steps|
  {
    if steps == [] {
    } else {
      LostStep(s, steps[0]);
      LostIsRefused(Apply(s, steps[0]), steps[1..], t);
    }
  }

  /** A VIDIOC_QBUF made in the step, if any, works. */
  predicate Requeues(step: Step) {
    match step
    case Work(DequeueFrame(_, requeued)) => requeued
    case Image(ReturnBuffer(requeued)) => requeued
    case _ => true
  }

  lemma {:induction false} NothingRefused(s: State, steps: seq<Step>)
    requires forall step | step in steps :: Requeues(step)
    ensures RefusedSince(s, {}, steps) == {}
    decreases |steps|
  {
    if steps == [] || !Enabled(s, steps[0]) {
    } else {
      assert Requeues(steps[0]);
      assert RefusedAfter(s, {}, steps[0]) == {};
      NothingRefused(Apply(s, steps[0]), steps[1..]);
    }
  }

  /**
   When nothing is in flight the driver has every buffer of the current start but those it refused; all of
   them if it never refused one.
   */
  lemma QueueWhenQuiet(steps: seq<Step>, t: State)
    requires IsRun(INIT, steps, t) && Quiet(t)
    ensures t.dev.queued == StartBuffers(t.dev.gen, t.dev.count) - RefusedSince(INIT, {}, steps)
    ensures (forall step | step in steps :: Requeues(step)) ==> t.dev.queued == StartBuffers(t.dev.gen, t.dev.count)
  {
    LostIsRefused(INIT, steps, t);
    forall b ensures b in t.dev.queued <==> b in StartBuffers(t.dev.gen, t.dev.count) - t.dev.lost {
      OneOwnerEach(t, b);
    }
    if forall step | step in steps :: Requeues(step) {
      NothingRefused(INIT, steps);
    }
  }

  // ---------------------------------------------------------------- which request gets which frame

  /** A frame that onFrameAcquire hands to the request it was called for. */
  datatype Frame = Frame(ref: Ref, buffer: Buffer)

  function SurfacedBy(s: State, step: Step): set<Frame>
    requires Enabled(s, step)
  {
    match step
    case Work(DequeueFrame(b, _)) => if s.dev.omit == 0 then {Frame(WorkRef(s.work), b)} else {}
    case _ => {}
  }

  ghost function Surfaced(s: State, was: set<Frame>, steps: seq<Step>): set<Frame>
    decreases |steps|
  {
    if steps == [] || !Enabled(s, steps[0]) then was
    else Surfaced(Apply(s, steps[0]), was + SurfacedBy(s, steps[0]), steps[1..])
  }

  /** The WorkThread has not come to capture for this request yet. */
  predicate Ahead(s: State, r: Ref) {
    r.vec >= Next(s)
    || (Busy(s.work) && r.vec == s.work.vec && (r.idx > s.work.idx || (r.idx == s.work.idx && !s.work.WFeed?)))
  }

  /** What was captured for a request is this buffer, or nothing. */
  predicate CapturedIs(got: set<Frame>, r: Ref, buffer: Option<Buffer>) {
    forall f | f in got :: f.ref == r ==> Some(f.buffer) == buffer
  }

  predicate Matches(got: set<Frame>, r: Ref, buffer: Option<Buffer>) {
    CapturedIs(got, r, buffer) && (buffer.Some? ==> Frame(r, buffer.value) in got)
  }

  predicate FeedMatches(s: State, got: set<Frame>, f: Feed) {
    !Ahead(s, f.ref) && Matches(got, f.ref, f.buffer)
  }

  predicate DoneMatches(s: State, got: set<Frame>, d: Done) {
    !Ahead(s, d.ref) && (d.Captured? <==> exists f :: f in got && f.ref == d.ref)
  }

  /** Every stage of the pipeline agrees with the frames surfaced so far. */
  ghost predicate Delivers(s: State, got: set<Frame>) {
    && (forall f | f in got :: !Ahead(s, f.ref))
    && (s.work.WFeed? ==> Matches(got, WorkRef(s.work), s.work.buffer))
    && (forall f | f in s.images :: FeedMatches(s, got, f))
    && (!s.img.IIdle? ==> FeedMatches(s, got, s.img.feed))
    && (forall d | d in s.done :: DoneMatches(s, got, d))
  }

  lemma AheadShrinksByWork(s: State, step: WorkStep, r: Ref)
    requires InvCounters(s) && InvPending(s) && WorkEnabled(s, step) && !Ahead(s, r)
    ensures !Ahead(ApplyWork(s, step), r)
  {
    if step.DequeueRequest? {
      FirstPendingIsNext(s, step.frame);
    }
  }

  lemma AheadShrinks(s: State, step: Step, r: Ref)
    requires InvCounters(s) && InvPending(s) && Enabled(s, step) && !Ahead(s, r)
    ensures !Ahead(Apply(s, step), r)
  {
    match step
    case Framework(f) =>
    case Work(w) => AheadShrinksByWork(s, w, r);
    case Image(i) => SameStages(s, i);
  }

  /** Before a request has been captured for, nothing has surfaced for it. */
  lemma NothingAhead(s: State, got: set<Frame>, r: Ref)
    requires Delivers(s, got) && Ahead(s, r)
    ensures Matches(got, r, None)
  {
  }

  /** A later frame is for a later request. */
  lemma MatchesStay(s: State, got: set<Frame>, step: Step, r: Ref, buffer: Option<Buffer>)
    requires Enabled(s, step) && !Ahead(s, r) && Matches(got, r, buffer)
    ensures Matches(got + SurfacedBy(s, step), r, buffer)
  {
  }

  lemma DeliversWorker(s: State, got: set<Frame>, step: WorkStep)
    requires Inv(s) && Delivers(s, got) && WorkEnabled(s, step)
    ensures var t, now := ApplyWork(s, step), got + SurfacedBy(s, Work(step));
            && (forall f | f in now :: !Ahead(t, f.ref))
            && (t.work.WFeed? ==> Matches(now, WorkRef(t.work), t.work.buffer))
  {
    var t, now := ApplyWork(s, step), got + SurfacedBy(s, Work(step));
    forall f | f in now ensures !Ahead(t, f.ref) {
      if f in got {
        AheadShrinks(s, Work(step), f.ref);
      }
    }
    if t.work.WFeed? {
      NothingAhead(s, got, WorkRef(s.work));
    }
  }

  lemma FeedStays(s: State, got: set<Frame>, step: Step, f: Feed)
    requires Inv(s) && Enabled(s, step) && FeedMatches(s, got, f)
    ensures FeedMatches(Apply(s, step), got + SurfacedBy(s, step), f)
  {
    AheadShrinks(s, step, f.ref);
    MatchesStay(s, got, step, f.ref, f.buffer);
  }

  lemma DoneStays(s: State, got: set<Frame>, step: Step, d: Done)
    requires Inv(s) && Enabled(s, step) && DoneMatches(s, got, d)
    ensures DoneMatches(Apply(s, step), got + SurfacedBy(s, step), d)
  {
    AheadShrinks(s, step, d.ref);
  }

  lemma DeliversStages(s: State, got: set<Frame>, step: Step)
    requires Inv(s) && Delivers(s, got) && Enabled(s, step)
    ensures var t, now := Apply(s, step), got + SurfacedBy(s, step);
            && (forall f | f in s.images :: FeedMatches(t, now, f))
            && (!s.img.IIdle? ==> FeedMatches(t, now, s.img.feed))
            && (forall d | d in s.done :: DoneMatches(t, now, d))
  {
    forall f | f in s.images ensures FeedMatches(Apply(s, step), got + SurfacedBy(s, step), f) {
      FeedStays(s, got, step, f);
    }
    if !s.img.IIdle? {
      FeedStays(s, got, step, s.img.feed);
    }
    forall d | d in s.done ensures DoneMatches(Apply(s, step), got + SurfacedBy(s, step), d) {
      DoneStays(s, got, step, d);
    }
  }

  lemma DeliversWork(s: State, got: set<Frame>, step: WorkStep)
    requires Inv(s) && Delivers(s, got) && WorkEnabled(s, step)
    ensures Delivers(ApplyWork(s, step), got + SurfacedBy(s, Work(step)))
  {
    DeliversWorker(s, got, step);
    DeliversStages(s, got, Work(step));
    if step.FeedImage? {
      var f := Feed(WorkRef(s.work), s.work.buffer);
      assert FeedMatches(ApplyWork(s, step), got, f);
      assert got + SurfacedBy(s, Work(step)) == got;
    }
  }

  /** The outcome reported for a request tells whether a frame surfaced for it. */
  lemma NewDone(s: State, got: set<Frame>, step: ImageStep)
    requires Inv(s) && Delivers(s, got) && ImageEnabled(s, step)
    ensures forall d | d in ApplyImage(s, step).done && d !in s.done :: DoneMatches(s, got, d)
  {
    if step.NotifyError? {
      assert s.img.feed.buffer.None?;
    } else if step.NotifyResult? {
      assert Frame(s.img.feed.ref, s.img.feed.buffer.value) in got;
    }
  }

  lemma SameStages(s: State, step: ImageStep)
    requires ImageEnabled(s, step)
    ensures var t := ApplyImage(s, step);
            && t.work == s.work && t.deQue == s.deQue && (forall f | f in t.images :: f in s.images)
            && (!t.img.IIdle? ==> if s.img.IIdle? then t.img.feed in s.images else t.img.feed == s.img.feed)
  {
  }

  lemma DeliversImage(s: State, got: set<Frame>, step: ImageStep)
    requires Inv(s) && Delivers(s, got) && ImageEnabled(s, step)
    ensures Delivers(ApplyImage(s, step), got)
  {
    var t := ApplyImage(s, step);
    assert got + SurfacedBy(s, Image(step)) == got;
    DeliversStages(s, got, Image(step));
    SameStages(s, step);
    NewDone(s, got, step);
    forall d | d in t.done ensures DoneMatches(t, got, d) {
      if d !in s.done {
        DoneStays(s, got, Image(step), d);
      }
    }
    forall f | f in got ensures !Ahead(t, f.ref) {
      AheadShrinks(s, Image(step), f.ref);
    }
  }

  lemma DeliversStep(s: State, got: set<Frame>, step: Step)
    requires Inv(s) && Delivers(s, got) && Enabled(s, step)
    ensures Delivers(Apply(s, step), got + SurfacedBy(s, step))
  {
    match step
    case Work(w) => DeliversWork(s, got, w);
    case Image(i) =>
      DeliversImage(s, got, i);
      assert got + SurfacedBy(s, step) == got;
    case Framework(f) =>
      DeliversStages(s, got, step);
      assert got + SurfacedBy(s, step) == got;
      forall g | g in got ensures !Ahead(Apply(s, step), g.ref) {
        AheadShrinks(s, step, g.ref);
      }
  }

  lemma {:induction false} DeliversRun(s: State, got: set<Frame>, steps: seq<Step>, t: State)
    requires Inv(s) && Delivers(s, got) && IsRun(s, steps, t)
    ensures Delivers(t, Surfaced(s, got, steps))
    decreases |steps|
  {
    if steps == [] {
    } else {
      DeliversStep(s, got, steps[0]);
      InvStep(s, steps[0]);
      DeliversRun(Apply(s, steps[0]), got + SurfacedBy(s, steps[0]), steps[1..], t);
    }
  }

  /**
   A request is answered with a result exactly when onFrameAcquire surfaced a frame for it; and the buffer
   that the image thread handles for a request, and gives back, is the one that surfaced for it.
   */
  lemma ResultIffSurfaced(steps: seq<Step>, t: State)
    requires IsRun(INIT, steps, t)
    ensures var got := Surfaced(INIT, {}, steps);
            && (forall d | d in t.done :: d.Captured? <==> exists f :: f in got && f.ref == d.ref)
            && (!t.img.IIdle? ==>
                  forall f | f in got && f.ref == t.img.feed.ref :: t.img.feed.buffer == Some(f.buffer))
            && (!t.img.IIdle? && t.img.feed.buffer.Some? ==> Frame(t.img.feed.ref, t.img.feed.buffer.value) in got)
  {
    InvInit();
    DeliversRun(INIT, {}, steps, t);
    var got := Surfaced(INIT, {}, steps);
    forall d | d in t.done ensures d.Captured? <==> exists f :: f in got && f.ref == d.ref {
      assert DoneMatches(t, got, d);
    }
  }

  // ---------------------------------------------------------------- reconfiguration

  predicate Reconfiguring(work: WorkPc, r: Ref) {
    (work.WDrain? || work.WConfig?) && !work.recover && WorkRef(work) == r
  }

  lemma ReconfiguringStays(s: State, step: Step, r: Ref)
    requires Enabled(s, step) && Reconfiguring(s.work, r)
    ensures (step.Work? && step.work.Restart?) || Reconfiguring(Apply(s, step).work, r)
  {
  }

  lemma {:induction false} ReconfiguringUntilRestart(s: State, steps: seq<Step>, t: State, r: Ref)
    requires IsRun(s, steps, t) && Reconfiguring(s.work, r)
    requires forall step | step in steps :: !(step.Work? && step.work.Restart?)
    ensures Reconfiguring(t.work, r)
    decreases |steps|
  {
    if steps == [] {
    } else {
      assert steps[0] in steps;
      ReconfiguringStays(s, steps[0], r);
      ReconfiguringUntilRestart(Apply(s, steps[0]), steps[1..], t, r);
    }
  }

  /** A request that needs another configuration is not captured for before the stream has been restarted; any other at once. */
  lemma IntentReconfigures(s: State, reconfigure: bool, steps: seq<Step>, t: State)
    requires WorkEnabled(s, Intent(reconfigure)) && IsRun(ApplyWork(s, Intent(reconfigure)), steps, t)
    requires forall step | step in steps :: !(step.Work? && step.work.Restart?)
    ensures reconfigure ==> Reconfiguring(t.work, WorkRef(s.work))
    ensures !reconfigure && steps == [] ==> t.work.WAcquire? && WorkRef(t.work) == WorkRef(s.work)
  {
    if reconfigure {
      ReconfiguringUntilRestart(ApplyWork(s, Intent(true)), steps, t, WorkRef(s.work));
    }
  }

  /**
   A good start, normal or in a recovery, goes on to capture for the same request, with every buffer of a new
   generation in the driver; the next frame is fed with that request unless it is to be omitted.
   */
  lemma GoodStartFeeds(s: State, n: nat, omit: nat, index: nat, requeued: bool)
    requires s.work.WConfig? && n <= MAX_STREAM_BUFFERS && index < n
    ensures var t := ApplyWork(s, Restart(Starts(n, omit)));
            var b := Buffer(s.dev.gen + 1, index);
            && WorkEnabled(t, DequeueFrame(b, requeued))
            && var u := ApplyWork(t, DequeueFrame(b, requeued));
               && (u.work.WAcquire? <==> omit > 0 && requeued)
               && (!u.work.WAcquire? ==>
                     && WorkEnabled(u, FeedImage)
                     && ApplyWork(u, FeedImage).images
                     == s.images + [Feed(WorkRef(s.work), if omit == 0 then Some(b) else None)])
  {
  }

  /** After a failed start the driver has no buffer; a recovery gives the request up, a normal start tries to capture. */
  lemma FailedStartLeads(s: State)
    requires s.work.WConfig?
    ensures var t := ApplyWork(s, Restart(StartFails));
            && !t.dev.started && (forall b :: b !in t.dev.queued && b !in t.dev.lost)
            && (s.work.recover ==> WorkEnabled(t, FeedImage)
                                   && ApplyWork(t, FeedImage).images == s.images + [Feed(WorkRef(s.work), None)])
            && (!s.work.recover ==> WorkEnabled(t, AcquireFails) && WorkRef(t.work) == WorkRef(s.work))
  {
  }

  // ---------------------------------------------------------------- fences

  predicate FencesGone(s: State) {
    s.img.IReturn? || s.img.IResult? || s.img.ICount? ==> ArmedOf(s.armed, s.img.feed.ref) == {}
  }

  lemma SubmitArmsLater(s: State, sub: Submission, r: Ref)
    requires FrameworkEnabled(s, Submit(sub)) && r.vec < |s.subs| && ArmedOf(s.armed, r) == {}
    ensures ArmedOf(ApplyFramework(s, Submit(sub)).armed, r) == {}
  {
    assert forall fd :: fd in ArmedOf(s.armed, r) <==> fd in s.armed && fd.ref == r;
  }

  lemma FewerArmed(armed: set<Fd>, left: set<Fd>, r: Ref)
    requires left <= armed && ArmedOf(armed, r) == {}
    ensures ArmedOf(left, r) == {}
  {
    assert ArmedOf(left, r) <= ArmedOf(armed, r);
  }

  lemma FencesGoneFramework(s: State, step: FrameworkStep)
    requires Inv(s) && FencesGone(s) && FrameworkEnabled(s, step)
    ensures FencesGone(ApplyFramework(s, step))
  {
    if s.img.IReturn? || s.img.IResult? || s.img.ICount? {
      ImageVectorIsLive(s);
      if step.Submit? {
        SubmitArmsLater(s, step.sub, s.img.feed.ref);
      } else {
        FewerArmed(s.armed, ApplyFramework(s, step).armed, s.img.feed.ref);
      }
    }
  }

  lemma FencesGoneWork(s: State, step: WorkStep)
    requires FencesGone(s) && WorkEnabled(s, step)
    ensures FencesGone(ApplyWork(s, step))
  {
    var t := ApplyWork(s, step);
    assert t.armed == s.armed && t.img == s.img;
  }

  lemma FencesGoneImage(s: State, step: ImageStep)
    requires FencesGone(s) && ImageEnabled(s, step)
    ensures FencesGone(ApplyImage(s, step))
  {
  }

  lemma FencesGoneStep(s: State, step: Step)
    requires Inv(s) && FencesGone(s) && Enabled(s, step)
    ensures FencesGone(Apply(s, step))
  {
    match step
    case Work(w) => FencesGoneWork(s, w);
    case Image(i) => FencesGoneImage(s, i);
    case Framework(f) => FencesGoneFramework(s, f);
  }

  lemma {:induction false} FencesGoneRun(s: State, steps: seq<Step>, t: State)
    requires Inv(s) && FencesGone(s) && IsRun(s, steps, t)
    ensures FencesGone(t)
    decreases |steps|
  {
    if steps == [] {
    } else {
      FencesGoneStep(s, steps[0]);
      InvStep(s, steps[0]);
      FencesGoneRun(Apply(s, steps[0]), steps[1..], t);
    }
  }

  /** Every fence of a request is closed before its V4L2 buffer is given back and its result delivered. */
  lemma FencesClosedBeforeResult(s: State)
    requires Reachable(s) && (s.img.IReturn? || s.img.IResult? || s.img.ICount?)
    ensures forall fd | fd in s.armed :: fd.ref != s.img.feed.ref
  {
    var steps :| IsRun(INIT, steps, s);
    InvInit();
    FencesGoneRun(INIT, steps, s);
    assert forall fd :: fd in ArmedOf(s.armed, s.img.feed.ref) <==> fd in s.armed && fd.ref == s.img.feed.ref;
  }

  // ---------------------------------------------------------------- DestroyPipelines

  /** On a quiet session it runs through and leaves no pipeline; without built pipelines it does nothing. */
  lemma DestroyCompletes(s: State)
    requires Reachable(s) && Quiet(s) && s.fw.FIdle?
    ensures s.built ==>
              IsRun(s, [Framework(DestroyBegin), Framework(DestroyQuiesced), Framework(DestroyDrained), Framework(DestroyFinish)],
                    s.(pipes := {}, built := false))
    ensures !s.built ==> Apply(s, Framework(DestroyBegin)) == s
  {
    QuietCounters(s);
    if s.built {
      var waiting, draining, cleaning := s.(fw := FWait), s.(fw := FDrain), s.(fw := FClean);
      assert PendingVectors(s.pending) == {};
      assert CleanPending(cleaning) == cleaning;
      var steps := [Framework(DestroyBegin), Framework(DestroyQuiesced), Framework(DestroyDrained), Framework(DestroyFinish)];
      assert steps[3..] == [Framework(DestroyFinish)] && steps[3..][1..] == [];
      assert IsRun(cleaning, steps[3..], s.(pipes := {}, built := false));
      assert steps[2..][1..] == steps[3..] && steps[1..][1..] == steps[2..];
      assert IsRun(draining, steps[2..], s.(pipes := {}, built := false));
      assert IsRun(waiting, steps[1..], s.(pipes := {}, built := false));
    }
  }
}
