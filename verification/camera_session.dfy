/**
 CameraDeviceSessionHwlImpl and its ImgProcThread as an object whose fields the lock regions update.
 Each method is one region; its postcondition ties the new fields to the step of CameraModel.
 */
module CameraSession {
  import opened CameraModel
  import opened Common
  import opened CameraInvariant
  import opened CameraTheorems

  /** What deleting a request vector gives back. */
  datatype Resources = Resources(armed: set<Fd>, closed: multiset<Fd>, live: set<nat>, freed: multiset<nat>) {
    function Without(vecs: set<nat>): Resources {
      var fds := FencesOfVectors(armed, vecs);
      Resources(armed - fds, closed + multiset(fds), live - vecs, freed + multiset(vecs))
    }
  }

  class Session {
    // request vectors, in the order SubmitRequests allocated them
    var vectors: seq<Submission>
    var liveVectors: set<nat>
    var armedFences: set<Fd>

    // guarded by mLock
    var frameRequests: map<nat, nat>
    var inQueRequestIdx: nat
    var deQueRequestIdx: nat
    var pipelines: set<nat>
    var nextPipelineId: nat
    var pipelinesBuilt: bool

    // guarded by mImageListLock
    var imageList: seq<Feed>
    var latestImageIdx: nat
    var procdImageIdx: nat

    // guarded by mV4l2Lock
    var stream: Device

    // where each thread is
    var framework: FrameworkPc
    var worker: WorkPc
    var imageThread: ImagePc

    // what the framework and the kernel have seen
    ghost var callbacks: seq<Outcome>
    ghost var closes: multiset<Fd>
    ghost var deletes: multiset<nat>
    ghost var finished: seq<Done>
    ghost var releases: nat

    ghost function View(): State
      reads this
    {
      State(vectors, frameRequests, inQueRequestIdx, deQueRequestIdx, pipelines, nextPipelineId, pipelinesBuilt,
            framework, worker, imageThread, imageList, latestImageIdx, procdImageIdx, stream,
            armedFences, closes, liveVectors, deletes, callbacks, finished, releases)
    }

    /** Armed fences sit inside the fence arrays of their requests. */
    ghost predicate FencesInRange()
      reads this
    {
      forall fd | fd in armedFences :: fd.buf < FenceCount(vectors, fd.ref)
    }

    constructor ()
      ensures View() == INIT && FencesInRange()
    {
      vectors, liveVectors, armedFences := [], {}, {};
      frameRequests, inQueRequestIdx, deQueRequestIdx := map[], 0, 0;
      pipelines, nextPipelineId, pipelinesBuilt := {}, 0, false;
      imageList, latestImageIdx, procdImageIdx := [], 0, 0;
      stream, framework, worker, imageThread := STOPPED, FIdle, WIdle, IIdle;
      callbacks, closes, deletes, finished, releases := [], multiset{}, multiset{}, [], 0;
    }

    // -------------------------------------------------------------- framework thread

    method ConfigurePipeline() returns (id: nat)
      requires FrameworkEnabled(View(), Configure)
      modifies this
      ensures View() == ApplyFramework(old(View()), Configure)
      ensures id !in old(pipelines) || id == old(nextPipelineId)
    {
      id := nextPipelineId;
      pipelines := pipelines + {id};
      nextPipelineId := nextPipelineId + 1;
    }

    method BuildPipelines()
      requires FrameworkEnabled(View(), Build)
      modifies this
      ensures View() == ApplyFramework(old(View()), Build)
    {
      pipelinesBuilt := true;
    }

    /** importFence for every output buffer of one request. */
    method ImportFences(r: Ref, request: Request) returns (fds: set<Fd>)
      ensures fds == ImportedFds(r, request)
    {
      fds := {};
      var j := 0;
      while j < |request.fences|
        invariant 0 <= j <= |request.fences|
        invariant fds == set k | 0 <= k < j && request.fences[k] :: Fd(r, k)
      {
        if request.fences[j] {
          fds := fds + {Fd(r, j)};
        }
        j := j + 1;
      }
    }

    /** The loop over the requests of one submission. */
    method ImportAllFences(v: nat, requests: seq<Request>) returns (fds: set<Fd>)
      ensures fds == ImportedBy(v, requests)
    {
      fds := {};
      var i := 0;
      while i < |requests|
        invariant 0 <= i <= |requests|
        invariant fds == ImportedBy(v, requests[..i])
      {
        var more := ImportFences(Ref(v, i), requests[i]);
        ImportedByOneMore(v, requests, i);
        fds := fds + more;
        i := i + 1;
      }
      assert requests[..i] == requests;
    }

    /** SubmitLeaves says that the step leaves every other field as it is. */
    method SubmitRequests(sub: Submission)
      requires FrameworkEnabled(View(), Submit(sub))
      modifies this`vectors, this`liveVectors, this`armedFences, this`frameRequests, this`inQueRequestIdx
      ensures var t := ApplyFramework(old(View()), Submit(sub));
              && vectors == t.subs && liveVectors == t.liveVecs && armedFences == t.armed
              && frameRequests == t.pending && inQueRequestIdx == t.inQue
    {
      var fds := ImportAllFences(|vectors|, sub.requests);
      liveVectors, armedFences := liveVectors + {|vectors|}, armedFences + fds;
      frameRequests := frameRequests[sub.frame := |vectors|];
      vectors := vectors + [sub];
      inQueRequestIdx := inQueRequestIdx + 1;
    }

    /** The entry of DestroyPipelines: nothing to do unless pipelines were built. */
    method DestroyBegins()
      requires FrameworkEnabled(View(), DestroyBegin)
      modifies this
      ensures View() == ApplyFramework(old(View()), DestroyBegin)
    {
      if pipelinesBuilt {
        framework := FWait;
      }
    }

    /** One poll of the wait for mDeQueRequestIdx; once it passes, mLock stays held. */
    method DestroyPolls() returns (passed: bool)
      requires framework == FWait
      modifies this
      ensures passed <==> FrameworkEnabled(old(View()), DestroyQuiesced)
      ensures View() == if passed then ApplyFramework(old(View()), DestroyQuiesced) else old(View())
    {
      passed := deQueRequestIdx == inQueRequestIdx;
      if passed {
        framework := FDrain;
      }
    }

    /** One poll of drainImages on behalf of DestroyPipelines. */
    method DestroyDrains() returns (passed: bool)
      requires framework == FDrain
      modifies this
      ensures passed <==> FrameworkEnabled(old(View()), DestroyDrained)
      ensures View() == if passed then ApplyFramework(old(View()), DestroyDrained) else old(View())
    {
      passed := latestImageIdx == procdImageIdx;
      if passed {
        framework := FClean;
      }
    }

    /** Release every request of one vector. */
    method ReleaseVector(v: nat)
      requires FencesInRange()
      modifies this`armedFences, this`closes
      ensures armedFences == old(armedFences) - FencesOfVectors(old(armedFences), {v})
      ensures closes == old(closes) + multiset(FencesOfVectors(old(armedFences), {v}))
    {
      ghost var before := armedFences;
      var i := 0;
      while i < VecLen(vectors, v)
        invariant 0 <= i <= VecLen(vectors, v)
        invariant armedFences == before - FencesBefore(before, v, i)
        invariant closes == old(closes) + multiset(FencesBefore(before, v, i))
      {
        ghost var now := armedFences;
        CloseRequestFences(Ref(v, i));
        FencesBeforeGrows(before, v, i);
        assert ArmedOf(now, Ref(v, i)) == ArmedOf(before, Ref(v, i));
        MultisetOfUnion(FencesBefore(before, v, i), ArmedOf(before, Ref(v, i)));
        i := i + 1;
      }
      assert FencesBefore(before, v, i) == FencesOfVectors(before, {v}) by {
        AllFencesBefore(vectors, before, v);
      }
    }

    ghost function Held(): Resources
      reads this
    {
      Resources(armedFences, closes, liveVectors, deletes)
    }

    method DeleteVector(v: nat)
      requires FencesInRange()
      modifies this`armedFences, this`closes, this`liveVectors, this`deletes
      ensures Held() == old(Held()).Without({v}) && FencesInRange()
    {
      ReleaseVector(v);
      liveVectors, deletes := liveVectors - {v}, deletes + multiset{v};
      assert multiset({v}) == multiset{v};
    }

    /** Everything still pending is released and its vector deleted. */
    method CleanRequestsLocked()
      requires FencesInRange() && Distinct(frameRequests)
      modifies this`frameRequests, this`armedFences, this`closes, this`liveVectors, this`deletes
      ensures frameRequests == map[]
      ensures old(Held()).Without(PendingVectors(old(frameRequests))) == Held()
    {
      ghost var before := Held();
      ghost var vecs: set<nat> := {};
      WithoutNothing(before);
      var rest := frameRequests;
      while rest != map[]
        invariant Distinct(rest)
        invariant vecs !! PendingVectors(rest) && vecs + PendingVectors(rest) == PendingVectors(old(frameRequests))
        invariant Held() == before.Without(vecs)
        invariant FencesInRange()
        decreases rest.Keys
      {
        var f :| f in rest;
        OneVectorLess(rest, f, vecs);
        WithoutOneMore(before, vecs, rest[f]);
        DeleteVector(rest[f]);
        vecs := vecs + {rest[f]};
        rest := rest - {f};
      }
      frameRequests := map[];
    }

    /** CleanRequestsLocked, then every PipelineInfo is freed.  See DestroyLeaves for the other fields. */
    method DestroyEnds()
      requires FrameworkEnabled(View(), DestroyFinish)
      requires FencesInRange() && Distinct(frameRequests)
      modifies this`frameRequests, this`armedFences, this`closes, this`liveVectors, this`deletes,
               this`pipelines, this`pipelinesBuilt, this`framework
      ensures var t := ApplyFramework(old(View()), DestroyFinish);
              && frameRequests == t.pending && armedFences == t.armed && closes == t.closed
              && liveVectors == t.liveVecs && deletes == t.freedVecs
              && pipelines == t.pipes && pipelinesBuilt == t.built && framework == t.fw
    {
      CleanRequestsLocked();
      pipelines, pipelinesBuilt, framework := {}, false, FIdle;
    }

    // -------------------------------------------------------------- WorkThread

    /** map_frame_request.begin() by scanning the keys. */
    method FirstFrame() returns (frame: nat)
      requires frameRequests != map[]
      ensures IsFirst(frameRequests, frame)
    {
      var rest := frameRequests.Keys;
      frame :| frame in rest;
      while rest != {}
        invariant rest <= frameRequests.Keys && frame in frameRequests
        invariant forall f | f in frameRequests && f !in rest :: frame <= f
        decreases rest
      {
        var f :| f in rest;
        if f < frame {
          frame := f;
        }
        rest := rest - {f};
      }
    }

    /** The first lock region of HandleRequest. */
    method DequeueFrameRequest() returns (taken: bool)
      requires worker == WIdle && !HoldsLock(framework)
      modifies this
      ensures !taken ==> old(frameRequests) == map[] && View() == old(View())
      ensures taken ==> exists f :: WorkEnabled(old(View()), DequeueRequest(f)) &&
                                    View() == ApplyWork(old(View()), DequeueRequest(f))
    {
      if frameRequests == map[] {
        return false;
      }
      var frame := FirstFrame();
      assert WorkEnabled(View(), DequeueRequest(frame));
      worker := WNext(frameRequests[frame], 0);
      frameRequests := frameRequests - {frame};
      taken := true;
    }

    /** One turn of the loop over a request vector, up to the call of onFrameAcquire or of ConfigAndStart. */
    method HandleOne(reconfigure: bool)
      requires worker.WNext? && ValidRef(vectors, WorkRef(worker))
      modifies this
      ensures PipeConfigured(old(View()), WorkRef(old(worker))) ==>
                View() == ApplyWork(old(View()), Intent(reconfigure))
      ensures !PipeConfigured(old(View()), WorkRef(old(worker))) ==>
                View() == ApplyWork(old(View()), SkipRequest)
    {
      var v, i := worker.vec, worker.idx;
      if vectors[v].requests[i].pipeline !in pipelines {
        worker := WNext(v, i + 1);
      } else if reconfigure {
        worker := WDrain(v, i, false);
      } else {
        worker := WAcquire(v, i);
      }
    }

    /** One poll of drainImages on behalf of ConfigAndStart. */
    method ConfigDrains() returns (passed: bool)
      requires worker.WDrain?
      modifies this
      ensures passed <==> WorkEnabled(old(View()), WorkDrained)
      ensures View() == if passed then ApplyWork(old(View()), WorkDrained) else old(View())
    {
      passed := latestImageIdx == procdImageIdx;
      if passed {
        worker := WConfig(worker.vec, worker.idx, worker.recover);
      }
    }

    /** VIDIOC_QBUF for every buffer of a new start. */
    method QueueBuffers(gen: nat, n: nat) returns (queued: set<Buffer>)
      ensures queued == StartBuffers(gen, n)
    {
      queued := {};
      for i := 0 to n
        invariant queued == StartBuffers(gen, i)
      {
        queued := queued + {Buffer(gen, i)};
      }
    }

    /** The part of ConfigAndStart under mV4l2Lock: the stream is stopped, and then started or not. */
    method Reconfigure(outcome: StartOutcome)
      requires WorkEnabled(View(), Restart(outcome))
      modifies this
      ensures View() == ApplyWork(old(View()), Restart(outcome))
    {
      stream := stream.(started := false, count := 0, queued := {}, lost := {});
      if outcome.Starts? {
        var queued := QueueBuffers(stream.gen + 1, outcome.count);
        stream := stream.(started := true, gen := stream.gen + 1, count := outcome.count, queued := queued,
                          frames := 0, omit := outcome.omit);
      }
      worker := if worker.recover && outcome.StartFails? then WFeed(worker.vec, worker.idx, None)
                else WAcquire(worker.vec, worker.idx);
    }

    /** select() timed out: recover, unless the budget is spent. */
    method AcquireTimesOut()
      requires WorkEnabled(View(), SelectTimeout)
      modifies this
      ensures View() == ApplyWork(old(View()), SelectTimeout)
    {
      stream := stream.(recovered := stream.recovered + 1);
      worker := if stream.recovered > MAX_RECOVER_COUNT then WFeed(worker.vec, worker.idx, None)
                else WDrain(worker.vec, worker.idx, true);
    }

    /** VIDIOC_DQBUF delivered a buffer. */
    method AcquireFrame(buffer: Buffer, requeued: bool)
      requires WorkEnabled(View(), DequeueFrame(buffer, requeued))
      modifies this
      ensures View() == ApplyWork(old(View()), DequeueFrame(buffer, requeued))
    {
      var v, i := worker.vec, worker.idx;
      stream := stream.(frames := stream.frames + 1);
      if stream.frames == 1 {
        stream := stream.(recovered := 0);
      }
      if stream.omit == 0 {
        stream := stream.(queued := stream.queued - {buffer});
        worker := WFeed(v, i, Some(buffer));
      } else if requeued {
        stream := stream.(omit := stream.omit - 1);
      } else {
        stream := stream.(queued := stream.queued - {buffer}, lost := stream.lost + {buffer});
        worker := WFeed(v, i, None);
      }
    }

    method AcquireNothing()
      requires WorkEnabled(View(), AcquireFails)
      modifies this
      ensures View() == ApplyWork(old(View()), AcquireFails)
    {
      worker := WFeed(worker.vec, worker.idx, None);
    }

    method FeedToImageThread()
      requires WorkEnabled(View(), FeedImage)
      modifies this
      ensures View() == ApplyWork(old(View()), FeedImage)
    {
      imageList := imageList + [Feed(WorkRef(worker), worker.buffer)];
      latestImageIdx := latestImageIdx + 1;
      worker := WNext(worker.vec, worker.idx + 1);
    }

    /** The last lock region of HandleRequest. */
    method CountFrameRequest()
      requires WorkEnabled(View(), CountRequest)
      modifies this
      ensures View() == ApplyWork(old(View()), CountRequest)
    {
      deQueRequestIdx := deQueRequestIdx + 1;
      worker := WIdle;
    }

    // -------------------------------------------------------------- ImgProcThread

    method TakeFeed() returns (taken: bool)
      requires imageThread == IIdle
      modifies this
      ensures taken <==> ImageEnabled(old(View()), TakeImage)
      ensures View() == if taken then ApplyImage(old(View()), TakeImage) else old(View())
    {
      taken := imageList != [];
      if taken {
        imageThread := ITaken(imageList[0]);
        imageList := imageList[1..];
      }
    }

    /** From the pipeline lookup to the shutter callback, or to the early exits. */
    method BeginImage()
      requires imageThread.ITaken? && ValidRef(vectors, imageThread.feed.ref)
      modifies this
      ensures var s := old(View());
              View() == if !PipeConfigured(s, s.img.feed.ref) then ApplyImage(s, DropImage)
                        else if s.img.feed.buffer.None? then ApplyImage(s, CountNull)
                        else ApplyImage(s, NotifyShutter)
    {
      var feed := imageThread.feed;
      if RequestAt(vectors, feed.ref).pipeline !in pipelines {
        imageThread := IIdle;
      } else if feed.buffer.None? {
        procdImageIdx := procdImageIdx + 1;
        imageThread := INullNotify(feed);
      } else {
        callbacks := callbacks + [Shutter(feed.ref, vectors[feed.ref.vec].frame)];
        imageThread := IProcess(feed);
      }
    }

    method ReportError()
      requires ImageEnabled(View(), NotifyError)
      modifies this
      ensures View() == ApplyImage(old(View()), NotifyError)
    {
      var feed := imageThread.feed;
      callbacks := callbacks + [ErrorDevice(feed.ref, vectors[feed.ref.vec].frame)];
      finished := finished + [Failed(feed.ref)];
      imageThread := IRelease(feed);
    }

    /** Walk the fence array of a request and close every field that still holds a descriptor. */
    method CloseRequestFences(r: Ref)
      requires FencesInRange()
      modifies this`armedFences, this`closes
      ensures armedFences == old(armedFences) - ArmedOf(old(armedFences), r)
      ensures closes == old(closes) + multiset(ArmedOf(old(armedFences), r))
    {
      ghost var before := armedFences;
      var n := FenceCount(vectors, r);
      var j := 0;
      while j < n
        invariant 0 <= j <= n
        invariant armedFences == before - FencesBelow(before, r, j)
        invariant closes == old(closes) + multiset(FencesBelow(before, r, j))
      {
        var fd := Fd(r, j);
        FencesBelowGrows(before, r, j);
        if fd in armedFences {
          armedFences, closes := armedFences - {fd}, closes + multiset{fd};
        }
        j := j + 1;
      }
      assert FencesBelow(before, r, n) == ArmedOf(before, r);
    }

    /** ReleaseFrameRequest, and the deletion of the vector by its last request. */
    method ReleaseRequest(r: Ref)
      requires FencesInRange()
      modifies this`armedFences, this`closes, this`liveVectors, this`deletes
      ensures armedFences == old(armedFences) - ArmedOf(old(armedFences), r)
      ensures closes == old(closes) + multiset(ArmedOf(old(armedFences), r))
      ensures r.idx + 1 == VecLen(vectors, r.vec) ==>
                liveVectors == old(liveVectors) - {r.vec} && deletes == old(deletes) + multiset{r.vec}
      ensures r.idx + 1 != VecLen(vectors, r.vec) ==>
                liveVectors == old(liveVectors) && deletes == old(deletes)
    {
      CloseRequestFences(r);
      if r.idx + 1 == VecLen(vectors, r.vec) {
        liveVectors, deletes := liveVectors - {r.vec}, deletes + multiset{r.vec};
      }
    }

    /** ProcessCapbuf2MultiOutbuf: each output buffer's fence is waited for and closed. */
    method ProcessOutputs()
      requires ImageEnabled(View(), ProcessImage)
      requires FencesInRange()
      modifies this
      ensures View() == ApplyImage(old(View()), ProcessImage)
    {
      CloseRequestFences(imageThread.feed.ref);
      imageThread := IReturn(imageThread.feed);
    }

    /** onFrameReturn. */
    method ReturnToDriver(requeued: bool)
      requires ImageEnabled(View(), ReturnBuffer(requeued))
      modifies this
      ensures View() == ApplyImage(old(View()), ReturnBuffer(requeued))
    {
      var b := imageThread.feed.buffer.value;
      stream := if requeued then stream.(queued := stream.queued + {b}) else stream.(lost := stream.lost + {b});
      imageThread := IResult(imageThread.feed);
    }

    method DeliverResult()
      requires ImageEnabled(View(), NotifyResult)
      modifies this
      ensures View() == ApplyImage(old(View()), NotifyResult)
    {
      var feed := imageThread.feed;
      callbacks := callbacks + [Result(feed.ref, vectors[feed.ref.vec].frame, |RequestAt(vectors, feed.ref).fences|)];
      finished := finished + [Captured(feed.ref)];
      imageThread := ICount(feed);
    }

    method CountProcessed()
      requires ImageEnabled(View(), CountImage)
      modifies this
      ensures View() == ApplyImage(old(View()), CountImage)
    {
      procdImageIdx := procdImageIdx + 1;
      imageThread := IRelease(imageThread.feed);
    }

    /** releaseImgFeed.  See ReleaseLeaves for the other fields. */
    method ReleaseFeed()
      requires ImageEnabled(View(), ReleaseImage)
      requires FencesInRange()
      modifies this`armedFences, this`closes, this`liveVectors, this`deletes, this`imageThread, this`releases
      ensures var t := ApplyImage(old(View()), ReleaseImage);
              && armedFences == t.armed && closes == t.closed && liveVectors == t.liveVecs && deletes == t.freedVecs
              && imageThread == t.img && releases == t.released
    {
      ReleaseRequest(imageThread.feed.ref);
      imageThread, releases := IIdle, releases + 1;
    }

    // -------------------------------------------------------------- all three threads

    method SubmitRegion(sub: Submission)
      requires FrameworkEnabled(View(), Submit(sub))
      modifies this
      ensures View() == ApplyFramework(old(View()), Submit(sub))
    {
      SubmitLeaves(View(), sub);
      SubmitRequests(sub);
    }

    method DestroyRegion()
      requires FrameworkEnabled(View(), DestroyFinish) && FencesInRange() && Distinct(frameRequests)
      modifies this
      ensures View() == ApplyFramework(old(View()), DestroyFinish)
    {
      DestroyLeaves(View());
      DestroyEnds();
    }

    method ReleaseRegion()
      requires ImageEnabled(View(), ReleaseImage) && FencesInRange()
      modifies this
      ensures View() == ApplyImage(old(View()), ReleaseImage)
    {
      ReleaseLeaves(View());
      ReleaseFeed();
    }

    method FrameworkRegion(step: FrameworkStep)
      requires FrameworkEnabled(View(), step) && FencesInRange() && Distinct(frameRequests)
      modifies this
      ensures View() == ApplyFramework(old(View()), step)
    {
      match step
      case Configure => var id := ConfigurePipeline();
      case Build => BuildPipelines();
      case Submit(sub) => SubmitRegion(sub);
      case DestroyBegin => DestroyBegins();
      case DestroyQuiesced => var passed := DestroyPolls();
      case DestroyDrained => var passed := DestroyDrains();
      case DestroyFinish => DestroyRegion();
    }

    method WorkRegion(step: WorkStep)
      requires WorkEnabled(View(), step)
      modifies this
      ensures View() == ApplyWork(old(View()), step)
    {
      match step
      case DequeueRequest(_) => var taken := DequeueFrameRequest();
      case SkipRequest => HandleOne(false);
      case Intent(reconfigure) => HandleOne(reconfigure);
      case WorkDrained => var passed := ConfigDrains();
      case Restart(outcome) => Reconfigure(outcome);
      case SelectTimeout => AcquireTimesOut();
      case DequeueFrame(buffer, requeued) => AcquireFrame(buffer, requeued);
      case AcquireFails => AcquireNothing();
      case FeedImage => FeedToImageThread();
      case CountRequest => CountFrameRequest();
    }

    method ImageRegion(step: ImageStep)
      requires ImageEnabled(View(), step) && FencesInRange()
      requires imageThread.IIdle? || ValidRef(vectors, imageThread.feed.ref)
      modifies this
      ensures View() == ApplyImage(old(View()), step)
    {
      match step
      case TakeImage => var taken := TakeFeed();
      case DropImage => BeginImage();
      case CountNull => BeginImage();
      case NotifyError => ReportError();
      case NotifyShutter => BeginImage();
      case ProcessImage => ProcessOutputs();
      case ReturnBuffer(requeued) => ReturnToDriver(requeued);
      case NotifyResult => DeliverResult();
      case CountImage => CountProcessed();
      case ReleaseImage => ReleaseRegion();
    }

    method Region(step: Step)
      requires Reachable(View()) && Enabled(View(), step)
      modifies this
      ensures View() == Apply(old(View()), step)
    {
      PreconditionsHold(View());
      match step
      case Framework(f) => FrameworkRegion(f);
      case Work(w) => WorkRegion(w);
      case Image(i) => ImageRegion(i);
    }

    /**
     The three threads, interleaved as the schedule says.  Every run of the model is a run of the methods
     above, no method is ever called outside its precondition, and each region starts and ends with the
     invariant.
     */
    method Run(schedule: seq<Step>, ghost t: State)
      requires Reachable(View()) && IsRun(View(), schedule, t)
      modifies this
      ensures View() == t && Reachable(t) && Inv(t)
    {
      var i := 0;
      while i < |schedule|
        invariant i <= |schedule|
        invariant Reachable(View()) && IsRun(View(), schedule[i..], t)
      {
        ReachStep(View(), schedule[i]);
        assert schedule[i..][1..] == schedule[i + 1..];
        Region(schedule[i]);
        i := i + 1;
      }
      InvReachable(View());
    }
  }

  /** A new session follows any run from the start. */
  method Replay(schedule: seq<Step>, ghost t: State) returns (session: Session)
    requires IsRun(INIT, schedule, t)
    ensures fresh(session) && session.View() == t && Inv(t)
  {
    session := new Session();
    assert IsRun(INIT, [], INIT);
    session.Run(schedule, t);
  }

  lemma SubmitLeaves(s: State, sub: Submission)
    requires FrameworkEnabled(s, Submit(sub))
    ensures var t := ApplyFramework(s, Submit(sub));
            t == s.(subs := t.subs, liveVecs := t.liveVecs, armed := t.armed, pending := t.pending, inQue := t.inQue)
  {
  }

  lemma DestroyLeaves(s: State)
    requires FrameworkEnabled(s, DestroyFinish)
    ensures var t := ApplyFramework(s, DestroyFinish);
            t == s.(pending := t.pending, armed := t.armed, closed := t.closed, liveVecs := t.liveVecs,
                    freedVecs := t.freedVecs, pipes := t.pipes, built := t.built, fw := t.fw)
  {
  }

  lemma ReleaseLeaves(s: State)
    requires ImageEnabled(s, ReleaseImage)
    ensures var t := ApplyImage(s, ReleaseImage);
            t == s.(armed := t.armed, closed := t.closed, liveVecs := t.liveVecs, freedVecs := t.freedVecs,
                    img := t.img, released := t.released)
  {
  }

  function FenceCount(subs: seq<Submission>, r: Ref): nat {
    if ValidRef(subs, r) then |RequestAt(subs, r).fences| else 0
  }

  /** The armed fences of the first i requests of vector v. */
  function FencesBefore(armed: set<Fd>, v: nat, i: nat): set<Fd> {
    set fd | fd in armed && fd.ref.vec == v && fd.ref.idx < i
  }

  lemma FencesBeforeGrows(armed: set<Fd>, v: nat, i: nat)
    ensures FencesBefore(armed, v, i + 1) == FencesBefore(armed, v, i) + ArmedOf(armed, Ref(v, i))
    ensures FencesBefore(armed, v, i) !! ArmedOf(armed, Ref(v, i))
  {
  }

  lemma AllFencesBefore(subs: seq<Submission>, armed: set<Fd>, v: nat)
    requires forall fd | fd in armed :: fd.buf < FenceCount(subs, fd.ref)
    ensures FencesBefore(armed, v, VecLen(subs, v)) == FencesOfVectors(armed, {v})
  {
  }

  lemma MultisetOfUnion(a: set<Fd>, b: set<Fd>)
    requires a !! b
    ensures multiset(a + b) == multiset(a) + multiset(b)
  {
  }

  predicate Distinct(pending: map<nat, nat>) {
    forall f, g | f in pending && g in pending && pending[f] == pending[g] :: f == g
  }

  lemma OneVectorLess(pending: map<nat, nat>, f: nat, vecs: set<nat>)
    requires f in pending && Distinct(pending) && vecs !! PendingVectors(pending)
    ensures Distinct(pending - {f}) && (pending - {f}).Keys < pending.Keys
    ensures pending[f] !in vecs && vecs + {pending[f]} !! PendingVectors(pending - {f})
    ensures vecs + {pending[f]} + PendingVectors(pending - {f}) == vecs + PendingVectors(pending)
  {
    var v := pending[f];
    assert (pending - {f}).Keys == pending.Keys - {f};
    assert v in PendingVectors(pending);
    assert v !in PendingVectors(pending - {f});
    forall u | u in PendingVectors(pending) && u != v ensures u in PendingVectors(pending - {f}) {
      var g :| g in pending && pending[g] == u;
      assert g in pending - {f};
    }
  }

  lemma WithoutNothing(r: Resources)
    ensures r.Without({}) == r
  {
    assert FencesOfVectors(r.armed, {}) == {};
  }

  lemma WithoutOneMore(r: Resources, vecs: set<nat>, v: nat)
    requires v !in vecs
    ensures r.Without(vecs).Without({v}) == r.Without(vecs + {v})
  {
    var now := r.armed - FencesOfVectors(r.armed, vecs);
    assert FencesOfVectors(now, {v}) == FencesOfVectors(r.armed, {v});
    assert FencesOfVectors(r.armed, vecs + {v}) == FencesOfVectors(r.armed, vecs) + FencesOfVectors(r.armed, {v});
    MultisetOfUnion(FencesOfVectors(r.armed, vecs), FencesOfVectors(r.armed, {v}));
    assert multiset(vecs + {v}) == multiset(vecs) + multiset({v});
    assert r.live - vecs - {v} == r.live - (vecs + {v});
  }

  function FencesBelow(armed: set<Fd>, r: Ref, j: nat): set<Fd> {
    set fd | fd in armed && fd.ref == r && fd.buf < j
  }

  lemma FencesBelowGrows(armed: set<Fd>, r: Ref, j: nat)
    ensures FencesBelow(armed, r, j + 1) == FencesBelow(armed, r, j) + if Fd(r, j) in armed then {Fd(r, j)} else {}
    ensures Fd(r, j) !in FencesBelow(armed, r, j)
  {
  }

  lemma ImportedByOneMore(v: nat, requests: seq<Request>, i: nat)
    requires i < |requests|
    ensures ImportedBy(v, requests[..i + 1]) == ImportedBy(v, requests[..i]) + ImportedFds(Ref(v, i), requests[i])
  {
    var more := requests[..i + 1];
    forall fd
      ensures fd in ImportedBy(v, more) <==> fd in ImportedBy(v, requests[..i]) || fd in ImportedFds(Ref(v, i), requests[i])
    {
      if fd in ImportedFds(Ref(v, i), requests[i]) {
        assert more[i].fences[fd.buf];
      }
    }
  }

  /** What the methods above require besides enabledness holds in every reachable state. */
  lemma PreconditionsHold(s: State)
    requires Reachable(s)
    ensures Distinct(s.pending)
    ensures forall fd | fd in s.armed :: fd.buf < FenceCount(s.subs, fd.ref)
    ensures !s.img.IIdle? ==> ValidRef(s.subs, s.img.feed.ref)
  {
    InvReachable(s);
    forall fd | fd in s.armed ensures fd.buf < FenceCount(s.subs, fd.ref) {
      assert (multiset(s.armed) + s.closed)[fd] == multiset(Imported(s.subs))[fd];
      assert fd in Imported(s.subs);
    }
    if !s.img.IIdle? {
      ImageVectorIsLive(s);
    }
  }
}
