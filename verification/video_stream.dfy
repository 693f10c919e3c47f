/**
 VideoStream and MMAPStream for one V4L2 device node: ConfigAndStart, onDeviceStartLocked,
 onDeviceStopLocked, postConfigureLocked and onFrameAcquire.

 The device is a script: one Driver value says how the ioctls of one ConfigAndStart end, one Event
 says what one pass through the capture_data label sees.
 */
module VideoStream {
  import opened CameraModel
  import opened Common

  // ---------------------------------------------------------------- what the device answers

  /** QUERYBUF, EXPBUF, mmap and the second QUERYBUF for one buffer. */
  datatype BufferReply =
    | QueryFails
    | MapFails(size: nat)
    | RequeryFails(size: nat)
    | Mapped(size: nat)

  datatype Driver = Driver(
    streamOff: bool, reopens: bool, configures: bool,
    requestBuffers: bool, replies: seq<BufferReply>, queueFailsAt: Option<nat>, streamOn: bool)

  datatype Event =
    | Timeout(driver: Driver)                 // select() timed out; driver answers the recovery
    | DequeueFails
    | Frame(index: nat, requeued: bool)       // VIDIOC_DQBUF succeeds; requeued answers VIDIOC_QBUF

  function ReplyFor(d: Driver, i: nat): BufferReply {
    if i < |d.replies| then d.replies[i] else QueryFails
  }

  /** A V4L2 driver never exports a buffer of no bytes. */
  predicate Sane(d: Driver) {
    forall r | r in d.replies :: !r.QueryFails? ==> r.size > 0
  }

  predicate AllMapped(d: Driver, n: nat) {
    forall i | 0 <= i < n :: ReplyFor(d, i).Mapped?
  }

  predicate AllQueued(d: Driver, n: nat) {
    d.queueFailsAt.Some? ==> d.queueFailsAt.value >= n
  }

  predicate StartSucceeds(d: Driver, n: nat) {
    d.requestBuffers && AllMapped(d, n) && AllQueued(d, n) && d.streamOn
  }

  // ---------------------------------------------------------------- acquisition as a function

  /** The fields that onFrameAcquire tests; isOpen: the file descriptor is valid. */
  datatype Control = Control(started: bool, frames: nat, omit: nat, omitCount: nat, recovered: nat, isOpen: bool)

  /** Only a running device is ever closed and opened again. */
  predicate OpenedAfter(c: Control, d: Driver, reopen: bool) {
    if c.started && reopen then d.reopens else c.isOpen
  }

  /** What a ConfigAndStart that is not a no-op leaves, for a resolution whose first omitFor frames are bad. */
  function Reconfigured(c: Control, d: Driver, reopen: bool, n: nat, omitFor: nat): Control {
    if c.started && !d.streamOff then c
    else if !Configures(c, d, reopen) then c.(started := false, isOpen := OpenedAfter(c, d, reopen))
    else if !StartSucceeds(d, n) then c.(started := false, frames := 0, omitCount := omitFor, isOpen := true)
    else Control(true, 0, omitFor, omitFor, c.recovered, true)
  }

  /** A running device is stopped and, if need be, reopened first; a closed one is refused. */
  predicate Configures(c: Control, d: Driver, reopen: bool) {
    (c.started ==> d.streamOff) && OpenedAfter(c, d, reopen) && d.configures
  }

  predicate ReconfigureSucceeds(c: Control, d: Driver, reopen: bool, n: nat) {
    Configures(c, d, reopen) && StartSucceeds(d, n)
  }

  /** A start fails exactly when one of its ioctls does. */
  lemma StartFailsIff(d: Driver, n: nat)
    ensures !StartSucceeds(d, n) <==>
              || !d.requestBuffers || !d.streamOn
              || (exists i :: 0 <= i < n && !ReplyFor(d, i).Mapped?)
              || (d.queueFailsAt.Some? && d.queueFailsAt.value < n)
  {
  }

  /** The device is lost exactly by stopping it for a reopening that fails; nothing else closes it or opens it. */
  lemma LostIff(c: Control, d: Driver, reopen: bool, n: nat, omitFor: nat)
    requires c.started ==> c.isOpen
    ensures Reconfigured(c, d, reopen, n, omitFor).isOpen
            <==> c.isOpen && !(c.started && d.streamOff && reopen && !d.reopens)
  {
  }

  /** Frame count and omit count belong to the format accepted last, also when the start then fails. */
  lemma CountersFollowFormat(c: Control, d: Driver, reopen: bool, n: nat, omitFor: nat)
    ensures var t := Reconfigured(c, d, reopen, n, omitFor);
            && t.recovered == c.recovered
            && (Configures(c, d, reopen) ==> t.frames == 0 && t.omitCount == omitFor)
            && (!Configures(c, d, reopen) ==> t.frames == c.frames && t.omitCount == c.omitCount)
            && t.omit == (if ReconfigureSucceeds(c, d, reopen, n) then omitFor else c.omit)
            && (t.started <==> ReconfigureSucceeds(c, d, reopen, n) || (c.started && !d.streamOff))
  {
  }

  datatype Verdict = Waiting | NoBuffer | Surfaced(index: nat)

  /** requeued: indexes given straight back to the driver, restarts: how often the device was recovered. */
  datatype Acquired = Acquired(control: Control, verdict: Verdict, requeued: seq<nat>, restarts: nat, used: nat)

  /** One pass through capture_data; Waiting means that it ends in a jump back there. */
  function Pass(c: Control, e: Event, n: nat): Acquired {
    match e
    case Timeout(d) =>
      var c1 := c.(recovered := c.recovered + 1);
      if c1.recovered > MAX_RECOVER_COUNT then Acquired(c1, NoBuffer, [], 0, 1)
      else
        Acquired(Reconfigured(c1, d, true, n, c.omitCount),
                 if ReconfigureSucceeds(c1, d, true, n) then Waiting else NoBuffer, [], 1, 1)
    case DequeueFails => Acquired(c, NoBuffer, [], 0, 1)
    case Frame(index, requeued) =>
      if !c.started then Acquired(c, NoBuffer, [], 0, 1)
      else
        var c1 := c.(frames := c.frames + 1, recovered := if c.frames == 0 then 0 else c.recovered);
        if c.omit == 0 then Acquired(c1, Surfaced(index), [], 0, 1)
        else if !requeued then Acquired(c1, NoBuffer, [], 0, 1)
        else Acquired(c1.(omit := c.omit - 1), Waiting, [index], 0, 1)
  }

  /** onFrameAcquire against the events still to come; Waiting means that they ran out first. */
  function Acquire(c: Control, events: seq<Event>, n: nat): Acquired
    decreases |events|
  {
    if !c.isOpen then Acquired(c, NoBuffer, [], 0, 0)
    else if events == [] then Acquired(c, Waiting, [], 0, 0)
    else
      var p := Pass(c, events[0], n);
      if p.verdict != Waiting then p
      else
        var rest := Acquire(p.control, events[1..], n);
        Acquired(rest.control, rest.verdict, p.requeued + rest.requeued, p.restarts + rest.restarts, 1 + rest.used)
  }

  /** A call returns with the first event that ends it, and has then seen no other one. */
  lemma {:induction false} ReturnsAtUsed(c: Control, events: seq<Event>, n: nat)
    requires c.isOpen
    ensures var a := Acquire(c, events, n);
            && a.used <= |events| && (a.verdict == Waiting ==> a.used == |events|)
            && (a.verdict != Waiting ==>
                  a.used > 0 && forall k | 0 <= k < a.used :: Acquire(c, events[..k], n).verdict == Waiting)
            && Acquire(c, events[..a.used], n) == a
    decreases |events|
  {
    var a := Acquire(c, events, n);
    if events == [] {
    } else {
      var p := Pass(c, events[0], n);
      if p.verdict == Waiting {
        ReturnsAtUsed(p.control, events[1..], n);
        assert events[..a.used][1..] == events[1..][..a.used - 1];
      }
      forall k | 0 <= k < a.used && a.verdict != Waiting ensures Acquire(c, events[..k], n).verdict == Waiting {
        if k > 0 {
          assert events[..k][1..] == events[1..][..k - 1];
        }
      }
    }
  }

  // ---------------------------------------------------------------- frame omission

  /** What is left to omit never falls behind the frames seen since the start. */
  predicate OmitCovers(c: Control) {
    c.started ==> c.omit + c.frames >= c.omitCount && c.omit <= c.omitCount
  }

  /** No call ever surfaces one of the first omitCount frames of a start. */
  lemma {:induction false} FirstFramesNeverSurface(c: Control, events: seq<Event>, n: nat)
    requires OmitCovers(c)
    ensures var a := Acquire(c, events, n);
            && OmitCovers(a.control)
            && (a.verdict.Surfaced? ==> a.control.started && a.control.frames > a.control.omitCount)
    decreases |events|
  {
    if events == [] {
    } else if Pass(c, events[0], n).verdict == Waiting {
      FirstFramesNeverSurface(Pass(c, events[0], n).control, events[1..], n);
    }
  }

  /** The number f of frames of this start whose VIDIOC_QBUF failed is what the omit counter lags behind. */
  predicate OmitCounts(c: Control, f: nat) {
    c.started ==>
      && c.isOpen && f <= c.frames
      && c.omit == if c.frames - f < c.omitCount then c.omitCount - (c.frames - f) else 0
  }

  /** That number after one pass; a restart begins anew. */
  function MissedAt(c: Control, f: nat, e: Event, n: nat): nat {
    match e
    case Timeout(_) => if Pass(c, e, n).verdict == Waiting then 0 else f
    case DequeueFails => f
    case Frame(_, requeued) => if c.started && c.omit > 0 && !requeued then f + 1 else f
  }

  function MissedIn(c: Control, f: nat, events: seq<Event>, n: nat): nat
    decreases |events|
  {
    if !c.isOpen || events == [] then f
    else
      var g := MissedAt(c, f, events[0], n);
      if Pass(c, events[0], n).verdict != Waiting then g else MissedIn(Pass(c, events[0], n).control, g, events[1..], n)
  }

  lemma {:induction false} OmitCountsKept(c: Control, f: nat, events: seq<Event>, n: nat)
    requires OmitCounts(c, f)
    ensures OmitCounts(Acquire(c, events, n).control, MissedIn(c, f, events, n))
    decreases |events|
  {
    if !c.isOpen || events == [] {
    } else if Pass(c, events[0], n).verdict == Waiting {
      OmitCountsKept(Pass(c, events[0], n).control, MissedAt(c, f, events[0], n), events[1..], n);
    }
  }

  /** The two calls that change a stream: a ConfigAndStart that is not a no-op, and onFrameAcquire. */
  datatype Call =
    | Start(driver: Driver, reopen: bool, n: nat, omitFor: nat)
    | Fetch(events: seq<Event>, n: nat)

  const OPENED := Control(false, 0, 0, 0, 0, true)

  function After(c: Control, call: Call): Control {
    match call
    case Start(d, reopen, n, omitFor) => Reconfigured(c, d, reopen, n, omitFor)
    case Fetch(events, n) => Acquire(c, events, n).control
  }

  function MissedBy(c: Control, f: nat, call: Call): nat {
    match call
    case Start(d, _, _, _) => if c.started && !d.streamOff then f else 0
    case Fetch(events, n) => MissedIn(c, f, events, n)
  }

  function AfterAll(c: Control, calls: seq<Call>): Control
    decreases |calls|
  {
    if calls == [] then c else AfterAll(After(c, calls[0]), calls[1..])
  }

  function MissedByAll(c: Control, f: nat, calls: seq<Call>): nat
    decreases |calls|
  {
    if calls == [] then f else MissedByAll(After(c, calls[0]), MissedBy(c, f, calls[0]), calls[1..])
  }

  lemma {:induction false} OmitCountsOverCalls(c: Control, f: nat, calls: seq<Call>)
    requires OmitCounts(c, f)
    ensures OmitCounts(AfterAll(c, calls), MissedByAll(c, f, calls))
    decreases |calls|
  {
    if calls == [] {
    } else {
      if calls[0].Fetch? {
        OmitCountsKept(c, f, calls[0].events, calls[0].n);
      }
      OmitCountsOverCalls(After(c, calls[0]), MissedBy(c, f, calls[0]), calls[1..]);
    }
  }

  /**
   After any calls, whatever failed in them: the next frame dequeued is surfaced iff omitCount frames of
   this start were given back before it, a frame whose VIDIOC_QBUF failed not being counted.  So the promise
   to surface every frame after the first omitCount is kept for it iff it does not fall among the f frames
   by which the counter lags.
   */
  lemma LaterFramesSurface(calls: seq<Call>, index: nat, requeued: bool, n: nat)
    requires AfterAll(OPENED, calls).started
    ensures var c, f := AfterAll(OPENED, calls), MissedByAll(OPENED, 0, calls);
            var a := Acquire(c, [Frame(index, requeued)], n);
            && (a.verdict == Surfaced(index) <==> c.frames - f >= c.omitCount)
            && (a.verdict == Waiting && a.requeued == [index] <==> c.frames - f < c.omitCount && requeued)
            && (a.verdict == NoBuffer <==> c.frames - f < c.omitCount && !requeued)
            && ((c.frames >= c.omitCount ==> a.verdict == Surfaced(index))
                <==> !(c.omitCount <= c.frames < c.omitCount + f))
  {
    OmitCountsOverCalls(OPENED, 0, calls);
    var c := AfterAll(OPENED, calls);
    var p := Pass(c, Frame(index, requeued), n);
    assert [Frame(index, requeued)][1..] == [];
    assert Acquire(p.control, [], n).requeued == [];
  }

  /** It happens: with one frame to omit, whose VIDIOC_QBUF fails, the second frame is given back as well. */
  lemma FailedRequeueDelays(n: nat)
    ensures var calls := [Start(Willing(n), false, n, 1), Fetch([Frame(0, false)], n)];
            var c := AfterAll(OPENED, calls);
            && c == Control(true, 1, 1, 1, 0, true) && MissedByAll(OPENED, 0, calls) == 1
            && Acquire(c, [Frame(1, true)], n).requeued == [1]
  {
    var start, fetch := Start(Willing(n), false, n, 1), Fetch([Frame(0, false)], n);
    var calls, c0 := [start, fetch], Control(true, 0, 1, 1, 0, true);
    assert calls[1..] == [fetch] && calls[1..][1..] == [];
    assert After(OPENED, start) == c0;
    assert AfterAll(c0, [fetch]) == AfterAll(After(c0, fetch), []);
    assert MissedByAll(c0, 0, [fetch]) == MissedByAll(After(c0, fetch), 1, []);
    LaterFramesSurface(calls, 1, true, n);
  }

  /**
   A device that could not be reopened is never opened again: the reopening is behind the test for a
   running stream.  From then on no call starts it and every onFrameAcquire returns no buffer at once.
   */
  lemma {:induction false} LostStaysLost(c: Control, calls: seq<Call>)
    requires !c.isOpen && !c.started
    ensures var t := AfterAll(c, calls);
            !t.isOpen && !t.started && forall events, n :: Acquire(t, events, n) == Acquired(t, NoBuffer, [], 0, 0)
    decreases |calls|
  {
    if calls == [] {
    } else {
      LostStaysLost(After(c, calls[0]), calls[1..]);
    }
  }

  function FrameEvents(indexes: seq<nat>): seq<Event> {
    seq(|indexes|, k requires 0 <= k < |indexes| => Frame(indexes[k], true))
  }

  /** With k frames to omit, the call gives back the first k dequeued and surfaces the next one. */
  lemma {:induction false} SurfacesAfterOmitted(c: Control, indexes: seq<nat>, n: nat)
    requires c.started && c.isOpen && |indexes| == c.omit + 1
    ensures var a := Acquire(c, FrameEvents(indexes), n);
            a.verdict == Surfaced(indexes[c.omit]) && a.requeued == indexes[..c.omit] && a.control.omit == 0
    decreases c.omit
  {
    var events := FrameEvents(indexes);
    if c.omit > 0 {
      var p := Pass(c, events[0], n);
      assert events[1..] == FrameEvents(indexes[1..]);
      SurfacesAfterOmitted(p.control, indexes[1..], n);
      assert indexes[..c.omit] == [indexes[0]] + indexes[1..][..c.omit - 1];
    }
  }

  // ---------------------------------------------------------------- agreement with the step system

  function ControlOf(dev: Device, omitCount: nat): Control {
    Control(dev.started, dev.frames, dev.omit, omitCount, dev.recovered, true)
  }

  function AfterPass(v: Verdict, vec: nat, idx: nat, buffer: Option<Buffer>): WorkPc {
    match v
    case Waiting => WAcquire(vec, idx)
    case NoBuffer => WFeed(vec, idx, None)
    case Surfaced(_) => WFeed(vec, idx, buffer)
  }

  /** A dequeued frame moves the pipeline's WorkThread and device as one pass of the loop does. */
  lemma FrameStepAgrees(s: State, buffer: Buffer, requeued: bool, omitCount: nat, n: nat)
    requires WorkEnabled(s, DequeueFrame(buffer, requeued)) && s.dev.started
    ensures var t, p := ApplyWork(s, DequeueFrame(buffer, requeued)),
                        Pass(ControlOf(s.dev, omitCount), Frame(buffer.index, requeued), n);
            && ControlOf(t.dev, omitCount) == p.control
            && t.work == AfterPass(p.verdict, s.work.vec, s.work.idx, Some(buffer))
            && (p.verdict.Surfaced? ==> p.verdict.index == buffer.index)
  {
  }

  /** So does a time-out: the select step, then, within the budget, the drain and the restart. */
  lemma TimeoutStepsAgree(s: State, d: Driver, omitCount: nat, n: nat)
    requires WorkEnabled(s, SelectTimeout) && s.latest == s.procd && n <= MAX_STREAM_BUFFERS && d.streamOff
    ensures var p, t := Pass(ControlOf(s.dev, omitCount), Timeout(d), n), ApplyWork(s, SelectTimeout);
            && (p.restarts == 0 <==> t.work.WFeed?)
            && (p.restarts == 0 ==> p.verdict == NoBuffer && ControlOf(t.dev, omitCount) == p.control)
            && (p.restarts > 0 ==>
                  && WorkEnabled(t, WorkDrained)
                  && var u := ApplyWork(t, WorkDrained);
                     var outcome := if p.verdict == Waiting then Starts(n, omitCount) else StartFails;
                     && WorkEnabled(u, Restart(outcome))
                     && var w := ApplyWork(u, Restart(outcome));
                        && w.work == AfterPass(p.verdict, s.work.vec, s.work.idx, None)
                        && w.dev.started == p.control.started
                        && (p.verdict == Waiting ==> ControlOf(w.dev, omitCount) == p.control))
  {
  }

  // ---------------------------------------------------------------- does the call return?

  predicate NoTimeoutAfterFrame(events: seq<Event>) {
    forall j, k | 0 <= j < k < |events| :: events[j].Frame? ==> !events[k].Timeout?
  }

  function BudgetLeft(c: Control): nat {
    if c.recovered > MAX_RECOVER_COUNT then 0 else MAX_RECOVER_COUNT + 1 - c.recovered
  }

  /**
   Passes through capture_data: time-outs first, each charged to the budget, then frames to omit and the one
   surfaced.
   */
  function PassBound(c: Control): nat {
    BudgetLeft(c) + Max(c.omit, c.omitCount) + 1
  }

  lemma {:induction false} FramesOnly(c: Control, events: seq<Event>, n: nat)
    requires forall e | e in events :: !e.Timeout?
    ensures Acquire(c, events, n).used <= c.omit + 1
    ensures |events| > c.omit ==> Acquire(c, events, n).verdict != Waiting
    ensures Acquire(c, events, n).restarts == 0
    decreases |events|
  {
    if events == [] {
    } else {
      assert events[0] in events;
      if Pass(c, events[0], n).verdict == Waiting {
        FramesOnly(Pass(c, events[0], n).control, events[1..], n);
      }
    }
  }

  /** Unless a time-out follows a frame, the call returns, and recovers at most MAX_RECOVER_COUNT times. */
  lemma {:induction false} AcquireReturns(c: Control, events: seq<Event>, n: nat)
    requires NoTimeoutAfterFrame(events)
    ensures var a := Acquire(c, events, n);
            && a.used <= PassBound(c) && a.restarts <= MAX_RECOVER_COUNT
            && a.restarts < Max(BudgetLeft(c), 1)
            && (|events| >= PassBound(c) ==> a.verdict != Waiting)
    decreases |events|
  {
    if events == [] {
    } else if events[0].Timeout? {
      if Pass(c, events[0], n).verdict == Waiting {
        AcquireReturns(Pass(c, events[0], n).control, events[1..], n);
      }
    } else if events[0].Frame? {
      FramesOnly(c, events, n);
    }
  }

  function Frames(events: seq<Event>): nat {
    if events == [] then 0 else (if events[0].Frame? then 1 else 0) + Frames(events[1..])
  }

  /** Whatever the device does, each frame buys at most MAX_RECOVER_COUNT recoveries. */
  lemma {:induction false} RecoveriesPaidByFrames(c: Control, events: seq<Event>, n: nat)
    ensures Acquire(c, events, n).restarts
         <= (if c.recovered > MAX_RECOVER_COUNT then 0 else MAX_RECOVER_COUNT - c.recovered)
            + MAX_RECOVER_COUNT * Frames(events)
    decreases |events|
  {
    if events == [] {
    } else if Pass(c, events[0], n).verdict == Waiting {
      RecoveriesPaidByFrames(Pass(c, events[0], n).control, events[1..], n);
    }
  }

  function Willing(n: nat): Driver {
    Driver(true, true, true, true, seq(n, _ => Mapped(1)), None, true)
  }

  /** One frame, then a time-out whose recovery works, over and over. */
  function Stutter(k: nat, n: nat): seq<Event> {
    if k == 0 then [] else [Frame(0, true), Timeout(Willing(n))] + Stutter(k - 1, n)
  }

  lemma {:induction false} StutterWaits(c: Control, k: nat, n: nat)
    requires c.isOpen && c.started && c.frames == 0 && c.omit == c.omitCount > 0
    ensures Acquire(c, Stutter(k, n), n).verdict == Waiting
    decreases k
  {
    if k == 0 {
    } else {
      var s := Stutter(k, n);
      var c1 := c.(frames := 1, recovered := 0, omit := c.omit - 1);
      var c2 := Control(true, 0, c.omitCount, c.omitCount, 1, true);
      assert s[1..] == [Timeout(Willing(n))] + Stutter(k - 1, n) && s[1..][1..] == Stutter(k - 1, n);
      StutterWaits(c2, k - 1, n);
      assert Reconfigured(c1.(recovered := 1), Willing(n), true, n, c.omitCount) == c2;
      assert Acquire(c1, s[1..], n).verdict == Acquire(c2, Stutter(k - 1, n), n).verdict;
    }
  }

  /** Where nothing is omitted the first frame ends the call. */
  lemma {:induction false} NothingToOmitReturns(c: Control, events: seq<Event>, n: nat)
    requires c.omitCount == 0 && (c.started ==> c.omit == 0) && |events| >= BudgetLeft(c) + 1
    ensures Acquire(c, events, n).verdict != Waiting
    decreases |events|
  {
    if !c.isOpen {
    } else if Pass(c, events[0], n).verdict == Waiting {
      NothingToOmitReturns(Pass(c, events[0], n).control, events[1..], n);
    }
  }

  /** Where the budget is spent and no first frame can refill it, the next time-out ends the call. */
  lemma {:induction false} SpentReturns(c: Control, events: seq<Event>, n: nat)
    requires c.recovered >= MAX_RECOVER_COUNT && (c.started ==> c.frames > 0 || c.omit == 0)
    requires |events| > if c.started then c.omit else 0
    ensures Acquire(c, events, n).verdict != Waiting
    decreases |events|
  {
    if !c.isOpen {
    } else if Pass(c, events[0], n).verdict == Waiting {
      SpentReturns(Pass(c, events[0], n).control, events[1..], n);
    }
  }

  ghost predicate AlwaysWithin(c: Control, n: nat, bound: nat) {
    forall events: seq<Event> | |events| >= bound :: Acquire(c, events, n).verdict != Waiting
  }

  /** Frames are to be omitted after a restart, and a restart is to be had: now, or after the first frame, which is omitted. */
  predicate CanStutter(c: Control) {
    && c.isOpen && c.omitCount > 0
    && (c.recovered < MAX_RECOVER_COUNT || (c.started && c.frames == 0 && c.omit > 0))
  }

  function CallBound(c: Control): nat {
    BudgetLeft(c) + (if c.started then c.omit else 0) + 1
  }

  /** What brings the device to a fresh start: a time-out, within the budget or after a frame that refills it. */
  function ToRestart(c: Control, n: nat): seq<Event> {
    (if c.recovered < MAX_RECOVER_COUNT then [] else [Frame(0, true)]) + [Timeout(Willing(n))]
  }

  lemma ThenStutterWaits(c: Control, k: nat, n: nat)
    requires CanStutter(c)
    ensures Acquire(c, ToRestart(c, n) + Stutter(k, n), n).verdict == Waiting
  {
    var s := ToRestart(c, n) + Stutter(k, n);
    if c.recovered < MAX_RECOVER_COUNT {
      var again := Pass(c, Timeout(Willing(n)), n);
      assert again.verdict == Waiting && s[1..] == Stutter(k, n);
      StutterWaits(again.control, k, n);
    } else {
      var first := Pass(c, Frame(0, true), n);
      var again := Pass(first.control, Timeout(Willing(n)), n);
      assert first.verdict == again.verdict == Waiting;
      assert s[1..] == [Timeout(Willing(n))] + Stutter(k, n) && s[1..][1..] == Stutter(k, n);
      StutterWaits(again.control, k, n);
      assert Acquire(first.control, s[1..], n).verdict == Acquire(again.control, Stutter(k, n), n).verdict;
    }
  }

  /**
   A call is bounded for every behaviour of the device exactly when it cannot stutter: the recovery budget is
   refilled by the first frame of a restart even when that frame is then omitted.
   */
  lemma AcquireBoundedIff(c: Control, n: nat)
    requires OmitCovers(c)
    ensures (exists bound: nat :: AlwaysWithin(c, n, bound)) <==> !CanStutter(c)
    ensures !CanStutter(c) ==> AlwaysWithin(c, n, CallBound(c))
  {
    if CanStutter(c) {
      forall bound: nat ensures !AlwaysWithin(c, n, bound) {
        StutterLength(bound, n);
        ThenStutterWaits(c, bound, n);
      }
    } else {
      forall events: seq<Event> | |events| >= CallBound(c) ensures Acquire(c, events, n).verdict != Waiting {
        if c.isOpen && c.omitCount == 0 {
          NothingToOmitReturns(c, events, n);
        } else if c.isOpen {
          SpentReturns(c, events, n);
        }
      }
      assert AlwaysWithin(c, n, CallBound(c));
    }
  }

  lemma {:induction false} StutterLength(k: nat, n: nat)
    ensures |Stutter(k, n)| == 2 * k
  {
    if k == 0 {
    } else {
      StutterLength(k - 1, n);
    }
  }

  /** Between calls, in any order and whatever failed, what AcquireBoundedIff asks for holds. */
  lemma CallsCover(calls: seq<Call>)
    ensures OmitCovers(AfterAll(OPENED, calls))
  {
    OmitCountsOverCalls(OPENED, 0, calls);
  }

  // ---------------------------------------------------------------- configurations

  const YCBCR_420_SP := 0x11
  const YCBCR_420_888 := 0x23

  datatype Config = Config(format: nat, width: nat, height: nat, fps: nat, scene: nat)

  predicate IsNv12(format: nat) {
    format == YCBCR_420_SP || format == YCBCR_420_888
  }

  /** The configuration that a request really asks for, given the current one. */
  function Wanted(cur: Config, imx8mq: bool, req: Config): Config {
    var tiny := imx8mq && req.width == 320 && req.height == 240;
    Config(if IsNv12(cur.format) && IsNv12(req.format) then cur.format else req.format,
           if tiny then 640 else req.width, if tiny then 480 else req.height, req.fps, req.scene)
  }

  /** The scene mode is saved last, the rest as soon as the device accepts the format. */
  function ConfigAfter(c: Control, cur: Config, want: Config, d: Driver, reopen: bool, n: nat): Config {
    if !Configures(c, d, reopen) then cur
    else if !StartSucceeds(d, n) then want.(scene := cur.scene)
    else want
  }

  /** Asking again for what was just started is recognised as the same configuration. */
  lemma SecondRequestIsSame(c: Control, cur: Config, imx8mq: bool, req: Config, d: Driver, reopen: bool, n: nat)
    requires ReconfigureSucceeds(c, d, reopen, n)
    ensures var after := ConfigAfter(c, cur, Wanted(cur, imx8mq, req), d, reopen, n);
            Wanted(after, imx8mq, req) == after
  {
  }

  /** The state of a stream between calls, as far as ConfigAndStart looks at it. */
  datatype Setup = Setup(control: Control, config: Config)

  /** ConfigAndStart: its verdict and what it leaves; omitFor is the omit count of the resolution wanted. */
  function Configured(s: Setup, imx8mq: bool, isp: bool, req: Config, recover: bool, d: Driver, n: nat, omitFor: nat)
    : (bool, Setup)
  {
    var want := Wanted(s.config, imx8mq, req);
    if want == s.config && !recover then (true, s)
    else
      (ReconfigureSucceeds(s.control, d, recover || isp, n),
       Setup(Reconfigured(s.control, d, recover || isp, n, omitFor),
             ConfigAfter(s.control, s.config, want, d, recover || isp, n)))
  }

  /** The resolution that stands for the one asked for: an i.MX8MQ has no 320x240. */
  function Resolution(imx8mq: bool, req: Config): (nat, nat) {
    if imx8mq && req.width == 320 && req.height == 240 then (640, 480) else (req.width, req.height)
  }

  /** A configuration serves a request: its rate, scene mode and resolution, and its format or the other name for NV12. */
  predicate Serves(config: Config, imx8mq: bool, req: Config) {
    && config.fps == req.fps && config.scene == req.scene
    && (config.width, config.height) == Resolution(imx8mq, req)
    && (config.format == req.format || (IsNv12(config.format) && IsNv12(req.format)))
  }

  /** After a call that reports success the saved configuration serves what was asked for. */
  lemma SuccessServes(s: Setup, imx8mq: bool, isp: bool, req: Config, recover: bool, d: Driver, n: nat, omitFor: nat)
    ensures var (ok, t) := Configured(s, imx8mq, isp, req, recover, d, n, omitFor);
            ok ==> Serves(t.config, imx8mq, req)
  {
  }

  /**
   The stream is left alone exactly when it need not recover and its configuration serves the request already;
   any other call stops it, or finds that it cannot.
   */
  lemma ShortcutIff(s: Setup, imx8mq: bool, isp: bool, req: Config, recover: bool, d: Driver, n: nat, omitFor: nat)
    ensures var (ok, t) := Configured(s, imx8mq, isp, req, recover, d, n, omitFor);
            && (!recover && Serves(s.config, imx8mq, req) ==> ok && t == s)
            && (recover || !Serves(s.config, imx8mq, req) ==>
                  && (ok ==> t.control.started && t.control.frames == 0)
                  && (!ok ==> !t.control.started || (s.control.started && !d.streamOff && t == s))
                  && (ok <==> Configures(s.control, d, recover || isp) && StartSucceeds(d, n)))
  {
  }

  /** The shortcut for the same configuration is open on a stopped stream. */
  predicate Misled(s: Setup, imx8mq: bool, req: Config) {
    !s.control.started && Wanted(s.config, imx8mq, req) == s.config
  }

  /**
   A call reports success on a stopped stream exactly when it is no recovery, nothing runs and the configuration
   looks the same.
   */
  lemma OkOnStoppedIff(s: Setup, imx8mq: bool, isp: bool, req: Config, recover: bool, d: Driver, n: nat, omitFor: nat)
    ensures var (ok, t) := Configured(s, imx8mq, isp, req, recover, d, n, omitFor);
            ok && !t.control.started <==> Misled(s, imx8mq, req) && !recover
  {
  }

  /**
   Which calls lead there.  Any that succeeds or finds STREAMOFF failing leaves the stream running, or
   stopped as it was by the shortcut.  One that fails before the format is accepted leaves the old
   configuration on a stopped stream; one that fails later leaves the wanted one, but for the scene mode.
   */
  lemma MisledAfterIff(s: Setup, imx8mq: bool, isp: bool, req: Config, recover: bool, d: Driver, n: nat, omitFor: nat,
                       next: Config)
    ensures var (ok, t) := Configured(s, imx8mq, isp, req, recover, d, n, omitFor);
            var want := Wanted(s.config, imx8mq, req);
            Misled(t, imx8mq, next) <==>
              if want == s.config && !recover then Misled(s, imx8mq, next)
              else if ok || (s.control.started && !d.streamOff) then false
              else if !Configures(s.control, d, recover || isp) then Wanted(s.config, imx8mq, next) == s.config
              else var left := want.(scene := s.config.scene); Wanted(left, imx8mq, next) == left
  {
  }

  /**
   So repeating the request that failed late is taken for the same configuration iff its scene mode is the old
   one.
   */
  lemma FailedStartLooksSame(s: Setup, imx8mq: bool, isp: bool, req: Config, recover: bool, d: Driver, n: nat, omitFor: nat)
    requires Wanted(s.config, imx8mq, req) != s.config || recover
    requires Configures(s.control, d, recover || isp) && !StartSucceeds(d, n)
    ensures Misled(Configured(s, imx8mq, isp, req, recover, d, n, omitFor).1, imx8mq, req) <==> req.scene == s.config.scene
  {
    MisledAfterIff(s, imx8mq, isp, req, recover, d, n, omitFor, req);
  }

  /**
   And after a call that failed early, going back to the configuration that ran before is, whatever was asked
   for in between.
   */
  lemma FailedReopenLooksSame(s: Setup, imx8mq: bool, isp: bool, req: Config, recover: bool, d: Driver, n: nat, omitFor: nat,
                              back: Config)
    requires Wanted(s.config, imx8mq, req) != s.config || recover
    requires s.control.started && d.streamOff && !Configures(s.control, d, recover || isp)
    requires Wanted(s.config, imx8mq, back) == s.config
    ensures Misled(Configured(s, imx8mq, isp, req, recover, d, n, omitFor).1, imx8mq, back)
  {
    MisledAfterIff(s, imx8mq, isp, req, recover, d, n, omitFor, back);
  }

  // ---------------------------------------------------------------- omit_frame table and buffer table

  datatype OmitFrame = OmitFrame(width: nat, height: nat, num: nat)

  function OmitFor(table: seq<OmitFrame>, width: nat, height: nat): nat {
    if table == [] then 0
    else if table[0].width == width && table[0].height == height then table[0].num
    else OmitFor(table[1..], width, height)
  }

  /** The number is that of the first entry for the resolution, or 0 when it has none. */
  lemma {:induction false} OmitForFirst(table: seq<OmitFrame>, width: nat, height: nat)
    ensures var n := OmitFor(table, width, height);
            || (n == 0 && forall e | e in table :: (e.width, e.height) != (width, height))
            || exists k :: && 0 <= k < |table| && table[k] == OmitFrame(width, height, n)
                           && forall j | 0 <= j < k :: (table[j].width, table[j].height) != (width, height)
    decreases |table|
  {
    if table == [] {
    } else if (table[0].width, table[0].height) != (width, height) {
      var rest, n := table[1..], OmitFor(table, width, height);
      OmitForFirst(rest, width, height);
      if k :| && 0 <= k < |rest| && rest[k] == OmitFrame(width, height, n)
              && forall j | 0 <= j < k :: (rest[j].width, rest[j].height) != (width, height) {
        assert table[k + 1] == OmitFrame(width, height, n);
        forall j | 0 <= j < k + 1 ensures (table[j].width, table[j].height) != (width, height) {
          assert j == 0 || table[j] == rest[j - 1];
        }
      } else {
        assert table == [table[0]] + rest;
      }
    } else {
      assert table[0] == OmitFrame(width, height, OmitFor(table, width, height));
    }
  }

  /** An ImxStreamBuffer; id stands for its address. */
  datatype Slot = Slot(id: nat, size: nat)

  function Ids(t: seq<Option<Slot>>): set<nat> {
    set i | 0 <= i < |t| && t[i].Some? :: t[i].value.id
  }

  predicate DistinctIds(t: seq<Option<Slot>>) {
    forall i, j | 0 <= i < j < |t| :: t[i].Some? && t[j].Some? ==> t[i].value.id != t[j].value.id
  }

  lemma ClearSlot(t: seq<Option<Slot>>, i: nat)
    requires i < |t| && DistinctIds(t) && t[i].Some?
    ensures DistinctIds(t[i := None]) && Ids(t[i := None]) == Ids(t) - {t[i].value.id}
  {
    var u := t[i := None];
    forall id | id in Ids(t) && id != t[i].value.id ensures id in Ids(u) {
      var j :| 0 <= j < |t| && t[j].Some? && t[j].value.id == id;
      assert u[j].Some?;
    }
  }

  lemma FillSlot(t: seq<Option<Slot>>, i: nat, slot: Slot)
    requires i < |t| && DistinctIds(t) && t[i].None? && slot.id !in Ids(t)
    ensures DistinctIds(t[i := Some(slot)]) && Ids(t[i := Some(slot)]) == Ids(t) + {slot.id}
  {
    var u := t[i := Some(slot)];
    assert u[i].Some?;
    forall id | id in Ids(t) ensures id in Ids(u) {
      var j :| 0 <= j < |t| && t[j].Some? && t[j].value.id == id;
      assert u[j].Some?;
    }
  }

  class Stream {
    const imx8mq: bool
    const isp: bool
    const omitFrames: seq<OmitFrame>
    const buffers: array<Option<Slot>>
    var config: Config
    var captureIntent: nat
    var numBuffers: nat
    var mbStart: bool
    var frames: nat
    var omit: nat
    var omitCount: nat
    var recoverCount: nat
    var isOpen: bool                // mDev is a valid descriptor
    var nextId: nat
    ghost var live: set<nat>        // buffer objects created and not deleted
    ghost var loaded: nat           // how many buffers the last successful start registered

    ghost predicate Valid()
      reads this, buffers
    {
      && TableOk() && numBuffers <= MAX_STREAM_BUFFERS && loaded <= MAX_STREAM_BUFFERS
      && (!mbStart ==> Empty())
      && Tuned() && (mbStart ==> isOpen)
    }

    /** The configuration is one that can be asked for, and the omit count is that of its resolution. */
    ghost predicate Tuned()
      reads this
    {
      Wanted(config, imx8mq, config) == config && omitCount == OmitFor(omitFrames, config.width, config.height)
    }

    /** Every live buffer object sits in exactly one table entry. */
    ghost predicate TableOk()
      reads this, buffers
    {
      && buffers.Length == MAX_STREAM_BUFFERS && DistinctIds(buffers[..]) && live == Ids(buffers[..])
      && forall i | 0 <= i < buffers.Length :: buffers[i].Some? ==> buffers[i].value.id < nextId && buffers[i].value.size > 0
    }

    ghost predicate Empty()
      reads this, buffers
    {
      forall i | 0 <= i < buffers.Length :: buffers[i].None?
    }

    /** The table holds exactly the buffers of the current start. */
    ghost predicate Holds()
      reads this, buffers
    {
      forall i | 0 <= i < buffers.Length :: buffers[i].Some? <==> i < loaded
    }

    ghost function Ctl(): Control
      reads this
    {
      Control(mbStart, frames, omit, omitCount, recoverCount, isOpen)
    }

    /** After openDev; the resolution a stream starts with is none of those in the table. */
    constructor (imx8mq: bool, isp: bool, omitFrames: seq<OmitFrame>, config: Config)
      requires Wanted(config, imx8mq, config) == config && OmitFor(omitFrames, config.width, config.height) == 0
      ensures Valid() && fresh(buffers) && Ctl() == OPENED && live == {}
    {
      this.imx8mq, this.isp, this.omitFrames, this.config := imx8mq, isp, omitFrames, config;
      buffers := new Option<Slot>[MAX_STREAM_BUFFERS](_ => None);
      captureIntent, numBuffers, mbStart, frames, omit, omitCount, recoverCount := 0, 0, false, 0, 0, 0, 0;
      nextId, live, loaded, isOpen := 0, {}, 0, true;
    }

    /** Unmap and delete every buffer object: the loop of onDeviceStopLocked and of the err label. */
    method FreeBuffers()
      requires TableOk()
      modifies buffers, this`live
      ensures TableOk() && Empty() && live == {}
    {
      var i := 0;
      while i < MAX_STREAM_BUFFERS
        invariant 0 <= i <= MAX_STREAM_BUFFERS
        invariant DistinctIds(buffers[..]) && live == Ids(buffers[..])
        invariant forall j | 0 <= j < i :: buffers[j].None?
        invariant forall j | i <= j < buffers.Length :: buffers[j] == old(buffers[j])
      {
        if buffers[i].Some? && buffers[i].value.size > 0 {
          ClearSlot(buffers[..], i);
          live := live - {buffers[i].value.id};
          ghost var t := buffers[..];
          buffers[i] := None;
          assert buffers[..] == t[i := None];
        }
        i := i + 1;
      }
    }

    /** onDeviceStopLocked: the buffer objects go before STREAMOFF is tried. */
    method OnDeviceStop(d: Driver) returns (ok: bool)
      requires Valid()
      modifies buffers, this`live, this`mbStart
      ensures Valid() && Empty() && ok == d.streamOff
      ensures mbStart == (if ok then false else old(mbStart))
    {
      FreeBuffers();
      ok := d.streamOff;
      if ok {
        mbStart := false;
      }
    }

    /** The registration loop: buffers are created until one of them fails. */
    method RegisterBuffers(d: Driver) returns (ok: bool)
      requires Valid() && Empty() && Sane(d)
      modifies buffers, this`live, this`nextId
      ensures ok <==> AllMapped(d, numBuffers)
      ensures TableOk()
      ensures ok ==> forall i | 0 <= i < buffers.Length :: buffers[i].Some? <==> i < numBuffers
      ensures ok ==> forall i | 0 <= i < numBuffers :: buffers[i].value.size == ReplyFor(d, i).size
    {
      var i := 0;
      while i < numBuffers && i < MAX_STREAM_BUFFERS
        invariant 0 <= i <= numBuffers
        invariant DistinctIds(buffers[..]) && live == Ids(buffers[..])
        invariant forall j | 0 <= j < buffers.Length :: buffers[j].Some? <==> j < i
        invariant forall j | 0 <= j < i ::
                    buffers[j].value.id < nextId && ReplyFor(d, j).Mapped? && buffers[j].value.size == ReplyFor(d, j).size > 0
      {
        var reply := ReplyFor(d, i);
        if reply.QueryFails? {
          return false;
        }
        ghost var t := buffers[..];
        assert nextId !in Ids(t);
        FillSlot(t, i, Slot(nextId, reply.size));
        buffers[i] := Some(Slot(nextId, reply.size));
        assert buffers[..] == t[i := Some(Slot(nextId, reply.size))];
        live, nextId := live + {nextId}, nextId + 1;
        if !reply.Mapped? {
          return false;
        }
        i := i + 1;
      }
      ok := true;
    }

    /** onDeviceStartLocked: all buffers registered and queued and the stream on, or nothing left behind. */
    method OnDeviceStart(d: Driver) returns (ok: bool)
      requires Valid() && !mbStart && isOpen && Sane(d)
      modifies buffers, this`live, this`nextId, this`omit, this`mbStart, this`loaded
      ensures Valid() && ok == StartSucceeds(d, numBuffers) == mbStart
      ensures ok ==> Holds() && loaded == numBuffers && omit == omitCount
      ensures !ok ==> Empty() && omit == old(omit)
    {
      if !d.requestBuffers {
        return false;
      }
      ok := RegisterBuffers(d);
      if ok {
        ok := (d.queueFailsAt.Some? ==> d.queueFailsAt.value >= numBuffers) && d.streamOn;
      }
      if ok {
        omit, mbStart, loaded := omitCount, true, numBuffers;
      } else {
        FreeBuffers();
      }
    }

    /** postConfigureLocked. */
    method PostConfigure(want: Config)
      modifies this`config, this`frames, this`omitCount
      ensures config == want.(scene := old(config).scene) && frames == 0
      ensures omitCount == OmitFor(omitFrames, want.width, want.height)
    {
      config := want.(scene := config.scene);
      frames, omitCount := 0, 0;
      var i := 0;
      while i < |omitFrames|
        invariant 0 <= i <= |omitFrames| && omitCount == 0
        invariant OmitFor(omitFrames, want.width, want.height) == OmitFor(omitFrames[i..], want.width, want.height)
        modifies this`omitCount
      {
        if config.width == omitFrames[i].width && config.height == omitFrames[i].height {
          omitCount := omitFrames[i].num;
          return;
        }
        i := i + 1;
      }
    }

    /** A running device is stopped, and closed and opened again if need be. */
    method StopAndReopen(reopen: bool, d: Driver) returns (ok: bool)
      requires Valid()
      modifies buffers, this`live, this`mbStart, this`isOpen
      ensures Valid() && Empty()
      ensures ok <==> (old(mbStart) ==> d.streamOff && (reopen ==> d.reopens))
      ensures mbStart <==> old(mbStart) && !d.streamOff
      ensures isOpen == if mbStart then old(isOpen) else OpenedAfter(old(Ctl()), d, reopen)
    {
      ok := true;
      if mbStart {
        ok := OnDeviceStop(d);
        if ok && reopen {
          isOpen := d.reopens;
          ok := isOpen;
        }
      }
    }

    /** From the accepted format on; the scene mode is saved only if the device starts. */
    method StartAs(want: Config, d: Driver) returns (ok: bool)
      requires Valid() && !mbStart && isOpen && Sane(d) && Wanted(want, imx8mq, want) == want
      modifies this`config, this`mbStart, this`frames, this`omit, this`omitCount, this`nextId, this`live, this`loaded, buffers
      ensures Valid() && ok == mbStart == StartSucceeds(d, numBuffers)
      ensures frames == 0 && omitCount == OmitFor(omitFrames, want.width, want.height)
      ensures omit == if ok then omitCount else old(omit)
      ensures config == if ok then want else want.(scene := old(config).scene)
      ensures (ok ==> Holds() && loaded == numBuffers) && (!ok ==> Empty())
    {
      PostConfigure(want);
      ok := OnDeviceStart(d);
      if ok {
        config := config.(scene := want.scene);
      }
    }

    /** The part of ConfigAndStart under mV4l2Lock. */
    method Restart(want: Config, intent: nat, reopen: bool, d: Driver) returns (ok: bool)
      requires Valid() && Sane(d) && Wanted(want, imx8mq, want) == want
      modifies this`config, this`captureIntent, this`mbStart, this`isOpen, this`frames, this`omit, this`omitCount,
               this`nextId, this`live, this`loaded, buffers
      ensures Valid() && captureIntent == intent
      ensures ok == ReconfigureSucceeds(old(Ctl()), d, reopen, numBuffers)
      ensures Ctl() == Reconfigured(old(Ctl()), d, reopen, numBuffers, OmitFor(omitFrames, want.width, want.height))
      ensures config == ConfigAfter(old(Ctl()), old(config), want, d, reopen, numBuffers)
      ensures (ok ==> Holds() && loaded == numBuffers) && (!ok ==> Empty() && live == {})
    {
      captureIntent := intent;
      ok := StopAndReopen(reopen, d);
      if !ok || !isOpen || !d.configures {
        return false;
      }
      ok := StartAs(want, d);
    }

    method ConfigAndStart(req: Config, intent: nat, recover: bool, d: Driver) returns (ok: bool)
      requires Valid() && Sane(d)
      modifies this`config, this`captureIntent, this`mbStart, this`isOpen, this`frames, this`omit, this`omitCount,
               this`nextId, this`live, this`loaded, buffers
      ensures Valid()
      ensures var want := Wanted(old(config), imx8mq, req);
              (ok, Setup(Ctl(), config)) ==
                Configured(Setup(old(Ctl()), old(config)), imx8mq, isp, req, recover, d, numBuffers,
                           OmitFor(omitFrames, want.width, want.height))
      ensures ok ==> Serves(config, imx8mq, req)
      ensures ok && !mbStart <==> Misled(Setup(old(Ctl()), old(config)), imx8mq, req) && !recover
      ensures if Wanted(old(config), imx8mq, req) == old(config) && !recover then
                loaded == old(loaded) && live == old(live) && buffers[..] == old(buffers[..]) && captureIntent == old(captureIntent)
              else
                captureIntent == intent && (ok ==> Holds() && loaded == numBuffers) && (!ok ==> Empty() && live == {})
    {
      var want := Wanted(config, imx8mq, req);
      SuccessServes(Setup(Ctl(), config), imx8mq, isp, req, recover, d, numBuffers,
                    OmitFor(omitFrames, want.width, want.height));
      OkOnStoppedIff(Setup(Ctl(), config), imx8mq, isp, req, recover, d, numBuffers,
                     OmitFor(omitFrames, want.width, want.height));
      if want == config && !recover {
        return true;
      }
      ok := Restart(want, intent, recover || isp, d);
    }

    /** Recovery asks for the current configuration again. */
    method Recover(d: Driver) returns (ok: bool)
      requires Valid() && Sane(d)
      modifies this`config, this`captureIntent, this`mbStart, this`isOpen, this`frames, this`omit, this`omitCount,
               this`nextId, this`live, this`loaded, buffers
      ensures Valid() && config == old(config) && omitCount == old(omitCount)
      ensures ok == ReconfigureSucceeds(old(Ctl()), d, true, numBuffers)
      ensures Ctl() == Reconfigured(old(Ctl()), d, true, numBuffers, omitCount)
      ensures ok ==> Holds()
    {
      ok := ConfigAndStart(config, captureIntent, true, d);
    }

    /** One pass through capture_data. */
    method CaptureData(e: Event) returns (verdict: Verdict, buffer: Option<Slot>)
      requires Valid() && isOpen
      requires (e.Timeout? ==> Sane(e.driver)) && (e.Frame? ==> e.index < MAX_STREAM_BUFFERS)
      modifies this`config, this`captureIntent, this`mbStart, this`isOpen, this`frames, this`omit, this`omitCount,
               this`recoverCount, this`nextId, this`live, this`loaded, buffers
      ensures Valid() && config == old(config) && omitCount == old(omitCount)
      ensures var p := Pass(old(Ctl()), e, numBuffers); verdict == p.verdict && Ctl() == p.control
      ensures buffer == if verdict.Surfaced? && verdict.index < buffers.Length then buffers[verdict.index] else None
      ensures old(Holds()) && verdict != NoBuffer ==> Holds()
    {
      verdict, buffer := NoBuffer, None;
      match e {
        case Timeout(d) =>
          recoverCount := recoverCount + 1;
          if recoverCount <= MAX_RECOVER_COUNT {
            var ok := Recover(d);
            verdict := if ok then Waiting else NoBuffer;
          }
        case DequeueFails =>
        case Frame(index, requeued) =>
          if mbStart {
            frames := frames + 1;
            if frames == 1 {
              recoverCount := 0;
            }
            if omit == 0 {
              verdict, buffer := Surfaced(index), buffers[index];
            } else if requeued {
              omit := omit - 1;
              verdict := Waiting;
            }
          }
      }
    }

    /** onFrameAcquire; Waiting when the events run out before the call returns. */
    method OnFrameAcquire(events: seq<Event>) returns (verdict: Verdict, buffer: Option<Slot>)
      requires Valid()
      requires forall e | e in events :: (e.Timeout? ==> Sane(e.driver)) && (e.Frame? ==> e.index < MAX_STREAM_BUFFERS)
      modifies this`config, this`captureIntent, this`mbStart, this`isOpen, this`frames, this`omit, this`omitCount,
               this`recoverCount, this`nextId, this`live, this`loaded, buffers
      ensures Valid() && config == old(config)
      ensures var a := Acquire(old(Ctl()), events, numBuffers); verdict == a.verdict && Ctl() == a.control
      ensures buffer == if verdict.Surfaced? && verdict.index < buffers.Length then buffers[verdict.index] else None
      ensures old(Holds()) && verdict.Surfaced? && verdict.index < loaded ==> buffer.Some?
    {
      if !isOpen {
        return NoBuffer, None;
      }
      ghost var a := Acquire(Ctl(), events, numBuffers);
      var i := 0;
      verdict, buffer := Waiting, None;
      while i < |events|
        invariant 0 <= i <= |events| && verdict == Waiting && buffer == None && isOpen
        invariant Valid() && config == old(config) && omitCount == old(omitCount)
        invariant old(Holds()) ==> Holds()
        invariant Acquire(Ctl(), events[i..], numBuffers).verdict == a.verdict
        invariant Acquire(Ctl(), events[i..], numBuffers).control == a.control
      {
        assert events[i..][0] == events[i] && events[i..][1..] == events[i + 1..];
        verdict, buffer := CaptureData(events[i]);
        if verdict != Waiting {
          return;
        }
        i := i + 1;
      }
    }
  }

  // ---------------------------------------------------------------- DMAStream

  /** The buffer life cycle of DMAStream, whose buffers outlive a stop until freeBuffersLocked. */
  class DmaBuffers {
    const buffers: array<Option<Slot>>
    var numBuffers: nat
    var allocatedBuffers: nat
    var registered: bool
    var nextId: nat
    ghost var live: set<nat>

    /** The buffers alive are exactly those of the first allocatedBuffers entries. */
    ghost predicate Balanced()
      reads this, buffers
    {
      && buffers.Length == MAX_STREAM_BUFFERS && allocatedBuffers <= MAX_STREAM_BUFFERS
      && (!registered ==> allocatedBuffers == 0)
      && DistinctIds(buffers[..]) && live == Ids(buffers[..])
      && (forall id | id in live :: id < nextId)
      && forall i | 0 <= i < buffers.Length :: buffers[i].Some? <==> i < allocatedBuffers
    }

    constructor ()
      ensures Balanced() && live == {} && fresh(buffers)
    {
      buffers := new Option<Slot>[MAX_STREAM_BUFFERS](_ => None);
      numBuffers, allocatedBuffers, registered, nextId, live := 0, 0, false, 0, {};
    }

    /** May be called at any time, so also between an allocation and the free that undoes it. */
    method SetBufferNumber(num: nat)
      requires Balanced()
      modifies this`numBuffers
      ensures Balanced() && numBuffers == num
    {
      numBuffers := num;
    }

    /**
     allocateBuffersLocked for a non-empty resolution; AllocPhyBuffer fails for entry failsAt.
     The inner declaration of ret hides the outer one, so 0 is returned in every case.
     */
    method Allocate(size: nat, failsAt: Option<nat>) returns (ret: int)
      requires Balanced() && numBuffers <= MAX_STREAM_BUFFERS
      modifies buffers, this`live, this`nextId, this`registered, this`allocatedBuffers
      ensures ret == 0
      ensures old(registered) ==> Balanced() && registered && allocatedBuffers == old(allocatedBuffers) && live == old(live)
      ensures !old(registered) ==>
                var fails := failsAt.Some? && failsAt.value < numBuffers;
                && (registered <==> !fails) && (Balanced() <==> !fails)
                && (!fails ==> allocatedBuffers == numBuffers)
                && (fails ==> allocatedBuffers == 0 && live == Ids(buffers[..])
                              && forall i | 0 <= i < buffers.Length :: buffers[i].Some? <==> i <= failsAt.value)
    {
      ret := 0;
      if registered {
        return;
      }
      var i := 0;
      while i < numBuffers
        invariant 0 <= i <= numBuffers
        invariant failsAt.Some? ==> i <= failsAt.value || failsAt.value >= numBuffers
        invariant DistinctIds(buffers[..]) && live == Ids(buffers[..])
        invariant forall id | id in live :: id < nextId
        invariant forall j | 0 <= j < buffers.Length :: buffers[j].Some? <==> j < i
        modifies buffers, this`live, this`nextId
      {
        ghost var t := buffers[..];
        FillSlot(t, i, Slot(nextId, size));
        buffers[i] := Some(Slot(nextId, size));
        assert buffers[..] == t[i := Some(Slot(nextId, size))];
        live, nextId := live + {nextId}, nextId + 1;
        if failsAt == Some(i) {
          // the clean-up loop runs up to allocatedBuffers, which is still 0
          assert buffers[0].Some?;
          return;
        }
        i := i + 1;
      }
      registered, allocatedBuffers := true, numBuffers;
    }

    /** freeBuffersLocked gives back every buffer of the last allocation, whatever numBuffers says by then. */
    method Free()
      requires Balanced()
      modifies buffers, this`live, this`registered, this`allocatedBuffers
      ensures Balanced() && live == {} && !registered
    {
      if !registered {
        assert forall i | 0 <= i < buffers.Length :: buffers[i].None?;
        return;
      }
      var i := 0;
      while i < allocatedBuffers
        invariant 0 <= i <= allocatedBuffers
        invariant DistinctIds(buffers[..]) && live == Ids(buffers[..])
        invariant forall id | id in live :: id < nextId
        invariant forall j | 0 <= j < buffers.Length :: buffers[j].Some? <==> i <= j < allocatedBuffers
        modifies buffers, this`live
      {
        ghost var t := buffers[..];
        ClearSlot(t, i);
        live := live - {buffers[i].value.id};
        buffers[i] := None;
        assert buffers[..] == t[i := None];
        i := i + 1;
      }
      registered, allocatedBuffers := false, 0;
    }
  }
}
