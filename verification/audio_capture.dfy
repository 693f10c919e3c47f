/**
 The capture path of tinyalsa_hal.cpp for one input stream, counted in frames: get_next_buffer and
 release_buffer over PCM periods, read_frames, process_frames and the echo reference.

 What the PCM driver, the reference reader and the effects answer is given by scripts.  Everything
 is first said on sequences; the class at the end does it in place, on the buffers of the source.
 */
module AudioCapture {
  import opened Common

  type Frame = int

  type Failure = i: int | i < 0 witness -1

  type Chunk = s: seq<Frame> | s != [] witness [0]

  /** The outcome of reading one period: its frames, or a negative status. */
  datatype Reply = Period(frames: Chunk) | Fails(status: Failure)

  /** The reads still to come, the next one first; after the last one a read fails with EIO. */
  datatype Pcm = Dry | More(reply: Reply, later: Pcm)

  const EIO: int := 5

  predicate GoodPcm(pcm: Pcm, period: nat) {
    pcm.More? ==>
      && (pcm.reply.Period? ==> |pcm.reply.frames| == period)
      && GoodPcm(pcm.later, period)
  }

  /** The stream that the driver has still to deliver. */
  function Flow(pcm: Pcm): seq<Frame> {
    if pcm.Dry? then [] else (if pcm.reply.Period? then pcm.reply.frames else []) + Flow(pcm.later)
  }

  /** The part of it before the first read error. */
  function FlowBeforeError(pcm: Pcm): seq<Frame> {
    if pcm.Dry? || pcm.reply.Fails? then [] else pcm.reply.frames + FlowBeforeError(pcm.later)
  }

  // ---------------------------------------------------------------- get_next_buffer, release_buffer

  /** left is the unread end of read_buf; a period is read only when nothing is left. */
  datatype Source = Source(left: seq<Frame>, pcm: Pcm)

  function Stream(s: Source): seq<Frame> {
    s.left + Flow(s.pcm)
  }

  datatype Grant = Grant(status: int, frames: seq<Frame>, source: Source)

  /** get_next_buffer: at most want frames, and no more than are left of the current period. */
  function GetNext(s: Source, want: nat): (g: Grant)
    ensures |g.frames| <= |g.source.left|
    ensures g.status == 0 && want > 0 ==> 0 < |g.frames| <= want
  {
    if s.left != [] then Grant(0, s.left[..Min(want, |s.left|)], s)
    else match s.pcm
      case Dry => Grant(-EIO, [], s)
      case More(Fails(status), later) => Grant(status, [], Source([], later))
      case More(Period(frames), later) => Grant(0, frames[..Min(want, |frames|)], Source(frames, later))
  }

  /** release_buffer, for no more than was granted. */
  function Release(s: Source, n: nat): Source
    requires n <= |s.left|
  {
    s.(left := s.left[n..])
  }

  /** What a client asks for, and how much of the grant it then releases. */
  datatype Ask = Ask(want: nat, release: nat)

  /** The frames released by a client that releases no more than it was granted. */
  function Serve(s: Source, asks: seq<Ask>): (seq<Frame>, Source)
    decreases |asks|
  {
    if asks == [] then ([], s)
    else
      var g := GetNext(s, asks[0].want);
      var n := Min(asks[0].release, |g.frames|);
      var (rest, t) := Serve(Release(g.source, n), asks[1..]);
      (g.frames[..n] + rest, t)
  }

  lemma Assoc(a: seq<Frame>, b: seq<Frame>, c: seq<Frame>)
    ensures (a + b) + c == a + (b + c)
  {
  }

  /** A grant takes nothing out of the stream; it fails only when an error or the end comes next. */
  lemma GetNextKeepsStream(s: Source, want: nat)
    ensures var g := GetNext(s, want);
            && Stream(g.source) == Stream(s) && |g.frames| <= Min(want, |g.source.left|)
            && g.frames == g.source.left[..|g.frames|]
            && (g.status == 0 ==> g.source.left + FlowBeforeError(g.source.pcm) == s.left + FlowBeforeError(s.pcm))
            && (g.status != 0 ==> g.frames == g.source.left == s.left == FlowBeforeError(s.pcm) == [])
  {
  }

  /** However asks and releases interleave, the released chunks are the stream from its start, in order. */
  lemma {:induction false} ServedInOrder(s: Source, asks: seq<Ask>)
    ensures var (got, t) := Serve(s, asks); got + Stream(t) == Stream(s)
    decreases |asks|
  {
    if asks == [] {
    } else {
      var g := GetNext(s, asks[0].want);
      GetNextKeepsStream(s, asks[0].want);
      var n := Min(asks[0].release, |g.frames|);
      var (rest, t) := Serve(Release(g.source, n), asks[1..]);
      ServedInOrder(Release(g.source, n), asks[1..]);
      ReleaseThen(g.source, n, rest, Stream(t));
      assert g.frames[..n] == g.source.left[..n];
    }
  }

  lemma ReleaseThen(s: Source, n: nat, rest: seq<Frame>, end: seq<Frame>)
    requires n <= |s.left| && rest + end == Stream(Release(s, n))
    ensures s.left[..n] + rest + end == Stream(s)
  {
    Assoc(s.left[..n], rest, end);
    Assoc(s.left[..n], s.left[n..], Flow(s.pcm));
    assert s.left == s.left[..n] + s.left[n..];
  }

  // ---------------------------------------------------------------- read_frames

  /** frames were copied to the caller's buffer; they count only if status is 0. */
  datatype Drawn = Drawn(status: int, frames: seq<Frame>, source: Source)

  /** A read that began with done frames already copied. */
  function After(done: seq<Frame>, rest: Drawn): Drawn {
    rest.(frames := done + rest.frames)
  }

  /** read_frames without a resampler: one grant after the other, each released whole. */
  function Draw(s: Source, n: nat): Drawn
    decreases n
  {
    if n == 0 then Drawn(0, [], s)
    else
      var g := GetNext(s, n);
      if g.status != 0 then Drawn(g.status, [], g.source)
      else After(g.frames, Draw(Release(g.source, |g.frames|), n - |g.frames|))
  }

  /** A successful read returns exactly the next n frames of the stream, whatever the period size and what was left. */
  lemma {:induction false} DrawIsNextFrames(s: Source, n: nat, period: nat)
    requires GoodPcm(s.pcm, period)
    ensures var d := Draw(s, n);
            && GoodPcm(d.source.pcm, period) && d.status <= 0
            && d.frames + Stream(d.source) == Stream(s)
            && (d.status == 0 ==> |d.frames| == n)
            && (d.status != 0 ==> d.source.left == [] && |d.frames| < n)
    decreases n
  {
    if n == 0 {
    } else {
      var g := GetNext(s, n);
      GetNextKeepsStream(s, n);
      if g.status == 0 {
        var t := Release(g.source, |g.frames|);
        DrawIsNextFrames(t, n - |g.frames|, period);
        var rest := Draw(t, n - |g.frames|);
        ReleaseThen(g.source, |g.frames|, rest.frames, Stream(rest.source));
      }
    }
  }

  /** What stays unread never exceeds a period. */
  lemma {:induction false} DrawWithin(s: Source, n: nat, period: nat)
    requires GoodPcm(s.pcm, period) && |s.left| <= period
    ensures |Draw(s, n).source.left| <= period
    decreases n
  {
    if n > 0 && GetNext(s, n).status == 0 {
      var g := GetNext(s, n);
      DrawWithin(Release(g.source, |g.frames|), n - |g.frames|, period);
    }
  }

  /**
   It fails exactly when an error comes before n frames do, and then everything up to the error has
   been taken from the stream and is dropped by the caller.
   */
  lemma {:induction false} DrawFailsIff(s: Source, n: nat, period: nat)
    requires GoodPcm(s.pcm, period)
    ensures Draw(s, n).status == 0 <==> n <= |s.left + FlowBeforeError(s.pcm)|
    ensures Draw(s, n).status != 0 ==> Draw(s, n).frames == s.left + FlowBeforeError(s.pcm)
    decreases n
  {
    if n == 0 {
    } else {
      var g := GetNext(s, n);
      GetNextKeepsStream(s, n);
      if g.status == 0 {
        var t := Release(g.source, |g.frames|);
        DrawFailsIff(t, n - |g.frames|, period);
        Assoc(g.frames, t.left, FlowBeforeError(t.pcm));
        assert g.frames + t.left == g.source.left;
      }
    }
  }

  // ---------------------------------------------------------------- process_frames

  /** What one effect writes into in_buf.frameCount (capped at what it was given) and out_buf.frameCount. */
  datatype EffectReply = EffectReply(consumes: nat, produces: nat)

  /** The effects all work on one in_buf: each is given what the one before it consumed. */
  function Consumed(effects: seq<EffectReply>, given: nat): nat {
    if effects == [] then given else Consumed(effects[1..], Min(effects[0].consumes, given))
  }

  function Produced(effects: seq<EffectReply>, room: nat): nat {
    if effects == [] then room else effects[|effects| - 1].produces
  }

  lemma {:induction false} ConsumesWhatIsThere(effects: seq<EffectReply>, given: nat)
    ensures Consumed(effects, given) <= given
    ensures effects != [] ==> Consumed(effects, given) <= effects[0].consumes
    decreases |effects|
  {
    if effects == [] {
    } else {
      ConsumesWhatIsThere(effects[1..], Min(effects[0].consumes, given));
    }
  }

  /** The first of several effects is shown frames again exactly when a later one consumes fewer than it did. */
  lemma FirstEffectSeesAgainIff(effects: seq<EffectReply>, given: nat)
    requires effects != []
    ensures var first := Min(effects[0].consumes, given);
            Consumed(effects, given) < first <==> exists k :: 1 <= k < |effects| && effects[k].consumes < first
    decreases |effects|
  {
    var first := Min(effects[0].consumes, given);
    LeastConsumed(effects[1..], first);
    if Consumed(effects, given) < first {
      var k :| 0 <= k < |effects[1..]| && effects[1..][k].consumes < first;
      assert effects[k + 1].consumes < first;
    }
    if k :| 1 <= k < |effects| && effects[k].consumes < first {
      assert effects[1..][k - 1].consumes < first;
    }
  }

  lemma {:induction false} LeastConsumed(effects: seq<EffectReply>, given: nat)
    ensures Consumed(effects, given) < given <==> exists k :: 0 <= k < |effects| && effects[k].consumes < given
    decreases |effects|
  {
    if effects == [] {
    } else {
      var next := Min(effects[0].consumes, given);
      LeastConsumed(effects[1..], next);
      ConsumesWhatIsThere(effects[1..], next);
      if next == given {
        if k :| 0 <= k < |effects[1..]| && effects[1..][k].consumes < given {
          assert effects[k + 1].consumes < given;
        }
        if k :| 0 <= k < |effects| && effects[k].consumes < given {
          assert effects[1..][k - 1].consumes < given;
        }
      } else {
        assert effects[0].consumes < given;
      }
    }
  }

  datatype Ret = Unfinished | Returns(frames: nat) | Error(status: int)

  /** taken: frames the effects consumed, in order; lost: frames read by a read_frames that then failed. */
  datatype Processed = Processed(ret: Ret, source: Source, buf: seq<Frame>, taken: seq<Frame>, lost: seq<Frame>)

  function Reload(s: Source, buf: seq<Frame>, frames: nat): Drawn {
    if |buf| < frames then Draw(s, frames - |buf|) else Drawn(0, [], s)
  }

  /** frames_wr after one round that produced out frames; an effect that overdoes it ends the call. */
  function Written(done: nat, out: nat, frames: nat): nat {
    if done + out <= frames then done + out else frames
  }

  /** process_frames with done frames written so far; each round is the effects' answers in one turn of the loop. */
  function Process(s: Source, buf: seq<Frame>, frames: nat, done: nat, rounds: seq<seq<EffectReply>>): Processed
    decreases |rounds|
  {
    if done >= frames then Processed(Returns(done), s, buf, [], [])
    else if rounds == [] then Processed(Unfinished, s, buf, [], [])
    else
      var d := Reload(s, buf, frames);
      if d.status < 0 then Processed(Error(d.status), d.source, buf, [], d.frames)
      else
        var full := buf + d.frames;
        ConsumesWhatIsThere(rounds[0], |full|);
        var c := Consumed(rounds[0], |full|);
        var p := Process(d.source, full[c..], frames, Written(done, Produced(rounds[0], frames - done), frames), rounds[1..]);
        p.(taken := full[..c] + p.taken)
  }

  lemma ReloadIsNextFrames(s: Source, buf: seq<Frame>, frames: nat, period: nat)
    requires GoodPcm(s.pcm, period)
    ensures var d := Reload(s, buf, frames);
            && GoodPcm(d.source.pcm, period) && d.status <= 0
            && buf + d.frames + Stream(d.source) == buf + Stream(s)
            && (d.status == 0 ==> |buf + d.frames| == if |buf| < frames then frames else |buf|)
            && (d.status != 0 ==> d.source.left == [])
  {
    if |buf| < frames {
      var d := Draw(s, frames - |buf|);
      DrawIsNextFrames(s, frames - |buf|, period);
      assert buf + d.frames + Stream(d.source) == buf + (d.frames + Stream(d.source));
    }
  }

  /**
   Frames taken by the effects, then those still in proc_buf_in, then those lost to a read error,
   then the rest of the stream: together what was there before, in order, nothing lost or repeated.
   */
  lemma {:induction false} ProcessConserves(s: Source, buf: seq<Frame>, frames: nat, done: nat,
                                            rounds: seq<seq<EffectReply>>, period: nat)
    requires GoodPcm(s.pcm, period) && done <= frames
    ensures var p := Process(s, buf, frames, done, rounds);
            && p.taken + p.buf + p.lost + Stream(p.source) == buf + Stream(s)
            && GoodPcm(p.source.pcm, period)
            && (!p.ret.Error? ==> p.lost == [])
    decreases |rounds|
  {
    if done >= frames || rounds == [] {
    } else {
      var d := Reload(s, buf, frames);
      ReloadIsNextFrames(s, buf, frames, period);
      if d.status == 0 {
        var full := buf + d.frames;
        ConsumesWhatIsThere(rounds[0], |full|);
        var c := Consumed(rounds[0], |full|);
        var w := Written(done, Produced(rounds[0], frames - done), frames);
        ProcessConserves(d.source, full[c..], frames, w, rounds[1..], period);
        var rest := Process(d.source, full[c..], frames, w, rounds[1..]);
        RoundConserves(full, c, Stream(d.source), rest);
      }
    }
  }

  lemma RoundConserves(full: seq<Frame>, c: nat, stream: seq<Frame>, rest: Processed)
    requires c <= |full| && rest.taken + rest.buf + rest.lost + Stream(rest.source) == full[c..] + stream
    ensures (full[..c] + rest.taken) + rest.buf + rest.lost + Stream(rest.source) == full + stream
  {
    Carry(full[..c], full[c..], rest.taken, rest.buf, rest.lost, Stream(rest.source), stream);
    assert full[..c] + full[c..] == full;
  }

  /**
   A call that returns has written exactly the frames asked for, and proc_buf_in never holds more than was ever
   asked for.
   */
  lemma {:induction false} ProcessReturnsAll(s: Source, buf: seq<Frame>, frames: nat, done: nat,
                                             rounds: seq<seq<EffectReply>>, period: nat)
    requires GoodPcm(s.pcm, period) && done <= frames
    ensures var p := Process(s, buf, frames, done, rounds);
            && (p.ret.Returns? ==> p.ret.frames == frames)
            && (p.ret.Error? ==> p.source.left == [] && p.ret.status < 0)
            && |p.buf| <= (if |buf| < frames then frames else |buf|)
    decreases |rounds|
  {
    if done >= frames || rounds == [] {
    } else {
      var d := Reload(s, buf, frames);
      ReloadIsNextFrames(s, buf, frames, period);
      if d.status == 0 {
        var full := buf + d.frames;
        ConsumesWhatIsThere(rounds[0], |full|);
        ProcessReturnsAll(d.source, full[Consumed(rounds[0], |full|)..], frames,
                          Written(done, Produced(rounds[0], frames - done), frames), rounds[1..], period);
      }
    }
  }

  lemma Reassociate(a: seq<Frame>, b: seq<Frame>, c: seq<Frame>, d: seq<Frame>, e: seq<Frame>)
    ensures (a + b) + c + d + e == a + (b + c + d + e)
  {
  }

  lemma Carry(head: seq<Frame>, tail: seq<Frame>, taken: seq<Frame>, buf: seq<Frame>, lost: seq<Frame>,
              x: seq<Frame>, y: seq<Frame>)
    requires taken + buf + lost + x == tail + y
    ensures (head + taken) + buf + lost + x == (head + tail) + y
  {
    Reassociate(head, taken, buf, lost, x);
    assert head + (tail + y) == (head + tail) + y;
  }

  /** Rounds that always produce something finish the call within as many turns as frames are wanted. */
  lemma {:induction false} ProcessFinishes(s: Source, buf: seq<Frame>, frames: nat, done: nat, rounds: seq<seq<EffectReply>>)
    requires |rounds| >= frames - done
    requires forall r: seq<EffectReply> | r in rounds :: r != [] && r[|r| - 1].produces > 0
    ensures Process(s, buf, frames, done, rounds).ret != Unfinished
    decreases |rounds|
  {
    if done >= frames {
    } else {
      var d := Reload(s, buf, frames);
      if d.status >= 0 {
        var full := buf + d.frames;
        assert rounds[0] in rounds;
        ConsumesWhatIsThere(rounds[0], |full|);
        ProcessFinishes(d.source, full[Consumed(rounds[0], |full|)..], frames,
                        Written(done, Produced(rounds[0], frames - done), frames), rounds[1..]);
      }
    }
  }

  /** What the last effects of the rounds produce together. */
  function Total(rounds: seq<seq<EffectReply>>): nat {
    if rounds == [] then 0
    else (if rounds[0] == [] then 0 else rounds[0][|rounds[0]| - 1].produces) + Total(rounds[1..])
  }

  /**
   Unless a read fails, the call goes round until the effects have produced all frames asked for, and no
   longer; a round without any effect, which leaves the room offered as it is, ends it as well.
   */
  lemma {:induction false} ReturnsWhenProduced(s: Source, buf: seq<Frame>, frames: nat, done: nat,
                                               rounds: seq<seq<EffectReply>>)
    requires done < frames
    ensures var ret := Process(s, buf, frames, done, rounds).ret;
            !ret.Error? ==> (ret == Unfinished <==> [] !in rounds && done + Total(rounds) < frames)
    decreases |rounds|
  {
    if rounds == [] {
    } else {
      var d := Reload(s, buf, frames);
      var rest := rounds[1..];
      assert [] in rounds <==> rounds[0] == [] || [] in rest by {
        assert rounds == [rounds[0]] + rest;
      }
      if d.status >= 0 {
        var full := buf + d.frames;
        ConsumesWhatIsThere(rounds[0], |full|);
        var w := Written(done, Produced(rounds[0], frames - done), frames);
        if w < frames {
          ReturnsWhenProduced(d.source, full[Consumed(rounds[0], |full|)..], frames, w, rest);
        }
      }
    }
  }

  /** One process_frames call. */
  datatype Call = Call(frames: nat, rounds: seq<seq<EffectReply>>)

  /** All frames taken by the effects over consecutive calls, none of which fails. */
  function Session(s: Source, buf: seq<Frame>, calls: seq<Call>): (seq<Frame>, seq<Frame>, Source)
    decreases |calls|
  {
    if calls == [] then ([], buf, s)
    else
      var p := Process(s, buf, calls[0].frames, 0, calls[0].rounds);
      var (rest, b, t) := Session(p.source, p.buf, calls[1..]);
      (p.taken + rest, b, t)
  }

  ghost predicate AllSucceed(s: Source, buf: seq<Frame>, calls: seq<Call>)
    decreases |calls|
  {
    calls == [] ||
    var p := Process(s, buf, calls[0].frames, 0, calls[0].rounds);
    !p.ret.Error? && AllSucceed(p.source, p.buf, calls[1..])
  }

  /** Over any sequence of calls without a read error, the effects are fed the captured stream itself. */
  lemma {:induction false} EffectsSeeTheStream(s: Source, buf: seq<Frame>, calls: seq<Call>, period: nat)
    requires GoodPcm(s.pcm, period) && AllSucceed(s, buf, calls)
    ensures var (taken, b, t) := Session(s, buf, calls); taken + b + Stream(t) == buf + Stream(s)
    decreases |calls|
  {
    if calls == [] {
    } else {
      var p := Process(s, buf, calls[0].frames, 0, calls[0].rounds);
      ProcessConserves(s, buf, calls[0].frames, 0, calls[0].rounds, period);
      EffectsSeeTheStream(p.source, p.buf, calls[1..], period);
      var (rest, b, t) := Session(p.source, p.buf, calls[1..]);
      CallsConserve(p.taken, rest, b, Stream(t), p.buf, Stream(p.source));
    }
  }

  lemma CallsConserve(taken: seq<Frame>, rest: seq<Frame>, b: seq<Frame>, end: seq<Frame>,
                      buf: seq<Frame>, mid: seq<Frame>)
    requires rest + b + end == buf + mid
    ensures (taken + rest) + b + end == taken + buf + [] + mid
  {
    assert (taken + rest) + b + end == taken + (rest + b + end);
    assert taken + (buf + mid) == taken + buf + [] + mid;
  }

  // ---------------------------------------------------------------- echo reference

  /** read of the echo reference: fails, or delivers at most count frames. */
  datatype RefReply = RefFails | RefReads(count: nat)

  /** frames held in ref_buf, and the reference stream not read yet. */
  datatype Echo = Echo(held: seq<Frame>, stream: seq<Frame>)

  function UpdateEcho(e: Echo, frames: nat, reply: RefReply): Echo {
    if |e.held| >= frames || reply.RefFails? then e
    else
      var k := Min(Min(reply.count, frames - |e.held|), |e.stream|);
      Echo(e.held + e.stream[..k], e.stream[k..])
  }

  /**
   A read that works tops ref_buf up behind what it holds: until it has the frames asked for, or all that was
   delivered, or the reference has no more.
   */
  lemma EchoTopsUp(e: Echo, frames: nat, count: nat)
    ensures var u := UpdateEcho(e, frames, RefReads(count));
            && u.held + u.stream == e.held + e.stream && e.held <= u.held
            && (|u.held| >= frames || |u.held| == |e.held| + count || u.stream == [])
            && (|e.held| <= frames ==> |u.held| <= frames) && |u.held| <= |e.held| + count
    ensures UpdateEcho(e, frames, RefFails) == e
  {
    var u := UpdateEcho(e, frames, RefReads(count));
    if u != e {
      var k := Min(Min(count, frames - |e.held|), |e.stream|);
      assert e.stream == e.stream[..k] + e.stream[k..];
    }
  }

  /** None: an effect without process_reverse, which is skipped. */
  function ReverseConsumed(effects: seq<Option<nat>>, given: nat): nat {
    if effects == [] then given
    else ReverseConsumed(effects[1..], if effects[0].None? then given else Min(effects[0].value, given))
  }

  /** How many frames each effect that has process_reverse is offered. */
  function ReverseOffered(effects: seq<Option<nat>>, given: nat): seq<nat> {
    if effects == [] then []
    else if effects[0].None? then ReverseOffered(effects[1..], given)
    else [given] + ReverseOffered(effects[1..], Min(effects[0].value, given))
  }

  /** What the effects with process_reverse use up together: the least any of them does, if that is less than offered. */
  lemma {:induction false} ReverseConsumesLeast(effects: seq<Option<nat>>, given: nat)
    ensures var c := ReverseConsumed(effects, given);
            && (forall k | 0 <= k < |effects| && effects[k].Some? :: c <= effects[k].value)
            && (c == given || exists k :: 0 <= k < |effects| && effects[k] == Some(c))
    decreases |effects|
  {
    if effects == [] {
    } else {
      var next := if effects[0].None? then given else Min(effects[0].value, given);
      ReverseConsumesLeast(effects[1..], next);
      ReverseConsumesWhatIsThere(effects[1..], next);
      var c := ReverseConsumed(effects, given);
      forall k | 0 <= k < |effects| && effects[k].Some? ensures c <= effects[k].value {
        if k > 0 {
          assert effects[1..][k - 1] == effects[k];
        }
      }
      if c != given {
        if c == next {
          assert effects[0] == Some(c);
        } else {
          var k :| 0 <= k < |effects[1..]| && effects[1..][k] == Some(c);
          assert effects[k + 1] == Some(c);
        }
      }
    }
  }

  lemma {:induction false} ReverseConsumesWhatIsThere(effects: seq<Option<nat>>, given: nat)
    ensures ReverseConsumed(effects, given) <= given
    ensures forall n | n in ReverseOffered(effects, given) :: n <= given
    decreases |effects|
  {
    if effects == [] {
    } else {
      ReverseConsumesWhatIsThere(effects[1..], if effects[0].None? then given else Min(effects[0].value, given));
    }
  }

  /** What push_echo_reference offers to each effect. */
  function PushOffered(e: Echo, frames: nat, reply: RefReply, effects: seq<Option<nat>>): seq<nat> {
    ReverseOffered(effects, Min(frames, |UpdateEcho(e, frames, reply).held|))
  }

  /** push_echo_reference: the frames used up, and what is kept. */
  function PushEcho(e: Echo, frames: nat, reply: RefReply, effects: seq<Option<nat>>): (seq<Frame>, Echo) {
    var u := UpdateEcho(e, frames, reply);
    ReverseConsumesWhatIsThere(effects, Min(frames, |u.held|));
    var c := ReverseConsumed(effects, Min(frames, |u.held|));
    (u.held[..c], u.(held := u.held[c..]))
  }

  /**
   ref_buf holds exactly the reference frames read and not used up, and never more than the most ever asked
   for; no effect is offered more frames than it holds, or more than are being captured.
   */
  lemma EchoConserves(e: Echo, frames: nat, reply: RefReply, effects: seq<Option<nat>>)
    ensures var (used, after) := PushEcho(e, frames, reply, effects);
            && used + after.held + after.stream == e.held + e.stream
            && |used| <= frames
            && |after.held| <= (if |e.held| < frames then frames else |e.held|)
            && forall n | n in PushOffered(e, frames, reply, effects) ::
                 n <= frames && n <= |UpdateEcho(e, frames, reply).held|
  {
    var u := UpdateEcho(e, frames, reply);
    ReverseConsumesWhatIsThere(effects, Min(frames, |u.held|));
    var (used, after) := PushEcho(e, frames, reply, effects);
    assert used + after.held == u.held;
    assert u.held + u.stream == e.held + e.stream by {
      if u != e {
        var k := Min(Min(reply.count, frames - |e.held|), |e.stream|);
        assert e.stream == e.stream[..k] + e.stream[k..];
      }
    }
  }

  datatype Push = Push(frames: nat, reply: RefReply, effects: seq<Option<nat>>)

  function PushAll(e: Echo, pushes: seq<Push>): (seq<Frame>, Echo)
    decreases |pushes|
  {
    if pushes == [] then ([], e)
    else
      var (used, after) := PushEcho(e, pushes[0].frames, pushes[0].reply, pushes[0].effects);
      var (rest, end) := PushAll(after, pushes[1..]);
      (used + rest, end)
  }

  /** Over any run the reference frames used up, then those held, then those unread, are the reference stream. */
  lemma {:induction false} EchoStreamPreserved(e: Echo, pushes: seq<Push>)
    ensures var (used, end) := PushAll(e, pushes); used + end.held + end.stream == e.held + e.stream
    decreases |pushes|
  {
    if pushes == [] {
    } else {
      var (used, after) := PushEcho(e, pushes[0].frames, pushes[0].reply, pushes[0].effects);
      EchoConserves(e, pushes[0].frames, pushes[0].reply, pushes[0].effects);
      EchoStreamPreserved(after, pushes[1..]);
      var (rest, end) := PushAll(after, pushes[1..]);
      Chain(used, rest, end.held, end.stream);
      Assoc(used, after.held, after.stream);
    }
  }

  lemma Chain(a: seq<Frame>, b: seq<Frame>, c: seq<Frame>, d: seq<Frame>)
    ensures (a + b) + c + d == a + (b + c + d)
  {
  }

  // ---------------------------------------------------------------- in place

  /** One turn of the loop in process_frames: what the reference reader and the effects answer. */
  datatype Round = Round(effects: seq<EffectReply>, reference: RefReply, reverse: seq<Option<nat>>)

  function EffectsOf(rounds: seq<Round>): seq<seq<EffectReply>> {
    seq(|rounds|, i requires 0 <= i < |rounds| => rounds[i].effects)
  }

  /** What the rounds of one process_frames call push to the echo reference: as many frames as were captured. */
  function PushesOf(s: Source, buf: seq<Frame>, frames: nat, done: nat, rounds: seq<Round>): seq<Push>
    decreases |rounds|
  {
    if done >= frames || rounds == [] || Reload(s, buf, frames).status < 0 then []
    else
      var d, r := Reload(s, buf, frames), rounds[0];
      var full := buf + d.frames;
      ConsumesWhatIsThere(r.effects, |full|);
      [Push(|full|, r.reference, r.reverse)]
      + PushesOf(d.source, full[Consumed(r.effects, |full|)..], frames,
                 Written(done, Produced(r.effects, frames - done), frames), rounds[1..])
  }

  lemma TotalOfMore(r: seq<EffectReply>, rounds: seq<seq<EffectReply>>)
    ensures Total([r] + rounds) == (if r == [] then 0 else r[|r| - 1].produces) + Total(rounds)
  {
    assert ([r] + rounds)[1..] == rounds;
  }

  lemma TotalOfRounds(r: Round, rest: seq<Round>, k: nat)
    requires 0 < k <= 1 + |rest|
    ensures Total(EffectsOf(([r] + rest)[..k])) ==
              (if r.effects == [] then 0 else r.effects[|r.effects| - 1].produces) + Total(EffectsOf(rest[..k - 1]))
  {
    assert EffectsOf(([r] + rest)[..k]) == [r.effects] + EffectsOf(rest[..k - 1]);
    TotalOfMore(r.effects, EffectsOf(rest[..k - 1]));
  }

  /**
   Each push goes with one round, as long as the frames asked for are not produced, and is for all frames
   held at that time, which are at least those asked for.
   */
  lemma {:induction false} PushesFollowRounds(s: Source, buf: seq<Frame>, frames: nat, done: nat, rounds: seq<Round>,
                                              period: nat)
    requires GoodPcm(s.pcm, period)
    ensures var pushes := PushesOf(s, buf, frames, done, rounds);
            && |pushes| <= |rounds|
            && forall k | 0 <= k < |pushes| ::
                 && pushes[k].frames >= frames
                 && pushes[k].reply == rounds[k].reference && pushes[k].effects == rounds[k].reverse
                 && done + Total(EffectsOf(rounds[..k])) < frames
    decreases |rounds|
  {
    var pushes := PushesOf(s, buf, frames, done, rounds);
    if pushes == [] {
    } else {
      var d, r, rest := Reload(s, buf, frames), rounds[0], rounds[1..];
      ReloadIsNextFrames(s, buf, frames, period);
      var full := buf + d.frames;
      ConsumesWhatIsThere(r.effects, |full|);
      var c, w := Consumed(r.effects, |full|), Written(done, Produced(r.effects, frames - done), frames);
      PushesFollowRounds(d.source, full[c..], frames, w, rest, period);
      var later := PushesOf(d.source, full[c..], frames, w, rest);
      assert pushes == [Push(|full|, r.reference, r.reverse)] + later;
      forall k | 0 <= k < |pushes|
        ensures pushes[k].frames >= frames && pushes[k].reply == rounds[k].reference
        ensures pushes[k].effects == rounds[k].reverse && done + Total(EffectsOf(rounds[..k])) < frames
      {
        if k > 0 {
          assert pushes[k] == later[k - 1] && rounds[k] == rest[k - 1];
          assert rounds == [r] + rest;
          TotalOfRounds(r, rest, k);
        }
      }
    }
  }

  /** The reference after those pushes. */
  function EchoAfter(e: Echo, pushes: seq<Push>): Echo {
    PushAll(e, pushes).1
  }

  lemma PushesOneRound(e: Echo, s: Source, buf: seq<Frame>, frames: nat, done: nat, rounds: seq<Round>)
    requires done < frames && rounds != []
    ensures var d, r := Reload(s, buf, frames), rounds[0];
            var full, pushes := buf + d.frames, PushesOf(s, buf, frames, done, rounds);
            && (d.status < 0 ==> EchoAfter(e, pushes) == e)
            && (d.status >= 0 ==>
                  && Consumed(r.effects, |full|) <= |full|
                  && EchoAfter(e, pushes) ==
                       EchoAfter(PushEcho(e, |full|, r.reference, r.reverse).1,
                                 PushesOf(d.source, full[Consumed(r.effects, |full|)..], frames,
                                          Written(done, Produced(r.effects, frames - done), frames), rounds[1..])))
  {
    var d, r, pushes := Reload(s, buf, frames), rounds[0], PushesOf(s, buf, frames, done, rounds);
    if d.status >= 0 {
      ConsumesWhatIsThere(r.effects, |buf + d.frames|);
      var full := buf + d.frames;
      assert pushes[1..] == PushesOf(d.source, full[Consumed(r.effects, |full|)..], frames,
                                     Written(done, Produced(r.effects, frames - done), frames), rounds[1..]);
    }
  }

  /** The buffers of struct imx_stream_in. */
  class StreamIn {
    const period: nat
    const hasEcho: bool
    var pcm: Pcm
    var reference: seq<Frame>
    var readBuf: array<Frame>
    var readBufSize: nat
    var readBufFrames: nat
    var readStatus: int
    var procBufIn: array<Frame>
    var procBufSize: nat
    var procBufFrames: nat
    var refBuf: array<Frame>
    var refBufSize: nat
    var refFramesIn: nat
    ghost var src: Source          // what read_buf and the driver have still to deliver
    ghost var buf: seq<Frame>      // what proc_buf_in holds
    ghost var echo: Echo           // what ref_buf holds, and the reference stream

    ghost predicate ReadValid()
      reads this, readBuf
    {
      && period > 0 && GoodPcm(pcm, period)
      && readBufFrames <= period && readBufSize <= readBuf.Length
      && (readBufFrames > 0 ==> period <= readBufSize && readStatus == 0)
      && src.pcm == pcm && |src.left| == readBufFrames
      && forall k | 0 <= k < readBufFrames :: src.left[k] == readBuf[period - readBufFrames + k]
    }

    ghost predicate ProcValid()
      reads this, procBufIn
    {
      && |buf| == procBufFrames <= procBufSize <= procBufIn.Length
      && forall k | 0 <= k < procBufFrames :: buf[k] == procBufIn[k]
    }

    ghost predicate RefValid()
      reads this, refBuf
    {
      && |echo.held| == refFramesIn <= refBufSize <= refBuf.Length && echo.stream == reference
      && forall k | 0 <= k < refFramesIn :: echo.held[k] == refBuf[k]
    }

    ghost predicate Valid()
      reads this, readBuf, procBufIn, refBuf
    {
      && ReadValid() && ProcValid() && RefValid()
      && readBuf != procBufIn && readBuf != refBuf && procBufIn != refBuf
    }

    /** After start_input_stream: all buffers count as empty. */
    constructor (period: nat, pcm: Pcm, hasEcho: bool, reference: seq<Frame>)
      requires period > 0 && GoodPcm(pcm, period)
      ensures Valid() && src == Source([], pcm) && buf == [] && echo == Echo([], reference)
      ensures fresh(readBuf) && fresh(procBufIn) && fresh(refBuf) && this.period == period && this.hasEcho == hasEcho
    {
      this.period, this.pcm, this.hasEcho, this.reference := period, pcm, hasEcho, reference;
      readBuf, procBufIn, refBuf := new Frame[0], new Frame[0], new Frame[0];
      readBufSize, readBufFrames, readStatus := 0, 0, 0;
      procBufSize, procBufFrames, refBufSize, refFramesIn := 0, 0, 0, 0;
      src, buf, echo := Source([], pcm), [], Echo([], reference);
    }

    /** Read one period into read_buf. */
    method ReadPeriod()
      requires ReadValid() && readBufFrames == 0
      modifies this`src, this`readBuf, this`readBufSize, this`readBufFrames, this`readStatus, this`pcm, readBuf
      ensures ReadValid() && (readBuf == old(readBuf) || fresh(readBuf))
      ensures readStatus == GetNext(old(src), 0).status && src == GetNext(old(src), 0).source
      ensures readStatus == 0 ==> readBufFrames == period
      ensures readStatus != 0 ==> readBufFrames == 0
    {
      if readBufSize < period {
        readBufSize := period;
        readBuf := new Frame[period];
      }
      match pcm {
        case Dry =>
          readStatus := -EIO;
        case More(Fails(status), later) =>
          readStatus, pcm := status, later;
        case More(Period(frames), later) =>
          forall k | 0 <= k < period {
            readBuf[k] := frames[k];
          }
          readStatus, pcm, readBufFrames := 0, later, period;
          src := Source(frames, later);
          return;
      }
      src := Source([], pcm);
    }

    /** get_next_buffer; the frames granted are readBuf[at..at + count]. */
    method GetNextBuffer(want: nat) returns (status: int, at: nat, count: nat)
      requires ReadValid()
      modifies this`src, this`readBuf, this`readBufSize, this`readBufFrames, this`readStatus, this`pcm, readBuf
      ensures ReadValid() && (readBuf == old(readBuf) || fresh(readBuf))
      ensures status == GetNext(old(src), want).status && src == GetNext(old(src), want).source
      ensures status != 0 ==> count == 0
      ensures status == 0 ==> count == Min(want, |src.left|) && count <= readBufFrames && at + count <= readBuf.Length
      ensures status == 0 ==> at == period - readBufFrames
    {
      if readBufFrames == 0 {
        ReadPeriod();
        if readStatus != 0 {
          return readStatus, 0, 0;
        }
      }
      status, at, count := readStatus, period - readBufFrames, Min(want, readBufFrames);
    }

    /** release_buffer. */
    method ReleaseBuffer(count: nat)
      requires ReadValid() && count <= readBufFrames
      modifies this`readBufFrames, this`src
      ensures ReadValid() && src == Release(old(src), count)
    {
      readBufFrames := readBufFrames - count;
      src := Release(src, count);
    }

    /** The memcpy in read_frames, and the release of what was copied. */
    method CopyGrant(buffer: array<Frame>, at: nat, from: nat, count: nat)
      requires ReadValid() && at + count <= buffer.Length && buffer != readBuf
      requires count <= readBufFrames && from == period - readBufFrames
      modifies this`readBufFrames, this`src, buffer
      ensures ReadValid() && src == Release(old(src), count)
      ensures forall k | 0 <= k < at :: buffer[k] == old(buffer[k])
      ensures forall j | at <= j < at + count :: buffer[j] == old(src).left[j - at]
    {
      forall k | 0 <= k < count {
        buffer[at + k] := readBuf[from + k];
      }
      ReleaseBuffer(count);
    }

    /** A read of the given frames that has put done, of all it will draw, at the place at of the buffer. */
    ghost predicate Reading(buffer: array<Frame>, at: nat, frames: nat, whole: Drawn, done: seq<Frame>)
      reads this, readBuf, buffer
    {
      && ReadValid() && buffer != readBuf && |done| <= frames && at + frames <= buffer.Length
      && (forall j | at <= j < at + |done| :: buffer[j] == done[j - at])
      && whole == After(done, Draw(src, frames - |done|))
    }

    /** What is granted is copied and released. */
    method TakeGrant(buffer: array<Frame>, at: nat, want: nat) returns (status: int, count: nat, ghost got: seq<Frame>)
      requires ReadValid() && 0 < want && at + want <= buffer.Length && buffer != readBuf
      modifies this`src, this`readBuf, this`readBufSize, this`readBufFrames, this`readStatus, this`pcm, readBuf, buffer
      ensures ReadValid() && (readBuf == old(readBuf) || fresh(readBuf)) && |got| == count <= want
      ensures forall k | 0 <= k < at :: buffer[k] == old(buffer[k])
      ensures forall j | at <= j < at + count :: buffer[j] == got[j - at]
      ensures status != 0 ==> count == 0 && Draw(old(src), want) == Drawn(status, [], src)
      ensures status == 0 ==> count > 0 && Draw(old(src), want) == After(got, Draw(src, want - count))
    {
      got := GetNext(src, want).frames;
      GetNextKeepsStream(src, want);
      var from: nat;
      status, from, count := GetNextBuffer(want);
      if status == 0 {
        CopyGrant(buffer, at, from, count);
      }
    }

    /** One turn of the loop in read_frames. */
    method ReadSome(buffer: array<Frame>, at: nat, frames: nat, wr: nat, ghost whole: Drawn, ghost done: seq<Frame>)
      returns (status: int, count: nat, ghost more: seq<Frame>)
      requires Reading(buffer, at, frames, whole, done) && wr == |done| < frames
      modifies this`src, this`readBuf, this`readBufSize, this`readBufFrames, this`readStatus, this`pcm, readBuf, buffer
      ensures readBuf == old(readBuf) || fresh(readBuf)
      ensures forall k | 0 <= k < at :: buffer[k] == old(buffer[k])
      ensures ReadValid() && forall j | at <= j < at + |done| :: buffer[j] == done[j - at]
      ensures status != 0 ==> whole == Drawn(status, done, src)
      ensures status == 0 ==> count > 0 && wr + count == |more| && Reading(buffer, at, frames, whole, more)
    {
      ghost var got;
      status, count, got := TakeGrant(buffer, at + wr, frames - wr);
      more := done + got;
      assert forall j | at <= j < at + wr :: buffer[j] == done[j - at];
      if status == 0 {
        AfterMore(done, got, Draw(src, frames - |more|), whole);
        assert forall j | at + wr <= j < at + wr + count :: buffer[j] == got[j - (at + wr)] == more[j - at];
      } else {
        AfterNothing(done, status, src);
      }
    }

    /** read_frames without a resampler, into buffer[at..at + frames]. */
    method ReadFrames(buffer: array<Frame>, at: nat, frames: nat) returns (ret: int)
      requires ReadValid() && at + frames <= buffer.Length && buffer != readBuf
      modifies this`src, this`readBuf, this`readBufSize, this`readBufFrames, this`readStatus, this`pcm, readBuf, buffer
      ensures ReadValid() && (readBuf == old(readBuf) || fresh(readBuf))
      ensures forall k | 0 <= k < at :: buffer[k] == old(buffer[k])
      ensures var d := Draw(old(src), frames);
              && src == d.source && ret == (if d.status == 0 then frames else d.status)
              && |d.frames| <= frames && forall j | at <= j < at + |d.frames| :: buffer[j] == d.frames[j - at]
    {
      ghost var d, done: seq<Frame> := Draw(src, frames), [];
      var wr := 0;
      assert d == After(done, d);
      while wr < frames
        invariant wr == |done| <= frames && (readBuf == old(readBuf) || fresh(readBuf))
        invariant forall k | 0 <= k < at :: buffer[k] == old(buffer[k])
        invariant Reading(buffer, at, frames, d, done)
        decreases frames - wr
      {
        var status, count;
        ghost var more;
        status, count, more := ReadSome(buffer, at, frames, wr, d, done);
        if status != 0 {
          return status;
        }
        done, wr := more, wr + count;
      }
      AfterNothing(done, 0, src);
      ret := wr;
    }

    /** Before a read: room for the given number of frames in proc_buf_in. */
    method GrowProcBuf(frames: nat)
      requires ProcValid()
      modifies this`procBufIn, this`procBufSize
      ensures ProcValid() && frames <= procBufSize && (procBufIn == old(procBufIn) || fresh(procBufIn))
      ensures procBufSize == if old(procBufSize) < frames then frames else old(procBufSize)
    {
      if procBufSize < frames {
        var bigger := new Frame[frames];
        forall k | 0 <= k < procBufFrames {
          bigger[k] := procBufIn[k];
        }
        procBufIn, procBufSize := bigger, frames;
      }
    }

    /** read_frames at the end of proc_buf_in. */
    method ReadIntoProcBuf(frames: nat) returns (status: int)
      requires ReadValid() && ProcValid() && readBuf != procBufIn && procBufFrames + frames <= procBufSize
      modifies this`src, this`readBuf, this`readBufSize, this`readBufFrames, this`readStatus, this`pcm, readBuf,
               this`procBufFrames, this`buf, procBufIn
      ensures ReadValid() && ProcValid() && (readBuf == old(readBuf) || fresh(readBuf))
      ensures var d := Draw(old(src), frames);
              status == d.status <= 0 && src == d.source && buf == if status < 0 then old(buf) else old(buf) + d.frames
    {
      ghost var d := Draw(src, frames);
      DrawIsNextFrames(src, frames, period);
      status := ReadFrames(procBufIn, procBufFrames, frames);
      if status >= 0 {
        buf := buf + d.frames;
        procBufFrames := procBufFrames + status;
        status := 0;
      }
    }

    /** The top of the loop in process_frames. */
    method ReloadProcBuf(frames: nat) returns (status: int)
      requires Valid()
      modifies this`src, this`readBuf, this`readBufSize, this`readBufFrames, this`readStatus, this`pcm, readBuf,
               this`procBufIn, this`procBufSize, this`procBufFrames, this`buf, procBufIn
      ensures Valid() && (readBuf == old(readBuf) || fresh(readBuf)) && (procBufIn == old(procBufIn) || fresh(procBufIn))
      ensures var d := Reload(old(src), old(buf), frames);
              status == d.status && src == d.source && buf == if status < 0 then old(buf) else old(buf) + d.frames
    {
      status := 0;
      if procBufFrames < frames {
        GrowProcBuf(frames);
        status := ReadIntoProcBuf(frames - procBufFrames);
      } else {
        assert buf + [] == buf;
      }
    }

    /** The memcpy that moves what was not consumed to the front, with the meaning of memmove. */
    method DropConsumed(count: nat)
      requires ProcValid() && count <= procBufFrames
      modifies this`procBufFrames, this`buf, procBufIn
      ensures ProcValid() && buf == old(buf)[count..]
    {
      procBufFrames := procBufFrames - count;
      forall k | 0 <= k < procBufFrames {
        procBufIn[k] := procBufIn[count + k];
      }
      buf := buf[count..];
    }

    /** The loop over the effects; one without process_reverse is skipped. */
    method OfferReference(reverse: seq<Option<nat>>, given: nat) returns (count: nat, ghost offered: seq<nat>)
      ensures count == ReverseConsumed(reverse, given) <= given && offered == ReverseOffered(reverse, given)
    {
      count, offered := given, [];
      var i := 0;
      while i < |reverse|
        invariant 0 <= i <= |reverse| && count <= given
        invariant ReverseConsumed(reverse, given) == ReverseConsumed(reverse[i..], count)
        invariant ReverseOffered(reverse, given) == offered + ReverseOffered(reverse[i..], count)
      {
        if reverse[i].Some? {
          offered := offered + [count];
          count := Min(reverse[i].value, count);
        }
        i := i + 1;
      }
    }

    /** update_echo_reference, then process_reverse of every effect that has one. */
    method PushEchoReference(frames: nat, reply: RefReply, reverse: seq<Option<nat>>) returns (ghost offered: seq<nat>)
      requires RefValid()
      modifies this`refBuf, this`refBufSize, this`refFramesIn, this`reference, this`echo, refBuf
      ensures RefValid() && (refBuf == old(refBuf) || fresh(refBuf))
      ensures echo == PushEcho(old(echo), frames, reply, reverse).1
      ensures offered == PushOffered(old(echo), frames, reply, reverse)
      ensures refBufSize == if old(refFramesIn) < frames && old(refBufSize) < frames then frames else old(refBufSize)
    {
      UpdateEchoReference(frames, reply);
      var count: nat;
      count, offered := OfferReference(reverse, Min(frames, refFramesIn));
      refFramesIn := refFramesIn - count;
      forall k | 0 <= k < refFramesIn {
        refBuf[k] := refBuf[count + k];
      }
      echo := echo.(held := echo.held[count..]);
    }

    method UpdateEchoReference(frames: nat, reply: RefReply)
      requires RefValid()
      modifies this`refBuf, this`refBufSize, this`refFramesIn, this`reference, this`echo, refBuf
      ensures RefValid() && (refBuf == old(refBuf) || fresh(refBuf))
      ensures echo == UpdateEcho(old(echo), frames, reply)
      ensures refBufSize == if old(refFramesIn) < frames && old(refBufSize) < frames then frames else old(refBufSize)
    {
      if refFramesIn < frames {
        if refBufSize < frames {
          var bigger := new Frame[frames];
          forall k | 0 <= k < refFramesIn {
            bigger[k] := refBuf[k];
          }
          refBuf, refBufSize := bigger, frames;
        }
        if reply.RefReads? {
          var count := Min(Min(reply.count, frames - refFramesIn), |reference|);
          forall k | 0 <= k < count {
            refBuf[refFramesIn + k] := reference[k];
          }
          echo := Echo(echo.held + reference[..count], reference[count..]);
          refFramesIn, reference := refFramesIn + count, reference[count..];
        }
      }
    }

    /** The loop over the effects: each updates the shared counts of frames consumed and produced. */
    method RunEffects(effects: seq<EffectReply>, given: nat, room: nat) returns (consumed: nat, produced: nat)
      ensures consumed == Consumed(effects, given) <= given && produced == Produced(effects, room)
    {
      consumed, produced := given, room;
      var i := 0;
      while i < |effects|
        invariant 0 <= i <= |effects| && consumed <= given
        invariant Consumed(effects, given) == Consumed(effects[i..], consumed)
        invariant produced == Produced(effects[..i], room)
      {
        consumed, produced := Min(effects[i].consumes, consumed), effects[i].produces;
        i := i + 1;
      }
      assert effects[..i] == effects;
    }

    /** One turn of the loop in process_frames, once enough frames are in proc_buf_in. */
    method HandToEffects(frames: nat, done: nat, round: Round) returns (written: nat)
      requires Valid() && done < frames
      modifies this`procBufFrames, this`buf, procBufIn,
               this`refBuf, this`refBufSize, this`refFramesIn, this`reference, this`echo, refBuf
      ensures Valid() && (refBuf == old(refBuf) || fresh(refBuf))
      ensures var given := |old(buf)|;
              && Consumed(round.effects, given) <= given && buf == old(buf)[Consumed(round.effects, given)..]
              && written == Written(done, Produced(round.effects, frames - done), frames)
              && echo == if hasEcho then PushEcho(old(echo), given, round.reference, round.reverse).1 else old(echo)
    {
      if hasEcho {
        ghost var offered := PushEchoReference(procBufFrames, round.reference, round.reverse);
      }
      var consumed, produced := RunEffects(round.effects, procBufFrames, frames - done);
      DropConsumed(consumed);
      written := if done + produced <= frames then done + produced else frames;
    }

    /** One turn of the loop in process_frames. */
    method ProcessRound(frames: nat, done: nat, round: Round) returns (status: int, written: nat)
      requires Valid() && done < frames
      modifies this`src, this`readBuf, this`readBufSize, this`readBufFrames, this`readStatus, this`pcm, readBuf,
               this`procBufIn, this`procBufSize, this`procBufFrames, this`buf, procBufIn,
               this`refBuf, this`refBufSize, this`refFramesIn, this`reference, this`echo, refBuf
      ensures Valid() && SameOrFresh(old(readBuf), old(procBufIn), old(refBuf))
      ensures var d := Reload(old(src), old(buf), frames);
              var full := old(buf) + d.frames;
              && status == d.status <= 0 && src == d.source
              && (status < 0 ==> buf == old(buf) && echo == old(echo))
              && (status == 0 ==>
                    && Consumed(round.effects, |full|) <= |full| && buf == full[Consumed(round.effects, |full|)..]
                    && written == Written(done, Produced(round.effects, frames - done), frames)
                    && echo == if hasEcho then PushEcho(old(echo), |full|, round.reference, round.reverse).1 else old(echo))
    {
      ReloadIsNextFrames(src, buf, frames, period);
      status := ReloadProcBuf(frames);
      written := done;
      if status == 0 {
        written := HandToEffects(frames, done, round);
      }
    }

    twostate predicate SameOrFresh(r: array<Frame>, p: array<Frame>, f: array<Frame>)
      reads this
    {
      (readBuf == r || fresh(readBuf)) && (procBufIn == p || fresh(procBufIn)) && (refBuf == f || fresh(refBuf))
    }

    /** process_frames; Unfinished when the effects have not answered often enough for the call to return. */
    method ProcessFrames(frames: nat, rounds: seq<Round>) returns (ret: Ret)
      requires Valid()
      modifies this`src, this`readBuf, this`readBufSize, this`readBufFrames, this`readStatus, this`pcm, readBuf,
               this`procBufIn, this`procBufSize, this`procBufFrames, this`buf, procBufIn,
               this`refBuf, this`refBufSize, this`refFramesIn, this`reference, this`echo, refBuf
      ensures Valid() && SameOrFresh(old(readBuf), old(procBufIn), old(refBuf))
      ensures var p := Process(old(src), old(buf), frames, 0, EffectsOf(rounds));
              ret == p.ret && src == p.source && buf == p.buf
      ensures frames > 0 && !ret.Error? ==>
                (ret == Unfinished <==> [] !in EffectsOf(rounds) && Total(EffectsOf(rounds)) < frames)
      ensures echo == if hasEcho then EchoAfter(old(echo), PushesOf(old(src), old(buf), frames, 0, rounds)) else old(echo)
    {
      ghost var end := EchoAfter(echo, PushesOf(src, buf, frames, 0, rounds));
      ghost var whole := Process(src, buf, frames, 0, EffectsOf(rounds));
      if frames > 0 {
        ReturnsWhenProduced(src, buf, frames, 0, EffectsOf(rounds));
      }
      var wr, i := 0, 0;
      while wr < frames && i < |rounds|
        invariant 0 <= wr <= frames && 0 <= i <= |rounds|
        invariant Valid() && SameOrFresh(old(readBuf), old(procBufIn), old(refBuf))
        invariant if hasEcho then EchoAfter(echo, PushesOf(src, buf, frames, wr, rounds[i..])) == end else echo == old(echo)
        invariant SameEnd(whole, Process(src, buf, frames, wr, EffectsOf(rounds[i..])))
        decreases |rounds| - i
      {
        ProcessOneRound(src, buf, frames, wr, rounds[i..], period);
        PushesOneRound(echo, src, buf, frames, wr, rounds[i..]);
        var status, written := ProcessRound(frames, wr, rounds[i]);
        if status < 0 {
          return Error(status);
        }
        wr, i := written, i + 1;
      }
      ret := if wr >= frames then Returns(wr) else Unfinished;
    }
  }

  predicate SameEnd(p: Processed, q: Processed) {
    p.ret == q.ret && p.source == q.source && p.buf == q.buf
  }

  lemma ProcessOneRound(s: Source, buf: seq<Frame>, frames: nat, done: nat, rounds: seq<Round>, period: nat)
    requires GoodPcm(s.pcm, period) && done < frames && rounds != []
    ensures var d := Reload(s, buf, frames);
            var full := buf + d.frames;
            var p := Process(s, buf, frames, done, EffectsOf(rounds));
            && (d.status < 0 ==> SameEnd(p, Processed(Error(d.status), d.source, buf, [], [])))
            && (d.status == 0 ==>
                  && Consumed(rounds[0].effects, |full|) <= |full|
                  && SameEnd(p, Process(d.source, full[Consumed(rounds[0].effects, |full|)..], frames,
                                        Written(done, Produced(rounds[0].effects, frames - done), frames),
                                        EffectsOf(rounds[1..]))))
  {
    ReloadIsNextFrames(s, buf, frames, period);
    assert EffectsOf(rounds)[1..] == EffectsOf(rounds[1..]);
    ConsumesWhatIsThere(rounds[0].effects, |buf + Reload(s, buf, frames).frames|);
  }

  lemma AfterNothing(done: seq<Frame>, status: int, s: Source)
    ensures After(done, Drawn(status, [], s)) == Drawn(status, done, s)
  {
    assert done + [] == done;
  }

  lemma AfterMore(done: seq<Frame>, got: seq<Frame>, rest: Drawn, whole: Drawn)
    requires whole == After(done, After(got, rest))
    ensures whole == After(done + got, rest)
  {
    AfterAfter(done, got, rest);
  }

  lemma AfterAfter(done: seq<Frame>, got: seq<Frame>, rest: Drawn)
    ensures After(done, After(got, rest)) == After(done + got, rest)
  {
    assert done + (got + rest.frames) == done + got + rest.frames;
  }
}
