/**
 Output arbitration and audio patches of tinyalsa_hal.cpp, outside calls (mode is never IN_CALL and
 SCO is off).  A stream is a record in the list it is linked into; every API call is one Step.
 */
module AudioOutput {

  const NONE: nat := 0                      // AUDIO_PATCH_HANDLE_NONE and AUDIO_DEVICE_NONE
  const BUS: nat := 0x1000000               // AUDIO_DEVICE_OUT_BUS
  const BIT_IN: nat := 0x80000000           // AUDIO_DEVICE_BIT_IN
  const MAX_PORTS: nat := 16                // AUDIO_PATCH_PORTS_MAX
  const MAX_FAILS: nat := 100
  const EINVAL: int := 22
  const EBUSY: int := 16
  const EIO: int := 5

  /**
   compress: compressed offload other than DSD; keepsOpen: on a wm8962 card, which only a forced
   standby closes; pcm and compr: is the device node open.
   */
  datatype Out = Out(
    handle: nat, device: nat, direct: bool, primary: bool, compress: bool, keepsOpen: bool,
    standby: bool, pcm: bool, compr: bool, fails: nat, patch: nat, numDevices: nat)

  datatype In = In(handle: nat, device: nat, standby: bool, patch: nat)

  datatype Audio = Audio(outs: seq<Out>, ins: seq<In>, nextPatch: nat)

  /** How choosing the card and opening the node end; OpensNull: pcm_open gave no object, which is not an error. */
  datatype Opening = BadCard | NotReady | OpensNull | Opens

  /** audio_devices_t, a 32-bit set of flags. */
  type Kind = k: nat | k < 0x1_0000_0000

  datatype Port = DevicePort(kind: Kind) | MixPort(mix: nat) | OtherPort

  // ---------------------------------------------------------------- single streams

  predicate Active(o: Out) {
    !o.standby
  }

  /** do_output_standby. */
  function PutInStandby(o: Out, force: bool): Out {
    if o.standby || (!force && o.keepsOpen) then o
    else if o.compress then o.(standby := true, compr := false)
    else o.(standby := true, pcm := false, fails := 0)
  }

  predicate Clashes(o: Out, device: nat) {
    o.device == device && Active(o)
  }

  /** What a direct stream does to the others before it opens their device. */
  function Preempted(o: Out, device: nat): Out {
    if o.device == device && !o.direct && Active(o) then PutInStandby(o, true) else o
  }

  function PreemptAll(outs: seq<Out>, device: nat): (r: seq<Out>) {
    seq(|outs|, i requires 0 <= i < |outs| => Preempted(outs[i], device))
  }

  predicate Refused(outs: seq<Out>, o: Out, passthrough: bool) {
    !o.direct && ((o.device != BUS && exists k :: 0 <= k < |outs| && Clashes(outs[k], o.device)) || passthrough)
  }

  /** The node of the stream's kind, opened or not. */
  function Opened(o: Out, open: bool): Out {
    if o.compress then o.(pcm := false, compr := open) else o.(pcm := open)
  }

  /** start_output_stream for the stream at i. */
  function Start(outs: seq<Out>, i: nat, passthrough: bool, open: Opening): (int, seq<Out>)
    requires i < |outs|
  {
    var o := outs[i];
    var others := if o.direct then PreemptAll(outs, o.device) else outs;
    if Refused(others, o, passthrough) then (-EBUSY, others)
    else match open
      case BadCard => (-EINVAL, others)
      case NotReady => (-EIO, others[i := Opened(others[i], false)])
      case OpensNull => (0, others[i := Opened(others[i], false)])
      case Opens => (0, others[i := Opened(others[i], true)])
  }

  /** The tail of out_write: count consecutive failures of a PCM, and give up on the primary output after too many. */
  function Written(o: Out, ok: bool): Out {
    if o.compress then o
    else
      var counted := if !o.pcm then o else o.(fails := if ok then 0 else o.fails + 1);
      if o.primary && counted.fails > MAX_FAILS then PutInStandby(counted, true) else counted
  }

  function Write(outs: seq<Out>, i: nat, passthrough: bool, open: Opening, ok: bool): seq<Out>
    requires i < |outs|
  {
    if Active(outs[i]) then outs[i := Written(outs[i], ok)]
    else
      var (ret, started) := Start(outs, i, passthrough, open);
      if ret != 0 then started else started[i := Written(started[i].(standby := false), ok)]
  }

  /** out_flush. */
  function Flushed(o: Out, reopens: bool): Out {
    if o.compress || !o.pcm then o
    else o.(pcm := reopens, standby := if reopens then false else o.standby)
  }

  // ---------------------------------------------------------------- patches

  function FindOut(outs: seq<Out>, handle: nat): nat {
    if outs == [] || outs[0].handle == handle then 0 else 1 + FindOut(outs[1..], handle)
  }

  function FindIn(ins: seq<In>, handle: nat): nat {
    if ins == [] || ins[0].handle == handle then 0 else 1 + FindIn(ins[1..], handle)
  }

  function FindOutPatch(outs: seq<Out>, patch: nat): nat {
    if outs == [] || outs[0].patch == patch then 0 else 1 + FindOutPatch(outs[1..], patch)
  }

  function FindInPatch(ins: seq<In>, patch: nat): nat {
    if ins == [] || ins[0].patch == patch then 0 else 1 + FindInPatch(ins[1..], patch)
  }

  predicate ValidPatch(sources: seq<Port>, sinks: seq<Port>) {
    && |sources| == 1 && 0 < |sinks| <= MAX_PORTS
    && match sources[0]
       case DevicePort(_) => |sinks| == 1 && sinks[0].MixPort?
       case MixPort(_) => forall k | 0 <= k < |sinks| :: sinks[k].DevicePort?
       case OtherPort => false
  }

  function Unmasked(kind: Kind): (device: nat)
    ensures device < BIT_IN
  {
    if BIT_IN <= kind then kind - BIT_IN else kind
  }

  /** The patched input keeps running only if the unmasked type equals its device. */
  function Routed(r: In, kind: Kind, patch: nat): In {
    if r.device != kind then r.(device := Unmasked(kind), standby := true, patch := patch) else r.(patch := patch)
  }

  function Rerouted(o: Out, sinks: seq<Port>, patch: nat): Out
    requires sinks != [] && forall k | 0 <= k < |sinks| :: sinks[k].DevicePort?
  {
    var t := o.(numDevices := |sinks|, patch := patch);
    if o.device != sinks[0].kind then PutInStandby(t.(device := sinks[0].kind), true) else t
  }

  /** The handle counter after a call that was given this handle. */
  function NextAfter(a: Audio, asked: nat): nat {
    if asked == NONE then a.nextPatch + 1 else a.nextPatch
  }

  /** The handle to be recorded: the caller's, or a new one. */
  function Recording(a: Audio, asked: nat): nat {
    if asked == NONE then a.nextPatch + 1 else asked
  }

  function CreateIn(a: Audio, kind: Kind, mix: nat, asked: nat): (nat, Audio) {
    var b, i := a.(nextPatch := NextAfter(a, asked)), FindIn(a.ins, mix);
    if i >= |a.ins| || (asked != NONE && a.ins[i].patch != asked) then (asked, b)
    else (Recording(a, asked), b.(ins := a.ins[i := Routed(a.ins[i], kind, Recording(a, asked))]))
  }

  function CreateOut(a: Audio, mix: nat, sinks: seq<Port>, asked: nat): (nat, Audio)
    requires sinks != [] && forall k | 0 <= k < |sinks| :: sinks[k].DevicePort?
  {
    var b, i := a.(nextPatch := NextAfter(a, asked)), FindOut(a.outs, mix);
    if i >= |a.outs| || (asked != NONE && a.outs[i].patch != asked) then (asked, b)
    else (Recording(a, asked), b.(outs := a.outs[i := Rerouted(a.outs[i], sinks, Recording(a, asked))]))
  }

  /** adev_create_audio_patch: status, the caller's handle afterwards, new state. */
  function CreatePatch(a: Audio, sources: seq<Port>, sinks: seq<Port>, asked: nat): (int, nat, Audio) {
    if !ValidPatch(sources, sinks) then (-EINVAL, asked, a)
    else
      var (handle, b) := if sources[0].DevicePort? then CreateIn(a, sources[0].kind, sinks[0].mix, asked)
                         else CreateOut(a, sources[0].mix, sinks, asked);
      (0, handle, b)
  }

  function DetachedOut(o: Out): Out {
    PutInStandby(o.(numDevices := 0, device := NONE), true).(patch := NONE)
  }

  function DetachedIn(r: In): In {
    r.(device := NONE, standby := true, patch := NONE)
  }

  /** adev_release_audio_patch. */
  function ReleasePatch(a: Audio, patch: nat): (int, Audio) {
    var i := FindOutPatch(a.outs, patch);
    if i < |a.outs| then (0, a.(outs := a.outs[i := DetachedOut(a.outs[i])]))
    else
      var j := FindInPatch(a.ins, patch);
      if j < |a.ins| then (0, a.(ins := a.ins[j := DetachedIn(a.ins[j])]))
      else (-EINVAL, a)
  }

  // ---------------------------------------------------------------- runs

  datatype Step =
    | OpenOutput(handle: nat, device: nat, direct: bool, primary: bool, compress: bool)
    | CloseOutput(at: nat)
    | WriteOutput(at: nat, passthrough: bool, open: Opening, ok: bool, keepsOpen: bool)
    | StandbyOutput(at: nat)
    | FlushOutput(at: nat, reopens: bool)
    | OpenInput(handle: nat, kind: Kind)
    | CloseInput(at: nat)
    | ReadInput(at: nat, starts: bool)
    | Create(sources: seq<Port>, sinks: seq<Port>, patch: nat)
    | Release(patch: nat)

  predicate Enabled(a: Audio, step: Step) {
    match step
    case CloseOutput(i) => i < |a.outs|
    case WriteOutput(i, _, _, _, _) => i < |a.outs|
    case StandbyOutput(i) => i < |a.outs|
    case FlushOutput(i, _) => i < |a.outs|
    case CloseInput(i) => i < |a.ins|
    case ReadInput(i, _) => i < |a.ins|
    case _ => true
  }

  function Without<T>(s: seq<T>, i: nat): seq<T>
    requires i < |s|
  {
    s[..i] + s[i + 1..]
  }

  /** A write that starts the stream also settles which card it is on. */
  function OnCard(outs: seq<Out>, i: nat, keepsOpen: bool): seq<Out>
    requires i < |outs|
  {
    if Active(outs[i]) then outs else outs[i := outs[i].(keepsOpen := keepsOpen)]
  }

  function Apply(a: Audio, step: Step): Audio
    requires Enabled(a, step)
  {
    match step
    case OpenOutput(handle, device, direct, primary, compress) =>
      a.(outs := a.outs + [Out(handle, device, direct, primary, compress, false, true, false, false, 0, NONE, 0)])
    case CloseOutput(i) => a.(outs := Without(a.outs, i))
    case WriteOutput(i, passthrough, open, ok, keepsOpen) =>
      a.(outs := Write(OnCard(a.outs, i, keepsOpen), i, passthrough, open, ok))
    case StandbyOutput(i) => a.(outs := a.outs[i := PutInStandby(a.outs[i], false)])
    case FlushOutput(i, reopens) => a.(outs := a.outs[i := Flushed(a.outs[i], reopens)])
    case OpenInput(handle, kind) => a.(ins := a.ins + [In(handle, Unmasked(kind), true, NONE)])
    case CloseInput(i) => a.(ins := Without(a.ins, i))
    case ReadInput(i, starts) => a.(ins := if starts then a.ins[i := a.ins[i].(standby := false)] else a.ins)
    case Create(sources, sinks, patch) => CreatePatch(a, sources, sinks, patch).2
    case Release(patch) => ReleasePatch(a, patch).1
  }

  const EMPTY := Audio([], [], NONE)

  ghost predicate IsRun(a: Audio, steps: seq<Step>, b: Audio)
    decreases |steps|
  {
    if steps == [] then a == b
    else Enabled(a, steps[0]) && IsRun(Apply(a, steps[0]), steps[1..], b)
  }

  ghost predicate Reachable(a: Audio) {
    exists steps :: IsRun(EMPTY, steps, a)
  }

  // ---------------------------------------------------------------- invariants

  /** An active non-direct stream on a PCM device shares it with no other active stream. */
  ghost predicate Exclusive(outs: seq<Out>) {
    forall i, k | 0 <= i < |outs| && 0 <= k < |outs| && i != k ::
      Active(outs[i]) && !outs[i].direct && outs[i].device != BUS ==> !Clashes(outs[k], outs[i].device)
  }

  /** A stream in standby has nothing open, and one that is not has at most the node of its kind. */
  predicate NodesOk(o: Out) {
    (o.standby || o.compress ==> !o.pcm) && (o.standby || !o.compress ==> !o.compr)
  }

  ghost predicate StandbyIsClosed(outs: seq<Out>) {
    forall i | 0 <= i < |outs| :: NodesOk(outs[i])
  }

  predicate PatchesBounded(a: Audio) {
    && (forall i | 0 <= i < |a.outs| :: a.outs[i].patch <= a.nextPatch)
    && (forall i | 0 <= i < |a.ins| :: a.ins[i].patch <= a.nextPatch)
  }

  /** No two streams record the same patch. */
  predicate PatchesDistinct(a: Audio) {
    && (forall i, k | 0 <= i < k < |a.outs| :: a.outs[i].patch != NONE ==> a.outs[i].patch != a.outs[k].patch)
    && (forall i, k | 0 <= i < k < |a.ins| :: a.ins[i].patch != NONE ==> a.ins[i].patch != a.ins[k].patch)
    && (forall i, k | 0 <= i < |a.outs| && 0 <= k < |a.ins| :: a.outs[i].patch != NONE ==> a.outs[i].patch != a.ins[k].patch)
  }

  ghost predicate Inv(a: Audio) {
    Exclusive(a.outs) && StandbyIsClosed(a.outs) && PatchesBounded(a) && PatchesDistinct(a)
  }

  /** Changing one stream without waking it or moving it onto a device keeps the arbitration. */
  lemma QuietChange(outs: seq<Out>, i: nat, o: Out)
    requires i < |outs| && Exclusive(outs) && o.direct == outs[i].direct
    requires Active(o) ==> Active(outs[i]) && o.device == outs[i].device
    ensures Exclusive(outs[i := o])
  {
  }

  lemma PreemptKeeps(outs: seq<Out>, device: nat)
    requires Exclusive(outs) && StandbyIsClosed(outs)
    ensures Exclusive(PreemptAll(outs, device)) && StandbyIsClosed(PreemptAll(outs, device))
    ensures forall k | 0 <= k < |outs| && !outs[k].direct :: !Clashes(PreemptAll(outs, device)[k], device)
    ensures forall k | 0 <= k < |outs| :: PreemptAll(outs, device)[k].patch == outs[k].patch
  {
  }

  /** What a start must leave, so that the caller may mark the stream active if it succeeded. */
  ghost predicate Startable(outs: seq<Out>, i: nat, ret: int, s: seq<Out>)
    requires i < |outs|
  {
    && |s| == |outs| && Exclusive(s) && s[i].standby && s[i].direct == outs[i].direct && s[i].device == outs[i].device
    && (ret != 0 ==> StandbyIsClosed(s))
    && (ret == 0 ==> NodesOk(s[i].(standby := false)) && forall k | 0 <= k < |s| && k != i :: NodesOk(s[k]))
    && (ret == 0 && outs[i].direct ==> forall k | 0 <= k < |s| && !s[k].direct :: !Clashes(s[k], s[i].device))
    && (ret == 0 && !outs[i].direct && outs[i].device != BUS ==>
          forall k | 0 <= k < |s| :: !Clashes(s[k], s[i].device))
  }

  /** Changing the nodes of a stream in standby. */
  lemma OpeningKeeps(outs: seq<Out>, i: nat, open: bool)
    requires i < |outs| && outs[i].standby && Exclusive(outs) && StandbyIsClosed(outs)
    ensures var s := outs[i := Opened(outs[i], open)];
            && Exclusive(s) && NodesOk(s[i].(standby := false)) && (!open ==> StandbyIsClosed(s))
            && forall k | 0 <= k < |s| && k != i :: NodesOk(s[k])
  {
    QuietChange(outs, i, Opened(outs[i], open));
  }

  lemma DirectStartKeeps(outs: seq<Out>, i: nat, passthrough: bool, open: Opening)
    requires i < |outs| && outs[i].standby && outs[i].direct && Exclusive(outs) && StandbyIsClosed(outs)
    ensures var (ret, s) := Start(outs, i, passthrough, open); Startable(outs, i, ret, s)
  {
    var others := PreemptAll(outs, outs[i].device);
    PreemptKeeps(outs, outs[i].device);
    assert others[i] == outs[i];
    OpeningKeeps(others, i, open.Opens?);
  }

  lemma OtherStartKeeps(outs: seq<Out>, i: nat, passthrough: bool, open: Opening)
    requires i < |outs| && outs[i].standby && !outs[i].direct && Exclusive(outs) && StandbyIsClosed(outs)
    ensures var (ret, s) := Start(outs, i, passthrough, open); Startable(outs, i, ret, s)
  {
    OpeningKeeps(outs, i, open.Opens?);
  }

  lemma StartKeeps(outs: seq<Out>, i: nat, passthrough: bool, open: Opening)
    requires i < |outs| && outs[i].standby && Exclusive(outs) && StandbyIsClosed(outs)
    ensures var (ret, s) := Start(outs, i, passthrough, open); Startable(outs, i, ret, s)
  {
    if outs[i].direct {
      DirectStartKeeps(outs, i, passthrough, open);
    } else {
      OtherStartKeeps(outs, i, passthrough, open);
    }
  }

  lemma Wake(outs: seq<Out>, i: nat, o: Out)
    requires i < |outs| && Exclusive(outs) && o.direct == outs[i].direct && o.device == outs[i].device
    requires o.direct ==> forall k | 0 <= k < |outs| && !outs[k].direct :: !Clashes(outs[k], o.device)
    requires !o.direct && o.device != BUS ==> forall k | 0 <= k < |outs| :: !Clashes(outs[k], o.device)
    requires !o.direct && o.device == BUS ==> outs[i].device == BUS
    ensures Exclusive(outs[i := o])
  {
  }

  lemma WriteKeeps(outs: seq<Out>, i: nat, passthrough: bool, open: Opening, ok: bool)
    requires i < |outs| && Exclusive(outs) && StandbyIsClosed(outs)
    ensures var w := Write(outs, i, passthrough, open, ok);
            |w| == |outs| && Exclusive(w) && StandbyIsClosed(w)
  {
    if Active(outs[i]) {
      QuietChange(outs, i, Written(outs[i], ok));
    } else {
      StartKeeps(outs, i, passthrough, open);
      var (ret, s) := Start(outs, i, passthrough, open);
      if ret == 0 {
        Wake(s, i, Written(s[i].(standby := false), ok));
      }
    }
  }

  lemma WithoutKeeps(outs: seq<Out>, i: nat)
    requires i < |outs| && Exclusive(outs) && StandbyIsClosed(outs)
    ensures Exclusive(Without(outs, i)) && StandbyIsClosed(Without(outs, i))
  {
    var w := Without(outs, i);
    forall j, k | 0 <= j < |w| && 0 <= k < |w| && j != k
      ensures Active(w[j]) && !w[j].direct && w[j].device != BUS ==> !Clashes(w[k], w[j].device)
    {
      assert w[j] == outs[if j < i then j else j + 1] && w[k] == outs[if k < i then k else k + 1];
    }
  }

  lemma PatchedOutKeeps(outs: seq<Out>, i: nat, o: Out)
    requires i < |outs| && Exclusive(outs) && StandbyIsClosed(outs) && o.direct == outs[i].direct && NodesOk(o)
    requires Active(o) ==> Active(outs[i]) && o.device == outs[i].device
    ensures Exclusive(outs[i := o]) && StandbyIsClosed(outs[i := o])
  {
    QuietChange(outs, i, o);
  }

  lemma CreateKeepsOuts(a: Audio, mix: nat, sinks: seq<Port>, asked: nat)
    requires Exclusive(a.outs) && StandbyIsClosed(a.outs)
    requires sinks != [] && forall k | 0 <= k < |sinks| :: sinks[k].DevicePort?
    ensures var b := CreateOut(a, mix, sinks, asked).1; Exclusive(b.outs) && StandbyIsClosed(b.outs)
  {
    var i := FindOut(a.outs, mix);
    if i < |a.outs| {
      PatchedOutKeeps(a.outs, i, Rerouted(a.outs[i], sinks, Recording(a, asked)));
    }
  }

  lemma ReleaseKeepsOuts(a: Audio, patch: nat)
    requires Exclusive(a.outs) && StandbyIsClosed(a.outs)
    ensures var b := ReleasePatch(a, patch).1; Exclusive(b.outs) && StandbyIsClosed(b.outs)
  {
    var i := FindOutPatch(a.outs, patch);
    if i < |a.outs| {
      PatchedOutKeeps(a.outs, i, DetachedOut(a.outs[i]));
    }
  }

  lemma StepKeepsOuts(a: Audio, step: Step)
    requires Exclusive(a.outs) && StandbyIsClosed(a.outs) && Enabled(a, step)
    ensures Exclusive(Apply(a, step).outs) && StandbyIsClosed(Apply(a, step).outs)
  {
    match step
    case CloseOutput(i) => WithoutKeeps(a.outs, i);
    case WriteOutput(i, passthrough, open, ok, keepsOpen) =>
      PatchedOutKeeps(a.outs, i, if Active(a.outs[i]) then a.outs[i] else a.outs[i].(keepsOpen := keepsOpen));
      assert a.outs[i := a.outs[i]] == a.outs;
      WriteKeeps(OnCard(a.outs, i, keepsOpen), i, passthrough, open, ok);
    case StandbyOutput(i) => PatchedOutKeeps(a.outs, i, PutInStandby(a.outs[i], false));
    case FlushOutput(i, reopens) => PatchedOutKeeps(a.outs, i, Flushed(a.outs[i], reopens));
    case Create(sources, sinks, patch) =>
      if ValidPatch(sources, sinks) && sources[0].MixPort? {
        CreateKeepsOuts(a, sources[0].mix, sinks, patch);
      }
    case Release(patch) => ReleaseKeepsOuts(a, patch);
    case _ =>
  }

  // ---------------------------------------------------------------- patch handles

  lemma {:induction false} FoundOut(outs: seq<Out>, handle: nat)
    ensures FindOut(outs, handle) <= |outs|
    ensures FindOut(outs, handle) < |outs| ==> outs[FindOut(outs, handle)].handle == handle
    ensures forall k | 0 <= k < FindOut(outs, handle) :: outs[k].handle != handle
  {
    if outs == [] {
    } else if outs[0].handle != handle {
      FoundOut(outs[1..], handle);
      forall k | 0 <= k < FindOut(outs, handle) ensures outs[k].handle != handle {
        if k > 0 {
          assert outs[k] == outs[1..][k - 1];
        }
      }
    }
  }

  lemma {:induction false} FoundOutPatch(outs: seq<Out>, patch: nat)
    ensures FindOutPatch(outs, patch) <= |outs|
    ensures FindOutPatch(outs, patch) < |outs| ==> outs[FindOutPatch(outs, patch)].patch == patch
    ensures forall k | 0 <= k < FindOutPatch(outs, patch) :: outs[k].patch != patch
  {
    if outs == [] {
    } else if outs[0].patch != patch {
      FoundOutPatch(outs[1..], patch);
      forall k | 0 <= k < FindOutPatch(outs, patch) ensures outs[k].patch != patch {
        if k > 0 {
          assert outs[k] == outs[1..][k - 1];
        }
      }
    }
  }

  lemma {:induction false} FoundInPatch(ins: seq<In>, patch: nat)
    ensures FindInPatch(ins, patch) <= |ins|
    ensures FindInPatch(ins, patch) < |ins| ==> ins[FindInPatch(ins, patch)].patch == patch
    ensures forall k | 0 <= k < FindInPatch(ins, patch) :: ins[k].patch != patch
  {
    if ins == [] {
    } else if ins[0].patch != patch {
      FoundInPatch(ins[1..], patch);
      forall k | 0 <= k < FindInPatch(ins, patch) ensures ins[k].patch != patch {
        if k > 0 {
          assert ins[k] == ins[1..][k - 1];
        }
      }
    }
  }

  /** All that matters about the handles: which stream records which patch. */
  predicate SamePatches(a: Audio, b: Audio) {
    && |a.outs| == |b.outs| && |a.ins| == |b.ins| && a.nextPatch == b.nextPatch
    && (forall i | 0 <= i < |a.outs| :: a.outs[i].patch == b.outs[i].patch)
    && (forall i | 0 <= i < |a.ins| :: a.ins[i].patch == b.ins[i].patch)
  }

  lemma SamePatchesKeep(a: Audio, b: Audio)
    requires PatchesBounded(a) && PatchesDistinct(a) && SamePatches(a, b)
    ensures PatchesBounded(b) && PatchesDistinct(b)
  {
  }

  /** Where the elements of a shortened list come from. */
  lemma WithoutAt<T>(s: seq<T>, i: nat, k: nat)
    requires i < |s| && k < |s| - 1
    ensures Without(s, i)[k] == s[if k < i then k else k + 1]
  {
  }

  lemma WithoutOutPatches(a: Audio, i: nat)
    requires PatchesBounded(a) && PatchesDistinct(a) && i < |a.outs|
    ensures var b := a.(outs := Without(a.outs, i)); PatchesBounded(b) && PatchesDistinct(b)
  {
    var w := Without(a.outs, i);
    forall k | 0 <= k < |w| ensures w[k] == a.outs[if k < i then k else k + 1] {
      WithoutAt(a.outs, i, k);
    }
  }

  lemma WithoutInPatches(a: Audio, i: nat)
    requires PatchesBounded(a) && PatchesDistinct(a) && i < |a.ins|
    ensures var b := a.(ins := Without(a.ins, i)); PatchesBounded(b) && PatchesDistinct(b)
  {
    var w := Without(a.ins, i);
    forall k | 0 <= k < |w| ensures w[k] == a.ins[if k < i then k else k + 1] {
      WithoutAt(a.ins, i, k);
    }
  }

  lemma WritePatches(outs: seq<Out>, i: nat, passthrough: bool, open: Opening, ok: bool)
    requires i < |outs|
    ensures var w := Write(outs, i, passthrough, open, ok);
            |w| == |outs| && forall k | 0 <= k < |w| :: w[k].patch == outs[k].patch
  {
    StartPatches(outs, i, passthrough, open);
  }

  lemma StartPatches(outs: seq<Out>, i: nat, passthrough: bool, open: Opening)
    requires i < |outs|
    ensures var s := Start(outs, i, passthrough, open).1;
            |s| == |outs| && forall k | 0 <= k < |s| :: s[k].patch == outs[k].patch
  {
  }

  /** A stream keeps its patch, loses it, or records a new one. */
  predicate NewPatch(a: Audio, was: nat, now: nat, next: nat) {
    (next == a.nextPatch && (now == was || now == NONE)) || next == now == a.nextPatch + 1
  }

  lemma RecordOut(a: Audio, i: nat, o: Out, next: nat)
    requires PatchesBounded(a) && PatchesDistinct(a) && i < |a.outs| && NewPatch(a, a.outs[i].patch, o.patch, next)
    ensures var b := a.(outs := a.outs[i := o], nextPatch := next); PatchesBounded(b) && PatchesDistinct(b)
  {
  }

  lemma RecordIn(a: Audio, i: nat, r: In, next: nat)
    requires PatchesBounded(a) && PatchesDistinct(a) && i < |a.ins| && NewPatch(a, a.ins[i].patch, r.patch, next)
    ensures var b := a.(ins := a.ins[i := r], nextPatch := next); PatchesBounded(b) && PatchesDistinct(b)
  {
  }

  lemma IssueKeeps(a: Audio, next: nat)
    requires PatchesBounded(a) && PatchesDistinct(a) && next >= a.nextPatch
    ensures PatchesBounded(a.(nextPatch := next)) && PatchesDistinct(a.(nextPatch := next))
  {
  }

  lemma CreateInKeeps(a: Audio, kind: Kind, mix: nat, asked: nat)
    requires PatchesBounded(a) && PatchesDistinct(a)
    ensures var b := CreateIn(a, kind, mix, asked).1; PatchesBounded(b) && PatchesDistinct(b)
  {
    IssueKeeps(a, NextAfter(a, asked));
    var i := FindIn(a.ins, mix);
    if i < |a.ins| && (asked == NONE || a.ins[i].patch == asked) {
      RecordIn(a, i, Routed(a.ins[i], kind, Recording(a, asked)), NextAfter(a, asked));
    }
  }

  lemma CreateOutKeeps(a: Audio, mix: nat, sinks: seq<Port>, asked: nat)
    requires PatchesBounded(a) && PatchesDistinct(a)
    requires sinks != [] && forall k | 0 <= k < |sinks| :: sinks[k].DevicePort?
    ensures var b := CreateOut(a, mix, sinks, asked).1; PatchesBounded(b) && PatchesDistinct(b)
  {
    IssueKeeps(a, NextAfter(a, asked));
    var i := FindOut(a.outs, mix);
    if i < |a.outs| && (asked == NONE || a.outs[i].patch == asked) {
      RecordOut(a, i, Rerouted(a.outs[i], sinks, Recording(a, asked)), NextAfter(a, asked));
    }
  }

  lemma CreateKeepsPatches(a: Audio, sources: seq<Port>, sinks: seq<Port>, asked: nat)
    requires PatchesBounded(a) && PatchesDistinct(a)
    ensures var b := CreatePatch(a, sources, sinks, asked).2; PatchesBounded(b) && PatchesDistinct(b)
  {
    if ValidPatch(sources, sinks) {
      if sources[0].DevicePort? {
        CreateInKeeps(a, sources[0].kind, sinks[0].mix, asked);
      } else {
        CreateOutKeeps(a, sources[0].mix, sinks, asked);
      }
    }
  }

  lemma ReleaseKeepsPatches(a: Audio, patch: nat)
    requires PatchesBounded(a) && PatchesDistinct(a)
    ensures var b := ReleasePatch(a, patch).1; PatchesBounded(b) && PatchesDistinct(b)
  {
    var i, j := FindOutPatch(a.outs, patch), FindInPatch(a.ins, patch);
    if i < |a.outs| {
      RecordOut(a, i, DetachedOut(a.outs[i]), a.nextPatch);
    } else if j < |a.ins| {
      RecordIn(a, j, DetachedIn(a.ins[j]), a.nextPatch);
    }
  }

  lemma QuietPatches(a: Audio, step: Step)
    requires Enabled(a, step) && (step.WriteOutput? || step.StandbyOutput? || step.FlushOutput? || step.ReadInput?)
    ensures SamePatches(a, Apply(a, step))
  {
    if step.WriteOutput? {
      WritePatches(OnCard(a.outs, step.at, step.keepsOpen), step.at, step.passthrough, step.open, step.ok);
    }
  }

  lemma OpenKeepsPatches(a: Audio, step: Step)
    requires PatchesBounded(a) && PatchesDistinct(a) && (step.OpenOutput? || step.OpenInput?)
    ensures PatchesBounded(Apply(a, step)) && PatchesDistinct(Apply(a, step))
  {
  }

  lemma StepKeepsPatches(a: Audio, step: Step)
    requires PatchesBounded(a) && PatchesDistinct(a) && Enabled(a, step)
    ensures PatchesBounded(Apply(a, step)) && PatchesDistinct(Apply(a, step))
  {
    match step
    case OpenOutput(_, _, _, _, _) => OpenKeepsPatches(a, step);
    case OpenInput(_, _) => OpenKeepsPatches(a, step);
    case CloseOutput(i) => WithoutOutPatches(a, i);
    case CloseInput(i) => WithoutInPatches(a, i);
    case Create(sources, sinks, patch) => CreateKeepsPatches(a, sources, sinks, patch);
    case Release(patch) => ReleaseKeepsPatches(a, patch);
    case _ =>
      QuietPatches(a, step);
      SamePatchesKeep(a, Apply(a, step));
  }

  lemma {:induction false} RunKeepsInv(a: Audio, steps: seq<Step>, b: Audio)
    requires Inv(a) && IsRun(a, steps, b)
    ensures Inv(b)
    decreases |steps|
  {
    if steps == [] {
    } else {
      StepKeepsOuts(a, steps[0]);
      StepKeepsPatches(a, steps[0]);
      RunKeepsInv(Apply(a, steps[0]), steps[1..], b);
    }
  }

  /**
   In every reachable state the arbitration holds, standby means closed, and patch handles are distinct and
   issued.
   */
  lemma InvHolds(a: Audio)
    requires Reachable(a)
    ensures Inv(a)
  {
    var steps :| IsRun(EMPTY, steps, a);
    RunKeepsInv(EMPTY, steps, a);
  }

  // ---------------------------------------------------------------- what the calls promise

  /**
   A direct stream that starts writing leaves no non-direct stream active on its device.  The others
   are put in standby even when its own start then fails; streams on other devices, and other direct
   ones, are not touched.
   */
  lemma DirectStreamWins(a: Audio, i: nat, passthrough: bool, open: Opening, ok: bool)
    requires Reachable(a) && i < |a.outs| && a.outs[i].direct && a.outs[i].standby
    ensures var w := Write(a.outs, i, passthrough, open, ok);
            && |w| == |a.outs|
            && (forall k | 0 <= k < |w| && !w[k].direct :: !Clashes(w[k], a.outs[i].device))
            && forall k | 0 <= k < |w| && k != i && (a.outs[k].direct || a.outs[k].device != a.outs[i].device) ::
                 w[k] == a.outs[k]
  {
    InvHolds(a);
    PreemptKeeps(a.outs, a.outs[i].device);
  }

  /** In standby no failure is counted, so that the first write does not give a stream up. */
  predicate CountsCleared(outs: seq<Out>) {
    forall i | 0 <= i < |outs| :: (outs[i].standby || outs[i].compress ==> outs[i].fails == 0) && NodesOk(outs[i])
  }

  lemma ClearedStart(outs: seq<Out>, i: nat, passthrough: bool, open: Opening)
    requires i < |outs| && outs[i].standby && CountsCleared(outs)
    ensures var (ret, s) := Start(outs, i, passthrough, open);
            && |s| == |outs| && s[i].fails == 0 && s[i].compress == outs[i].compress
            && (forall k | 0 <= k < |s| && k != i :: (s[k].standby || s[k].compress ==> s[k].fails == 0) && NodesOk(s[k]))
            && (ret == 0 ==> NodesOk(s[i].(standby := false))) && (ret != 0 ==> NodesOk(s[i]))
  {
  }

  lemma ClearedStep(a: Audio, step: Step)
    requires CountsCleared(a.outs) && Enabled(a, step)
    ensures CountsCleared(Apply(a, step).outs)
  {
    if step.WriteOutput? && a.outs[step.at].standby {
      ClearedStart(OnCard(a.outs, step.at, step.keepsOpen), step.at, step.passthrough, step.open);
    }
  }

  lemma {:induction false} ClearedRun(a: Audio, steps: seq<Step>, b: Audio)
    requires CountsCleared(a.outs) && IsRun(a, steps, b)
    ensures CountsCleared(b.outs)
    decreases |steps|
  {
    if steps == [] {
    } else {
      ClearedStep(a, steps[0]);
      ClearedRun(Apply(a, steps[0]), steps[1..], b);
    }
  }

  lemma StartsIff(outs: seq<Out>, i: nat, passthrough: bool, open: Opening)
    requires i < |outs| && outs[i].standby
    ensures var o := outs[i];
            Start(outs, i, passthrough, open).0 == 0 <==>
              && (open.Opens? || open.OpensNull?)
              && (o.direct || (!passthrough && (o.device == BUS ||
                    forall k | 0 <= k < |outs| :: !Active(outs[k]) || outs[k].device != o.device)))
  {
    if k :| 0 <= k < |outs| && Active(outs[k]) && outs[k].device == outs[i].device {
      assert Clashes(outs[k], outs[i].device);
    }
  }

  lemma WriteAfterStart(outs: seq<Out>, i: nat, passthrough: bool, open: Opening, ok: bool)
    requires i < |outs| && outs[i].standby && CountsCleared(outs)
    ensures var o, w := outs[i], Write(outs, i, passthrough, open, ok)[i];
            && (Active(w) <==> Start(outs, i, passthrough, open).0 == 0)
            && (Active(w) ==> w.pcm == (open.Opens? && !o.compress) && w.compr == (open.Opens? && o.compress))
            && (!Active(w) ==> !w.pcm && !w.compr) && w.keepsOpen == o.keepsOpen
  {
    ClearedStart(outs, i, passthrough, open);
  }

  /**
   A stream in standby that is written to becomes active, on the node of its kind, exactly when the node can
   be opened and nothing stands against it: a direct stream yields to nobody, another one to passthrough and,
   on a PCM device, to every active stream.
   */
  lemma WriteStartsIff(a: Audio, i: nat, passthrough: bool, open: Opening, ok: bool, keepsOpen: bool)
    requires Reachable(a) && i < |a.outs| && a.outs[i].standby
    ensures var o, w := a.outs[i], Apply(a, WriteOutput(i, passthrough, open, ok, keepsOpen)).outs[i];
            && (Active(w) <==>
                  && (open.Opens? || open.OpensNull?)
                  && (o.direct || (!passthrough && (o.device == BUS ||
                        forall k | 0 <= k < |a.outs| :: !Active(a.outs[k]) || a.outs[k].device != o.device))))
            && (Active(w) ==> w.pcm == (open.Opens? && !o.compress) && w.compr == (open.Opens? && o.compress))
            && (!Active(w) ==> !w.pcm && !w.compr) && w.keepsOpen == keepsOpen
  {
    var outs := OnCard(a.outs, i, keepsOpen);
    assert CountsCleared(outs) by {
      var steps :| IsRun(EMPTY, steps, a);
      ClearedRun(EMPTY, steps, a);
    }
    assert forall k | 0 <= k < |a.outs| :: Active(outs[k]) == Active(a.outs[k]) && outs[k].device == a.outs[k].device;
    StartsIff(outs, i, passthrough, open);
    WriteAfterStart(outs, i, passthrough, open, ok);
  }

  /** What start_output_stream returns: each status has its one cause. */
  lemma StartStatus(a: Audio, i: nat, passthrough: bool, open: Opening)
    requires Reachable(a) && i < |a.outs| && a.outs[i].standby
    ensures var ret, o := Start(a.outs, i, passthrough, open).0, a.outs[i];
            var refused := !o.direct && (passthrough || (o.device != BUS &&
                             exists k :: 0 <= k < |a.outs| && Active(a.outs[k]) && a.outs[k].device == o.device));
            && (ret == -EBUSY <==> refused)
            && (ret == -EINVAL <==> !refused && open == BadCard)
            && (ret == -EIO <==> !refused && open == NotReady)
            && (ret == 0 || ret in {-EBUSY, -EINVAL, -EIO})
  {
    if k :| 0 <= k < |a.outs| && Clashes(a.outs[k], a.outs[i].device) {
      assert Active(a.outs[k]) && a.outs[k].device == a.outs[i].device;
    }
    if k :| 0 <= k < |a.outs| && Active(a.outs[k]) && a.outs[k].device == a.outs[i].device {
      assert Clashes(a.outs[k], a.outs[i].device);
    }
  }

  /**
   A write to an active stream touches no other one.  On an open PCM a write that works clears its count of
   failures, and one that fails adds to it, up to the one that gives a primary output up.
   */
  lemma ActiveWriteCounts(a: Audio, i: nat, passthrough: bool, open: Opening, ok: bool, keepsOpen: bool)
    requires i < |a.outs| && Active(a.outs[i])
    ensures var o, b := a.outs[i], Apply(a, WriteOutput(i, passthrough, open, ok, keepsOpen));
            && b == a.(outs := a.outs[i := b.outs[i]])
            && (o.compress ==> b.outs[i] == o)
            && (!o.compress && o.pcm && ok ==> b.outs[i] == o.(fails := 0))
            && (!o.compress && o.pcm && !ok && !(o.primary && o.fails >= MAX_FAILS) ==>
                  b.outs[i] == o.(fails := o.fails + 1))
            && (!o.compress && o.pcm && !ok && o.primary && o.fails >= MAX_FAILS ==>
                  b.outs[i] == o.(standby := true, pcm := false, fails := 0))
  {
    assert a.outs[i := a.outs[i]] == a.outs;
  }

  /** A flush closes the node of a PCM stream and opens it again, or leaves it closed; nothing else changes. */
  lemma FlushReopensIff(a: Audio, i: nat, reopens: bool)
    requires Reachable(a) && i < |a.outs|
    ensures var b := Apply(a, FlushOutput(i, reopens));
            && b.outs[i].pcm == (a.outs[i].pcm && reopens) && b.outs[i].standby == a.outs[i].standby
            && b == a.(outs := a.outs[i := a.outs[i].(pcm := b.outs[i].pcm)])
  {
    InvHolds(a);
    assert NodesOk(a.outs[i]);
  }

  /** A standby call closes both nodes, unless the stream is kept open by its card. */
  lemma StandbyClosesIff(a: Audio, i: nat)
    requires Reachable(a) && i < |a.outs|
    ensures var o, w := a.outs[i], Apply(a, StandbyOutput(i)).outs[i];
            && (w.standby <==> o.standby || !o.keepsOpen)
            && (w.standby ==> !w.pcm && !w.compr && w.fails == 0)
            && (!w.standby ==> w == o)
  {
    InvHolds(a);
    assert NodesOk(a.outs[i]);
    var steps :| IsRun(EMPTY, steps, a);
    ClearedRun(EMPTY, steps, a);
  }

  /** A write of a non-direct stream that others do not notice. */
  predicate OthersWrite(a: Audio, i: nat, steps: seq<Step>) {
    forall step | step in steps ::
      step.WriteOutput? && step.at != i && step.at < |a.outs| && !a.outs[step.at].direct
  }

  /** What the stream at i and those waiting for its device look like: nothing has changed but their cards. */
  ghost predicate Holding(a: Audio, i: nat, b: Audio)
    requires i < |a.outs|
  {
    && |b.outs| == |a.outs| && b.outs[i] == a.outs[i]
    && (forall k | 0 <= k < |a.outs| :: b.outs[k].direct == a.outs[k].direct && b.outs[k].device == a.outs[k].device)
    && (forall k | 0 <= k < |a.outs| && k != i :: !Clashes(b.outs[k], a.outs[i].device))
  }

  /** A non-direct stream that writes changes no other stream, and a refused one not even itself. */
  lemma WriteChangesOne(outs: seq<Out>, i: nat, passthrough: bool, open: Opening, ok: bool)
    requires i < |outs| && !outs[i].direct
    ensures var w := Write(outs, i, passthrough, open, ok);
            && |w| == |outs| && (forall k | 0 <= k < |w| && k != i :: w[k] == outs[k])
            && !w[i].direct && w[i].device == outs[i].device
            && (outs[i].standby && Refused(outs, outs[i], passthrough) ==> w == outs)
  {
  }

  lemma WriteHolds(a: Audio, i: nat, b: Audio, step: Step)
    requires i < |a.outs| && Holding(a, i, b) && OthersWrite(a, i, [step])
    requires Active(a.outs[i]) && a.outs[i].device != BUS
    ensures Enabled(b, step) && Holding(a, i, Apply(b, step))
  {
    assert step in [step];
    var j := step.at;
    var outs := OnCard(b.outs, j, step.keepsOpen);
    WriteChangesOne(outs, j, step.passthrough, step.open, step.ok);
    if outs[j].device == a.outs[i].device {
      assert outs[j].standby;
      assert Clashes(outs[i], outs[j].device);
    }
  }

  lemma {:induction false} WritesHold(a: Audio, i: nat, b: Audio, steps: seq<Step>, c: Audio)
    requires i < |a.outs| && Holding(a, i, b) && OthersWrite(a, i, steps) && IsRun(b, steps, c)
    requires Active(a.outs[i]) && a.outs[i].device != BUS
    ensures Holding(a, i, c)
    decreases |steps|
  {
    if steps == [] {
    } else {
      WriteHolds(a, i, b, steps[0]);
      WritesHold(a, i, Apply(b, steps[0]), steps[1..], c);
    }
  }

  /**
   First come, first served: while a non-direct stream is active on a PCM device, whatever other non-direct
   streams write and however often, it is not disturbed and none of them becomes active on that device.
   */
  lemma HolderKeepsDevice(a: Audio, i: nat, steps: seq<Step>, b: Audio)
    requires Reachable(a) && i < |a.outs| && Active(a.outs[i]) && !a.outs[i].direct && a.outs[i].device != BUS
    requires OthersWrite(a, i, steps) && IsRun(a, steps, b)
    ensures |b.outs| == |a.outs| && b.outs[i] == a.outs[i]
    ensures forall k | 0 <= k < |b.outs| && k != i :: !Clashes(b.outs[k], b.outs[i].device)
  {
    InvHolds(a);
    assert Holding(a, i, a) by {
      forall k | 0 <= k < |a.outs| && k != i ensures !Clashes(a.outs[k], a.outs[i].device) {
      }
    }
    WritesHold(a, i, a, steps, b);
  }

  function WriteFailing(o: Out, times: nat): Out {
    if times == 0 then o else Written(WriteFailing(o, times - 1), false)
  }

  /** An active primary PCM stream goes to standby with the write after the hundredth consecutive failure, and not before. */
  lemma {:induction false} PrimaryGivesUp(o: Out, times: nat)
    requires Active(o) && o.primary && !o.compress && o.pcm && o.fails == 0 && times <= MAX_FAILS + 1
    ensures var w := WriteFailing(o, times);
            && (w.standby <==> times == MAX_FAILS + 1)
            && (times <= MAX_FAILS ==> w == o.(fails := times))
            && (w.standby ==> w == o.(standby := true, pcm := false))
  {
    if times == 0 {
    } else {
      PrimaryGivesUp(o, times - 1);
    }
  }

  /** Writes that end as the results say, up to the one that puts the stream in standby. */
  function WriteAll(o: Out, results: seq<bool>): Out
    decreases |results|
  {
    if results == [] || o.standby then o else WriteAll(Written(o, results[0]), results[1..])
  }

  /** A run of failures that, with those before it, is one too many. */
  predicate TooMany(fails: nat, results: seq<bool>) {
    || (fails + |results| > MAX_FAILS && forall k | 0 <= k <= MAX_FAILS - fails :: !results[k])
    || exists j :: 0 <= j < |results| && TooManyAt(results, j)
  }

  predicate TooManyAt(results: seq<bool>, j: nat) {
    j + MAX_FAILS < |results| && forall k | j <= k <= j + MAX_FAILS :: !results[k]
  }

  lemma TooManyStep(fails: nat, results: seq<bool>)
    requires fails <= MAX_FAILS && results != []
    ensures TooMany(fails, results)
            <==> if results[0] then TooMany(0, results[1..])
                 else fails == MAX_FAILS || TooMany(fails + 1, results[1..])
  {
    var rest := results[1..];
    if j :| 0 <= j < |results| && TooManyAt(results, j) {
      if j > 0 {
        assert TooManyAt(rest, j - 1);
      }
    }
    if j :| 0 <= j < |rest| && TooManyAt(rest, j) {
      assert TooManyAt(results, j + 1);
    }
    if !results[0] && fails < MAX_FAILS {
      if fails + 1 + |rest| > MAX_FAILS && forall k | 0 <= k <= MAX_FAILS - (fails + 1) :: !rest[k] {
        forall k | 0 <= k <= MAX_FAILS - fails ensures !results[k] {
          assert k == 0 || !rest[k - 1];
        }
      }
    }
    if results[0] && |rest| > MAX_FAILS && forall k | 0 <= k <= MAX_FAILS :: !rest[k] {
      assert TooManyAt(results, 1);
    }
  }

  /**
   A primary PCM stream with an open node is given up exactly when more than a hundred writes in a row have
   failed; one that works in between starts the count anew.
   */
  lemma {:induction false} GivesUpIff(o: Out, results: seq<bool>)
    requires Active(o) && o.primary && !o.compress && o.pcm && o.fails <= MAX_FAILS
    ensures WriteAll(o, results).standby <==> TooMany(o.fails, results)
    decreases |results|
  {
    if results == [] {
    } else {
      TooManyStep(o.fails, results);
      var w := Written(o, results[0]);
      if Active(w) {
        GivesUpIff(w, results[1..]);
      }
    }
  }

  predicate Recorded(a: Audio, patch: nat) {
    (exists k :: 0 <= k < |a.outs| && a.outs[k].patch == patch) || (exists k :: 0 <= k < |a.ins| && a.ins[k].patch == patch)
  }

  /** All streams but one are exactly as before. */
  predicate OneChanged(a: Audio, b: Audio, out: bool, i: nat) {
    && |b.outs| == |a.outs| && |b.ins| == |a.ins| && b.nextPatch == a.nextPatch
    && (forall k | 0 <= k < |a.outs| :: (out && k == i) || b.outs[k] == a.outs[k])
    && (forall k | 0 <= k < |a.ins| :: (!out && k == i) || b.ins[k] == a.ins[k])
  }

  /** Release succeeds iff some stream records the handle; then it detaches one such stream and touches no other. */
  lemma ReleaseDetachesOne(a: Audio, patch: nat) returns (out: bool, i: nat)
    ensures var (ret, b) := ReleasePatch(a, patch);
            && (ret == 0 <==> Recorded(a, patch)) && (ret != 0 ==> ret == -EINVAL && b == a)
            && (ret == 0 ==>
                  && OneChanged(a, b, out, i)
                  && (out ==> i < |a.outs| && a.outs[i].patch == patch && b.outs[i].patch == NONE
                              && b.outs[i].device == NONE && b.outs[i].standby && b.outs[i].numDevices == 0)
                  && (!out ==> i < |a.ins| && a.ins[i].patch == patch
                               && b.ins[i] == a.ins[i].(device := NONE, standby := true, patch := NONE)))
  {
    FoundOutPatch(a.outs, patch);
    FoundInPatch(a.ins, patch);
    out := FindOutPatch(a.outs, patch) < |a.outs|;
    i := if out then FindOutPatch(a.outs, patch) else FindInPatch(a.ins, patch);
  }

  /**
   In a reachable state a recorded handle other than NONE names one stream, so releasing it makes the handle
   unknown.
   */
  lemma ReleaseForgets(a: Audio, patch: nat)
    requires Reachable(a) && patch != NONE
    ensures !Recorded(ReleasePatch(a, patch).1, patch)
  {
    InvHolds(a);
    var out, i := ReleaseDetachesOne(a, patch);
    var b := ReleasePatch(a, patch).1;
    if ReleasePatch(a, patch).0 == 0 {
      forall k | 0 <= k < |b.outs| ensures b.outs[k].patch != patch {
        assert (out && k == i) || b.outs[k] == a.outs[k];
      }
      forall k | 0 <= k < |b.ins| ensures b.ins[k].patch != patch {
        assert (!out && k == i) || b.ins[k] == a.ins[k];
      }
    }
  }

  /** Releasing NONE is not refused: it detaches a stream exactly when one has no patch. */
  lemma ReleaseNoneIff(a: Audio)
    ensures ReleasePatch(a, NONE).0 == 0 <==>
              (exists k :: 0 <= k < |a.outs| && a.outs[k].patch == NONE) || (exists k :: 0 <= k < |a.ins| && a.ins[k].patch == NONE)
  {
    var out, i := ReleaseDetachesOne(a, NONE);
  }

  /** One primary output, opened and written to once; it was never patched. */
  const PLAYING := Audio([Out(13, 2, false, true, false, false, false, true, false, 0, NONE, 0)], [], NONE)

  lemma PlayingIsReachable()
    ensures Reachable(PLAYING)
  {
    var idle := Apply(EMPTY, OpenOutput(13, 2, false, true, false));
    var write := WriteOutput(0, false, Opens, true, false);
    assert idle.outs == [Out(13, 2, false, true, false, false, true, false, false, 0, NONE, 0)];
    assert Apply(idle, write).outs == PLAYING.outs;
    assert IsRun(PLAYING, [], PLAYING);
    assert [write][1..] == [];
    assert IsRun(idle, [write], PLAYING);
    var steps := [OpenOutput(13, 2, false, true, false), write];
    assert steps[1..] == [write];
    assert IsRun(EMPTY, steps, PLAYING);
  }

  /** It stops playback: this state is reachable, and the stream is put in standby without a device. */
  lemma ReleaseNoneStopsPlayback()
    ensures Reachable(PLAYING) && Active(PLAYING.outs[0])
    ensures ReleasePatch(PLAYING, NONE).0 == 0 && ReleasePatch(PLAYING, NONE).1.outs[0].standby
    ensures ReleasePatch(PLAYING, NONE).1.outs[0].device == NONE
  {
    PlayingIsReachable();
  }

  predicate HasOut(a: Audio, handle: nat) {
    exists k :: 0 <= k < |a.outs| && a.outs[k].handle == handle
  }

  predicate HasIn(a: Audio, handle: nat) {
    exists k :: 0 <= k < |a.ins| && a.ins[k].handle == handle
  }

  /** The stream a patch is about: an input is its sink, an output its source. */
  predicate NamesStream(a: Audio, sources: seq<Port>, sinks: seq<Port>)
    requires ValidPatch(sources, sinks)
  {
    if sources[0].DevicePort? then HasIn(a, sinks[0].mix) else HasOut(a, sources[0].mix)
  }

  /** And it records the handle already. */
  predicate NamesPatched(a: Audio, sources: seq<Port>, sinks: seq<Port>, handle: nat)
    requires ValidPatch(sources, sinks)
  {
    if sources[0].DevicePort? then
      var i := FindIn(a.ins, sinks[0].mix); i < |a.ins| && a.ins[i].patch == handle
    else
      var i := FindOut(a.outs, sources[0].mix); i < |a.outs| && a.outs[i].patch == handle
  }

  /** The state with the one stream named patched under the handle, and no other touched. */
  function Patched(a: Audio, sources: seq<Port>, sinks: seq<Port>, handle: nat): Audio
    requires ValidPatch(sources, sinks) && NamesStream(a, sources, sinks)
  {
    FoundIn(a.ins, if sources[0].DevicePort? then sinks[0].mix else 0);
    FoundOut(a.outs, if sources[0].DevicePort? then 0 else sources[0].mix);
    if sources[0].DevicePort? then
      var i := FindIn(a.ins, sinks[0].mix); a.(ins := a.ins[i := Routed(a.ins[i], sources[0].kind, handle)])
    else
      var i := FindOut(a.outs, sources[0].mix); a.(outs := a.outs[i := Rerouted(a.outs[i], sinks, handle)])
  }

  /**
   A valid call always returns 0.  Asked to make up a handle, it tells through the handle alone whether the
   stream exists: the handle stays NONE and only a number is used up, or the stream is patched under a new one.
   */
  lemma CreateTellsByHandle(a: Audio, sources: seq<Port>, sinks: seq<Port>)
    requires ValidPatch(sources, sinks)
    ensures var (ret, handle, b) := CreatePatch(a, sources, sinks, NONE);
            && ret == 0 && (handle != NONE <==> NamesStream(a, sources, sinks))
            && (handle == NONE ==> b == a.(nextPatch := a.nextPatch + 1))
            && (handle != NONE ==>
                  && handle == a.nextPatch + 1 && Recorded(b, handle)
                  && b == Patched(a, sources, sinks, handle).(nextPatch := handle))
  {
    var (ret, handle, b) := CreatePatch(a, sources, sinks, NONE);
    if sources[0].DevicePort? {
      FoundIn(a.ins, sinks[0].mix);
      var i := FindIn(a.ins, sinks[0].mix);
      assert i < |a.ins| ==> b.ins[i].patch == handle;
    } else {
      FoundOut(a.outs, sources[0].mix);
      var i := FindOut(a.outs, sources[0].mix);
      assert i < |a.outs| ==> b.outs[i].patch == handle;
    }
  }

  /**
   A call is refused, and changes nothing, exactly when it has not one source, no sink or more than 16, or does
   not join one device to one mix or one mix to devices only.
   */
  lemma CreateRefusedIff(a: Audio, sources: seq<Port>, sinks: seq<Port>, asked: nat)
    ensures var (ret, handle, b) := CreatePatch(a, sources, sinks, asked);
            && (ret == 0 || (ret == -EINVAL && handle == asked && b == a))
            && (ret == 0 <==>
                  && |sources| == 1 && 1 <= |sinks| <= 16
                  && ((sources[0].DevicePort? && |sinks| == 1 && sinks[0].MixPort?)
                      || (sources[0].MixPort? && forall p | p in sinks :: p.DevicePort?)))
  {
    if |sources| == 1 && sources[0].MixPort? && ValidPatch(sources, sinks) {
      forall p | p in sinks ensures p.DevicePort? {
        var k :| 0 <= k < |sinks| && sinks[k] == p;
      }
    }
  }

  lemma NamesPatchedStream(a: Audio, sources: seq<Port>, sinks: seq<Port>, handle: nat)
    requires ValidPatch(sources, sinks) && NamesPatched(a, sources, sinks, handle)
    ensures NamesStream(a, sources, sinks)
  {
    if sources[0].DevicePort? {
      FoundIn(a.ins, sinks[0].mix);
    } else {
      FoundOut(a.outs, sources[0].mix);
    }
  }

  /** Given a handle, it returns the same status and handle whether or not the stream exists and records it. */
  lemma CreateHidesMismatch(a: Audio, sources: seq<Port>, sinks: seq<Port>, asked: nat)
    requires ValidPatch(sources, sinks) && asked != NONE
    ensures var (ret, handle, b) := CreatePatch(a, sources, sinks, asked);
            && ret == 0 && handle == asked
            && (!NamesPatched(a, sources, sinks, asked) ==> b == a)
            && (NamesPatched(a, sources, sinks, asked) ==>
                  NamesStream(a, sources, sinks) && b == Patched(a, sources, sinks, asked))
  {
    if NamesPatched(a, sources, sinks, asked) {
      NamesPatchedStream(a, sources, sinks, asked);
    }
  }

  /** No stream records the number after the counter, in a reachable state. */
  lemma NextIsNew(a: Audio)
    requires Reachable(a)
    ensures !Recorded(a, a.nextPatch + 1)
  {
    InvHolds(a);
  }

  /** Create, then release what was returned: the one stream is detached and every other is as it was. */
  lemma CreateThenRelease(a: Audio, sources: seq<Port>, sinks: seq<Port>)
    requires Reachable(a) && ValidPatch(sources, sinks) && NamesStream(a, sources, sinks)
    ensures var (_, handle, b) := CreatePatch(a, sources, sinks, NONE);
            var (ret, c) := ReleasePatch(b, handle);
            && ret == 0
            && if sources[0].DevicePort? then
                 var i := FindIn(a.ins, sinks[0].mix);
                 && i < |a.ins| && c.outs == a.outs
                 && c.ins == a.ins[i := a.ins[i].(device := NONE, standby := true, patch := NONE)]
               else
                 var i := FindOut(a.outs, sources[0].mix);
                 && i < |a.outs| && c.ins == a.ins && |c.outs| == |a.outs|
                 && (forall k | 0 <= k < |a.outs| && k != i :: c.outs[k] == a.outs[k])
                 && c.outs[i].device == NONE && c.outs[i].patch == NONE && c.outs[i].standby
  {
    NextIsNew(a);
    var (_, handle, b) := CreatePatch(a, sources, sinks, NONE);
    if sources[0].DevicePort? {
      CreateInThenRelease(a, sources[0].kind, sinks[0].mix);
    } else {
      CreateOutThenRelease(a, sources[0].mix, sinks);
    }
  }

  lemma CreateOutThenRelease(a: Audio, mix: nat, sinks: seq<Port>)
    requires !Recorded(a, a.nextPatch + 1) && HasOut(a, mix)
    requires sinks != [] && forall k | 0 <= k < |sinks| :: sinks[k].DevicePort?
    ensures var (handle, b) := CreateOut(a, mix, sinks, NONE);
            var (ret, c) := ReleasePatch(b, handle);
            var i := FindOut(a.outs, mix);
            && ret == 0 && i < |a.outs| && c.ins == a.ins && |c.outs| == |a.outs|
            && (forall k | 0 <= k < |a.outs| && k != i :: c.outs[k] == a.outs[k])
            && c.outs[i].device == NONE && c.outs[i].patch == NONE && c.outs[i].standby
  {
    FoundOut(a.outs, mix);
    var (handle, b) := CreateOut(a, mix, sinks, NONE);
    var i := FindOut(a.outs, mix);
    FoundOutPatch(b.outs, handle);
    assert b.outs[i].patch == handle;
    assert FindOutPatch(b.outs, handle) == i;
  }

  lemma CreateInThenRelease(a: Audio, kind: Kind, mix: nat)
    requires !Recorded(a, a.nextPatch + 1) && HasIn(a, mix)
    ensures var (handle, b) := CreateIn(a, kind, mix, NONE);
            var (ret, c) := ReleasePatch(b, handle);
            var i := FindIn(a.ins, mix);
            && ret == 0 && i < |a.ins| && c.outs == a.outs
            && c.ins == a.ins[i := a.ins[i].(device := NONE, standby := true, patch := NONE)]
  {
    FoundIn(a.ins, mix);
    var (handle, b) := CreateIn(a, kind, mix, NONE);
    var i := FindIn(a.ins, mix);
    FoundOutPatch(b.outs, handle);
    FoundInPatch(b.ins, handle);
    assert b.ins[i].patch == handle;
    assert FindInPatch(b.ins, handle) == i;
  }

  /** Patching an output puts it on the first sink, and in standby if that is another device; the sinks are counted. */
  lemma OutputMovesIff(a: Audio, mix: nat, sinks: seq<Port>)
    requires ValidPatch([MixPort(mix)], sinks) && HasOut(a, mix)
    ensures var (ret, handle, b) := CreatePatch(a, [MixPort(mix)], sinks, NONE);
            var i := FindOut(a.outs, mix);
            && ret == 0 && i < |a.outs| == |b.outs| && b.outs[i].patch == handle == a.nextPatch + 1
            && b.outs[i].device == sinks[0].kind && b.outs[i].numDevices == |sinks|
            && (b.outs[i].standby <==> a.outs[i].standby || a.outs[i].device != sinks[0].kind)
  {
    FoundOut(a.outs, mix);
  }

  /** An input is opened in standby, on its device without the input bit; a read that starts it, and no other call, makes it active. */
  lemma InputsStartByReading(a: Audio, step: Step, i: nat)
    requires Enabled(a, step) && !step.CloseInput? && i < |Apply(a, step).ins|
    ensures var b := Apply(a, step);
            && (!b.ins[i].standby ==> i < |a.ins| && (!a.ins[i].standby || step == ReadInput(i, true)))
            && (i < |a.ins| && step == ReadInput(i, true) ==> b.ins[i] == a.ins[i].(standby := false))
            && (i >= |a.ins| ==> step.OpenInput? && i == |a.ins|
                                 && b.ins[i] == In(step.handle, Unmasked(step.kind), true, NONE))
  {
  }

  /** The device of an input never carries the input bit. */
  lemma {:induction false} InputsUnmasked(a: Audio, steps: seq<Step>, b: Audio)
    requires (forall k | 0 <= k < |a.ins| :: a.ins[k].device < BIT_IN) && IsRun(a, steps, b)
    ensures forall k | 0 <= k < |b.ins| :: b.ins[k].device < BIT_IN
    decreases |steps|
  {
    if steps == [] {
    } else {
      InputsUnmasked(Apply(a, steps[0]), steps[1..], b);
    }
  }

  lemma {:induction false} FoundIn(ins: seq<In>, handle: nat)
    ensures FindIn(ins, handle) <= |ins|
    ensures FindIn(ins, handle) < |ins| ==> ins[FindIn(ins, handle)].handle == handle
    ensures forall k | 0 <= k < FindIn(ins, handle) :: ins[k].handle != handle
  {
    if ins == [] {
    } else if ins[0].handle != handle {
      FoundIn(ins[1..], handle);
      forall k | 0 <= k < FindIn(ins, handle) ensures ins[k].handle != handle {
        if k > 0 {
          assert ins[k] == ins[1..][k - 1];
        }
      }
    }
  }

  /**
   The type of an input port carries AUDIO_DEVICE_BIT_IN and the device of an input never does, so a patch
   stops the input even when it is on that device already; only a type without the bit could leave it running.
   */
  lemma InputStopsIff(a: Audio, kind: Kind, mix: nat)
    requires Reachable(a) && exists k :: 0 <= k < |a.ins| && a.ins[k].handle == mix
    ensures var (ret, handle, b) := CreatePatch(a, [DevicePort(kind)], [MixPort(mix)], NONE);
            var i := FindIn(a.ins, mix);
            && ret == 0 && i < |a.ins| == |b.ins| && b.ins[i].patch == handle == a.nextPatch + 1
            && b.ins[i].device == Unmasked(kind)
            && (b.ins[i].standby <==> a.ins[i].standby || kind >= BIT_IN || a.ins[i].device != kind)
  {
    var steps :| IsRun(EMPTY, steps, a);
    InputsUnmasked(EMPTY, steps, a);
    FoundIn(a.ins, mix);
  }

  // ---------------------------------------------------------------- in place

  /** struct imx_audio_device with its two lists of streams. */
  class AudioDevice {
    var outs: seq<Out>
    var ins: seq<In>
    var nextPatch: nat

    ghost function View(): Audio
      reads this
    {
      Audio(outs, ins, nextPatch)
    }

    constructor ()
      ensures View() == EMPTY
    {
      outs, ins, nextPatch := [], [], NONE;
    }

    /** The first loop of start_output_stream. */
    method StandbyOthers(device: nat)
      modifies this`outs
      ensures outs == PreemptAll(old(outs), device)
    {
      var k := 0;
      while k < |outs|
        invariant 0 <= k <= |outs| == |old(outs)|
        invariant forall j | 0 <= j < |outs| :: outs[j] == if j < k then Preempted(old(outs)[j], device) else old(outs)[j]
      {
        if outs[k].device == device && !outs[k].direct && !outs[k].standby {
          outs := outs[k := PutInStandby(outs[k], true)];
        }
        k := k + 1;
      }
    }

    /** The second loop of start_output_stream. */
    method DeviceIsBusy(device: nat) returns (busy: bool)
      ensures busy <==> exists k :: 0 <= k < |outs| && Clashes(outs[k], device)
    {
      var k := 0;
      while k < |outs|
        invariant 0 <= k <= |outs| && forall j | 0 <= j < k :: !Clashes(outs[j], device)
      {
        if outs[k].device == device && !outs[k].standby {
          return true;
        }
        k := k + 1;
      }
      busy := false;
    }

    method StartOutputStream(i: nat, passthrough: bool, open: Opening) returns (ret: int)
      requires i < |outs|
      modifies this`outs
      ensures (ret, outs) == Start(old(outs), i, passthrough, open)
    {
      var o := outs[i];
      if o.direct {
        StandbyOthers(o.device);
      } else if o.device != BUS {
        var busy := DeviceIsBusy(o.device);
        if busy {
          return -EBUSY;
        }
      }
      if passthrough && !o.direct {
        return -EBUSY;
      }
      if open.BadCard? {
        return -EINVAL;
      }
      if o.compress {
        outs := outs[i := outs[i].(pcm := false, compr := open.Opens?)];
      } else {
        outs := outs[i := outs[i].(pcm := open.Opens?)];
      }
      ret := if open.NotReady? then -EIO else 0;
    }

    /** The tail of out_write. */
    method CountFailures(i: nat, ok: bool)
      requires i < |outs|
      modifies this`outs
      ensures outs == old(outs)[i := Written(old(outs)[i], ok)]
    {
      var o := outs[i];
      if o.compress {
        return;
      }
      if o.pcm {
        o := o.(fails := if ok then 0 else o.fails + 1);
      }
      if o.primary && o.fails > MAX_FAILS {
        o := PutInStandby(o, true);
      }
      outs := outs[i := o];
    }

    method OutWrite(i: nat, passthrough: bool, open: Opening, ok: bool, keepsOpen: bool)
      requires i < |outs|
      modifies this`outs
      ensures outs == Write(OnCard(old(outs), i, keepsOpen), i, passthrough, open, ok)
    {
      if outs[i].standby {
        outs := outs[i := outs[i].(keepsOpen := keepsOpen)];
        var ret := StartOutputStream(i, passthrough, open);
        if ret != 0 {
          return;
        }
        outs := outs[i := outs[i].(standby := false)];
      }
      CountFailures(i, ok);
    }

    method OutFlush(i: nat, reopens: bool)
      requires i < |outs|
      modifies this`outs
      ensures outs == old(outs)[i := Flushed(old(outs)[i], reopens)]
    {
      if !outs[i].compress && outs[i].pcm {
        outs := outs[i := outs[i].(pcm := false)];
        if reopens {
          outs := outs[i := outs[i].(pcm := true, standby := false)];
        }
      }
    }

    method StreamOutByHandle(handle: nat) returns (i: nat)
      ensures i == FindOut(outs, handle)
    {
      i := 0;
      while i < |outs|
        invariant 0 <= i <= |outs| && FindOut(outs, handle) == i + FindOut(outs[i..], handle)
      {
        if outs[i].handle == handle {
          return;
        }
        i := i + 1;
      }
    }

    method StreamInByHandle(handle: nat) returns (i: nat)
      ensures i == FindIn(ins, handle)
    {
      i := 0;
      while i < |ins|
        invariant 0 <= i <= |ins| && FindIn(ins, handle) == i + FindIn(ins[i..], handle)
      {
        if ins[i].handle == handle {
          return;
        }
        i := i + 1;
      }
    }

    method StreamOutByPatch(patch: nat) returns (i: nat)
      ensures i == FindOutPatch(outs, patch)
    {
      i := 0;
      while i < |outs|
        invariant 0 <= i <= |outs| && FindOutPatch(outs, patch) == i + FindOutPatch(outs[i..], patch)
      {
        if outs[i].patch == patch {
          return;
        }
        i := i + 1;
      }
    }

    method StreamInByPatch(patch: nat) returns (i: nat)
      ensures i == FindInPatch(ins, patch)
    {
      i := 0;
      while i < |ins|
        invariant 0 <= i <= |ins| && FindInPatch(ins, patch) == i + FindInPatch(ins[i..], patch)
      {
        if ins[i].patch == patch {
          return;
        }
        i := i + 1;
      }
    }

    /** The handle that a patch will record; a new one is taken from the counter. */
    method TakeHandle(asked: nat) returns (handle: nat)
      modifies this`nextPatch
      ensures handle == Recording(old(View()), asked) && nextPatch == NextAfter(old(View()), asked)
    {
      handle := asked;
      if handle == NONE {
        nextPatch := nextPatch + 1;
        handle := nextPatch;
      }
    }

    /** Device to mix. */
    method PatchInput(kind: Kind, mix: nat, asked: nat) returns (handle: nat)
      modifies this`ins, this`nextPatch
      ensures (handle, View()) == CreateIn(old(View()), kind, mix, asked)
    {
      handle := TakeHandle(asked);
      var i := StreamInByHandle(mix);
      if i >= |ins| || (asked != NONE && ins[i].patch != handle) {
        return asked;
      }
      var r := ins[i];
      if r.device != kind {
        r := r.(device := Unmasked(kind), standby := true);
      }
      ins := ins[i := r.(patch := handle)];
    }

    method Reroute(i: nat, sinks: seq<Port>, handle: nat)
      requires i < |outs| && sinks != [] && forall k | 0 <= k < |sinks| :: sinks[k].DevicePort?
      modifies this`outs
      ensures outs == old(outs)[i := Rerouted(old(outs)[i], sinks, handle)]
    {
      var o := outs[i].(numDevices := |sinks|);
      if o.device != sinks[0].kind {
        o := PutInStandby(o.(device := sinks[0].kind), true);
      }
      outs := outs[i := o.(patch := handle)];
    }

    /** Mix to devices. */
    method PatchOutput(mix: nat, sinks: seq<Port>, asked: nat) returns (handle: nat)
      requires sinks != [] && forall k | 0 <= k < |sinks| :: sinks[k].DevicePort?
      modifies this`outs, this`nextPatch
      ensures (handle, View()) == CreateOut(old(View()), mix, sinks, asked)
    {
      handle := TakeHandle(asked);
      var i := StreamOutByHandle(mix);
      if i >= |outs| || (asked != NONE && outs[i].patch != handle) {
        return asked;
      }
      Reroute(i, sinks, handle);
    }

    method CreateAudioPatch(sources: seq<Port>, sinks: seq<Port>, asked: nat) returns (ret: int, handle: nat)
      modifies this
      ensures (ret, handle, View()) == CreatePatch(old(View()), sources, sinks, asked)
    {
      if !ValidPatch(sources, sinks) {
        return -EINVAL, asked;
      }
      if sources[0].DevicePort? {
        handle := PatchInput(sources[0].kind, sinks[0].mix, asked);
      } else {
        handle := PatchOutput(sources[0].mix, sinks, asked);
      }
      ret := 0;
    }

    method ReleaseAudioPatch(patch: nat) returns (ret: int)
      modifies this
      ensures (ret, View()) == ReleasePatch(old(View()), patch)
    {
      var i := StreamOutByPatch(patch);
      if i < |outs| {
        var o := PutInStandby(outs[i].(numDevices := 0, device := NONE), true);
        outs := outs[i := o.(patch := NONE)];
        return 0;
      }
      var j := StreamInByPatch(patch);
      if j < |ins| {
        ins := ins[j := ins[j].(device := NONE, standby := true, patch := NONE)];
        return 0;
      }
      ret := -EINVAL;
    }
  }
}
