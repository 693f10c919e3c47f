/**
 ISPWrapper: the cached dewarp and colour-processing settings, writes skipped when the cache says
 they change nothing, roll-back after a refused write, and replay after the driver was reset.
 Every driver call may be refused; a refused call changes nothing.
 */
module IspWrapper {

  import opened Common

  const MAT_SIZE: nat := 17
  const LENS_CORRECTION: int := 1
  const FISHEYE_DEWARP: int := 8
  const BAD_VALUE: int := -22

  const BRIGHTNESS_MAX: int := 127
  const HUE_MAX: int := 127
  const CONTRAST_MAX: real := 1.99
  const SATURATION_MAX: real := 1.99

  datatype Dewarp = Dewarp(mode: int, hflip: bool, vflip: bool, bypass: bool, mat: seq<real>)

  /** Configuration of the colour processing block, read and written as a whole. */
  datatype Colour = Colour(brightness: int, contrast: real, saturation: real, hue: int)

  /** The settings the driver last accepted. */
  datatype Device = Device(dewarp: Dewarp, colour: Colour)

  datatype Isp = Isp(
    dwePara: Dewarp, dweParaLast: Dewarp, dweOn: bool,
    brightness: int, contrast: real, saturation: real, hue: int, device: Device)

  /** How the two calls of a colour write end: IF_CPROC_G_CFG, IF_CPROC_S_CFG. */
  datatype Answers = Answers(get: bool, put: bool)

  const ACCEPT := Answers(true, true)

  /** What memset leaves: mode 0 is none of the modes that processDewarp sets. */
  const ZERO_DEWARP := Dewarp(0, false, false, false, Zeroes(MAT_SIZE))

  function Zeroes(n: nat): (r: seq<real>)
    ensures |r| == n && forall x :: x in r ==> x == 0.0
  {
    if n == 0 then [] else Zeroes(n - 1) + [0.0]
  }

  /** The wrapper as constructed, before the driver was asked for anything. */
  function Constructed(device: Device): Isp {
    Isp(ZERO_DEWARP.(mode := LENS_CORRECTION), ZERO_DEWARP, true,
        BRIGHTNESS_MAX + 1, CONTRAST_MAX + 1.0, SATURATION_MAX + 1.0, HUE_MAX + 1, device)
  }

  /** The start of a stream reads the dewarp parameters; when that fails they stay as they are. */
  function ReadDewarp(s: Isp, ok: bool): Isp {
    if ok then s.(dwePara := s.device.dewarp) else s
  }

  /** After the first start. */
  function Opened(device: Device): Isp {
    ReadDewarp(Constructed(device), true)
  }

  // ---------------------------------------------------------------- dewarp

  /** setDewarpParams with new parameters, undone in the cache if refused. */
  function SetDewarp(s: Isp, para: Dewarp, accepts: bool): (int, Isp) {
    if accepts then (0, s.(dwePara := para, device := s.device.(dewarp := para))) else (BAD_VALUE, s)
  }

  /** force, which the dewarp calls of the source do not have, stands for always writing. */
  function WriteDewarp(s: Isp, enable: bool, force: bool, accepts: bool): (int, Isp) {
    var mode := if enable then FISHEYE_DEWARP else LENS_CORRECTION;
    if !force && s.dwePara.mode == mode then (0, s) else SetDewarp(s, s.dwePara.(mode := mode), accepts)
  }

  function WriteHFlip(s: Isp, enable: bool, force: bool, accepts: bool): (int, Isp) {
    if !force && s.dwePara.hflip == enable then (0, s) else SetDewarp(s, s.dwePara.(hflip := enable), accepts)
  }

  function WriteVFlip(s: Isp, enable: bool, force: bool, accepts: bool): (int, Isp) {
    if !force && s.dwePara.vflip == enable then (0, s) else SetDewarp(s, s.dwePara.(vflip := enable), accepts)
  }

  // ---------------------------------------------------------------- colour processing

  function WriteBrightness(s: Isp, v: int, force: bool, a: Answers): (int, Isp) {
    if v < -BRIGHTNESS_MAX || v > BRIGHTNESS_MAX then (BAD_VALUE, s)
    else if !force && v == s.brightness then (0, s)
    else if !a.get || !a.put then (BAD_VALUE, s)
    else (0, s.(brightness := v, device := s.device.(colour := s.device.colour.(brightness := v))))
  }

  function WriteContrast(s: Isp, v: real, force: bool, a: Answers): (int, Isp) {
    if v < 0.0 || v > CONTRAST_MAX then (BAD_VALUE, s)
    else if !force && v == s.contrast then (0, s)
    else if !a.get || !a.put then (BAD_VALUE, s)
    else (0, s.(contrast := v, device := s.device.(colour := s.device.colour.(contrast := v))))
  }

  function WriteSaturation(s: Isp, v: real, force: bool, a: Answers): (int, Isp) {
    if v < 0.0 || v > SATURATION_MAX then (BAD_VALUE, s)
    else if !force && v == s.saturation then (0, s)
    else if !a.get || !a.put then (BAD_VALUE, s)
    else (0, s.(saturation := v, device := s.device.(colour := s.device.colour.(saturation := v))))
  }

  function WriteHue(s: Isp, v: int, force: bool, a: Answers): (int, Isp) {
    if v < -HUE_MAX || v > HUE_MAX then (BAD_VALUE, s)
    else if !force && v == s.hue then (0, s)
    else if !a.get || !a.put then (BAD_VALUE, s)
    else (0, s.(hue := v, device := s.device.(colour := s.device.colour.(hue := v))))
  }

  // ---------------------------------------------------------------- coherence

  predicate DewarpCoherent(s: Isp) {
    s.dwePara == s.device.dewarp
  }

  predicate BrightnessCoherent(s: Isp) {
    s.brightness == BRIGHTNESS_MAX + 1 || s.brightness == s.device.colour.brightness
  }

  predicate ContrastCoherent(s: Isp) {
    s.contrast == CONTRAST_MAX + 1.0 || s.contrast == s.device.colour.contrast
  }

  predicate SaturationCoherent(s: Isp) {
    s.saturation == SATURATION_MAX + 1.0 || s.saturation == s.device.colour.saturation
  }

  predicate HueCoherent(s: Isp) {
    s.hue == HUE_MAX + 1 || s.hue == s.device.colour.hue
  }

  /** Every cached value is the sentinel or what the driver holds. */
  predicate Coherent(s: Isp) {
    DewarpCoherent(s) && BrightnessCoherent(s) && ContrastCoherent(s) && SaturationCoherent(s) && HueCoherent(s)
  }

  /** Cached values are sentinels or legal. */
  predicate Legal(s: Isp) {
    && (s.brightness == BRIGHTNESS_MAX + 1 || -BRIGHTNESS_MAX <= s.brightness <= BRIGHTNESS_MAX)
    && (s.contrast == CONTRAST_MAX + 1.0 || 0.0 <= s.contrast <= CONTRAST_MAX)
    && (s.saturation == SATURATION_MAX + 1.0 || 0.0 <= s.saturation <= SATURATION_MAX)
    && (s.hue == HUE_MAX + 1 || -HUE_MAX <= s.hue <= HUE_MAX)
  }

  datatype Op =
    | SetFisheye(on: bool)
    | SetHFlip(on: bool)
    | SetVFlip(on: bool)
    | SetBrightness(level: int)
    | SetContrast(factor: real)
    | SetSaturation(factor: real)
    | SetHue(level: int)

  /** Dewarp writes use only the second answer. */
  function Process(s: Isp, op: Op, force: bool, a: Answers): (int, Isp) {
    match op
    case SetFisheye(on) => WriteDewarp(s, on, force, a.put)
    case SetHFlip(on) => WriteHFlip(s, on, force, a.put)
    case SetVFlip(on) => WriteVFlip(s, on, force, a.put)
    case SetBrightness(v) => WriteBrightness(s, v, force, a)
    case SetContrast(v) => WriteContrast(s, v, force, a)
    case SetSaturation(v) => WriteSaturation(s, v, force, a)
    case SetHue(v) => WriteHue(s, v, force, a)
  }

  /** A request, with what the driver will say to it. */
  datatype Request = Request(op: Op, force: bool, answers: Answers)

  function ProcessAll(s: Isp, requests: seq<Request>): Isp
    decreases |requests|
  {
    if requests == [] then s
    else ProcessAll(Process(s, requests[0].op, requests[0].force, requests[0].answers).1, requests[1..])
  }

  lemma {:induction false} ProcessAllSnoc(s: Isp, requests: seq<Request>, r: Request)
    ensures ProcessAll(s, requests + [r]) == Process(ProcessAll(s, requests), r.op, r.force, r.answers).1
    decreases |requests|
  {
    if requests == [] {
      assert requests + [r] == [r];
    } else {
      assert (requests + [r])[1..] == requests[1..] + [r];
      ProcessAllSnoc(Process(s, requests[0].op, requests[0].force, requests[0].answers).1, requests[1..], r);
    }
  }

  /** The settings that one capture request may carry. */
  datatype Meta = Meta(
    dewarp: Option<bool>, hflip: Option<bool>, vflip: Option<bool>, brightness: Option<int>,
    contrast: Option<real>, saturation: Option<real>, hue: Option<int>)

  /** A request as process makes it, never forced. */
  function Plain(op: Op, driver: Op -> Answers): Request {
    Request(op, false, driver(op))
  }

  /** What a request asks of the dewarp unit, in the order of the source. */
  function DewarpRequests(m: Meta, driver: Op -> Answers): seq<Request> {
    var first := if m.dewarp.Some? then [Plain(SetFisheye(m.dewarp.value), driver)] else [];
    var second := if m.hflip.Some? then first + [Plain(SetHFlip(m.hflip.value), driver)] else first;
    if m.vflip.Some? then second + [Plain(SetVFlip(m.vflip.value), driver)] else second
  }

  /** And of the colour processing block after it. */
  function Requests(m: Meta, driver: Op -> Answers): seq<Request> {
    var first := DewarpRequests(m, driver);
    var second := if m.brightness.Some? then first + [Plain(SetBrightness(m.brightness.value), driver)] else first;
    var third := if m.contrast.Some? then second + [Plain(SetContrast(m.contrast.value), driver)] else second;
    var fourth := if m.saturation.Some? then third + [Plain(SetSaturation(m.saturation.value), driver)] else third;
    if m.hue.Some? then fourth + [Plain(SetHue(m.hue.value), driver)] else fourth
  }

  /** The settings that the request carries, each with its own value. */
  predicate Carries(m: Meta, op: Op) {
    match op
    case SetFisheye(on) => m.dewarp == Some(on)
    case SetHFlip(on) => m.hflip == Some(on)
    case SetVFlip(on) => m.vflip == Some(on)
    case SetBrightness(v) => m.brightness == Some(v)
    case SetContrast(v) => m.contrast == Some(v)
    case SetSaturation(v) => m.saturation == Some(v)
    case SetHue(v) => m.hue == Some(v)
  }

  lemma DewarpRequestsIff(m: Meta, driver: Op -> Answers, r: Request)
    ensures r in DewarpRequests(m, driver) <==>
              Carries(m, r.op) && !r.force && r.answers == driver(r.op) && (r.op.SetFisheye? || r.op.SetHFlip? || r.op.SetVFlip?)
  {
  }

  /** Exactly these are processed, never forced, and with what the driver says to each of them. */
  lemma RequestsIff(m: Meta, driver: Op -> Answers, r: Request)
    ensures r in Requests(m, driver) <==> Carries(m, r.op) && !r.force && r.answers == driver(r.op)
  {
    DewarpRequestsIff(m, driver, r);
  }

  lemma OneStaysCoherent(s: Isp, op: Op, force: bool, a: Answers)
    requires Coherent(s) && Legal(s)
    ensures Coherent(Process(s, op, force, a).1) && Legal(Process(s, op, force, a).1)
  {
  }

  /** Whatever requests come and whichever calls the driver refuses, the caches stay coherent and legal. */
  lemma {:induction false} CachesStayCoherent(s: Isp, requests: seq<Request>)
    requires Coherent(s) && Legal(s)
    ensures Coherent(ProcessAll(s, requests)) && Legal(ProcessAll(s, requests))
    decreases |requests|
  {
    if requests == [] {
    } else {
      OneStaysCoherent(s, requests[0].op, requests[0].force, requests[0].answers);
      CachesStayCoherent(Process(s, requests[0].op, requests[0].force, requests[0].answers).1, requests[1..]);
    }
  }

  /** The driver's settings after a legal write of one field, all others untouched. */
  function Intended(d: Device, op: Op): Device {
    match op
    case SetFisheye(on) => d.(dewarp := d.dewarp.(mode := if on then FISHEYE_DEWARP else LENS_CORRECTION))
    case SetHFlip(on) => d.(dewarp := d.dewarp.(hflip := on))
    case SetVFlip(on) => d.(dewarp := d.dewarp.(vflip := on))
    case SetBrightness(v) => d.(colour := d.colour.(brightness := v))
    case SetContrast(v) => d.(colour := d.colour.(contrast := v))
    case SetSaturation(v) => d.(colour := d.colour.(saturation := v))
    case SetHue(v) => d.(colour := d.colour.(hue := v))
  }

  /** The values that a setting may have. */
  predicate Allowed(op: Op) {
    match op
    case SetBrightness(v) => -BRIGHTNESS_MAX <= v <= BRIGHTNESS_MAX
    case SetContrast(v) => 0.0 <= v <= CONTRAST_MAX
    case SetSaturation(v) => 0.0 <= v <= SATURATION_MAX
    case SetHue(v) => -HUE_MAX <= v <= HUE_MAX
    case _ => true
  }

  /** The cache says that the driver has the value already. */
  predicate Remembered(s: Isp, op: Op) {
    match op
    case SetFisheye(on) => s.dwePara.mode == if on then FISHEYE_DEWARP else LENS_CORRECTION
    case SetHFlip(on) => s.dwePara.hflip == on
    case SetVFlip(on) => s.dwePara.vflip == on
    case SetBrightness(v) => s.brightness == v
    case SetContrast(v) => s.contrast == v
    case SetSaturation(v) => s.saturation == v
    case SetHue(v) => s.hue == v
  }

  /** The driver accepts the calls that writing the setting takes. */
  predicate Accepts(a: Answers, op: Op) {
    a.put && (a.get || op.SetFisheye? || op.SetHFlip? || op.SetVFlip?)
  }

  /**
   A request ends with 0 exactly when the value is allowed and the driver has it already, as far as the
   cache knows and is asked, or accepts it.  Then exactly the intended setting has the new value; otherwise
   the answer is BAD_VALUE and nothing has changed at all.
   */
  lemma SuccessIsIntended(s: Isp, op: Op, force: bool, a: Answers)
    requires Coherent(s) && Legal(s)
    ensures var (ret, t) := Process(s, op, force, a);
            && (ret == 0 <==> Allowed(op) && ((!force && Remembered(s, op)) || Accepts(a, op)))
            && (ret == 0 ==> t.device == Intended(s.device, op) && Remembered(t, op))
            && (ret != 0 ==> ret == BAD_VALUE && t == s)
  {
  }

  function Accepted(ops: seq<Op>, force: bool): seq<Request> {
    seq(|ops|, i requires 0 <= i < |ops| => Request(ops[i], force, ACCEPT))
  }

  /** Skipping writes that the cache calls redundant leaves the driver exactly where writing always would. */
  lemma {:induction false} SkippingRefinesWriting(s: Isp, t: Isp, ops: seq<Op>)
    requires Coherent(s) && Legal(s) && Coherent(t) && Legal(t) && s.device == t.device
    ensures ProcessAll(s, Accepted(ops, false)).device == ProcessAll(t, Accepted(ops, true)).device
    decreases |ops|
  {
    if ops == [] {
    } else {
      SameIntention(s, t, ops[0]);
      OneStaysCoherent(s, ops[0], false, ACCEPT);
      OneStaysCoherent(t, ops[0], true, ACCEPT);
      SkippingRefinesWriting(Process(s, ops[0], false, ACCEPT).1, Process(t, ops[0], true, ACCEPT).1, ops[1..]);
      assert Accepted(ops, false)[1..] == Accepted(ops[1..], false);
      assert Accepted(ops, true)[1..] == Accepted(ops[1..], true);
    }
  }

  lemma SameIntention(s: Isp, t: Isp, op: Op)
    requires Coherent(s) && Legal(s) && Coherent(t) && Legal(t) && s.device == t.device
    ensures Process(s, op, false, ACCEPT).1.device == Process(t, op, true, ACCEPT).1.device
  {
    SuccessIsIntended(s, op, false, ACCEPT);
    SuccessIsIntended(t, op, true, ACCEPT);
  }

  // ---------------------------------------------------------------- what the colour caches remember

  datatype Field = Brightness | Contrast | Saturation | Hue

  function Of(c: Colour, f: Field): real {
    match f
    case Brightness => c.brightness as real
    case Contrast => c.contrast
    case Saturation => c.saturation
    case Hue => c.hue as real
  }

  function Cache(s: Isp, f: Field): real {
    Of(Colour(s.brightness, s.contrast, s.saturation, s.hue), f)
  }

  const UNSET := Colour(BRIGHTNESS_MAX + 1, CONTRAST_MAX + 1.0, SATURATION_MAX + 1.0, HUE_MAX + 1)

  /** The value that a request gives to a colour setting, if it is about that one. */
  function Asked(op: Op, f: Field): Option<real> {
    match op
    case SetBrightness(v) => if f.Brightness? then Some(v as real) else None
    case SetContrast(v) => if f.Contrast? then Some(v) else None
    case SetSaturation(v) => if f.Saturation? then Some(v) else None
    case SetHue(v) => if f.Hue? then Some(v as real) else None
    case _ => None
  }

  /** The value of the last request about f that ended with 0. */
  function LastAccepted(s: Isp, requests: seq<Request>, f: Field): Option<real>
    decreases |requests|
  {
    if requests == [] then None
    else
      var (ret, t) := Process(s, requests[0].op, requests[0].force, requests[0].answers);
      var later := LastAccepted(t, requests[1..], f);
      if later.Some? then later else if ret == 0 then Asked(requests[0].op, f) else None
  }

  /** Each colour cache holds the last value accepted for it, and it is a legal one. */
  lemma {:induction false} CacheIsLastAccepted(s: Isp, requests: seq<Request>, f: Field)
    ensures var last := LastAccepted(s, requests, f);
            && Cache(ProcessAll(s, requests), f) == (if last.Some? then last.value else Cache(s, f))
            && (last.Some? ==> last.value != Of(UNSET, f))
    decreases |requests|
  {
    if requests == [] {
    } else {
      var t := Process(s, requests[0].op, requests[0].force, requests[0].answers).1;
      CacheIsLastAccepted(t, requests[1..], f);
    }
  }

  // ---------------------------------------------------------------- save, reset, recover

  /** getLatestFeatures at the stop; then the driver falls back to its defaults. */
  function Reset(s: Isp, defaults: Device): Isp {
    s.(dweParaLast := s.dwePara, device := defaults)
  }

  /** The next start reads the dewarp defaults. */
  function Restarted(s: Isp, defaults: Device): Isp {
    ReadDewarp(Reset(s, defaults), true)
  }

  predicate NeedsDewarp(s: Isp) {
    s.dweOn && (s.dwePara.mode != s.dweParaLast.mode || s.dwePara.hflip != s.dweParaLast.hflip
                || s.dwePara.vflip != s.dweParaLast.vflip || s.dwePara.bypass != s.dweParaLast.bypass)
  }

  /** The first part of recoverFeatures: the cache is changed first, and a refusal is not looked at. */
  function RecoverDewarp(s: Isp, accepts: bool): Isp {
    if !NeedsDewarp(s) then s
    else
      var para := s.dweParaLast.(mat := s.dwePara.mat);
      s.(dwePara := para, device := if accepts then s.device.(dewarp := para) else s.device)
  }

  datatype Replies = Replies(dewarp: bool, brightness: Answers, contrast: Answers, saturation: Answers, hue: Answers)

  const ALL_ACCEPTED := Replies(true, ACCEPT, ACCEPT, ACCEPT, ACCEPT)

  /** The replay of one colour setting. */
  function ReplayBrightness(s: Isp, a: Answers): Isp {
    if s.brightness != BRIGHTNESS_MAX + 1 then WriteBrightness(s, s.brightness, true, a).1 else s
  }

  function ReplayContrast(s: Isp, a: Answers): Isp {
    if s.contrast != CONTRAST_MAX + 1.0 then WriteContrast(s, s.contrast, true, a).1 else s
  }

  function ReplaySaturation(s: Isp, a: Answers): Isp {
    if s.saturation != SATURATION_MAX + 1.0 then WriteSaturation(s, s.saturation, true, a).1 else s
  }

  function ReplayHue(s: Isp, a: Answers): Isp {
    if s.hue != HUE_MAX + 1 then WriteHue(s, s.hue, true, a).1 else s
  }

  /** recoverFeatures, for the dewarp and colour settings. */
  function Recover(s: Isp, r: Replies): Isp {
    ReplayHue(ReplaySaturation(ReplayContrast(ReplayBrightness(RecoverDewarp(s, r.dewarp), r.brightness), r.contrast),
                               r.saturation), r.hue)
  }

  /**
   Save, reset and recovery.  The dewarp settings that had been accepted are back, over the new default camera
   matrix, iff the dewarp unit is on, which a raw capture undoes, and the driver accepts them, or they are the
   defaults anyway; each colour setting that had been set is back if its replay is accepted.
   */
  lemma RecoverRestores(s: Isp, defaults: Device, r: Replies)
    requires Coherent(s) && Legal(s)
    ensures var t, kept := Recover(Restarted(s, defaults), r), s.device.dewarp.(mat := defaults.dewarp.mat);
            && (t.device.dewarp == kept <==> (s.dweOn && r.dewarp) || kept == defaults.dewarp)
            && (s.brightness != BRIGHTNESS_MAX + 1 && r.brightness == ACCEPT ==>
                  t.device.colour.brightness == s.device.colour.brightness)
            && (s.contrast != CONTRAST_MAX + 1.0 && r.contrast == ACCEPT ==>
                  t.device.colour.contrast == s.device.colour.contrast)
            && (s.saturation != SATURATION_MAX + 1.0 && r.saturation == ACCEPT ==>
                  t.device.colour.saturation == s.device.colour.saturation)
            && (s.hue != HUE_MAX + 1 && r.hue == ACCEPT ==> t.device.colour.hue == s.device.colour.hue)
            && (r == ALL_ACCEPTED ==> Coherent(t))
  {
    RecoverKeepsDewarp(Restarted(s, defaults), r);
    RecoverColours(Restarted(s, defaults), r);
    RecoverColourIff(s, defaults, r);
    RecoverDewarpIff(Restarted(s, defaults), r);
  }

  /** The ignored refusal: afterwards the dewarp cache is wrong exactly when a write was needed and refused. */
  lemma RecoverDewarpIff(s: Isp, r: Replies)
    requires DewarpCoherent(s)
    ensures DewarpCoherent(Recover(s, r)) <==> !NeedsDewarp(s) || r.dewarp
  {
  }

  /** From then on asking for what the cache already says is skipped, and the driver stays as it is. */
  lemma RefusedRecoverSticks(s: Isp, r: Replies)
    requires DewarpCoherent(s) && s.dweOn && s.dwePara.hflip != s.dweParaLast.hflip && !r.dewarp
    ensures var t := Recover(s, r);
            && WriteHFlip(t, s.dweParaLast.hflip, false, true) == (0, t)
            && t.device.dewarp.hflip != s.dweParaLast.hflip
  {
  }

  /** Each touches one field of the driver's colour configuration, and no cache. */
  lemma ReplaysAreApart(s: Isp, a: Answers)
    requires Legal(s)
    ensures ReplayBrightness(s, a) == s.(device := s.device.(colour := s.device.colour.(brightness :=
              if s.brightness != BRIGHTNESS_MAX + 1 && a == ACCEPT then s.brightness else s.device.colour.brightness)))
    ensures ReplayContrast(s, a) == s.(device := s.device.(colour := s.device.colour.(contrast :=
              if s.contrast != CONTRAST_MAX + 1.0 && a == ACCEPT then s.contrast else s.device.colour.contrast)))
    ensures ReplaySaturation(s, a) == s.(device := s.device.(colour := s.device.colour.(saturation :=
              if s.saturation != SATURATION_MAX + 1.0 && a == ACCEPT then s.saturation else s.device.colour.saturation)))
    ensures ReplayHue(s, a) == s.(device := s.device.(colour := s.device.colour.(hue :=
              if s.hue != HUE_MAX + 1 && a == ACCEPT then s.hue else s.device.colour.hue)))
  {
  }

  /** So the replays do not disturb one another. */
  lemma RecoverColours(s: Isp, r: Replies)
    requires Legal(s)
    ensures var c, t := s.device.colour, Recover(s, r);
            && t.brightness == s.brightness && t.contrast == s.contrast && t.saturation == s.saturation && t.hue == s.hue
            && t.device.colour == Colour(
                 if s.brightness != BRIGHTNESS_MAX + 1 && r.brightness == ACCEPT then s.brightness else c.brightness,
                 if s.contrast != CONTRAST_MAX + 1.0 && r.contrast == ACCEPT then s.contrast else c.contrast,
                 if s.saturation != SATURATION_MAX + 1.0 && r.saturation == ACCEPT then s.saturation else c.saturation,
                 if s.hue != HUE_MAX + 1 && r.hue == ACCEPT then s.hue else c.hue)
  {
    var a := RecoverDewarp(s, r.dewarp);
    ReplaysAreApart(a, r.brightness);
    var b := ReplayBrightness(a, r.brightness);
    ReplaysAreApart(b, r.contrast);
    var c := ReplayContrast(b, r.contrast);
    ReplaysAreApart(c, r.saturation);
    var d := ReplaySaturation(c, r.saturation);
    ReplaysAreApart(d, r.hue);
  }

  /**
   After a reset each colour cache is right iff it was never set, its replay was accepted, or the default is the
   same.
   */
  lemma RecoverColourIff(s: Isp, defaults: Device, r: Replies)
    requires Coherent(s) && Legal(s)
    ensures var t := Recover(Restarted(s, defaults), r);
            && (BrightnessCoherent(t) <==> s.brightness == BRIGHTNESS_MAX + 1 || r.brightness == ACCEPT
                                           || defaults.colour.brightness == s.brightness)
            && (ContrastCoherent(t) <==> s.contrast == CONTRAST_MAX + 1.0 || r.contrast == ACCEPT
                                         || defaults.colour.contrast == s.contrast)
            && (SaturationCoherent(t) <==> s.saturation == SATURATION_MAX + 1.0 || r.saturation == ACCEPT
                                           || defaults.colour.saturation == s.saturation)
            && (HueCoherent(t) <==> s.hue == HUE_MAX + 1 || r.hue == ACCEPT || defaults.colour.hue == s.hue)
  {
    RecoverColours(Restarted(s, defaults), r);
  }

  /**
   Without the replay, which only a picture intent makes: whatever was asked for since the wrapper was
   opened, the caches are right after a reset iff the last value accepted for each is the driver's default.
   */
  lemma ResetCoherentIff(device: Device, requests: seq<Request>, defaults: Device)
    ensures var s := ProcessAll(Opened(device), requests);
            Coherent(Restarted(s, defaults)) <==>
              forall f :: LastAccepted(Opened(device), requests, f) in {None, Some(Of(defaults.colour, f))}
  {
    forall f ensures var s := ProcessAll(Opened(device), requests);
                     LastAccepted(Opened(device), requests, f) in {None, Some(Of(defaults.colour, f))} <==>
                     Cache(s, f) == Of(UNSET, f) || Cache(s, f) == Of(defaults.colour, f)
    {
      CacheIsLastAccepted(Opened(device), requests, f);
    }
    CoherentIff(Restarted(ProcessAll(Opened(device), requests), defaults));
  }

  lemma CoherentIff(s: Isp)
    ensures Coherent(s) <==>
              && DewarpCoherent(s)
              && forall f :: Cache(s, f) == Of(UNSET, f) || Cache(s, f) == Of(s.device.colour, f)
  {
    if forall f :: Cache(s, f) == Of(UNSET, f) || Cache(s, f) == Of(s.device.colour, f) {
      assert Cache(s, Brightness) == Of(UNSET, Brightness) || Cache(s, Brightness) == Of(s.device.colour, Brightness);
      assert Cache(s, Contrast) == Of(UNSET, Contrast) || Cache(s, Contrast) == Of(s.device.colour, Contrast);
      assert Cache(s, Saturation) == Of(UNSET, Saturation) || Cache(s, Saturation) == Of(s.device.colour, Saturation);
      assert Cache(s, Hue) == Of(UNSET, Hue) || Cache(s, Hue) == Of(s.device.colour, Hue);
    }
  }

  predicate Neutral(d: Dewarp) {
    d.mode == 0 && !d.hflip && !d.vflip && !d.bypass
  }

  lemma {:induction false} NothingSavedYet(s: Isp, requests: seq<Request>)
    ensures var t := ProcessAll(s, requests); t.dweParaLast == s.dweParaLast && t.dweOn == s.dweOn
    decreases |requests|
  {
    if requests == [] {
    } else {
      NothingSavedYet(Process(s, requests[0].op, requests[0].force, requests[0].answers).1, requests[1..]);
    }
  }

  /**
   A recovery before anything was saved, which is what a first start with picture intent makes, replays the
   zeroes of the constructor: it changes the driver's dewarp settings iff the driver accepts and they are
   not those zeroes already, and then mode, flips and bypass are all cleared.
   */
  lemma FirstRecoveryIff(device: Device, requests: seq<Request>, r: Replies)
    ensures var s := ProcessAll(Opened(device), requests);
            var was, now := s.device.dewarp, Recover(s, r).device.dewarp;
            && (now != was <==> r.dewarp && !Neutral(was))
            && now == (if r.dewarp then ZERO_DEWARP.(mat := was.mat) else was)
  {
    CachesStayCoherent(Opened(device), requests);
    NothingSavedYet(Opened(device), requests);
    RecoverKeepsDewarp(ProcessAll(Opened(device), requests), r);
  }

  /** The colour replay does not touch the dewarp settings. */
  lemma RecoverKeepsDewarp(s: Isp, r: Replies)
    ensures var t, a := Recover(s, r), RecoverDewarp(s, r.dewarp);
            t.device.dewarp == a.device.dewarp && t.dwePara == a.dwePara
  {
  }

  /** When the very first read fails, the cache is right iff the driver happens to hold what the constructor put there. */
  lemma UnreadFirstStart(device: Device, ok: bool)
    ensures DewarpCoherent(ReadDewarp(Constructed(device), ok)) <==>
              ok || device.dewarp == Dewarp(LENS_CORRECTION, false, false, false, Zeroes(MAT_SIZE))
  {
  }

  /**
   When the read at the start fails, what is cached is what was saved, so no recovery writes it: the driver
   stays at its defaults, and the cache is right afterwards iff the defaults are what the driver held before.
   */
  lemma MissedReadIff(s: Isp, defaults: Device, r: Replies)
    requires DewarpCoherent(s)
    ensures var t := Recover(ReadDewarp(Reset(s, defaults), false), r);
            t.device.dewarp == defaults.dewarp && (DewarpCoherent(t) <==> s.device.dewarp == defaults.dewarp)
  {
    RecoverKeepsDewarp(ReadDewarp(Reset(s, defaults), false), r);
  }

  // ---------------------------------------------------------------- in place

  class ISPWrapper {
    var dwePara: Dewarp
    var dweParaLast: Dewarp
    var dweOn: bool
    var brightness: int
    var contrast: real
    var saturation: real
    var hue: int
    var device: Device          // the driver

    ghost function View(): Isp
      reads this
    {
      Isp(dwePara, dweParaLast, dweOn, brightness, contrast, saturation, hue, device)
    }

    /** Nothing is read from the driver yet. */
    constructor (device: Device)
      ensures View() == Constructed(device)
    {
      dwePara, dweParaLast, dweOn := ZERO_DEWARP.(mode := LENS_CORRECTION), ZERO_DEWARP, true;
      brightness, contrast := BRIGHTNESS_MAX + 1, CONTRAST_MAX + 1.0;
      saturation, hue := SATURATION_MAX + 1.0, HUE_MAX + 1;
      this.device := device;
    }

    /** The first part of onDeviceStartLocked. */
    method ReadDewarpParams(ok: bool)
      modifies this`dwePara
      ensures View() == ReadDewarp(old(View()), ok)
    {
      if ok {
        dwePara := device.dewarp;
      }
    }

    method SetDewarpParams(accepts: bool) returns (ret: int)
      modifies this`device
      ensures ret == (if accepts then 0 else BAD_VALUE)
      ensures device == if accepts then old(device).(dewarp := dwePara) else old(device)
    {
      if !accepts {
        return BAD_VALUE;
      }
      device := device.(dewarp := dwePara);
      ret := 0;
    }

    method ProcessDewarp(enable: bool, accepts: bool) returns (ret: int)
      modifies this`dwePara, this`device
      ensures (ret, View()) == WriteDewarp(old(View()), enable, false, accepts)
    {
      var orgMode := dwePara.mode;
      var mode := if enable then FISHEYE_DEWARP else LENS_CORRECTION;
      if orgMode == mode {
        return 0;
      }
      dwePara := dwePara.(mode := mode);
      ret := SetDewarpParams(accepts);
      if ret != 0 {
        dwePara := dwePara.(mode := orgMode);
      }
    }

    method ProcessHFlip(enable: bool, accepts: bool) returns (ret: int)
      modifies this`dwePara, this`device
      ensures (ret, View()) == WriteHFlip(old(View()), enable, false, accepts)
    {
      var orgHFlip := dwePara.hflip;
      if enable == orgHFlip {
        return 0;
      }
      dwePara := dwePara.(hflip := enable);
      ret := SetDewarpParams(accepts);
      if ret != 0 {
        dwePara := dwePara.(hflip := orgHFlip);
      }
    }

    method ProcessVFlip(enable: bool, accepts: bool) returns (ret: int)
      modifies this`dwePara, this`device
      ensures (ret, View()) == WriteVFlip(old(View()), enable, false, accepts)
    {
      var orgVFlip := dwePara.vflip;
      if enable == orgVFlip {
        return 0;
      }
      dwePara := dwePara.(vflip := enable);
      ret := SetDewarpParams(accepts);
      if ret != 0 {
        dwePara := dwePara.(vflip := orgVFlip);
      }
    }

    /** The whole configuration is read, changed in one field and written back. */
    method ProcessBrightness(level: int, force: bool, a: Answers) returns (ret: int)
      modifies this`brightness, this`device
      ensures (ret, View()) == WriteBrightness(old(View()), level, force, a)
    {
      if level < -BRIGHTNESS_MAX || level > BRIGHTNESS_MAX {
        return BAD_VALUE;
      }
      if !force && level == brightness {
        return 0;
      }
      if !a.get {
        return BAD_VALUE;
      }
      var request := device.colour.(brightness := level);
      if !a.put {
        return BAD_VALUE;
      }
      device, brightness := device.(colour := request), level;
      ret := 0;
    }

    method ProcessContrast(factor: real, force: bool, a: Answers) returns (ret: int)
      modifies this`contrast, this`device
      ensures (ret, View()) == WriteContrast(old(View()), factor, force, a)
    {
      if factor < 0.0 || factor > CONTRAST_MAX {
        return BAD_VALUE;
      }
      if !force && factor == contrast {
        return 0;
      }
      if !a.get {
        return BAD_VALUE;
      }
      var request := device.colour.(contrast := factor);
      if !a.put {
        return BAD_VALUE;
      }
      device, contrast := device.(colour := request), factor;
      ret := 0;
    }

    method ProcessSaturation(factor: real, force: bool, a: Answers) returns (ret: int)
      modifies this`saturation, this`device
      ensures (ret, View()) == WriteSaturation(old(View()), factor, force, a)
    {
      if factor < 0.0 || factor > SATURATION_MAX {
        return BAD_VALUE;
      }
      if !force && factor == saturation {
        return 0;
      }
      if !a.get {
        return BAD_VALUE;
      }
      var request := device.colour.(saturation := factor);
      if !a.put {
        return BAD_VALUE;
      }
      device, saturation := device.(colour := request), factor;
      ret := 0;
    }

    method ProcessHue(level: int, force: bool, a: Answers) returns (ret: int)
      modifies this`hue, this`device
      ensures (ret, View()) == WriteHue(old(View()), level, force, a)
    {
      if level < -HUE_MAX || level > HUE_MAX {
        return BAD_VALUE;
      }
      if !force && level == hue {
        return 0;
      }
      if !a.get {
        return BAD_VALUE;
      }
      var request := device.colour.(hue := level);
      if !a.put {
        return BAD_VALUE;
      }
      device, hue := device.(colour := request), level;
      ret := 0;
    }

    method EnableDWE(on: bool, accepts: bool) returns (ret: int)
      modifies this`dweOn
      ensures dweOn == (if accepts then on else old(dweOn))
      ensures ret == 0 <==> dweOn == on
    {
      if on == dweOn {
        return 0;
      }
      ret := if accepts then 0 else BAD_VALUE;
      if ret == 0 {
        dweOn := on;
      }
    }

    method ProcessDewarpUnit(m: Meta, driver: Op -> Answers)
      modifies this`dwePara, this`device
      ensures View() == ProcessAll(old(View()), DewarpRequests(m, driver))
    {
      ghost var s, done := View(), [];
      var ignored: int;
      if m.dewarp.Some? {
        ProcessAllSnoc(s, done, Plain(SetFisheye(m.dewarp.value), driver));
        ignored := ProcessDewarp(m.dewarp.value, driver(SetFisheye(m.dewarp.value)).put);
        done := [Plain(SetFisheye(m.dewarp.value), driver)];
      }
      if m.hflip.Some? {
        ProcessAllSnoc(s, done, Plain(SetHFlip(m.hflip.value), driver));
        ignored := ProcessHFlip(m.hflip.value, driver(SetHFlip(m.hflip.value)).put);
        done := done + [Plain(SetHFlip(m.hflip.value), driver)];
      }
      if m.vflip.Some? {
        ProcessAllSnoc(s, done, Plain(SetVFlip(m.vflip.value), driver));
        ignored := ProcessVFlip(m.vflip.value, driver(SetVFlip(m.vflip.value)).put);
      }
    }

    method ProcessColours(m: Meta, driver: Op -> Answers, ghost s: Isp, ghost first: seq<Request>)
      requires View() == ProcessAll(s, first) && first == DewarpRequests(m, driver)
      modifies this`brightness, this`contrast, this`saturation, this`hue, this`device
      ensures View() == ProcessAll(s, Requests(m, driver))
    {
      ghost var done := first;
      var ignored: int;
      if m.brightness.Some? {
        ProcessAllSnoc(s, done, Plain(SetBrightness(m.brightness.value), driver));
        ignored := ProcessBrightness(m.brightness.value, false, driver(SetBrightness(m.brightness.value)));
        done := done + [Plain(SetBrightness(m.brightness.value), driver)];
      }
      if m.contrast.Some? {
        ProcessAllSnoc(s, done, Plain(SetContrast(m.contrast.value), driver));
        ignored := ProcessContrast(m.contrast.value, false, driver(SetContrast(m.contrast.value)));
        done := done + [Plain(SetContrast(m.contrast.value), driver)];
      }
      if m.saturation.Some? {
        ProcessAllSnoc(s, done, Plain(SetSaturation(m.saturation.value), driver));
        ignored := ProcessSaturation(m.saturation.value, false, driver(SetSaturation(m.saturation.value)));
        done := done + [Plain(SetSaturation(m.saturation.value), driver)];
      }
      if m.hue.Some? {
        ProcessAllSnoc(s, done, Plain(SetHue(m.hue.value), driver));
        ignored := ProcessHue(m.hue.value, false, driver(SetHue(m.hue.value)));
      }
    }

    /**
     The settings of one request in the order in which the source looks for them. What a call returns is
     not looked at; a raw capture only turns the dewarp unit off.
     */
    method Process(raw: bool, meta: Option<Meta>, feature: bool, driver: Op -> Answers) returns (ret: int)
      modifies this`dwePara, this`dweOn, this`brightness, this`contrast, this`saturation, this`hue, this`device
      ensures raw || meta.None? ==> View() == old(View()).(dweOn := dweOn)
      ensures raw ==> (dweOn == if feature then false else old(dweOn)) && (ret == 0 <==> !dweOn)
      ensures !raw && meta.None? ==> ret == BAD_VALUE && dweOn == old(dweOn)
      ensures !raw && meta.Some? ==>
                && ret == 0 && dweOn == (if feature then true else old(dweOn))
                && View() == ProcessAll(old(View()).(dweOn := dweOn), Requests(meta.value, driver))
    {
      if raw {
        ret := EnableDWE(false, feature);
        return;
      }
      if meta.None? {
        return BAD_VALUE;
      }
      var m := meta.value;
      ret := EnableDWE(true, feature);
      ProcessDewarpUnit(meta.value, driver);
      ProcessColours(meta.value, driver, old(View()).(dweOn := dweOn), DewarpRequests(meta.value, driver));
      ret := 0;
    }

    method GetLatestFeatures()
      modifies this`dweParaLast
      ensures dweParaLast == dwePara
    {
      dweParaLast := dwePara;
    }

    method RecoverDewarpParams(accepts: bool)
      modifies this`dwePara, this`device
      ensures View() == RecoverDewarp(old(View()), accepts)
    {
      if dweOn {
        if dwePara.mode != dweParaLast.mode || dwePara.hflip != dweParaLast.hflip
           || dwePara.vflip != dweParaLast.vflip || dwePara.bypass != dweParaLast.bypass {
          dwePara := dwePara.(mode := dweParaLast.mode, hflip := dweParaLast.hflip,
                              vflip := dweParaLast.vflip, bypass := dweParaLast.bypass);
          var ignored := SetDewarpParams(accepts);
        }
      }
    }

    /** recoverFeatures returns 0 whatever the calls it makes return. */
    method RecoverFeatures(r: Replies) returns (ret: int)
      modifies this
      ensures ret == 0 && View() == Recover(old(View()), r)
    {
      RecoverDewarpParams(r.dewarp);
      var ignored: int;
      if brightness != BRIGHTNESS_MAX + 1 {
        ignored := ProcessBrightness(brightness, true, r.brightness);
      }
      if contrast != CONTRAST_MAX + 1.0 {
        ignored := ProcessContrast(contrast, true, r.contrast);
      }
      if saturation != SATURATION_MAX + 1.0 {
        ignored := ProcessSaturation(saturation, true, r.saturation);
      }
      if hue != HUE_MAX + 1 {
        ignored := ProcessHue(hue, true, r.hue);
      }
      ret := 0;
    }
  }
}
