/**
 * The calibration control loop: the receiver process, an ordered queue of frame headers in flight,
 * and the hardware controller, which sends its commands one by one and waits for each reply. The
 * blocks between the two may lose frames and stamp the synchronizer's state on a header.
 */
module ControlLoop {
  import opened Common
  import opened IqHeaders
  import Daq = RtlDaq
  import Hwc = HwController

  datatype Config = Config(daq: Daq.Config, hwc: Hwc.Config)

  ghost predicate ValidConfig(c: Config) {
    Daq.ValidConfig(c.daq) && Hwc.ValidConfig(c.hwc) && c.daq.chNo == c.hwc.chNum
  }

  /** `user` is history: the gain indices last chosen, by the configuration, by tuning or by a GAIN request. */
  datatype System = System(
    daq: Daq.State,
    pending: seq<Daq.Command>,
    queue: seq<IqHeader>,
    hwc: Hwc.State,
    user: seq<nat>)

  ghost predicate ValidSystem(c: Config, s: System) {
    && Daq.ValidState(c.daq, s.daq)
    && Hwc.ValidState(c.hwc, s.hwc)
    && (forall i | 0 <= i < |s.pending| :: Daq.ValidCommand(c.daq, s.pending[i]))
    && (forall i | 0 <= i < |s.queue| :: |s.queue[i].ifGains| == 32)
    && Hwc.ValidGainList(c.hwc, s.user)
  }

  /** The loop before its first frame; the controller does or does not tune the gains first. */
  function Initial(c: Config, gain: nat, freq: nat, header: IqHeader, gains: seq<nat>, tune: bool): System {
    System(
      Daq.Initial(c.daq, gain, freq, header), [], [],
      Hwc.State(Hwc.StateInit, gains, gains, Repeat(tune, c.hwc.chNum), 0, false, false, false, 0),
      gains)
  }

  /** What the synchronizer may change in a header: its own stamps. */
  datatype Stamp = Stamp(delaySyncFlag: nat, iqSyncFlag: nat, syncState: nat)

  datatype Step =
    | Turn(m: Daq.Measured, hw: Daq.Hardware)
    | NotReady
    | Deliver
    | Foreign(cmd: Daq.Command)
    | Lose(i: nat)
    | Mark(i: nat, stamp: Stamp)
    | Receive(approval: bool, request: Option<Hwc.Request>)

  /** Every value of the request is a gain of the tuner. */
  ghost predicate SupportedGains(request: Option<Hwc.Request>) {
    request.Some? && request.value.Gain? ==>
      forall k | 0 <= k < |request.value.values| :: request.value.values[k] in Hwc.VALID_GAINS
  }

  /** The controller is the only sender of gain and noise source commands. */
  ghost predicate Enabled(c: Config, s: System, step: Step) {
    match step
    case Turn(_, hw) => Daq.ValidHardware(c.daq, hw)
    case NotReady => true
    case Deliver => s.pending != []
    case Foreign(cmd) => Daq.ValidCommand(c.daq, cmd) && !cmd.SwitchNoise? && !cmd.SetGains?
    case Lose(i) => i < |s.queue|
    case Mark(i, _) => i < |s.queue|
    case Receive(_, request) =>
      s.pending == [] && s.queue != [] && Hwc.ValidRequest(c.hwc, request) && SupportedGains(request)
  }

  /** Gain indices for a list of supported values. */
  function Indices(values: seq<nat>): (g: seq<nat>)
    ensures |g| == |values| && forall k | 0 <= k < |g| :: g[k] <= Hwc.MAX_GAIN_INDEX
    ensures forall k | 0 <= k < |g| && values[k] in Hwc.VALID_GAINS :: Hwc.VALID_GAINS[g[k]] == values[k]
  {
    seq(|values|, k requires 0 <= k < |values| =>
      match Hwc.GainIndex(values[k]) case Some(i) => i case None => 0)
  }

  /** The gains chosen once the frame with header `h` is handled. */
  function Chosen(c: Config, s: Hwc.State, s': Hwc.State, h: IqHeader, request: Option<Hwc.Request>,
                  user: seq<nat>): (g: seq<nat>)
    requires Hwc.ValidConfig(c.hwc) && Hwc.ValidState(c.hwc, s') && Hwc.ValidRequest(c.hwc, request)
    requires Hwc.ValidGainList(c.hwc, user)
    ensures Hwc.ValidGainList(c.hwc, g)
  {
    if IsDummy(h) then user
    else if s.fsm.StateInit? || s.fsm.StateGainTune? then s'.gains
    else if s.fsm.StateIqCal? && request.Some? && request.value.Gain? then Indices(request.value.values)
    else user
  }

  function Stamped(h: IqHeader, stamp: Stamp): IqHeader {
    h.(delaySyncFlag := stamp.delaySyncFlag, iqSyncFlag := stamp.iqSyncFlag, syncState := stamp.syncState)
  }

  // ---- the controller's commands fit the receivers ----

  ghost predicate Fits(c: Config, cmds: seq<Daq.Command>) {
    forall i | 0 <= i < |cmds| :: Daq.ValidCommand(c.daq, cmds[i])
  }

  lemma NoiseCommandsFit(c: Config, s: Hwc.State, freq: nat)
    requires ValidConfig(c) && Hwc.ValidState(c.hwc, s)
    ensures Fits(c, Hwc.NoiseOn(c.hwc, s, freq).1) && Fits(c, Hwc.NoiseOff(c.hwc, s).1)
  {
    hide Hwc.Unify, Hwc.GainValues, Hwc.CalGain;
  }

  lemma IqCalCommandsFit(c: Config, s: Hwc.State, h: IqHeader, approval: bool, request: Option<Hwc.Request>)
    requires ValidConfig(c) && Hwc.ValidState(c.hwc, s) && Hwc.ValidRequest(c.hwc, request)
    ensures Fits(c, Hwc.IqCal(c.hwc, s, h, approval, request).1)
  {
    hide Hwc.NoiseOn, Hwc.NoiseOff, Hwc.Unify, Hwc.GainValues, Hwc.Overwrite;
    NoiseCommandsFit(c, s, h.rfCenterFreq);
    var (s1, cmds1) := Hwc.FollowSync(c.hwc, s, h, approval);
    assert Fits(c, cmds1);
    NoiseCommandsFit(c, s1.(calFrameCntr := s1.calFrameCntr + 1), h.rfCenterFreq);
    var (s2, cmds2) := Hwc.Burst(c.hwc, s1, h);
    assert Fits(c, cmds2);
  }

  lemma CommandsFit(c: Config, s: Hwc.State, h: IqHeader, approval: bool, request: Option<Hwc.Request>)
    requires ValidConfig(c) && Hwc.ValidState(c.hwc, s) && |h.ifGains| == 32
    requires Hwc.ValidRequest(c.hwc, request)
    ensures Fits(c, Hwc.ProcessFrame(c.hwc, s, h, approval, request).1)
  {
    hide Hwc.IqCal, Hwc.Unify, Hwc.GainValues, Hwc.TuneUpTo, Hwc.GainsMatch;
    if s.fsm.StateIqCal? {
      IqCalCommandsFit(c, s, h, approval, request);
    }
  }

  // ---- steps ----

  function Next(c: Config, s: System, step: Step): (r: System)
    requires ValidConfig(c) && ValidSystem(c, s) && Enabled(c, s, step)
    ensures ValidSystem(c, r)
  {
    match step
    case Turn(m, hw) =>
      var (daq, log) := Daq.Next(c.daq, s.daq, Daq.Turn(m, hw));
      s.(daq := daq, queue := if s.daq.left then s.queue else s.queue + [Daq.NextHeader(c.daq, s.daq, m)])
    case NotReady =>
      s.(daq := Daq.Next(c.daq, s.daq, Daq.NotReady).0)
    case Deliver =>
      s.(daq := Daq.Order(c.daq, s.daq, s.pending[0]), pending := s.pending[1..])
    case Foreign(cmd) =>
      s.(daq := Daq.Order(c.daq, s.daq, cmd))
    case Lose(i) =>
      s.(queue := s.queue[..i] + s.queue[i + 1..])
    case Mark(i, stamp) =>
      s.(queue := s.queue[i := Stamped(s.queue[i], stamp)])
    case Receive(approval, request) =>
      var h := s.queue[0];
      var (hwc, cmds) := Hwc.ProcessFrame(c.hwc, s.hwc, h, approval, request);
      CommandsFit(c, s.hwc, h, approval, request);
      s.(queue := s.queue[1..], hwc := hwc, pending := cmds,
         user := Chosen(c, s.hwc, hwc, h, request, s.user))
  }

  /** `s'` is reached from `s` by these steps, each enabled when its turn comes. */
  ghost predicate Reaches(c: Config, s: System, steps: seq<Step>, s': System)
    requires ValidConfig(c) && ValidSystem(c, s)
    decreases |steps|
  {
    if steps == [] then s' == s
    else Enabled(c, s, steps[0]) && Reaches(c, Next(c, s, steps[0]), steps[1..], s')
  }
}
