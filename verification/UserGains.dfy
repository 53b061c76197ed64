/**
 * The gains the user asked for survive calibration: however often the noise source is switched on
 * and off in between, they are in force whenever it is off and kept aside whenever it is on, and
 * the receiver process is always told the gains that are in force.
 */
module UserGains {
  import opened Common
  import opened IqHeaders
  import opened ControlLoop
  import opened NoiseHandshake
  import Daq = RtlDaq
  import Hwc = HwController

  /** The gains in force and the gains kept aside against the gains last chosen. */
  ghost predicate Kept(c: Hwc.Config, s: Hwc.State, user: seq<nat>)
    requires Hwc.ValidConfig(c) && Hwc.ValidState(c, s) && Hwc.ValidGainList(c, user)
  {
    if s.fsm.StateInit? then s.gains == user
    else if s.noiseSourceState then s.lastGains == user || s.lastGains == Hwc.Unify(c, user)
    else s.gains == Hwc.Unify(c, user)
  }

  /** The gains a receiver process has been told once it has executed `cmds`. */
  function Told(cmds: seq<Daq.Command>, gains: seq<nat>): seq<nat> {
    if cmds == [] then gains
    else Told(cmds[1..], if cmds[0].SetGains? then cmds[0].gains else gains)
  }

  ghost predicate GainsInForce(c: Config, s: System)
    requires ValidConfig(c) && ValidSystem(c, s)
  {
    && Kept(c.hwc, s.hwc, s.user)
    && (!s.hwc.fsm.StateInit? ==> Told(s.pending, s.daq.newGains) == Hwc.GainValues(c.hwc, s.hwc.gains))
  }

  lemma {:induction false} ToldConcat(a: seq<Daq.Command>, b: seq<Daq.Command>, gains: seq<nat>)
    ensures Told(a + b, gains) == Told(b, Told(a, gains))
  {
    if a == [] {
      assert a + b == b;
    } else {
      assert (a + b)[1..] == a[1..] + b;
      ToldConcat(a[1..], b, if a[0].SetGains? then a[0].gains else gains);
    }
  }

  lemma ToldLast(cmd: Daq.Command, gains: seq<nat>)
    ensures Told([cmd], gains) == if cmd.SetGains? then cmd.gains else gains
  {
  }

  /** Equal gains are already unified. */
  lemma UnifyOnce(c: Hwc.Config, g: seq<nat>)
    requires 0 < |g| == c.chNum
    ensures Hwc.Unify(c, Hwc.Unify(c, g)) == Hwc.Unify(c, g)
  {
    if c.unifiedGainControl {
      var u := Hwc.Unify(c, g);
      assert Hwc.MinOf(u) in u;
      assert Hwc.Unify(c, u) == u;
    }
  }

  lemma {:induction false} OverwriteSupported(g: seq<nat>, values: seq<nat>, m: nat)
    requires |g| == |values| && m <= |g| && forall k | 0 <= k < |g| :: g[k] <= Hwc.MAX_GAIN_INDEX
    requires forall k | 0 <= k < |values| :: values[k] in Hwc.VALID_GAINS
    requires forall k | 0 <= k < m :: g[k] == Indices(values)[k]
    ensures Hwc.Overwrite(g, values, m) == (Indices(values), true)
    decreases |g| - m
  {
    hide Hwc.GainIndex;
    if m == |g| {
      assert g == Indices(values);
    } else {
      var i := Hwc.GainIndex(values[m]);
      OverwriteSupported(g[m := i.value], values, m + 1);
    }
  }

  // ---- the controller's step ----

  /** After `cmds` the receiver process knows the gains of `s`. */
  ghost predicate Tells(c: Hwc.Config, cmds: seq<Daq.Command>, before: seq<nat>, s: Hwc.State)
    requires Hwc.ValidConfig(c) && Hwc.ValidState(c, s)
  {
    Told(cmds, before) == Hwc.GainValues(c, s.gains)
  }

  lemma NoiseOnTells(c: Hwc.Config, s: Hwc.State, freq: nat, told: seq<nat>)
    requires Hwc.ValidConfig(c) && Hwc.ValidState(c, s)
    ensures var (on, cmds) := Hwc.NoiseOn(c, s, freq);
            Tells(c, cmds, told, on) && on.lastGains == s.gains && on.noiseSourceState && !on.fsm.StateInit?
  {
    hide Hwc.GainValues, Hwc.Unify, Hwc.CalGain;
    var (on, cmds) := Hwc.NoiseOn(c, s, freq);
    ToldConcat([Daq.SetGains(Hwc.GainValues(c, on.gains))], [Daq.SwitchNoise(true)], told);
  }

  lemma NoiseOffTells(c: Hwc.Config, s: Hwc.State, told: seq<nat>)
    requires Hwc.ValidConfig(c) && Hwc.ValidState(c, s)
    ensures var (off, cmds) := Hwc.NoiseOff(c, s);
            && Tells(c, cmds, told, off) && off.gains == Hwc.Unify(c, s.lastGains)
            && !off.noiseSourceState && !off.fsm.StateInit?
  {
    hide Hwc.GainValues, Hwc.Unify;
    var (off, cmds) := Hwc.NoiseOff(c, s);
    var agcCmd := if s.lastAgc then [Daq.EnableAgc] else [];
    var gainCmd := [Daq.SetGains(Hwc.GainValues(c, off.gains))];
    ToldConcat([Daq.SwitchNoise(false)], gainCmd, told);
    ToldConcat([Daq.SwitchNoise(false)] + gainCmd, agcCmd, told);
    assert agcCmd == [] || agcCmd == [Daq.EnableAgc];
  }

  /** Switching the noise source keeps the user's gains, if it really switches. */
  lemma SwitchKeeps(c: Hwc.Config, s: Hwc.State, freq: nat, user: seq<nat>)
    requires Hwc.ValidConfig(c) && Hwc.ValidState(c, s) && Hwc.ValidGainList(c, user)
    requires Kept(c, s, user) && !s.fsm.StateInit?
    ensures !s.noiseSourceState ==> Kept(c, Hwc.NoiseOn(c, s, freq).0, user)
    ensures s.noiseSourceState ==> Kept(c, Hwc.NoiseOff(c, s).0, user)
  {
    hide Hwc.NoiseOn, Hwc.NoiseOff, Hwc.Unify;
    NoiseOnTells(c, s, freq, []);
    NoiseOffTells(c, s, []);
    UnifyOnce(c, user);
  }

  lemma RequestKeeps(c: Hwc.Config, s: Hwc.State, r: Hwc.Request, user: seq<nat>, told: seq<nat>)
    requires Hwc.ValidConfig(c) && Hwc.ValidState(c, s) && Hwc.ValidRequest(c, Some(r)) && SupportedGains(Some(r))
    requires Hwc.ValidGainList(c, user) && Kept(c, s, user) && !s.fsm.StateInit?
    requires told == Hwc.GainValues(c, s.gains)
    ensures var (s', cmds) := Hwc.HandleRequest(c, s, r);
            && Kept(c, s', if r.Gain? then Indices(r.values) else user)
            && Tells(c, cmds, told, s') && s'.fsm == s.fsm && s'.noiseSourceState == s.noiseSourceState
  {
    hide Hwc.Unify, Hwc.GainValues, Hwc.Overwrite, Indices;
    var cmds := Hwc.HandleRequest(c, s, r).1;
    if cmds != [] {
      ToldLast(cmds[0], told);
    }
    if r.Gain? {
      OverwriteSupported(s.gains, r.values, 0);
      OverwriteSupported(s.lastGains, r.values, 0);
    }
  }

  lemma FollowKeeps(c: Hwc.Config, s: Hwc.State, h: IqHeader, approval: bool, user: seq<nat>, told: seq<nat>)
    requires Hwc.ValidConfig(c) && Hwc.ValidState(c, s) && Hwc.ValidGainList(c, user)
    requires Kept(c, s, user) && !s.fsm.StateInit? && told == Hwc.GainValues(c, s.gains)
    requires h.noiseSourceState == if s.noiseSourceState then 1 else 0
    ensures var (s', cmds) := Hwc.FollowSync(c, s, h, approval);
            Kept(c, s', user) && Tells(c, cmds, told, s') && !s'.fsm.StateInit?
  {
    hide Hwc.NoiseOn, Hwc.NoiseOff, Hwc.GainValues, Kept;
    NoiseOnTells(c, s, h.rfCenterFreq, told);
    NoiseOffTells(c, s, told);
    SwitchKeeps(c, s, h.rfCenterFreq, user);
  }

  lemma BurstKeeps(c: Hwc.Config, s: Hwc.State, h: IqHeader, user: seq<nat>, told: seq<nat>)
    requires Hwc.ValidConfig(c) && Hwc.ValidState(c, s) && Hwc.ValidGainList(c, user)
    requires Kept(c, s, user) && !s.fsm.StateInit? && told == Hwc.GainValues(c, s.gains)
    requires c.calTrackMode == 2 && h.syncState == 6 ==>
               && (s.calFrameCntr + 1 == c.calFrameInterval ==> !s.noiseSourceState)
               && (s.calFrameCntr + 1 == c.calFrameInterval + c.calFrameBurstSize ==> s.noiseSourceState)
    ensures var (s', cmds) := Hwc.Burst(c, s, h);
            Kept(c, s', user) && Tells(c, cmds, told, s') && !s'.fsm.StateInit?
  {
    hide Hwc.NoiseOn, Hwc.NoiseOff, Hwc.GainValues, Hwc.Unify;
    var counted := s.(calFrameCntr := s.calFrameCntr + 1);
    NoiseOnTells(c, counted, h.rfCenterFreq, told);
    NoiseOffTells(c, counted, told);
    SwitchKeeps(c, counted, h.rfCenterFreq, user);
  }

  /** What the burst counter finds after the synchronizer was followed. */
  lemma BurstFindsSource(c: Hwc.Config, s: Hwc.State, h: IqHeader, approval: bool)
    requires Hwc.ValidConfig(c) && Hwc.ValidState(c, s) && Harmless(c, s, h) && BurstInStep(c, s)
    requires s.fsm.StateIqCal? && c.calTrackMode == 2 && h.syncState == 6
    requires h.noiseSourceState == if s.noiseSourceState then 1 else 0
    ensures var s1 := Hwc.FollowSync(c, s, h, approval).0;
            && (s1.calFrameCntr + 1 == c.calFrameInterval ==> !s1.noiseSourceState)
            && (s1.calFrameCntr + 1 == c.calFrameInterval + c.calFrameBurstSize ==> s1.noiseSourceState)
  {
    hide Hwc.NoiseOn, Hwc.NoiseOff, Switches;
    NoiseEffects(c, s, h.rfCenterFreq);
  }

  lemma IqCalKeeps(c: Hwc.Config, s: Hwc.State, h: IqHeader, approval: bool, request: Option<Hwc.Request>,
                   user: seq<nat>, told: seq<nat>)
    requires Hwc.ValidConfig(c) && Hwc.ValidState(c, s) && Hwc.ValidGainList(c, user)
    requires Hwc.ValidRequest(c, request) && SupportedGains(request) && Harmless(c, s, h) && BurstInStep(c, s)
    requires Kept(c, s, user) && s.fsm.StateIqCal? && told == Hwc.GainValues(c, s.gains)
    requires h.noiseSourceState == if s.noiseSourceState then 1 else 0
    ensures var (s', cmds) := Hwc.IqCal(c, s, h, approval, request);
            && Kept(c, s', if request.Some? && request.value.Gain? then Indices(request.value.values) else user)
            && Tells(c, cmds, told, s') && !s'.fsm.StateInit?
  {
    hide Hwc.FollowSync, Hwc.Burst, Hwc.HandleRequest, Kept, Indices, Told, Hwc.GainValues, SupportedGains,
         BurstInStep;
    var (s1, cmds1) := Hwc.FollowSync(c, s, h, approval);
    FollowKeeps(c, s, h, approval, user, told);
    var told1 := Told(cmds1, told);
    if c.calTrackMode == 2 && h.syncState == 6 {
      BurstFindsSource(c, s, h, approval);
    }
    var (s2, cmds2) := Hwc.Burst(c, s1, h);
    BurstKeeps(c, s1, h, user, told1);
    ToldConcat(cmds1, cmds2, told);
    if request.Some? {
      RequestKeeps(c, s2, request.value, user, Told(cmds1 + cmds2, told));
      ToldConcat(cmds1 + cmds2, Hwc.HandleRequest(c, s2, request.value).1, told);
    } else {
      assert cmds1 + cmds2 + [] == cmds1 + cmds2;
    }
  }

  lemma EarlyKeeps(c: Config, s: Hwc.State, h: IqHeader, approval: bool, request: Option<Hwc.Request>,
                   user: seq<nat>, told: seq<nat>)
    requires ValidConfig(c) && Hwc.ValidState(c.hwc, s) && Hwc.ValidGainList(c.hwc, user)
    requires |h.ifGains| == 32 && Hwc.ValidRequest(c.hwc, request) && !s.fsm.StateIqCal?
    requires Kept(c.hwc, s, user) && QuietStart(s)
    requires !s.fsm.StateInit? ==> told == Hwc.GainValues(c.hwc, s.gains)
    ensures var (s', cmds) := Hwc.ProcessFrame(c.hwc, s, h, approval, request);
            && Kept(c.hwc, s', Chosen(c, s, s', h, request, user))
            && (!s'.fsm.StateInit? ==> Tells(c.hwc, cmds, told, s'))
  {
    hide Hwc.GainValues, Hwc.Unify, Hwc.GainsMatch, Hwc.TuneUpTo;
    UnifyOnce(c.hwc, s.gains);
    var (s', cmds) := Hwc.ProcessFrame(c.hwc, s, h, approval, request);
    if !IsDummy(h) {
      if s.fsm.StateInit? {
        ToldConcat([Daq.SetGains(Hwc.GainValues(c.hwc, s'.gains))], [Daq.SwitchNoise(false)], told);
      } else if s.fsm.StateGainTune? && Hwc.GainsMatch(c.hwc, s.gains, h) {
        UnifyOnce(c.hwc, Hwc.TuneUpTo(c.hwc, h.adcOverdriveFlags, s.gains, s.gainTuneStates, c.hwc.chNum).0);
      }
      if s.fsm.StateGainTune? {
        UnifyOnce(c.hwc, user);
        ToldLast(Daq.SetGains(Hwc.GainValues(c.hwc, s'.gains)), told);
      }
    }
  }

  lemma FrameKeeps(c: Config, s: Hwc.State, h: IqHeader, approval: bool, request: Option<Hwc.Request>,
                   user: seq<nat>, told: seq<nat>)
    requires ValidConfig(c) && Hwc.ValidState(c.hwc, s) && Hwc.ValidGainList(c.hwc, user)
    requires |h.ifGains| == 32 && Hwc.ValidRequest(c.hwc, request) && SupportedGains(request) && Harmless(c.hwc, s, h)
    requires BurstInStep(c.hwc, s) && QuietStart(s) && h.noiseSourceState <= 1
    requires s.fsm.StateIqCal? ==> (h.noiseSourceState == 1) == s.noiseSourceState
    requires Kept(c.hwc, s, user) && (!s.fsm.StateInit? ==> told == Hwc.GainValues(c.hwc, s.gains))
    ensures var (s', cmds) := Hwc.ProcessFrame(c.hwc, s, h, approval, request);
            && Kept(c.hwc, s', Chosen(c, s, s', h, request, user))
            && (!s'.fsm.StateInit? ==> Tells(c.hwc, cmds, told, s'))
  {
    hide Kept, Hwc.GainValues, Hwc.IqCal, Indices;
    if s.fsm.StateIqCal? && !IsDummy(h) {
      IqCalKeeps(c.hwc, s, h, approval, request, user, told);
    } else if !s.fsm.StateIqCal? {
      EarlyKeeps(c, s, h, approval, request, user, told);
    }
  }

  // ---- runs ----

  lemma OrderGains(c: Config, daq: Daq.State, cmd: Daq.Command)
    requires Daq.ValidState(c.daq, daq) && Daq.ValidCommand(c.daq, cmd)
    ensures Daq.Order(c.daq, daq, cmd).newGains == if cmd.SetGains? then cmd.gains else daq.newGains
  {
  }

  lemma TurnGains(c: Config, s: System, step: Step)
    requires ValidConfig(c) && ValidSystem(c, s) && Enabled(c, s, step) && (step.Turn? || step.NotReady?)
    ensures Next(c, s, step).daq.newGains == s.daq.newGains
  {
    hide Daq.Retune, Daq.Changes, Daq.IfGains;
  }

  lemma OthersKeepGains(c: Config, s: System, step: Step)
    requires ValidConfig(c) && ValidSystem(c, s) && Enabled(c, s, step) && !step.Receive? && GainsInForce(c, s)
    ensures GainsInForce(c, Next(c, s, step))
  {
    hide Kept, Hwc.GainValues, Daq.Next, Daq.Order, Daq.NextHeader;
    match step {
      case Turn(_, _) => TurnGains(c, s, step);
      case NotReady => TurnGains(c, s, step);
      case Deliver => OrderGains(c, s.daq, s.pending[0]);
      case Foreign(cmd) => OrderGains(c, s.daq, cmd);
      case _ =>
    }
  }

  lemma StepKeepsGains(c: Config, s: System, step: Step)
    requires ValidConfig(c) && ValidSystem(c, s) && Enabled(c, s, step)
    requires (step.Receive? ==> Harmless(c.hwc, s.hwc, s.queue[0])) && Handshake(c, s) && QuietStart(s.hwc)
    requires GainsInForce(c, s)
    ensures GainsInForce(c, Next(c, s, step))
  {
    hide Hwc.ProcessFrame, Kept, Chosen, Hwc.GainValues, BurstInStep, QuietStart;
    if step.Receive? {
      assert Line(s)[0] == (s.queue[0].noiseSourceState == 1);
      FrameKeeps(c, s.hwc, s.queue[0], step.approval, step.request, s.user, Told(s.pending, s.daq.newGains));
    } else {
      OthersKeepGains(c, s, step);
    }
  }

  lemma {:induction false} RunKeepsGains(c: Config, s: System, steps: seq<Step>, s': System)
    requires ValidConfig(c) && ValidSystem(c, s) && Reaches(c, s, steps, s')
    requires Sound(c.hwc) && Handshake(c, s) && QuietStart(s.hwc) && GainsInForce(c, s)
    ensures ValidSystem(c, s') && GainsInForce(c, s')
    decreases |steps|
  {
    hide Handshake, QuietStart, Next, GainsInForce;
    if steps != [] {
      StepKeepsGains(c, s, steps[0]);
      StepKeepsHandshake(c, s, steps[0]);
      RunKeepsGains(c, Next(c, s, steps[0]), steps[1..], s');
    }
  }

  /**
   * From the start of the chain on, once the controller has sent its first gains: with the noise source
   * off the gains in force are the ones last chosen, unified if so configured; with it on these are kept
   * aside; and when every command is delivered the receiver process has been told the gains in force.
   */
  lemma UserGainsSurvive(c: Config, gain: nat, freq: nat, header: IqHeader, gains: seq<nat>, tune: bool,
                         steps: seq<Step>, s: System)
    requires ValidConfig(c) && Hwc.ValidGainList(c.hwc, gains) && |header.ifGains| == 32 && Sound(c.hwc)
    requires ValidSystem(c, Initial(c, gain, freq, header, gains, tune))
    requires Reaches(c, Initial(c, gain, freq, header, gains, tune), steps, s)
    ensures ValidSystem(c, s)
    ensures !s.hwc.fsm.StateInit? && !s.hwc.noiseSourceState ==> s.hwc.gains == Hwc.Unify(c.hwc, s.user)
    ensures !s.hwc.fsm.StateInit? && s.hwc.noiseSourceState ==>
              s.hwc.lastGains == s.user || s.hwc.lastGains == Hwc.Unify(c.hwc, s.user)
    ensures !s.hwc.fsm.StateInit? && s.pending == [] ==> s.daq.newGains == Hwc.GainValues(c.hwc, s.hwc.gains)
  {
    hide Reaches, Handshake, QuietStart, Hwc.GainValues;
    var s0 := Initial(c, gain, freq, header, gains, tune);
    InitialHandshake(c, gain, freq, header, gains, tune);
    assert GainsInForce(c, s0);
    RunKeepsGains(c, s0, steps, s);
  }
}
