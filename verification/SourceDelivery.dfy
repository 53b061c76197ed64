/**
 * Switches in the closed loop: a frame that asks the controller for one, at the head of the stamped frames, leads to a
 * receiver process with the source switched and the gains set as soon as its commands are delivered; and the
 * user's AGC comes back with the gains.
 */
module SourceDelivery {
  import opened Common
  import opened IqHeaders
  import Daq = RtlDaq
  import Hwc = HwController
  import Sync = DelaySync
  import Control = ControlLoop
  import opened NoiseHandshake
  import opened CalibrationLoop
  import opened LoopSafety
  import opened SourceSwitching
  import WaitEnds
  import UserGains

  predicate IsReceive(step: Step) {
    step.Base? && step.step.Receive?
  }

  ghost predicate NoneReceived(steps: seq<Step>) {
    forall i | 0 <= i < |steps| :: !IsReceive(steps[i])
  }

  lemma OnlyFramesMoveController(c: Config, s: State, step: Step)
    requires ValidConfig(c) && ValidState(c, s) && Enabled(c, s, step) && !IsReceive(step)
    ensures Next(c, s, step).sys.hwc == s.sys.hwc
  {
    hide Daq.Next, Daq.Order, Daq.NextHeader, Sync.ProcessFrame;
  }

  lemma {:induction false} ControllerStays(c: Config, s: State, steps: seq<Step>, s': State)
    requires ValidConfig(c) && ValidState(c, s) && Reaches(c, s, steps, s') && NoneReceived(steps)
    ensures s'.sys.hwc == s.sys.hwc
    decreases |steps|
  {
    hide Next, Enabled, IsReceive;
    if steps != [] {
      OnlyFramesMoveController(c, s, steps[0]);
      ControllerStays(c, Next(c, s, steps[0]), steps[1..], s');
    }
  }

  /** Outside its wait the controller sees no frame that disagrees with it. */
  lemma HeadAgrees(c: Config, s: State)
    requires ValidConfig(c) && ValidState(c, s) && LoopInv(c, s) && s.sys.hwc.fsm.StateIqCal?
    requires s.sys.queue != [] && !IsDummy(s.sys.queue[0])
    ensures Agrees(c.loop.hwc, s.sys.hwc, s.sys.queue[0])
  {
    hide UserGains.GainsInForce, QuietStart, BurstInStep, Stalled, Blinded;
    assert Line(s.sys)[0] == (s.sys.queue[0].noiseSourceState == 1);
  }

  /** While the controller waits and nothing is pending, the receiver process has the noise state it waits for. */
  lemma ReceiverHasSwitched(c: Config, s: State)
    requires ValidConfig(c) && ValidState(c, s) && LoopInv(c, s)
    requires s.sys.hwc.fsm.StateNoiseCtrWait? && s.sys.pending == []
    ensures s.sys.daq.noiseSourceState == s.sys.hwc.noiseSourceState
    ensures s.sys.daq.newGains == Hwc.GainValues(c.loop.hwc, s.sys.hwc.gains)
  {
    hide QuietStart, BurstInStep, Stalled, Blinded, UserGains.Kept, Line, Follows, Hwc.GainValues;
    WaitEnds.LastOfLine(s.sys);
  }

  /** The frame at the head is handled, and nothing more is until all commands are delivered. */
  ghost predicate Delivers(c: Config, s: State, approval: bool, request: Option<Hwc.Request>, steps: seq<Step>,
                           s': State)
    requires ValidConfig(c) && ValidState(c, s)
  {
    var step := Base(Control.Receive(approval, request));
    && Enabled(c, s, step) && Reaches(c, Next(c, s, step), steps, s') && NoneReceived(steps) && s'.sys.pending == []
  }

  lemma DeliveryKeeps(c: Config, s: State, approval: bool, request: Option<Hwc.Request>, steps: seq<Step>, s': State)
    requires ValidConfig(c) && ValidState(c, s) && LoopInv(c, s) && Safe(c)
    requires Delivers(c, s, approval, request, steps, s')
    ensures ValidState(c, s') && LoopInv(c, s')
    ensures s'.sys.hwc == Hwc.ProcessFrame(c.loop.hwc, s.sys.hwc, s.sys.queue[0], approval, request).0
  {
    hide LoopInv, Reaches, Safe, NoneReceived, Hwc.ProcessFrame, Control.Chosen;
    var step := Base(Control.Receive(approval, request));
    LoopStepKeeps(c, s, step);
    LoopRunKeeps(c, Next(c, s, step), steps, s');
    ControllerStays(c, Next(c, s, step), steps, s');
  }

  /**
   * In every run of a safe configuration, in every track mode: a frame at the head that is in lock while the source is
   * on leads to a receiver process with the source off, told the gains kept aside, once the commands are
   * delivered; from then on it sends dummy and DATA frames, for which the synchronizer waits in its lock.
   */
  lemma LockReleasesSource(c: Config, gain: nat, freq: nat, header: IqHeader, gains: seq<nat>, tune: bool,
                           adjust: Sync.Vector, before: seq<Step>, s: State, approval: bool,
                           request: Option<Hwc.Request>, steps: seq<Step>, s': State, m: Daq.Measured)
    requires ValidConfig(c) && Safe(c) && Hwc.ValidGainList(c.loop.hwc, gains) && |header.ifGains| == 32
    requires |adjust| == c.sync.chNum && ValidState(c, Initial(c, gain, freq, header, gains, tune, adjust))
    requires Reaches(c, Initial(c, gain, freq, header, gains, tune, adjust), before, s) && ValidState(c, s)
    requires Delivers(c, s, approval, request, steps, s')
    requires s.sys.hwc.fsm.StateIqCal? && !IsDummy(s.sys.queue[0])
    requires ReleasesSource(c.loop.hwc, s.sys.hwc, s.sys.queue[0], approval)
    requires !StartsBurst(c.loop.hwc, s.sys.hwc, s.sys.queue[0]) && !EndsBurst(c.loop.hwc, s.sys.hwc, s.sys.queue[0])
    ensures ValidState(c, s') && !s'.sys.daq.noiseSourceState && s'.sys.hwc.fsm.StateNoiseCtrWait?
    ensures (request.Some? && request.value.Gain?)
            || s'.sys.daq.newGains == Hwc.GainValues(c.loop.hwc, Hwc.Unify(c.loop.hwc, s.sys.hwc.lastGains))
    ensures Daq.NextHeader(c.loop.daq, s'.sys.daq, m).frameType ==
            if s'.sys.daq.enDummyFrame then FRAME_TYPE_DUMMY else FRAME_TYPE_DATA
  {
    hide LoopInv, Reaches, Safe, Agrees, ReleasesSource, StartsBurst, EndsBurst, Hwc.ProcessFrame, SendsOff, Initial,
         Hwc.Unify, Hwc.GainValues, Switches;
    InitialLoopInv(c, gain, freq, header, gains, tune, adjust);
    LoopRunKeeps(c, Initial(c, gain, freq, header, gains, tune, adjust), before, s);
    HeadAgrees(c, s);
    DeliveryKeeps(c, s, approval, request, steps, s');
    LockSwitchesOff(c.loop.hwc, s.sys.hwc, s.sys.queue[0], approval, request);
    ReceiverHasSwitched(c, s');
  }

  /** Likewise a frame below the lock while the source is off leads to a source that is on and to calibration frames. */
  lemma LossStartsSource(c: Config, gain: nat, freq: nat, header: IqHeader, gains: seq<nat>, tune: bool,
                         adjust: Sync.Vector, before: seq<Step>, s: State, approval: bool,
                         request: Option<Hwc.Request>, steps: seq<Step>, s': State, m: Daq.Measured)
    requires ValidConfig(c) && Safe(c) && Hwc.ValidGainList(c.loop.hwc, gains) && |header.ifGains| == 32
    requires |adjust| == c.sync.chNum && ValidState(c, Initial(c, gain, freq, header, gains, tune, adjust))
    requires Reaches(c, Initial(c, gain, freq, header, gains, tune, adjust), before, s) && ValidState(c, s)
    requires Delivers(c, s, approval, request, steps, s')
    requires s.sys.hwc.fsm.StateIqCal? && !IsDummy(s.sys.queue[0])
    requires NeedsSource(c.loop.hwc, s.sys.hwc, s.sys.queue[0])
    ensures ValidState(c, s') && s'.sys.daq.noiseSourceState && s'.sys.hwc.fsm.StateNoiseCtrWait?
    ensures Daq.NextHeader(c.loop.daq, s'.sys.daq, m).frameType ==
            if s'.sys.daq.enDummyFrame then FRAME_TYPE_DUMMY else FRAME_TYPE_CAL
  {
    hide LoopInv, Reaches, Safe, Agrees, NeedsSource, Hwc.ProcessFrame, SendsOn, Initial, Hwc.GainValues, Switches;
    InitialLoopInv(c, gain, freq, header, gains, tune, adjust);
    LoopRunKeeps(c, Initial(c, gain, freq, header, gains, tune, adjust), before, s);
    HeadAgrees(c, s);
    DeliveryKeeps(c, s, approval, request, steps, s');
    LossSwitchesOn(c.loop.hwc, s.sys.hwc, s.sys.queue[0], approval, request);
    ReceiverHasSwitched(c, s');
  }

  // ---- the user's AGC ----

  /** Whether the user wants the AGC: a gain request ends it only while the noise source is off. */
  function AgcChosen(s: Hwc.State, s': Hwc.State, h: IqHeader, request: Option<Hwc.Request>, wanted: bool): bool {
    if IsDummy(h) || !s.fsm.StateIqCal? || request.None? then wanted
    else
      match request.value
      case Agc => true
      case Gain(_) => wanted && s'.noiseSourceState
      case _ => wanted
  }

  /** The AGC state chosen is in force while the source is off, and kept aside while it is on and the AGC is off. */
  ghost predicate AgcKept(s: Hwc.State, wanted: bool) {
    if s.noiseSourceState then !s.agc && s.lastAgc == wanted else s.agc == wanted
  }

  lemma FollowKeepsAgc(c: Hwc.Config, s: Hwc.State, h: IqHeader, approval: bool, wanted: bool)
    requires Agrees(c, s, h) && AgcKept(s, wanted)
    ensures AgcKept(Hwc.FollowSync(c, s, h, approval).0, wanted)
  {
    hide Hwc.FollowSync, Hwc.NoiseOn, Hwc.NoiseOff, SendsOn, SendsOff;
    FollowSwitches(c, s, h, approval);
    SwitchedOn(c, s, h.rfCenterFreq);
    SwitchedOff(c, s);
    NoiseEffects(c, s, h.rfCenterFreq);
    EffectNoise(c, s, h.rfCenterFreq);
  }

  lemma BurstKeepsAgc(c: Hwc.Config, s: Hwc.State, h: IqHeader, wanted: bool)
    requires Hwc.ValidConfig(c) && Hwc.ValidState(c, s) && AgcKept(s, wanted)
    requires (StartsBurst(c, s, h) ==> !s.noiseSourceState) && (EndsBurst(c, s, h) ==> s.noiseSourceState)
    ensures AgcKept(Hwc.Burst(c, s, h).0, wanted)
  {
    hide Hwc.Burst, Hwc.NoiseOn, Hwc.NoiseOff, SendsOn, SendsOff;
    BurstSwitches(c, s, h);
    var counted := s.(calFrameCntr := s.calFrameCntr + 1);
    SwitchedOn(c, counted, h.rfCenterFreq);
    SwitchedOff(c, counted);
    EffectNoise(c, counted, h.rfCenterFreq);
  }

  lemma RequestKeepsAgc(c: Hwc.Config, s: Hwc.State, r: Hwc.Request, wanted: bool)
    requires Hwc.ValidConfig(c) && Hwc.ValidState(c, s) && Hwc.ValidRequest(c, Some(r))
    requires AgcKept(s, wanted) && Control.SupportedGains(Some(r))
    ensures var s' := Hwc.HandleRequest(c, s, r).0;
            && s'.noiseSourceState == s.noiseSourceState
            && AgcKept(s', if r.Agc? then true else if r.Gain? then wanted && s.noiseSourceState else wanted)
  {
    hide Hwc.Overwrite, Hwc.Unify, Hwc.GainValues;
    if r.Gain? {
      UserGains.OverwriteSupported(s.gains, r.values, 0);
      UserGains.OverwriteSupported(s.lastGains, r.values, 0);
    }
  }

  lemma FrameKeepsAgc(c: Hwc.Config, s: Hwc.State, h: IqHeader, approval: bool, request: Option<Hwc.Request>,
                      wanted: bool)
    requires Agrees(c, s, h) && Hwc.ValidRequest(c, request) && Control.SupportedGains(request)
    requires Harmless(c, s, h) && BurstInStep(c, s) && AgcKept(s, wanted)
    ensures var s' := Hwc.ProcessFrame(c, s, h, approval, request).0;
            AgcKept(s', AgcChosen(s, s', h, request, wanted))
  {
    hide Hwc.FollowSync, Hwc.Burst, Hwc.HandleRequest, AgcKept, Control.SupportedGains, BurstInStep, Harmless;
    FollowKeepsAgc(c, s, h, approval, wanted);
    var s1 := Hwc.FollowSync(c, s, h, approval).0;
    if c.calTrackMode == 2 && h.syncState == 6 {
      UserGains.BurstFindsSource(c, s, h, approval);
    }
    BurstKeepsAgc(c, s1, h, wanted);
    if request.Some? {
      RequestKeepsAgc(c, Hwc.Burst(c, s1, h).0, request.value, wanted);
    }
  }

  lemma EarlyKeepsAgc(c: Hwc.Config, s: Hwc.State, h: IqHeader, approval: bool, request: Option<Hwc.Request>,
                      wanted: bool)
    requires Hwc.ValidConfig(c) && Hwc.ValidState(c, s) && |h.ifGains| == 32 && Hwc.ValidRequest(c, request)
    requires (IsDummy(h) || !s.fsm.StateIqCal?) && AgcKept(s, wanted)
    ensures AgcKept(Hwc.ProcessFrame(c, s, h, approval, request).0, wanted)
  {
    hide Hwc.IqCal, Hwc.Unify, Hwc.GainValues, Hwc.GainsMatch, Hwc.TuneUpTo;
  }

  /** What the user wants of the AGC after one step. */
  function WantedNext(c: Config, s: State, step: Step, wanted: bool): bool
    requires ValidConfig(c) && ValidState(c, s) && Enabled(c, s, step)
  {
    if IsReceive(step)
    then AgcChosen(s.sys.hwc, Next(c, s, step).sys.hwc, s.sys.queue[0], step.step.request, wanted)
    else wanted
  }

  /** What the user wants of the AGC after a run of the loop. */
  function WantedAlong(c: Config, s: State, steps: seq<Step>, s': State, wanted: bool): bool
    requires ValidConfig(c) && ValidState(c, s) && Reaches(c, s, steps, s')
    decreases |steps|
  {
    if steps == [] then wanted
    else WantedAlong(c, Next(c, s, steps[0]), steps[1..], s', WantedNext(c, s, steps[0], wanted))
  }

  lemma StepKeepsAgc(c: Config, s: State, step: Step, wanted: bool)
    requires ValidConfig(c) && ValidState(c, s) && Enabled(c, s, step) && Safe(c) && LoopInv(c, s)
    requires AgcKept(s.sys.hwc, wanted)
    ensures AgcKept(Next(c, s, step).sys.hwc, WantedNext(c, s, step, wanted))
  {
    hide AgcKept, LoopInv, Safe, Hwc.ProcessFrame, Control.Chosen, Control.SupportedGains;
    if IsReceive(step) {
      var hwc, h := s.sys.hwc, s.sys.queue[0];
      if hwc.fsm.StateIqCal? && !IsDummy(h) {
        HeadAgrees(c, s);
        FrontIsHarmless(c, s);
        InStepWithBurst(c, s);
        FrameKeepsAgc(c.loop.hwc, hwc, h, step.step.approval, step.step.request, wanted);
      } else {
        EarlyKeepsAgc(c.loop.hwc, hwc, h, step.step.approval, step.step.request, wanted);
      }
    } else {
      OnlyFramesMoveController(c, s, step);
    }
  }

  lemma InStepWithBurst(c: Config, s: State)
    requires ValidConfig(c) && ValidState(c, s) && LoopInv(c, s)
    ensures BurstInStep(c.loop.hwc, s.sys.hwc)
  {
  }

  lemma {:induction false} RunKeepsAgc(c: Config, s: State, steps: seq<Step>, s': State, wanted: bool)
    requires ValidConfig(c) && ValidState(c, s) && Reaches(c, s, steps, s') && Safe(c) && LoopInv(c, s)
    requires AgcKept(s.sys.hwc, wanted)
    ensures AgcKept(s'.sys.hwc, WantedAlong(c, s, steps, s', wanted))
    decreases |steps|
  {
    hide Next, Enabled, AgcKept, LoopInv, Safe, WantedNext;
    if steps != [] {
      StepKeepsAgc(c, s, steps[0], wanted);
      LoopStepKeeps(c, s, steps[0]);
      RunKeepsAgc(c, Next(c, s, steps[0]), steps[1..], s', WantedNext(c, s, steps[0], wanted));
    }
  }

  /**
   * In every run of a safe configuration the AGC state chosen by the requests is in force whenever the source is
   * off; it is kept aside, with the AGC off, whenever the source is on.
   */
  lemma AgcSurvives(c: Config, gain: nat, freq: nat, header: IqHeader, gains: seq<nat>, tune: bool,
                    adjust: Sync.Vector, steps: seq<Step>, s: State)
    requires ValidConfig(c) && Safe(c) && Hwc.ValidGainList(c.loop.hwc, gains) && |header.ifGains| == 32
    requires |adjust| == c.sync.chNum && ValidState(c, Initial(c, gain, freq, header, gains, tune, adjust))
    requires Reaches(c, Initial(c, gain, freq, header, gains, tune, adjust), steps, s)
    ensures var wanted := WantedAlong(c, Initial(c, gain, freq, header, gains, tune, adjust), steps, s, false);
            if s.sys.hwc.noiseSourceState then !s.sys.hwc.agc && s.sys.hwc.lastAgc == wanted
            else s.sys.hwc.agc == wanted
  {
    hide LoopInv, Reaches, Safe, WantedAlong;
    InitialLoopInv(c, gain, freq, header, gains, tune, adjust);
    RunKeepsAgc(c, Initial(c, gain, freq, header, gains, tune, adjust), steps, s, false);
  }
}
