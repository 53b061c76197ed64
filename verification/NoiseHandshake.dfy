/**
 * The noise source handshake: in every run of the control loop, whatever frames are lost, however
 * they are stamped and whatever else is commanded, the frames in flight carry the noise state the
 * controller believes in, or switch to it exactly once while the controller waits for the switch.
 */
module NoiseHandshake {
  import opened Common
  import opened IqHeaders
  import opened ControlLoop
  import Daq = RtlDaq
  import Hwc = HwController

  // ---- the line of noise states between the controller and itself ----

  /** The noise switches among commands, in order. */
  function Switches(cmds: seq<Daq.Command>): seq<bool> {
    if cmds == [] then []
    else (if cmds[0].SwitchNoise? then [cmds[0].on] else []) + Switches(cmds[1..])
  }

  function QueueNoise(queue: seq<IqHeader>): (r: seq<bool>)
    ensures |r| == |queue|
  {
    seq(|queue|, i requires 0 <= i < |queue| => queue[i].noiseSourceState == 1)
  }

  /** Noise states of the frames in flight, of the receiver process, and of the switches on their way to it. */
  function Line(s: System): (r: seq<bool>)
    ensures |s.queue| < |r|
    ensures forall i | 0 <= i < |s.queue| :: r[i] == (s.queue[i].noiseSourceState == 1)
  {
    QueueNoise(s.queue) + [s.daq.noiseSourceState] + Switches(s.pending)
  }

  ghost predicate Settled(line: seq<bool>, noise: bool) {
    forall i | 0 <= i < |line| :: line[i] == noise
  }

  /** Old states first, then new ones, and the last state is new. */
  ghost predicate Switching(line: seq<bool>, noise: bool) {
    && line != [] && line[|line| - 1] == noise
    && forall i, j | 0 <= i < j < |line| && line[i] == noise :: line[j] == noise
  }

  ghost predicate Follows(line: seq<bool>, s: Hwc.State) {
    if s.fsm.StateNoiseCtrWait? then Switching(line, s.noiseSourceState) else Settled(line, s.noiseSourceState)
  }

  /** The burst counter: past the interval the noise source is on, on the way there it is off. */
  ghost predicate BurstInStep(c: Hwc.Config, s: Hwc.State) {
    if c.calTrackMode != 2 then s.calFrameCntr == 0
    else
      && (c.calFrameInterval <= s.calFrameCntr ==> s.noiseSourceState)
      && (1 <= s.calFrameCntr < c.calFrameInterval ==> !s.noiseSourceState)
      && s.calFrameCntr < c.calFrameInterval + c.calFrameBurstSize
  }

  /** The configurations in which the handshake works. */
  predicate Sound(c: Hwc.Config) {
    c.calTrackMode == 2 ==> 2 <= c.calFrameInterval && !c.requireTrackLockIntervention
  }

  /** Only a frame stamped "track" while the noise source is on and no burst is counted can break the handshake. */
  predicate Harmless(c: Hwc.Config, s: Hwc.State, h: IqHeader) {
    || Sound(c) || !s.fsm.StateIqCal?
    || h.syncState != 6 || !s.noiseSourceState || s.calFrameCntr != 0
  }

  ghost predicate Handshake(c: Config, s: System) {
    && (forall i | 0 <= i < |s.queue| :: s.queue[i].noiseSourceState <= 1)
    && Follows(Line(s), s.hwc)
    && BurstInStep(c.hwc, s.hwc)
  }

  /** Until calibration starts the noise source is off and no burst is counted. */
  ghost predicate QuietStart(s: Hwc.State) {
    s.fsm.StateInit? || s.fsm.StateGainCtrWait? || s.fsm.StateGainTune? ==>
      !s.noiseSourceState && s.calFrameCntr == 0
  }

  // ---- lines ----

  lemma {:induction false} NoSwitches(cmds: seq<Daq.Command>)
    requires forall i | 0 <= i < |cmds| :: !cmds[i].SwitchNoise?
    ensures Switches(cmds) == []
  {
    if cmds != [] {
      NoSwitches(cmds[1..]);
    }
  }

  lemma {:induction false} SwitchesConcat(a: seq<Daq.Command>, b: seq<Daq.Command>)
    ensures Switches(a + b) == Switches(a) + Switches(b)
  {
    if a == [] {
      assert a + b == b;
    } else {
      SwitchesConcat(a[1..], b);
      assert (a + b)[1..] == a[1..] + b;
    }
  }

  lemma DropState(line: seq<bool>, i: nat, s: Hwc.State)
    requires i < |line| - 1 && Follows(line, s)
    ensures Follows(line[..i] + line[i + 1..], s)
  {
  }

  lemma RepeatState(line: seq<bool>, i: nat, s: Hwc.State)
    requires i < |line| && Follows(line, s)
    ensures Follows(line[..i + 1] + line[i..], s)
  {
  }

  // ---- steps other than the controller's ----

  /** A turn repeats the noise state of the receiver process at the end of the queue. */
  lemma TurnLine(c: Config, s: System, m: Daq.Measured, hw: Daq.Hardware)
    requires ValidConfig(c) && ValidSystem(c, s) && Enabled(c, s, Turn(m, hw))
    ensures Line(Next(c, s, Turn(m, hw))) ==
            if s.daq.left then Line(s) else Line(s)[..|s.queue| + 1] + Line(s)[|s.queue|..]
  {
    hide Daq.Retune, Daq.Changes, Daq.IfGains, Switches;
    var s' := Next(c, s, Turn(m, hw));
    if !s.daq.left {
      assert QueueNoise(s'.queue) == QueueNoise(s.queue) + [s.daq.noiseSourceState];
    }
  }

  lemma TurnKeeps(c: Config, s: System, m: Daq.Measured, hw: Daq.Hardware)
    requires ValidConfig(c) && ValidSystem(c, s) && Enabled(c, s, Turn(m, hw)) && Handshake(c, s)
    ensures Handshake(c, Next(c, s, Turn(m, hw)))
  {
    hide Daq.Retune, Daq.Changes, Daq.IfGains, Follows, BurstInStep, Line;
    TurnLine(c, s, m, hw);
    RepeatState(Line(s), |s.queue|, s.hwc);
  }

  lemma OrderNoise(c: Config, daq: Daq.State, cmd: Daq.Command)
    requires Daq.ValidState(c.daq, daq) && Daq.ValidCommand(c.daq, cmd)
    ensures Daq.Order(c.daq, daq, cmd).noiseSourceState ==
            if cmd.SwitchNoise? then cmd.on else daq.noiseSourceState
  {
  }

  /** A delivered switch takes the place of the process's state. */
  lemma DeliverLine(c: Config, s: System)
    requires ValidConfig(c) && ValidSystem(c, s) && s.pending != []
    ensures Line(Next(c, s, Deliver)) ==
            if s.pending[0].SwitchNoise? then Line(s)[..|s.queue|] + Line(s)[|s.queue| + 1..] else Line(s)
    ensures s.pending[0].SwitchNoise? ==> |s.queue| < |Line(s)| - 1
  {
    hide Daq.Order;
    OrderNoise(c, s.daq, s.pending[0]);
  }

  lemma DeliverKeeps(c: Config, s: System)
    requires ValidConfig(c) && ValidSystem(c, s) && s.pending != [] && Handshake(c, s)
    ensures Handshake(c, Next(c, s, Deliver))
  {
    hide Follows, BurstInStep, Daq.Order, Line;
    DeliverLine(c, s);
    if s.pending[0].SwitchNoise? {
      DropState(Line(s), |s.queue|, s.hwc);
    }
  }

  lemma LoseLine(c: Config, s: System, i: nat)
    requires ValidConfig(c) && ValidSystem(c, s) && i < |s.queue|
    ensures Line(Next(c, s, Lose(i))) == Line(s)[..i] + Line(s)[i + 1..]
  {
    hide Switches;
    var s' := Next(c, s, Lose(i));
    assert QueueNoise(s'.queue) == QueueNoise(s.queue)[..i] + QueueNoise(s.queue)[i + 1..];
  }

  lemma LoseKeeps(c: Config, s: System, i: nat)
    requires ValidConfig(c) && ValidSystem(c, s) && i < |s.queue| && Handshake(c, s)
    ensures Handshake(c, Next(c, s, Lose(i)))
  {
    hide Follows, BurstInStep, Line;
    LoseLine(c, s, i);
    LineIsLonger(s);
    DropState(Line(s), i, s.hwc);
  }

  lemma LineIsLonger(s: System)
    ensures |s.queue| < |Line(s)|
  {
  }

  lemma MarkLine(c: Config, s: System, i: nat, stamp: Stamp)
    requires ValidConfig(c) && ValidSystem(c, s) && i < |s.queue|
    ensures Line(Next(c, s, Mark(i, stamp))) == Line(s)
  {
    hide Switches;
    assert QueueNoise(Next(c, s, Mark(i, stamp)).queue) == QueueNoise(s.queue);
  }

  lemma MarkKeeps(c: Config, s: System, i: nat, stamp: Stamp)
    requires ValidConfig(c) && ValidSystem(c, s) && i < |s.queue| && Handshake(c, s)
    ensures Handshake(c, Next(c, s, Mark(i, stamp)))
  {
    hide Follows, BurstInStep, Line;
    MarkLine(c, s, i, stamp);
  }

  // ---- the controller's step ----

  /** What a frame does to the controller's belief, and the switches it orders. */
  datatype Effect = Effect(fsm: Hwc.Fsm, noise: bool, switches: seq<bool>)

  function EffectOf(r: (Hwc.State, seq<Daq.Command>)): Effect {
    Effect(r.0.fsm, r.0.noiseSourceState, Switches(r.1))
  }

  lemma NoiseEffects(c: Hwc.Config, s: Hwc.State, freq: nat)
    requires Hwc.ValidConfig(c) && Hwc.ValidState(c, s)
    ensures EffectOf(Hwc.NoiseOn(c, s, freq)) == Effect(Hwc.StateNoiseCtrWait, true, [true])
    ensures EffectOf(Hwc.NoiseOff(c, s)) == Effect(Hwc.StateNoiseCtrWait, false, [false])
    ensures Hwc.NoiseOn(c, s, freq).0.calFrameCntr == s.calFrameCntr
    ensures Hwc.NoiseOff(c, s).0.calFrameCntr == s.calFrameCntr
  {
    hide Hwc.Unify, Hwc.GainValues, Hwc.CalGain;
    SwitchesConcat(Hwc.ChangeGains(c, s).1, [Daq.SwitchNoise(true)]);
    var gainCmd := Hwc.ChangeGains(c, s.(noiseSourceState := false, gains := s.lastGains)).1;
    var agcCmd := if s.lastAgc then [Daq.EnableAgc] else [];
    assert Switches(agcCmd) == [];
    SwitchesConcat([Daq.SwitchNoise(false)], gainCmd);
    SwitchesConcat([Daq.SwitchNoise(false)] + gainCmd, agcCmd);
  }

  lemma RequestEffect(c: Hwc.Config, s: Hwc.State, r: Hwc.Request)
    requires Hwc.ValidConfig(c) && Hwc.ValidState(c, s) && Hwc.ValidRequest(c, Some(r))
    ensures EffectOf(Hwc.HandleRequest(c, s, r)) == Effect(s.fsm, s.noiseSourceState, [])
    ensures Hwc.HandleRequest(c, s, r).0.calFrameCntr == s.calFrameCntr
  {
    hide Hwc.Unify, Hwc.GainValues, Hwc.Overwrite;
    NoSwitches(Hwc.HandleRequest(c, s, r).1);
  }

  /** Following the synchronizer and counting bursts switch the source at most once between them. */
  lemma CalibrationEffect(c: Hwc.Config, s: Hwc.State, h: IqHeader, approval: bool)
    requires Hwc.ValidConfig(c) && Hwc.ValidState(c, s) && Harmless(c, s, h)
    requires s.fsm.StateIqCal? && BurstInStep(c, s)
    requires h.noiseSourceState == if s.noiseSourceState then 1 else 0
    ensures var (s1, cmds1) := Hwc.FollowSync(c, s, h, approval);
            var (s2, cmds2) := Hwc.Burst(c, s1, h);
            && BurstInStep(c, s2)
            && EffectOf((s2, cmds1 + cmds2)) in
                 {Effect(Hwc.StateIqCal, s.noiseSourceState, []),
                  Effect(Hwc.StateNoiseCtrWait, !s.noiseSourceState, [!s.noiseSourceState])}
  {
    hide Hwc.NoiseOn, Hwc.NoiseOff, Switches;
    var (s1, cmds1) := Hwc.FollowSync(c, s, h, approval);
    var counted := s1.(calFrameCntr := s1.calFrameCntr + 1);
    NoiseEffects(c, s, h.rfCenterFreq);
    NoiseEffects(c, counted, h.rfCenterFreq);
    NoSwitches([]);
    assert cmds1 + [] == cmds1 && [] + Hwc.Burst(c, s1, h).1 == Hwc.Burst(c, s1, h).1;
  }

  lemma IqCalEffect(c: Hwc.Config, s: Hwc.State, h: IqHeader, approval: bool, request: Option<Hwc.Request>)
    requires Hwc.ValidConfig(c) && Hwc.ValidState(c, s) && Hwc.ValidRequest(c, request) && Harmless(c, s, h)
    requires s.fsm.StateIqCal? && BurstInStep(c, s)
    requires h.noiseSourceState == if s.noiseSourceState then 1 else 0
    ensures var r := Hwc.IqCal(c, s, h, approval, request);
            && BurstInStep(c, r.0)
            && EffectOf(r) in {Effect(Hwc.StateIqCal, s.noiseSourceState, []),
                               Effect(Hwc.StateNoiseCtrWait, !s.noiseSourceState, [!s.noiseSourceState])}
  {
    hide Hwc.FollowSync, Hwc.Burst, Hwc.HandleRequest, Switches;
    CalibrationEffect(c, s, h, approval);
    var (s1, cmds1) := Hwc.FollowSync(c, s, h, approval);
    var (s2, cmds2) := Hwc.Burst(c, s1, h);
    NoSwitches([]);
    if request.Some? {
      RequestEffect(c, s2, request.value);
      var (s3, cmds3) := Hwc.HandleRequest(c, s2, request.value);
      SwitchesConcat(cmds1 + cmds2, cmds3);
      assert EffectOf((s3, cmds3)).switches == [];
      assert Switches(cmds1 + cmds2 + cmds3) == Switches(cmds1 + cmds2);
    } else {
      assert cmds1 + cmds2 + [] == cmds1 + cmds2;
    }
  }

  /** In the states before calibration nothing is switched on. */
  lemma QuietEffect(c: Hwc.Config, s: Hwc.State, h: IqHeader, approval: bool, request: Option<Hwc.Request>)
    requires Hwc.ValidConfig(c) && Hwc.ValidState(c, s) && |h.ifGains| == 32 && Hwc.ValidRequest(c, request)
    requires QuietStart(s) && !s.fsm.StateIqCal? && !s.fsm.StateNoiseCtrWait?
    ensures var r := Hwc.ProcessFrame(c, s, h, approval, request);
            && !r.0.noiseSourceState && r.0.calFrameCntr == 0 && !r.0.fsm.StateNoiseCtrWait?
            && Switches(r.1) in {[], [false]}
  {
    hide Hwc.Unify, Hwc.GainValues, Hwc.TuneUpTo, Hwc.GainsMatch, Hwc.IqCal;
    if s.fsm.StateInit? {
      NoSwitches(Hwc.ChangeGains(c, s).1);
      SwitchesConcat(Hwc.ChangeGains(c, s).1, [Daq.SwitchNoise(false)]);
      NoSwitches([]);
      assert Switches(Hwc.ChangeGains(c, s).1 + [Daq.SwitchNoise(false)]) == [false];
      var r := Hwc.ProcessFrame(c, s, h, approval, request);
      assert !IsDummy(h) ==> r.1 == Hwc.ChangeGains(c, s).1 + [Daq.SwitchNoise(false)];
    } else {
      NoSwitches(Hwc.ProcessFrame(c, s, h, approval, request).1);
    }
  }

  /** One frame changes the controller's belief together with the line, or not at all. */
  ghost predicate InStep(s: Hwc.State, s': Hwc.State, front: bool, switches: seq<bool>) {
    if s'.fsm.StateNoiseCtrWait? && !s.fsm.StateNoiseCtrWait? then
      s'.noiseSourceState == !s.noiseSourceState && switches == [s'.noiseSourceState]
    else
      && s'.noiseSourceState == s.noiseSourceState
      && switches in {[], [s.noiseSourceState]}
      && (s.fsm.StateNoiseCtrWait? ==> switches == [] && (s'.fsm.StateNoiseCtrWait? || front == s.noiseSourceState))
  }

  lemma FrameEffect(c: Hwc.Config, s: Hwc.State, h: IqHeader, approval: bool, request: Option<Hwc.Request>)
    requires Hwc.ValidConfig(c) && Hwc.ValidState(c, s) && |h.ifGains| == 32 && Hwc.ValidRequest(c, request)
    requires Harmless(c, s, h) && BurstInStep(c, s) && QuietStart(s) && h.noiseSourceState <= 1
    requires !s.fsm.StateNoiseCtrWait? ==> (h.noiseSourceState == 1) == s.noiseSourceState
    ensures var r := Hwc.ProcessFrame(c, s, h, approval, request);
            && InStep(s, r.0, h.noiseSourceState == 1, Switches(r.1))
            && BurstInStep(c, r.0) && QuietStart(r.0)
  {
    hide Hwc.IqCal, Switches, Hwc.GainsMatch, Hwc.TuneGains, Hwc.ChangeGains;
    NoSwitches([]);
    if !IsDummy(h) {
      if s.fsm.StateIqCal? {
        IqCalEffect(c, s, h, approval, request);
      } else if !s.fsm.StateNoiseCtrWait? {
        QuietEffect(c, s, h, approval, request);
      }
    }
  }

  lemma LineAdvances(line: seq<bool>, s: Hwc.State, s': Hwc.State, switches: seq<bool>)
    requires 2 <= |line| && Follows(line, s) && InStep(s, s', line[0], switches)
    ensures Follows(line[1..] + switches, s')
  {
  }

  lemma ReceiveKeeps(c: Config, s: System, approval: bool, request: Option<Hwc.Request>)
    requires ValidConfig(c) && ValidSystem(c, s) && Enabled(c, s, Receive(approval, request))
    requires Harmless(c.hwc, s.hwc, s.queue[0]) && Handshake(c, s) && QuietStart(s.hwc)
    ensures var s' := Next(c, s, Receive(approval, request));
            Handshake(c, s') && QuietStart(s'.hwc)
  {
    hide Hwc.ProcessFrame, Switches, InStep, QuietStart, BurstInStep, Chosen;
    var h := s.queue[0];
    var s' := Next(c, s, Receive(approval, request));
    assert Line(s)[0] == (h.noiseSourceState == 1);
    FrameEffect(c.hwc, s.hwc, h, approval, request);
    ReceiveLine(c, s, approval, request);
    LineAdvances(Line(s), s.hwc, s'.hwc, Switches(s'.pending));
  }

  /** A frame leaves the line, and the switches ordered on it join. */
  lemma ReceiveLine(c: Config, s: System, approval: bool, request: Option<Hwc.Request>)
    requires ValidConfig(c) && ValidSystem(c, s) && Enabled(c, s, Receive(approval, request))
    ensures var s' := Next(c, s, Receive(approval, request));
            Line(s') == Line(s)[1..] + Switches(s'.pending)
  {
    hide Hwc.ProcessFrame, Chosen;
    assert Switches(s.pending) == [];
    var s' := Next(c, s, Receive(approval, request));
    assert QueueNoise(s'.queue) == QueueNoise(s.queue)[1..];
  }

  // ---- runs ----

  lemma InitialHandshake(c: Config, gain: nat, freq: nat, header: IqHeader, gains: seq<nat>, tune: bool)
    requires ValidConfig(c) && Hwc.ValidGainList(c.hwc, gains) && |header.ifGains| == 32
    ensures var s := Initial(c, gain, freq, header, gains, tune);
            ValidSystem(c, s) && Handshake(c, s) && QuietStart(s.hwc)
  {
  }

  lemma StepKeepsHandshake(c: Config, s: System, step: Step)
    requires ValidConfig(c) && ValidSystem(c, s) && Enabled(c, s, step)
    requires (step.Receive? ==> Harmless(c.hwc, s.hwc, s.queue[0])) && Handshake(c, s) && QuietStart(s.hwc)
    ensures Handshake(c, Next(c, s, step)) && QuietStart(Next(c, s, step).hwc)
  {
    hide Handshake, QuietStart;
    match step {
      case Turn(m, hw) => TurnKeeps(c, s, m, hw); SameController(c, s, step);
      case NotReady => SameLineKeeps(c, s, step); SameController(c, s, step);
      case Deliver => DeliverKeeps(c, s); SameController(c, s, step);
      case Foreign(cmd) => SameLineKeeps(c, s, step); SameController(c, s, step);
      case Lose(i) => LoseKeeps(c, s, i); SameController(c, s, step);
      case Mark(i, stamp) => MarkKeeps(c, s, i, stamp); SameController(c, s, step);
      case Receive(approval, request) => ReceiveKeeps(c, s, approval, request);
    }
  }

  lemma SameLine(c: Config, s: System, step: Step)
    requires ValidConfig(c) && ValidSystem(c, s) && Enabled(c, s, step) && (step.NotReady? || step.Foreign?)
    ensures Line(Next(c, s, step)) == Line(s) && Next(c, s, step).queue == s.queue
  {
    hide Switches, Daq.Order;
    if step.Foreign? {
      OrderNoise(c, s.daq, step.cmd);
    }
  }

  lemma SameLineKeeps(c: Config, s: System, step: Step)
    requires ValidConfig(c) && ValidSystem(c, s) && Enabled(c, s, step) && (step.NotReady? || step.Foreign?)
    requires Handshake(c, s)
    ensures Handshake(c, Next(c, s, step))
  {
    hide Follows, BurstInStep, Line, Daq.Order;
    SameLine(c, s, step);
  }

  lemma SameController(c: Config, s: System, step: Step)
    requires ValidConfig(c) && ValidSystem(c, s) && Enabled(c, s, step) && !step.Receive?
    ensures Next(c, s, step).hwc == s.hwc && Next(c, s, step).user == s.user
  {
  }

  /** In every run of a sound configuration the handshake holds after every step. */
  lemma {:induction false} RunKeepsHandshake(c: Config, s: System, steps: seq<Step>, s': System)
    requires ValidConfig(c) && ValidSystem(c, s) && Reaches(c, s, steps, s')
    requires Sound(c.hwc) && Handshake(c, s) && QuietStart(s.hwc)
    ensures ValidSystem(c, s') && Handshake(c, s') && QuietStart(s'.hwc)
    decreases |steps|
  {
    hide Handshake, QuietStart, Next;
    if steps != [] {
      StepKeepsHandshake(c, s, steps[0]);
      RunKeepsHandshake(c, Next(c, s, steps[0]), steps[1..], s');
    }
  }

  /**
   * From the start of the chain on: outside the wait state every frame in flight carries the
   * controller's noise state; in the wait state frames with the old state come before frames with the new one.
   */
  lemma FramesFollowController(c: Config, gain: nat, freq: nat, header: IqHeader, gains: seq<nat>, tune: bool,
                               steps: seq<Step>, s: System)
    requires ValidConfig(c) && Hwc.ValidGainList(c.hwc, gains) && |header.ifGains| == 32 && Sound(c.hwc)
    requires ValidSystem(c, Initial(c, gain, freq, header, gains, tune))
    requires Reaches(c, Initial(c, gain, freq, header, gains, tune), steps, s)
    ensures !s.hwc.fsm.StateNoiseCtrWait? ==>
              forall i | 0 <= i < |s.queue| :: (s.queue[i].noiseSourceState == 1) == s.hwc.noiseSourceState
    ensures forall i, j | 0 <= i < j < |s.queue| && (s.queue[i].noiseSourceState == 1) == s.hwc.noiseSourceState ::
              s.queue[j].noiseSourceState == s.queue[i].noiseSourceState
    ensures BurstInStep(c.hwc, s.hwc)
  {
    hide ValidSystem, Reaches;
    InitialHandshake(c, gain, freq, header, gains, tune);
    RunKeepsHandshake(c, Initial(c, gain, freq, header, gains, tune), steps, s);
    var line := Line(s);
    assert Follows(line, s.hwc);
    if s.hwc.fsm.StateNoiseCtrWait? {
      assert Switching(line, s.hwc.noiseSourceState);
    } else {
      assert Settled(line, s.hwc.noiseSourceState);
    }
  }
}
