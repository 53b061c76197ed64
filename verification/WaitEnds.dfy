/**
 * The controller's wait for a switch ends: in every safe configuration, once its commands are delivered and as
 * long as the hardware takes the gains, the first frame with samples sent after that is one it waits for.
 */
module WaitEnds {
  import opened Common
  import opened IqHeaders
  import Daq = RtlDaq
  import Hwc = HwController
  import Sync = DelaySync
  import Control = ControlLoop
  import DummyWindow
  import opened NoiseHandshake
  import opened UserGains
  import opened CalibrationLoop
  import opened LoopSafety

  // ---- gains told and gains in the receivers ----

  /** Every turn that changes the gains succeeds on every receiver. */
  ghost predicate Succeeds(c: Config, step: Step) {
    step.Base? && step.step.Turn? ==>
      forall i | 0 <= i < c.loop.daq.chNo && i < |step.step.hw.gainOk| :: step.step.hw.gainOk[i]
  }

  /** The receivers have the gains told last, or the next turn sets them. */
  ghost predicate Applied(d: Daq.State) {
    d.gainChangeFlag
    || forall i | 0 <= i < |d.receivers| && i < |d.newGains| :: d.receivers[i].gain == d.newGains[i]
  }

  ghost predicate NoGains(cmds: seq<Daq.Command>) {
    forall i | 0 <= i < |cmds| :: !cmds[i].SetGains?
  }

  /** Once the controller has sent its first gains they reach the receivers, and changes mean a dummy window. */
  ghost predicate Informed(c: Config, s: State)
    requires ValidConfig(c) && ValidState(c, s)
  {
    && DummyWindow.WindowInv(s.sys.daq)
    && (!s.sys.hwc.fsm.StateInit? && NoGains(s.sys.pending) ==> Applied(s.sys.daq))
  }

  lemma OrderApplies(c: Config, d: Daq.State, cmd: Daq.Command)
    requires Daq.ValidState(c.loop.daq, d) && Daq.ValidCommand(c.loop.daq, cmd) && DummyWindow.WindowInv(d)
    ensures DummyWindow.WindowInv(Daq.Order(c.loop.daq, d, cmd))
    ensures cmd.SetGains? || Applied(d) ==> Applied(Daq.Order(c.loop.daq, d, cmd))
  {
    DummyWindow.OrderKeepsWindow(c.loop.daq, d, cmd);
  }

  lemma ControlApplies(c: Config, d: Daq.State, hw: Daq.Hardware)
    requires Daq.ValidState(c.loop.daq, d) && Daq.ValidHardware(c.loop.daq, hw) && Applied(d)
    requires forall i | 0 <= i < c.loop.daq.chNo :: hw.gainOk[i]
    ensures Applied(Daq.Control(c.loop.daq, d, hw))
  {
  }

  lemma TurnApplies(c: Config, d: Daq.State, m: Daq.Measured, hw: Daq.Hardware)
    requires ValidConfig(c) && Daq.ValidState(c.loop.daq, d) && Daq.ValidHardware(c.loop.daq, hw)
    requires DummyWindow.WindowInv(d) && forall i | 0 <= i < c.loop.daq.chNo :: hw.gainOk[i]
    ensures var d' := Daq.Next(c.loop.daq, d, Daq.Turn(m, hw)).0;
            DummyWindow.WindowInv(d') && (Applied(d) ==> Applied(d'))
  {
    hide Daq.Control, Daq.Changes, Daq.NextHeader, DummyWindow.WindowInv;
    if !d.left {
      DummyWindow.TurnKeepsWindow(c.loop.daq, d, m, hw);
      if Applied(d) {
        ControlApplies(c, Daq.SendFrame(c.loop.daq, d, m), hw);
      }
    }
  }

  /** The first frame makes the controller send its gains; no frame leads back to its first state. */
  lemma FirstGains(c: Hwc.Config, s: Hwc.State, h: IqHeader, approval: bool, request: Option<Hwc.Request>)
    requires Hwc.ValidConfig(c) && Hwc.ValidState(c, s) && |h.ifGains| == 32 && Hwc.ValidRequest(c, request)
    ensures var (s', cmds) := Hwc.ProcessFrame(c, s, h, approval, request);
            s.fsm.StateInit? && !s'.fsm.StateInit? ==> cmds != [] && cmds[0].SetGains?
  {
    hide Hwc.Unify, Hwc.GainValues;
  }

  lemma NotReadyApplies(c: Config, d: Daq.State)
    requires ValidConfig(c) && Daq.ValidState(c.loop.daq, d) && DummyWindow.WindowInv(d)
    ensures var d' := Daq.Next(c.loop.daq, d, Daq.NotReady).0;
            DummyWindow.WindowInv(d') && (Applied(d) ==> Applied(d'))
  {
  }

  lemma BaseInforms(c: Config, s: State, step: Step)
    requires ValidConfig(c) && ValidState(c, s) && Enabled(c, s, step) && Informed(c, s) && Succeeds(c, step)
    requires step.Base?
    ensures Informed(c, Next(c, s, step))
  {
    hide Daq.Next, Daq.Order, Daq.NextHeader, Hwc.ProcessFrame, DummyWindow.WindowInv, Applied, Control.Chosen;
    match step.step {
      case Turn(m, hw) => TurnApplies(c, s.sys.daq, m, hw);
      case NotReady => NotReadyApplies(c, s.sys.daq);
      case Deliver => OrderApplies(c, s.sys.daq, s.sys.pending[0]);
      case Foreign(cmd) => OrderApplies(c, s.sys.daq, cmd);
      case Receive(approval, request) =>
        FirstGains(c.loop.hwc, s.sys.hwc, s.sys.queue[0], approval, request);
      case _ =>
    }
  }

  lemma SynchronizeInforms(c: Config, s: State, x: Sync.Measured)
    requires ValidConfig(c) && ValidState(c, s) && Enabled(c, s, Synchronize(x)) && Informed(c, s)
    ensures Informed(c, Next(c, s, Synchronize(x)))
  {
    hide Daq.Order, Sync.ProcessFrame, DummyWindow.WindowInv, Applied;
    var r := Sync.ProcessFrame(c.sync, s.sync, Arriving(c, s.sys.queue[s.marked]), x);
    if r.order.Some? {
      OrderApplies(c, s.sys.daq, Daq.CorrectFs(r.order.value));
    }
  }

  lemma {:induction false} RunInforms(c: Config, s: State, steps: seq<Step>, s': State)
    requires ValidConfig(c) && ValidState(c, s) && Reaches(c, s, steps, s') && Informed(c, s)
    requires forall i | 0 <= i < |steps| :: Succeeds(c, steps[i])
    ensures ValidState(c, s') && Informed(c, s')
    decreases |steps|
  {
    hide Informed, Next, Enabled, Succeeds;
    if steps != [] {
      match steps[0] {
        case Base(_) => BaseInforms(c, s, steps[0]);
        case Synchronize(x) => SynchronizeInforms(c, s, x);
      }
      RunInforms(c, Next(c, s, steps[0]), steps[1..], s');
    }
  }

  // ---- the frame that is waited for ----

  /** The controller's wait ends on a frame with this header. */
  ghost predicate Awaited(c: Config, hwc: Hwc.State, h: IqHeader)
    requires ValidConfig(c) && Hwc.ValidState(c.loop.hwc, hwc)
  {
    && |h.ifGains| == 32 && !IsDummy(h) && h.noiseSourceState <= 1
    && (h.noiseSourceState == 1) == hwc.noiseSourceState && Hwc.GainsMatch(c.loop.hwc, hwc.gains, h)
  }

  lemma LastOfLine(s: Control.System)
    requires s.pending == [] && Follows(Line(s), s.hwc) && s.hwc.fsm.StateNoiseCtrWait?
    ensures s.daq.noiseSourceState == s.hwc.noiseSourceState
  {
  }

  /** With all commands delivered, a frame sent outside the dummy window reports what the controller waits for. */
  lemma NextIsAwaited(c: Config, s: State, m: Daq.Measured)
    requires ValidConfig(c) && ValidState(c, s) && LoopInv(c, s) && Informed(c, s)
    requires s.sys.hwc.fsm.StateNoiseCtrWait? && s.sys.pending == [] && !s.sys.daq.enDummyFrame
    ensures Awaited(c, s.sys.hwc, Daq.NextHeader(c.loop.daq, s.sys.daq, m))
  {
    hide Follows, Line, BurstInStep, QuietStart, Kept, Stalled, Blinded;
    LastOfLine(s.sys);
    var h := Daq.NextHeader(c.loop.daq, s.sys.daq, m);
    assert s.sys.daq.newGains == Hwc.GainValues(c.loop.hwc, s.sys.hwc.gains);
    assert !s.sys.daq.gainChangeFlag && Applied(s.sys.daq);
    assert forall i | 0 <= i < c.loop.hwc.chNum :: h.ifGains[i] == s.sys.daq.receivers[i].gain;
  }

  /** The wait ends on exactly these frames; no other changes the controller, and nothing is sent. */
  lemma AwaitedEndsWait(c: Config, hwc: Hwc.State, h: IqHeader, approval: bool, request: Option<Hwc.Request>)
    requires ValidConfig(c) && Hwc.ValidState(c.loop.hwc, hwc) && Hwc.ValidRequest(c.loop.hwc, request)
    requires hwc.fsm.StateNoiseCtrWait? && |h.ifGains| == 32
    ensures var r := Hwc.ProcessFrame(c.loop.hwc, hwc, h, approval, request);
            && r.1 == [] && (r.0 == hwc || r.0 == hwc.(fsm := Hwc.StateIqCal))
            && (r.0.fsm.StateIqCal? <==> Awaited(c, hwc, h))
  {
    hide Hwc.IqCal;
  }

  // ---- runs ----

  /** Where the frame at position `p` stands after a step; nowhere once it is lost or handled. */
  function Moved(c: Config, s: State, step: Step, p: nat): Option<nat>
    requires ValidConfig(c) && ValidState(c, s) && Enabled(c, s, step)
  {
    match step
    case Base(b) =>
      if b.Receive? then (if p == 0 then None else Some(p - 1))
      else if b.Lose? then (if b.i == p then None else if b.i < p then Some(p - 1) else Some(p))
      else Some(p)
    case Synchronize(x) =>
      var r := Sync.ProcessFrame(c.sync, s.sync, Arriving(c, s.sys.queue[s.marked]), x);
      if r.stamp.Some? then Some(p)
      else if s.marked == p then None else if s.marked < p then Some(p - 1) else Some(p)
  }

  /** The frame at position `p` is handled by the controller in this run. */
  ghost predicate IsHandled(c: Config, s: State, steps: seq<Step>, p: nat)
    requires ValidConfig(c) && ValidState(c, s)
    decreases |steps|
  {
    && steps != [] && Enabled(c, s, steps[0])
    && ((steps[0].Base? && steps[0].step.Receive? && p == 0)
        || var p' := Moved(c, s, steps[0], p); p'.Some? && IsHandled(c, Next(c, s, steps[0]), steps[1..], p'.value))
  }

  /** The controller waits in every state of this run. */
  ghost predicate Waits(c: Config, s: State, steps: seq<Step>)
    requires ValidConfig(c) && ValidState(c, s)
    decreases |steps|
  {
    && s.sys.hwc.fsm.StateNoiseCtrWait?
    && (steps != [] ==> Enabled(c, s, steps[0]) && Waits(c, Next(c, s, steps[0]), steps[1..]))
  }

  ghost predicate AwaitedAt(c: Config, s: State, p: nat)
    requires ValidConfig(c) && ValidState(c, s)
  {
    && s.sys.hwc.fsm.StateNoiseCtrWait? && s.sys.pending == []
    && p < |s.sys.queue| && Awaited(c, s.sys.hwc, s.sys.queue[p])
  }

  lemma StepKeepsAwaited(c: Config, s: State, step: Step, p: nat)
    requires ValidConfig(c) && ValidState(c, s) && Enabled(c, s, step) && AwaitedAt(c, s, p)
    requires Next(c, s, step).sys.hwc.fsm.StateNoiseCtrWait?
    ensures var p' := Moved(c, s, step, p); p'.Some? ==> AwaitedAt(c, Next(c, s, step), p'.value)
    ensures !(step.Base? && step.step.Receive? && p == 0)
  {
    hide Daq.Next, Daq.Order, Daq.NextHeader, Sync.ProcessFrame, Hwc.ProcessFrame, Hwc.GainsMatch, Control.Chosen;
    if step.Base? && step.step.Receive? {
      AwaitedEndsWait(c, s.sys.hwc, s.sys.queue[0], step.step.approval, step.step.request);
    } else if step.Synchronize? {
      StampsKeepAwaited(c, s.sys.hwc);
    }
  }

  /** A stamp changes nothing that is waited for. */
  lemma StampsKeepAwaited(c: Config, hwc: Hwc.State)
    requires ValidConfig(c) && Hwc.ValidState(c.loop.hwc, hwc)
    ensures forall h: IqHeader, stamp: Control.Stamp ::
              Awaited(c, hwc, h) ==> Awaited(c, hwc, Control.Stamped(h, stamp))
  {
  }

  lemma {:induction false} HandledEndsWait(c: Config, s: State, steps: seq<Step>, p: nat)
    requires ValidConfig(c) && ValidState(c, s) && AwaitedAt(c, s, p) && IsHandled(c, s, steps, p)
    ensures !Waits(c, s, steps)
    decreases |steps|
  {
    hide Next, Enabled, Moved, AwaitedAt;
    if Waits(c, s, steps) {
      StillWaiting(c, Next(c, s, steps[0]), steps[1..]);
      StepKeepsAwaited(c, s, steps[0], p);
      HandledEndsWait(c, Next(c, s, steps[0]), steps[1..], Moved(c, s, steps[0], p).value);
    }
  }

  lemma StillWaiting(c: Config, s: State, steps: seq<Step>)
    requires ValidConfig(c) && ValidState(c, s) && Waits(c, s, steps)
    ensures s.sys.hwc.fsm.StateNoiseCtrWait?
  {
  }

  lemma SentIsAwaited(c: Config, s: State, m: Daq.Measured, hw: Daq.Hardware)
    requires ValidConfig(c) && ValidState(c, s) && LoopInv(c, s) && Informed(c, s)
    requires s.sys.hwc.fsm.StateNoiseCtrWait? && s.sys.pending == [] && !s.sys.daq.enDummyFrame && !s.sys.daq.left
    requires Daq.ValidHardware(c.loop.daq, hw)
    ensures var turn := CalibrationLoop.Base(Control.Turn(m, hw));
            Enabled(c, s, turn) && AwaitedAt(c, Next(c, s, turn), |s.sys.queue|)
  {
    hide Daq.Next, Daq.NextHeader, LoopInv, Informed, Awaited;
    NextIsAwaited(c, s, m);
  }

  /**
   * In every run of a safe configuration in which the hardware takes the gains: when the controller waits, its
   * commands are delivered and the dummy window is over, the next frame sent ends the wait, if it is not lost;
   * at the latest, once the controller has handled this frame, its wait has been over.
   */
  lemma WaitIsOver(c: Config, gain: nat, freq: nat, header: IqHeader, gains: seq<nat>, tune: bool, adjust: Sync.Vector,
                   before: seq<Step>, s: State, m: Daq.Measured, hw: Daq.Hardware, steps: seq<Step>)
    requires ValidConfig(c) && Safe(c) && Hwc.ValidGainList(c.loop.hwc, gains) && |header.ifGains| == 32
    requires |adjust| == c.sync.chNum && ValidState(c, Initial(c, gain, freq, header, gains, tune, adjust))
    requires Reaches(c, Initial(c, gain, freq, header, gains, tune, adjust), before, s)
    requires forall i | 0 <= i < |before| :: Succeeds(c, before[i])
    requires s.sys.hwc.fsm.StateNoiseCtrWait? && s.sys.pending == [] && !s.sys.daq.enDummyFrame && !s.sys.daq.left
    requires Daq.ValidHardware(c.loop.daq, hw)
    ensures ValidState(c, s) && Enabled(c, s, CalibrationLoop.Base(Control.Turn(m, hw)))
    ensures var sent := Next(c, s, CalibrationLoop.Base(Control.Turn(m, hw)));
            IsHandled(c, sent, steps, |s.sys.queue|) ==> !Waits(c, sent, steps)
  {
    hide Reaches, Initial, LoopInv, Informed, IsHandled, Waits, AwaitedAt, Next, Succeeds, Safe;
    var s0 := Initial(c, gain, freq, header, gains, tune, adjust);
    InitialLoopInv(c, gain, freq, header, gains, tune, adjust);
    InitiallyInformed(c, gain, freq, header, gains, tune, adjust);
    LoopRunKeeps(c, s0, before, s);
    RunInforms(c, s0, before, s);
    SentIsAwaited(c, s, m, hw);
    var sent := Next(c, s, CalibrationLoop.Base(Control.Turn(m, hw)));
    if IsHandled(c, sent, steps, |s.sys.queue|) {
      HandledEndsWait(c, sent, steps, |s.sys.queue|);
    }
  }

  lemma InitiallyInformed(c: Config, gain: nat, freq: nat, header: IqHeader, gains: seq<nat>, tune: bool,
                          adjust: Sync.Vector)
    requires ValidConfig(c) && ValidState(c, Initial(c, gain, freq, header, gains, tune, adjust))
    ensures Informed(c, Initial(c, gain, freq, header, gains, tune, adjust))
  {
  }
}
