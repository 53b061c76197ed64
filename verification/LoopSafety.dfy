/**
 * What every run of the closed loop keeps, in every configuration in which it keeps anything: bursts that leave
 * the handshake alone; a window in which fractional calibration always ends the process; or DATA frames with
 * which the synchronizer cannot get from calibration to its track state.
 */
module LoopSafety {
  import opened Common
  import opened IqHeaders
  import Daq = RtlDaq
  import Hwc = HwController
  import Sync = DelaySync
  import Control = ControlLoop
  import opened NoiseHandshake
  import opened UserGains
  import opened CalibrationLoop

  // ---- the controller on one frame ----

  /** What a frame does to the controller, besides what the handshake says of it. */
  ghost predicate Controls(s: Hwc.State, seen: Seen, s': Hwc.State, switches: seq<bool>) {
    && (seen.dummy ==> s' == s && switches == [])
    && InStep(s, s', seen.on, switches)
    && (s.noiseSourceState ==> s.fsm.StateIqCal? || s.fsm.StateNoiseCtrWait?)
    && (seen.stamp < 5 && s.noiseSourceState && (s.fsm.StateIqCal? ==> seen.on) ==>
          s'.noiseSourceState && switches == [])
    && (s'.noiseSourceState && s'.calFrameCntr == 0 && !(s.noiseSourceState && s.calFrameCntr == 0) ==>
          s.fsm.StateIqCal? && !seen.dummy && (if s.noiseSourceState then seen.stamp != 6 else seen.stamp < 5))
  }

  /** Following the synchronizer below the lock never switches off. */
  lemma BelowLock(c: Hwc.Config, s: Hwc.State, h: IqHeader, approval: bool, request: Option<Hwc.Request>)
    requires Hwc.ValidConfig(c) && Hwc.ValidState(c, s) && Hwc.ValidRequest(c, request) && s.fsm.StateIqCal?
    requires h.syncState < 5 && s.noiseSourceState && h.noiseSourceState == 1
    ensures var r := Hwc.IqCal(c, s, h, approval, request);
            r.0.noiseSourceState && Switches(r.1) == []
  {
    hide Hwc.NoiseOn, Hwc.NoiseOff, Hwc.HandleRequest, Switches;
    NoSwitches([]);
    var none: seq<Daq.Command> := [];
    var s2 := Hwc.Burst(c, s, h).0;
    assert Hwc.FollowSync(c, s, h, approval) == (s, none) && Hwc.Burst(c, s, h).1 == none;
    var (s3, cmds) := if request.Some? then Hwc.HandleRequest(c, s2, request.value) else (s2, none);
    assert none + none + cmds == cmds;
    if request.Some? {
      RequestEffect(c, s2, request.value);
      assert EffectOf((s3, cmds)) == Effect(s2.fsm, true, []);
    }
  }

  /** When the source is on afterwards and no burst is counted. */
  lemma Uncounted(c: Hwc.Config, s: Hwc.State, h: IqHeader, approval: bool, request: Option<Hwc.Request>)
    requires Hwc.ValidConfig(c) && Hwc.ValidState(c, s) && Hwc.ValidRequest(c, request) && s.fsm.StateIqCal?
    requires BurstInStep(c, s) && h.noiseSourceState == if s.noiseSourceState then 1 else 0
    ensures var s' := Hwc.IqCal(c, s, h, approval, request).0;
            s'.noiseSourceState && s'.calFrameCntr == 0 && !(s.noiseSourceState && s.calFrameCntr == 0) ==>
              if s.noiseSourceState then h.syncState != 6 else h.syncState < 5
  {
    hide Hwc.NoiseOn, Hwc.NoiseOff, Hwc.HandleRequest, Switches;
    NoiseEffects(c, s, h.rfCenterFreq);
    var s1 := Hwc.FollowSync(c, s, h, approval).0;
    assert s1.calFrameCntr == s.calFrameCntr;
    NoiseEffects(c, s1.(calFrameCntr := s1.calFrameCntr + 1), h.rfCenterFreq);
    var s2 := Hwc.Burst(c, s1, h).0;
    if request.Some? {
      RequestEffect(c, s2, request.value);
      assert EffectOf(Hwc.HandleRequest(c, s2, request.value)).noise == s2.noiseSourceState;
    }
    EffectNoise(c, s, h.rfCenterFreq);
    EffectNoise(c, s1.(calFrameCntr := s1.calFrameCntr + 1), h.rfCenterFreq);
  }

  lemma EffectNoise(c: Hwc.Config, s: Hwc.State, freq: nat)
    requires Hwc.ValidConfig(c) && Hwc.ValidState(c, s)
    ensures Hwc.NoiseOn(c, s, freq).0.noiseSourceState && !Hwc.NoiseOff(c, s).0.noiseSourceState
  {
    hide Hwc.Unify, Hwc.GainValues, Hwc.CalGain;
  }

  lemma FrameControls(c: Hwc.Config, s: Hwc.State, h: IqHeader, approval: bool, request: Option<Hwc.Request>)
    requires Hwc.ValidConfig(c) && Hwc.ValidState(c, s) && |h.ifGains| == 32 && Hwc.ValidRequest(c, request)
    requires Harmless(c, s, h) && BurstInStep(c, s) && QuietStart(s) && h.noiseSourceState <= 1
    requires !s.fsm.StateNoiseCtrWait? ==> (h.noiseSourceState == 1) == s.noiseSourceState
    ensures var r := Hwc.ProcessFrame(c, s, h, approval, request);
            Controls(s, Seen(IsDummy(h), h.noiseSourceState == 1, h.syncState), r.0, Switches(r.1))
  {
    hide Hwc.IqCal, Switches, Hwc.GainsMatch, Hwc.TuneGains, Hwc.ChangeGains, InStep, BurstInStep;
    NoSwitches([]);
    FrameEffect(c, s, h, approval, request);
    if s.fsm.StateIqCal? {
      Uncounted(c, s, h, approval, request);
      if h.syncState < 5 && s.noiseSourceState {
        BelowLock(c, s, h, approval, request);
      }
    } else if !s.fsm.StateNoiseCtrWait? {
      QuietEffect(c, s, h, approval, request);
    }
  }

  // ---- windows that are not made of whole blocks ----

  /** Every calibration of fractional delays on a calibration frame ends the synchronizer. */
  predicate Stalls(c: Config) {
    c.sync.nProc % Sync.BLOCK_SIZE != 0
  }

  /** The source is never switched off again, so no frame gets past fractional calibration. */
  ghost predicate Stalled(v: View) {
    && Early(v.sync)
    && (forall i | 0 <= i < |v.marked| :: v.marked[i].stamp < 5)
    && (!v.sync.StateInit? ==> v.ctl.noiseSourceState && AllOn(v.ahead))
    && (!v.ctl.noiseSourceState ==> AllOff(v.ahead) && forall i | 0 <= i < |v.marked| :: !v.marked[i].on)
  }

  lemma NothingNewStalls(v: View, v': View)
    requires Stalled(v) && NothingNew(v, v')
    ensures Stalled(v')
  {
  }

  lemma LossStalls(v: View, v': View)
    requires Stalled(v) && LosesOne(v, v')
    ensures Stalled(v')
  {
  }

  lemma MarkStalls(c: Config, v: View, v': View, h: IqHeader, r: Sync.Result)
    requires Stalls(c) && Stalled(v) && Shape(v) && Marks(v, v', h, r) && Typed(h) && Leads(c, v.sync, h, r)
    ensures Stalled(v')
  {
    var on := h.noiseSourceState == 1;
    assert v.ahead[0] == on;
    assert forall j | 0 <= j < |v'.ahead| :: v'.ahead[j] == v.ahead[j + 1];
    if !v.sync.StateInit? && !IsDummy(h) {
      assert on;
    }
  }

  lemma ControlStalls(v: View, v': View, switches: seq<bool>)
    requires Stalled(v) && Shape(v) && Handles(v, v', v'.ctl, switches)
    requires Controls(v.ctl, v.marked[0], v'.ctl, switches)
    ensures Stalled(v')
  {
    assert forall j | 0 <= j < |v'.ahead| ::
        v'.ahead[j] == if j < |v.ahead| then v.ahead[j] else switches[j - |v.ahead|];
  }

  // ---- DATA frames that cannot be calibrated on ----

  /** Neither sample nor fractional calibration handles a DATA frame, and IQ calibration takes one frame. */
  predicate Blind(c: Config) {
    !c.sync.enIqCal && c.sync.cpiSize < c.sync.nProc && c.sync.cpiSize % Sync.BLOCK_SIZE != 0
  }

  /** A stamped frame with samples, sent with the source off or on. */
  predicate Data(seen: Seen) {
    !seen.dummy && !seen.on
  }

  predicate Cal(seen: Seen) {
    !seen.dummy && seen.on
  }

  /** Frames with samples are stamped by some state, dummy frames with none. */
  ghost predicate Stamps(v: View) {
    forall i | 0 <= i < |v.marked| ::
      if v.marked[i].dummy then v.marked[i].stamp == 0 else 1 <= v.marked[i].stamp <= 6
  }

  /** IQ calibration follows a calibration frame: the source is on, or its end is still to be seen. */
  ghost predicate IqCalFresh(v: View) {
    v.sync.StateIqCal? ==>
      if v.ctl.noiseSourceState then AllOn(v.ahead)
      else v.ctl.fsm.StateNoiseCtrWait? && forall i | 0 <= i < |v.marked| :: !Data(v.marked[i])
  }

  /** A DATA frame in IQ calibration is the first one after the calibration frames. */
  ghost predicate DataFirst(v: View) {
    forall i | 0 <= i < |v.marked| && Data(v.marked[i]) && v.marked[i].stamp == 4 ::
      && !v.ctl.noiseSourceState && v.ctl.fsm.StateNoiseCtrWait?
      && forall j | 0 <= j < i :: !Data(v.marked[j])
  }

  /** After a DATA frame before IQ calibration the synchronizer stays early until the source is on. */
  ghost predicate DataStuck(v: View) {
    forall i | 0 <= i < |v.marked| && Data(v.marked[i]) && v.marked[i].stamp <= 3 ::
      v.ctl.noiseSourceState || Early(v.sync)
  }

  /** With the source on and no burst counted, no calibration frame is or will be stamped "track". */
  ghost predicate NoTrackUncounted(v: View) {
    v.ctl.noiseSourceState && v.ctl.calFrameCntr == 0 ==>
      && !v.sync.StateTrack?
      && (v.sync.StateTrackLock? ==> AllOn(v.ahead))
      && forall i | 0 <= i < |v.marked| && Cal(v.marked[i]) :: v.marked[i].stamp != 6
  }

  /** Among calibration frames in a row no "track" comes after another stamp. */
  ghost predicate NoTrackAfter(v: View) {
    forall i | 0 <= i < |v.marked| && Cal(v.marked[i]) && v.marked[i].stamp != 6 ::
      && (v.sync.StateTrack? ==> AllOff(v.ahead))
      && forall j | i < j < |v.marked| && Cal(v.marked[j]) :: v.marked[j].stamp != 6
  }

  ghost predicate Blinded(v: View) {
    Stamps(v) && IqCalFresh(v) && DataFirst(v) && DataStuck(v) && NoTrackUncounted(v) && NoTrackAfter(v)
  }

  lemma NothingNewBlinds(v: View, v': View)
    requires Blinded(v) && NothingNew(v, v')
    ensures Blinded(v')
  {
    assert AllOn(v.ahead) ==> AllOn(v'.ahead);
    assert AllOff(v.ahead) ==> AllOff(v'.ahead);
  }

  lemma LossKeepsFirst(v: View, v': View)
    requires DataFirst(v) && LosesOne(v, v')
    ensures DataFirst(v')
  {
    var k :| 0 <= k < |v.marked| && v'.marked == v.marked[..k] + v.marked[k + 1..];
    assert forall i | 0 <= i < |v'.marked| :: v'.marked[i] == v.marked[if i < k then i else i + 1];
  }

  lemma LossKeepsAfter(v: View, v': View)
    requires NoTrackAfter(v) && LosesOne(v, v')
    ensures NoTrackAfter(v')
  {
    var k :| 0 <= k < |v.marked| && v'.marked == v.marked[..k] + v.marked[k + 1..];
    assert forall i | 0 <= i < |v'.marked| :: v'.marked[i] == v.marked[if i < k then i else i + 1];
  }

  lemma LossBlinds(v: View, v': View)
    requires Blinded(v) && LosesOne(v, v')
    ensures Blinded(v')
  {
    hide DataFirst, NoTrackAfter;
    LossKeepsFirst(v, v');
    LossKeepsAfter(v, v');
    var k :| 0 <= k < |v.marked| && v'.marked == v.marked[..k] + v.marked[k + 1..];
    assert forall i | 0 <= i < |v'.marked| :: v'.marked[i] in v.marked;
  }

  /** Stamping a frame: what the new frame and the new state of the synchronizer add. */
  lemma MarkStamps(c: Config, v: View, v': View, h: IqHeader, r: Sync.Result)
    requires Stamps(v) && Marks(v, v', h, r) && Leads(c, v.sync, h, r)
    ensures Stamps(v')
  {
  }

  lemma MarkIqCal(c: Config, v: View, v': View, h: IqHeader, r: Sync.Result)
    requires Blind(c) && IqCalFresh(v) && Shape(v) && Marks(v, v', h, r) && Typed(h) && Leads(c, v.sync, h, r)
    ensures IqCalFresh(v')
  {
    assert forall j | 0 <= j < |v'.ahead| :: v'.ahead[j] == v.ahead[j + 1];
  }

  lemma MarkDataFirst(c: Config, v: View, v': View, h: IqHeader, r: Sync.Result)
    requires Blind(c) && IqCalFresh(v) && DataFirst(v) && Marks(v, v', h, r) && Typed(h) && Leads(c, v.sync, h, r)
    ensures DataFirst(v')
  {
  }

  lemma MarkDataStuck(c: Config, v: View, v': View, h: IqHeader, r: Sync.Result)
    requires Blind(c) && DataStuck(v) && Shape(v) && Marks(v, v', h, r) && Typed(h) && Leads(c, v.sync, h, r)
    ensures DataStuck(v')
  {
  }

  lemma MarkUncounted(c: Config, v: View, v': View, h: IqHeader, r: Sync.Result)
    requires Blind(c) && IqCalFresh(v) && NoTrackUncounted(v) && Marks(v, v', h, r) && Typed(h)
    requires Leads(c, v.sync, h, r)
    ensures NoTrackUncounted(v')
  {
    assert forall j | 0 <= j < |v'.ahead| :: v'.ahead[j] == v.ahead[j + 1];
  }

  lemma MarkNoTrackAfter(c: Config, v: View, v': View, h: IqHeader, r: Sync.Result)
    requires Blind(c) && NoTrackAfter(v) && Shape(v) && Marks(v, v', h, r) && Typed(h) && Leads(c, v.sync, h, r)
    ensures NoTrackAfter(v')
  {
    assert forall j | 0 <= j < |v'.ahead| :: v'.ahead[j] == v.ahead[j + 1];
  }

  lemma MarkBlinds(c: Config, v: View, v': View, h: IqHeader, r: Sync.Result)
    requires Blind(c) && Blinded(v) && Shape(v) && Marks(v, v', h, r) && Typed(h) && Leads(c, v.sync, h, r)
    ensures Blinded(v')
  {
    hide Stamps, IqCalFresh, DataFirst, DataStuck, NoTrackUncounted, NoTrackAfter, Shape, Marks, Leads;
    MarkStamps(c, v, v', h, r);
    MarkIqCal(c, v, v', h, r);
    MarkDataFirst(c, v, v', h, r);
    MarkDataStuck(c, v, v', h, r);
    MarkUncounted(c, v, v', h, r);
    MarkNoTrackAfter(c, v, v', h, r);
  }

  // ---- the controller, when DATA frames cannot be calibrated on ----

  lemma ControlIqCal(v: View, v': View, switches: seq<bool>)
    requires IqCalFresh(v) && Shape(v) && Handles(v, v', v'.ctl, switches)
    requires Controls(v.ctl, v.marked[0], v'.ctl, switches)
    ensures IqCalFresh(v')
  {
    assert forall j | 0 <= j < |v'.ahead| ::
        v'.ahead[j] == if j < |v.ahead| then v.ahead[j] else switches[j - |v.ahead|];
    assert forall i | 0 <= i < |v'.marked| :: v'.marked[i] == v.marked[i + 1];
  }

  lemma ControlDataFirst(v: View, v': View, switches: seq<bool>)
    requires DataFirst(v) && Shape(v) && Handles(v, v', v'.ctl, switches)
    requires Controls(v.ctl, v.marked[0], v'.ctl, switches)
    ensures DataFirst(v')
  {
    assert forall i | 0 <= i < |v'.marked| :: v'.marked[i] == v.marked[i + 1];
  }

  lemma ControlDataStuck(v: View, v': View, switches: seq<bool>)
    requires DataStuck(v) && Shape(v) && Handles(v, v', v'.ctl, switches)
    requires Controls(v.ctl, v.marked[0], v'.ctl, switches)
    ensures DataStuck(v')
  {
    assert forall i | 0 <= i < |v'.marked| :: v'.marked[i] == v.marked[i + 1];
  }

  lemma ControlUncounted(v: View, v': View, switches: seq<bool>)
    requires Blinded(v) && Shape(v) && Handles(v, v', v'.ctl, switches)
    requires Controls(v.ctl, v.marked[0], v'.ctl, switches)
    ensures NoTrackUncounted(v')
  {
    assert forall i | 0 <= i < |v'.marked| :: v'.marked[i] == v.marked[i + 1];
    assert forall j | 0 <= j < |v'.ahead| ::
        v'.ahead[j] == if j < |v.ahead| then v.ahead[j] else switches[j - |v.ahead|];
    if v'.ctl.noiseSourceState && v'.ctl.calFrameCntr == 0 && !(v.ctl.noiseSourceState && v.ctl.calFrameCntr == 0) {
      var first := v.marked[0];
      assert first.on == v.ctl.noiseSourceState && v.ahead[0] == v.ctl.noiseSourceState;
      if v.ctl.noiseSourceState {
        assert Cal(first) && first.stamp != 6;
      } else {
        assert Data(first) && first.stamp <= 3;
        assert Early(v.sync);
      }
    }
  }

  lemma ControlNoTrackAfter(v: View, v': View, switches: seq<bool>)
    requires NoTrackAfter(v) && Shape(v) && Handles(v, v', v'.ctl, switches)
    requires Controls(v.ctl, v.marked[0], v'.ctl, switches)
    ensures NoTrackAfter(v')
  {
    assert forall i | 0 <= i < |v'.marked| :: v'.marked[i] == v.marked[i + 1];
    forall i | 0 <= i < |v'.marked| && Cal(v'.marked[i]) && v'.marked[i].stamp != 6
      ensures v'.sync.StateTrack? ==> AllOff(v'.ahead)
    {
      assert Cal(v.marked[i + 1]);
      if v.sync.StateTrack? {
        assert !v.ahead[0];
        assert switches == [] && v'.ahead == v.ahead;
      }
    }
  }

  lemma ControlBlinds(v: View, v': View, switches: seq<bool>)
    requires Blinded(v) && Shape(v) && Handles(v, v', v'.ctl, switches)
    requires Controls(v.ctl, v.marked[0], v'.ctl, switches)
    ensures Blinded(v')
  {
    hide IqCalFresh, DataFirst, DataStuck, NoTrackUncounted, NoTrackAfter, Shape, Controls;
    assert forall i | 0 <= i < |v'.marked| :: v'.marked[i] == v.marked[i + 1];
    ControlIqCal(v, v', switches);
    ControlDataFirst(v, v', switches);
    ControlDataStuck(v, v', switches);
    ControlUncounted(v, v', switches);
    ControlNoTrackAfter(v, v', switches);
  }

  // ---- every step of the closed loop ----

  /** The configurations in which the handshake holds and the user's gains survive. */
  predicate Safe(c: Config) {
    Sound(c.loop.hwc) || Stalls(c) || Blind(c)
  }

  ghost predicate SystemKept(c: Config, s: Control.System)
    requires ValidConfig(c) && Control.ValidSystem(c.loop, s)
  {
    Handshake(c.loop, s) && QuietStart(s.hwc) && GainsInForce(c.loop, s)
  }

  ghost predicate LoopInv(c: Config, s: State)
    requires ValidConfig(c) && ValidState(c, s)
  {
    && SystemKept(c, s.sys) && AllTyped(s.sys.queue)
    && (Stalls(c) ==> Stalled(ViewOf(s)))
    && (Blind(c) ==> Blinded(ViewOf(s)))
  }

  lemma KeptShape(c: Config, s: State)
    requires ValidConfig(c) && ValidState(c, s) && SystemKept(c, s.sys)
    ensures Shape(ViewOf(s))
  {
    hide Shape, ViewOf, Line, Follows;
    FollowsMeansShape(s);
  }

  lemma BaseKeeps(c: Config, sys: Control.System, b: Control.Step)
    requires ValidConfig(c) && Control.ValidSystem(c.loop, sys) && Control.Enabled(c.loop, sys, b)
    requires SystemKept(c, sys) && (b.Receive? ==> Harmless(c.loop.hwc, sys.hwc, sys.queue[0]))
    ensures SystemKept(c, Control.Next(c.loop, sys, b))
  {
    hide Handshake, QuietStart, GainsInForce, Control.Next, Harmless, Control.ValidSystem, Control.Enabled;
    StepKeepsHandshake(c.loop, sys, b);
    StepKeepsGains(c.loop, sys, b);
  }

  lemma ElsewhereKeeps(c: Config, s: State, step: Step)
    requires ValidConfig(c) && ValidState(c, s) && Enabled(c, s, step) && LoopInv(c, s) && Elsewhere(s, step)
    ensures LoopInv(c, Next(c, s, step))
  {
    hide SystemKept, Control.Next, Control.Enabled, AllTyped, Stalled, Blinded, NothingNew, ViewOf;
    BaseKeeps(c, s.sys, step.step);
    ElsewhereLeaves(c, s, step);
    ElsewhereIsNothingNew(c, s, step);
    var v, v' := ViewOf(s), ViewOf(Next(c, s, step));
    if Stalls(c) {
      NothingNewStalls(v, v');
    }
    if Blind(c) {
      NothingNewBlinds(v, v');
    }
  }

  lemma LosingKeeps(c: Config, s: State, i: nat)
    requires ValidConfig(c) && ValidState(c, s) && i < s.marked && LoopInv(c, s)
    ensures LoopInv(c, Next(c, s, CalibrationLoop.Base(Control.Lose(i))))
  {
    hide SystemKept, Control.Next, AllTyped, Stalled, Blinded, LosesOne, ViewOf, Line;
    BaseKeeps(c, s.sys, Control.Lose(i));
    LosingLine(c, s, i);
    LosingOne(c, s, i);
    var v, v' := ViewOf(s), ViewOf(Next(c, s, CalibrationLoop.Base(Control.Lose(i))));
    if Stalls(c) {
      LossStalls(v, v');
    }
    if Blind(c) {
      LossBlinds(v, v');
    }
  }

  lemma SynchronizeKeepsSystem(c: Config, s: State, x: Sync.Measured)
    requires ValidConfig(c) && ValidState(c, s) && Enabled(c, s, Synchronize(x)) && SystemKept(c, s.sys)
    ensures SystemKept(c, Next(c, s, Synchronize(x)).sys)
  {
    hide SystemKept, Control.Next, Sync.ProcessFrame;
    var r := Sync.ProcessFrame(c.sync, s.sync, Arriving(c, s.sys.queue[s.marked]), x);
    BaseKeeps(c, s.sys, Passing(s.marked, r));
    if r.order.Some? {
      BaseKeeps(c, Control.Next(c.loop, s.sys, Passing(s.marked, r)),
                Control.Foreign(Daq.CorrectFs(r.order.value)));
    }
  }

  lemma SynchronizeKeeps(c: Config, s: State, x: Sync.Measured)
    requires ValidConfig(c) && ValidState(c, s) && Enabled(c, s, Synchronize(x)) && LoopInv(c, s)
    ensures LoopInv(c, Next(c, s, Synchronize(x)))
  {
    hide SystemKept, Next, Stalled, Blinded, Marks, Leads, Shape, Sync.ProcessFrame, Arriving, Typed;
    var h := s.sys.queue[s.marked];
    var at := Arriving(c, h);
    var r := Sync.ProcessFrame(c.sync, s.sync, at, x);
    SynchronizeKeepsSystem(c, s, x);
    SynchronizeMarks(c, s, x);
    SynchronizeTyped(c, s, x);
    KeptShape(c, s);
    ArrivingArrived(c, h);
    FrameLeads(c, s.sync, at, x);
    LeadsAlike(c, s.sync.fsm, h, at, r);
    var v, v' := ViewOf(s), ViewOf(Next(c, s, Synchronize(x)));
    if Stalls(c) {
      MarkStalls(c, v, v', h, r);
    }
    if Blind(c) {
      MarkBlinds(c, v, v', h, r);
    }
  }

  /** Where a frame leads depends on its type only. */
  lemma LeadsAlike(c: Config, f: Sync.Fsm, h: IqHeader, at: IqHeader, r: Sync.Result)
    requires Leads(c, f, at, r) && at.noiseSourceState == h.noiseSourceState && IsDummy(at) == IsDummy(h)
    ensures Leads(c, f, h, r)
  {
  }

  lemma FrontIsHarmless(c: Config, s: State)
    requires ValidConfig(c) && ValidState(c, s) && LoopInv(c, s) && Safe(c) && 0 < s.marked
    ensures Harmless(c.loop.hwc, s.sys.hwc, s.sys.queue[0])
  {
    hide SystemKept;
    KeptShape(c, s);
    var first := ViewOf(s).marked[0];
    assert first.stamp == s.sys.queue[0].syncState;
  }

  lemma ReceiveKeepsLoop(c: Config, s: State, approval: bool, request: Option<Hwc.Request>)
    requires ValidConfig(c) && ValidState(c, s) && LoopInv(c, s) && Safe(c)
    requires Enabled(c, s, CalibrationLoop.Base(Control.Receive(approval, request)))
    ensures LoopInv(c, Next(c, s, CalibrationLoop.Base(Control.Receive(approval, request))))
  {
    hide Stalled, Blinded, Shape, Handles, Controls, Hwc.ProcessFrame, GainsInForce, QuietStart, BurstInStep, Follows,
         Harmless, Control.Chosen;
    var s' := Next(c, s, CalibrationLoop.Base(Control.Receive(approval, request)));
    var h := s.sys.queue[0];
    FrontIsHarmless(c, s);
    BaseKeeps(c, s.sys, Control.Receive(approval, request));
    KeptShape(c, s);
    ReceiveHandles(c, s, approval, request);
    FrontFits(s);
    FrameControls(c.loop.hwc, s.sys.hwc, h, approval, request);
    var v, v' := ViewOf(s), ViewOf(s');
    assert v.marked[0] == Seen(IsDummy(h), h.noiseSourceState == 1, h.syncState);
    if Stalls(c) {
      ControlStalls(v, v', Switches(s'.sys.pending));
    }
    if Blind(c) {
      ControlBlinds(v, v', Switches(s'.sys.pending));
    }
  }

  lemma FrontFits(s: State)
    requires 0 < |s.sys.queue| && Follows(Line(s.sys), s.sys.hwc)
    ensures !s.sys.hwc.fsm.StateNoiseCtrWait? ==>
              (s.sys.queue[0].noiseSourceState == 1) == s.sys.hwc.noiseSourceState
  {
  }

  lemma LoopStepKeeps(c: Config, s: State, step: Step)
    requires ValidConfig(c) && ValidState(c, s) && Enabled(c, s, step) && Safe(c) && LoopInv(c, s)
    ensures LoopInv(c, Next(c, s, step))
  {
    hide LoopInv, Next, Safe;
    match step {
      case Base(b) =>
        if b.Receive? {
          ReceiveKeepsLoop(c, s, b.approval, b.request);
        } else if b.Lose? && b.i < s.marked {
          LosingKeeps(c, s, b.i);
        } else {
          ElsewhereKeeps(c, s, step);
        }
      case Synchronize(x) =>
        SynchronizeKeeps(c, s, x);
    }
  }

  lemma {:induction false} LoopRunKeeps(c: Config, s: State, steps: seq<Step>, s': State)
    requires ValidConfig(c) && ValidState(c, s) && Reaches(c, s, steps, s') && Safe(c) && LoopInv(c, s)
    ensures ValidState(c, s') && LoopInv(c, s')
    decreases |steps|
  {
    hide LoopInv, Next, Enabled, Safe;
    if steps != [] {
      LoopStepKeeps(c, s, steps[0]);
      LoopRunKeeps(c, Next(c, s, steps[0]), steps[1..], s');
    }
  }

  lemma InitialLoopInv(c: Config, gain: nat, freq: nat, header: IqHeader, gains: seq<nat>, tune: bool,
                       adjust: Sync.Vector)
    requires ValidConfig(c) && Hwc.ValidGainList(c.loop.hwc, gains) && |header.ifGains| == 32
    requires |adjust| == c.sync.chNum
    ensures var s := Initial(c, gain, freq, header, gains, tune, adjust);
            ValidState(c, s) && LoopInv(c, s)
  {
    hide Handshake, QuietStart;
    InitialHandshake(c.loop, gain, freq, header, gains, tune);
  }
}
