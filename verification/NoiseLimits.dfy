/**
 * The exact limits of the control loop: in every configuration that `LoopSafety` leaves open a run of the loop
 * closed through the synchronizer breaks the handshake, and one loses the user's gains.
 */
module NoiseLimits {
  import opened Common
  import opened IqHeaders
  import Daq = RtlDaq
  import Hwc = HwController
  import Sync = DelaySync
  import SyncOrder
  import Control = ControlLoop
  import opened NoiseHandshake
  import opened UserGains
  import opened CalibrationLoop
  import opened LoopSafety

  ghost predicate Reachable(c: Config, s: State, s': State)
    requires ValidConfig(c) && ValidState(c, s)
  {
    exists steps :: Reaches(c, s, steps, s')
  }

  lemma {:induction false} ReachOn(c: Config, s: State, steps: seq<Step>, s': State, step: Step)
    requires ValidConfig(c) && ValidState(c, s) && Reaches(c, s, steps, s')
    requires ValidState(c, s') && Enabled(c, s', step)
    ensures Reaches(c, s, steps + [step], Next(c, s', step))
    decreases |steps|
  {
    hide Next, Enabled, ValidState;
    if steps == [] {
      assert Reaches(c, Next(c, s, step), [], Next(c, s', step));
      assert ([] + [step])[1..] == [];
    } else {
      ReachOn(c, Next(c, s, steps[0]), steps[1..], s', step);
      assert (steps + [step])[1..] == steps[1..] + [step];
    }
  }

  lemma OneMore(c: Config, s: State, s': State, step: Step)
    requires ValidConfig(c) && ValidState(c, s) && Reachable(c, s, s')
    requires ValidState(c, s') && Enabled(c, s', step)
    ensures Reachable(c, s, Next(c, s', step))
  {
    hide Next, Enabled, ValidState, Reaches;
    var steps :| Reaches(c, s, steps, s');
    ReachOn(c, s, steps, s', step);
  }

  // ---- what a stage of the failing runs looks like ----

  const FREQ: nat := 0

  /** The user's gain index and the one used for calibration at this frequency. */
  const LOW: nat := 0
  const HIGH: nat := Hwc.CalGain(FREQ)

  lemma GainsDiffer()
    ensures LOW < HIGH <= Hwc.MAX_GAIN_INDEX
  {
  }

  function Level(c: Config, gain: nat): (g: seq<nat>)
    ensures |g| == c.loop.hwc.chNum
  {
    Repeat(gain, c.loop.hwc.chNum)
  }

  function Values(c: Config, gain: nat): (v: seq<nat>)
    requires gain <= Hwc.MAX_GAIN_INDEX
    ensures |v| == c.loop.hwc.chNum
  {
    Repeat(Hwc.VALID_GAINS[gain], c.loop.hwc.chNum)
  }

  /** What a frame with samples reports to the controller. */
  datatype Report = Report(noise: bool, gain: nat, stamp: nat)

  ghost predicate Reports(c: Config, h: IqHeader, r: Report) {
    && |h.ifGains| == 32 && h.rfCenterFreq == FREQ && h.syncState == r.stamp
    && h.noiseSourceState == (if r.noise then 1 else 0)
    && h.frameType == (if r.noise then FRAME_TYPE_CAL else FRAME_TYPE_DATA)
    && r.gain <= Hwc.MAX_GAIN_INDEX
    && forall m | 0 <= m < c.loop.hwc.chNum && m < 32 :: h.ifGains[m] == Hwc.VALID_GAINS[r.gain]
  }

  /** Every receiver has this gain and the fixed frequency, or the next turn gives it this gain. */
  ghost predicate Tuned(c: Config, d: Daq.State, gain: nat)
    requires ValidConfig(c)
  {
    && Daq.ValidState(c.loop.daq, d) && gain <= Hwc.MAX_GAIN_INDEX
    && !d.centerFreqChangeFlag && !d.agcChangeFlag && !d.fsCorrectionFlag
    && (forall i | 0 <= i < c.loop.daq.chNo :: d.receivers[i].centerFreq == FREQ)
    && (if d.gainChangeFlag then d.newGains == Values(c, gain)
        else forall i | 0 <= i < c.loop.daq.chNo :: d.receivers[i].gain == Hwc.VALID_GAINS[gain])
  }

  /** The receiver process between two changes: `window` dummy frames are still to come. */
  ghost predicate Steady(c: Config, d: Daq.State, noise: bool, window: nat, gain: nat)
    requires ValidConfig(c)
  {
    && Tuned(c, d, gain) && !d.exitFlag && !d.left && d.noiseSourceState == noise
    && window <= 5 && d.enDummyFrame == (window != 0) && (window != 0 ==> d.dummyFrameCntr == 5 - window)
    && (d.gainChangeFlag ==> window == 5)
  }

  ghost predicate SyncAt(c: Config, s: Sync.State, fsm: Sync.Fsm, fails: nat) {
    Sync.ValidState(c.sync, s) && !s.ended && s.fsm == fsm && s.syncFailedCntr == fails && s.lastRf == FREQ
  }

  /** The controller after tuning, with the same gain on every channel. */
  function Controller(c: Config, fsm: Hwc.Fsm, gain: nat, last: nat, noise: bool, cntr: nat): Hwc.State {
    Hwc.State(fsm, Level(c, gain), Level(c, last), Repeat(false, c.loop.hwc.chNum), 0, noise, false, false, cntr)
  }

  datatype Stage = Stage(noise: bool, window: nat, gain: nat, fsm: Sync.Fsm, fails: nat, hwc: Hwc.State,
                         pending: seq<Daq.Command>, queue: seq<Report>)

  function BlankHeader(): (h: IqHeader)
    ensures |h.ifGains| == 32
  {
    IqHeader(SYNC_WORD, 0, [], 0, 0, 0, 0, 0, 0, 0, 0, 0, 0, 0, 0, 0, 0, Repeat(0, 32), 0, 0, 0, 0, 0)
  }

  function Start(c: Config): (s: State)
    requires ValidConfig(c)
    ensures ValidState(c, s)
  {
    Initial(c, Hwc.VALID_GAINS[LOW], FREQ, BlankHeader(), Level(c, LOW), false, Repeat(Sync.ONE, c.sync.chNum))
  }

  /** A reachable state of the loop in which every frame in flight is stamped. */
  ghost predicate At(c: Config, s: State, g: Stage)
    requires ValidConfig(c)
  {
    && ValidState(c, s) && Reachable(c, Start(c), s)
    && Steady(c, s.sys.daq, g.noise, g.window, g.gain)
    && SyncAt(c, s.sync, g.fsm, g.fails)
    && s.sys.hwc == g.hwc && s.sys.pending == g.pending && s.sys.user == Level(c, LOW)
    && s.marked == |s.sys.queue| == |g.queue|
    && forall i | 0 <= i < |g.queue| :: Reports(c, s.sys.queue[i], g.queue[i])
  }

  // ---- the receiver process ----

  function AllSucceed(c: Config): (hw: Daq.Hardware)
    ensures Daq.ValidHardware(c.loop.daq, hw)
  {
    var n := c.loop.daq.chNo;
    Daq.Hardware(Repeat(None, n), Repeat(true, n), Repeat(true, n), Repeat(true, n))
  }

  function Tick(c: Config): Step {
    Base(Control.Turn(Daq.Measured(0, 0), AllSucceed(c)))
  }

  lemma RetuneTunes(c: Config, d: Daq.State, gain: nat)
    requires ValidConfig(c) && Tuned(c, d, gain)
    ensures Tuned(c, Daq.Control(c.loop.daq, d, AllSucceed(c)), gain)
  {
  }

  lemma TickIsSteady(c: Config, d: Daq.State, noise: bool, window: nat, gain: nat)
    requires ValidConfig(c) && Steady(c, d, noise, window, gain)
    ensures var d' := Daq.Next(c.loop.daq, d, Daq.Turn(Daq.Measured(0, 0), AllSucceed(c))).0;
            Steady(c, d', noise, if window == 0 then 0 else window - 1, gain)
    ensures var h := Daq.NextHeader(c.loop.daq, d, Daq.Measured(0, 0));
            && h.rfCenterFreq == FREQ && IsDummy(h) == (window != 0)
            && (window == 0 ==> Reports(c, h, Report(noise, gain, h.syncState)))
  {
    hide Daq.Retune, Daq.Changes;
    RetuneTunes(c, Daq.SendFrame(c.loop.daq, d, Daq.Measured(0, 0)), gain);
  }

  // ---- the synchronizer ----

  datatype Quality = Good | Bad | Off

  /** Aligned channels; a bad frame lacks dynamic range, and one that is off is out of tolerance. */
  function Signal(c: Config, q: Quality): Sync.Measured
    requires ValidConfig(c)
  {
    var n := c.sync.chNum;
    Sync.Measured(Repeat(c.sync.nProc, n), Repeat(true, n), Repeat(0.0, n - 1), q != Bad, Repeat(q == Off, n), true,
                  Repeat(Sync.ONE, n), Repeat(Sync.ONE, n))
  }

  /** DATA frames are made of whole blocks. */
  predicate EvenData(c: Config) {
    c.sync.nProc <= c.sync.cpiSize || c.sync.cpiSize % Sync.BLOCK_SIZE == 0
  }

  /** The synchronizer handles a frame of this type in this state. */
  predicate Handled(c: Config, fsm: Sync.Fsm, cal: bool) {
    cal || (!fsm.StateSampleCal? && (fsm.StateFracSampleCal? ==> EvenData(c)))
  }

  /** The synchronizer's state after a good frame. */
  function Onward(fsm: Sync.Fsm, cal: bool): Sync.Fsm {
    match fsm
    case StateInit => if cal then Sync.StateSampleCal else Sync.StateInit
    case StateSampleCal => Sync.StateFracSampleCal
    case StateFracSampleCal => Sync.StateIqCal
    case StateIqCal => Sync.StateTrackLock
    case StateTrackLock => if cal then Sync.StateTrackLock else Sync.StateTrack
    case _ => fsm
  }

  lemma SignalIsAligned(c: Config)
    requires ValidConfig(c) && !Stalls(c)
    ensures Sync.ValidMeasured(c.sync, Signal(c, Good)) && SyncOrder.Aligned(c.sync, Signal(c, Good), 0)
    ensures !SyncOrder.Overindexed(c.sync, Signal(c, Good), 0) && !Sync.FracOff(c.sync, Signal(c, Good))
  {
  }

  lemma GoodFrame(c: Config, s: Sync.State, fsm: Sync.Fsm, h: IqHeader)
    requires ValidConfig(c) && !Stalls(c) && SyncAt(c, s, fsm, 0) && h.rfCenterFreq == FREQ
    requires Arrived(c, h) && !IsDummy(h) && Handled(c, fsm, h.noiseSourceState == 1)
    ensures !s.ended && Sync.ValidMeasured(c.sync, Signal(c, Good))
    ensures var r := Sync.ProcessFrame(c.sync, s, h, Signal(c, Good));
            && SyncAt(c, r.state, Onward(fsm, h.noiseSourceState == 1), 0)
            && r.stamp.Some? && r.stamp.value.syncState == SyncOrder.StampOf(fsm) && r.order.None?
  {
    hide Sync.ScanFrom, Sync.FracOff, Sync.FracOffsets, Sync.Products, Sync.Differences, SyncOrder.Aligned,
         SyncOrder.AllPeaksStandOut, SyncOrder.Overindexed;
    SignalIsAligned(c);
    SyncOrder.ScanDecides(c.sync, Signal(c, Good), 0,
                          Sync.Scan(s.delays, Repeat(0.0, c.sync.chNum), false, true, s.m, false));
  }

  /** A failed check on a calibration frame; the last one allowed loses the track. */
  lemma BadFrame(c: Config, s: Sync.State, fails: nat, h: IqHeader)
    requires ValidConfig(c) && SyncAt(c, s, Sync.StateTrack, fails) && fails < c.sync.maxSyncFails
    requires c.sync.calTrackMode == 2 && h.frameType == FRAME_TYPE_CAL && h.rfCenterFreq == FREQ
    ensures !s.ended && Sync.ValidMeasured(c.sync, Signal(c, Bad))
    ensures var r := Sync.ProcessFrame(c.sync, s, h, Signal(c, Bad));
            && (if fails + 1 == c.sync.maxSyncFails then SyncAt(c, r.state, Sync.StateInit, 0)
                else SyncAt(c, r.state, Sync.StateTrack, fails + 1))
            && r.stamp.Some? && r.stamp.value.syncState == 6 && r.order.None?
  {
  }

  /** IQ calibration goes on while the tolerance is exceeded. */
  lemma OffFrame(c: Config, s: Sync.State, h: IqHeader)
    requires ValidConfig(c) && c.sync.enIqCal && SyncAt(c, s, Sync.StateIqCal, 0) && !IsDummy(h)
    ensures !s.ended && Sync.ValidMeasured(c.sync, Signal(c, Off))
    ensures var r := Sync.ProcessFrame(c.sync, s, h, Signal(c, Off));
            && SyncAt(c, r.state, Sync.StateIqCal, 0)
            && r.stamp.Some? && r.stamp.value.syncState == 4 && r.order.None?
  {
    hide Sync.Products, Sync.Differences;
  }

  lemma DummyFrame(c: Config, s: Sync.State, fsm: Sync.Fsm, h: IqHeader)
    requires ValidConfig(c) && SyncAt(c, s, fsm, 0) && IsDummy(h)
    requires !fsm.StateSyncWait? && !fsm.StateFracSyncWait?
    ensures !s.ended && Sync.ValidMeasured(c.sync, Signal(c, Good))
    ensures var r := Sync.ProcessFrame(c.sync, s, h, Signal(c, Good));
            SyncAt(c, r.state, fsm, 0) && r.stamp.Some? && r.order.None?
  {
  }

  // ---- steps of the loop from stage to stage ----

  /** A turn sends one more frame, not yet stamped. */
  lemma Turned(c: Config, s: State, g: Stage)
    requires ValidConfig(c) && At(c, s, g)
    ensures Enabled(c, s, Tick(c))
    ensures var s' := Next(c, s, Tick(c));
            && Reachable(c, Start(c), s') && s'.sys.queue[..|g.queue|] == s.sys.queue
            && |s'.sys.queue| == |g.queue| + 1 && s'.marked == |g.queue|
            && Steady(c, s'.sys.daq, g.noise, if g.window == 0 then 0 else g.window - 1, g.gain)
            && s' == s.(sys := s.sys.(daq := s'.sys.daq, queue := s'.sys.queue))
            && s'.sys.queue[|g.queue|].rfCenterFreq == FREQ
            && IsDummy(s'.sys.queue[|g.queue|]) == (g.window != 0)
            && (g.window == 0 ==>
                  var h := s'.sys.queue[|g.queue|]; Reports(c, h, Report(g.noise, g.gain, h.syncState)))
  {
    hide Reachable, Daq.Next, Daq.NextHeader, Steady, Reports;
    assert !s.sys.daq.left by { assert Steady(c, s.sys.daq, g.noise, g.window, g.gain); Unfinished(c, s.sys.daq, g); }
    TickIsSteady(c, s.sys.daq, g.noise, g.window, g.gain);
    OneMore(c, Start(c), s, Tick(c));
  }

  lemma Unfinished(c: Config, d: Daq.State, g: Stage)
    requires ValidConfig(c) && Steady(c, d, g.noise, g.window, g.gain)
    ensures !d.left
  {
  }

  /** The frame just sent is stamped. */
  lemma Passed(c: Config, s: State, x: Sync.Measured) returns (s': State)
    requires ValidConfig(c) && ValidState(c, s) && Reachable(c, Start(c), s)
    requires |s.sys.queue| == s.marked + 1 && !s.sync.ended && Sync.ValidMeasured(c.sync, x)
    requires var r := Sync.ProcessFrame(c.sync, s.sync, Arriving(c, s.sys.queue[s.marked]), x);
             r.stamp.Some? && r.order.None?
    ensures ValidState(c, s') && Reachable(c, Start(c), s') && s'.marked == s.marked + 1
    ensures var r := Sync.ProcessFrame(c.sync, s.sync, Arriving(c, s.sys.queue[s.marked]), x);
            && s'.sync == r.state
            && s'.sys == s.sys.(queue := s.sys.queue[s.marked := Control.Stamped(s.sys.queue[s.marked],
                                                                                 Written(r.stamp.value))])
  {
    hide Reachable, Sync.ProcessFrame, Start;
    OneMore(c, Start(c), s, Synchronize(x));
    s' := Next(c, s, Synchronize(x));
  }

  /** A good frame with samples is sent and stamped. */
  lemma GoodShot(c: Config, s: State, g: Stage) returns (s': State)
    requires ValidConfig(c) && !Stalls(c) && At(c, s, g) && g.window == 0 && g.fails == 0
    requires Handled(c, g.fsm, g.noise)
    ensures At(c, s', g.(fsm := Onward(g.fsm, g.noise),
                         queue := g.queue + [Report(g.noise, g.gain, SyncOrder.StampOf(g.fsm))]))
  {
    hide Reachable, Daq.Next, Daq.NextHeader, Steady, SyncAt, Sync.ProcessFrame, Start, Onward, Level,
         SyncOrder.StampOf;
    Turned(c, s, g);
    s' := Next(c, s, Tick(c));
    ReportsArrive(c, s'.sys.queue[|g.queue|], g.noise, g.gain);
    GoodFrame(c, s'.sync, g.fsm, Arriving(c, s'.sys.queue[|g.queue|]));
    s' := Passed(c, s', Signal(c, Good));
  }

  lemma ReportsArrive(c: Config, h: IqHeader, noise: bool, gain: nat)
    requires Reports(c, h, Report(noise, gain, h.syncState))
    ensures var at := Arriving(c, h);
            && Arrived(c, at) && !IsDummy(at) && at.rfCenterFreq == FREQ && (at.noiseSourceState == 1) == noise
            && at.frameType == (if noise then FRAME_TYPE_CAL else FRAME_TYPE_DATA)
  {
  }

  /** A DATA frame out of tolerance is sent and stamped while the synchronizer calibrates IQ. */
  lemma OffShot(c: Config, s: State, g: Stage) returns (s': State)
    requires ValidConfig(c) && At(c, s, g) && g.window == 0 && g.fails == 0 && c.sync.enIqCal && g.fsm.StateIqCal?
    ensures At(c, s', g.(queue := g.queue + [Report(g.noise, g.gain, 4)]))
  {
    hide Reachable, Daq.Next, Daq.NextHeader, Steady, SyncAt, Sync.ProcessFrame, Start, Level;
    Turned(c, s, g);
    s' := Next(c, s, Tick(c));
    ReportsArrive(c, s'.sys.queue[|g.queue|], g.noise, g.gain);
    OffFrame(c, s'.sync, Arriving(c, s'.sys.queue[|g.queue|]));
    s' := Passed(c, s', Signal(c, Off));
  }

  /** A calibration frame without dynamic range is sent and stamped while the synchronizer tracks. */
  lemma BadShot(c: Config, s: State, g: Stage) returns (s': State)
    requires ValidConfig(c) && At(c, s, g) && g.window == 0 && g.noise && c.sync.calTrackMode == 2
    requires g.fsm.StateTrack? && g.fails < c.sync.maxSyncFails
    ensures var g' := g.(queue := g.queue + [Report(true, g.gain, 6)]);
            At(c, s', if g.fails + 1 == c.sync.maxSyncFails then g'.(fsm := Sync.StateInit, fails := 0)
                      else g'.(fails := g.fails + 1))
  {
    hide Reachable, Daq.Next, Daq.NextHeader, Steady, SyncAt, Sync.ProcessFrame, Start, Level;
    Turned(c, s, g);
    s' := Next(c, s, Tick(c));
    ReportsArrive(c, s'.sys.queue[|g.queue|], g.noise, g.gain);
    BadFrame(c, s'.sync, g.fails, Arriving(c, s'.sys.queue[|g.queue|]));
    s' := Passed(c, s', Signal(c, Bad));
  }

  /** The last frame is lost. */
  lemma LastLost(c: Config, s: State, g: Stage) returns (s': State)
    requires ValidConfig(c) && At(c, s, g) && g.queue != []
    ensures At(c, s', g.(queue := g.queue[..|g.queue| - 1]))
  {
    hide Reachable, Steady, SyncAt, Start, Level, Reports;
    var step := Base(Control.Lose(|g.queue| - 1));
    OneMore(c, Start(c), s, step);
    s' := Next(c, s, step);
  }

  /** A dummy frame is sent, stamped and lost. */
  lemma DummyPasses(c: Config, s: State, g: Stage) returns (s': State)
    requires ValidConfig(c) && At(c, s, g) && g.window != 0 && g.fails == 0
    requires !g.fsm.StateSyncWait? && !g.fsm.StateFracSyncWait?
    ensures At(c, s', g.(window := g.window - 1))
  {
    hide Reachable, Daq.Next, Daq.NextHeader, Steady, SyncAt, Sync.ProcessFrame, Start, Level, Reports;
    Turned(c, s, g);
    s' := Next(c, s, Tick(c));
    DummyFrame(c, s'.sync, g.fsm, Arriving(c, s'.sys.queue[|g.queue|]));
    s' := Passed(c, s', Signal(c, Good));
    var step := Base(Control.Lose(|g.queue|));
    OneMore(c, Start(c), s', step);
    s' := Next(c, s', step);
  }

  lemma {:induction false} WindowPasses(c: Config, s: State, g: Stage) returns (s': State)
    requires ValidConfig(c) && At(c, s, g) && g.fails == 0
    requires !g.fsm.StateSyncWait? && !g.fsm.StateFracSyncWait?
    ensures At(c, s', g.(window := 0))
    decreases g.window
  {
    hide At;
    s' := s;
    if g.window != 0 {
      s' := DummyPasses(c, s, g);
      s' := WindowPasses(c, s', g.(window := g.window - 1));
    }
  }

  /** A gain command or a noise switch reaches the receiver process. */
  lemma Delivered(c: Config, s: State, g: Stage, gain: nat) returns (s': State)
    requires ValidConfig(c) && At(c, s, g) && g.pending != [] && gain <= Hwc.MAX_GAIN_INDEX
    requires g.pending[0].SwitchNoise? || g.pending[0] == Daq.SetGains(Values(c, gain))
    ensures At(c, s', if g.pending[0].SwitchNoise? then
                        g.(pending := g.pending[1..], window := 5, noise := g.pending[0].on)
                      else
                        g.(pending := g.pending[1..], window := 5, gain := gain))
  {
    hide Reachable, SyncAt, Start, Level, Reports, Values;
    OneMore(c, Start(c), s, Base(Control.Deliver));
    s' := Next(c, s, Base(Control.Deliver));
  }

  // ---- the controller ----

  function ToldGains(c: Config, gain: nat): Daq.Command
    requires gain <= Hwc.MAX_GAIN_INDEX
  {
    Daq.SetGains(Values(c, gain))
  }

  lemma EqualGains(c: Config, gain: nat)
    requires ValidConfig(c) && gain <= Hwc.MAX_GAIN_INDEX
    ensures Hwc.Unify(c.loop.hwc, Level(c, gain)) == Level(c, gain)
    ensures Hwc.GainValues(c.loop.hwc, Level(c, gain)) == Values(c, gain)
  {
    assert Hwc.MinOf(Level(c, gain)) in Level(c, gain);
  }

  lemma SwitchesOn(c: Config, s: Hwc.State, fsm: Hwc.Fsm, gain: nat, last: nat, noise: bool, cntr: nat)
    requires ValidConfig(c) && gain <= Hwc.MAX_GAIN_INDEX && last <= Hwc.MAX_GAIN_INDEX
    requires s == Controller(c, fsm, gain, last, noise, cntr)
    ensures Hwc.NoiseOn(c.loop.hwc, s, FREQ) ==
            (Controller(c, Hwc.StateNoiseCtrWait, HIGH, gain, true, cntr),
             [ToldGains(c, HIGH), Daq.SwitchNoise(true)])
    ensures Hwc.NoiseOff(c.loop.hwc, s) ==
            (Controller(c, Hwc.StateNoiseCtrWait, last, last, false, cntr),
             [Daq.SwitchNoise(false), ToldGains(c, last)])
  {
    hide Hwc.Unify, Hwc.GainValues, Hwc.CalGain;
    EqualGains(c, HIGH);
    EqualGains(c, last);
    var (on, onCmds) := Hwc.NoiseOn(c.loop.hwc, s, FREQ);
    assert onCmds == [ToldGains(c, HIGH), Daq.SwitchNoise(true)];
    assert on == Controller(c, Hwc.StateNoiseCtrWait, HIGH, gain, true, cntr);
    var (off, offCmds) := Hwc.NoiseOff(c.loop.hwc, s);
    assert offCmds == [Daq.SwitchNoise(false), ToldGains(c, last)];
    assert off == Controller(c, Hwc.StateNoiseCtrWait, last, last, false, cntr);
  }

  lemma Begins(c: Config, r: Report, h: IqHeader)
    requires ValidConfig(c) && Reports(c, h, r)
    ensures Hwc.ProcessFrame(c.loop.hwc, Controller(c, Hwc.StateInit, LOW, LOW, false, 0), h, true, None) ==
            (Controller(c, Hwc.StateIqCal, LOW, LOW, false, 0), [ToldGains(c, LOW), Daq.SwitchNoise(false)])
  {
    hide Hwc.Unify, Hwc.GainValues, Hwc.IqCal;
    EqualGains(c, LOW);
    var s := Controller(c, Hwc.StateInit, LOW, LOW, false, 0);
    assert Hwc.ProcessFrame(c.loop.hwc, s, h, true, None).1 == [ToldGains(c, LOW), Daq.SwitchNoise(false)];
  }

  lemma WaitEnds(c: Config, gain: nat, last: nat, noise: bool, cntr: nat, r: Report, h: IqHeader)
    requires ValidConfig(c) && gain <= Hwc.MAX_GAIN_INDEX && last <= Hwc.MAX_GAIN_INDEX
    requires Reports(c, h, r) && r.noise == noise && r.gain == gain
    ensures Hwc.ProcessFrame(c.loop.hwc, Controller(c, Hwc.StateNoiseCtrWait, gain, last, noise, cntr), h, true, None)
            == (Controller(c, Hwc.StateIqCal, gain, last, noise, cntr), [])
  {
    hide Hwc.IqCal;
  }

  /** Without a request only the synchronizer's state and the burst counter give orders. */
  lemma NoRequest(c: Hwc.Config, s: Hwc.State, h: IqHeader, approval: bool)
    requires Hwc.ValidConfig(c) && Hwc.ValidState(c, s) && |h.ifGains| == 32 && !IsDummy(h) && s.fsm.StateIqCal?
    ensures var (s1, cmds1) := Hwc.FollowSync(c, s, h, approval);
            var (s2, cmds2) := Hwc.Burst(c, s1, h);
            && Hwc.ProcessFrame(c, s, h, approval, None) == (s2, cmds1 + cmds2)
            && (cmds1 == [] ==> cmds1 + cmds2 == cmds2) && (cmds2 == [] ==> cmds1 + cmds2 == cmds1)
  {
    hide Hwc.FollowSync, Hwc.Burst;
    var (s1, cmds1) := Hwc.FollowSync(c, s, h, approval);
    var (s2, cmds2) := Hwc.Burst(c, s1, h);
    assert cmds1 + cmds2 + [] == cmds1 + cmds2;
  }

  function OnCmds(c: Config): seq<Daq.Command> {
    [ToldGains(c, HIGH), Daq.SwitchNoise(true)]
  }

  function OffCmds(c: Config, gain: nat): seq<Daq.Command>
    requires gain <= Hwc.MAX_GAIN_INDEX
  {
    [Daq.SwitchNoise(false), ToldGains(c, gain)]
  }

  /** A calibrating controller in track mode 2, on a frame with report `r`. */
  function Reaction(c: Config, gain: nat, last: nat, noise: bool, cntr: nat, r: Report, approval: bool)
    : (Hwc.State, seq<Daq.Command>)
    requires gain <= Hwc.MAX_GAIN_INDEX && last <= Hwc.MAX_GAIN_INDEX
  {
    var interval, burst := c.loop.hwc.calFrameInterval, c.loop.hwc.calFrameBurstSize;
    var locked := cntr < interval && 5 <= r.stamp && r.noise
                  && (c.loop.hwc.requireTrackLockIntervention ==> approval);
    if r.stamp == 6 && cntr + 1 == interval then
      if locked then
        (Controller(c, Hwc.StateNoiseCtrWait, HIGH, last, true, interval), OffCmds(c, last) + OnCmds(c))
      else
        (Controller(c, Hwc.StateNoiseCtrWait, HIGH, gain, true, interval), OnCmds(c))
    else if r.stamp == 6 && cntr + 1 == interval + burst then
      (Controller(c, Hwc.StateNoiseCtrWait, last, last, false, 0), OffCmds(c, last))
    else
      var cntr' := if r.stamp == 6 then cntr + 1 else 0;
      if locked then
        (Controller(c, Hwc.StateNoiseCtrWait, last, last, false, cntr'), OffCmds(c, last))
      else if cntr < interval && r.stamp < 5 && !r.noise then
        (Controller(c, Hwc.StateNoiseCtrWait, HIGH, gain, true, cntr'), OnCmds(c))
      else
        (Controller(c, Hwc.StateIqCal, gain, last, noise, cntr'), [])
  }

  lemma Reacts(c: Config, gain: nat, last: nat, noise: bool, cntr: nat, r: Report, approval: bool, h: IqHeader)
    requires ValidConfig(c) && gain <= Hwc.MAX_GAIN_INDEX && last <= Hwc.MAX_GAIN_INDEX
    requires c.loop.hwc.calTrackMode == 2 && Reports(c, h, r)
    ensures Hwc.ProcessFrame(c.loop.hwc, Controller(c, Hwc.StateIqCal, gain, last, noise, cntr), h, approval, None) ==
            Reaction(c, gain, last, noise, cntr, r, approval)
  {
    hide Hwc.NoiseOn, Hwc.NoiseOff, Hwc.CalGain, Values, Hwc.GainsMatch, Hwc.ProcessFrame;
    var s := Controller(c, Hwc.StateIqCal, gain, last, noise, cntr);
    GainsDiffer();
    NoRequest(c.loop.hwc, s, h, approval);
    SwitchesOn(c, s, Hwc.StateIqCal, gain, last, noise, cntr);
    SwitchesOn(c, s.(calFrameCntr := cntr + 1), Hwc.StateIqCal, gain, last, noise, cntr + 1);
    var off := Hwc.NoiseOff(c.loop.hwc, s).0;
    SwitchesOn(c, off.(calFrameCntr := cntr + 1), Hwc.StateNoiseCtrWait, last, last, false, cntr + 1);
  }

  // ---- one frame from the receiver process to the controller ----

  /** The controller handles the oldest frame. */
  lemma Eaten(c: Config, s: State, g: Stage, approval: bool) returns (s': State)
    requires ValidConfig(c) && At(c, s, g) && g.queue != [] && g.pending == [] && !g.hwc.fsm.StateGainTune?
    requires g.hwc.fsm.StateInit? ==>
               Hwc.ProcessFrame(c.loop.hwc, g.hwc, s.sys.queue[0], approval, None).0.gains == Level(c, LOW)
    ensures var (hwc, cmds) := Hwc.ProcessFrame(c.loop.hwc, g.hwc, s.sys.queue[0], approval, None);
            At(c, s', g.(hwc := hwc, pending := cmds, queue := g.queue[1..]))
  {
    hide Reachable, Steady, SyncAt, Start, Level, Reports, Hwc.ProcessFrame;
    var step := Base(Control.Receive(approval, None));
    OneMore(c, Start(c), s, step);
    s' := Next(c, s, step);
  }

  lemma FirstReports(c: Config, s: State, g: Stage)
    requires ValidConfig(c) && At(c, s, g) && g.queue != []
    ensures s.sys.queue != [] && Reports(c, s.sys.queue[0], g.queue[0])
  {
  }

  /** The oldest frame ends the controller's wait for a switch. */
  lemma WaitEats(c: Config, s: State, g: Stage, last: nat, cntr: nat) returns (s': State)
    requires ValidConfig(c) && At(c, s, g) && g.queue != [] && g.pending == []
    requires last <= Hwc.MAX_GAIN_INDEX && g.queue[0].gain <= Hwc.MAX_GAIN_INDEX
    requires g.hwc == Controller(c, Hwc.StateNoiseCtrWait, g.queue[0].gain, last, g.queue[0].noise, cntr)
    ensures At(c, s', g.(hwc := Controller(c, Hwc.StateIqCal, g.queue[0].gain, last, g.queue[0].noise, cntr),
                         queue := g.queue[1..]))
  {
    hide At, Hwc.ProcessFrame, Level;
    FirstReports(c, s, g);
    WaitEnds(c, g.queue[0].gain, last, g.queue[0].noise, cntr, g.queue[0], s.sys.queue[0]);
    s' := Eaten(c, s, g, true);
  }

  /** The calibrating controller handles the oldest frame. */
  lemma Eats(c: Config, s: State, g: Stage, gain: nat, last: nat, noise: bool, cntr: nat, approval: bool)
    returns (s': State)
    requires ValidConfig(c) && At(c, s, g) && g.queue != [] && g.pending == []
    requires gain <= Hwc.MAX_GAIN_INDEX && last <= Hwc.MAX_GAIN_INDEX && c.loop.hwc.calTrackMode == 2
    requires g.hwc == Controller(c, Hwc.StateIqCal, gain, last, noise, cntr)
    ensures var (hwc, cmds) := Reaction(c, gain, last, noise, cntr, g.queue[0], approval);
            At(c, s', g.(hwc := hwc, pending := cmds, queue := g.queue[1..]))
  {
    hide At, Hwc.ProcessFrame, Level, Reaction;
    FirstReports(c, s, g);
    Reacts(c, gain, last, noise, cntr, g.queue[0], approval, s.sys.queue[0]);
    s' := Eaten(c, s, g, approval);
  }

  /** A stage between two frames: every frame sent was handled or lost, and no command is on its way. */
  ghost predicate Calm(c: Config, s: State, g: Stage)
    requires ValidConfig(c)
  {
    !Stalls(c) && c.loop.hwc.calTrackMode == 2 && At(c, s, g) && g.window == 0 && g.fails == 0 && g.queue == []
  }

  lemma OneFrame(c: Config, s: State, g: Stage) returns (s': State)
    requires ValidConfig(c) && Calm(c, s, g) && Handled(c, g.fsm, g.noise)
    ensures At(c, s', g.(fsm := Onward(g.fsm, g.noise), queue := [Report(g.noise, g.gain, SyncOrder.StampOf(g.fsm))]))
  {
    hide At, Onward, SyncOrder.StampOf;
    s' := GoodShot(c, s, g);
    var r := Report(g.noise, g.gain, SyncOrder.StampOf(g.fsm));
    assert g.queue + [r] == [r];
  }

  /** A frame ends the controller's wait. */
  lemma WaitCycle(c: Config, s: State, g: Stage, last: nat, cntr: nat) returns (s': State)
    requires ValidConfig(c) && Calm(c, s, g) && g.pending == [] && Handled(c, g.fsm, g.noise)
    requires g.gain <= Hwc.MAX_GAIN_INDEX && last <= Hwc.MAX_GAIN_INDEX
    requires g.hwc == Controller(c, Hwc.StateNoiseCtrWait, g.gain, last, g.noise, cntr)
    ensures Calm(c, s', g.(fsm := Onward(g.fsm, g.noise),
                           hwc := Controller(c, Hwc.StateIqCal, g.gain, last, g.noise, cntr)))
  {
    hide At, Controller, Onward, SyncOrder.StampOf;
    s' := OneFrame(c, s, g);
    var r := Report(g.noise, g.gain, SyncOrder.StampOf(g.fsm));
    s' := WaitEats(c, s', g.(fsm := Onward(g.fsm, g.noise), queue := [r]), last, cntr);
    assert [r][1..] == g.queue;
  }

  /** The calibrating controller handles one more frame. */
  lemma Cycle(c: Config, s: State, g: Stage, gain: nat, last: nat, noise: bool, cntr: nat, approval: bool)
    returns (s': State)
    requires ValidConfig(c) && Calm(c, s, g) && g.pending == [] && Handled(c, g.fsm, g.noise)
    requires gain <= Hwc.MAX_GAIN_INDEX && last <= Hwc.MAX_GAIN_INDEX
    requires g.hwc == Controller(c, Hwc.StateIqCal, gain, last, noise, cntr)
    ensures var (hwc, cmds) := Reaction(c, gain, last, noise, cntr, Report(g.noise, g.gain, SyncOrder.StampOf(g.fsm)),
                                        approval);
            Calm(c, s', g.(fsm := Onward(g.fsm, g.noise), hwc := hwc, pending := cmds))
  {
    hide At, Controller, Onward, SyncOrder.StampOf, Reaction;
    s' := OneFrame(c, s, g);
    var r := Report(g.noise, g.gain, SyncOrder.StampOf(g.fsm));
    s' := Eats(c, s', g.(fsm := Onward(g.fsm, g.noise), queue := [r]), gain, last, noise, cntr, approval);
    assert [r][1..] == g.queue;
  }

  /** A DATA frame out of tolerance ends the controller's wait, and IQ calibration goes on. */
  lemma OffCycle(c: Config, s: State, g: Stage, last: nat, cntr: nat) returns (s': State)
    requires ValidConfig(c) && Calm(c, s, g) && g.pending == [] && c.sync.enIqCal && g.fsm.StateIqCal?
    requires g.gain <= Hwc.MAX_GAIN_INDEX && last <= Hwc.MAX_GAIN_INDEX
    requires g.hwc == Controller(c, Hwc.StateNoiseCtrWait, g.gain, last, g.noise, cntr)
    ensures Calm(c, s', g.(hwc := Controller(c, Hwc.StateIqCal, g.gain, last, g.noise, cntr)))
  {
    hide At, Controller;
    s' := OffShot(c, s, g);
    var r := Report(g.noise, g.gain, 4);
    assert g.queue + [r] == [r] && [r][1..] == g.queue;
    s' := WaitEats(c, s', g.(queue := [r]), last, cntr);
  }

  /** A frame is stamped and lost on its way to the controller. */
  lemma LostCycle(c: Config, s: State, g: Stage) returns (s': State)
    requires ValidConfig(c) && Calm(c, s, g) && Handled(c, g.fsm, g.noise)
    ensures Calm(c, s', g.(fsm := Onward(g.fsm, g.noise)))
  {
    hide At, Onward, SyncOrder.StampOf;
    s' := OneFrame(c, s, g);
    var r := Report(g.noise, g.gain, SyncOrder.StampOf(g.fsm));
    s' := LastLost(c, s', g.(fsm := Onward(g.fsm, g.noise), queue := [r]));
    assert [r][..0] == g.queue;
  }

  /** A gain command and a noise switch are delivered, and the dummy window passes. */
  lemma Switched(c: Config, s: State, g: Stage, on: bool, gain: nat) returns (s': State)
    requires ValidConfig(c) && Calm(c, s, g) && gain <= Hwc.MAX_GAIN_INDEX
    requires g.pending == [ToldGains(c, gain), Daq.SwitchNoise(on)]
             || g.pending == [Daq.SwitchNoise(on), ToldGains(c, gain)]
    requires !g.fsm.StateSyncWait? && !g.fsm.StateFracSyncWait?
    ensures Calm(c, s', g.(noise := on, gain := gain, pending := []))
  {
    hide At, Values;
    s' := Delivered(c, s, g, gain);
    var first := g.pending[0];
    var g1 := if first.SwitchNoise? then g.(pending := g.pending[1..], window := 5, noise := on)
              else g.(pending := g.pending[1..], window := 5, gain := gain);
    s' := Delivered(c, s', g1, gain);
    var g2 := g.(pending := g.pending[1..][1..], window := 5, noise := on, gain := gain);
    assert g2.pending == [];
    s' := WindowPasses(c, s', g2);
  }

  // ---- the way to calibration with the noise source on and no burst counted ----

  /** No change is under way; the frames sent are of one kind. */
  function Quiet(noise: bool, fsm: Sync.Fsm, hwc: Hwc.State): Stage {
    Stage(noise, 0, if noise then HIGH else LOW, fsm, 0, hwc, [], [])
  }

  ghost predicate Limited(c: Config) {
    ValidConfig(c) && !Stalls(c) && !Blind(c) && c.loop.hwc.calTrackMode == 2
  }

  lemma StartIsCalm(c: Config)
    requires Limited(c)
    ensures Calm(c, Start(c), Quiet(false, Sync.StateInit, Controller(c, Hwc.StateInit, LOW, LOW, false, 0)))
  {
    hide Hwc.CalGain;
    assert Reaches(c, Start(c), [], Start(c));
  }

  /** The first frame: the controller sends the user's gains and makes sure that the source is off. */
  lemma Begin(c: Config) returns (s: State)
    requires Limited(c)
    ensures Calm(c, s, Quiet(false, Sync.StateInit, Controller(c, Hwc.StateIqCal, LOW, LOW, false, 0)))
  {
    hide At, Hwc.ProcessFrame, Start, Hwc.CalGain;
    var g := Quiet(false, Sync.StateInit, Controller(c, Hwc.StateInit, LOW, LOW, false, 0));
    StartIsCalm(c);
    s := OneFrame(c, Start(c), g);
    var r := Report(false, LOW, 1);
    FirstReports(c, s, g.(queue := [r]));
    Begins(c, r, s.sys.queue[0]);
    s := Eaten(c, s, g.(queue := [r]), true);
    var on := g.(hwc := Controller(c, Hwc.StateIqCal, LOW, LOW, false, 0),
                 pending := [ToldGains(c, LOW), Daq.SwitchNoise(false)]);
    assert [r][1..] == [];
    s := Switched(c, s, on, false, LOW);
  }

  /** The first calibration: sync is found on calibration frames, and the source is switched off again. */
  lemma Calibrate(c: Config) returns (s: State)
    requires Limited(c)
    ensures Calm(c, s, Quiet(false, Sync.StateTrackLock,
                             Controller(c, Hwc.StateNoiseCtrWait, LOW, LOW, false, 0)))
  {
    hide Calm, Level, Values, Hwc.CalGain;
    GainsDiffer();
    s := Begin(c);
    var g := Quiet(false, Sync.StateInit, Controller(c, Hwc.StateIqCal, LOW, LOW, false, 0));
    s := Cycle(c, s, g, LOW, LOW, false, 0, true);
    var on := Controller(c, Hwc.StateNoiseCtrWait, HIGH, LOW, true, 0);
    s := Switched(c, s, g.(hwc := on, pending := OnCmds(c)), true, HIGH);
    s := LostCycle(c, s, Quiet(true, Sync.StateInit, on));
    s := LostCycle(c, s, Quiet(true, Sync.StateSampleCal, on));
    s := LostCycle(c, s, Quiet(true, Sync.StateFracSampleCal, on));
    s := LostCycle(c, s, Quiet(true, Sync.StateIqCal, on));
    s := WaitCycle(c, s, Quiet(true, Sync.StateTrackLock, on), LOW, 0);
    var locked := Quiet(true, Sync.StateTrackLock, Controller(c, Hwc.StateIqCal, HIGH, LOW, true, 0));
    s := Cycle(c, s, locked, HIGH, LOW, true, 0, true);
    s := Switched(c, s, locked.(hwc := Controller(c, Hwc.StateNoiseCtrWait, LOW, LOW, false, 0),
                                pending := OffCmds(c, LOW)), false, LOW);
  }

  /** The controller counts frames towards a burst, or through one. */
  lemma {:induction false} Counting(c: Config, s: State, noise: bool, cntr: nat, end: nat) returns (s': State)
    requires Limited(c) && cntr <= end
    requires var interval := c.loop.hwc.calFrameInterval;
             if noise then interval <= cntr && end < interval + c.loop.hwc.calFrameBurstSize else end < interval
    requires Calm(c, s, Quiet(noise, Sync.StateTrack,
                              Controller(c, Hwc.StateIqCal, if noise then HIGH else LOW, LOW, noise, cntr)))
    ensures Calm(c, s', Quiet(noise, Sync.StateTrack,
                              Controller(c, Hwc.StateIqCal, if noise then HIGH else LOW, LOW, noise, end)))
    decreases end - cntr
  {
    hide Calm, Level, Hwc.CalGain;
    GainsDiffer();
    s' := s;
    if cntr < end {
      var gain := if noise then HIGH else LOW;
      s' := Cycle(c, s, Quiet(noise, Sync.StateTrack, Controller(c, Hwc.StateIqCal, gain, LOW, noise, cntr)),
                  gain, LOW, noise, cntr, true);
      s' := Counting(c, s', noise, cntr + 1, end);
    }
  }

  /** The first burst: at its end the source is ordered off, and the command is still on its way. */
  lemma FirstBurst(c: Config) returns (s: State)
    requires Limited(c)
    ensures Calm(c, s, Quiet(true, Sync.StateTrack, Controller(c, Hwc.StateNoiseCtrWait, LOW, LOW, false, 0))
                       .(pending := OffCmds(c, LOW)))
  {
    hide Calm, Level, Values, Hwc.CalGain;
    GainsDiffer();
    var interval, burst := c.loop.hwc.calFrameInterval, c.loop.hwc.calFrameBurstSize;
    s := Calibrate(c);
    s := WaitCycle(c, s, Quiet(false, Sync.StateTrackLock, Controller(c, Hwc.StateNoiseCtrWait, LOW, LOW, false, 0)),
                   LOW, 0);
    s := Counting(c, s, false, 0, interval - 1);
    var tracking := Quiet(false, Sync.StateTrack, Controller(c, Hwc.StateIqCal, LOW, LOW, false, interval - 1));
    s := Cycle(c, s, tracking, LOW, LOW, false, interval - 1, true);
    var on := Controller(c, Hwc.StateNoiseCtrWait, HIGH, LOW, true, interval);
    s := Switched(c, s, tracking.(hwc := on, pending := OnCmds(c)), true, HIGH);
    s := WaitCycle(c, s, Quiet(true, Sync.StateTrack, on), LOW, interval);
    s := Counting(c, s, true, interval, interval + burst - 1);
    s := Cycle(c, s, Quiet(true, Sync.StateTrack,
                           Controller(c, Hwc.StateIqCal, HIGH, LOW, true, interval + burst - 1)),
               HIGH, LOW, true, interval + burst - 1, true);
  }

  /** Calibration frames without dynamic range, stamped and lost, until the track is lost. */
  lemma {:induction false} TrackIsLost(c: Config, s: State, g: Stage) returns (s': State)
    requires Limited(c) && At(c, s, g) && g.window == 0 && g.noise
    requires g.fsm.StateTrack? && g.fails < c.sync.maxSyncFails
    ensures At(c, s', g.(fsm := Sync.StateInit, fails := 0))
    decreases c.sync.maxSyncFails - g.fails
  {
    hide At;
    s' := BadShot(c, s, g);
    var queue := g.queue + [Report(true, g.gain, 6)];
    assert queue[..|queue| - 1] == g.queue;
    if g.fails + 1 == c.sync.maxSyncFails {
      s' := LastLost(c, s', g.(fsm := Sync.StateInit, fails := 0, queue := queue));
    } else {
      s' := LastLost(c, s', g.(fails := g.fails + 1, queue := queue));
      s' := TrackIsLost(c, s', g.(fails := g.fails + 1));
    }
  }

  /**
   * The track is lost on the calibration frames in flight at the end of a burst, and the ones after that take
   * the synchronizer into its calibration, which goes on on DATA frames; the controller orders the source on
   * while these carry the synchronizer back to its track state.
   */
  lemma RiskIsReachable(c: Config) returns (s: State)
    requires Limited(c)
    ensures Calm(c, s, Quiet(true, Sync.StateTrack, Controller(c, Hwc.StateIqCal, HIGH, LOW, true, 0)))
  {
    hide Level, Values, Hwc.CalGain, At;
    GainsDiffer();
    s := FirstBurst(c);
    var off := Controller(c, Hwc.StateNoiseCtrWait, LOW, LOW, false, 0);
    s := TrackIsLost(c, s, Quiet(true, Sync.StateTrack, off).(pending := OffCmds(c, LOW)));
    s := StaleCalibration(c, s);
    s := RiskFromIqCal(c, s);
  }

  /** The first DATA frame finds the synchronizer in calibration and leaves it there. */
  lemma StaleCalibration(c: Config, s: State) returns (s': State)
    requires Limited(c)
    requires Calm(c, s, Quiet(true, Sync.StateInit, Controller(c, Hwc.StateNoiseCtrWait, LOW, LOW, false, 0))
                        .(pending := OffCmds(c, LOW)))
    ensures Calm(c, s', Quiet(false, Sync.StateIqCal, Controller(c, Hwc.StateIqCal, LOW, LOW, false, 0)))
  {
    hide Level, Values, Hwc.CalGain, Calm;
    GainsDiffer();
    var off := Controller(c, Hwc.StateNoiseCtrWait, LOW, LOW, false, 0);
    s' := LostCycle(c, s, Quiet(true, Sync.StateInit, off).(pending := OffCmds(c, LOW)));
    s' := LostCycle(c, s', Quiet(true, Sync.StateSampleCal, off).(pending := OffCmds(c, LOW)));
    if EvenData(c) {
      s' := Switched(c, s', Quiet(true, Sync.StateFracSampleCal, off).(pending := OffCmds(c, LOW)), false, LOW);
      s' := WaitCycle(c, s', Quiet(false, Sync.StateFracSampleCal, off), LOW, 0);
    } else {
      s' := LostCycle(c, s', Quiet(true, Sync.StateFracSampleCal, off).(pending := OffCmds(c, LOW)));
      s' := Switched(c, s', Quiet(true, Sync.StateIqCal, off).(pending := OffCmds(c, LOW)), false, LOW);
      s' := OffCycle(c, s', Quiet(false, Sync.StateIqCal, off), LOW, 0);
    }
  }

  lemma RiskFromIqCal(c: Config, s: State) returns (s': State)
    requires Limited(c)
    requires Calm(c, s, Quiet(false, Sync.StateIqCal, Controller(c, Hwc.StateIqCal, LOW, LOW, false, 0)))
    ensures Calm(c, s', Quiet(true, Sync.StateTrack, Controller(c, Hwc.StateIqCal, HIGH, LOW, true, 0)))
  {
    hide Level, Values, Hwc.CalGain, Calm;
    GainsDiffer();
    s' := Cycle(c, s, Quiet(false, Sync.StateIqCal, Controller(c, Hwc.StateIqCal, LOW, LOW, false, 0)),
                LOW, LOW, false, 0, true);
    var on := Controller(c, Hwc.StateNoiseCtrWait, HIGH, LOW, true, 0);
    s' := LostCycle(c, s', Quiet(false, Sync.StateTrackLock, on).(pending := OnCmds(c)));
    s' := Switched(c, s', Quiet(false, Sync.StateTrack, on).(pending := OnCmds(c)), true, HIGH);
    s' := WaitCycle(c, s', Quiet(true, Sync.StateTrack, on), LOW, 0);
  }

  // ---- the failures ----

  /** One frame before a burst is due, with the noise source on. */
  ghost function Brink(c: Config): Stage
    requires ValidConfig(c)
  {
    Quiet(true, Sync.StateTrack,
          Controller(c, Hwc.StateIqCal, HIGH, LOW, true, c.loop.hwc.calFrameInterval - 1))
  }

  /** Calibration frames are counted while the user does not approve the lock. */
  lemma {:induction false} Unapproved(c: Config, s: State, cntr: nat) returns (s': State)
    requires Limited(c) && cntr < c.loop.hwc.calFrameInterval
    requires cntr + 1 < c.loop.hwc.calFrameInterval ==> c.loop.hwc.requireTrackLockIntervention
    requires Calm(c, s, Quiet(true, Sync.StateTrack, Controller(c, Hwc.StateIqCal, HIGH, LOW, true, cntr)))
    ensures Calm(c, s', Brink(c))
    decreases c.loop.hwc.calFrameInterval - cntr
  {
    hide Calm, Level, Hwc.CalGain;
    GainsDiffer();
    s' := s;
    if cntr + 1 < c.loop.hwc.calFrameInterval {
      s' := Cycle(c, s, Quiet(true, Sync.StateTrack, Controller(c, Hwc.StateIqCal, HIGH, LOW, true, cntr)),
                  HIGH, LOW, true, cntr, false);
      s' := Unapproved(c, s', cntr + 1);
    }
  }

  lemma BrinkIsReachable(c: Config) returns (s: State)
    requires Limited(c) && !Sound(c.loop.hwc)
    ensures Calm(c, s, Brink(c))
  {
    hide Calm, Controller;
    s := RiskIsReachable(c);
    s := Unapproved(c, s, 0);
  }

  /** The controller orders the source off and on again on one frame. */
  function SwitchedTwice(c: Config): Stage {
    Quiet(true, Sync.StateTrack,
          Controller(c, Hwc.StateNoiseCtrWait, HIGH, LOW, true, c.loop.hwc.calFrameInterval))
      .(pending := OffCmds(c, LOW) + OnCmds(c))
  }

  lemma TwoSwitches(c: Config) returns (s: State)
    requires Limited(c) && !Sound(c.loop.hwc)
    ensures Calm(c, s, SwitchedTwice(c))
  {
    hide Calm, Level, Hwc.CalGain, Values;
    GainsDiffer();
    s := BrinkIsReachable(c);
    s := Cycle(c, s, Brink(c), HIGH, LOW, true, c.loop.hwc.calFrameInterval - 1, true);
  }

  /** Then a frame in flight with the source on comes before the switch that turns it off. */
  lemma HandshakeBreaks(c: Config) returns (s: State)
    requires ValidConfig(c) && !Safe(c)
    ensures ValidState(c, s) && Reachable(c, Start(c), s) && !Follows(Line(s.sys), s.sys.hwc)
  {
    hide Level, Hwc.CalGain, Values, Reachable, Start, Steady, SyncAt;
    s := TwoSwitches(c);
    assert s.sys.daq.noiseSourceState by { SteadyNoise(c, s, SwitchedTwice(c)); }
    var line := Line(s.sys);
    assert s.sys.queue == [];
    SwitchesConcat(OffCmds(c, LOW), OnCmds(c));
    assert Switches(OffCmds(c, LOW)) == [false] && Switches(OnCmds(c)) == [true] by { PairSwitches(c); }
    assert line == [true, false, true];
    assert line[0] && !line[1];
  }

  lemma SteadyNoise(c: Config, s: State, g: Stage)
    requires ValidConfig(c) && At(c, s, g)
    ensures s.sys.daq.noiseSourceState == g.noise
  {
  }

  lemma PairSwitches(c: Config)
    requires HIGH <= Hwc.MAX_GAIN_INDEX
    ensures Switches(OffCmds(c, LOW)) == [false] && Switches(OnCmds(c)) == [true]
  {
    SwitchesConcat([Daq.SwitchNoise(false)], [ToldGains(c, LOW)]);
    SwitchesConcat([ToldGains(c, HIGH)], [Daq.SwitchNoise(true)]);
    assert OffCmds(c, LOW) == [Daq.SwitchNoise(false)] + [ToldGains(c, LOW)];
    assert OnCmds(c) == [ToldGains(c, HIGH)] + [Daq.SwitchNoise(true)];
  }

  /** With the source on and the calibration gains kept aside, the user's gains are gone. */
  lemma GainsAreLost(c: Config, s: State, g: Stage, cntr: nat)
    requires ValidConfig(c) && At(c, s, g)
    requires g.hwc == Controller(c, Hwc.StateNoiseCtrWait, HIGH, HIGH, true, cntr)
    ensures ValidState(c, s) && Reachable(c, Start(c), s) && !Kept(c.loop.hwc, s.sys.hwc, s.sys.user)
  {
    hide Reachable, Start, Hwc.CalGain, Steady, SyncAt;
    GainsDiffer();
    EqualGains(c, LOW);
    assert Level(c, LOW)[0] != Level(c, HIGH)[0];
  }

  lemma GainsBreak(c: Config) returns (s: State)
    requires ValidConfig(c) && !Safe(c)
    ensures ValidState(c, s) && Reachable(c, Start(c), s) && !Kept(c.loop.hwc, s.sys.hwc, s.sys.user)
  {
    hide Calm, Level, Hwc.CalGain, Values, Reachable, Start, Kept;
    GainsDiffer();
    if c.loop.hwc.requireTrackLockIntervention {
      s := BrinkIsReachable(c);
      s := Cycle(c, s, Brink(c), HIGH, LOW, true, c.loop.hwc.calFrameInterval - 1, false);
      CalmIsAt(c, s, Brink(c).(hwc := Controller(c, Hwc.StateNoiseCtrWait, HIGH, HIGH, true,
                                                 c.loop.hwc.calFrameInterval), pending := OnCmds(c)));
      GainsAreLost(c, s, Brink(c).(hwc := Controller(c, Hwc.StateNoiseCtrWait, HIGH, HIGH, true,
                                                     c.loop.hwc.calFrameInterval), pending := OnCmds(c)),
                   c.loop.hwc.calFrameInterval);
    } else {
      s := TwoSwitches(c);
      var g: Stage;
      s, g := SwitchOffPasses(c, s);
      s, g := SwitchOnOverOn(c, s, g);
      GainsAreLost(c, s, g, 0);
    }
  }

  lemma CalmIsAt(c: Config, s: State, g: Stage)
    requires ValidConfig(c) && Calm(c, s, g)
    ensures At(c, s, g)
  {
  }

  /** What is in flight between the two switches: a calibration frame, then two DATA frames that are not in sync. */
  function InFlight(): seq<Report> {
    [Report(true, HIGH, 6), Report(false, LOW, 1), Report(false, LOW, 1)]
  }

  /** While both switches are on their way the track is lost, and three more frames are sent. */
  lemma SwitchOffPasses(c: Config, s: State) returns (s': State, g: Stage)
    requires Limited(c) && Calm(c, s, SwitchedTwice(c))
    ensures At(c, s', g) && g.hwc == SwitchedTwice(c).hwc && g.pending == OnCmds(c) && g.queue == InFlight()
  {
    hide At, Level, Hwc.CalGain, Values;
    GainsDiffer();
    var on := OffCmds(c, LOW) + OnCmds(c);
    g := SwitchedTwice(c);
    s' := GoodShot(c, s, g);
    g := g.(queue := [] + [Report(true, HIGH, 6)]);
    s' := TrackIsLost(c, s', g);
    g := g.(fsm := Sync.StateInit);
    s' := Delivered(c, s', g, LOW);
    g := g.(noise := false, window := 5, pending := on[1..]);
    s' := Delivered(c, s', g, LOW);
    g := g.(gain := LOW, pending := on[1..][1..]);
    s' := WindowPasses(c, s', g);
    g := g.(window := 0);
    s' := GoodShot(c, s', g);
    g := g.(queue := g.queue + [Report(false, LOW, 1)]);
    s' := GoodShot(c, s', g);
    g := g.(queue := g.queue + [Report(false, LOW, 1)]);
    assert g.queue == InFlight() && g.pending == OnCmds(c);
  }

  /** The second switch is delivered, and the controller orders the source on while it is on. */
  lemma SwitchOnOverOn(c: Config, s: State, g: Stage) returns (s': State, g': Stage)
    requires Limited(c) && At(c, s, g) && c.loop.hwc.calFrameInterval == 1
    requires g.hwc == SwitchedTwice(c).hwc && g.pending == OnCmds(c) && g.queue == InFlight()
    ensures At(c, s', g') && g'.hwc == Controller(c, Hwc.StateNoiseCtrWait, HIGH, HIGH, true, 0)
  {
    hide At, Level, Hwc.CalGain, Values;
    GainsDiffer();
    s' := Delivered(c, s, g, HIGH);
    g' := g.(gain := HIGH, window := 5, pending := OnCmds(c)[1..]);
    s' := Delivered(c, s', g', HIGH);
    g' := g'.(noise := true, pending := OnCmds(c)[1..][1..]);
    s' := WaitEats(c, s', g', LOW, 1);
    g' := g'.(hwc := Controller(c, Hwc.StateIqCal, HIGH, LOW, true, 1), queue := g'.queue[1..]);
    s' := Eats(c, s', g', HIGH, LOW, true, 1, true);
    g' := g'.(hwc := Controller(c, Hwc.StateIqCal, HIGH, LOW, true, 0), pending := [], queue := g'.queue[1..]);
    s' := Eats(c, s', g', HIGH, LOW, true, 0, true);
    g' := g'.(hwc := Controller(c, Hwc.StateNoiseCtrWait, HIGH, HIGH, true, 0), pending := OnCmds(c),
              queue := g'.queue[1..]);
  }

  // ---- the exact limits ----

  /** States of some run of the loop from a start of the chain. */
  ghost predicate Occurring(c: Config, s: State)
    requires ValidConfig(c)
  {
    exists gain: nat, freq: nat, header: IqHeader, gains: seq<nat>, tune: bool, adjust: Sync.Vector ::
      Starts(c, Initial(c, gain, freq, header, gains, tune, adjust), gain, freq, header, gains, tune, adjust)
      && Reachable(c, Initial(c, gain, freq, header, gains, tune, adjust), s)
  }

  ghost predicate Starts(c: Config, s: State, gain: nat, freq: nat, header: IqHeader, gains: seq<nat>, tune: bool,
                         adjust: Sync.Vector)
    requires ValidConfig(c)
  {
    && Hwc.ValidGainList(c.loop.hwc, gains) && |header.ifGains| == 32 && |adjust| == c.sync.chNum
    && ValidState(c, s) && s == Initial(c, gain, freq, header, gains, tune, adjust)
  }

  lemma SafeOccurs(c: Config, s: State)
    requires ValidConfig(c) && Safe(c) && Occurring(c, s)
    ensures ValidState(c, s) && LoopInv(c, s)
  {
    hide LoopInv, Reaches, Safe, Initial;
    var gain: nat, freq: nat, header: IqHeader, gains: seq<nat>, tune: bool, adjust: Sync.Vector :|
      Starts(c, Initial(c, gain, freq, header, gains, tune, adjust), gain, freq, header, gains, tune, adjust)
      && Reachable(c, Initial(c, gain, freq, header, gains, tune, adjust), s);
    var s0 := Initial(c, gain, freq, header, gains, tune, adjust);
    InitialLoopInv(c, gain, freq, header, gains, tune, adjust);
    var steps :| Reaches(c, s0, steps, s);
    LoopRunKeeps(c, s0, steps, s);
  }

  lemma StartOccurs(c: Config, s: State)
    requires ValidConfig(c) && Reachable(c, Start(c), s)
    ensures Occurring(c, s)
  {
    hide Reachable, Initial, ValidState;
    assert Starts(c, Start(c), Hwc.VALID_GAINS[LOW], FREQ, BlankHeader(), Level(c, LOW), false,
                  Repeat(Sync.ONE, c.sync.chNum));
  }

  /**
   * The frames in flight follow the controller in every run of the closed loop exactly in these
   * configurations: no bursts, or bursts at least two frames apart that wait for no approval; a window that
   * is not made of whole blocks; or shorter DATA frames that are not, without IQ calibration.
   */
  lemma HandshakeHoldsExactlyWhenSafe(c: Config)
    requires ValidConfig(c)
    ensures Safe(c) <==> forall s | Occurring(c, s) :: Follows(Line(s.sys), s.sys.hwc)
  {
    hide Follows, LoopInv, Occurring, Safe, Reachable;
    if Safe(c) {
      forall s | Occurring(c, s)
        ensures Follows(Line(s.sys), s.sys.hwc)
      {
        SafeOccurs(c, s);
        InvFollows(c, s);
      }
    } else {
      var s := HandshakeBreaks(c);
      StartOccurs(c, s);
    }
  }

  lemma InvFollows(c: Config, s: State)
    requires ValidConfig(c) && ValidState(c, s) && LoopInv(c, s)
    ensures Follows(Line(s.sys), s.sys.hwc) && Kept(c.loop.hwc, s.sys.hwc, s.sys.user)
  {
  }

  /** In the same configurations, and in no other, the user's gains survive every run. */
  lemma GainsSurviveExactlyWhenSafe(c: Config)
    requires ValidConfig(c)
    ensures Safe(c) <==>
            forall s | Occurring(c, s) && ValidState(c, s) :: Kept(c.loop.hwc, s.sys.hwc, s.sys.user)
  {
    hide Kept, LoopInv, Occurring, Safe, Reachable;
    if Safe(c) {
      forall s | Occurring(c, s) && ValidState(c, s)
        ensures Kept(c.loop.hwc, s.sys.hwc, s.sys.user)
      {
        SafeOccurs(c, s);
        InvFollows(c, s);
      }
    } else {
      var s := GainsBreak(c);
      StartOccurs(c, s);
    }
  }
}
