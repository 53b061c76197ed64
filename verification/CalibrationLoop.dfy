/**
 * The calibration loop closed through the synchronizer: the frames of the control loop are stamped in
 * order by the delay synchronizer, whose sampling rate corrections go back to the receiver process. The
 * noise states in flight are looked at as a line from the controller to the switches it has ordered.
 */
module CalibrationLoop {
  import opened Common
  import opened IqHeaders
  import Daq = RtlDaq
  import Hwc = HwController
  import Sync = DelaySync
  import SyncOrder
  import Control = ControlLoop
  import opened NoiseHandshake

  datatype Config = Config(loop: Control.Config, sync: Sync.Config)

  /** The controller and the synchronizer read the same configuration file. */
  ghost predicate ValidConfig(c: Config) {
    && Control.ValidConfig(c.loop) && Sync.ValidConfig(c.sync)
    && c.loop.hwc.chNum == c.sync.chNum && c.loop.hwc.calTrackMode == c.sync.calTrackMode
  }

  /** The first `marked` frames of the queue are past the synchronizer. */
  datatype State = State(sys: Control.System, sync: Sync.State, marked: nat)

  ghost predicate ValidState(c: Config, s: State) {
    && Control.ValidSystem(c.loop, s.sys) && Sync.ValidState(c.sync, s.sync) && s.marked <= |s.sys.queue|
  }

  function Initial(c: Config, gain: nat, freq: nat, header: IqHeader, gains: seq<nat>, tune: bool,
                   adjust: Sync.Vector): State {
    State(Control.Initial(c.loop, gain, freq, header, gains, tune), Sync.Initial(c.sync, adjust), 0)
  }

  datatype Step = Base(step: Control.Step) | Synchronize(x: Sync.Measured)

  /** Only the synchronizer stamps frames, and the controller sees none before they are stamped. */
  ghost predicate Enabled(c: Config, s: State, step: Step) {
    match step
    case Base(b) => Control.Enabled(c.loop, s.sys, b) && !b.Mark? && (b.Receive? ==> 0 < s.marked)
    case Synchronize(x) => s.marked < |s.sys.queue| && !s.sync.ended && Sync.ValidMeasured(c.sync, x)
  }

  /** How a stamp is written into a header. */
  function Written(stamp: Sync.Stamp): Control.Stamp {
    Control.Stamp(if stamp.delaySync then 1 else 0, if stamp.iqSync then 1 else 0, stamp.syncState)
  }

  /** The stamp put on a frame, or the frame that is not passed on, as a step of the control loop. */
  function Passing(marked: nat, r: Sync.Result): Control.Step {
    if r.stamp.Some? then Control.Mark(marked, Written(r.stamp.value)) else Control.Lose(marked)
  }

  /** A frame as it reaches the synchronizer: calibration frames fill the window, DATA frames have the CPI size. */
  function Arriving(c: Config, h: IqHeader): IqHeader {
    h.(cpiLength := if h.frameType == FRAME_TYPE_CAL then c.sync.nProc
                    else if h.frameType == FRAME_TYPE_DATA then c.sync.cpiSize else 0)
  }

  function Ordered(c: Config, sys: Control.System, order: Option<seq<real>>): (r: Control.System)
    requires ValidConfig(c) && Control.ValidSystem(c.loop, sys)
    requires order.Some? ==> |order.value| == c.sync.chNum
    ensures Control.ValidSystem(c.loop, r)
    ensures r.queue == sys.queue && r.hwc == sys.hwc
  {
    if order.Some? then Control.Next(c.loop, sys, Control.Foreign(Daq.CorrectFs(order.value))) else sys
  }

  function Next(c: Config, s: State, step: Step): (r: State)
    requires ValidConfig(c) && ValidState(c, s) && Enabled(c, s, step)
    ensures ValidState(c, r)
  {
    match step
    case Base(b) =>
      var marked := if b.Receive? || (b.Lose? && b.i < s.marked) then s.marked - 1 else s.marked;
      State(Control.Next(c.loop, s.sys, b), s.sync, marked)
    case Synchronize(x) =>
      var r := Sync.ProcessFrame(c.sync, s.sync, Arriving(c, s.sys.queue[s.marked]), x);
      var sys := Control.Next(c.loop, s.sys, Passing(s.marked, r));
      State(Ordered(c, sys, r.order), r.state, if r.stamp.Some? then s.marked + 1 else s.marked)
  }

  /** `s'` is reached from `s` by these steps, each enabled when its turn comes. */
  ghost predicate Reaches(c: Config, s: State, steps: seq<Step>, s': State)
    requires ValidConfig(c) && ValidState(c, s)
    decreases |steps|
  {
    if steps == [] then s' == s
    else Enabled(c, s, steps[0]) && Reaches(c, Next(c, s, steps[0]), steps[1..], s')
  }

  // ---- the line ----

  /** A stamped frame as the controller is going to see it. */
  datatype Seen = Seen(dummy: bool, on: bool, stamp: nat)

  /** The stamped frames, the noise states that are still to be stamped, and the two state machines. */
  datatype View = View(marked: seq<Seen>, ahead: seq<bool>, ctl: Hwc.State, sync: Sync.Fsm)

  function ViewOf(s: State): (v: View)
    requires s.marked <= |s.sys.queue|
    ensures |v.marked| == s.marked && v.ahead != []
  {
    View(seq(s.marked, i requires 0 <= i < s.marked =>
               Seen(IsDummy(s.sys.queue[i]), s.sys.queue[i].noiseSourceState == 1, s.sys.queue[i].syncState)),
         Line(s.sys)[s.marked..], s.sys.hwc, s.sync.fsm)
  }

  /** The line follows the controller, in terms of the view. */
  ghost predicate Shape(v: View) {
    var noise := v.ctl.noiseSourceState;
    if v.ctl.fsm.StateNoiseCtrWait? then
      && v.ahead != [] && v.ahead[|v.ahead| - 1] == noise
      && (forall i, j | 0 <= i < j < |v.marked| && v.marked[i].on == noise :: v.marked[j].on == noise)
      && (forall i, j | 0 <= i < |v.marked| && 0 <= j < |v.ahead| && v.marked[i].on == noise :: v.ahead[j] == noise)
      && (forall i, j | 0 <= i < j < |v.ahead| && v.ahead[i] == noise :: v.ahead[j] == noise)
    else
      && v.ahead != []
      && (forall i | 0 <= i < |v.marked| :: v.marked[i].on == noise)
      && (forall j | 0 <= j < |v.ahead| :: v.ahead[j] == noise)
  }

  lemma FollowsMeansShape(s: State)
    requires s.marked <= |s.sys.queue| && Follows(Line(s.sys), s.sys.hwc)
    ensures Shape(ViewOf(s))
  {
    var line, v := Line(s.sys), ViewOf(s);
    assert forall i | 0 <= i < |v.marked| :: v.marked[i].on == line[i];
    assert forall j | 0 <= j < |v.ahead| :: v.ahead[j] == line[s.marked + j];
  }

  ghost predicate AllOn(states: seq<bool>) {
    forall j | 0 <= j < |states| :: states[j]
  }

  ghost predicate AllOff(states: seq<bool>) {
    forall j | 0 <= j < |states| :: !states[j]
  }

  /** Nothing new is ahead. */
  ghost predicate NothingNew(v: View, v': View) {
    v'.marked == v.marked && v'.ctl == v.ctl && v'.sync == v.sync
    && forall j | 0 <= j < |v'.ahead| :: v'.ahead[j] in v.ahead
  }

  /** A stamped frame is lost. */
  ghost predicate LosesOne(v: View, v': View) {
    v'.ahead == v.ahead && v'.ctl == v.ctl && v'.sync == v.sync
    && exists i | 0 <= i < |v.marked| :: v'.marked == v.marked[..i] + v.marked[i + 1..]
  }

  /** The type of a frame says whether the noise source was on. */
  predicate Typed(h: IqHeader) {
    || IsDummy(h)
    || (h.frameType == FRAME_TYPE_CAL && h.noiseSourceState == 1)
    || (h.frameType == FRAME_TYPE_DATA && h.noiseSourceState == 0)
  }

  ghost predicate AllTyped(queue: seq<IqHeader>) {
    forall i | 0 <= i < |queue| :: Typed(queue[i])
  }

  // ---- how the steps move the line ----

  /** Steps of the receiver process, of other senders, and losses. */
  ghost predicate Elsewhere(s: State, step: Step) {
    step.Base? && !step.step.Receive? && !(step.step.Lose? && step.step.i < s.marked)
  }

  /** What is ahead of the first `m` states of a line comes from what was ahead of them. */
  ghost predicate FromAhead(line: seq<bool>, line': seq<bool>, m: nat) {
    && m < |line| && m < |line'| && line'[..m] == line[..m]
    && forall j | m <= j < |line'| :: line'[j] in line[m..]
  }

  lemma InAhead(line: seq<bool>, m: nat, j: nat)
    requires m <= j < |line|
    ensures line[j] in line[m..]
  {
    assert line[m..][j - m] == line[j];
  }

  lemma DropIsFromAhead(line: seq<bool>, m: nat, i: nat)
    requires m <= i < |line| - 1
    ensures FromAhead(line, line[..i] + line[i + 1..], m)
  {
    var line' := line[..i] + line[i + 1..];
    forall j | m <= j < |line'|
      ensures line'[j] in line[m..]
    {
      InAhead(line, m, if j < i then j else j + 1);
    }
  }

  lemma RepeatIsFromAhead(line: seq<bool>, m: nat, i: nat)
    requires m <= i < |line|
    ensures FromAhead(line, line[..i + 1] + line[i..], m)
  {
    var line' := line[..i + 1] + line[i..];
    forall j | m <= j < |line'|
      ensures line'[j] in line[m..]
    {
      InAhead(line, m, if j <= i then j else j - 1);
    }
  }

  lemma SameIsFromAhead(line: seq<bool>, m: nat)
    requires m < |line|
    ensures FromAhead(line, line, m)
  {
    forall j | m <= j < |line|
      ensures line[j] in line[m..]
    {
      InAhead(line, m, j);
    }
  }

  lemma ElsewhereLine(c: Config, s: State, step: Step)
    requires ValidConfig(c) && ValidState(c, s) && Enabled(c, s, step) && Elsewhere(s, step)
    ensures FromAhead(Line(s.sys), Line(Next(c, s, step).sys), s.marked)
  {
    hide Line, Control.Next, FromAhead;
    var line := Line(s.sys);
    LineIsLonger(s.sys);
    SameIsFromAhead(line, s.marked);
    RepeatIsFromAhead(line, s.marked, |s.sys.queue|);
    match step.step {
      case Turn(m, hw) => TurnLine(c.loop, s.sys, m, hw);
      case NotReady => SameLine(c.loop, s.sys, step.step);
      case Deliver =>
        DeliverLine(c.loop, s.sys);
        if s.sys.pending[0].SwitchNoise? {
          DropIsFromAhead(line, s.marked, |s.sys.queue|);
        }
      case Foreign(cmd) => SameLine(c.loop, s.sys, step.step);
      case Lose(i) =>
        LoseLine(c.loop, s.sys, i);
        DropIsFromAhead(line, s.marked, i);
    }
  }

  /** Stamped frames and the two state machines are left alone. */
  lemma ElsewhereLeaves(c: Config, s: State, step: Step)
    requires ValidConfig(c) && ValidState(c, s) && Enabled(c, s, step) && Elsewhere(s, step)
    ensures var s' := Next(c, s, step);
            && s'.marked == s.marked && s'.sync == s.sync && s'.sys.hwc == s.sys.hwc
            && s'.sys.queue[..s.marked] == s.sys.queue[..s.marked]
            && (AllTyped(s.sys.queue) ==> AllTyped(s'.sys.queue))
  {
    hide Daq.Next, Daq.Order;
  }

  lemma ElsewhereIsNothingNew(c: Config, s: State, step: Step)
    requires ValidConfig(c) && ValidState(c, s) && Enabled(c, s, step) && Elsewhere(s, step)
    ensures NothingNew(ViewOf(s), ViewOf(Next(c, s, step)))
  {
    hide Line, Next, Enabled, Elsewhere;
    ElsewhereLine(c, s, step);
    ElsewhereLeaves(c, s, step);
    var s' := Next(c, s, step);
    assert forall i | 0 <= i < s.marked :: s'.sys.queue[i] == s'.sys.queue[..s.marked][i] == s.sys.queue[i];
    assert ViewOf(s').marked == ViewOf(s).marked;
  }

  lemma LosingLine(c: Config, s: State, i: nat)
    requires ValidConfig(c) && ValidState(c, s) && i < s.marked
    ensures var s' := Next(c, s, Base(Control.Lose(i)));
            && s'.marked == s.marked - 1 && s'.sync == s.sync && s'.sys.hwc == s.sys.hwc
            && s'.sys.queue == s.sys.queue[..i] + s.sys.queue[i + 1..]
            && Line(s'.sys) == Line(s.sys)[..i] + Line(s.sys)[i + 1..]
            && (AllTyped(s.sys.queue) ==> AllTyped(s'.sys.queue))
  {
    hide Line;
    LoseLine(c.loop, s.sys, i);
  }

  lemma LosingOne(c: Config, s: State, i: nat)
    requires ValidConfig(c) && ValidState(c, s) && i < s.marked
    ensures LosesOne(ViewOf(s), ViewOf(Next(c, s, Base(Control.Lose(i)))))
  {
    hide Line, Next;
    LosingLine(c, s, i);
    LineIsLonger(s.sys);
    var v, v' := ViewOf(s), ViewOf(Next(c, s, Base(Control.Lose(i))));
    assert v'.marked == v.marked[..i] + v.marked[i + 1..];
    assert v'.ahead == v.ahead;
  }

  /** The next frame is stamped, or raises an error and is dropped. */
  ghost predicate Marks(v: View, v': View, h: IqHeader, r: Sync.Result) {
    && v'.ctl == v.ctl && v'.sync == r.state.fsm && 2 <= |v.ahead| && v'.ahead == v.ahead[1..]
    && v.ahead[0] == (h.noiseSourceState == 1)
    && v'.marked == v.marked + if r.stamp.Some? then [Seen(IsDummy(h), v.ahead[0], r.stamp.value.syncState)] else []
  }

  lemma SynchronizeLine(c: Config, s: State, x: Sync.Measured)
    requires ValidConfig(c) && ValidState(c, s) && Enabled(c, s, Synchronize(x))
    ensures var m, h := s.marked, s.sys.queue[s.marked];
            var r := Sync.ProcessFrame(c.sync, s.sync, Arriving(c, h), x);
            var s' := Next(c, s, Synchronize(x));
            && s'.sync == r.state && s'.sys.hwc == s.sys.hwc
            && s'.marked == (if r.stamp.Some? then m + 1 else m)
            && s'.sys.queue == (if r.stamp.Some? then s.sys.queue[m := Control.Stamped(h, Written(r.stamp.value))]
                                else s.sys.queue[..m] + s.sys.queue[m + 1..])
            && Line(s'.sys) == if r.stamp.Some? then Line(s.sys) else Line(s.sys)[..m] + Line(s.sys)[m + 1..]
  {
    hide Line, Sync.ProcessFrame, Daq.Order;
    var r := Sync.ProcessFrame(c.sync, s.sync, Arriving(c, s.sys.queue[s.marked]), x);
    if r.stamp.Some? {
      MarkLine(c.loop, s.sys, s.marked, Written(r.stamp.value));
    } else {
      LoseLine(c.loop, s.sys, s.marked);
    }
    if r.order.Some? {
      SameLine(c.loop, Control.Next(c.loop, s.sys, Passing(s.marked, r)),
               Control.Foreign(Daq.CorrectFs(r.order.value)));
    }
  }

  lemma SynchronizeMarks(c: Config, s: State, x: Sync.Measured)
    requires ValidConfig(c) && ValidState(c, s) && Enabled(c, s, Synchronize(x))
    ensures var h := s.sys.queue[s.marked];
            Marks(ViewOf(s), ViewOf(Next(c, s, Synchronize(x))), h,
                  Sync.ProcessFrame(c.sync, s.sync, Arriving(c, h), x))
  {
    hide Line, Sync.ProcessFrame, Next;
    var h := s.sys.queue[s.marked];
    var r := Sync.ProcessFrame(c.sync, s.sync, Arriving(c, h), x);
    SynchronizeLine(c, s, x);
    LineIsLonger(s.sys);
    LineAt(s.sys, s.marked);
    var v, v' := ViewOf(s), ViewOf(Next(c, s, Synchronize(x)));
    assert v'.ahead == v.ahead[1..];
    assert v'.marked == v.marked + if r.stamp.Some? then [Seen(IsDummy(h), v.ahead[0], r.stamp.value.syncState)]
                                   else [];
  }

  lemma SynchronizeTyped(c: Config, s: State, x: Sync.Measured)
    requires ValidConfig(c) && ValidState(c, s) && Enabled(c, s, Synchronize(x)) && AllTyped(s.sys.queue)
    ensures AllTyped(Next(c, s, Synchronize(x)).sys.queue)
  {
    hide Line, Sync.ProcessFrame, Next;
    SynchronizeLine(c, s, x);
  }

  lemma LineAt(sys: Control.System, i: nat)
    requires i < |sys.queue|
    ensures i < |Line(sys)| - 1 && Line(sys)[i] == (sys.queue[i].noiseSourceState == 1)
  {
  }

  /** The controller handles the oldest stamped frame. */
  ghost predicate Handles(v: View, v': View, ctl: Hwc.State, switches: seq<bool>) {
    v.marked != [] && v'.marked == v.marked[1..] && v'.ahead == v.ahead + switches && v'.ctl == ctl && v'.sync == v.sync
  }

  lemma ReceiveHandles(c: Config, s: State, approval: bool, request: Option<Hwc.Request>)
    requires ValidConfig(c) && ValidState(c, s) && Enabled(c, s, Base(Control.Receive(approval, request)))
    ensures var s' := Next(c, s, Base(Control.Receive(approval, request)));
            && Handles(ViewOf(s), ViewOf(s'), s'.sys.hwc, Switches(s'.sys.pending))
            && (AllTyped(s.sys.queue) ==> AllTyped(s'.sys.queue))
  {
    hide Line, Hwc.ProcessFrame, Control.Chosen, Switches;
    var s' := Next(c, s, Base(Control.Receive(approval, request)));
    LineIsLonger(s.sys);
    ReceiveLine(c.loop, s.sys, approval, request);
    var v, v' := ViewOf(s), ViewOf(s');
    assert v'.marked == v.marked[1..];
    assert v'.ahead == v.ahead + Switches(s'.sys.pending);
  }

  // ---- what the synchronizer does to the line ----

  /** Sync has not been found, or its fractional part not yet calibrated. */
  predicate Early(f: Sync.Fsm) {
    f.StateInit? || f.StateSampleCal? || f.StateSyncWait? || f.StateFracSampleCal? || f.StateFracSyncWait?
  }

  /** The configured frames with samples. */
  predicate Arrived(c: Config, h: IqHeader) {
    Typed(h) && (IsDummy(h) || h.cpiLength == if h.noiseSourceState == 1 then c.sync.nProc else c.sync.cpiSize)
  }

  lemma ArrivingArrived(c: Config, h: IqHeader)
    requires Typed(h)
    ensures Arrived(c, Arriving(c, h)) && Arriving(c, h).noiseSourceState == h.noiseSourceState
    ensures IsDummy(Arriving(c, h)) == IsDummy(h)
  {
  }

  /** The states that one frame leads to, by its type. */
  ghost predicate Leads(c: Config, f: Sync.Fsm, h: IqHeader, r: Sync.Result) {
    var on, f' := h.noiseSourceState == 1, r.state.fsm;
    if r.stamp.None? then f' == f && Early(f)
    else if IsDummy(h) then
      r.stamp.value.syncState == 0 && (f' == f || (Early(f) && !f.StateInit? && Early(f') && !f'.StateInit?))
    else
      && r.stamp.value.syncState == SyncOrder.StampOf(f)
      && (f.StateInit? ==> f' == if on then Sync.StateSampleCal else Sync.StateInit)
      && (f.StateSampleCal? ==> Early(f') && !f'.StateInit? && (on || c.sync.nProc <= c.sync.cpiSize))
      && (f.StateSyncWait? || f.StateFracSyncWait? ==> f' == f)
      && (f.StateFracSampleCal? ==>
            && (f'.StateFracSyncWait? || f'.StateIqCal?)
            && (on ==> c.sync.nProc % Sync.BLOCK_SIZE == 0)
            && (!on && c.sync.cpiSize < c.sync.nProc ==> c.sync.cpiSize % Sync.BLOCK_SIZE == 0))
      && (f.StateIqCal? ==> f'.StateTrackLock? || (c.sync.enIqCal && (f'.StateIqCal? || f'.StateSampleCal?)))
      && (f.StateTrackLock? ==> f' == if on then Sync.StateTrackLock else Sync.StateTrack)
      && (f.StateTrack? ==> f'.StateTrack? || f'.StateInit?)
  }

  lemma FrameLeads(c: Config, s: Sync.State, h: IqHeader, x: Sync.Measured)
    requires ValidConfig(c) && Sync.ValidState(c.sync, s) && Sync.ValidMeasured(c.sync, x) && !s.ended
    requires Arrived(c, h)
    ensures Leads(c, s.fsm, h, Sync.ProcessFrame(c.sync, s, h, x))
  {
    hide Sync.ScanFrom, Sync.FracOff, Sync.FracOffsets, Sync.Products, Sync.Differences, Sync.SyncFails, Sync.Tracked;
    if s.fsm.StateSampleCal? && !IsDummy(h) {
      SampleCalLeads(c, s, h, x);
    }
  }

  lemma SampleCalLeads(c: Config, s: Sync.State, h: IqHeader, x: Sync.Measured)
    requires ValidConfig(c) && Sync.ValidState(c.sync, s) && Sync.ValidMeasured(c.sync, x) && s.fsm.StateSampleCal?
    requires Arrived(c, h) && !IsDummy(h)
    ensures var r := Sync.SampleCal(c.sync, s, h, x);
            if r.stamp.None? then r.state.fsm == s.fsm
            else Early(r.state.fsm) && !r.state.fsm.StateInit? && r.stamp.value.syncState == 2
                 && (h.noiseSourceState == 1 || c.sync.nProc <= c.sync.cpiSize)
  {
    hide Sync.ScanFrom;
  }
}
