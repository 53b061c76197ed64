/**
 * The delay synchronizer as a function on values: its state machine, the sample rate corrections it
 * orders, its IQ corrections and the stamps it puts on each frame. Correlation peaks, dynamic ranges,
 * fractional delays and IQ differences are measurements, given with the frame. An error that the loop
 * does not catch ends the process.
 */
module DelaySync {
  import opened Common
  import opened IqHeaders
  import Daq = RtlDaq
  import Correlation

  const MIN_FS_PPM_OFFSET: real := 0.0000001
  const MAX_FS_PPM_OFFSET: real := 0.01
  const FRAC_FS_TUNE_GAIN: real := 20.0
  const FRAC_DELAY_TOLERANCE: real := 0.03

  /** How far behind its peak a correlation function is compared with it. */
  const CORR_PEAK_OFFSET: nat := 100

  /** The samples of one block of the fractional delay estimate. */
  const BLOCK_SIZE: nat := 1024

  datatype Config = Config(
    chNum: nat,
    nProc: nat,
    cpiSize: nat,
    stdChInd: nat,
    enIqCal: bool,
    calTrackMode: nat,
    maxSyncFails: nat)

  /** A single channel has nothing to be matched with: the calibration state would test a channel never set. */
  ghost predicate ValidConfig(c: Config) {
    && 2 <= c.chNum <= 32 && c.stdChInd < c.chNum
    && 1 <= c.nProc && 1 <= c.cpiSize && c.calTrackMode <= 2 && 1 <= c.maxSyncFails
  }

  datatype Fsm =
    | StateInit
    | StateSampleCal
    | StateSyncWait
    | StateFracSampleCal
    | StateFracSyncWait
    | StateIqCal
    | StateTrackLock
    | StateTrack

  /** One complex number per channel. */
  type Vector = seq<Correlation.Complex>

  /** `m` is the channel variable of the loops, which keeps its value from one state to the next. */
  datatype State = State(
    fsm: Fsm,
    delays: seq<int>,
    m: nat,
    lastUpdateInd: int,
    lastRf: nat,
    syncFailedCntr: int,
    syncFailedCntrTotal: nat,
    sampleCompensationCntr: nat,
    iqCompensationCntr: nat,
    iqAdjust: Vector,
    iqCorrections: Vector,
    iqDiffRef: Vector,
    ended: bool)

  ghost predicate ValidState(c: Config, s: State) {
    && |s.delays| == c.chNum && s.m < c.chNum
    && |s.iqAdjust| == c.chNum && |s.iqCorrections| == c.chNum && |s.iqDiffRef| == c.chNum
  }

  const ONE: Correlation.Complex := Correlation.Complex(1.0, 0.0)

  /** The state before the first frame, with the adjustment vector of the configured frequency. */
  function Initial(c: Config, adjust: Vector): State {
    State(StateInit, Repeat(0, c.chNum), 0, -3, 0, 0, 0, 0, 0, adjust, Repeat(ONE, c.chNum), Repeat(ONE, c.chNum),
          false)
  }

  /** What the signal processing finds in a frame; only the entries the state asks for are used. */
  datatype Measured = Measured(
    peakIndex: seq<nat>,
    peakDynOk: seq<bool>,
    fracDelays: seq<real>,
    syncDynOk: bool,
    outOfTolerance: seq<bool>,
    driftOk: bool,
    adjust: Vector,
    iqDiffs: Vector)

  /** A peak is a position of the correlation function, which has twice as many as the window has samples. */
  ghost predicate ValidMeasured(c: Config, x: Measured) {
    && |x.peakIndex| == c.chNum && |x.peakDynOk| == c.chNum && |x.fracDelays| == c.chNum - 1
    && |x.outOfTolerance| == c.chNum && |x.adjust| == c.chNum && |x.iqDiffs| == c.chNum
    && forall k | 0 <= k < c.chNum :: x.peakIndex[k] < 2 * c.nProc
  }

  /** The dynamic range of a peak compares it with a value behind it, which must lie inside the function. */
  predicate InRange(c: Config, x: Measured, m: nat)
    requires m < |x.peakIndex|
  {
    x.peakIndex[m] + CORR_PEAK_OFFSET < 2 * c.nProc
  }

  /** The samples per channel that a frame is looked at with: all of a calibration frame, others may be cut. */
  function Width(c: Config, h: IqHeader): nat {
    if h.frameType != FRAME_TYPE_CAL && c.nProc <= c.cpiSize && c.nProc < h.cpiLength then c.nProc else h.cpiLength
  }

  /** Too few samples for a correlation function of twice the window. */
  predicate Short(c: Config, h: IqHeader) {
    Width(c, h) < c.nProc
  }

  /** The estimate has a row for every whole block and fills one for every block begun. */
  predicate Uneven(c: Config, h: IqHeader) {
    Width(c, h) == 0 || Width(c, h) % BLOCK_SIZE != 0
  }

  /** The stamps of one frame. */
  datatype Stamp = Stamp(delaySync: bool, iqSync: bool, syncState: nat)

  /** What a frame leads to: the new state, the stamps it is passed on with, and the correction ordered, if any. */
  datatype Result = Result(state: State, stamp: Option<Stamp>, order: Option<seq<real>>)

  // ---- corrections ----

  function AbsInt(x: int): nat {
    if x < 0 then -x else x
  }

  /** The tune gain of the first delay limit that the delay reaches. */
  function IntTuneGain(delay: int): real {
    if 100 <= AbsInt(delay) then 50.0 else if 2 <= AbsInt(delay) then 25.0 else 15.0
  }

  function Clip(x: real): real {
    if Daq.Magnitude(x) > MAX_FS_PPM_OFFSET then (if x < 0.0 then -MAX_FS_PPM_OFFSET else MAX_FS_PPM_OFFSET) else x
  }

  /** The correction for a delay of whole samples. */
  function IntCorrection(delay: int): real {
    Clip(-(delay as real) * IntTuneGain(delay) * MIN_FS_PPM_OFFSET)
  }

  /** The correction for a fractional delay. */
  function FracCorrection(tau: real): real {
    if Daq.Magnitude(tau) > FRAC_DELAY_TOLERANCE then tau * FRAC_FS_TUNE_GAIN * MIN_FS_PPM_OFFSET else 0.0
  }

  // ---- sample calibration ----

  /** The loop over the channels to be matched, from channel `m` on. */
  datatype Scan = Scan(delays: seq<int>, ppm: seq<real>, update: bool, inSync: bool, last: nat, raised: bool)

  /** One channel whose peak stands out. */
  function Scanned(c: Config, x: Measured, m: nat, scan: Scan): (r: Scan)
    requires ValidMeasured(c, x) && |scan.delays| == |scan.ppm| == c.chNum && m < c.chNum
    ensures |r.delays| == |r.ppm| == c.chNum && r.last == m
  {
    var delay := c.nProc - x.peakIndex[m];
    Scan(scan.delays[m := delay], scan.ppm[m := IntCorrection(delay)],
         scan.update || 1 <= AbsInt(delay), scan.inSync && AbsInt(delay) < 1, m, scan.raised)
  }

  function ScanFrom(c: Config, x: Measured, m: nat, scan: Scan): (r: Scan)
    requires ValidMeasured(c, x) && |scan.delays| == |scan.ppm| == c.chNum && scan.last < c.chNum && m <= c.chNum
    ensures |r.delays| == |r.ppm| == c.chNum && r.last < c.chNum
    decreases c.chNum - m
  {
    if m == c.chNum then scan
    else if m == c.stdChInd then ScanFrom(c, x, m + 1, scan)
    else if !InRange(c, x, m) then scan.(last := m, raised := true)
    else if !x.peakDynOk[m] then scan.(update := false, inSync := false, last := m)
    else ScanFrom(c, x, m + 1, Scanned(c, x, m, scan))
  }

  /** The first channel to be matched. */
  function FirstMatched(c: Config): nat {
    if c.stdChInd == 0 then 1 else 0
  }

  /** STATE_SAMPLE_CAL; no stamp and no further frame if a correlation or the scan raised an error. */
  function SampleCal(c: Config, s: State, h: IqHeader, x: Measured): (r: Result)
    requires ValidConfig(c) && ValidState(c, s) && ValidMeasured(c, x)
    ensures ValidState(c, r.state)
    ensures r.order.Some? ==> |r.order.value| == c.chNum
  {
    var scan := ScanFrom(c, x, 0, Scan(s.delays, Repeat(0.0, c.chNum), false, true, s.m, false));
    var s1 := s.(delays := scan.delays, m := scan.last);
    if Short(c, h) then Result(s.(m := FirstMatched(c), ended := true), None, None)
    else if scan.raised then Result(s1.(ended := true), None, None)
    else
      var s2 := if scan.update then s1.(lastUpdateInd := h.cpiIndex, fsm := StateSyncWait) else s1;
      var s3 := if scan.inSync then
                  s2.(sampleCompensationCntr := s2.sampleCompensationCntr + 1, fsm := StateFracSampleCal)
                else s2;
      Result(s3, Some(Stamp(scan.inSync, false, 2)), if scan.update then Some(scan.ppm) else None)
  }

  /** The corrections for fractional delays; `taus` starts at channel 1. */
  function FracOffsets(c: Config, x: Measured): (r: seq<real>)
    requires ValidConfig(c) && ValidMeasured(c, x)
    ensures |r| == c.chNum
  {
    [0.0] + seq(c.chNum - 1, m requires 0 <= m < c.chNum - 1 => FracCorrection(x.fracDelays[m]))
  }

  predicate FracOff(c: Config, x: Measured) {
    exists m | 0 <= m < |x.fracDelays| :: Daq.Magnitude(x.fracDelays[m]) > FRAC_DELAY_TOLERANCE
  }

  /** STATE_FRAC_SAMPLE_CAL; no stamp and no further frame if the estimate raised an error. */
  function FracSampleCal(c: Config, s: State, h: IqHeader, x: Measured): (r: Result)
    requires ValidConfig(c) && ValidState(c, s) && ValidMeasured(c, x)
    ensures ValidState(c, r.state)
    ensures r.order.Some? ==> |r.order.value| == c.chNum
  {
    var s1 := s.(m := c.chNum - 2);
    if Uneven(c, h) then Result(s.(ended := true), None, None)
    else if FracOff(c, x) then
      Result(s1.(lastUpdateInd := h.cpiIndex, fsm := StateFracSyncWait), Some(Stamp(false, false, 3)),
             Some(FracOffsets(c, x)))
    else
      Result(s1.(fsm := StateIqCal), Some(Stamp(false, false, 3)), None)
  }

  function CountWait(s: State, h: IqHeader): State {
    if s.lastUpdateInd + 1 == h.cpiIndex then s.(lastUpdateInd := s.lastUpdateInd + 1) else s
  }

  // ---- IQ calibration and tracking ----

  /** Channel by channel products. */
  function Products(a: Vector, b: Vector): (r: Vector)
    requires |a| == |b|
    ensures |r| == |a|
  {
    seq(|a|, k requires 0 <= k < |a| => Correlation.Mul(a[k], b[k]))
  }

  /** The adjusted IQ differences of a frame. */
  function Differences(c: Config, s: State, x: Measured): (d: Vector)
    requires ValidState(c, s) && ValidMeasured(c, x)
    ensures |d| == c.chNum
  {
    Products(x.iqDiffs, s.iqAdjust)
  }

  /** STATE_INIT: the corrections start over from the adjustment vector. */
  function Init(c: Config, s: State, h: IqHeader, x: Measured): (r: State)
    requires ValidState(c, s) && ValidMeasured(c, x)
    ensures ValidState(c, r)
  {
    s.(iqAdjust := x.adjust, iqCorrections := x.adjust,
       fsm := if h.frameType == FRAME_TYPE_CAL then StateSampleCal else s.fsm)
  }

  /** STATE_IQ_CAL; the tolerance test looks at channel `m`, whichever that is. */
  function IqCal(c: Config, s: State, x: Measured): (r: (State, Stamp))
    requires ValidConfig(c) && ValidState(c, s) && ValidMeasured(c, x)
    ensures ValidState(c, r.0)
  {
    if c.enIqCal && !x.syncDynOk then
      (s.(m := c.chNum - 2, fsm := StateSampleCal), Stamp(false, false, 4))
    else if c.enIqCal && x.outOfTolerance[s.m] then
      (s.(iqCompensationCntr := s.iqCompensationCntr + 1,
          iqCorrections := Products(s.iqCorrections, Differences(c, s, x))),
       Stamp(true, false, 4))
    else
      (s.(fsm := StateTrackLock,
          iqDiffRef := if c.calTrackMode == 2 && c.enIqCal then Differences(c, s, x) else s.iqDiffRef),
       Stamp(true, true, 4))
  }

  /** STATE_TRACK_LOCK: waits for the calibration frames to end. */
  function TrackLock(c: Config, s: State, h: IqHeader, x: Measured): (r: State)
    requires ValidState(c, s) && ValidMeasured(c, x)
    ensures ValidState(c, r)
  {
    if h.frameType == FRAME_TYPE_DATA then
      s.(fsm := StateTrack, lastRf := h.rfCenterFreq,
         iqDiffRef := if c.calTrackMode == 1 then Differences(c, s, x) else s.iqDiffRef)
    else s
  }

  /** Whether a frame is checked while the synchronizer tracks. */
  predicate Tracked(c: Config, h: IqHeader) {
    c.calTrackMode == 1 || (c.calTrackMode == 2 && h.frameType == FRAME_TYPE_CAL)
  }

  predicate SyncFails(c: Config, x: Measured) {
    !x.syncDynOk || (c.enIqCal && !x.driftOk)
  }

  /** Track loss control on a checked frame. */
  function CountFail(c: Config, s: State, fails: bool): State {
    var s1 := if fails then s.(syncFailedCntr := s.syncFailedCntr + 1, syncFailedCntrTotal := s.syncFailedCntrTotal + 1)
              else s.(syncFailedCntr := s.syncFailedCntr - 1);
    if s1.syncFailedCntr == c.maxSyncFails then s1.(fsm := StateInit, syncFailedCntr := 0)
    else if s1.syncFailedCntr < 0 then s1.(syncFailedCntr := 0)
    else s1
  }

  function Track(c: Config, s: State, h: IqHeader, x: Measured): (r: (State, Stamp))
    requires ValidConfig(c) && ValidState(c, s) && ValidMeasured(c, x)
    ensures ValidState(c, r.0)
  {
    var s1 := if Tracked(c, h) then
                CountFail(c, if c.enIqCal && !x.driftOk then s.(m := c.chNum - 1) else s, SyncFails(c, x))
              else s;
    var stamp := if Tracked(c, h) then Stamp(x.syncDynOk, c.enIqCal && x.driftOk, 6) else Stamp(true, true, 6);
    if s.lastRf != h.rfCenterFreq then
      (s1.(syncFailedCntr := 0, fsm := StateInit), Stamp(false, false, 6))
    else
      (s1, stamp)
  }

  /** A dummy frame resets the fail counter and ends the wait for a correction. */
  function OnDummy(s: State): State {
    s.(syncFailedCntr := 0,
       fsm := if s.fsm.StateSyncWait? then StateSampleCal
              else if s.fsm.StateFracSyncWait? then StateFracSampleCal
              else s.fsm)
  }

  /** One frame. */
  function ProcessFrame(c: Config, s: State, h: IqHeader, x: Measured): (r: Result)
    requires ValidConfig(c) && ValidState(c, s) && ValidMeasured(c, x)
    ensures ValidState(c, r.state)
    ensures r.order.Some? ==> |r.order.value| == c.chNum
  {
    if s.ended then Result(s, None, None)
    else if IsDummy(h) then Result(OnDummy(s), Some(Stamp(false, false, 0)), None)
    else
      match s.fsm
      case StateInit => Result(Init(c, s, h, x), Some(Stamp(false, false, 1)), None)
      case StateSampleCal => SampleCal(c, s, h, x)
      case StateSyncWait => Result(CountWait(s, h), Some(Stamp(false, false, 3)), None)
      case StateFracSampleCal => FracSampleCal(c, s, h, x)
      case StateFracSyncWait => Result(CountWait(s, h), Some(Stamp(false, false, 3)), None)
      case StateIqCal => var (s', stamp) := IqCal(c, s, x); Result(s', Some(stamp), None)
      case StateTrackLock => Result(TrackLock(c, s, h, x), Some(Stamp(true, true, 5)), None)
      case StateTrack => var (s', stamp) := Track(c, s, h, x); Result(s', Some(stamp), None)
  }

  // ---- runs ----

  /** A frame as the synchronizer receives it. */
  datatype Input = Input(header: IqHeader, x: Measured)

  ghost predicate ValidInputs(c: Config, inputs: seq<Input>) {
    forall i | 0 <= i < |inputs| :: ValidMeasured(c, inputs[i].x)
  }

  /** The state after a run of frames from the start. */
  function Run(c: Config, adjust: Vector, inputs: seq<Input>): (s: State)
    requires ValidConfig(c) && ValidInputs(c, inputs) && |adjust| == c.chNum
    ensures ValidState(c, s)
  {
    if inputs == [] then Initial(c, adjust)
    else
      var last := inputs[|inputs| - 1];
      ProcessFrame(c, Run(c, adjust, inputs[..|inputs| - 1]), last.header, last.x).state
  }

  /** The stamps of the frames that a run passes on, in order. */
  function Stamps(c: Config, adjust: Vector, inputs: seq<Input>): (r: seq<Stamp>)
    requires ValidConfig(c) && ValidInputs(c, inputs) && |adjust| == c.chNum
    ensures |r| <= |inputs|
  {
    if inputs == [] then []
    else
      var before, last := inputs[..|inputs| - 1], inputs[|inputs| - 1];
      var stamp := ProcessFrame(c, Run(c, adjust, before), last.header, last.x).stamp;
      Stamps(c, adjust, before) + (if stamp.Some? then [stamp.value] else [])
  }
}
