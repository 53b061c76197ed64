/**
 * All channels are matched to one, the standard channel. Its IQ correction is one in every run. A run can order
 * a rate correction for it unless it is channel 0, because fractional delays are measured against channel 0
 * whichever the standard channel is; or unless no frame is made of whole blocks, so that the estimate of
 * fractional delays always raises an error.
 */
module ReferenceChannel {
  import opened Common
  import opened IqHeaders
  import opened DelaySync
  import opened SyncOrder

  // ---- rate corrections ----

  /** The correction, if one is ordered, leaves the standard channel alone. */
  ghost predicate Spares(c: Config, order: Option<seq<real>>) {
    order.Some? ==> c.stdChInd < |order.value| && order.value[c.stdChInd] == 0.0
  }

  lemma {:induction false} ScanSpares(c: Config, x: Measured, m: nat, scan: Scan)
    requires ValidConfig(c) && ValidMeasured(c, x) && m <= c.chNum
    requires |scan.delays| == |scan.ppm| == c.chNum && scan.last < c.chNum
    ensures ScanFrom(c, x, m, scan).ppm[c.stdChInd] == scan.ppm[c.stdChInd]
    decreases c.chNum - m
  {
    hide IntCorrection, InRange;
    if m < c.chNum {
      ScanSpares(c, x, m + 1, if m == c.stdChInd then scan else Scanned(c, x, m, scan));
    }
  }

  /** The frames of the chain: calibration frames fill the window, others have the configured size. */
  predicate SizedFrame(c: Config, h: IqHeader) {
    IsDummy(h) || h.cpiLength == (if h.frameType == FRAME_TYPE_CAL then c.nProc else c.cpiSize)
  }

  /** Some frames of the chain are made of whole blocks. */
  predicate EvenFrames(c: Config) {
    c.nProc % BLOCK_SIZE == 0 || (c.cpiSize < c.nProc && c.cpiSize % BLOCK_SIZE == 0)
  }

  lemma FrameSpares(c: Config, s: State, h: IqHeader, x: Measured)
    requires ValidConfig(c) && ValidState(c, s) && ValidMeasured(c, x) && SizedFrame(c, h)
    requires c.stdChInd == 0 || !EvenFrames(c)
    ensures Spares(c, ProcessFrame(c, s, h, x).order)
  {
    hide ScanFrom, FracOff, Tracked, SyncFails, Products, Differences;
    ScanSpares(c, x, 0, Scan(s.delays, Repeat(0.0, c.chNum), false, true, s.m, false));
  }

  /** Aligned channels with the same fractional delay against channel 0. */
  function Delayed(c: Config, tau: real): (x: Measured)
    requires ValidConfig(c)
    ensures ValidMeasured(c, x)
  {
    var n := c.chNum;
    Measured(Repeat(c.nProc, n), Repeat(true, n), Repeat(tau, n - 1), true, Repeat(false, n), true, Repeat(ONE, n),
             Repeat(ONE, n))
  }

  function Header(c: Config, cal: bool): (h: IqHeader)
    ensures SizedFrame(c, h)
  {
    IqHeader(SYNC_WORD, if cal then FRAME_TYPE_CAL else FRAME_TYPE_DATA, [], 0, 0, 0, 0, 0, 0,
             if cal then c.nProc else c.cpiSize, 0, 0, 0, 0, 0, 0, 0, Repeat(0, 32), 0, 0, 0, if cal then 1 else 0, 0)
  }

  lemma DelayedIsAligned(c: Config, tau: real)
    requires ValidConfig(c) && CORR_PEAK_OFFSET < c.nProc
    ensures Aligned(c, Delayed(c, tau), 0) && !Overindexed(c, Delayed(c, tau), 0)
  {
  }

  lemma RunExtends(c: Config, adjust: Vector, before: seq<Input>, last: Input)
    requires ValidConfig(c) && ValidInputs(c, before) && |adjust| == c.chNum && ValidMeasured(c, last.x)
    ensures ValidInputs(c, before + [last])
    ensures Run(c, adjust, before + [last]) == ProcessFrame(c, Run(c, adjust, before), last.header, last.x).state
  {
    hide ProcessFrame;
    assert (before + [last])[..|before + [last]| - 1] == before;
  }

  /** Two calibration frames lead to the calibration of fractional delays. */
  lemma TwoFrames(c: Config, adjust: Vector) returns (inputs: seq<Input>)
    requires ValidConfig(c) && |adjust| == c.chNum && CORR_PEAK_OFFSET < c.nProc
    ensures ValidInputs(c, inputs) && SizedFrames(c, inputs)
    ensures Run(c, adjust, inputs).fsm.StateFracSampleCal? && !Run(c, adjust, inputs).ended
  {
    hide ScanFrom, Aligned, Overindexed, AllPeaksStandOut, Run;
    var x := Delayed(c, 1.0);
    var frame := Input(Header(c, true), x);
    assert Run(c, adjust, []) == Initial(c, adjust) by { EmptyRun(c, adjust); }
    RunExtends(c, adjust, [], frame);
    var s := Run(c, adjust, [] + [frame]);
    DelayedIsAligned(c, 1.0);
    ScanDecides(c, x, 0, Scan(s.delays, Repeat(0.0, c.chNum), false, true, s.m, false));
    RunExtends(c, adjust, [] + [frame], frame);
    inputs := [] + [frame] + [frame];
  }

  lemma EmptyRun(c: Config, adjust: Vector)
    requires ValidConfig(c) && |adjust| == c.chNum
    ensures Run(c, adjust, []) == Initial(c, adjust)
  {
  }

  lemma FracOrders(c: Config, s: State)
    requires ValidConfig(c) && ValidState(c, s) && s.fsm.StateFracSampleCal? && !s.ended
    requires c.stdChInd != 0 && EvenFrames(c)
    ensures !Spares(c, ProcessFrame(c, s, Header(c, c.nProc % BLOCK_SIZE == 0), Delayed(c, 1.0)).order)
  {
    var x := Delayed(c, 1.0);
    assert x.fracDelays[0] == 1.0 && x.fracDelays[c.stdChInd - 1] == 1.0;
    assert FracOff(c, x);
    assert FracOffsets(c, x)[c.stdChInd] == FracCorrection(1.0);
  }

  ghost predicate SizedFrames(c: Config, inputs: seq<Input>) {
    forall i | 0 <= i < |inputs| :: SizedFrame(c, inputs[i].header)
  }

  /**
   * On frames of the configured sizes no run orders a rate correction for the standard channel, exactly if that
   * is channel 0, or if neither calibration frames nor other frames are made of whole blocks, so that every
   * calibration of fractional delays ends the process.
   */
  lemma StandardIsSparedExactly(c: Config, adjust: Vector)
    requires ValidConfig(c) && |adjust| == c.chNum
    ensures c.stdChInd == 0 || !EvenFrames(c) <==>
              forall inputs: seq<Input>, h: IqHeader, x: Measured |
                ValidInputs(c, inputs) && SizedFrames(c, inputs) && ValidMeasured(c, x) && SizedFrame(c, h) ::
                Spares(c, ProcessFrame(c, Run(c, adjust, inputs), h, x).order)
  {
    hide ProcessFrame, Spares, Run, SizedFrame;
    if c.stdChInd == 0 || !EvenFrames(c) {
      forall inputs: seq<Input>, h: IqHeader, x: Measured |
        ValidInputs(c, inputs) && SizedFrames(c, inputs) && ValidMeasured(c, x) && SizedFrame(c, h)
        ensures Spares(c, ProcessFrame(c, Run(c, adjust, inputs), h, x).order)
      {
        FrameSpares(c, Run(c, adjust, inputs), h, x);
      }
    } else {
      var inputs := TwoFrames(c, adjust);
      FracOrders(c, Run(c, adjust, inputs));
    }
  }

  // ---- IQ corrections ----

  /** Adjustments and differences are divided by the entry of the standard channel. */
  ghost predicate Normalized(c: Config, x: Measured)
    requires ValidConfig(c) && ValidMeasured(c, x)
  {
    x.adjust[c.stdChInd] == ONE && x.iqDiffs[c.stdChInd] == ONE
  }

  lemma ProductOfOnes(a: Vector, b: Vector, k: nat)
    requires |a| == |b| && k < |a| && a[k] == ONE && b[k] == ONE
    ensures Products(a, b)[k] == ONE
  {
  }

  lemma FrameKeepsOne(c: Config, s: State, h: IqHeader, x: Measured)
    requires ValidConfig(c) && ValidState(c, s) && ValidMeasured(c, x) && Normalized(c, x)
    requires s.iqAdjust[c.stdChInd] == s.iqCorrections[c.stdChInd] == s.iqDiffRef[c.stdChInd] == ONE
    ensures var s' := ProcessFrame(c, s, h, x).state;
            s'.iqAdjust[c.stdChInd] == s'.iqCorrections[c.stdChInd] == s'.iqDiffRef[c.stdChInd] == ONE
  {
    hide SampleCal, FracSampleCal, Track, Products;
    ProductOfOnes(x.iqDiffs, s.iqAdjust, c.stdChInd);
    ProductOfOnes(s.iqCorrections, Differences(c, s, x), c.stdChInd);
    OthersKeepVectors(c, s, h, x);
  }

  /** Only the start of a calibration and IQ calibration touch corrections, and the lock their reference. */
  lemma OthersKeepVectors(c: Config, s: State, h: IqHeader, x: Measured)
    requires ValidConfig(c) && ValidState(c, s) && ValidMeasured(c, x)
    ensures SameVectors(s, SampleCal(c, s, h, x).state)
    ensures SameVectors(s, FracSampleCal(c, s, h, x).state)
    ensures SameVectors(s, Track(c, s, h, x).0)
  {
    hide ScanFrom, FracOffsets, FracOff, Tracked, SyncFails, Short, Uneven;
  }

  predicate SameVectors(s: State, s': State) {
    s'.iqAdjust == s.iqAdjust && s'.iqCorrections == s.iqCorrections && s'.iqDiffRef == s.iqDiffRef
  }

  /** In every run the standard channel's samples pass the synchronizer uncorrected. */
  lemma {:induction false} StandardIsUncorrected(c: Config, adjust: Vector, inputs: seq<Input>)
    requires ValidConfig(c) && ValidInputs(c, inputs) && |adjust| == c.chNum && adjust[c.stdChInd] == ONE
    requires forall i | 0 <= i < |inputs| :: Normalized(c, inputs[i].x)
    ensures var s := Run(c, adjust, inputs);
            s.iqAdjust[c.stdChInd] == s.iqCorrections[c.stdChInd] == s.iqDiffRef[c.stdChInd] == ONE
  {
    hide ProcessFrame, Normalized;
    if inputs != [] {
      var before, last := inputs[..|inputs| - 1], inputs[|inputs| - 1];
      StandardIsUncorrected(c, adjust, before);
      FrameKeepsOne(c, Run(c, adjust, before), last.header, last.x);
    }
  }
}
