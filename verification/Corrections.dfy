/**
 * The sampling rate corrections that the synchronizer orders: which way each one goes, how large it is, and when
 * none is needed, for whole and for fractional delays.
 */
module Corrections {
  import opened Common
  import opened IqHeaders
  import opened DelaySync
  import SyncOrder

  // ---- fractional delays ----

  /** The frame is looked at for fractional delays. */
  ghost predicate Estimated(c: Config, s: State, h: IqHeader, x: Measured) {
    && ValidConfig(c) && ValidState(c, s) && ValidMeasured(c, x)
    && s.fsm.StateFracSampleCal? && !s.ended && !IsDummy(h) && !Uneven(c, h)
  }

  /** Every channel is within 0.03 samples of channel 0. */
  ghost predicate WithinTolerance(x: Measured) {
    forall m | 0 <= m < |x.fracDelays| :: -0.03 <= x.fracDelays[m] <= 0.03
  }

  /** The correction goes the way of the delay, in proportion to it, and is zero within tolerance. */
  ghost predicate Follows(tau: real, ppm: real) {
    && (ppm > 0.0 <==> tau > 0.03) && (ppm < 0.0 <==> tau < -0.03)
    && (ppm != 0.0 ==> ppm * 500000.0 == tau)
  }

  lemma FractionFollows(tau: real)
    ensures Follows(tau, FracCorrection(tau))
  {
  }

  /**
   * A frame of whole blocks in fractional calibration: if every delay is within tolerance nothing is ordered and IQ
   * calibration follows; otherwise each channel but the first is corrected the way of its own delay.
   */
  lemma FractionalOrder(c: Config, s: State, h: IqHeader, x: Measured)
    requires Estimated(c, s, h, x)
    ensures var r := ProcessFrame(c, s, h, x);
            && (r.order.None? <==> WithinTolerance(x)) && (r.state.fsm.StateIqCal? <==> WithinTolerance(x))
            && (r.order.Some? ==>
                  && r.state.fsm.StateFracSyncWait? && r.state.lastUpdateInd == h.cpiIndex
                  && r.order.value[0] == 0.0
                  && forall m | 0 <= m < c.chNum - 1 :: Follows(x.fracDelays[m], r.order.value[m + 1]))
  {
    hide FracCorrection;
    var r := ProcessFrame(c, s, h, x);
    assert FracOff(c, x) <==> !WithinTolerance(x);
    forall m | 0 <= m < c.chNum - 1
      ensures Follows(x.fracDelays[m], FracOffsets(c, x)[m + 1])
    {
      FractionFollows(x.fracDelays[m]);
    }
  }

  /** The order is odd in the delays and grows with a delay. */
  lemma FractionalOrderGrows(c: Config, s: State, h: IqHeader, x: Measured, x': Measured, m: nat)
    requires Estimated(c, s, h, x) && Estimated(c, s, h, x') && m < c.chNum - 1
    requires ProcessFrame(c, s, h, x).order.Some? && ProcessFrame(c, s, h, x').order.Some?
    ensures var p := ProcessFrame(c, s, h, x).order.value[m + 1];
            var p' := ProcessFrame(c, s, h, x').order.value[m + 1];
            && (x.fracDelays[m] == -x'.fracDelays[m] ==> p == -p')
            && (x.fracDelays[m] <= x'.fracDelays[m] ==> p <= p')
            && (0.03 < x.fracDelays[m] < x'.fracDelays[m] ==> p < p')
  {
    hide ProcessFrame, Estimated;
    FractionalOrder(c, s, h, x);
    FractionalOrder(c, s, h, x');
  }

  // ---- whole samples ----

  /** The correction goes the way the peak is moved, grows with the delay in steps of its rate, and is bounded. */
  ghost predicate Opposes(delay: int, ppm: real) {
    && (ppm > 0.0 <==> delay < 0) && (ppm < 0.0 <==> delay > 0) && -0.01 <= ppm <= 0.01
    && (-2 < delay < 2 ==> ppm * 2000000.0 == -3.0 * delay as real)
    && (2 <= delay < 100 || -100 < delay <= -2 ==> ppm * 400000.0 == -(delay as real))
    && (100 <= delay <= 2000 || -2000 <= delay <= -100 ==> ppm * 200000.0 == -(delay as real))
    && (2000 <= delay ==> ppm == -0.01) && (delay <= -2000 ==> ppm == 0.01)
  }

  lemma WholeOpposes(delay: int)
    ensures Opposes(delay, IntCorrection(delay))
  {
  }

  /** The frame fills the window and every peak stands out. */
  ghost predicate Correlated(c: Config, s: State, h: IqHeader, x: Measured) {
    && ValidConfig(c) && ValidState(c, s) && ValidMeasured(c, x)
    && s.fsm.StateSampleCal? && !s.ended && !IsDummy(h) && !Short(c, h) && SyncOrder.AllPeaksStandOut(c, x, 0)
  }

  /**
   * A frame in sample calibration on which every peak stands out: nothing is ordered exactly if all stand at lag
   * zero, and fractional calibration follows; otherwise every channel but the standard one is corrected against
   * its own delay, and the standard one is not.
   */
  lemma WholeOrder(c: Config, s: State, h: IqHeader, x: Measured)
    requires Correlated(c, s, h, x)
    ensures var r := ProcessFrame(c, s, h, x);
            && (r.order.None? <==> SyncOrder.Aligned(c, x, 0))
            && (r.state.fsm.StateFracSampleCal? <==> SyncOrder.Aligned(c, x, 0))
            && (r.order.Some? ==>
                  && r.state.fsm.StateSyncWait? && r.state.lastUpdateInd == h.cpiIndex
                  && r.order.value[c.stdChInd] == 0.0
                  && forall k | 0 <= k < c.chNum && k != c.stdChInd ::
                       Opposes(c.nProc - x.peakIndex[k], r.order.value[k])
                       && r.state.delays[k] == c.nProc - x.peakIndex[k])
  {
    hide ScanFrom, IntCorrection, SyncOrder.Aligned, SyncOrder.Overindexed, InRange, Opposes;
    var scan := Scan(s.delays, Repeat(0.0, c.chNum), false, true, s.m, false);
    SyncOrder.ScanDecides(c, x, 0, scan);
    SyncOrder.ScanRecords(c, x, 0, scan);
    NotOverindexed(c, x);
    forall k | 0 <= k < c.chNum
      ensures Opposes(c.nProc - x.peakIndex[k], IntCorrection(c.nProc - x.peakIndex[k]))
    {
      WholeOpposes(c.nProc - x.peakIndex[k]);
    }
  }

  lemma NotOverindexed(c: Config, x: Measured)
    requires ValidMeasured(c, x) && SyncOrder.AllPeaksStandOut(c, x, 0)
    ensures !SyncOrder.Overindexed(c, x, 0)
  {
    hide InRange;
    forall k | 0 <= k < c.chNum && k != c.stdChInd
      ensures InRange(c, x, k)
    {
      assert SyncOrder.StandsOut(c, x, k);
    }
  }

  /** A frame on which some peak does not stand out, before any that is too far behind, decides nothing. */
  lemma WeakPeakDecidesNothing(c: Config, s: State, h: IqHeader, x: Measured)
    requires ValidConfig(c) && ValidState(c, s) && ValidMeasured(c, x)
    requires s.fsm.StateSampleCal? && !s.ended && !IsDummy(h) && !Short(c, h)
    requires !SyncOrder.AllPeaksStandOut(c, x, 0) && !SyncOrder.Overindexed(c, x, 0)
    ensures var r := ProcessFrame(c, s, h, x);
            && r.order.None? && r.stamp == Some(Stamp(false, false, 2))
            && r.state.fsm.StateSampleCal? && r.state.lastUpdateInd == s.lastUpdateInd
  {
    hide ScanFrom, IntCorrection, SyncOrder.Overindexed, InRange, SyncOrder.StandsOut;
    SyncOrder.ScanDecides(c, x, 0, Scan(s.delays, Repeat(0.0, c.chNum), false, true, s.m, false));
    assert !SyncOrder.Aligned(c, x, 0);
  }

  // ---- the samples looked at ----

  /**
   * All of a calibration frame is looked at, and no more than the window of any other, if the configured frames
   * hold one. Sample calibration cannot handle less than a window, fractional calibration no broken blocks.
   */
  lemma LengthsHandled(c: Config, s: State, h: IqHeader, x: Measured)
    requires ValidConfig(c) && ValidState(c, s) && ValidMeasured(c, x) && !IsDummy(h) && !s.ended
    ensures var cut := h.frameType != FRAME_TYPE_CAL && c.nProc <= c.cpiSize;
            var seen := if cut then Min(h.cpiLength, c.nProc) else h.cpiLength;
            && (s.fsm.StateSampleCal? && seen < c.nProc ==> ProcessFrame(c, s, h, x).state.ended)
            && (s.fsm.StateFracSampleCal? ==>
                  (ProcessFrame(c, s, h, x).state.ended <==> seen == 0 || seen % 1024 != 0))
            && (s.fsm.StateSampleCal? && SyncOrder.AllPeaksStandOut(c, x, 0) ==>
                  (ProcessFrame(c, s, h, x).state.ended <==> seen < c.nProc))
  {
    hide ScanFrom, IntCorrection, SyncOrder.Overindexed, SyncOrder.Aligned, InRange, FracOff, FracOffsets;
    if s.fsm.StateSampleCal? && SyncOrder.AllPeaksStandOut(c, x, 0) {
      SyncOrder.ScanDecides(c, x, 0, Scan(s.delays, Repeat(0.0, c.chNum), false, true, s.m, false));
      NotOverindexed(c, x);
    }
  }
}
