/**
 * The synchronizer on real signals: when every channel is a moved copy of the reference channel, sample
 * calibration finds each move exactly, corrects each against its direction, and goes on only when
 * nothing is left to move.
 */
module DelayEstimate {
  import opened Common
  import opened IqHeaders
  import opened DelaySync
  import opened SyncOrder
  import Correlation

  type Signal = seq<Correlation.Complex>

  /** What the synchronizer measures on the channels of a frame, if every peak with a value behind it stands out. */
  ghost predicate Measures(c: Config, x: Measured, channels: seq<Signal>)
    requires ValidConfig(c)
  {
    && ValidMeasured(c, x) && |channels| == c.chNum
    && (forall k | 0 <= k < c.chNum :: |channels[k]| == c.nProc)
    && (forall k | 0 <= k < c.chNum && k != c.stdChInd ::
          && (InRange(c, x, k) ==> x.peakDynOk[k])
          && x.peakIndex[k] ==
             Correlation.ArgMax(Correlation.CorrFunction(channels[c.stdChInd], channels[k]), 2 * c.nProc))
  }

  /** Every channel is the reference channel, which is not silent, moved by its entry of `moves`. */
  ghost predicate MovedCopies(c: Config, channels: seq<Signal>, moves: seq<int>)
    requires ValidConfig(c)
  {
    && |channels| == |moves| == c.chNum
    && (exists n | 0 <= n < |channels[c.stdChInd]| :: channels[c.stdChInd][n] != Correlation.ZERO)
    && (forall k | 0 <= k < c.chNum && k != c.stdChInd ::
          Correlation.Moved(channels[c.stdChInd], channels[k], moves[k]))
  }

  lemma PeaksShowMoves(c: Config, x: Measured, channels: seq<Signal>, moves: seq<int>, k: nat)
    requires ValidConfig(c) && Measures(c, x, channels) && MovedCopies(c, channels, moves)
    requires k < c.chNum && k != c.stdChInd
    ensures c.nProc - x.peakIndex[k] == -moves[k]
  {
    Correlation.DelayIsExact(channels[c.stdChInd], channels[k], moves[k]);
  }

  /** Whether a move leaves room for the comparison with the value behind its peak. */
  ghost predicate AllHaveRoom(c: Config, moves: seq<int>)
    requires ValidConfig(c) && |moves| == c.chNum
  {
    forall k | 0 <= k < c.chNum && k != c.stdChInd :: moves[k] + CORR_PEAK_OFFSET < c.nProc
  }

  lemma {:induction false} FirstWithoutRoom(c: Config, x: Measured, moves: seq<int>, m: nat)
    requires ValidConfig(c) && ValidMeasured(c, x) && |moves| == c.chNum && m <= c.chNum
    requires forall k | 0 <= k < c.chNum && k != c.stdChInd ::
               && (InRange(c, x, k) <==> moves[k] + CORR_PEAK_OFFSET < c.nProc)
               && (InRange(c, x, k) ==> x.peakDynOk[k])
    ensures Overindexed(c, x, m) <==>
              exists k | m <= k < c.chNum && k != c.stdChInd :: moves[k] + CORR_PEAK_OFFSET >= c.nProc
    decreases c.chNum - m
  {
    hide Overindexed, InRange;
    if m < c.chNum {
      OverindexedFrom(c, x, m);
      FirstWithoutRoom(c, x, moves, m + 1);
    } else {
      NothingLeft(c, x, m);
    }
  }

  /**
   * Sample calibration handles a frame whose samples are moved copies exactly when the frame fills the window
   * and every move leaves room behind its peak; a short frame or one move too far raises an error that ends
   * the process before any correction is ordered.
   */
  lemma HandledExactlyWhenRoom(c: Config, s: State, h: IqHeader, x: Measured, channels: seq<Signal>,
                               moves: seq<int>)
    requires ValidConfig(c) && ValidState(c, s) && ValidMeasured(c, x) && |moves| == c.chNum
    requires !Short(c, h) ==> Measures(c, x, channels) && MovedCopies(c, channels, moves)
    requires s.fsm.StateSampleCal? && !s.ended && !IsDummy(h)
    ensures var r := ProcessFrame(c, s, h, x);
            var handled := !Short(c, h) && AllHaveRoom(c, moves);
            && (handled <==> !r.state.ended)
            && (handled <==> r.stamp.Some?)
            && (r.state.ended ==> r.order.None?)
  {
    hide ScanFrom, MovedCopies, Measures, Overindexed, IntCorrection, Short;
    if !Short(c, h) {
      assert PeaksFit(c, x, moves) by {
        MeasuresPeaks(c, x, channels, moves);
      }
      ScanDecides(c, x, 0, Scan(s.delays, Repeat(0.0, c.chNum), false, true, s.m, false));
      FirstWithoutRoom(c, x, moves, 0);
    }
  }

  /** Peaks lie where the moves put them, and stand out if there is room behind them. */
  ghost predicate PeaksFit(c: Config, x: Measured, moves: seq<int>)
    requires ValidMeasured(c, x) && |moves| == c.chNum
  {
    forall k | 0 <= k < c.chNum && k != c.stdChInd ::
      && c.nProc - x.peakIndex[k] == -moves[k]
      && (InRange(c, x, k) <==> moves[k] + CORR_PEAK_OFFSET < c.nProc)
      && (InRange(c, x, k) ==> x.peakDynOk[k])
  }

  lemma MeasuresPeaks(c: Config, x: Measured, channels: seq<Signal>, moves: seq<int>)
    requires ValidConfig(c) && Measures(c, x, channels) && MovedCopies(c, channels, moves)
    ensures ValidMeasured(c, x) && |moves| == c.chNum && PeaksFit(c, x, moves)
  {
    forall k | 0 <= k < c.chNum && k != c.stdChInd
      ensures c.nProc - x.peakIndex[k] == -moves[k]
    {
      PeaksShowMoves(c, x, channels, moves, k);
    }
  }

  /** One frame of sample calibration that fills the window with moved copies with room behind their peaks. */
  lemma CalibrationFindsMoves(c: Config, s: State, h: IqHeader, x: Measured, channels: seq<Signal>, moves: seq<int>)
    requires ValidConfig(c) && ValidState(c, s) && Measures(c, x, channels) && MovedCopies(c, channels, moves)
    requires s.fsm.StateSampleCal? && !s.ended && !IsDummy(h) && !Short(c, h) && AllHaveRoom(c, moves)
    ensures var r := ProcessFrame(c, s, h, x);
            && r.stamp.Some? && !r.state.ended
            && (forall k | 0 <= k < c.chNum && k != c.stdChInd :: r.state.delays[k] == -moves[k])
            && (r.stamp.value.delaySync <==> forall k | 0 <= k < c.chNum && k != c.stdChInd :: moves[k] == 0)
            && (r.order.Some? <==> !r.stamp.value.delaySync)
            && r.state.fsm == (if r.stamp.value.delaySync then StateFracSampleCal else StateSyncWait)
            && (r.order.Some? ==> forall k | 0 <= k < c.chNum && k != c.stdChInd ::
                  && (moves[k] > 0 <==> r.order.value[k] > 0.0)
                  && (moves[k] < 0 <==> r.order.value[k] < 0.0))
            && (r.order.Some? ==> r.order.value[c.stdChInd] == 0.0)
  {
    hide ScanFrom, MovedCopies, Measures, IntCorrection, Overindexed, InRange, Short;
    assert ValidMeasured(c, x) && |moves| == c.chNum && PeaksFit(c, x, moves) by {
      MeasuresPeaks(c, x, channels, moves);
    }
    HandledExactlyWhenRoom(c, s, h, x, channels, moves);
    assert AllPeaksStandOut(c, x, 0);
    var scan := Scan(s.delays, Repeat(0.0, c.chNum), false, true, s.m, false);
    ScanDecides(c, x, 0, scan);
    ScanRecords(c, x, 0, scan);
    forall k | 0 <= k < c.chNum && k != c.stdChInd
      ensures moves[k] > 0 <==> IntCorrection(-moves[k]) > 0.0
      ensures moves[k] < 0 <==> IntCorrection(-moves[k]) < 0.0
    {
      CorrectionOpposesDelay(-moves[k]);
    }
  }
}
