/** The delay synchronizer with its counters, delays and state, updated in place frame by frame. */
module DelaySyncProcess {
  import opened Common
  import opened IqHeaders
  import opened DelaySync
  import Daq = RtlDaq

  class DelaySynchronizer {
    const c: Config
    var currentState: Fsm
    var delays: seq<int>
    var m: nat
    var lastUpdateInd: int
    var lastRf: nat
    var syncFailedCntr: int
    var syncFailedCntrTotal: nat
    var sampleCompensationCntr: nat
    var iqCompensationCntr: nat
    var iqAdjust: Vector
    var iqCorrections: Vector
    var iqDiffRef: Vector
    var ended: bool

    ghost function Abs(): State
      reads this
    {
      State(currentState, delays, m, lastUpdateInd, lastRf, syncFailedCntr, syncFailedCntrTotal,
            sampleCompensationCntr, iqCompensationCntr, iqAdjust, iqCorrections, iqDiffRef, ended)
    }

    ghost predicate Valid()
      reads this
    {
      ValidConfig(c) && ValidState(c, Abs())
    }

    constructor (c: Config, adjust: Vector)
      requires ValidConfig(c) && |adjust| == c.chNum
      ensures Valid() && this.c == c && Abs() == Initial(c, adjust)
    {
      this.c := c;
      currentState := StateInit;
      delays := Repeat(0, c.chNum);
      m, lastUpdateInd, lastRf := 0, -3, 0;
      syncFailedCntr, syncFailedCntrTotal, sampleCompensationCntr, iqCompensationCntr := 0, 0, 0, 0;
      iqAdjust, iqCorrections, iqDiffRef := adjust, Repeat(ONE, c.chNum), Repeat(ONE, c.chNum);
      ended := false;
    }

    /** The scan over the channels to be matched; it stops at a peak that does not stand out, or raises. */
    method ScanChannels(x: Measured) returns (ppm: seq<real>, update: bool, inSync: bool, raised: bool)
      requires Valid() && ValidMeasured(c, x)
      modifies this`delays, this`m
      ensures Valid()
      ensures Scan(delays, ppm, update, inSync, m, raised) ==
              ScanFrom(c, x, 0, Scan(old(delays), Repeat(0.0, c.chNum), false, true, old(m), false))
    {
      hide IntCorrection;
      ppm, update, inSync, raised := Repeat(0.0, c.chNum), false, true, false;
      ghost var goal := ScanFrom(c, x, 0, Scan(delays, ppm, update, inSync, m, false));
      for k := 0 to c.chNum
        invariant Valid() && |ppm| == c.chNum && !raised
        invariant ScanFrom(c, x, k, Scan(delays, ppm, update, inSync, m, false)) == goal
        modifies this`delays, this`m
      {
        if k != c.stdChInd {
          m := k;
          if x.peakIndex[m] + CORR_PEAK_OFFSET >= 2 * c.nProc {
            raised := true;
            return;
          }
          if !x.peakDynOk[m] {
            update := false;
            inSync := false;
            return;
          }
          delays := delays[m := c.nProc - x.peakIndex[m]];
          ppm := ppm[m := IntCorrection(delays[m])];
          if AbsInt(delays[m]) >= 1 {
            inSync := false;
            update := true;
          }
        }
      }
    }

    method CalibrateSamples(h: IqHeader, x: Measured) returns (stamp: Option<Stamp>, order: Option<seq<real>>)
      requires Valid() && ValidMeasured(c, x)
      modifies this
      ensures Valid() && Result(Abs(), stamp, order) == SampleCal(c, old(Abs()), h, x)
    {
      hide ScanFrom;
      stamp, order := None, None;
      if Short(c, h) {
        m, ended := FirstMatched(c), true;
        return;
      }
      var ppm, update, inSync, raised := ScanChannels(x);
      if raised {
        ended := true;
        return;
      }
      if update {
        order := Some(ppm);
        lastUpdateInd := h.cpiIndex;
        currentState := StateSyncWait;
      }
      if inSync {
        sampleCompensationCntr := sampleCompensationCntr + 1;
        currentState := StateFracSampleCal;
      }
      stamp := Some(Stamp(inSync, false, 2));
    }

    /** The blocks of the estimate, each with its row; a last block that is not whole has none. */
    static method BlocksFit(width: nat) returns (fits: bool)
      ensures fits <==> width % BLOCK_SIZE == 0
    {
      var rows, blockIndex, blockStart := width / BLOCK_SIZE, 0, 0;
      while blockStart < width
        invariant blockStart == BLOCK_SIZE * blockIndex && blockIndex <= rows
        decreases width - blockStart
      {
        if blockIndex >= rows {
          return false;
        }
        blockIndex, blockStart := blockIndex + 1, blockStart + BLOCK_SIZE;
      }
      fits := true;
    }

    method FractionalOffsets(x: Measured) returns (ppm: seq<real>, update: bool)
      requires Valid() && ValidMeasured(c, x)
      modifies this`m
      ensures m == c.chNum - 2
      ensures ppm == FracOffsets(c, x) && update == FracOff(c, x)
    {
      ppm, update := Repeat(0.0, c.chNum), false;
      for k := 0 to c.chNum - 1
        invariant k > 0 ==> m == k - 1
        invariant |ppm| == c.chNum
        invariant forall i | 0 <= i < c.chNum ::
                    ppm[i] == if 0 < i <= k then FracCorrection(x.fracDelays[i - 1]) else 0.0
        invariant update == exists i | 0 <= i < k :: Daq.Magnitude(x.fracDelays[i]) > FRAC_DELAY_TOLERANCE
        modifies this`m
      {
        m := k;
        if Daq.Magnitude(x.fracDelays[m]) > FRAC_DELAY_TOLERANCE {
          ppm := ppm[m + 1 := x.fracDelays[m] * FRAC_FS_TUNE_GAIN * MIN_FS_PPM_OFFSET];
          update := true;
        }
      }
      assert ppm == FracOffsets(c, x);
    }

    method CalibrateFractions(h: IqHeader, x: Measured) returns (stamp: Option<Stamp>, order: Option<seq<real>>)
      requires Valid() && ValidMeasured(c, x)
      modifies this
      ensures Valid() && Result(Abs(), stamp, order) == FracSampleCal(c, old(Abs()), h, x)
    {
      hide FracOffsets, FracOff;
      stamp, order := None, None;
      var fits := BlocksFit(Width(c, h));
      if Width(c, h) == 0 || !fits {
        ended := true;
        return;
      }
      var ppm, update := FractionalOffsets(x);
      if update {
        order := Some(ppm);
        lastUpdateInd := h.cpiIndex;
        currentState := StateFracSyncWait;
      } else {
        currentState := StateIqCal;
      }
      stamp := Some(Stamp(false, false, 3));
    }

    /** The corrections start over from the adjustment for the frame's frequency. */
    method Restart(h: IqHeader, x: Measured)
      requires Valid() && ValidMeasured(c, x)
      modifies this`iqAdjust, this`iqCorrections, this`currentState
      ensures Valid() && Abs() == Init(c, old(Abs()), h, x)
    {
      iqAdjust := x.adjust;
      iqCorrections := iqAdjust;
      if h.frameType == FRAME_TYPE_CAL {
        currentState := StateSampleCal;
      }
    }

    method CalibrateIq(x: Measured) returns (stamp: Stamp)
      requires Valid() && ValidMeasured(c, x)
      modifies this
      ensures Valid() && (Abs(), stamp) == IqCal(c, old(Abs()), x)
    {
      hide Products;
      var sampleSync, iqSync, update := true, true, false;
      var iqDiffs := iqDiffRef;
      if c.enIqCal {
        iqDiffs := Products(x.iqDiffs, iqAdjust);
        if !x.syncDynOk {
          m := c.chNum - 2;
          sampleSync, iqSync := false, false;
        } else if x.outOfTolerance[m] {
          update := true;
        }
        if update {
          iqSync := false;
          iqCompensationCntr := iqCompensationCntr + 1;
          iqCorrections := Products(iqCorrections, iqDiffs);
        }
      }
      if !sampleSync {
        currentState := StateSampleCal;
      }
      if sampleSync && iqSync {
        currentState := StateTrackLock;
        if c.calTrackMode == 2 && c.enIqCal {
          iqDiffRef := iqDiffs;
        }
      }
      stamp := Stamp(sampleSync, iqSync, 4);
    }

    /** The lock ends with the first DATA frame. */
    method KeepLock(h: IqHeader, x: Measured)
      requires Valid() && ValidMeasured(c, x)
      modifies this`iqDiffRef, this`currentState, this`lastRf
      ensures Valid() && Abs() == TrackLock(c, old(Abs()), h, x)
    {
      if h.frameType == FRAME_TYPE_DATA {
        if c.calTrackMode == 1 {
          iqDiffRef := Products(x.iqDiffs, iqAdjust);
        }
        currentState := StateTrack;
        lastRf := h.rfCenterFreq;
      }
    }

    /** Track loss control. */
    method CountCheck(fails: bool)
      modifies this`syncFailedCntr, this`syncFailedCntrTotal, this`currentState
      ensures Abs() == CountFail(c, old(Abs()), fails)
    {
      if fails {
        syncFailedCntr := syncFailedCntr + 1;
        syncFailedCntrTotal := syncFailedCntrTotal + 1;
      } else {
        syncFailedCntr := syncFailedCntr - 1;
      }
      if syncFailedCntr == c.maxSyncFails {
        currentState := StateInit;
        syncFailedCntr := 0;
      } else if syncFailedCntr < 0 {
        syncFailedCntr := 0;
      }
    }

    method KeepTrack(h: IqHeader, x: Measured) returns (stamp: Stamp)
      requires Valid() && ValidMeasured(c, x)
      modifies this
      ensures Valid() && (Abs(), stamp) == Track(c, old(Abs()), h, x)
    {
      var sampleSync, iqSync := false, false;
      if c.calTrackMode == 1 || (c.calTrackMode == 2 && h.frameType == FRAME_TYPE_CAL) {
        sampleSync := x.syncDynOk;
        if c.enIqCal {
          iqSync := x.driftOk;
          if !iqSync {
            m := c.chNum - 1;
          }
        }
        CountCheck(!sampleSync || (c.enIqCal && !iqSync));
      } else {
        sampleSync, iqSync := true, true;
      }
      if lastRf != h.rfCenterFreq {
        sampleSync, iqSync := false, false;
        syncFailedCntr := 0;
        currentState := StateInit;
      }
      stamp := Stamp(sampleSync, iqSync, 6);
    }

    method WaitForCorrection(h: IqHeader)
      modifies this`lastUpdateInd
      ensures Abs() == CountWait(old(Abs()), h)
    {
      if lastUpdateInd + 1 == h.cpiIndex {
        lastUpdateInd := lastUpdateInd + 1;
      }
    }

    method HandleDummy()
      modifies this`syncFailedCntr, this`currentState
      ensures Abs() == OnDummy(old(Abs()))
    {
      syncFailedCntr := 0;
      if currentState == StateSyncWait {
        currentState := StateSampleCal;
      } else if currentState == StateFracSyncWait {
        currentState := StateFracSampleCal;
      }
    }

    /** One turn of the processing loop: the stamps of a frame passed on, and the correction sent, if any. */
    method HandleFrame(h: IqHeader, x: Measured) returns (stamp: Option<Stamp>, order: Option<seq<real>>)
      requires Valid() && ValidMeasured(c, x) && !ended
      modifies this
      ensures Valid() && Result(Abs(), stamp, order) == ProcessFrame(c, old(Abs()), h, x)
    {
      hide Init, SampleCal, FracSampleCal, IqCal, TrackLock, Track, CountWait, OnDummy;
      stamp, order := Some(Stamp(false, false, 0)), None;
      if h.frameType != FRAME_TYPE_DUMMY {
        match currentState {
          case StateInit =>
            stamp := Some(Stamp(false, false, 1));
            Restart(h, x);
          case StateSampleCal =>
            stamp, order := CalibrateSamples(h, x);
          case StateSyncWait =>
            stamp := Some(Stamp(false, false, 3));
            WaitForCorrection(h);
          case StateFracSampleCal =>
            stamp, order := CalibrateFractions(h, x);
          case StateFracSyncWait =>
            stamp := Some(Stamp(false, false, 3));
            WaitForCorrection(h);
          case StateIqCal =>
            var s := CalibrateIq(x);
            stamp := Some(s);
          case StateTrackLock =>
            stamp := Some(Stamp(true, true, 5));
            KeepLock(h, x);
          case StateTrack =>
            var s := KeepTrack(h, x);
            stamp := Some(s);
        }
      } else {
        HandleDummy();
      }
    }
  }
}
