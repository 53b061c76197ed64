/**
 * The order in which the synchronizer's states follow one another, the one channel its tolerance test
 * looks at, and the direction of its corrections.
 */
module SyncOrder {
  import opened Common
  import opened IqHeaders
  import opened DelaySync

  // ---- stamps ----

  /** Which stamp can follow which, dummy frames aside. */
  predicate MayFollow(a: nat, b: nat) {
    match a
    case 1 => b in {1, 2}
    case 2 => b in {2, 3}
    case 3 => b in {2, 3, 4}
    case 4 => b in {2, 4, 5}
    case 5 => b in {5, 6}
    case 6 => b in {1, 6}
    case _ => false
  }

  function StampOf(f: Fsm): (n: nat)
    ensures 1 <= n <= 6
  {
    match f
    case StateInit => 1
    case StateSampleCal => 2
    case StateIqCal => 4
    case StateTrackLock => 5
    case StateTrack => 6
    case _ => 3
  }

  /** The peak of channel `m` can be compared with the value behind it, and stands out from it. */
  predicate StandsOut(c: Config, x: Measured, m: nat)
    requires m < |x.peakIndex| && m < |x.peakDynOk|
  {
    InRange(c, x, m) && x.peakDynOk[m]
  }

  ghost predicate AllPeaksStandOut(c: Config, x: Measured, m: nat)
    requires ValidMeasured(c, x)
  {
    forall k | m <= k < c.chNum && k != c.stdChInd :: StandsOut(c, x, k)
  }

  ghost predicate Aligned(c: Config, x: Measured, m: nat)
    requires ValidMeasured(c, x)
  {
    forall k | m <= k < c.chNum && k != c.stdChInd :: StandsOut(c, x, k) && x.peakIndex[k] == c.nProc
  }

  /** Some peak stands too far behind, and every peak before it stands out. */
  ghost predicate Overindexed(c: Config, x: Measured, m: nat)
    requires ValidMeasured(c, x)
  {
    exists k | m <= k < c.chNum && k != c.stdChInd && !InRange(c, x, k) ::
      forall j | m <= j < k && j != c.stdChInd :: StandsOut(c, x, j)
  }

  lemma OverindexedFrom(c: Config, x: Measured, m: nat)
    requires ValidMeasured(c, x) && m < c.chNum
    ensures Overindexed(c, x, m) <==>
              if m == c.stdChInd || StandsOut(c, x, m) then Overindexed(c, x, m + 1) else !InRange(c, x, m)
  {
    if (m == c.stdChInd || StandsOut(c, x, m)) && Overindexed(c, x, m + 1) {
      var k :| m + 1 <= k < c.chNum && k != c.stdChInd && !InRange(c, x, k)
               && forall j | m + 1 <= j < k && j != c.stdChInd :: StandsOut(c, x, j);
      assert forall j | m <= j < k && j != c.stdChInd :: StandsOut(c, x, j);
    } else if Overindexed(c, x, m) {
      var k :| m <= k < c.chNum && k != c.stdChInd && !InRange(c, x, k)
               && forall j | m <= j < k && j != c.stdChInd :: StandsOut(c, x, j);
    }
  }

  /**
   * A scan raises an error exactly when it meets a peak too far behind before one that does not stand
   * out. Otherwise it finds the channels in sync exactly when every peak stands out at lag zero, and asks
   * for a correction exactly when every peak stands out and one is elsewhere; never both.
   */
  lemma {:induction false} ScanDecides(c: Config, x: Measured, m: nat, scan: Scan)
    requires ValidMeasured(c, x) && |scan.delays| == |scan.ppm| == c.chNum && scan.last < c.chNum && m <= c.chNum
    requires scan.update == !scan.inSync && !scan.raised
    ensures var r := ScanFrom(c, x, m, scan);
            && (r.raised <==> Overindexed(c, x, m))
            && (!r.raised ==> (r.inSync <==> scan.inSync && Aligned(c, x, m)))
            && (!r.raised ==> (r.update <==> AllPeaksStandOut(c, x, m) && (scan.update || !Aligned(c, x, m))))
    decreases c.chNum - m
  {
    hide IntCorrection, InRange, Overindexed;
    if m < c.chNum {
      OverindexedFrom(c, x, m);
      if m == c.stdChInd {
        ScanDecides(c, x, m + 1, scan);
      } else if StandsOut(c, x, m) {
        ScanDecides(c, x, m + 1, Scanned(c, x, m, scan));
      }
    } else {
      assert !Overindexed(c, x, m) by { NothingLeft(c, x, m); }
    }
  }

  lemma NothingLeft(c: Config, x: Measured, m: nat)
    requires ValidMeasured(c, x) && c.chNum <= m
    ensures !Overindexed(c, x, m)
  {
  }

  /** When every peak stands out the scan records the delay and the correction of every channel to be matched. */
  lemma {:induction false} ScanRecords(c: Config, x: Measured, m: nat, scan: Scan)
    requires ValidMeasured(c, x) && |scan.delays| == |scan.ppm| == c.chNum && scan.last < c.chNum && m <= c.chNum
    requires AllPeaksStandOut(c, x, m)
    ensures var r := ScanFrom(c, x, m, scan);
            forall k | 0 <= k < c.chNum ::
              if k < m || k == c.stdChInd then r.delays[k] == scan.delays[k] && r.ppm[k] == scan.ppm[k]
              else r.delays[k] == c.nProc - x.peakIndex[k] && r.ppm[k] == IntCorrection(c.nProc - x.peakIndex[k])
    decreases c.chNum - m
  {
    hide IntCorrection, InRange;
    if m < c.chNum {
      assert m == c.stdChInd || StandsOut(c, x, m);
      ScanRecords(c, x, m + 1, if m == c.stdChInd then scan else Scanned(c, x, m, scan));
    }
  }

  /** The frame raises an error in this state. */
  ghost predicate Ends(c: Config, f: Fsm, h: IqHeader, x: Measured)
    requires ValidMeasured(c, x)
  {
    || (f.StateSampleCal? && (Short(c, h) || Overindexed(c, x, 0)))
    || (f.StateFracSampleCal? && Uneven(c, h))
  }

  /**
   * A frame with samples is stamped with the state it finds, and the next such stamp may follow it. Only
   * sample calibration, on a short frame or a peak too far behind, and fractional calibration, on a frame
   * that is not made of whole blocks, end the process, without a stamp.
   */
  lemma FrameIsStamped(c: Config, s: State, h: IqHeader, x: Measured)
    requires ValidConfig(c) && ValidState(c, s) && ValidMeasured(c, x)
    ensures var r := ProcessFrame(c, s, h, x);
            if r.stamp.None? then
              && r.state.fsm == s.fsm && r.state.ended
              && (!s.ended ==> !IsDummy(h) && Ends(c, s.fsm, h, x))
            else if IsDummy(h) then
              r.stamp.value.syncState == 0 && StampOf(r.state.fsm) <= StampOf(s.fsm)
            else
              && r.stamp.value.syncState == StampOf(s.fsm) && MayFollow(StampOf(s.fsm), StampOf(r.state.fsm))
              && !Ends(c, s.fsm, h, x)
  {
    hide ScanFrom, FracOffsets, FracOff, Tracked, SyncFails, Products, Differences, Overindexed, Aligned,
         AllPeaksStandOut, Short, Uneven;
    if s.fsm.StateSampleCal? && !IsDummy(h) {
      ScanDecides(c, x, 0, Scan(s.delays, Repeat(0.0, c.chNum), false, true, s.m, false));
    }
  }

  // ---- runs of stamps ----

  ghost predicate Occurs(stamps: seq<Stamp>, k: nat, first: nat, last: nat)
    requires last < |stamps|
  {
    exists l | first <= l <= last :: stamps[l].syncState == k
  }

  ghost predicate OccursSince(stamps: seq<Stamp>, k: nat, first: nat) {
    stamps != [] && Occurs(stamps, k, first, |stamps| - 1)
  }

  /** Between a stamp and a later, higher one every stamp in between occurs; `next` is the stamp to come. */
  ghost predicate InOrder(stamps: seq<Stamp>, next: nat) {
    && (forall i, j, k | 0 <= i < j < |stamps| && 0 < stamps[i].syncState <= k <= stamps[j].syncState ::
          Occurs(stamps, k, i, j))
    && (forall i, k | 0 <= i < |stamps| && 0 < stamps[i].syncState <= k < next ::
          OccursSince(stamps, k, i))
  }

  lemma OccursStill(stamps: seq<Stamp>, stamp: Stamp, k: nat, first: nat, last: nat)
    requires first <= last <= |stamps|
    ensures last < |stamps| && Occurs(stamps, k, first, last) ==>
              Occurs(stamps + [stamp], k, first, last) && Occurs(stamps + [stamp], k, first, |stamps|)
    ensures stamp.syncState == k ==> Occurs(stamps + [stamp], k, first, |stamps|)
  {
    var stamps' := stamps + [stamp];
    if last < |stamps| && Occurs(stamps, k, first, last) {
      var l :| first <= l <= last && stamps[l].syncState == k;
      assert stamps'[l].syncState == k;
    }
    assert stamps'[|stamps|] == stamp;
  }

  lemma OrderExtends(stamps: seq<Stamp>, stamp: Stamp, at: nat, next: nat)
    requires InOrder(stamps, at)
    requires (stamp.syncState == 0 && next <= at) || (stamp.syncState == at && next <= at + 1)
    ensures InOrder(stamps + [stamp], next)
  {
    hide Occurs;
    var stamps' := stamps + [stamp];
    forall i, j, k | 0 <= i < j < |stamps'| && 0 < stamps'[i].syncState <= k <= stamps'[j].syncState
      ensures Occurs(stamps', k, i, j)
    {
      assert stamps'[i] == stamps[i];
      assert j == |stamps| && k < at ==> OccursSince(stamps, k, i);
      OccursStill(stamps, stamp, k, i, if j < |stamps| then j else |stamps| - 1);
    }
    forall i, k | 0 <= i < |stamps'| && 0 < stamps'[i].syncState <= k < next
      ensures OccursSince(stamps', k, i)
    {
      assert i < |stamps| && k < at ==> OccursSince(stamps, k, i);
      OccursStill(stamps, stamp, k, i, if i < |stamps| then |stamps| - 1 else i);
    }
  }

  /**
   * In every run, between a frame stamped with one state and a later frame stamped with a higher one
   * there is a frame stamped with each state in between: the way to "track" always leads through
   * sample calibration, IQ calibration and the track lock.
   */
  lemma {:induction false} StampsInOrder(c: Config, adjust: Vector, inputs: seq<Input>)
    requires ValidConfig(c) && ValidInputs(c, inputs) && |adjust| == c.chNum
    ensures InOrder(Stamps(c, adjust, inputs), StampOf(Run(c, adjust, inputs).fsm))
  {
    if inputs != [] {
      hide ProcessFrame, InOrder, Overindexed, Ends;
      var before, last := inputs[..|inputs| - 1], inputs[|inputs| - 1];
      var s := Run(c, adjust, before);
      var r := ProcessFrame(c, s, last.header, last.x);
      StampsInOrder(c, adjust, before);
      FrameIsStamped(c, s, last.header, last.x);
      if r.stamp.Some? {
        OrderExtends(Stamps(c, adjust, before), r.stamp.value, StampOf(s.fsm), StampOf(r.state.fsm));
      } else {
        assert Stamps(c, adjust, inputs) == Stamps(c, adjust, before);
      }
    }
  }

  // ---- the channel that IQ calibration tests ----

  lemma IqCalIsEntered(c: Config, s: State, h: IqHeader, x: Measured)
    requires ValidConfig(c) && ValidState(c, s) && ValidMeasured(c, x)
    ensures var s' := ProcessFrame(c, s, h, x).state;
            s'.fsm.StateIqCal? ==> (s.fsm.StateIqCal? && s'.m == s.m) || s'.m == c.chNum - 2
  {
    hide ScanFrom, FracOffsets, FracOff, Tracked, SyncFails, Products, Differences, Short, Uneven;
  }

  /** Whenever IQ calibration is entered or repeated the channel variable stands at the last but one channel. */
  lemma {:induction false} OneChannelIsTested(c: Config, adjust: Vector, inputs: seq<Input>)
    requires ValidConfig(c) && ValidInputs(c, inputs) && |adjust| == c.chNum
    ensures Run(c, adjust, inputs).fsm.StateIqCal? ==> Run(c, adjust, inputs).m == c.chNum - 2
  {
    hide ProcessFrame;
    if inputs != [] {
      var before, last := inputs[..|inputs| - 1], inputs[|inputs| - 1];
      OneChannelIsTested(c, adjust, before);
      IqCalIsEntered(c, Run(c, adjust, before), last.header, last.x);
    }
  }

  lemma {:induction false} EndsInCalibration(c: Config, adjust: Vector, inputs: seq<Input>)
    requires ValidConfig(c) && ValidInputs(c, inputs) && |adjust| == c.chNum
    ensures Run(c, adjust, inputs).ended ==>
              Run(c, adjust, inputs).fsm in {StateSampleCal, StateFracSampleCal}
  {
    hide ProcessFrame, Overindexed, Short, Uneven;
    if inputs != [] {
      var before, last := inputs[..|inputs| - 1], inputs[|inputs| - 1];
      EndsInCalibration(c, adjust, before);
      FrameIsStamped(c, Run(c, adjust, before), last.header, last.x);
      OnlyStampedGoOn(c, Run(c, adjust, before), last.header, last.x);
    }
  }

  lemma OnlyStampedGoOn(c: Config, s: State, h: IqHeader, x: Measured)
    requires ValidConfig(c) && ValidState(c, s) && ValidMeasured(c, x)
    ensures ProcessFrame(c, s, h, x).state.ended <==> ProcessFrame(c, s, h, x).stamp.None?
  {
    hide ScanFrom, FracOffsets, FracOff, Tracked, SyncFails, Products, Differences, Short, Uneven;
  }

  /** In every run the tolerance of the last but one channel alone decides on the track lock. */
  lemma LockTestsOneChannel(c: Config, adjust: Vector, inputs: seq<Input>, h: IqHeader, x: Measured)
    requires ValidConfig(c) && ValidInputs(c, inputs) && ValidMeasured(c, x) && |adjust| == c.chNum
    requires Run(c, adjust, inputs).fsm.StateIqCal? && !IsDummy(h) && c.enIqCal
    ensures ProcessFrame(c, Run(c, adjust, inputs), h, x).state.fsm.StateTrackLock? <==>
              x.syncDynOk && !x.outOfTolerance[c.chNum - 2]
  {
    hide Run, SampleCal, FracSampleCal, Track, TrackLock, Init, Products, Differences;
    OneChannelIsTested(c, adjust, inputs);
    EndsInCalibration(c, adjust, inputs);
  }

  // ---- corrections ----

  /** A correction works against its delay, never exceeds the limit, and vanishes only with the delay. */
  lemma CorrectionOpposesDelay(delay: int)
    ensures -MAX_FS_PPM_OFFSET <= IntCorrection(delay) <= MAX_FS_PPM_OFFSET
    ensures delay > 0 <==> IntCorrection(delay) < 0.0
    ensures delay < 0 <==> IntCorrection(delay) > 0.0
    ensures IntCorrection(-delay) == -IntCorrection(delay)
  {
    assert (-delay) as real == -(delay as real);
  }

  /** A larger delay never gets a smaller correction. */
  lemma CorrectionGrows(a: nat, b: nat)
    requires a <= b
    ensures IntCorrection(b) <= IntCorrection(a) <= 0.0
  {
  }
}
