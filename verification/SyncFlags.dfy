/**
 * What the synchronizer's flags, counters and IQ corrections say: which flags go with which stamp, that a flagged
 * frame comes after an alignment and a lock, what the counters count, and what the corrections are made of.
 */
module SyncFlags {
  import opened Common
  import opened IqHeaders
  import opened DelaySync
  import Correlation
  import SyncOrder
  import Corrections

  // ---- flags ----

  /** The flags on a frame with samples, by its stamp and what was measured on it. */
  ghost predicate FlagsSay(c: Config, s: State, h: IqHeader, x: Measured, stamp: Stamp)
    requires ValidConfig(c) && ValidState(c, s) && ValidMeasured(c, x)
  {
    match stamp.syncState
    case 2 => (stamp.delaySync <==> SyncOrder.Aligned(c, x, 0)) && !stamp.iqSync
    case 4 =>
      && (stamp.delaySync <==> !c.enIqCal || x.syncDynOk)
      && (stamp.iqSync <==> !c.enIqCal || (x.syncDynOk && !x.outOfTolerance[s.m]))
    case 5 => stamp.delaySync && stamp.iqSync
    case 6 =>
      if s.lastRf != h.rfCenterFreq then !stamp.delaySync && !stamp.iqSync
      else if c.calTrackMode == 0 || (c.calTrackMode == 2 && h.frameType != FRAME_TYPE_CAL) then
        stamp.delaySync && stamp.iqSync
      else
        (stamp.delaySync <==> x.syncDynOk) && (stamp.iqSync <==> c.enIqCal && x.driftOk)
    case _ => !stamp.delaySync && !stamp.iqSync
  }

  lemma FrameIsFlagged(c: Config, s: State, h: IqHeader, x: Measured)
    requires ValidConfig(c) && ValidState(c, s) && ValidMeasured(c, x)
    ensures var r := ProcessFrame(c, s, h, x);
            r.stamp.Some? ==>
              if IsDummy(h) then r.stamp.value == Stamp(false, false, 0)
              else FlagsSay(c, s, h, x, r.stamp.value)
  {
    hide ScanFrom, FracOffsets, FracOff, Products, Differences, SyncOrder.Overindexed, SyncOrder.Aligned,
         SyncOrder.AllPeaksStandOut, Short, Uneven, CountFail;
    if s.fsm.StateSampleCal? && !IsDummy(h) {
      SyncOrder.ScanDecides(c, x, 0, Scan(s.delays, Repeat(0.0, c.chNum), false, true, s.m, false));
    }
  }

  /** The last of the stamps that `about` looks at says `flagged`. */
  ghost predicate LastSays(stamps: seq<Stamp>, about: set<nat>, flagged: Stamp) {
    exists i | 0 <= i < |stamps| && stamps[i] == flagged ::
      forall j | i < j < |stamps| :: stamps[j].syncState !in about
  }

  const ALIGNED: Stamp := Stamp(true, false, 2)
  const LOCKED: Stamp := Stamp(true, true, 4)

  /** The state found alignment since the last start, and a lock. */
  ghost predicate Earned(f: Fsm, stamps: seq<Stamp>) {
    && (f.StateFracSampleCal? || f.StateFracSyncWait? || f.StateIqCal? || f.StateTrackLock? || f.StateTrack? ==>
          LastSays(stamps, {1, 2}, ALIGNED))
    && (f.StateTrackLock? || f.StateTrack? ==> LastSays(stamps, {1, 2, 4}, LOCKED))
  }

  lemma StillSays(stamps: seq<Stamp>, stamp: Stamp, about: set<nat>, flagged: Stamp)
    requires LastSays(stamps, about, flagged) && stamp.syncState !in about
    ensures LastSays(stamps + [stamp], about, flagged)
  {
    var i :| 0 <= i < |stamps| && stamps[i] == flagged
             && forall j | i < j < |stamps| :: stamps[j].syncState !in about;
    assert (stamps + [stamp])[i] == flagged;
  }

  lemma NowSays(stamps: seq<Stamp>, stamp: Stamp, about: set<nat>)
    ensures LastSays(stamps + [stamp], about, stamp)
  {
    assert (stamps + [stamp])[|stamps|] == stamp;
  }

  /** One frame and the way the state machine goes on. */
  ghost predicate GoesOn(f: Fsm, stamp: Stamp, f': Fsm) {
    && (f'.StateFracSampleCal? ==> f.StateFracSyncWait? || (f.StateFracSampleCal? && stamp.syncState == 0)
                                   || stamp == ALIGNED)
    && (f'.StateFracSyncWait? ==> f.StateFracSampleCal? || f.StateFracSyncWait?)
    && (f'.StateIqCal? ==> f.StateFracSampleCal? || f.StateIqCal?)
    && (f'.StateTrackLock? ==> (f.StateIqCal? && stamp == LOCKED) || (f.StateTrackLock? && stamp.syncState in {0, 5}))
    && (f'.StateTrack? ==> (f.StateTrackLock? || f.StateTrack?) && stamp.syncState in {0, 5, 6})
    && (stamp.syncState == 1 ==> f.StateInit?) && (stamp.syncState == 2 ==> f.StateSampleCal?)
    && (stamp.syncState == 4 ==> f.StateIqCal?)
  }

  lemma FrameGoesOn(c: Config, s: State, h: IqHeader, x: Measured)
    requires ValidConfig(c) && ValidState(c, s) && ValidMeasured(c, x)
    ensures var r := ProcessFrame(c, s, h, x);
            if r.stamp.Some? then GoesOn(s.fsm, r.stamp.value, r.state.fsm) else r.state.fsm == s.fsm
  {
    hide ScanFrom, FracOffsets, FracOff, Products, Differences, Short, Uneven, CountFail;
    if s.fsm.StateTrack? {
      TrackGoesOn(c, s, h, x);
    }
  }

  lemma TrackGoesOn(c: Config, s: State, h: IqHeader, x: Measured)
    requires ValidConfig(c) && ValidState(c, s) && ValidMeasured(c, x) && s.fsm.StateTrack?
    ensures Track(c, s, h, x).0.fsm in {StateTrack, StateInit}
  {
  }

  lemma EarnedGoesOn(f: Fsm, stamps: seq<Stamp>, stamp: Stamp, f': Fsm)
    requires Earned(f, stamps) && GoesOn(f, stamp, f')
    ensures Earned(f', stamps + [stamp])
  {
    hide LastSays;
    NowSays(stamps, stamp, {1, 2});
    NowSays(stamps, stamp, {1, 2, 4});
    if LastSays(stamps, {1, 2}, ALIGNED) && stamp.syncState !in {1, 2} {
      StillSays(stamps, stamp, {1, 2}, ALIGNED);
    }
    if LastSays(stamps, {1, 2, 4}, LOCKED) && stamp.syncState !in {1, 2, 4} {
      StillSays(stamps, stamp, {1, 2, 4}, LOCKED);
    }
  }

  lemma {:induction false} StateIsEarned(c: Config, adjust: Vector, inputs: seq<Input>)
    requires ValidConfig(c) && ValidInputs(c, inputs) && |adjust| == c.chNum
    ensures Earned(Run(c, adjust, inputs).fsm, Stamps(c, adjust, inputs))
  {
    hide ProcessFrame, Earned, GoesOn;
    if inputs != [] {
      var before, last := inputs[..|inputs| - 1], inputs[|inputs| - 1];
      var s := Run(c, adjust, before);
      var r := ProcessFrame(c, s, last.header, last.x);
      StateIsEarned(c, adjust, before);
      FrameGoesOn(c, s, last.header, last.x);
      if r.stamp.Some? {
        EarnedGoesOn(s.fsm, Stamps(c, adjust, before), r.stamp.value, r.state.fsm);
      } else {
        assert Stamps(c, adjust, inputs) == Stamps(c, adjust, before);
      }
    } else {
      NothingToEarn();
    }
  }

  lemma NothingToEarn()
    ensures Earned(StateInit, [])
  {
  }

  /**
   * In every run a frame flagged as sample synchronous, if it is not itself the one that found the channels aligned,
   * comes after one that did, with no start and no failed sample calibration since; and one flagged as
   * IQ synchronous is itself the lock or comes after it, with no IQ calibration since.
   */
  lemma FlagsAreEarned(c: Config, adjust: Vector, inputs: seq<Input>, h: IqHeader, x: Measured)
    requires ValidConfig(c) && ValidInputs(c, inputs) && ValidMeasured(c, x) && |adjust| == c.chNum
    requires ProcessFrame(c, Run(c, adjust, inputs), h, x).stamp.Some?
    ensures var stamps := Stamps(c, adjust, inputs);
            var stamp := ProcessFrame(c, Run(c, adjust, inputs), h, x).stamp.value;
            && (stamp.delaySync ==> stamp == ALIGNED || LastSays(stamps, {1, 2}, ALIGNED))
            && (stamp.iqSync ==> stamp == LOCKED || LastSays(stamps, {1, 2, 4}, LOCKED))
  {
    hide ProcessFrame, LastSays, SyncOrder.Aligned, Run, Stamps;
    var s := Run(c, adjust, inputs);
    StateIsEarned(c, adjust, inputs);
    FrameIsFlagged(c, s, h, x);
    SyncOrder.FrameIsStamped(c, s, h, x);
  }

  /** The stamp of a calibration frame says where the synchronizer goes on. */
  lemma StampDecides(c: Config, s: State, h: IqHeader, x: Measured)
    requires ValidConfig(c) && ValidState(c, s) && ValidMeasured(c, x) && !IsDummy(h)
    requires ProcessFrame(c, s, h, x).stamp.Some?
    ensures var r := ProcessFrame(c, s, h, x);
            var stamp := r.stamp.value;
            && (stamp.syncState == 1 ==>
                  r.state.fsm == if h.frameType == FRAME_TYPE_CAL then StateSampleCal else StateInit)
            && (stamp.syncState == 2 ==>
                  r.state.fsm == if stamp.delaySync then StateFracSampleCal
                                 else if r.order.Some? then StateSyncWait else StateSampleCal)
            && (stamp.syncState == 4 ==>
                  r.state.fsm == if !stamp.delaySync then StateSampleCal
                                 else if !stamp.iqSync then StateIqCal else StateTrackLock)
            && (stamp.syncState == 5 ==>
                  r.state.fsm == if h.frameType == FRAME_TYPE_DATA then StateTrack else StateTrackLock)
  {
    hide ScanFrom, FracOffsets, FracOff, Products, Differences, SyncOrder.Overindexed, SyncOrder.Aligned,
         SyncOrder.AllPeaksStandOut, Short, Uneven, CountFail, SyncFails, Tracked;
    if s.fsm.StateSampleCal? {
      SyncOrder.ScanDecides(c, x, 0, Scan(s.delays, Repeat(0.0, c.chNum), false, true, s.m, false));
    }
  }

  // ---- counters ----

  const CORRECTED: Stamp := Stamp(true, false, 4)

  /** The frame is checked while the synchronizer tracks, and fails. */
  ghost predicate FailsCheck(c: Config, s: State, h: IqHeader, x: Measured) {
    && !s.ended && s.fsm.StateTrack? && !IsDummy(h)
    && (c.calTrackMode == 1 || (c.calTrackMode == 2 && h.frameType == FRAME_TYPE_CAL))
    && (!x.syncDynOk || (c.enIqCal && !x.driftOk))
  }

  lemma TrackCounts(c: Config, s: State, h: IqHeader, x: Measured)
    requires ValidConfig(c) && ValidState(c, s) && ValidMeasured(c, x)
    ensures var (s', stamp) := Track(c, s, h, x);
            && s' == s.(fsm := s'.fsm, m := s'.m, syncFailedCntr := s'.syncFailedCntr,
                        syncFailedCntrTotal := s'.syncFailedCntrTotal)
            && s'.syncFailedCntrTotal == s.syncFailedCntrTotal + (if Tracked(c, h) && SyncFails(c, x) then 1 else 0)
            && stamp.syncState == 6
  {
  }

  lemma FrameCounts(c: Config, s: State, h: IqHeader, x: Measured)
    requires ValidConfig(c) && ValidState(c, s) && ValidMeasured(c, x)
    ensures var r := ProcessFrame(c, s, h, x);
            && r.state.sampleCompensationCntr == s.sampleCompensationCntr + (if r.stamp == Some(ALIGNED) then 1 else 0)
            && r.state.iqCompensationCntr == s.iqCompensationCntr + (if r.stamp == Some(CORRECTED) then 1 else 0)
            && r.state.syncFailedCntrTotal == s.syncFailedCntrTotal + (if FailsCheck(c, s, h, x) then 1 else 0)
  {
    hide ScanFrom, FracOffsets, FracOff, Products, Differences, Short, Uneven, Track;
    TrackCounts(c, s, h, x);
  }

  function Count(stamps: seq<Stamp>, stamp: Stamp): nat {
    if stamps == [] then 0
    else Count(stamps[..|stamps| - 1], stamp) + if stamps[|stamps| - 1] == stamp then 1 else 0
  }

  ghost function FailedChecks(c: Config, adjust: Vector, inputs: seq<Input>): nat
    requires ValidConfig(c) && ValidInputs(c, inputs) && |adjust| == c.chNum
  {
    if inputs == [] then 0
    else
      var before, last := inputs[..|inputs| - 1], inputs[|inputs| - 1];
      FailedChecks(c, adjust, before) +
      if FailsCheck(c, Run(c, adjust, before), last.header, last.x) then 1 else 0
  }

  lemma CountNext(stamps: seq<Stamp>, next: Stamp, stamp: Stamp)
    ensures Count(stamps + [next], stamp) == Count(stamps, stamp) + if next == stamp then 1 else 0
  {
    assert (stamps + [next])[..|stamps|] == stamps;
  }

  /**
   * In every run the statistics count what they are named for: the frames found aligned, the frames on which the IQ
   * corrections were updated, and the failed checks.
   */
  lemma {:induction false} CountersCount(c: Config, adjust: Vector, inputs: seq<Input>)
    requires ValidConfig(c) && ValidInputs(c, inputs) && |adjust| == c.chNum
    ensures var s, stamps := Run(c, adjust, inputs), Stamps(c, adjust, inputs);
            && s.sampleCompensationCntr == Count(stamps, ALIGNED)
            && s.iqCompensationCntr == Count(stamps, CORRECTED)
            && s.syncFailedCntrTotal == FailedChecks(c, adjust, inputs)
  {
    hide ProcessFrame, FailsCheck, Count;
    if inputs != [] {
      var before, last := inputs[..|inputs| - 1], inputs[|inputs| - 1];
      CountersCount(c, adjust, before);
      FrameCounts(c, Run(c, adjust, before), last.header, last.x);
      StampsCount(c, adjust, inputs, ALIGNED);
      StampsCount(c, adjust, inputs, CORRECTED);
    } else {
      NoneCounted();
    }
  }

  lemma NoneCounted()
    ensures Count([], ALIGNED) == 0 && Count([], CORRECTED) == 0
  {
  }

  lemma StampsCount(c: Config, adjust: Vector, inputs: seq<Input>, stamp: Stamp)
    requires ValidConfig(c) && ValidInputs(c, inputs) && |adjust| == c.chNum && inputs != []
    ensures var before, last := inputs[..|inputs| - 1], inputs[|inputs| - 1];
            var r := ProcessFrame(c, Run(c, adjust, before), last.header, last.x);
            Count(Stamps(c, adjust, inputs), stamp) ==
            Count(Stamps(c, adjust, before), stamp) + if r.stamp == Some(stamp) then 1 else 0
  {
    hide ProcessFrame, Run, Count;
    var before, last := inputs[..|inputs| - 1], inputs[|inputs| - 1];
    var r := ProcessFrame(c, Run(c, adjust, before), last.header, last.x);
    if r.stamp.Some? {
      CountNext(Stamps(c, adjust, before), r.stamp.value, stamp);
    } else {
      assert Stamps(c, adjust, inputs) == Stamps(c, adjust, before);
    }
  }

  // ---- IQ corrections ----

  /** The difference measured on a channel, with its adjustment. */
  function Adjusted(s: State, x: Measured, k: nat): Correlation.Complex
    requires k < |x.iqDiffs| && k < |s.iqAdjust|
  {
    Correlation.Mul(x.iqDiffs[k], s.iqAdjust[k])
  }

  /** The frame sets the reference that later differences are compared with. */
  ghost predicate SetsReference(c: Config, h: IqHeader, stamp: Option<Stamp>) {
    || (c.calTrackMode == 2 && c.enIqCal && stamp == Some(LOCKED))
    || (c.calTrackMode == 1 && stamp.Some? && stamp.value.syncState == 5 && h.frameType == FRAME_TYPE_DATA)
  }

  /**
   * The corrections start over from the adjustment on each frame stamped "init", are multiplied channel by
   * channel by the differences on each frame out of tolerance, and stay as they are otherwise; so does the reference,
   * which is taken at the lock in track mode 2 and at its end in track mode 1.
   */
  lemma FrameCorrects(c: Config, s: State, h: IqHeader, x: Measured, k: nat)
    requires ValidConfig(c) && ValidState(c, s) && ValidMeasured(c, x) && k < c.chNum
    ensures var r := ProcessFrame(c, s, h, x);
            var init := r.stamp.Some? && r.stamp.value.syncState == 1;
            && r.state.iqAdjust[k] == (if init then x.adjust[k] else s.iqAdjust[k])
            && r.state.iqCorrections[k] ==
               (if init then x.adjust[k]
                else if r.stamp == Some(CORRECTED) then Correlation.Mul(s.iqCorrections[k], Adjusted(s, x, k))
                else s.iqCorrections[k])
            && r.state.iqDiffRef[k] == (if SetsReference(c, h, r.stamp) then Adjusted(s, x, k) else s.iqDiffRef[k])
  {
    hide SampleCal, FracSampleCal, Track, Init, IqCal, TrackLock, Correlation.Mul;
    match s.fsm {
      case StateInit => InitCorrects(c, s, h, x);
      case StateSampleCal => CalibrationLeavesCorrections(c, s, h, x);
      case StateFracSampleCal => CalibrationLeavesCorrections(c, s, h, x);
      case StateIqCal => IqCalCorrects(c, s, h, x, k);
      case StateTrackLock => LockSetsReference(c, s, h, x, k);
      case StateTrack => TrackCounts(c, s, h, x);
      case _ =>
    }
  }

  lemma InitCorrects(c: Config, s: State, h: IqHeader, x: Measured)
    requires ValidState(c, s) && ValidMeasured(c, x)
    ensures var s' := Init(c, s, h, x);
            s'.iqAdjust == s'.iqCorrections == x.adjust && s'.iqDiffRef == s.iqDiffRef
  {
  }

  lemma CalibrationLeavesCorrections(c: Config, s: State, h: IqHeader, x: Measured)
    requires ValidConfig(c) && ValidState(c, s) && ValidMeasured(c, x)
    ensures forall r | r in {SampleCal(c, s, h, x), FracSampleCal(c, s, h, x)} ::
              && r.state.iqAdjust == s.iqAdjust && r.state.iqCorrections == s.iqCorrections
              && r.state.iqDiffRef == s.iqDiffRef && (r.stamp.Some? ==> r.stamp.value.syncState in {2, 3})
  {
    hide ScanFrom, FracOffsets, FracOff, Short, Uneven;
  }

  lemma IqCalCorrects(c: Config, s: State, h: IqHeader, x: Measured, k: nat)
    requires ValidConfig(c) && ValidState(c, s) && ValidMeasured(c, x) && k < c.chNum
    ensures var (s', stamp) := IqCal(c, s, x);
            && s'.iqAdjust == s.iqAdjust && stamp.syncState == 4
            && s'.iqCorrections[k] == (if stamp == CORRECTED then Correlation.Mul(s.iqCorrections[k], Adjusted(s, x, k))
                                       else s.iqCorrections[k])
            && s'.iqDiffRef[k] == (if SetsReference(c, h, Some(stamp)) then Adjusted(s, x, k) else s.iqDiffRef[k])
  {
    hide Correlation.Mul;
  }

  lemma LockSetsReference(c: Config, s: State, h: IqHeader, x: Measured, k: nat)
    requires ValidConfig(c) && ValidState(c, s) && ValidMeasured(c, x) && k < c.chNum
    ensures var s' := TrackLock(c, s, h, x);
            && s'.iqAdjust == s.iqAdjust && s'.iqCorrections == s.iqCorrections
            && s'.iqDiffRef[k] == if c.calTrackMode == 1 && h.frameType == FRAME_TYPE_DATA then Adjusted(s, x, k)
                                  else s.iqDiffRef[k]
  {
    hide Correlation.Mul;
  }

  // ---- the frequency tracked ----

  lemma FrameTracks(c: Config, s: State, h: IqHeader, x: Measured)
    requires ValidConfig(c) && ValidState(c, s) && ValidMeasured(c, x) && (s.ended ==> !s.fsm.StateTrack?)
    ensures var s' := ProcessFrame(c, s, h, x).state;
            s'.fsm.StateTrack? ==>
              if s.fsm.StateTrack? then s'.lastRf == s.lastRf && (IsDummy(h) || h.rfCenterFreq == s.lastRf)
              else s.fsm.StateTrackLock? && h.frameType == FRAME_TYPE_DATA && s'.lastRf == h.rfCenterFreq
  {
    hide ScanFrom, FracOffsets, FracOff, Products, Differences, Short, Uneven, SyncFails;
  }

  /** The lock ended on input `i`, a DATA frame, and every frame with samples since has its frequency. */
  ghost predicate TrackedSince(c: Config, adjust: Vector, inputs: seq<Input>, i: nat)
    requires ValidConfig(c) && ValidInputs(c, inputs) && |adjust| == c.chNum
  {
    && i < |inputs| && inputs[i].header.frameType == FRAME_TYPE_DATA
    && Run(c, adjust, inputs[..i]).fsm.StateTrackLock?
    && Run(c, adjust, inputs).lastRf == inputs[i].header.rfCenterFreq
    && forall j | i <= j < |inputs| && !IsDummy(inputs[j].header) ::
         inputs[j].header.rfCenterFreq == inputs[i].header.rfCenterFreq
  }

  /** In every run, while the synchronizer tracks, every frame since the end of its lock has one frequency. */
  lemma {:induction false} OneFrequencyIsTracked(c: Config, adjust: Vector, inputs: seq<Input>)
    requires ValidConfig(c) && ValidInputs(c, inputs) && |adjust| == c.chNum
    ensures Run(c, adjust, inputs).fsm.StateTrack? ==> exists i: nat :: TrackedSince(c, adjust, inputs, i)
  {
    hide ProcessFrame;
    if inputs != [] && Run(c, adjust, inputs).fsm.StateTrack? {
      var n := |inputs| - 1;
      var s := Run(c, adjust, inputs[..n]);
      OneFrequencyIsTracked(c, adjust, inputs[..n]);
      SyncOrder.EndsInCalibration(c, adjust, inputs[..n]);
      FrameTracks(c, s, inputs[n].header, inputs[n].x);
      if s.fsm.StateTrack? {
        var i: nat :| TrackedSince(c, adjust, inputs[..n], i);
        assert inputs[..n][..i] == inputs[..i];
        assert TrackedSince(c, adjust, inputs, i);
      } else {
        assert TrackedSince(c, adjust, inputs, n);
      }
    }
  }

  // ---- waiting for a correction ----

  predicate Waits(f: Fsm) {
    f.StateSyncWait? || f.StateFracSyncWait?
  }

  /** A dummy frame ends the wait, clears the fail counter and changes nothing else. */
  lemma DummyEndsWait(c: Config, s: State, h: IqHeader, x: Measured)
    requires ValidConfig(c) && ValidState(c, s) && ValidMeasured(c, x) && IsDummy(h) && !s.ended
    ensures var r := ProcessFrame(c, s, h, x);
            && r.state == s.(fsm := r.state.fsm, syncFailedCntr := 0) && r.order.None?
            && (s.fsm.StateSyncWait? ==> r.state.fsm.StateSampleCal?)
            && (s.fsm.StateFracSyncWait? ==> r.state.fsm.StateFracSampleCal?)
            && (!Waits(s.fsm) ==> r.state.fsm == s.fsm)
  {
  }

  function After(c: Config, s: State, inputs: seq<Input>): (r: State)
    requires ValidConfig(c) && ValidState(c, s) && ValidInputs(c, inputs)
    ensures ValidState(c, r)
  {
    if inputs == [] then s
    else
      var last := inputs[|inputs| - 1];
      ProcessFrame(c, After(c, s, inputs[..|inputs| - 1]), last.header, last.x).state
  }

  /** Frames with consecutive numbers after the correction, then frames with any other. */
  ghost predicate Consecutive(inputs: seq<Input>, first: int, n: nat) {
    forall i | 0 <= i < |inputs| :: (i < n) == (inputs[i].header.cpiIndex == first + 1 + Min(i, n))
  }

  /** While it waits, the synchronizer changes nothing but the number of the last frame that followed without a gap. */
  lemma {:induction false} WaitFollowsNumbers(c: Config, s: State, inputs: seq<Input>, n: nat)
    requires ValidConfig(c) && ValidState(c, s) && ValidInputs(c, inputs) && Waits(s.fsm) && !s.ended
    requires forall i | 0 <= i < |inputs| :: !IsDummy(inputs[i].header)
    requires Consecutive(inputs, s.lastUpdateInd, n)
    ensures After(c, s, inputs) == s.(lastUpdateInd := s.lastUpdateInd + Min(n, |inputs|))
  {
    if inputs != [] {
      var last := |inputs| - 1;
      assert Consecutive(inputs[..last], s.lastUpdateInd, n);
      WaitFollowsNumbers(c, s, inputs[..last], n);
    }
  }
}
