/**
 * Track loss: the synchronizer's fail counter is the largest surplus of failed over passed checks on
 * any stretch of checked frames that ends now, and track is lost exactly when that surplus reaches the
 * configured limit. Also the order in which calibration states follow one another.
 */
module TrackLoss {
  import opened Common
  import opened IqHeaders
  import opened DelaySync

  // ---- walks ----

  function Sum(w: seq<int>): int {
    if w == [] then 0 else Sum(w[..|w| - 1]) + w[|w| - 1]
  }

  /** `x` is the largest sum of a suffix of `w`; the empty suffix counts. */
  ghost predicate IsMaxSuffix(x: int, w: seq<int>) {
    && (exists i | 0 <= i <= |w| :: Sum(w[i..]) == x)
    && (forall i | 0 <= i <= |w| :: Sum(w[i..]) <= x)
  }

  lemma EmptyWalk()
    ensures IsMaxSuffix(0, [])
  {
    var w: seq<int> := [];
    assert w[0..] == [];
  }

  lemma SuffixSum(w: seq<int>, d: int, i: nat)
    requires i <= |w|
    ensures Sum((w + [d])[i..]) == Sum(w[i..]) + d
  {
    assert (w + [d])[i..] == w[i..] + [d];
    assert (w[i..] + [d])[..|w| - i] == w[i..];
  }

  /** One more step: the largest suffix sum moves by the step but does not fall below zero. */
  lemma WalkStep(w: seq<int>, x: int, d: int)
    requires IsMaxSuffix(x, w)
    ensures IsMaxSuffix(Max(0, x + d), w + [d])
  {
    var w' := w + [d];
    forall i | 0 <= i <= |w'|
      ensures Sum(w'[i..]) <= Max(0, x + d)
    {
      if i <= |w| {
        SuffixSum(w, d, i);
      }
    }
    if x + d >= 0 {
      var i :| 0 <= i <= |w| && Sum(w[i..]) == x;
      SuffixSum(w, d, i);
    } else {
      assert w'[|w'|..] == [];
    }
  }

  lemma MaxSuffixUnique(x: int, y: int, w: seq<int>)
    requires IsMaxSuffix(x, w) && IsMaxSuffix(y, w)
    ensures x == y
  {
  }

  // ---- the checked frames of a run ----

  /** A failed check counts up, a passed one down. */
  function Outcome(c: Config, x: Measured): int {
    if SyncFails(c, x) then 1 else -1
  }

  predicate FrequencyChanged(s: State, h: IqHeader) {
    s.lastRf != h.rfCenterFreq
  }

  /** The outcomes since the last reset once one more frame has come. */
  function Extended(c: Config, s: State, h: IqHeader, x: Measured, w: seq<int>): seq<int>
    requires ValidConfig(c) && ValidState(c, s) && ValidMeasured(c, x)
  {
    if s.ended then w
    else if IsDummy(h) then []
    else if !s.fsm.StateTrack? then w
    else if ProcessFrame(c, s, h, x).state.fsm.StateInit? then []
    else if Tracked(c, h) then w + [Outcome(c, x)]
    else w
  }

  /** The outcomes of the frames checked since the last reset: a dummy frame, a change of frequency, or a loss. */
  function Checked(c: Config, adjust: Vector, inputs: seq<Input>): seq<int>
    requires ValidConfig(c) && ValidInputs(c, inputs) && |adjust| == c.chNum
  {
    if inputs == [] then []
    else
      var before, last := inputs[..|inputs| - 1], inputs[|inputs| - 1];
      Extended(c, Run(c, adjust, before), last.header, last.x, Checked(c, adjust, before))
  }

  ghost predicate CounterInv(c: Config, s: State, w: seq<int>) {
    && IsMaxSuffix(s.syncFailedCntr, w)
    && 0 <= s.syncFailedCntr < c.maxSyncFails
    && (!s.fsm.StateTrack? ==> w == [])
    && (s.ended ==> !s.fsm.StateTrack?)
  }

  // ---- one frame ----

  lemma CountFailIsReflected(c: Config, s: State, x: Measured, w: seq<int>)
    requires ValidConfig(c) && CounterInv(c, s, w) && s.fsm.StateTrack?
    ensures var s' := CountFail(c, s, SyncFails(c, x));
            var up := Max(0, s.syncFailedCntr + Outcome(c, x));
            && IsMaxSuffix(up, w + [Outcome(c, x)]) && s'.ended == s.ended
            && (if up == c.maxSyncFails then s'.fsm.StateInit? && s'.syncFailedCntr == 0
                else s'.fsm.StateTrack? && s'.syncFailedCntr == up && up < c.maxSyncFails)
  {
    WalkStep(w, s.syncFailedCntr, Outcome(c, x));
  }

  /** While tracking: the counter follows the walk, and only the limit or a new frequency ends the track. */
  lemma TrackingFrame(c: Config, s: State, h: IqHeader, x: Measured, w: seq<int>)
    requires ValidConfig(c) && ValidState(c, s) && ValidMeasured(c, x)
    requires s.fsm.StateTrack? && CounterInv(c, s, w)
    ensures var s' := Track(c, s, h, x).0;
            && CounterInv(c, s', if s'.fsm.StateInit? then []
                                 else if Tracked(c, h) then w + [Outcome(c, x)] else w)
            && (s'.fsm.StateInit? <==>
                  || FrequencyChanged(s, h)
                  || (Tracked(c, h) && IsMaxSuffix(c.maxSyncFails, w + [Outcome(c, x)])))
  {
    hide IsMaxSuffix, SyncFails, Outcome, CountFail;
    EmptyWalk();
    var t := if c.enIqCal && !x.driftOk then s.(m := c.chNum - 1) else s;
    CountFailIsReflected(c, t, x, w);
    var up := Max(0, s.syncFailedCntr + Outcome(c, x));
    if IsMaxSuffix(c.maxSyncFails, w + [Outcome(c, x)]) {
      MaxSuffixUnique(c.maxSyncFails, up, w + [Outcome(c, x)]);
    }
  }

  /** Outside tracking the counter rests. */
  lemma OtherFrame(c: Config, s: State, h: IqHeader, x: Measured)
    requires ValidConfig(c) && ValidState(c, s) && ValidMeasured(c, x)
    requires !IsDummy(h) && !s.fsm.StateTrack?
    ensures var s' := ProcessFrame(c, s, h, x).state;
            s'.syncFailedCntr == s.syncFailedCntr && (s'.ended && !s.ended ==> s'.fsm == s.fsm)
  {
    hide ScanFrom, FracOffsets, FracOff, Products, Differences;
  }

  lemma FrameKeepsCounter(c: Config, s: State, h: IqHeader, x: Measured, w: seq<int>)
    requires ValidConfig(c) && ValidState(c, s) && ValidMeasured(c, x) && CounterInv(c, s, w)
    ensures CounterInv(c, ProcessFrame(c, s, h, x).state, Extended(c, s, h, x, w))
  {
    hide IsMaxSuffix, SampleCal, FracSampleCal, IqCal, CountWait, Outcome, Track, Tracked;
    EmptyWalk();
    if s.fsm.StateTrack? {
      TrackingFrame(c, s, h, x, w);
    } else if !IsDummy(h) {
      OtherFrame(c, s, h, x);
    }
  }

  // ---- runs ----

  /** After every frame the counter is the largest suffix sum of the outcomes checked since the last reset. */
  lemma {:induction false} CounterIsReflectedWalk(c: Config, adjust: Vector, inputs: seq<Input>)
    requires ValidConfig(c) && ValidInputs(c, inputs) && |adjust| == c.chNum
    ensures CounterInv(c, Run(c, adjust, inputs), Checked(c, adjust, inputs))
    ensures !Run(c, adjust, inputs).fsm.StateTrack? ==> Run(c, adjust, inputs).syncFailedCntr == 0
  {
    hide IsMaxSuffix, ProcessFrame, Extended;
    EmptyWalk();
    if inputs != [] {
      var before, last := inputs[..|inputs| - 1], inputs[|inputs| - 1];
      CounterIsReflectedWalk(c, adjust, before);
      FrameKeepsCounter(c, Run(c, adjust, before), last.header, last.x, Checked(c, adjust, before));
    }
    if !Run(c, adjust, inputs).fsm.StateTrack? {
      MaxSuffixUnique(Run(c, adjust, inputs).syncFailedCntr, 0, []);
    }
  }

  /**
   * In every run track is lost on a frame exactly when the frequency changed, or the frame was checked
   * and the surplus of failures on some stretch of checked frames that ends with it reached the limit.
   */
  lemma TrackLostExactlyAtLimit(c: Config, adjust: Vector, inputs: seq<Input>, h: IqHeader, x: Measured)
    requires ValidConfig(c) && ValidInputs(c, inputs) && ValidMeasured(c, x) && |adjust| == c.chNum
    requires Run(c, adjust, inputs).fsm.StateTrack? && !IsDummy(h)
    ensures ProcessFrame(c, Run(c, adjust, inputs), h, x).state.fsm.StateInit? <==>
              || FrequencyChanged(Run(c, adjust, inputs), h)
              || (Tracked(c, h) && IsMaxSuffix(c.maxSyncFails, Checked(c, adjust, inputs) + [Outcome(c, x)]))
  {
    hide IsMaxSuffix, Track, Checked, Tracked, Outcome;
    CounterIsReflectedWalk(c, adjust, inputs);
    TrackingFrame(c, Run(c, adjust, inputs), h, x, Checked(c, adjust, inputs));
  }
}
