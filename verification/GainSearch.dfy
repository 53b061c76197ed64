/**
 * What gain tuning finds: on a frame that reports the gains sent, a tuning channel rises by one gain unless it is
 * overdriven, which ends its tuning one gain lower. So tuning ends in every run of such frames, and if each channel
 * is overdriven from some gain on, it ends with the largest gains below that.
 */
module GainSearch {
  import opened Common
  import opened IqHeaders
  import opened HwController
  import opened GainTuning
  import Daq = RtlDaq

  // ---- one frame ----

  /** A frame with samples that reports the gains sent. */
  ghost predicate Reports(c: Config, s: State, h: IqHeader)
    requires ValidConfig(c) && ValidState(c, s)
  {
    !IsDummy(h) && |h.ifGains| == 32 && forall m | 0 <= m < c.chNum :: h.ifGains[m] == VALID_GAINS[s.gains[m]]
  }

  /** Under unified control an overdrive on any channel is one on all. */
  ghost predicate Overdriven(c: Config, h: IqHeader, k: nat) {
    if c.unifiedGainControl then exists j | 0 <= j < c.chNum :: Bit(h.adcOverdriveFlags, j)
    else Bit(h.adcOverdriveFlags, k)
  }

  /** The effect of one tuning call on a channel. */
  ghost predicate Tunes(overdriven: bool, g: nat, t: bool, g': nat, t': bool) {
    && (overdriven && 0 < g ==> g' + 1 == g && !t')
    && (overdriven && g == 0 ==> g' == 0 && !t')
    && (!overdriven && !t ==> g' == g && !t')
    && (!overdriven && t && g < 28 ==> g' == g + 1 && t')
    && (!overdriven && t && 28 <= g ==> g' == g && !t')
  }

  function Lower(g: nat): nat {
    if g == 0 then 0 else g - 1
  }

  ghost predicate AnyBit(flags: nat, m: nat) {
    exists j | 0 <= j < m :: Bit(flags, j)
  }

  lemma AnyBitNext(flags: nat, m: nat)
    ensures AnyBit(flags, m + 1) <==> AnyBit(flags, m) || Bit(flags, m)
  {
    if AnyBit(flags, m) {
      var j :| 0 <= j < m && Bit(flags, j);
      assert 0 <= j < m + 1 && Bit(flags, j);
    }
  }

  /** Unified control, channel by channel, before the gains are unified: all had gain `x` and flag `f`. */
  ghost predicate UpTo(flags: nat, x: nat, f: bool, m: nat, g: seq<nat>, t: seq<bool>) {
    && |g| == |t| && m <= |g|
    && (forall k | 0 <= k < m && Bit(flags, k) :: g[k] == Lower(x))
    && (forall k | 0 <= k < |g| && (m <= k || !Bit(flags, k)) :: x <= g[k] <= x + 1)
    && (forall k | m <= k < |g| :: g[k] == x)
    && (if !f || AnyBit(flags, m) || (x >= MAX_GAIN_INDEX && 0 < m) then t == Repeat(false, |t|)
        else t == Repeat(true, |t|))
    && (!AnyBit(flags, m) ==> forall k | 0 <= k < m :: g[k] == if f && x < MAX_GAIN_INDEX then x + 1 else x)
  }

  lemma {:induction false} UnifiedUpTo(c: Config, flags: nat, g: seq<nat>, t: seq<bool>, m: nat, x: nat, f: bool)
    requires ValidGainList(c, g) && |t| == c.chNum && m <= c.chNum && c.unifiedGainControl
    requires g == Repeat(x, c.chNum) && t == Repeat(f, c.chNum) && x <= MAX_GAIN_INDEX
    ensures var (g', t') := TuneUpTo(c, flags, g, t, m);
            UpTo(flags, x, f, m, g', t')
  {
    if m != 0 {
      UnifiedUpTo(c, flags, g, t, m - 1, x, f);
      UnifiedNext(c, flags, TuneUpTo(c, flags, g, t, m - 1).0, TuneUpTo(c, flags, g, t, m - 1).1, m - 1, x, f);
    }
  }

  lemma UnifiedNext(c: Config, flags: nat, g: seq<nat>, t: seq<bool>, m: nat, x: nat, f: bool)
    requires ValidGainList(c, g) && |t| == c.chNum && m < c.chNum && c.unifiedGainControl && x <= MAX_GAIN_INDEX
    requires UpTo(flags, x, f, m, g, t)
    ensures var (g', t') := TuneOne(c, flags, g, t, m);
            UpTo(flags, x, f, m + 1, g', t')
  {
    AnyBitNext(flags, m);
    var (g', t') := TuneOne(c, flags, g, t, m);
    hide Bit, AnyBit;
    assert t[m := false] == t || t[m];
  }

  lemma UnifiedTunes(c: Config, s: State, h: IqHeader, g: seq<nat>, k: nat)
    requires ValidConfig(c) && ValidState(c, s) && c.unifiedGainControl && k < c.chNum
    requires Uniform(c, s.gains, s.gainTuneStates)
    requires g == Unify(c, TuneUpTo(c, h.adcOverdriveFlags, s.gains, s.gainTuneStates, c.chNum).0)
    ensures Tunes(Overdriven(c, h, k), s.gains[k], s.gainTuneStates[k], g[k],
                  TuneUpTo(c, h.adcOverdriveFlags, s.gains, s.gainTuneStates, c.chNum).1[k])
  {
    hide TuneUpTo, Unify, Bit;
    var flags := h.adcOverdriveFlags;
    var (up, t) := TuneUpTo(c, flags, s.gains, s.gainTuneStates, c.chNum);
    var x, f := s.gains[0], s.gainTuneStates[0];
    assert s.gains == Repeat(x, c.chNum) && s.gainTuneStates == Repeat(f, c.chNum);
    UnifiedUpTo(c, flags, s.gains, s.gainTuneStates, c.chNum, x, f);
    UnifyIsUniform(c, up);
    assert g[k] == g[0];
    if AnyBit(flags, c.chNum) {
      var j :| 0 <= j < c.chNum && Bit(flags, j);
      assert up[j] == Lower(x) && g[0] <= up[j];
    }
  }

  lemma SeparateTunes(c: Config, s: State, h: IqHeader, k: nat)
    requires ValidConfig(c) && ValidState(c, s) && !c.unifiedGainControl && k < c.chNum
    ensures var (g, t) := TuneUpTo(c, h.adcOverdriveFlags, s.gains, s.gainTuneStates, c.chNum);
            Tunes(Overdriven(c, h, k), s.gains[k], s.gainTuneStates[k], g[k], t[k])
  {
    hide TuneUpTo, Bit;
    SeparateChannels(c, h.adcOverdriveFlags, s.gains, s.gainTuneStates, c.chNum);
  }

  /** The controller tunes on this frame: one is overdriven, or a channel is still tuning. */
  ghost predicate IsTuned(s: State, h: IqHeader) {
    s.fsm.StateGainTune? && (h.adcOverdriveFlags != 0 || true in s.gainTuneStates)
  }

  /**
   * On a frame that reports the gains sent, a tuning channel rises by exactly one gain, or stops at the highest; an
   * overdriven one falls by one, if it can, and stops; the new gains are sent and waited for.
   */
  lemma FrameTunes(c: Config, s: State, x: Input, k: nat)
    requires ValidConfig(c) && ValidState(c, s) && ValidRequest(c, x.request) && Reports(c, s, x.header)
    requires IsTuned(s, x.header) && Uniform(c, s.gains, s.gainTuneStates) && k < c.chNum
    ensures var (s', cmds) := ProcessFrame(c, s, x.header, x.approval, x.request);
            && Tunes(Overdriven(c, x.header, k), s.gains[k], s.gainTuneStates[k], s'.gains[k], s'.gainTuneStates[k])
            && Uniform(c, s'.gains, s'.gainTuneStates)
            && |cmds| == 1 && cmds[0].SetGains? && |cmds[0].gains| == c.chNum
            && cmds[0].gains[k] == VALID_GAINS[s'.gains[k]]
            && s' == s.(gains := s'.gains, gainTuneStates := s'.gainTuneStates, fsm := StateGainCtrWait,
                        gainLockCntr := 0)
  {
    hide TuneUpTo, Bit, Tunes, Overdriven, Uniform;
    TuneLowersPotential(c, s, x.header);
    var (g, t) := TuneUpTo(c, x.header.adcOverdriveFlags, s.gains, s.gainTuneStates, c.chNum);
    if c.unifiedGainControl {
      UnifiedTunes(c, s, x.header, Unify(c, g), k);
    } else {
      SeparateTunes(c, s, x.header, k);
    }
  }

  /** A frame that does not report the gains sent changes none, and is waited past. */
  lemma UnreportedIsSkipped(c: Config, s: State, x: Input)
    requires ValidConfig(c) && ValidState(c, s) && ValidRequest(c, x.request) && |x.header.ifGains| == 32
    requires !IsDummy(x.header) && !Reports(c, s, x.header) && (IsTuned(s, x.header) || s.fsm.StateGainCtrWait?)
    ensures ProcessFrame(c, s, x.header, x.approval, x.request) ==
            (s.(fsm := StateGainCtrWait, gainLockCntr := if s.fsm.StateGainTune? then 0 else s.gainLockCntr), [])
  {
    hide TuneUpTo, IqCal;
  }

  // ---- the potential falls strictly ----

  lemma TunesLowers(overdriven: bool, g: nat, t: bool, g': nat, t': bool)
    requires Tunes(overdriven, g, t, g', t') && g <= MAX_GAIN_INDEX
    ensures Cost(g', t') <= Cost(g, t)
    ensures t || (overdriven && 0 < g) ==> Cost(g', t') < Cost(g, t)
    ensures t' ==> t
  {
  }

  /** A channel that tunes, or is overdriven above the lowest gain, lowers the potential on every tuning frame. */
  lemma FrameLowers(c: Config, s: State, x: Input)
    requires ValidConfig(c) && ValidState(c, s) && ValidRequest(c, x.request) && Reports(c, s, x.header)
    requires IsTuned(s, x.header) && Uniform(c, s.gains, s.gainTuneStates)
    requires exists k | 0 <= k < c.chNum ::
               s.gainTuneStates[k] || (Overdriven(c, x.header, k) && 0 < s.gains[k])
    ensures var s' := Handled(c, s, x);
            Potential(s'.gains, s'.gainTuneStates, c.chNum) < Potential(s.gains, s.gainTuneStates, c.chNum)
  {
    hide Tunes, Overdriven, ProcessFrame, Potential, Uniform, Cost;
    var s' := Handled(c, s, x);
    forall k | 0 <= k < c.chNum
      ensures Cost(s'.gains[k], s'.gainTuneStates[k]) <= Cost(s.gains[k], s.gainTuneStates[k])
      ensures s.gainTuneStates[k] || (Overdriven(c, x.header, k) && 0 < s.gains[k]) ==>
                Cost(s'.gains[k], s'.gainTuneStates[k]) < Cost(s.gains[k], s.gainTuneStates[k])
    {
      FrameTunes(c, s, x, k);
      TunesLowers(Overdriven(c, x.header, k), s.gains[k], s.gainTuneStates[k], s'.gains[k], s'.gainTuneStates[k]);
    }
    var k :| 0 <= k < c.chNum && (s.gainTuneStates[k] || (Overdriven(c, x.header, k) && 0 < s.gains[k]));
    CostsLower(s.gains, s.gainTuneStates, s'.gains, s'.gainTuneStates, c.chNum, k);
  }

  lemma {:induction false} CostsLower(g: seq<nat>, t: seq<bool>, g': seq<nat>, t': seq<bool>, n: nat, k: nat)
    requires n <= |g| == |t| == |g'| == |t'|
    requires forall i | 0 <= i < n :: Cost(g'[i], t'[i]) <= Cost(g[i], t[i])
    requires k < n ==> Cost(g'[k], t'[k]) < Cost(g[k], t[k])
    ensures Potential(g', t', n) <= Potential(g, t, n)
    ensures k < n ==> Potential(g', t', n) < Potential(g, t, n)
  {
    hide Cost;
    if n != 0 {
      CostsLower(g, t, g', t', n - 1, k);
    }
  }

  // ---- tuning ends ----

  /** While the controller tunes or waits for gains, frames report them. */
  ghost predicate Heard(c: Config, s: State, x: Input)
    requires ValidConfig(c) && ValidState(c, s)
  {
    && !IsDummy(x.header) && |x.header.ifGains| == 32 && ValidRequest(c, x.request)
    && (s.fsm.StateGainCtrWait? || s.fsm.StateGainTune? ==> Reports(c, s, x.header))
  }

  ghost predicate AllHeard(c: Config, s: State, inputs: seq<Input>)
    requires ValidConfig(c) && ValidState(c, s) && ValidInputs(c, inputs)
    decreases |inputs|
  {
    inputs != [] ==> Heard(c, s, inputs[0]) && AllHeard(c, Handled(c, s, inputs[0]), inputs[1..])
  }

  /** Frames that tuning can still take until no channel tunes, at most. */
  function Left(c: Config, s: State): int
    requires ValidState(c, s)
  {
    if s.fsm.StateInit? then 2 * Times(c.chNum, 58) + 2
    else 2 * Potential(s.gains, s.gainTuneStates, c.chNum) + if s.fsm.StateGainCtrWait? then 1 else 0
  }

  lemma InitialGains(c: Config, s: State, x: Input)
    requires ValidConfig(c) && ValidState(c, s) && s.fsm.StateInit? && Heard(c, s, x)
    ensures var (s', cmds) := ProcessFrame(c, s, x.header, x.approval, x.request);
            && s' == s.(gains := Unify(c, s.gains),
                        fsm := if true in s.gainTuneStates then StateGainCtrWait else StateIqCal)
            && |cmds| == 2 && cmds[1] == Daq.SwitchNoise(false) && cmds[0].SetGains? && |cmds[0].gains| == c.chNum
            && forall m | 0 <= m < c.chNum :: cmds[0].gains[m] == VALID_GAINS[s'.gains[m]]
  {
    hide Unify;
  }

  lemma WaitIsOver(c: Config, s: State, x: Input)
    requires ValidConfig(c) && ValidState(c, s) && s.fsm.StateGainCtrWait? && Heard(c, s, x)
    ensures ProcessFrame(c, s, x.header, x.approval, x.request) == (s.(fsm := StateGainTune), [])
  {
    hide IqCal;
  }

  lemma CleanIsCounted(c: Config, s: State, x: Input)
    requires ValidConfig(c) && ValidState(c, s) && s.fsm.StateGainTune? && Heard(c, s, x) && !IsTuned(s, x.header)
    ensures ProcessFrame(c, s, x.header, x.approval, x.request) ==
            (if s.gainLockCntr == c.gainLockInterval then s.(fsm := StateIqCal, gainLockCntr := 0)
             else s.(gainLockCntr := s.gainLockCntr + 1), [])
  {
    hide IqCal, TuneGains;
  }

  /** Each frame that is heard brings the tuning of some channel nearer to its end. */
  lemma FrameSpendsOne(c: Config, s: State, x: Input)
    requires ValidConfig(c) && ValidState(c, s) && TuningInv(c, s) && Tuning(s) && Heard(c, s, x)
    requires true in s.gainTuneStates
    ensures var s' := Handled(c, s, x);
            Tuning(s') && !s'.fsm.StateInit? && Left(c, s') < Left(c, s)
  {
    hide ProcessFrame, Uniform, Potential, TuneUpTo, Unify, Tunes, Overdriven, Reports;
    var s' := Handled(c, s, x);
    match s.fsm {
      case StateInit =>
        InitialGains(c, s, x);
        PotentialBounds(c, s'.gains, s'.gainTuneStates, c.chNum);
      case StateGainCtrWait =>
        WaitIsOver(c, s, x);
      case StateGainTune =>
        var k :| 0 <= k < |s.gainTuneStates| && s.gainTuneStates[k];
        FrameTunes(c, s, x, k);
        FrameLowers(c, s, x);
    }
  }

  /** A channel that has stopped tuning never tunes again. */
  lemma NeverTunesAgain(c: Config, s: State, x: Input)
    requires ValidConfig(c) && ValidState(c, s) && |x.header.ifGains| == 32 && ValidRequest(c, x.request)
    requires true !in s.gainTuneStates
    ensures true !in Handled(c, s, x).gainTuneStates
  {
    hide IqCal, TuneUpTo, Unify, GainValues, GainsMatch;
    if s.fsm.StateGainTune? {
      NoFlags(c, x.header.adcOverdriveFlags, s.gains, s.gainTuneStates, c.chNum);
    } else if s.fsm.StateIqCal? {
      CalibrationKeepsFlags(c, s, x);
    }
  }

  lemma SwitchesKeepFlags(c: Config, s: State, h: IqHeader, approval: bool)
    requires ValidConfig(c) && ValidState(c, s)
    ensures FollowSync(c, s, h, approval).0.gainTuneStates == s.gainTuneStates
    ensures Burst(c, s, h).0.gainTuneStates == s.gainTuneStates
  {
    hide Unify, GainValues, CalGain;
  }

  lemma CalibrationKeepsFlags(c: Config, s: State, x: Input)
    requires ValidConfig(c) && ValidState(c, s) && ValidRequest(c, x.request)
    ensures IqCal(c, s, x.header, x.approval, x.request).0.gainTuneStates == s.gainTuneStates
  {
    hide Unify, GainValues, Overwrite, FollowSync, Burst;
    SwitchesKeepFlags(c, s, x.header, x.approval);
    SwitchesKeepFlags(c, FollowSync(c, s, x.header, x.approval).0, x.header, x.approval);
  }

  lemma {:induction false} FlagsStayClear(c: Config, s: State, inputs: seq<Input>)
    requires ValidConfig(c) && ValidState(c, s) && ValidInputs(c, inputs) && true !in s.gainTuneStates
    ensures true !in Along(c, s, inputs).gainTuneStates
    decreases |inputs|
  {
    hide Handled;
    if inputs != [] {
      NeverTunesAgain(c, s, inputs[0]);
      FlagsStayClear(c, Handled(c, s, inputs[0]), inputs[1..]);
    }
  }

  lemma {:induction false} FlagsClear(c: Config, s: State, inputs: seq<Input>)
    requires ValidConfig(c) && ValidState(c, s) && ValidInputs(c, inputs) && TuningInv(c, s) && Tuning(s)
    requires AllHeard(c, s, inputs) && Left(c, s) < |inputs|
    ensures true !in Along(c, s, inputs).gainTuneStates
    decreases |inputs|
  {
    hide Handled, TuningInv, Heard, Left;
    if true !in s.gainTuneStates {
      FlagsStayClear(c, s, inputs);
    } else {
      LeftIsNatural(c, s);
      FrameSpendsOne(c, s, inputs[0]);
      InvIsKept(c, s, inputs[0]);
      FlagsClear(c, Handled(c, s, inputs[0]), inputs[1..]);
    }
  }

  lemma InvIsKept(c: Config, s: State, x: Input)
    requires ValidConfig(c) && ValidState(c, s) && TuningInv(c, s) && Heard(c, s, x)
    ensures TuningInv(c, Handled(c, s, x))
  {
    hide TuningInv, ProcessFrame;
    FrameKeepsUniform(c, s, x.header, x.approval, x.request);
  }

  lemma LeftIsNatural(c: Config, s: State)
    requires ValidConfig(c) && ValidState(c, s)
    ensures 0 <= Left(c, s)
  {
    PotentialBounds(c, s.gains, s.gainTuneStates, c.chNum);
  }

  lemma StartLeft(c: Config, s: State)
    requires ValidState(c, s) && s.fsm.StateInit?
    ensures Left(c, s) == 116 * c.chNum + 2
  {
    TimesIsProduct(c.chNum, 58);
  }

  /**
   * From the start of the controller on, whatever overdrives they report: after 116 frames per channel and two
   * more that report the gains sent, no channel is tuning any longer.
   */
  lemma TuningStops(c: Config, s: State, tune: bool, inputs: seq<Input>)
    requires ValidConfig(c) && ValidState(c, s) && ValidInputs(c, inputs) && AllHeard(c, s, inputs)
    requires s.fsm.StateInit? && s.gainTuneStates == Repeat(tune, c.chNum)
    requires 116 * c.chNum + 2 < |inputs|
    ensures true !in Along(c, s, inputs).gainTuneStates
  {
    hide Along, AllHeard, TuningInv, Left;
    InitiallyUniform(c, s, tune);
    StartLeft(c, s);
    FlagsClear(c, s, inputs);
  }

  // ---- what tuning finds ----

  /** Each channel is overdriven from some gain above the lowest on, or never. */
  ghost predicate ValidLimits(c: Config, limits: seq<nat>) {
    |limits| == c.chNum && forall k | 0 <= k < c.chNum :: 1 <= limits[k] <= 29
  }

  /** The header's overdrive flags tell which channels are at their limit. */
  ghost predicate Flagged(c: Config, limits: seq<nat>, s: State, h: IqHeader)
    requires ValidState(c, s) && ValidLimits(c, limits)
  {
    && (forall k | 0 <= k < c.chNum :: Bit(h.adcOverdriveFlags, k) <==> limits[k] <= s.gains[k])
    && (!AnyBit(h.adcOverdriveFlags, c.chNum) ==> h.adcOverdriveFlags == 0)
  }

  ghost predicate AllFlagged(c: Config, limits: seq<nat>, s: State, inputs: seq<Input>)
    requires ValidConfig(c) && ValidState(c, s) && ValidInputs(c, inputs) && ValidLimits(c, limits)
    decreases |inputs|
  {
    inputs != [] ==> Flagged(c, limits, s, inputs[0].header)
                     && AllFlagged(c, limits, Handled(c, s, inputs[0]), inputs[1..])
  }

  /** The limit that counts for a channel: under unified control the smallest. */
  function Limit(c: Config, limits: seq<nat>, k: nat): (n: nat)
    requires ValidConfig(c) && ValidLimits(c, limits) && k < c.chNum
    ensures 1 <= n <= 29
  {
    if c.unifiedGainControl then MinOf(limits) else limits[k]
  }

  lemma OverdrivenAtLimit(c: Config, limits: seq<nat>, s: State, h: IqHeader, k: nat)
    requires ValidConfig(c) && ValidState(c, s) && ValidLimits(c, limits) && Flagged(c, limits, s, h) && k < c.chNum
    requires Uniform(c, s.gains, s.gainTuneStates)
    ensures Overdriven(c, h, k) <==> Limit(c, limits, k) <= s.gains[k]
  {
    hide Bit;
    if c.unifiedGainControl {
      var least := MinOf(limits);
      var i :| 0 <= i < |limits| && limits[i] == least;
      assert s.gains[i] == s.gains[k];
      assert least <= s.gains[k] ==> Bit(h.adcOverdriveFlags, i);
      if Overdriven(c, h, k) {
        var j :| 0 <= j < c.chNum && Bit(h.adcOverdriveFlags, j);
        assert s.gains[j] == s.gains[k] && least <= limits[j];
      }
    }
  }

  /** A channel that has stopped tuning stands at its limit less one, or still above. */
  ghost predicate Searching(c: Config, limits: seq<nat>, s: State)
    requires ValidConfig(c) && ValidState(c, s) && ValidLimits(c, limits)
  {
    && (s.fsm.StateGainCtrWait? || s.fsm.StateGainTune?) && Uniform(c, s.gains, s.gainTuneStates)
    && s.gainLockCntr <= c.gainLockInterval && (s.fsm.StateGainCtrWait? ==> s.gainLockCntr == 0)
    && forall k | 0 <= k < c.chNum && !s.gainTuneStates[k] :: Limit(c, limits, k) <= s.gains[k] + 1
  }

  /** The largest gains that no channel is overdriven at. */
  ghost predicate Found(c: Config, limits: seq<nat>, s: State)
    requires ValidConfig(c) && ValidState(c, s) && ValidLimits(c, limits)
  {
    forall k | 0 <= k < c.chNum :: s.gains[k] + 1 == Limit(c, limits, k)
  }

  /** What is left of the search, in frames: two for each change that can come, and the clean frames after each. */
  function Effort(c: Config, s: State): int
    requires ValidState(c, s)
  {
    (2 * Potential(s.gains, s.gainTuneStates, c.chNum) + if s.fsm.StateGainCtrWait? then 1 else 0)
      * (c.gainLockInterval + 2) + c.gainLockInterval + 1 - s.gainLockCntr
  }

  lemma TunesTowardsLimit(limit: nat, g: nat, t: bool, g': nat, t': bool)
    requires Tunes(limit <= g, g, t, g', t') && 1 <= limit <= 29 && g <= MAX_GAIN_INDEX
    requires !t ==> limit <= g + 1
    ensures !t' ==> limit <= g' + 1
  {
  }

  /** A tuning frame keeps the search going and takes away two frames of effort at least. */
  lemma TunedFrameSearches(c: Config, limits: seq<nat>, s: State, x: Input)
    requires ValidConfig(c) && ValidState(c, s) && ValidLimits(c, limits) && Searching(c, limits, s)
    requires Heard(c, s, x) && Flagged(c, limits, s, x.header) && IsTuned(s, x.header)
    ensures Searching(c, limits, Handled(c, s, x))
    ensures Effort(c, Handled(c, s, x)) < Effort(c, s)
  {
    hide ProcessFrame, Uniform, Potential, Tunes, Overdriven, Reports, Limit, Bit, Flagged;
    var s' := Handled(c, s, x);
    forall k | 0 <= k < c.chNum
      ensures !s'.gainTuneStates[k] ==> Limit(c, limits, k) <= s'.gains[k] + 1
    {
      OverdrivenAtLimit(c, limits, s, x.header, k);
      FrameTunes(c, s, x, k);
      TunesTowardsLimit(Limit(c, limits, k), s.gains[k], s.gainTuneStates[k], s'.gains[k], s'.gainTuneStates[k]);
    }
    FrameTunes(c, s, x, 0);
    SomethingToTune(c, limits, s, x.header);
    FrameLowers(c, s, x);
    EffortFalls(Potential(s.gains, s.gainTuneStates, c.chNum), Potential(s'.gains, s'.gainTuneStates, c.chNum),
                c.gainLockInterval + 2);
  }

  lemma SomethingToTune(c: Config, limits: seq<nat>, s: State, h: IqHeader)
    requires ValidConfig(c) && ValidState(c, s) && ValidLimits(c, limits) && Flagged(c, limits, s, h)
    requires IsTuned(s, h)
    ensures exists k | 0 <= k < c.chNum :: s.gainTuneStates[k] || (Overdriven(c, h, k) && 0 < s.gains[k])
  {
    hide Bit;
    if true in s.gainTuneStates {
      var k :| 0 <= k < |s.gainTuneStates| && s.gainTuneStates[k];
    } else {
      var j :| 0 <= j < c.chNum && Bit(h.adcOverdriveFlags, j);
      assert Overdriven(c, h, j) && 0 < s.gains[j];
    }
  }

  lemma EffortFalls(p: int, p': int, x: nat)
    requires p' < p
    ensures (2 * p' + 1) * x + x <= 2 * p * x
  {
    MulLe(2 * p' + 2, 2 * p, x);
    assert (2 * p' + 2) * x == (2 * p' + 1) * x + x;
  }

  /** One frame of the search: it goes on with less effort left, or has found the largest gains. */
  lemma FrameSearches(c: Config, limits: seq<nat>, s: State, x: Input)
    requires ValidConfig(c) && ValidState(c, s) && ValidLimits(c, limits) && Searching(c, limits, s)
    requires Heard(c, s, x) && Flagged(c, limits, s, x.header)
    ensures var s' := Handled(c, s, x);
            if Tuning(s') then Searching(c, limits, s') && Effort(c, s') < Effort(c, s)
            else s'.fsm.StateIqCal? && Found(c, limits, s')
  {
    hide ProcessFrame, Uniform, Potential, Limit, Bit, Reports, Overdriven;
    if s.fsm.StateGainCtrWait? {
      WaitIsOver(c, s, x);
      var p := 2 * Potential(s.gains, s.gainTuneStates, c.chNum);
      assert (p + 1) * (c.gainLockInterval + 2) == p * (c.gainLockInterval + 2) + c.gainLockInterval + 2;
    } else if IsTuned(s, x.header) {
      TunedFrameSearches(c, limits, s, x);
    } else {
      CleanIsCounted(c, s, x);
      if s.gainLockCntr == c.gainLockInterval {
        CleanMeansFound(c, limits, s, x.header);
      }
    }
  }

  lemma CleanMeansFound(c: Config, limits: seq<nat>, s: State, h: IqHeader)
    requires ValidConfig(c) && ValidState(c, s) && ValidLimits(c, limits) && Searching(c, limits, s)
    requires s.fsm.StateGainTune? && Flagged(c, limits, s, h) && !IsTuned(s, h)
    ensures Found(c, limits, s)
  {
    hide Bit, Limit, Uniform;
    assert !AnyBit(h.adcOverdriveFlags, c.chNum) by { NoBits(c.chNum); }
    forall k | 0 <= k < c.chNum
      ensures s.gains[k] + 1 == Limit(c, limits, k)
    {
      OverdrivenAtLimit(c, limits, s, h, k);
      assert !s.gainTuneStates[k];
    }
  }

  lemma {:induction false} ZeroHasNoBit(k: nat)
    ensures !Bit(0, k)
  {
    if k != 0 {
      ZeroHasNoBit(k - 1);
    }
  }

  lemma NoBits(n: nat)
    ensures !AnyBit(0, n)
  {
    forall j | 0 <= j < n
      ensures !Bit(0, j)
    {
      ZeroHasNoBit(j);
    }
  }

  /** Somewhere along the run the phase ends with the largest gains that no channel is overdriven at. */
  ghost predicate EndsFound(c: Config, limits: seq<nat>, s: State, inputs: seq<Input>)
    requires ValidConfig(c) && ValidState(c, s) && ValidInputs(c, inputs) && ValidLimits(c, limits)
    decreases |inputs|
  {
    && inputs != []
    && var s' := Handled(c, s, inputs[0]);
       if Tuning(s') then EndsFound(c, limits, s', inputs[1..]) else s'.fsm.StateIqCal? && Found(c, limits, s')
  }

  lemma {:induction false} SearchEnds(c: Config, limits: seq<nat>, s: State, inputs: seq<Input>)
    requires ValidConfig(c) && ValidState(c, s) && ValidInputs(c, inputs) && ValidLimits(c, limits)
    requires Searching(c, limits, s) && AllHeard(c, s, inputs) && AllFlagged(c, limits, s, inputs)
    requires Effort(c, s) <= |inputs|
    ensures EndsFound(c, limits, s, inputs)
    decreases |inputs|
  {
    hide Handled, Searching, Heard, Flagged, Found, Effort;
    EffortIsPositive(c, limits, s);
    FrameSearches(c, limits, s, inputs[0]);
    if Tuning(Handled(c, s, inputs[0])) {
      SearchEnds(c, limits, Handled(c, s, inputs[0]), inputs[1..]);
    }
  }

  lemma EffortIsPositive(c: Config, limits: seq<nat>, s: State)
    requires ValidConfig(c) && ValidState(c, s) && ValidLimits(c, limits) && Searching(c, limits, s)
    ensures 1 <= Effort(c, s)
  {
    hide Uniform, Limit;
    PotentialBounds(c, s.gains, s.gainTuneStates, c.chNum);
    var p := 2 * Potential(s.gains, s.gainTuneStates, c.chNum) + if s.fsm.StateGainCtrWait? then 1 else 0;
    MulLe(0, p, c.gainLockInterval + 2);
  }

  /** Frames that suffice for the search on any number of channels, whatever the limits are. */
  function Bound(c: Config): nat {
    (116 * c.chNum + 2) * (c.gainLockInterval + 2)
  }

  lemma BoundIsPositive(c: Config)
    ensures 0 < Bound(c)
  {
    MulGe(116 * c.chNum + 2, c.gainLockInterval + 2);
  }

  /**
   * Gain tuning does what it is for: if every channel is overdriven from some gain above the lowest on, then in
   * every run of frames that report the gains sent the phase ends, and it ends with the largest gains at which no
   * channel is overdriven: each channel's own, or the smallest of all under unified control.
   */
  lemma TuningFindsLargestGains(c: Config, limits: seq<nat>, s: State, inputs: seq<Input>)
    requires ValidConfig(c) && ValidState(c, s) && ValidInputs(c, inputs) && ValidLimits(c, limits)
    requires s.fsm.StateInit? && s.gainTuneStates == Repeat(true, c.chNum) && s.gainLockCntr == 0
    requires AllHeard(c, s, inputs) && AllFlagged(c, limits, s, inputs)
    requires Bound(c) <= |inputs|
    ensures EndsFound(c, limits, s, inputs)
  {
    hide Handled, Searching, EndsFound, Heard, Flagged, Effort, Tuning, Bound;
    BoundIsPositive(c);
    EffortIsBounded(c, limits, s, inputs[0]);
    StartsSearch(c, limits, s, inputs[0]);
    SearchEnds(c, limits, Handled(c, s, inputs[0]), inputs[1..]);
    EndsLater(c, limits, s, inputs);
  }

  lemma EffortIsBounded(c: Config, limits: seq<nat>, s: State, x: Input)
    requires ValidConfig(c) && ValidState(c, s) && ValidLimits(c, limits) && Heard(c, s, x)
    requires s.fsm.StateInit? && s.gainTuneStates == Repeat(true, c.chNum) && s.gainLockCntr == 0
    ensures Tuning(Handled(c, s, x))
    ensures Effort(c, Handled(c, s, x)) < Bound(c)
  {
    hide ProcessFrame, Searching, Potential, Reports;
    StartsSearch(c, limits, s, x);
    WaitsFirst(c, limits, Handled(c, s, x));
    var s' := Handled(c, s, x);
    PotentialBounds(c, s'.gains, s'.gainTuneStates, c.chNum);
    TimesIsProduct(c.chNum, 58);
    var p := 2 * Potential(s'.gains, s'.gainTuneStates, c.chNum) + 1;
    MulLe(p, 116 * c.chNum + 1, c.gainLockInterval + 2);
    assert (116 * c.chNum + 2) * (c.gainLockInterval + 2) ==
           (116 * c.chNum + 1) * (c.gainLockInterval + 2) + (c.gainLockInterval + 2);
  }

  lemma WaitsFirst(c: Config, limits: seq<nat>, s: State)
    requires ValidConfig(c) && ValidState(c, s) && ValidLimits(c, limits) && Searching(c, limits, s)
    ensures s.fsm.StateGainCtrWait? ==> s.gainLockCntr == 0
  {
  }

  lemma EndsLater(c: Config, limits: seq<nat>, s: State, inputs: seq<Input>)
    requires ValidConfig(c) && ValidState(c, s) && ValidInputs(c, inputs) && ValidLimits(c, limits) && inputs != []
    requires Tuning(Handled(c, s, inputs[0])) && EndsFound(c, limits, Handled(c, s, inputs[0]), inputs[1..])
    ensures EndsFound(c, limits, s, inputs)
  {
    hide Handled, Found;
  }

  lemma StartsSearch(c: Config, limits: seq<nat>, s: State, x: Input)
    requires ValidConfig(c) && ValidState(c, s) && ValidLimits(c, limits) && Heard(c, s, x)
    requires s.fsm.StateInit? && s.gainTuneStates == Repeat(true, c.chNum) && s.gainLockCntr == 0
    ensures var s' := Handled(c, s, x);
            Searching(c, limits, s') && s'.fsm.StateGainCtrWait?
  {
    hide ProcessFrame, Unify;
    InitialGains(c, s, x);
    assert s.gainTuneStates[0];
    if c.unifiedGainControl {
      UnifyIsUniform(c, s.gains);
    }
  }
}
