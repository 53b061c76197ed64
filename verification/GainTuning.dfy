/**
 * Gain tuning over runs of the controller: every call that changes the gains or the tuning flags lowers a
 * potential, in per-channel and in unified mode, so only so many frames change them; a channel that has
 * stopped tuning never gains again; and the phase ends exactly when enough frames in a row are clean, which
 * an overdrive that persists at the lowest gain prevents for ever.
 */
module GainTuning {
  import opened Common
  import opened IqHeaders
  import opened HwController

  /** What one channel can still cost: a channel that is tuning can go up to the top and all the way down. */
  function Cost(g: nat, tuning: bool): int {
    if tuning then 58 - g else g
  }

  /** The potential of the first `n` channels. */
  function Potential(g: seq<nat>, t: seq<bool>, n: nat): int
    requires n <= |g| == |t|
  {
    if n == 0 then 0 else Potential(g, t, n - 1) + Cost(g[n - 1], t[n - 1])
  }

  /** Under unified control the gains of all channels are equal, and so are their flags. */
  ghost predicate Uniform(c: Config, g: seq<nat>, t: seq<bool>) {
    c.unifiedGainControl ==>
      && (forall i, j | 0 <= i < |g| && 0 <= j < |g| :: g[i] == g[j])
      && (forall i, j | 0 <= i < |t| && 0 <= j < |t| :: t[i] == t[j])
  }

  lemma {:induction false} PotentialBounds(c: Config, g: seq<nat>, t: seq<bool>, n: nat)
    requires ValidGainList(c, g) && |t| == c.chNum && n <= c.chNum
    ensures 0 <= Potential(g, t, n) <= Times(n, 58)
  {
    if n != 0 {
      PotentialBounds(c, g, t, n - 1);
    }
  }

  // ---- per-channel control ----

  /** The effect of one call on a channel of its own. */
  function Single(overdriven: bool, g: nat, t: bool): (nat, bool) {
    if overdriven then (if g != 0 then g - 1 else g, false)
    else if !t then (g, t)
    else if g < MAX_GAIN_INDEX then (g + 1, t)
    else (g, false)
  }

  lemma SingleLowersCost(overdriven: bool, g: nat, t: bool)
    requires g <= MAX_GAIN_INDEX
    ensures var (g', t') := Single(overdriven, g, t);
            Cost(g', t') <= Cost(g, t) && ((g', t') != (g, t) ==> Cost(g', t') < Cost(g, t))
  {
  }

  /** Without unified control the channels are tuned independently. */
  lemma {:induction false} SeparateChannels(c: Config, flags: nat, g: seq<nat>, t: seq<bool>, m: nat)
    requires ValidGainList(c, g) && |t| == c.chNum && m <= c.chNum && !c.unifiedGainControl
    ensures var (g', t') := TuneUpTo(c, flags, g, t, m);
            forall k | 0 <= k < c.chNum ::
              (g'[k], t'[k]) == if k < m then Single(Bit(flags, k), g[k], t[k]) else (g[k], t[k])
  {
    if m != 0 {
      SeparateChannels(c, flags, g, t, m - 1);
    }
  }

  lemma {:induction false} SeparateLowers(c: Config, g: seq<nat>, t: seq<bool>, g': seq<nat>, t': seq<bool>, n: nat)
    requires ValidGainList(c, g) && |t| == |g'| == |t'| == c.chNum && n <= c.chNum
    requires forall k | 0 <= k < c.chNum :: Cost(g'[k], t'[k]) <= Cost(g[k], t[k])
    requires forall k | 0 <= k < c.chNum :: (g'[k], t'[k]) != (g[k], t[k]) ==> Cost(g'[k], t'[k]) < Cost(g[k], t[k])
    ensures Potential(g', t', n) <= Potential(g, t, n)
    ensures (exists k | 0 <= k < n :: (g'[k], t'[k]) != (g[k], t[k])) ==>
              Potential(g', t', n) < Potential(g, t, n)
  {
    if n != 0 {
      SeparateLowers(c, g, t, g', t', n - 1);
    }
  }

  // ---- unified control ----

  /** No flag set: every channel stays or goes one down. */
  lemma {:induction false} UnifiedSettled(c: Config, flags: nat, g: seq<nat>, t: seq<bool>, m: nat)
    requires ValidGainList(c, g) && |t| == c.chNum && m <= c.chNum && c.unifiedGainControl
    requires t == Repeat(false, c.chNum)
    ensures var (g', t') := TuneUpTo(c, flags, g, t, m);
            t' == t && forall k | 0 <= k < c.chNum :: g'[k] <= g[k]
  {
    if m != 0 {
      UnifiedSettled(c, flags, g, t, m - 1);
      assert t[m - 1 := false] == t;
    }
  }

  /** All flags set: they stay set and the tuned channels go up, or they are all cleared. */
  lemma {:induction false} UnifiedTuning(c: Config, flags: nat, g: seq<nat>, t: seq<bool>, m: nat)
    requires ValidGainList(c, g) && |t| == c.chNum && m <= c.chNum && c.unifiedGainControl
    requires t == Repeat(true, c.chNum)
    ensures var (g', t') := TuneUpTo(c, flags, g, t, m);
            || t' == Repeat(false, c.chNum)
            || (t' == t && forall k | 0 <= k < c.chNum :: g'[k] == if k < m then g[k] + 1 else g[k])
  {
    if m != 0 {
      UnifiedTuning(c, flags, g, t, m - 1);
    }
  }

  lemma {:induction false} UniformPotential(g: seq<nat>, t: seq<bool>, n: nat, x: nat, f: bool)
    requires n <= |g| == |t|
    requires forall k | 0 <= k < n :: g[k] == x && t[k] == f
    requires x <= MAX_GAIN_INDEX
    ensures Potential(g, t, n) == Times(n, Cost(x, f))
  {
    if n != 0 {
      UniformPotential(g, t, n - 1, x, f);
    }
  }

  lemma {:induction false} TimesGrows(n: nat, x: nat, y: nat)
    requires x < y
    ensures Times(n, x) <= Times(n, y) && (0 < n ==> Times(n, x) < Times(n, y))
  {
    if n != 0 {
      TimesGrows(n - 1, x, y);
    }
  }

  lemma UnifyIsUniform(c: Config, g: seq<nat>)
    requires ValidConfig(c) && ValidGainList(c, g) && c.unifiedGainControl
    ensures var u := Unify(c, g);
            (forall k | 0 <= k < c.chNum :: u[k] == u[0]) && u[0] in g
            && (forall k | 0 <= k < c.chNum :: u[0] <= g[k])
  {
  }

  // ---- the claims ----

  lemma TuneLowersSeparate(c: Config, flags: nat, g: seq<nat>, t: seq<bool>)
    requires ValidConfig(c) && ValidGainList(c, g) && |t| == c.chNum && !c.unifiedGainControl
    ensures var (g', t') := TuneUpTo(c, flags, g, t, c.chNum);
            (g', t') != (g, t) ==> Potential(g', t', c.chNum) < Potential(g, t, c.chNum)
  {
    var (g', t') := TuneUpTo(c, flags, g, t, c.chNum);
    SeparateChannels(c, flags, g, t, c.chNum);
    forall k | 0 <= k < c.chNum
      ensures Cost(g'[k], t'[k]) <= Cost(g[k], t[k])
      ensures (g'[k], t'[k]) != (g[k], t[k]) ==> Cost(g'[k], t'[k]) < Cost(g[k], t[k])
    {
      SingleLowersCost(Bit(flags, k), g[k], t[k]);
    }
    SeparateLowers(c, g, t, g', t', c.chNum);
    if forall k | 0 <= k < c.chNum :: (g'[k], t'[k]) == (g[k], t[k]) {
      assert g' == g && t' == t;
    }
  }

  lemma TuneLowersUnified(c: Config, flags: nat, g: seq<nat>, t: seq<bool>)
    requires ValidConfig(c) && ValidGainList(c, g) && |t| == c.chNum && c.unifiedGainControl && Uniform(c, g, t)
    ensures var (gs, t') := TuneUpTo(c, flags, g, t, c.chNum);
            var g' := Unify(c, gs);
            && Uniform(c, g', t')
            && ((g', t') != (g, t) ==> Potential(g', t', c.chNum) < Potential(g, t, c.chNum))
  {
    hide TuneUpTo, Unify;
    var (gs, t') := TuneUpTo(c, flags, g, t, c.chNum);
    var g' := Unify(c, gs);
    UnifyIsUniform(c, gs);
    if t[0] {
      assert t == Repeat(true, c.chNum);
      UnifiedTuning(c, flags, g, t, c.chNum);
    } else {
      assert t == Repeat(false, c.chNum);
      UnifiedSettled(c, flags, g, t, c.chNum);
    }
    assert forall k | 0 <= k < c.chNum :: t'[k] == t'[0];
    UniformPotential(g, t, c.chNum, g[0], t[0]);
    UniformPotential(g', t', c.chNum, g'[0], t'[0]);
    if t'[0] == t[0] && g'[0] == g[0] {
      assert g' == g && t' == t;
    } else {
      TimesGrows(c.chNum, Cost(g'[0], t'[0]), Cost(g[0], t[0]));
    }
  }

  /** Every call to the tuning step that changes gains or flags lowers the potential. */
  lemma TuneLowersPotential(c: Config, s: State, h: IqHeader)
    requires ValidConfig(c) && ValidState(c, s) && |h.ifGains| == 32
    requires Uniform(c, s.gains, s.gainTuneStates)
    ensures var s' := TuneGains(c, s, h).0;
            && Uniform(c, s'.gains, s'.gainTuneStates)
            && ((s'.gains, s'.gainTuneStates) != (s.gains, s.gainTuneStates) ==>
                  Potential(s'.gains, s'.gainTuneStates, c.chNum) < Potential(s.gains, s.gainTuneStates, c.chNum))
  {
    hide TuneUpTo, Potential;
    if c.unifiedGainControl {
      TuneLowersUnified(c, h.adcOverdriveFlags, s.gains, s.gainTuneStates);
    } else {
      TuneLowersSeparate(c, h.adcOverdriveFlags, s.gains, s.gainTuneStates);
    }
  }

  /** A channel that is not tuning keeps its gain or loses one step of it, and never tunes again. */
  lemma {:induction false} SettledUpTo(c: Config, flags: nat, g: seq<nat>, t: seq<bool>, m: nat, k: nat)
    requires ValidGainList(c, g) && |t| == c.chNum && m <= c.chNum && k < c.chNum && !t[k]
    ensures var (g', t') := TuneUpTo(c, flags, g, t, m);
            !t'[k] && g'[k] <= g[k] && (g'[k] != g[k] ==> k < m && Bit(flags, k) && g'[k] == g[k] - 1)
  {
    if m != 0 {
      SettledUpTo(c, flags, g, t, m - 1, k);
    }
  }

  lemma SettledCall(c: Config, s: State, h: IqHeader, k: nat)
    requires ValidConfig(c) && ValidState(c, s) && |h.ifGains| == 32 && k < c.chNum && !s.gainTuneStates[k]
    ensures var s' := TuneGains(c, s, h).0;
            s'.gains[k] <= s.gains[k] && !s'.gainTuneStates[k]
  {
    if GainsMatch(c, s.gains, h) {
      SettledUpTo(c, h.adcOverdriveFlags, s.gains, s.gainTuneStates, c.chNum, k);
      var (g, t) := TuneUpTo(c, h.adcOverdriveFlags, s.gains, s.gainTuneStates, c.chNum);
      if c.unifiedGainControl {
        UnifyIsUniform(c, g);
      }
    }
  }

  // ---- uniformity holds while the controller tunes ----

  ghost predicate TuningInv(c: Config, s: State) {
    match s.fsm
    case StateInit => Uniform(c, Repeat(0, c.chNum), s.gainTuneStates)
    case StateGainCtrWait => Uniform(c, s.gains, s.gainTuneStates)
    case StateGainTune => Uniform(c, s.gains, s.gainTuneStates)
    case _ => true
  }

  /** All channels start with the same tuning flag. */
  lemma InitiallyUniform(c: Config, s: State, tune: bool)
    requires s.fsm.StateInit? && s.gainTuneStates == Repeat(tune, c.chNum)
    ensures TuningInv(c, s)
  {
  }

  lemma FollowingGoesOn(c: Config, s: State, h: IqHeader, approval: bool)
    requires ValidConfig(c) && ValidState(c, s)
    ensures FollowSync(c, s, h, approval).0.fsm in {s.fsm, StateNoiseCtrWait}
  {
    hide Unify, GainValues, CalGain;
  }

  lemma BurstGoesOn(c: Config, s: State, h: IqHeader)
    requires ValidConfig(c) && ValidState(c, s)
    ensures Burst(c, s, h).0.fsm in {s.fsm, StateNoiseCtrWait}
  {
    hide Unify, GainValues, CalGain;
  }

  lemma RequestKeepsPhase(c: Config, s: State, r: Request)
    requires ValidConfig(c) && ValidState(c, s) && ValidRequest(c, Some(r))
    ensures HandleRequest(c, s, r).0.fsm == s.fsm
  {
    hide Unify, GainValues, Overwrite;
  }

  /** Calibration never leads back to tuning. */
  lemma CalibrationGoesOn(c: Config, s: State, h: IqHeader, approval: bool, request: Option<Request>)
    requires ValidConfig(c) && ValidState(c, s) && ValidRequest(c, request) && s.fsm.StateIqCal?
    ensures IqCal(c, s, h, approval, request).0.fsm in {StateIqCal, StateNoiseCtrWait}
  {
    hide FollowSync, Burst, HandleRequest;
    FollowingGoesOn(c, s, h, approval);
    var s1 := FollowSync(c, s, h, approval).0;
    BurstGoesOn(c, s1, h);
    if request.Some? {
      RequestKeepsPhase(c, Burst(c, s1, h).0, request.value);
    }
  }

  /** Setting the initial gains makes them uniform. */
  lemma InitKeepsUniform(c: Config, s: State)
    requires ValidConfig(c) && ValidState(c, s) && Uniform(c, Repeat(0, c.chNum), s.gainTuneStates)
    ensures ChangeGains(c, s).0.gainTuneStates == s.gainTuneStates
    ensures Uniform(c, ChangeGains(c, s).0.gains, s.gainTuneStates)
  {
    hide GainValues;
    if c.unifiedGainControl {
      UnifyIsUniform(c, s.gains);
    }
  }

  /** Any frame keeps the gains uniform for as long as tuning goes on. */
  lemma FrameKeepsUniform(c: Config, s: State, h: IqHeader, approval: bool, request: Option<Request>)
    requires ValidConfig(c) && ValidState(c, s) && |h.ifGains| == 32 && ValidRequest(c, request)
    requires TuningInv(c, s)
    ensures TuningInv(c, ProcessFrame(c, s, h, approval, request).0)
  {
    hide TuneGains, IqCal, ChangeGains, GainsMatch, Uniform;
    if !IsDummy(h) {
      match s.fsm {
        case StateInit =>
          InitKeepsUniform(c, s);
        case StateGainTune =>
          TuneLowersPotential(c, s, h);
        case StateIqCal =>
          CalibrationGoesOn(c, s, h, approval, request);
        case _ =>
      }
    }
  }

  // ---- runs of the controller ----

  /** A frame as the controller receives it. */
  datatype Input = Input(header: IqHeader, approval: bool, request: Option<Request>)

  ghost predicate ValidInputs(c: Config, inputs: seq<Input>) {
    forall i | 0 <= i < |inputs| :: |inputs[i].header.ifGains| == 32 && ValidRequest(c, inputs[i].request)
  }

  function Handled(c: Config, s: State, x: Input): (r: State)
    requires ValidConfig(c) && ValidState(c, s) && |x.header.ifGains| == 32 && ValidRequest(c, x.request)
    ensures ValidState(c, r)
  {
    ProcessFrame(c, s, x.header, x.approval, x.request).0
  }

  /** The state after a run of frames. */
  function Along(c: Config, s: State, inputs: seq<Input>): (r: State)
    requires ValidConfig(c) && ValidState(c, s) && ValidInputs(c, inputs)
    ensures ValidState(c, r)
    decreases |inputs|
  {
    if inputs == [] then s else Along(c, Handled(c, s, inputs[0]), inputs[1..])
  }

  /** The initial gains are set, or the gains are being tuned. */
  predicate Tuning(s: State) {
    s.fsm.StateInit? || s.fsm.StateGainCtrWait? || s.fsm.StateGainTune?
  }

  /** How many frames change gains or flags once the initial gains are set. */
  function ChangingFrames(c: Config, s: State, inputs: seq<Input>): nat
    requires ValidConfig(c) && ValidState(c, s) && ValidInputs(c, inputs)
    decreases |inputs|
  {
    if inputs == [] then 0
    else
      var s' := Handled(c, s, inputs[0]);
      (if Tuning(s) && !s.fsm.StateInit? && (s'.gains, s'.gainTuneStates) != (s.gains, s.gainTuneStates) then 1
       else 0) + ChangingFrames(c, s', inputs[1..])
  }

  /** What tuning can still cost from here on. */
  function Budget(c: Config, s: State): int
    requires ValidState(c, s)
  {
    if s.fsm.StateInit? then Times(c.chNum, 58)
    else if Tuning(s) then Potential(s.gains, s.gainTuneStates, c.chNum)
    else 0
  }

  lemma FrameSpends(c: Config, s: State, x: Input)
    requires ValidConfig(c) && ValidState(c, s) && |x.header.ifGains| == 32 && ValidRequest(c, x.request)
    requires TuningInv(c, s)
    ensures var s' := Handled(c, s, x);
            && TuningInv(c, s') && 0 <= Budget(c, s') <= Budget(c, s)
            && (Tuning(s) && !s.fsm.StateInit? && (s'.gains, s'.gainTuneStates) != (s.gains, s.gainTuneStates) ==>
                  Budget(c, s') < Budget(c, s))
  {
    hide TuneGains, IqCal, ChangeGains, GainsMatch, Uniform, Potential;
    var s' := Handled(c, s, x);
    FrameKeepsUniform(c, s, x.header, x.approval, x.request);
    PotentialBounds(c, s.gains, s.gainTuneStates, c.chNum);
    PotentialBounds(c, s'.gains, s'.gainTuneStates, c.chNum);
    if s.fsm.StateGainTune? {
      TuneLowersPotential(c, s, x.header);
    } else if s.fsm.StateIqCal? {
      CalibrationGoesOn(c, s, x.header, x.approval, x.request);
    }
  }

  /** Along any run no more frames change gains or flags than the budget allows. */
  lemma {:induction false} ChangesAreBounded(c: Config, s: State, inputs: seq<Input>)
    requires ValidConfig(c) && ValidState(c, s) && ValidInputs(c, inputs) && TuningInv(c, s)
    ensures ChangingFrames(c, s, inputs) + Budget(c, Along(c, s, inputs)) <= Budget(c, s)
    ensures 0 <= Budget(c, Along(c, s, inputs))
    decreases |inputs|
  {
    hide Handled, Budget, TuningInv, Tuning;
    if inputs != [] {
      FrameSpends(c, s, inputs[0]);
      ChangesAreBounded(c, Handled(c, s, inputs[0]), inputs[1..]);
    } else {
      BudgetIsLeft(c, s);
    }
  }

  lemma BudgetIsLeft(c: Config, s: State)
    requires ValidConfig(c) && ValidState(c, s)
    ensures 0 <= Budget(c, s)
  {
    PotentialBounds(c, s.gains, s.gainTuneStates, c.chNum);
  }

  /**
   * Whatever the headers report and whatever is requested: in any run from the start of the controller at most
   * 58 frames per channel change gains or tuning flags once the initial gains are set.
   */
  lemma TuningTerminates(c: Config, s: State, tune: bool, inputs: seq<Input>)
    requires ValidConfig(c) && ValidState(c, s) && ValidInputs(c, inputs)
    requires s.fsm.StateInit? && s.gainTuneStates == Repeat(tune, c.chNum)
    ensures ChangingFrames(c, s, inputs) <= Times(c.chNum, 58)
  {
    InitiallyUniform(c, s, tune);
    ChangesAreBounded(c, s, inputs);
  }

  /** Nothing leads back to tuning, and while it lasts a settled channel does not rise. */
  lemma SettledFrame(c: Config, s: State, x: Input, k: nat)
    requires ValidConfig(c) && ValidState(c, s) && |x.header.ifGains| == 32 && ValidRequest(c, x.request)
    requires k < c.chNum && Tuning(Handled(c, s, x))
    ensures Tuning(s)
    ensures var s' := Handled(c, s, x);
            !s.gainTuneStates[k] ==> s'.gains[k] <= s.gains[k] && !s'.gainTuneStates[k]
  {
    hide TuneGains, IqCal, GainsMatch, GainValues;
    if s.fsm.StateGainTune? {
      if !s.gainTuneStates[k] {
        SettledCall(c, s, x.header, k);
      }
    } else if s.fsm.StateIqCal? && !IsDummy(x.header) {
      CalibrationGoesOn(c, s, x.header, x.approval, x.request);
    } else if s.fsm.StateInit? && c.unifiedGainControl {
      UnifyIsUniform(c, s.gains);
    }
  }

  /** In any run, for as long as tuning lasts, a channel that has stopped tuning never gains again. */
  lemma {:induction false} SettledNeverRises(c: Config, s: State, inputs: seq<Input>, k: nat)
    requires ValidConfig(c) && ValidState(c, s) && ValidInputs(c, inputs) && k < c.chNum
    requires Tuning(Along(c, s, inputs)) && !s.gainTuneStates[k]
    ensures var s' := Along(c, s, inputs);
            Tuning(s) && s'.gains[k] <= s.gains[k] && !s'.gainTuneStates[k]
    decreases |inputs|
  {
    hide Handled;
    if inputs != [] {
      StillTuning(c, Handled(c, s, inputs[0]), inputs[1..]);
      SettledFrame(c, s, inputs[0], k);
      SettledNeverRises(c, Handled(c, s, inputs[0]), inputs[1..], k);
    }
  }

  lemma {:induction false} StillTuning(c: Config, s: State, inputs: seq<Input>)
    requires ValidConfig(c) && ValidState(c, s) && ValidInputs(c, inputs) && Tuning(Along(c, s, inputs))
    ensures Tuning(s)
    decreases |inputs|
  {
    hide Handled;
    if inputs != [] {
      StillTuning(c, Handled(c, s, inputs[0]), inputs[1..]);
      SettledFrame(c, s, inputs[0], 0);
    }
  }

  // ---- the end of the tuning phase ----

  /** No channel is tuning, and so many clean frames in a row have been counted. */
  ghost predicate Settled(c: Config, s: State, clean: nat) {
    && ValidState(c, s) && true !in s.gainTuneStates && s.gainLockCntr == clean <= c.gainLockInterval
    && (s.fsm.StateGainTune? || (s.fsm.StateGainCtrWait? && clean == 0))
  }

  predicate Clean(x: Input) {
    x.header.adcOverdriveFlags == 0
  }

  ghost predicate AllSampled(c: Config, inputs: seq<Input>) {
    ValidInputs(c, inputs) && forall i | 0 <= i < |inputs| :: !IsDummy(inputs[i].header)
  }

  lemma {:induction false} NoFlags(c: Config, flags: nat, g: seq<nat>, t: seq<bool>, m: nat)
    requires ValidGainList(c, g) && |t| == c.chNum && m <= c.chNum && true !in t
    ensures true !in TuneUpTo(c, flags, g, t, m).1
  {
    if m != 0 {
      NoFlags(c, flags, g, t, m - 1);
    }
  }

  /** A clean frame counts towards the lock, one with overdrive starts over. */
  lemma SettledStep(c: Config, s: State, x: Input, clean: nat)
    requires ValidConfig(c) && Settled(c, s, clean) && !IsDummy(x.header)
    requires |x.header.ifGains| == 32 && ValidRequest(c, x.request)
    ensures var s' := Handled(c, s, x);
            if s.fsm.StateGainTune? && Clean(x) then
              if clean == c.gainLockInterval then s'.fsm.StateIqCal?
              else s'.fsm.StateGainTune? && Settled(c, s', clean + 1)
            else
              Settled(c, s', 0) && (s.fsm.StateGainTune? ==> s'.fsm.StateGainCtrWait?)
  {
    hide TuneUpTo, Unify, GainValues, GainsMatch;
    NoFlags(c, x.header.adcOverdriveFlags, s.gains, s.gainTuneStates, c.chNum);
  }

  /** Too few frames are left for the phase to end. */
  lemma {:induction false} NotYet(c: Config, s: State, inputs: seq<Input>, clean: nat)
    requires ValidConfig(c) && Settled(c, s, clean) && AllSampled(c, inputs)
    requires |inputs| + clean <= c.gainLockInterval
    ensures Tuning(Along(c, s, inputs))
    decreases |inputs|
  {
    hide Handled;
    if inputs != [] {
      SettledStep(c, s, inputs[0], clean);
      var s' := Handled(c, s, inputs[0]);
      NotYet(c, s', inputs[1..], s'.gainLockCntr);
    }
  }

  /**
   * The lock: once no channel is tuning, the frames still missing end the tuning phase if and only if every
   * one of them is clean.
   */
  lemma {:induction false} LockNeedsCleanFrames(c: Config, s: State, inputs: seq<Input>, clean: nat)
    requires ValidConfig(c) && Settled(c, s, clean) && s.fsm.StateGainTune? && AllSampled(c, inputs)
    requires |inputs| + clean == c.gainLockInterval + 1
    ensures !Tuning(Along(c, s, inputs)) <==> forall i | 0 <= i < |inputs| :: Clean(inputs[i])
    decreases |inputs|
  {
    hide Handled, Clean;
    SettledStep(c, s, inputs[0], clean);
    var s' := Handled(c, s, inputs[0]);
    if !Clean(inputs[0]) {
      NotYet(c, s', inputs[1..], 0);
    } else if |inputs| > 1 {
      LockNeedsCleanFrames(c, s', inputs[1..], clean + 1);
      assert forall i | 1 <= i < |inputs| :: inputs[i] == inputs[1..][i - 1];
    }
  }

  lemma {:induction false} LowestStays(c: Config, flags: nat, g: seq<nat>, t: seq<bool>, m: nat)
    requires ValidGainList(c, g) && |t| == c.chNum && m <= c.chNum && true !in t && g == Repeat(0, c.chNum)
    ensures TuneUpTo(c, flags, g, t, m).0 == g
  {
    if m != 0 {
      LowestStays(c, flags, g, t, m - 1);
      NoFlags(c, flags, g, t, m - 1);
    }
  }

  /**
   * An overdrive that persists at the lowest gain on every channel keeps the tuning phase from ending, in runs
   * of any length: each such frame starts the count over, and no gain is left to take away.
   */
  lemma {:induction false} OverdriveNeverEnds(c: Config, s: State, inputs: seq<Input>, clean: nat)
    requires ValidConfig(c) && Settled(c, s, clean) && s.gains == Repeat(0, c.chNum)
    requires AllSampled(c, inputs) && forall i | 0 <= i < |inputs| :: !Clean(inputs[i])
    ensures Tuning(Along(c, s, inputs)) && Along(c, s, inputs).gains == Repeat(0, c.chNum)
    decreases |inputs|
  {
    hide Handled;
    if inputs != [] {
      SettledStep(c, s, inputs[0], clean);
      LowestFrame(c, s, inputs[0], clean);
      OverdriveNeverEnds(c, Handled(c, s, inputs[0]), inputs[1..], 0);
    }
  }

  lemma LowestFrame(c: Config, s: State, x: Input, clean: nat)
    requires ValidConfig(c) && Settled(c, s, clean) && s.gains == Repeat(0, c.chNum) && !IsDummy(x.header)
    requires |x.header.ifGains| == 32 && ValidRequest(c, x.request) && !Clean(x)
    ensures Handled(c, s, x).gains == Repeat(0, c.chNum)
  {
    hide TuneUpTo, GainValues, GainsMatch;
    LowestStays(c, x.header.adcOverdriveFlags, s.gains, s.gainTuneStates, c.chNum);
    if c.unifiedGainControl {
      UnifyIsUniform(c, s.gains);
    }
  }
}
