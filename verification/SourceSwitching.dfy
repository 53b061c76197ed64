/**
 * When the controller switches the noise source and what it sends with the switch: on a frame that the synchronizer
 * has not locked on it orders the source on, on one in lock off, in every track mode; bursts of calibration
 * frames come on top. In the closed loop the switch reaches the receiver process with the commands.
 */
module SourceSwitching {
  import opened Common
  import opened IqHeaders
  import Daq = RtlDaq
  import Hwc = HwController
  import Sync = DelaySync
  import Control = ControlLoop
  import opened NoiseHandshake
  import opened CalibrationLoop
  import UserGains
  import LoopSafety

  /** A frame with samples, handled while the controller follows the synchronizer, that reports what it believes. */
  ghost predicate Agrees(c: Hwc.Config, s: Hwc.State, h: IqHeader) {
    && Hwc.ValidConfig(c) && Hwc.ValidState(c, s) && s.fsm.StateIqCal?
    && !IsDummy(h) && |h.ifGains| == 32 && h.noiseSourceState == if s.noiseSourceState then 1 else 0
  }

  // ---- the commands of one switch ----

  /** A gain command for these gain indices: the values of all, or of the smallest under unified control. */
  ghost predicate Sets(c: Hwc.Config, cmd: Daq.Command, g: seq<nat>)
    requires Hwc.ValidConfig(c) && Hwc.ValidGainList(c, g)
  {
    && cmd.SetGains? && |cmd.gains| == c.chNum
    && forall m | 0 <= m < c.chNum ::
         cmd.gains[m] == Hwc.VALID_GAINS[if c.unifiedGainControl then Hwc.MinOf(g) else g[m]]
  }

  /** `freq` lies between the middles to the neighbouring calibration frequencies; the lower one has the middle. */
  ghost predicate IsNearest(freq: nat, i: nat) {
    i < |Hwc.CAL_FREQS| && forall j | 0 <= j < |Hwc.CAL_FREQS| ::
      && (j < i ==> Hwc.CAL_FREQS[j] + Hwc.CAL_FREQS[i] < 2 * freq)
      && (i < j ==> 2 * freq <= Hwc.CAL_FREQS[i] + Hwc.CAL_FREQS[j])
  }

  /** Off: the switch first, then the gains kept aside, then the AGC if it was on. */
  ghost predicate SendsOff(c: Hwc.Config, s: Hwc.State, cmds: seq<Daq.Command>)
    requires Hwc.ValidConfig(c) && Hwc.ValidState(c, s)
  {
    && |cmds| == (if s.lastAgc then 3 else 2)
    && cmds[0] == Daq.SwitchNoise(false) && Sets(c, cmds[1], s.lastGains) && (s.lastAgc ==> cmds[2] == Daq.EnableAgc)
  }

  /** On: the gain for the calibration frequency nearest to the receivers' on every channel, then the switch. */
  ghost predicate SendsOn(c: Hwc.Config, freq: nat, cmds: seq<Daq.Command>)
    requires Hwc.ValidConfig(c)
  {
    && |cmds| == 2 && cmds[1] == Daq.SwitchNoise(true) && cmds[0].SetGains? && |cmds[0].gains| == c.chNum
    && exists i | 0 <= i < |Hwc.CAL_FREQS| && IsNearest(freq, i) ::
         forall m | 0 <= m < c.chNum :: cmds[0].gains[m] == Hwc.VALID_GAINS[Hwc.CAL_GAINS[i]]
  }

  lemma NearestIsNearest(freq: nat)
    ensures IsNearest(freq, Hwc.Nearest(freq, |Hwc.CAL_FREQS|))
    ensures Hwc.CalGain(freq) == Hwc.CAL_GAINS[Hwc.Nearest(freq, |Hwc.CAL_FREQS|)]
  {
    var i := Hwc.Nearest(freq, |Hwc.CAL_FREQS|);
    assert forall j | 0 <= j < |Hwc.CAL_FREQS| :: Hwc.Distance(Hwc.CAL_FREQS[i], freq) <=
                                                  Hwc.Distance(Hwc.CAL_FREQS[j], freq);
  }

  lemma SwitchedOff(c: Hwc.Config, s: Hwc.State)
    requires Hwc.ValidConfig(c) && Hwc.ValidState(c, s)
    ensures var (s', cmds) := Hwc.NoiseOff(c, s);
            && SendsOff(c, s, cmds)
            && s'.gains == Hwc.Unify(c, s.lastGains) && s'.agc == s.lastAgc
            && s'.lastGains == s.lastGains && s'.lastAgc == s.lastAgc && s'.calFrameCntr == s.calFrameCntr
            && s'.gainTuneStates == s.gainTuneStates && s'.gainLockCntr == s.gainLockCntr
  {
  }

  lemma SwitchedOn(c: Hwc.Config, s: Hwc.State, freq: nat)
    requires Hwc.ValidConfig(c) && Hwc.ValidState(c, s)
    ensures var (s', cmds) := Hwc.NoiseOn(c, s, freq);
            && SendsOn(c, freq, cmds)
            && s'.lastGains == s.gains && s'.lastAgc == s.agc && !s'.agc && s'.calFrameCntr == s.calFrameCntr
            && s'.gainTuneStates == s.gainTuneStates && s'.gainLockCntr == s.gainLockCntr
            && Hwc.GainValues(c, s'.gains) == cmds[0].gains
  {
    NearestIsNearest(freq);
    var g := Repeat(Hwc.CalGain(freq), c.chNum);
    hide Hwc.CalGain, Hwc.Nearest, IsNearest;
    assert Hwc.Unify(c, g) == g;
  }

  // ---- when the controller switches ----

  /** In track mode 2 the synchronizer is not followed during a burst. */
  predicate InBurst(c: Hwc.Config, s: Hwc.State) {
    c.calTrackMode == 2 && c.calFrameInterval <= s.calFrameCntr
  }

  /** This frame is the one before a burst, or the last one of it. */
  predicate StartsBurst(c: Hwc.Config, s: Hwc.State, h: IqHeader) {
    c.calTrackMode == 2 && h.syncState == 6 && s.calFrameCntr + 1 == c.calFrameInterval
  }

  predicate EndsBurst(c: Hwc.Config, s: Hwc.State, h: IqHeader) {
    c.calTrackMode == 2 && h.syncState == 6 && s.calFrameCntr + 1 == c.calFrameInterval + c.calFrameBurstSize
  }

  /** The source is off and the synchronizer not in lock. */
  predicate NeedsSource(c: Hwc.Config, s: Hwc.State, h: IqHeader) {
    !InBurst(c, s) && h.syncState < 5 && !s.noiseSourceState
  }

  /** The source is on, the synchronizer in lock, and the user has approved where asked to. */
  predicate ReleasesSource(c: Hwc.Config, s: Hwc.State, h: IqHeader, approval: bool) {
    !InBurst(c, s) && 5 <= h.syncState && s.noiseSourceState && (c.requireTrackLockIntervention ==> approval)
  }

  lemma FollowSwitches(c: Hwc.Config, s: Hwc.State, h: IqHeader, approval: bool)
    requires Agrees(c, s, h)
    ensures var (s', cmds) := Hwc.FollowSync(c, s, h, approval);
            if NeedsSource(c, s, h) then (s', cmds) == Hwc.NoiseOn(c, s, h.rfCenterFreq)
            else if ReleasesSource(c, s, h, approval) then (s', cmds) == Hwc.NoiseOff(c, s)
            else (s', cmds) == (s, [])
  {
    hide Hwc.NoiseOn, Hwc.NoiseOff;
  }

  lemma BurstSwitches(c: Hwc.Config, s: Hwc.State, h: IqHeader)
    requires Hwc.ValidConfig(c) && Hwc.ValidState(c, s)
    ensures var (s', cmds) := Hwc.Burst(c, s, h);
            var counted := s.(calFrameCntr := s.calFrameCntr + 1);
            if StartsBurst(c, s, h) then (s', cmds) == Hwc.NoiseOn(c, counted, h.rfCenterFreq)
            else if EndsBurst(c, s, h) then
              (s', cmds) == (Hwc.NoiseOff(c, counted).0.(calFrameCntr := 0), Hwc.NoiseOff(c, counted).1)
            else
              && cmds == []
              && s' == s.(calFrameCntr := if c.calTrackMode != 2 then s.calFrameCntr
                                          else if h.syncState == 6 then s.calFrameCntr + 1 else 0)
  {
    hide Hwc.NoiseOn, Hwc.NoiseOff;
  }

  /** The switches that a frame asks for. */
  function Wanted(c: Hwc.Config, s: Hwc.State, h: IqHeader, approval: bool): seq<bool> {
    (if NeedsSource(c, s, h) then [true] else if ReleasesSource(c, s, h, approval) then [false] else []) +
    (if StartsBurst(c, s, h) then [true] else if EndsBurst(c, s, h) then [false] else [])
  }

  /**
   * On every frame that agrees with the controller the switches ordered are exactly these: on below the lock, off in
   * it, and at the start and the end of a burst. The controller waits exactly if it has switched, for the
   * state it has switched to last.
   */
  lemma SwitchesExactly(c: Hwc.Config, s: Hwc.State, h: IqHeader, approval: bool, request: Option<Hwc.Request>)
    requires Agrees(c, s, h) && Hwc.ValidRequest(c, request)
    ensures var (s', cmds) := Hwc.ProcessFrame(c, s, h, approval, request);
            var w := Wanted(c, s, h, approval);
            && Switches(cmds) == w
            && (s'.fsm.StateNoiseCtrWait? <==> w != []) && (s'.fsm.StateIqCal? <==> w == [])
            && s'.noiseSourceState == if w == [] then s.noiseSourceState else w[|w| - 1]
  {
    hide Hwc.FollowSync, Hwc.Burst, Hwc.NoiseOn, Hwc.NoiseOff, Hwc.HandleRequest, Switches;
    var (s1, cmds1) := Hwc.FollowSync(c, s, h, approval);
    FollowSwitches(c, s, h, approval);
    NoiseEffects(c, s, h.rfCenterFreq);
    NoSwitches([]);
    assert Switches(cmds1) == if NeedsSource(c, s, h) then [true]
                              else if ReleasesSource(c, s, h, approval) then [false] else [];
    var (s2, cmds2) := Hwc.Burst(c, s1, h);
    BurstSwitches(c, s1, h);
    NoiseEffects(c, s1.(calFrameCntr := s1.calFrameCntr + 1), h.rfCenterFreq);
    SwitchesConcat(cmds1, cmds2);
    if request.Some? {
      RequestEffect(c, s2, request.value);
      SwitchesConcat(cmds1 + cmds2, Hwc.HandleRequest(c, s2, request.value).1);
    } else {
      SwitchesConcat(cmds1 + cmds2, []);
    }
  }

  /** The commands sent for the switches and the ones sent for the request, in this order. */
  lemma FrameSends(c: Hwc.Config, s: Hwc.State, h: IqHeader, approval: bool, request: Option<Hwc.Request>)
    returns (s1: Hwc.State, s2: Hwc.State, cmds1: seq<Daq.Command>, cmds2: seq<Daq.Command>, cmds3: seq<Daq.Command>)
    requires Agrees(c, s, h) && Hwc.ValidRequest(c, request)
    ensures (s1, cmds1) == Hwc.FollowSync(c, s, h, approval) && (s2, cmds2) == Hwc.Burst(c, s1, h)
    ensures Hwc.ProcessFrame(c, s, h, approval, request).1 == cmds1 + cmds2 + cmds3
    ensures Hwc.ValidState(c, s2)
    ensures (Hwc.ProcessFrame(c, s, h, approval, request).0, cmds3) ==
            if request.Some? then Hwc.HandleRequest(c, s2, request.value) else (s2, [])
  {
    hide Hwc.FollowSync, Hwc.Burst, Hwc.HandleRequest;
    var followed := Hwc.FollowSync(c, s, h, approval);
    s1, cmds1 := followed.0, followed.1;
    var counted := Hwc.Burst(c, s1, h);
    s2, cmds2 := counted.0, counted.1;
    cmds3 := if request.Some? then Hwc.HandleRequest(c, s2, request.value).1 else [];
  }

  /**
   * In lock the source is switched off, and the gains and the AGC kept aside are sent right behind the switch and
   * are in force again, unless a burst starts or ends on the same frame or a request changes them.
   */
  lemma LockSwitchesOff(c: Hwc.Config, s: Hwc.State, h: IqHeader, approval: bool, request: Option<Hwc.Request>)
    requires Agrees(c, s, h) && Hwc.ValidRequest(c, request) && ReleasesSource(c, s, h, approval)
    requires !StartsBurst(c, s, h) && !EndsBurst(c, s, h)
    ensures var (s', cmds) := Hwc.ProcessFrame(c, s, h, approval, request);
            var n := if s.lastAgc then 3 else 2;
            && Switches(cmds) == [false] && !s'.noiseSourceState && s'.fsm.StateNoiseCtrWait?
            && n <= |cmds| && SendsOff(c, s, cmds[..n])
            && (request.None? ==> |cmds| == n && s'.agc == s.lastAgc)
            && ((request.Some? && request.value.Gain?) || s'.gains == Hwc.Unify(c, s.lastGains))
  {
    hide Hwc.FollowSync, Hwc.Burst, Hwc.HandleRequest, Hwc.NoiseOff, Hwc.NoiseOn, Hwc.ProcessFrame, Hwc.Unify, Switches,
         SendsOff;
    SwitchesExactly(c, s, h, approval, request);
    var s1, s2, cmds1, cmds2, cmds3 := FrameSends(c, s, h, approval, request);
    FollowSwitches(c, s, h, approval);
    SwitchedOff(c, s);
    BurstSwitches(c, s1, h);
    OffLength(c, s, cmds1);
    if request.Some? {
      OthersLeaveGains(c, s2, request.value);
    }
    assert (cmds1 + cmds2 + cmds3)[..|cmds1|] == cmds1;
  }

  lemma OthersLeaveGains(c: Hwc.Config, s: Hwc.State, r: Hwc.Request)
    requires Hwc.ValidConfig(c) && Hwc.ValidState(c, s) && Hwc.ValidRequest(c, Some(r))
    ensures !r.Gain? ==> Hwc.HandleRequest(c, s, r).0.gains == s.gains
  {
    hide Hwc.Overwrite, Hwc.ChangeGains;
  }

  lemma OffLength(c: Hwc.Config, s: Hwc.State, cmds: seq<Daq.Command>)
    requires Hwc.ValidConfig(c) && Hwc.ValidState(c, s) && SendsOff(c, s, cmds)
    ensures |cmds| == if s.lastAgc then 3 else 2
  {
  }

  /**
   * Below the lock the source is switched on, behind the gain for calibration; the gains and the AGC that were in
   * force are kept aside, unless a request changes them.
   */
  lemma LossSwitchesOn(c: Hwc.Config, s: Hwc.State, h: IqHeader, approval: bool, request: Option<Hwc.Request>)
    requires Agrees(c, s, h) && Hwc.ValidRequest(c, request) && NeedsSource(c, s, h)
    ensures var (s', cmds) := Hwc.ProcessFrame(c, s, h, approval, request);
            && Switches(cmds) == [true] && s'.noiseSourceState && s'.fsm.StateNoiseCtrWait?
            && 2 <= |cmds| && SendsOn(c, h.rfCenterFreq, cmds[..2])
            && (request.None? ==> |cmds| == 2 && s'.lastGains == s.gains && s'.lastAgc == s.agc && !s'.agc)
  {
    hide Hwc.FollowSync, Hwc.Burst, Hwc.HandleRequest, Hwc.NoiseOff, Hwc.NoiseOn, Hwc.ProcessFrame, Switches, SendsOn;
    SwitchesExactly(c, s, h, approval, request);
    var s1, s2, cmds1, cmds2, cmds3 := FrameSends(c, s, h, approval, request);
    FollowSwitches(c, s, h, approval);
    SwitchedOn(c, s, h.rfCenterFreq);
    BurstSwitches(c, s1, h);
    OnLength(c, h.rfCenterFreq, cmds1);
    assert (cmds1 + cmds2 + cmds3)[..|cmds1|] == cmds1;
  }

  lemma OnLength(c: Hwc.Config, freq: nat, cmds: seq<Daq.Command>)
    requires Hwc.ValidConfig(c) && SendsOn(c, freq, cmds)
    ensures |cmds| == 2
  {
  }

  /** A burst is counted frame by frame; it starts with the source switched on and ends with the gains restored. */
  lemma BurstIsCounted(c: Hwc.Config, s: Hwc.State, h: IqHeader, approval: bool)
    requires Agrees(c, s, h) && !NeedsSource(c, s, h) && !ReleasesSource(c, s, h, approval)
    ensures var (s', cmds) := Hwc.ProcessFrame(c, s, h, approval, None);
            && s'.calFrameCntr == (if c.calTrackMode != 2 then s.calFrameCntr
                                   else if h.syncState != 6 || EndsBurst(c, s, h) then 0 else s.calFrameCntr + 1)
            && (StartsBurst(c, s, h) ==>
                  SendsOn(c, h.rfCenterFreq, cmds) && s'.lastGains == s.gains && s'.lastAgc == s.agc && !s'.agc)
            && (!StartsBurst(c, s, h) && EndsBurst(c, s, h) ==>
                  SendsOff(c, s, cmds) && s'.gains == Hwc.Unify(c, s.lastGains) && s'.agc == s.lastAgc)
            && (!StartsBurst(c, s, h) && !EndsBurst(c, s, h) ==>
                  cmds == [] && s' == s.(calFrameCntr := s'.calFrameCntr))
  {
    hide Hwc.FollowSync, Hwc.Burst, Hwc.HandleRequest, Hwc.NoiseOff, Hwc.NoiseOn, Hwc.ProcessFrame, Hwc.Unify, SendsOff,
         SendsOn;
    var s1, s2, cmds1, cmds2, cmds3 := FrameSends(c, s, h, approval, None);
    FollowSwitches(c, s, h, approval);
    var counted := s.(calFrameCntr := s.calFrameCntr + 1);
    SwitchedOn(c, counted, h.rfCenterFreq);
    SwitchedOff(c, counted);
    BurstSwitches(c, s, h);
    SameOff(c, s, counted, cmds2);
    assert cmds1 + cmds2 + cmds3 == cmds2;
  }

  lemma SameOff(c: Hwc.Config, s: Hwc.State, s': Hwc.State, cmds: seq<Daq.Command>)
    requires Hwc.ValidConfig(c) && Hwc.ValidState(c, s) && s' == s.(calFrameCntr := s'.calFrameCntr)
    ensures SendsOff(c, s', cmds) <==> SendsOff(c, s, cmds)
  {
  }

  // ---- requests ----

  /** What a request leads to in the state that the frame leaves, and the last command sent for it. */
  ghost predicate Served(c: Hwc.Config, r: Hwc.Request, s: Hwc.State, cmds: seq<Daq.Command>)
    requires Hwc.ValidConfig(c) && Hwc.ValidState(c, s) && Hwc.ValidRequest(c, Some(r))
  {
    match r
    case Freq(freq) => cmds == [Daq.Tune(freq)]
    case Gain(values) =>
      if !Supported(values) then cmds == []
      else if s.noiseSourceState then
        cmds == [] && !s.agc && forall k | 0 <= k < c.chNum :: Hwc.VALID_GAINS[s.lastGains[k]] == values[k]
      else
        && |cmds| == 1 && Sets(c, cmds[0], Control.Indices(values)) && !s.agc
        && forall k | 0 <= k < c.chNum && !c.unifiedGainControl :: Hwc.VALID_GAINS[s.gains[k]] == values[k]
    case Agc =>
      if s.noiseSourceState then cmds == [] && s.lastAgc else cmds == [Daq.EnableAgc] && s.agc
    case Other => cmds == []
  }

  ghost predicate Supported(values: seq<nat>) {
    forall k | 0 <= k < |values| :: values[k] in Hwc.VALID_GAINS
  }

  lemma {:induction false} UnsupportedFails(g: seq<nat>, values: seq<nat>, m: nat)
    requires |g| == |values| && m <= |g| && forall k | 0 <= k < |g| :: g[k] <= Hwc.MAX_GAIN_INDEX
    requires exists k | m <= k < |values| :: values[k] !in Hwc.VALID_GAINS
    ensures !Hwc.Overwrite(g, values, m).1
    decreases |g| - m
  {
    hide Hwc.GainIndex;
    var i := Hwc.GainIndex(values[m]);
    if i.Some? {
      assert values[m] in Hwc.VALID_GAINS;
      UnsupportedFails(g[m := i.value], values, m + 1);
    }
  }

  lemma RequestServed(c: Hwc.Config, s: Hwc.State, r: Hwc.Request)
    requires Hwc.ValidConfig(c) && Hwc.ValidState(c, s) && Hwc.ValidRequest(c, Some(r))
    ensures Served(c, r, Hwc.HandleRequest(c, s, r).0, Hwc.HandleRequest(c, s, r).1)
  {
    hide Hwc.Overwrite;
    if r.Gain? {
      if Supported(r.values) {
        UserGains.OverwriteSupported(s.gains, r.values, 0);
        UserGains.OverwriteSupported(s.lastGains, r.values, 0);
      } else {
        UnsupportedFails(s.gains, r.values, 0);
        UnsupportedFails(s.lastGains, r.values, 0);
      }
    }
  }

  /** A request is served on the first frame handled in this state, behind the switches of the same frame. */
  lemma RequestIsServed(c: Hwc.Config, s: Hwc.State, h: IqHeader, approval: bool, r: Hwc.Request)
    returns (cmds: seq<Daq.Command>)
    requires Agrees(c, s, h) && Hwc.ValidRequest(c, Some(r))
    ensures Served(c, r, Hwc.ProcessFrame(c, s, h, approval, Some(r)).0, cmds)
    ensures Hwc.ProcessFrame(c, s, h, approval, Some(r)).1 == Hwc.ProcessFrame(c, s, h, approval, None).1 + cmds
  {
    hide Hwc.FollowSync, Hwc.Burst, Hwc.HandleRequest, Served;
    var s1, s2, cmds1, cmds2, cmds3 := FrameSends(c, s, h, approval, Some(r));
    RequestServed(c, s2, r);
    cmds := cmds3;
    assert cmds1 + cmds2 + [] == cmds1 + cmds2;
  }

  lemma {:induction false} OverwritesUpTo(g: seq<nat>, values: seq<nat>, m: nat, j: nat)
    requires |g| == |values| && m <= j < |g| && forall k | 0 <= k < |g| :: g[k] <= Hwc.MAX_GAIN_INDEX
    requires values[j] !in Hwc.VALID_GAINS && forall k | m <= k < j :: values[k] in Hwc.VALID_GAINS
    ensures var (r, ok) := Hwc.Overwrite(g, values, m);
            !ok && forall k | 0 <= k < |g| ::
              if m <= k < j then Hwc.VALID_GAINS[r[k]] == values[k] else r[k] == g[k]
    decreases |g| - m
  {
    hide Hwc.GainIndex;
    var i := Hwc.GainIndex(values[m]);
    if m < j {
      OverwritesUpTo(g[m := i.value], values, m + 1, j);
    } else {
      assert i.None?;
    }
  }

  /** A list with an unsupported value is stored up to that value and not sent, and the AGC stays as it is. */
  lemma UnsupportedIsStoredPartly(c: Hwc.Config, s: Hwc.State, values: seq<nat>, j: nat)
    requires Hwc.ValidConfig(c) && Hwc.ValidState(c, s) && |values| == c.chNum && j < c.chNum
    requires values[j] !in Hwc.VALID_GAINS && forall k | 0 <= k < j :: values[k] in Hwc.VALID_GAINS
    ensures var (s', cmds) := Hwc.HandleRequest(c, s, Hwc.Gain(values));
            var (before, after) := if s.noiseSourceState then (s.lastGains, s'.lastGains) else (s.gains, s'.gains);
            && cmds == [] && s'.agc == s.agc && s'.lastAgc == s.lastAgc
            && (if s.noiseSourceState then s'.gains == s.gains else s'.lastGains == s.lastGains)
            && forall k | 0 <= k < c.chNum ::
                 if k < j then Hwc.VALID_GAINS[after[k]] == values[k] else after[k] == before[k]
  {
    hide Hwc.Overwrite;
    OverwritesUpTo(s.gains, values, 0, j);
    OverwritesUpTo(s.lastGains, values, 0, j);
  }

  /** In the other states requests are left alone. */
  lemma RequestsWait(c: Hwc.Config, s: Hwc.State, h: IqHeader, approval: bool, request: Option<Hwc.Request>)
    requires Hwc.ValidConfig(c) && Hwc.ValidState(c, s) && |h.ifGains| == 32 && Hwc.ValidRequest(c, request)
    requires IsDummy(h) || !s.fsm.StateIqCal?
    ensures Hwc.ProcessFrame(c, s, h, approval, request) == Hwc.ProcessFrame(c, s, h, false, None)
  {
    hide Hwc.ChangeGains, Hwc.TuneGains, Hwc.GainsMatch, Hwc.IqCal;
  }
}
