/**
 * The hardware controller as a function on values: for every frame that arrives it moves its state
 * machine and orders the receiver process to change gains, frequency or the noise source.
 */
module HwController {
  import opened Common
  import opened IqHeaders
  import Daq = RtlDaq

  /** Gains of the tuner in tenths of a dB; a gain index is a position in this list. */
  const VALID_GAINS: seq<nat> :=
    [0, 9, 14, 27, 37, 77, 87, 125, 144, 157, 166, 197, 207, 229, 254, 280, 297, 328, 338, 364, 372, 386, 402, 421,
     434, 439, 445, 480, 496]

  const MAX_GAIN_INDEX: nat := 28

  /** Calibration frequencies in Hz and the gain index for each. */
  const CAL_FREQS: seq<nat> :=
    [100_000_000, 200_000_000, 300_000_000, 400_000_000, 500_000_000, 600_000_000, 700_000_000, 1_700_000_000]
  const CAL_GAINS: seq<nat> := [6, 10, 13, 14, 18, 22, 28, 28]

  datatype Config = Config(
    chNum: nat,
    unifiedGainControl: bool,
    calTrackMode: nat,
    calFrameInterval: nat,
    calFrameBurstSize: nat,
    gainLockInterval: nat,
    requireTrackLockIntervention: bool)

  ghost predicate ValidConfig(c: Config) {
    0 < c.chNum <= 32 && c.calTrackMode <= 2 && 0 < c.calFrameInterval && 0 < c.calFrameBurstSize
  }

  datatype Fsm = StateInit | StateGainCtrWait | StateGainTune | StateIqCal | StateNoiseCtrWait

  /** Gains are gain indices. */
  datatype State = State(
    fsm: Fsm,
    gains: seq<nat>,
    lastGains: seq<nat>,
    gainTuneStates: seq<bool>,
    gainLockCntr: nat,
    noiseSourceState: bool,
    agc: bool,
    lastAgc: bool,
    calFrameCntr: nat)

  ghost predicate ValidGainList(c: Config, gains: seq<nat>) {
    |gains| == c.chNum && forall m | 0 <= m < c.chNum :: gains[m] <= MAX_GAIN_INDEX
  }

  ghost predicate ValidState(c: Config, s: State) {
    ValidGainList(c, s.gains) && ValidGainList(c, s.lastGains) && |s.gainTuneStates| == c.chNum
  }

  /** A request of the control interface; gains are values, not indices. */
  datatype Request = Freq(freq: nat) | Gain(values: seq<nat>) | Agc | Other

  ghost predicate ValidRequest(c: Config, r: Option<Request>) {
    r.Some? && r.value.Gain? ==> |r.value.values| == c.chNum
  }

  // ---- gains ----

  function MinOf(g: seq<nat>): (r: nat)
    requires g != []
    ensures r in g && forall m | 0 <= m < |g| :: r <= g[m]
  {
    if |g| == 1 then g[0]
    else
      var rest := MinOf(g[1..]);
      assert forall m | 1 <= m < |g| :: g[m] == g[1..][m - 1];
      if g[0] <= rest then g[0] else rest
  }

  /** Under unified gain control every channel gets the smallest gain. */
  function Unify(c: Config, g: seq<nat>): (r: seq<nat>)
    requires 0 < |g| == c.chNum
    ensures |r| == c.chNum
  {
    if c.unifiedGainControl then Repeat(MinOf(g), c.chNum) else g
  }

  function GainValues(c: Config, g: seq<nat>): (r: seq<nat>)
    requires ValidGainList(c, g)
    ensures |r| == c.chNum
  {
    seq(c.chNum, m requires 0 <= m < c.chNum => VALID_GAINS[g[m]])
  }

  /** `_change_gains`: unify, then send the gain values. */
  function ChangeGains(c: Config, s: State): (r: (State, seq<Daq.Command>))
    requires ValidConfig(c) && ValidState(c, s)
    ensures ValidState(c, r.0)
  {
    var gains := Unify(c, s.gains);
    (s.(gains := gains), [Daq.SetGains(GainValues(c, gains))])
  }

  /** The header reports the gains that were sent. */
  predicate GainsMatch(c: Config, g: seq<nat>, h: IqHeader)
    requires |g| == c.chNum <= |h.ifGains| && forall m | 0 <= m < c.chNum :: g[m] <= MAX_GAIN_INDEX
  {
    forall m | 0 <= m < c.chNum :: VALID_GAINS[g[m]] == h.ifGains[m]
  }

  // ---- gain tuning ----

  /** What `_tune_gains` does to the gains and tuning flags at channel `m`. */
  function TuneOne(c: Config, flags: nat, g: seq<nat>, t: seq<bool>, m: nat): (r: (seq<nat>, seq<bool>))
    requires ValidGainList(c, g) && |t| == c.chNum && m < c.chNum
    ensures ValidGainList(c, r.0) && |r.1| == c.chNum
  {
    if Bit(flags, m) then
      (if g[m] != 0 then g[m := g[m] - 1] else g,
       if c.unifiedGainControl then Repeat(false, c.chNum) else t[m := false])
    else if !t[m] then
      (g, t)
    else if g[m] < MAX_GAIN_INDEX then
      (g[m := g[m] + 1], t)
    else
      (g, if c.unifiedGainControl then Repeat(false, c.chNum) else t[m := false])
  }

  function TuneUpTo(c: Config, flags: nat, g: seq<nat>, t: seq<bool>, m: nat): (r: (seq<nat>, seq<bool>))
    requires ValidGainList(c, g) && |t| == c.chNum && m <= c.chNum
    ensures ValidGainList(c, r.0) && |r.1| == c.chNum
  {
    if m == 0 then (g, t)
    else
      var (g', t') := TuneUpTo(c, flags, g, t, m - 1);
      TuneOne(c, flags, g', t', m - 1)
  }

  /** `_tune_gains`: nothing happens while the header does not report the gains that were sent. */
  function TuneGains(c: Config, s: State, h: IqHeader): (r: (State, seq<Daq.Command>))
    requires ValidConfig(c) && ValidState(c, s) && |h.ifGains| == 32
    ensures ValidState(c, r.0)
  {
    if !GainsMatch(c, s.gains, h) then (s, [])
    else
      var (g, t) := TuneUpTo(c, h.adcOverdriveFlags, s.gains, s.gainTuneStates, c.chNum);
      ChangeGains(c, s.(gains := g, gainTuneStates := t))
  }

  // ---- noise source ----

  function Distance(a: nat, b: nat): nat {
    if a <= b then b - a else a - b
  }

  /** The first of the `n` first calibration frequencies that is nearest to `freq`. */
  function Nearest(freq: nat, n: nat): (i: nat)
    requires 0 < n <= |CAL_FREQS|
    ensures i < n
    ensures forall j | 0 <= j < n :: Distance(CAL_FREQS[i], freq) <= Distance(CAL_FREQS[j], freq)
    ensures forall j | 0 <= j < i :: Distance(CAL_FREQS[i], freq) < Distance(CAL_FREQS[j], freq)
  {
    if n == 1 then 0
    else
      var i := Nearest(freq, n - 1);
      if Distance(CAL_FREQS[n - 1], freq) < Distance(CAL_FREQS[i], freq) then n - 1 else i
  }

  function CalGain(freq: nat): (g: nat)
    ensures g <= MAX_GAIN_INDEX
  {
    CAL_GAINS[Nearest(freq, |CAL_FREQS|)]
  }

  /** `_control_noise_source(True)`: save the gains, send the calibration gain, switch on. */
  function NoiseOn(c: Config, s: State, freq: nat): (r: (State, seq<Daq.Command>))
    requires ValidConfig(c) && ValidState(c, s)
    ensures ValidState(c, r.0)
  {
    var saved := s.(lastAgc := s.agc, agc := false, lastGains := s.gains,
                    gains := Repeat(CalGain(freq), c.chNum));
    var (sent, gainCmd) := ChangeGains(c, saved);
    (sent.(noiseSourceState := true, fsm := StateNoiseCtrWait), gainCmd + [Daq.SwitchNoise(true)])
  }

  /** `_control_noise_source(False)`: switch off, restore the gains and the AGC. */
  function NoiseOff(c: Config, s: State): (r: (State, seq<Daq.Command>))
    requires ValidConfig(c) && ValidState(c, s)
    ensures ValidState(c, r.0)
  {
    var (sent, gainCmd) := ChangeGains(c, s.(noiseSourceState := false, gains := s.lastGains));
    (sent.(agc := s.lastAgc, fsm := StateNoiseCtrWait),
     [Daq.SwitchNoise(false)] + gainCmd + (if s.lastAgc then [Daq.EnableAgc] else []))
  }

  // ---- external requests ----

  /** The index of a gain value; absent values make `list.index` raise. */
  function GainIndex(value: nat): (i: Option<nat>)
    ensures i.Some? ==> i.value <= MAX_GAIN_INDEX && VALID_GAINS[i.value] == value
    ensures i.None? ==> value !in VALID_GAINS
  {
    IndexFrom(VALID_GAINS, value, 0)
  }

  function IndexFrom(list: seq<nat>, value: nat, from: nat): (i: Option<nat>)
    requires from <= |list|
    ensures i.Some? ==> from <= i.value < |list| && list[i.value] == value
    ensures i.Some? ==> forall k | from <= k < i.value :: list[k] != value
    ensures i.None? ==> forall k | from <= k < |list| :: list[k] != value
    decreases |list| - from
  {
    if from == |list| then None
    else if list[from] == value then Some(from)
    else IndexFrom(list, value, from + 1)
  }

  /** A gain list overwritten value by value up to the first unsupported one. */
  function Overwrite(g: seq<nat>, values: seq<nat>, m: nat): (r: (seq<nat>, bool))
    requires |g| == |values| && m <= |g| && forall k | 0 <= k < |g| :: g[k] <= MAX_GAIN_INDEX
    ensures |r.0| == |g| && forall k | 0 <= k < |g| :: r.0[k] <= MAX_GAIN_INDEX
    decreases |g| - m
  {
    if m == |g| then (g, true)
    else
      match GainIndex(values[m])
      case None => (g, false)
      case Some(i) => Overwrite(g[m := i], values, m + 1)
  }

  /** `_handle_control_reqest`. */
  function HandleRequest(c: Config, s: State, r: Request): (res: (State, seq<Daq.Command>))
    requires ValidConfig(c) && ValidState(c, s) && ValidRequest(c, Some(r))
    ensures ValidState(c, res.0)
  {
    match r
    case Freq(freq) => (s, [Daq.Tune(freq)])
    case Gain(values) =>
      if s.noiseSourceState then
        var (g, ok) := Overwrite(s.lastGains, values, 0);
        (s.(lastGains := g, agc := s.agc && !ok), [])
      else
        var (g, ok) := Overwrite(s.gains, values, 0);
        if ok then
          var (sent, cmds) := ChangeGains(c, s.(gains := g));
          (sent.(agc := false), cmds)
        else
          (s.(gains := g), [])
    case Agc =>
      if s.noiseSourceState then (s.(lastAgc := true), [])
      else (s.(agc := true), [Daq.EnableAgc])
    case Other => (s, [])
  }

  // ---- the state machine ----

  /** The part of STATE_IQ_CAL that follows the synchronizer's state. */
  function FollowSync(c: Config, s: State, h: IqHeader, approval: bool): (r: (State, seq<Daq.Command>))
    requires ValidConfig(c) && ValidState(c, s)
    ensures ValidState(c, r.0)
  {
    if c.calTrackMode == 2 && s.calFrameCntr >= c.calFrameInterval then (s, [])
    else if h.syncState < 5 then
      if h.noiseSourceState == 0 then NoiseOn(c, s, h.rfCenterFreq) else (s, [])
    else if h.noiseSourceState == 1 && (c.requireTrackLockIntervention ==> approval) then NoiseOff(c, s)
    else (s, [])
  }

  /** The part of STATE_IQ_CAL that makes bursts of calibration frames. */
  function Burst(c: Config, s: State, h: IqHeader): (r: (State, seq<Daq.Command>))
    requires ValidConfig(c) && ValidState(c, s)
    ensures ValidState(c, r.0)
  {
    if c.calTrackMode != 2 then (s, [])
    else if h.syncState != 6 then (s.(calFrameCntr := 0), [])
    else
      var counted := s.(calFrameCntr := s.calFrameCntr + 1);
      if counted.calFrameCntr == c.calFrameInterval then
        NoiseOn(c, counted, h.rfCenterFreq)
      else if counted.calFrameCntr == c.calFrameInterval + c.calFrameBurstSize then
        var (off, cmds) := NoiseOff(c, counted);
        (off.(calFrameCntr := 0), cmds)
      else
        (counted, [])
  }

  function IqCal(c: Config, s: State, h: IqHeader, approval: bool, request: Option<Request>)
    : (r: (State, seq<Daq.Command>))
    requires ValidConfig(c) && ValidState(c, s) && ValidRequest(c, request)
    ensures ValidState(c, r.0)
  {
    var (s1, cmds1) := FollowSync(c, s, h, approval);
    var (s2, cmds2) := Burst(c, s1, h);
    var (s3, cmds3) := if request.Some? then HandleRequest(c, s2, request.value) else (s2, []);
    (s3, cmds1 + cmds2 + cmds3)
  }

  /** One frame: the new state and the commands sent, in order. Dummy frames are ignored. */
  function ProcessFrame(c: Config, s: State, h: IqHeader, approval: bool, request: Option<Request>)
    : (r: (State, seq<Daq.Command>))
    requires ValidConfig(c) && ValidState(c, s) && |h.ifGains| == 32 && ValidRequest(c, request)
    ensures ValidState(c, r.0)
  {
    if IsDummy(h) then (s, [])
    else
      match s.fsm
      case StateInit =>
        var (s', cmds) := ChangeGains(c, s);
        (s'.(fsm := if true in s.gainTuneStates then StateGainCtrWait else StateIqCal),
         cmds + [Daq.SwitchNoise(false)])
      case StateGainCtrWait =>
        (if GainsMatch(c, s.gains, h) then s.(fsm := StateGainTune) else s, [])
      case StateGainTune =>
        if h.adcOverdriveFlags != 0 || true in s.gainTuneStates then
          var (s', cmds) := TuneGains(c, s, h);
          (s'.(fsm := StateGainCtrWait, gainLockCntr := 0), cmds)
        else if s.gainLockCntr == c.gainLockInterval then
          (s.(fsm := StateIqCal, gainLockCntr := 0), [])
        else
          (s.(gainLockCntr := s.gainLockCntr + 1), [])
      case StateIqCal => IqCal(c, s, h, approval, request)
      case StateNoiseCtrWait =>
        (if s.noiseSourceState == (h.noiseSourceState == 1) && h.noiseSourceState <= 1 && GainsMatch(c, s.gains, h)
         then s.(fsm := StateIqCal) else s, [])
  }
}
