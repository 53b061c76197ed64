/**
 * The receiver process as a step system: a command from the control socket and one turn of the
 * main acquisition loop are each one atomic step. A turn first sends a frame and then applies the
 * changes that were requested; the outcome of each hardware call is an input.
 */
module RtlDaq {
  import opened Common
  import opened IqHeaders

  const NO_DUMMY_FRAMES: nat := 5

  /** A correction at or above this limit, in ppm, is not reset after one frame. */
  const FS_CORRECTION_KEEP_LIMIT: real := 0.008

  datatype Config = Config(chNo: nat, daqBufferSize: nat, enNoiseSourceCtr: bool)

  ghost predicate ValidConfig(c: Config) {
    0 < c.chNo <= 32 && 0 < c.daqBufferSize
  }

  /** The settings of one receiver. */
  datatype Receiver = Receiver(gain: nat, agc: bool, centerFreq: nat, ppm: real)

  datatype Command =
    | Tune(freq: nat)
    | SetGains(gains: seq<nat>)
    | EnableAgc
    | CorrectFs(ppm: seq<real>)
    | SwitchNoise(on: bool)
    | Halt
    | Unknown

  ghost predicate ValidCommand(c: Config, cmd: Command) {
    && (cmd.SetGains? ==> |cmd.gains| == c.chNo)
    && (cmd.CorrectFs? ==> |cmd.ppm| == c.chNo)
  }

  /** `left` is history: the main loop has found the exit flag set and has ended. */
  datatype State = State(
    enDummyFrame: bool,
    dummyFrameCntr: nat,
    noiseSourceState: bool,
    lastNoiseSourceState: bool,
    gainChangeFlag: bool,
    newGains: seq<nat>,
    fsCorrectionFlag: bool,
    fsResetCntr: nat,
    newFsCorrections: seq<real>,
    centerFreqChangeFlag: bool,
    newCenterFreq: nat,
    agcChangeFlag: bool,
    exitFlag: bool,
    left: bool,
    readBuffInd: nat,
    receivers: seq<Receiver>,
    header: IqHeader)

  ghost predicate ValidState(c: Config, s: State) {
    && |s.receivers| == c.chNo && |s.newGains| == c.chNo && |s.newFsCorrections| == c.chNo
    && |s.header.ifGains| == 32
  }

  /** The state in which the main loop starts. */
  function Initial(c: Config, gain: nat, freq: nat, header: IqHeader): State {
    State(false, 0, false, false, false, Repeat(0, c.chNo), false, 0, Repeat(0.0, c.chNo), false, 0, false,
          false, false, 0, Repeat(Receiver(gain, false, freq, 0.0), c.chNo), header)
  }

  /** What a command asks for. */
  function Request(c: Config, s: State, cmd: Command): (r: State)
    requires ValidState(c, s) && ValidCommand(c, cmd)
    ensures ValidState(c, r)
  {
    match cmd
    case Tune(freq) => s.(newCenterFreq := freq, centerFreqChangeFlag := true)
    case SetGains(gains) => s.(newGains := gains, gainChangeFlag := true)
    case EnableAgc => s.(agcChangeFlag := true)
    case CorrectFs(ppm) => s.(newFsCorrections := ppm, fsResetCntr := 0, fsCorrectionFlag := true)
    case SwitchNoise(on) => s.(noiseSourceState := on)
    case Halt => s.(exitFlag := true)
    case Unknown => s
  }

  /** The control thread on a command: the request is recorded and the dummy window starts over. */
  function Order(c: Config, s: State, cmd: Command): (r: State)
    requires ValidState(c, s) && ValidCommand(c, cmd)
    ensures ValidState(c, r)
  {
    var r := Request(c, s, cmd);
    r.(enDummyFrame := true, dummyFrameCntr := 0)
  }

  // ---- one turn of the main loop ----

  /** What a turn reads from outside: the clock and the overdrive flags. */
  datatype Measured = Measured(timeStamp: nat, overdriveFlags: nat)

  /** Which hardware calls of a turn succeed, per channel; a tuned frequency is read back. */
  datatype Hardware = Hardware(freq: seq<Option<nat>>, gainOk: seq<bool>, agcOk: seq<bool>, fsOk: seq<bool>)

  ghost predicate ValidHardware(c: Config, hw: Hardware) {
    |hw.freq| == c.chNo && |hw.gainOk| == c.chNo && |hw.agcOk| == c.chNo && |hw.fsOk| == c.chNo
  }

  datatype Change = FreqChange | GainChange | AgcChange | FsSet | FsReset | NoiseSwitch

  datatype Event = Emitted(header: IqHeader) | Applied(change: Change)

  function IfGains(s: State, chNo: nat): (r: seq<nat>)
    requires chNo <= |s.receivers| && chNo <= |s.header.ifGains|
    ensures |r| == |s.header.ifGains|
  {
    seq(chNo, i requires 0 <= i < chNo => s.receivers[i].gain) + s.header.ifGains[chNo..]
  }

  function FrameType(s: State): nat {
    if s.enDummyFrame then FRAME_TYPE_DUMMY
    else if s.noiseSourceState then FRAME_TYPE_CAL
    else FRAME_TYPE_DATA
  }

  /** The header of the frame that a turn sends in state `s`. */
  function NextHeader(c: Config, s: State, m: Measured): (h: IqHeader)
    requires ValidConfig(c) && ValidState(c, s)
    ensures |h.ifGains| == 32
  {
    s.header.(
      timeStamp := m.timeStamp,
      daqBlockIndex := s.readBuffInd % 0x1_0000_0000,
      rfCenterFreq := s.receivers[c.chNo - 1].centerFreq,
      ifGains := IfGains(s, c.chNo),
      adcOverdriveFlags := m.overdriveFlags,
      noiseSourceState := if s.noiseSourceState then 1 else 0,
      frameType := FrameType(s),
      dataType := if s.enDummyFrame then 0 else 1,
      cpiLength := if s.enDummyFrame then 0 else c.daqBufferSize)
  }

  /** Sending the frame: the block index advances and a dummy frame counts towards the window. */
  function SendFrame(c: Config, s: State, m: Measured): (r: State)
    requires ValidConfig(c) && ValidState(c, s)
    ensures ValidState(c, r)
  {
    var cntr := if s.enDummyFrame then s.dummyFrameCntr + 1 else s.dummyFrameCntr;
    s.(header := NextHeader(c, s, m), readBuffInd := s.readBuffInd + 1, dummyFrameCntr := cntr,
       enDummyFrame := s.enDummyFrame && cntr != NO_DUMMY_FRAMES)
  }

  function TuneAll(rx: seq<Receiver>, freq: seq<Option<nat>>): (r: seq<Receiver>)
    requires |rx| == |freq|
    ensures |r| == |rx|
  {
    seq(|rx|, i requires 0 <= i < |rx| =>
      match freq[i] case Some(f) => rx[i].(centerFreq := f) case None => rx[i])
  }

  function GainAll(rx: seq<Receiver>, gains: seq<nat>, ok: seq<bool>): (r: seq<Receiver>)
    requires |rx| == |gains| == |ok|
    ensures |r| == |rx|
  {
    seq(|rx|, i requires 0 <= i < |rx| =>
      if ok[i] then rx[i].(gain := gains[i], agc := false) else rx[i])
  }

  function AgcAll(rx: seq<Receiver>, ok: seq<bool>): (r: seq<Receiver>)
    requires |rx| == |ok|
    ensures |r| == |rx|
  {
    seq(|rx|, i requires 0 <= i < |rx| => if ok[i] then rx[i].(agc := true) else rx[i])
  }

  function PpmAll(rx: seq<Receiver>, ppm: seq<real>, ok: seq<bool>): (r: seq<Receiver>)
    requires |rx| == |ppm| == |ok|
    ensures |r| == |rx|
  {
    seq(|rx|, i requires 0 <= i < |rx| => if ok[i] then rx[i].(ppm := ppm[i]) else rx[i])
  }

  function Magnitude(x: real): real {
    if x < 0.0 then -x else x
  }

  /** Corrections below the keep limit go back to zero. */
  function PpmReset(rx: seq<Receiver>, ppm: seq<real>, ok: seq<bool>): (r: seq<Receiver>)
    requires |rx| == |ppm| == |ok|
    ensures |r| == |rx|
  {
    seq(|rx|, i requires 0 <= i < |rx| =>
      if Magnitude(ppm[i]) < FS_CORRECTION_KEEP_LIMIT && ok[i] then rx[i].(ppm := 0.0) else rx[i])
  }

  /** The receiver settings after the requested frequency, gain and AGC changes. */
  function RetuneFront(c: Config, s: State, hw: Hardware): (r: seq<Receiver>)
    requires ValidState(c, s) && ValidHardware(c, hw)
    ensures |r| == c.chNo
  {
    var rx1 := if s.centerFreqChangeFlag then TuneAll(s.receivers, hw.freq) else s.receivers;
    var rx2 := if s.gainChangeFlag then GainAll(rx1, s.newGains, hw.gainOk) else rx1;
    if s.agcChangeFlag then AgcAll(rx2, hw.agcOk) else rx2
  }

  /** The receiver settings after the requested changes of one turn. */
  function Retune(c: Config, s: State, hw: Hardware): (r: seq<Receiver>)
    requires ValidState(c, s) && ValidHardware(c, hw)
    ensures |r| == c.chNo
  {
    var rx := RetuneFront(c, s, hw);
    if !s.fsCorrectionFlag then rx
    else if s.fsResetCntr == 0 then PpmAll(rx, s.newFsCorrections, hw.fsOk)
    else if s.fsResetCntr == 1 then PpmReset(rx, s.newFsCorrections, hw.fsOk)
    else rx
  }

  function FrontChanges(s: State): seq<Event> {
    (if s.centerFreqChangeFlag then [Applied(FreqChange)] else []) +
    (if s.gainChangeFlag then [Applied(GainChange)] else []) +
    (if s.agcChangeFlag then [Applied(AgcChange)] else [])
  }

  function RateChanges(s: State): seq<Event> {
    if s.fsCorrectionFlag && s.fsResetCntr == 0 then [Applied(FsSet)]
    else if s.fsCorrectionFlag && s.fsResetCntr == 1 then [Applied(FsReset)] else []
  }

  /** The changes one turn applies, in order. */
  function Changes(c: Config, s: State): seq<Event> {
    FrontChanges(s) + RateChanges(s) +
    (if s.lastNoiseSourceState != s.noiseSourceState && c.enNoiseSourceCtr then [Applied(NoiseSwitch)] else [])
  }

  /** Tuner control: the requests are carried out and their flags cleared; then the loop tests the exit flag. */
  function Control(c: Config, s: State, hw: Hardware): (r: State)
    requires ValidState(c, s) && ValidHardware(c, hw)
    ensures ValidState(c, r)
  {
    s.(receivers := Retune(c, s, hw),
       centerFreqChangeFlag := false, gainChangeFlag := false, agcChangeFlag := false,
       fsCorrectionFlag := s.fsCorrectionFlag && s.fsResetCntr != 1,
       fsResetCntr := if s.fsCorrectionFlag then s.fsResetCntr + 1 else s.fsResetCntr,
       lastNoiseSourceState := s.noiseSourceState, left := s.exitFlag)
  }

  // ---- runs ----

  /** The main loop is woken up with a frame to send, or with some receiver not ready. */
  datatype Step = Command(cmd: Command) | Turn(m: Measured, hw: Hardware) | NotReady

  ghost predicate ValidStep(c: Config, step: Step) {
    match step
    case Command(cmd) => ValidCommand(c, cmd)
    case Turn(_, hw) => ValidHardware(c, hw)
    case NotReady => true
  }

  /** One step and the events it adds to the log; a halt that arrives while the loop waits lets it finish its turn. */
  function Next(c: Config, s: State, step: Step): (r: (State, seq<Event>))
    requires ValidConfig(c) && ValidState(c, s) && ValidStep(c, step)
    ensures ValidState(c, r.0)
  {
    match step
    case Command(cmd) => (Order(c, s, cmd), [])
    case Turn(m, hw) =>
      if s.left then (s, [])
      else
        var sent := SendFrame(c, s, m);
        (Control(c, sent, hw), [Emitted(sent.header)] + Changes(c, sent))
    case NotReady => (s.(left := s.left || s.exitFlag), [])
  }

  ghost predicate ValidRun(c: Config, steps: seq<Step>) {
    forall i | 0 <= i < |steps| :: ValidStep(c, steps[i])
  }

  /** The state after a run of steps from `s`, and the log of what was sent and applied. */
  function Run(c: Config, s: State, steps: seq<Step>): (r: (State, seq<Event>))
    requires ValidConfig(c) && ValidState(c, s) && ValidRun(c, steps)
    ensures ValidState(c, r.0)
  {
    if steps == [] then (s, [])
    else
      var (before, log) := Run(c, s, steps[..|steps| - 1]);
      var (after, events) := Next(c, before, steps[|steps| - 1]);
      (after, log + events)
  }
}
