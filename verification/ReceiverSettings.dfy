/**
 * The settings of the receivers over runs of the receiver process: which commands a turn carries out, what each
 * logged change does to each receiver when its hardware call succeeds or fails, what stays as it was, and
 * what the headers report until the next change.
 */
module ReceiverSettings {
  import opened Common
  import opened IqHeaders
  import opened RtlDaq
  import DummyWindow

  ghost predicate Logged(events: seq<Event>, k: Change) {
    Applied(k) in events
  }

  // ---- what one turn logs ----

  lemma FrontLogs(s: State)
    ensures var events := FrontChanges(s);
            && (Logged(events, FreqChange) <==> s.centerFreqChangeFlag)
            && (Logged(events, GainChange) <==> s.gainChangeFlag)
            && (Logged(events, AgcChange) <==> s.agcChangeFlag)
            && (forall e | e in events :: e in {Applied(FreqChange), Applied(GainChange), Applied(AgcChange)})
  {
  }

  /** The requests pending in the state in which a turn sends its frame are logged, and nothing else. */
  lemma TurnLogs(c: Config, s: State, m: Measured, hw: Hardware)
    requires ValidConfig(c) && ValidState(c, s) && ValidHardware(c, hw) && !s.left
    ensures var events := Next(c, s, Turn(m, hw)).1;
            && (Logged(events, FreqChange) <==> s.centerFreqChangeFlag)
            && (Logged(events, GainChange) <==> s.gainChangeFlag)
            && (Logged(events, AgcChange) <==> s.agcChangeFlag)
            && (Logged(events, FsSet) <==> s.fsCorrectionFlag && s.fsResetCntr == 0)
            && (Logged(events, FsReset) <==> s.fsCorrectionFlag && s.fsResetCntr == 1)
            && (Logged(events, NoiseSwitch) <==> c.enNoiseSourceCtr && s.noiseSourceState != s.lastNoiseSourceState)
  {
    hide NextHeader, Retune, FrontChanges;
    FrontLogs(SendFrame(c, s, m));
  }

  /** What a frame's header says of the state it is sent in; everything not named is as in the header before. */
  ghost predicate Describes(c: Config, s: State, m: Measured, h: IqHeader)
    requires ValidConfig(c) && ValidState(c, s)
  {
    && |h.ifGains| == 32
    && (forall i | 0 <= i < c.chNo :: h.ifGains[i] == s.receivers[i].gain)
    && (forall i | c.chNo <= i < 32 :: h.ifGains[i] == s.header.ifGains[i])
    && h.rfCenterFreq == s.receivers[c.chNo - 1].centerFreq
    && h.timeStamp == m.timeStamp && h.adcOverdriveFlags == m.overdriveFlags
    && h.daqBlockIndex == s.readBuffInd % 0x1_0000_0000
    && h.noiseSourceState == (if s.noiseSourceState then 1 else 0)
    && (if s.enDummyFrame then h.frameType == FRAME_TYPE_DUMMY && h.dataType == 0 && h.cpiLength == 0
        else h.frameType == (if s.noiseSourceState then FRAME_TYPE_CAL else FRAME_TYPE_DATA)
             && h.dataType == 1 && h.cpiLength == c.daqBufferSize)
    && Constant(h) == Constant(s.header)
  }

  /** The header fields that no turn writes. */
  function Constant(h: IqHeader): IqHeader {
    h.(ifGains := [], rfCenterFreq := 0, timeStamp := 0, adcOverdriveFlags := 0, daqBlockIndex := 0,
       noiseSourceState := 0, frameType := 0, dataType := 0, cpiLength := 0)
  }

  lemma HeaderDescribes(c: Config, s: State, m: Measured)
    requires ValidConfig(c) && ValidState(c, s)
    ensures Describes(c, s, m, NextHeader(c, s, m))
  {
  }

  lemma OnlyChanges(c: Config, s: State)
    ensures forall e | e in Changes(c, s) :: e.Applied?
  {
  }

  /** A turn sends one frame, which describes the state before it, and logs it before any change. */
  lemma TurnSends(c: Config, s: State, m: Measured, hw: Hardware)
    requires ValidConfig(c) && ValidState(c, s) && ValidHardware(c, hw) && !s.left
    ensures var (s', events) := Next(c, s, Turn(m, hw));
            && events != [] && events[0].Emitted? && Describes(c, s, m, events[0].header)
            && (forall j | 1 <= j < |events| :: events[j].Applied?)
            && s'.header == events[0].header && s'.readBuffInd == s.readBuffInd + 1
  {
    hide Retune, NextHeader, Changes, Describes;
    HeaderDescribes(c, s, m);
    var sent := SendFrame(c, s, m);
    OnlyChanges(c, sent);
    assert forall j | 0 <= j < |Changes(c, sent)| :: Changes(c, sent)[j] in Changes(c, sent);
  }

  // ---- what one turn does to the receivers ----

  /** One receiver before and after a turn, by what the turn logged and which hardware calls succeeded. */
  ghost predicate Sets(s: State, hw: Hardware, events: seq<Event>, i: nat, rx: Receiver, rx': Receiver)
    requires i < |hw.freq| && i < |hw.gainOk| && i < |hw.agcOk| && i < |hw.fsOk|
    requires i < |s.newGains| && i < |s.newFsCorrections|
  {
    && (Logged(events, FreqChange) && hw.freq[i].Some? ==> rx'.centerFreq == hw.freq[i].value)
    && (!Logged(events, FreqChange) || hw.freq[i].None? ==> rx'.centerFreq == rx.centerFreq)
    && (Logged(events, GainChange) && hw.gainOk[i] ==> rx'.gain == s.newGains[i])
    && (!Logged(events, GainChange) || !hw.gainOk[i] ==> rx'.gain == rx.gain)
    && (Logged(events, AgcChange) && hw.agcOk[i] ==> rx'.agc)
    && (!Logged(events, AgcChange) || !hw.agcOk[i] ==>
          rx'.agc == (rx.agc && !(Logged(events, GainChange) && hw.gainOk[i])))
    && (Logged(events, FsSet) && hw.fsOk[i] ==> rx'.ppm == s.newFsCorrections[i])
    && (Logged(events, FsReset) && hw.fsOk[i] && -0.008 < s.newFsCorrections[i] < 0.008 ==> rx'.ppm == 0.0)
    && ((!Logged(events, FsSet) && !Logged(events, FsReset)) || !hw.fsOk[i] ==> rx'.ppm == rx.ppm)
    && (Logged(events, FsReset) && !(-0.008 < s.newFsCorrections[i] < 0.008) ==> rx'.ppm == rx.ppm)
  }

  lemma TurnSets(c: Config, s: State, m: Measured, hw: Hardware, i: nat)
    requires ValidConfig(c) && ValidState(c, s) && ValidHardware(c, hw) && !s.left && i < c.chNo
    ensures var (s', events) := Next(c, s, Turn(m, hw));
            Sets(s, hw, events, i, s.receivers[i], s'.receivers[i])
  {
    hide NextHeader, Logged, Changes;
    TurnLogs(c, s, m, hw);
    var sent := SendFrame(c, s, m);
    assert sent.receivers == s.receivers && sent.newGains == s.newGains;
    assert Next(c, s, Turn(m, hw)).0.receivers[i] == Retune(c, sent, hw)[i];
  }

  // ---- runs ----

  lemma {:induction false} RunConcat(c: Config, s: State, a: seq<Step>, b: seq<Step>)
    requires ValidConfig(c) && ValidState(c, s) && ValidRun(c, a + b)
    ensures ValidRun(c, a) && ValidRun(c, b)
    ensures var (mid, log) := Run(c, s, a);
            Run(c, s, a + b) == (Run(c, mid, b).0, log + Run(c, mid, b).1)
    decreases |b|
  {
    hide Next;
    assert ValidRun(c, a) by { assert forall i | 0 <= i < |a| :: a[i] == (a + b)[i]; }
    assert ValidRun(c, b) by { assert forall i | 0 <= i < |b| :: b[i] == (a + b)[|a| + i]; }
    if b == [] {
      assert a + b == a;
      assert Run(c, s, a).1 + [] == Run(c, s, a).1;
    } else {
      var n := |b| - 1;
      assert (a + b)[..|a + b| - 1] == a + b[..n];
      RunConcat(c, s, a, b[..n]);
      LogsAppend(c, s, a, b);
    }
  }

  lemma LogsAppend(c: Config, s: State, a: seq<Step>, b: seq<Step>)
    requires ValidConfig(c) && ValidState(c, s) && ValidRun(c, a) && ValidRun(c, b) && b != []
    requires ValidRun(c, a + b[..|b| - 1])
    requires var (mid, log) := Run(c, s, a);
             Run(c, s, a + b[..|b| - 1]) == (Run(c, mid, b[..|b| - 1]).0, log + Run(c, mid, b[..|b| - 1]).1)
    ensures ValidRun(c, a + b)
    ensures Run(c, s, a + b) == (Run(c, Run(c, s, a).0, b).0, Run(c, s, a).1 + Run(c, Run(c, s, a).0, b).1)
  {
    hide Next, Run;
    var (mid, logA) := Run(c, s, a);
    var n := |b| - 1;
    assert (a + b)[..|a + b| - 1] == a + b[..n] && (a + b)[|a + b| - 1] == b[n];
    DummyWindow.RunUnfold(c, s, a + b);
    DummyWindow.RunUnfold(c, mid, b);
    var (before, logB) := Run(c, mid, b[..n]);
    var events := Next(c, before, b[n]).1;
    assert (logA + logB) + events == logA + (logB + events);
  }

  ghost predicate AllReport(log: seq<Event>, freq: nat) {
    forall e | e in log && e.Emitted? :: e.header.rfCenterFreq == freq
  }

  ghost predicate AllReportGain(log: seq<Event>, i: nat, gain: nat) {
    forall e | e in log && e.Emitted? :: i < |e.header.ifGains| && e.header.ifGains[i] == gain
  }

  /** A run without such a change leaves a setting of a receiver as it was. */
  ghost predicate Keeps(rx: Receiver, rx': Receiver, log: seq<Event>) {
    && (!Logged(log, FreqChange) ==> rx'.centerFreq == rx.centerFreq)
    && (!Logged(log, GainChange) ==> rx'.gain == rx.gain)
    && (!Logged(log, GainChange) && !Logged(log, AgcChange) ==> rx'.agc == rx.agc)
    && (!Logged(log, GainChange) && rx.agc ==> rx'.agc)
    && (!Logged(log, FsSet) && !Logged(log, FsReset) ==> rx'.ppm == rx.ppm)
  }

  lemma TurnReports(c: Config, s: State, m: Measured, hw: Hardware, i: nat)
    requires ValidConfig(c) && ValidState(c, s) && ValidHardware(c, hw) && !s.left && i < c.chNo
    ensures var events := Next(c, s, Turn(m, hw)).1;
            AllReport(events, s.receivers[c.chNo - 1].centerFreq) && AllReportGain(events, i, s.receivers[i].gain)
  {
    hide Next;
    TurnSends(c, s, m, hw);
  }

  lemma RequestLeaves(c: Config, s: State, cmd: Command)
    requires ValidState(c, s) && ValidCommand(c, cmd)
    ensures Request(c, s, cmd).receivers == s.receivers
    ensures Request(c, s, cmd).header == s.header
    ensures Request(c, s, cmd).readBuffInd == s.readBuffInd
  {
    hide ValidState;
    match cmd {
      case Tune(_) =>
      case _ =>
    }
  }

  lemma OrderLeaves(c: Config, s: State, cmd: Command)
    requires ValidState(c, s) && ValidCommand(c, cmd)
    ensures Order(c, s, cmd).receivers == s.receivers
    ensures Order(c, s, cmd).header == s.header
    ensures Order(c, s, cmd).readBuffInd == s.readBuffInd
  {
    hide ValidState, Request;
    RequestLeaves(c, s, cmd);
  }

  /** A command, or a turn that does not come, sends nothing and changes no receiver. */
  lemma NothingSent(c: Config, s: State, step: Step)
    requires ValidConfig(c) && ValidState(c, s) && ValidStep(c, step) && (step.Turn? ==> s.left)
    ensures var (s', events) := Next(c, s, step);
            events == [] && s'.receivers == s.receivers && s'.header == s.header && s'.readBuffInd == s.readBuffInd
  {
    hide Order, SendFrame, Control, Changes;
    if step.Command? {
      OrderLeaves(c, s, step.cmd);
    }
  }

  lemma StepKeeps(c: Config, s: State, step: Step, i: nat)
    requires ValidConfig(c) && ValidState(c, s) && ValidStep(c, step) && i < c.chNo
    ensures var (s', events) := Next(c, s, step);
            && Keeps(s.receivers[i], s'.receivers[i], events)
            && AllReport(events, s.receivers[c.chNo - 1].centerFreq)
            && AllReportGain(events, i, s.receivers[i].gain)
  {
    hide Next;
    if step.Turn? && !s.left {
      hide Logged, AllReport, AllReportGain;
      TurnSets(c, s, step.m, step.hw, i);
      TurnReports(c, s, step.m, step.hw, i);
    } else {
      NothingSent(c, s, step);
    }
  }

  /** In any run a setting stays as it is until its change is logged, and every header until then reports it. */
  lemma {:induction false} RunKeeps(c: Config, s: State, steps: seq<Step>, i: nat)
    requires ValidConfig(c) && ValidState(c, s) && ValidRun(c, steps) && i < c.chNo
    ensures var (s', log) := Run(c, s, steps);
            && Keeps(s.receivers[i], s'.receivers[i], log)
            && (!Logged(log, FreqChange) ==> AllReport(log, s.receivers[c.chNo - 1].centerFreq))
            && (!Logged(log, GainChange) ==> AllReportGain(log, i, s.receivers[i].gain))
  {
    hide Next;
    if steps != [] {
      var n := |steps| - 1;
      RunKeeps(c, s, steps[..n], i);
      RunKeeps(c, s, steps[..n], c.chNo - 1);
      StepKeeps(c, Run(c, s, steps[..n]).0, steps[n], i);
    }
  }

  // ---- commands ----

  /** What has been asked for and is to be carried out: values and flags. */
  datatype Orders = Orders(freq: nat, gains: seq<nat>, ppm: seq<real>, noise: bool,
                           tune: bool, gain: bool, agc: bool, correct: bool)

  function OrdersOf(s: State): Orders {
    Orders(s.newCenterFreq, s.newGains, s.newFsCorrections, s.noiseSourceState,
           s.centerFreqChangeFlag, s.gainChangeFlag, s.agcChangeFlag, s.fsCorrectionFlag && s.fsResetCntr == 0)
  }

  /** A command overwrites the order of its own kind and leaves the others. */
  function Placed(o: Orders, cmd: Command): Orders {
    match cmd
    case Tune(f) => o.(freq := f, tune := true)
    case SetGains(g) => o.(gains := g, gain := true)
    case EnableAgc => o.(agc := true)
    case CorrectFs(p) => o.(ppm := p, correct := true)
    case SwitchNoise(on) => o.(noise := on)
    case Halt => o
    case Unknown => o
  }

  /** A run while no frame is sent. */
  ghost predicate Waiting(steps: seq<Step>) {
    forall i | 0 <= i < |steps| :: !steps[i].Turn?
  }

  function PlacedAll(o: Orders, steps: seq<Step>): Orders {
    if steps == [] then o
    else
      var before, last := PlacedAll(o, steps[..|steps| - 1]), steps[|steps| - 1];
      if last.Command? then Placed(before, last.cmd) else before
  }

  lemma RequestPlaces(c: Config, s: State, cmd: Command)
    requires ValidState(c, s) && ValidCommand(c, cmd)
    ensures OrdersOf(Request(c, s, cmd)) == Placed(OrdersOf(s), cmd)
    ensures !cmd.CorrectFs? ==> Request(c, s, cmd).fsCorrectionFlag == s.fsCorrectionFlag
    ensures !cmd.CorrectFs? ==> Request(c, s, cmd).fsResetCntr == s.fsResetCntr
  {
    hide ValidState;
    match cmd {
      case Tune(_) =>
      case _ =>
    }
  }

  lemma OrderPlaces(c: Config, s: State, cmd: Command)
    requires ValidState(c, s) && ValidCommand(c, cmd)
    ensures OrdersOf(Order(c, s, cmd)) == Placed(OrdersOf(s), cmd)
    ensures !cmd.CorrectFs? ==> Order(c, s, cmd).fsCorrectionFlag == s.fsCorrectionFlag
    ensures !cmd.CorrectFs? ==> Order(c, s, cmd).fsResetCntr == s.fsResetCntr
  {
    hide ValidState, Request, Placed;
    RequestPlaces(c, s, cmd);
  }

  lemma WaitingStep(c: Config, s: State, step: Step)
    requires ValidConfig(c) && ValidState(c, s) && ValidStep(c, step) && !step.Turn?
    ensures OrdersOf(Next(c, s, step).0) == if step.Command? then Placed(OrdersOf(s), step.cmd) else OrdersOf(s)
    ensures !(step.Command? && step.cmd.CorrectFs?) ==>
              && Next(c, s, step).0.fsCorrectionFlag == s.fsCorrectionFlag
              && Next(c, s, step).0.fsResetCntr == s.fsResetCntr
    ensures Next(c, s, step).1 == []
  {
    hide ValidState, SendFrame, Control, Changes, Order;
    if step.Command? {
      OrderPlaces(c, s, step.cmd);
    }
  }

  /** Between two frames the last command of each kind stands, and every kind asked for is pending. */
  lemma {:induction false} OrdersStand(c: Config, s: State, steps: seq<Step>)
    requires ValidConfig(c) && ValidState(c, s) && ValidRun(c, steps) && Waiting(steps)
    ensures OrdersOf(Run(c, s, steps).0) == PlacedAll(OrdersOf(s), steps)
    ensures Run(c, s, steps).1 == []
  {
    hide Next, OrdersOf, Placed;
    if steps != [] {
      var n := |steps| - 1;
      OrdersStand(c, s, steps[..n]);
      WaitingStep(c, Run(c, s, steps[..n]).0, steps[n]);
    }
  }

  /** A turn carries out the orders: none is pending after it, and the values stand. */
  lemma TurnClears(c: Config, s: State, m: Measured, hw: Hardware)
    requires ValidConfig(c) && ValidState(c, s) && ValidHardware(c, hw) && !s.left
    ensures var s' := Next(c, s, Turn(m, hw)).0;
            OrdersOf(s') == OrdersOf(s).(tune := false, gain := false, agc := false, correct := false)
    ensures var s' := Next(c, s, Turn(m, hw)).0;
            && (s'.fsCorrectionFlag && s'.fsResetCntr == 1 <==> s.fsCorrectionFlag && s.fsResetCntr == 0)
            && (s'.fsCorrectionFlag <==> s.fsCorrectionFlag && s.fsResetCntr != 1)
  {
    hide ValidState, Retune, Changes, NextHeader;
  }

  /** The command asks for the same kind of change. */
  predicate SameKind(a: Command, b: Command) {
    match a
    case Tune(_) => b.Tune?
    case SetGains(_) => b.SetGains?
    case EnableAgc => b.EnableAgc?
    case CorrectFs(_) => b.CorrectFs?
    case SwitchNoise(_) => b.SwitchNoise?
    case Halt => b.Halt?
    case Unknown => b.Unknown?
  }

  ghost predicate NoneLike(cmd: Command, steps: seq<Step>) {
    forall i | 0 <= i < |steps| && steps[i].Command? :: !SameKind(cmd, steps[i].cmd)
  }

  /** The order that a command places is still there after commands of other kinds. */
  ghost predicate Stands(cmd: Command, o: Orders) {
    match cmd
    case Tune(f) => o.tune && o.freq == f
    case SetGains(g) => o.gain && o.gains == g
    case EnableAgc => o.agc
    case CorrectFs(p) => o.correct && o.ppm == p
    case SwitchNoise(on) => o.noise == on
    case Halt => true
    case Unknown => true
  }

  lemma {:induction false} OrderStands(o: Orders, cmd: Command, waiting: seq<Step>)
    requires Stands(cmd, o) && NoneLike(cmd, waiting)
    ensures Stands(cmd, PlacedAll(o, waiting))
    decreases |waiting|
  {
    if waiting != [] {
      OrderStands(o, cmd, waiting[..|waiting| - 1]);
    }
  }

  lemma CommandStands(c: Config, s: State, cmd: Command, waiting: seq<Step>)
    requires ValidConfig(c) && ValidState(c, s) && ValidRun(c, [Command(cmd)] + waiting)
    requires Waiting(waiting) && NoneLike(cmd, waiting)
    ensures Stands(cmd, OrdersOf(Run(c, s, [Command(cmd)] + waiting).0))
  {
    hide Next, OrdersOf, Stands, PlacedAll, NoneLike;
    var first: seq<Step> := [Command(cmd)];
    assert first[..0] == [] && first[0] == Command(cmd);
    RunConcat(c, s, first, waiting);
    var mid := Run(c, s, first).0;
    DummyWindow.RunUnfold(c, s, first);
    WaitingStep(c, s, Command(cmd));
    PlacedStands(OrdersOf(s), cmd);
    OrdersStand(c, mid, waiting);
    OrderStands(OrdersOf(mid), cmd, waiting);
  }

  lemma PlacedStands(o: Orders, cmd: Command)
    ensures Stands(cmd, Placed(o, cmd))
  {
  }

  /** What a command has done to receiver `i` once the next frame is sent. */
  ghost predicate CarriedOut(cmd: Command, hw: Hardware, events: seq<Event>, i: nat, rx: Receiver)
    requires i < |hw.freq| && i < |hw.gainOk| && i < |hw.agcOk| && i < |hw.fsOk|
  {
    match cmd
    case Tune(_) =>
      Logged(events, FreqChange) && (hw.freq[i].Some? ==> rx.centerFreq == hw.freq[i].value)
    case SetGains(g) =>
      && Logged(events, GainChange)
      && (hw.gainOk[i] && i < |g| ==> rx.gain == g[i] && (rx.agc ==> Logged(events, AgcChange) && hw.agcOk[i]))
    case EnableAgc =>
      Logged(events, AgcChange) && (hw.agcOk[i] ==> rx.agc)
    case CorrectFs(p) =>
      Logged(events, FsSet) && (hw.fsOk[i] && i < |p| ==> rx.ppm == p[i])
    case SwitchNoise(on) =>
      events != [] && events[0].Emitted? && events[0].header.noiseSourceState == if on then 1 else 0
    case Halt => true
    case Unknown => true
  }

  /**
   * A command that no other of its kind overtakes is carried out with the next frame, on every receiver whose
   * hardware call succeeds.
   */
  lemma CommandIsCarriedOut(c: Config, s: State, cmd: Command, waiting: seq<Step>, m: Measured, hw: Hardware, i: nat)
    requires ValidConfig(c) && ValidState(c, s) && ValidRun(c, [Command(cmd)] + waiting) && ValidHardware(c, hw)
    requires Waiting(waiting) && NoneLike(cmd, waiting) && i < c.chNo
    requires !Run(c, s, [Command(cmd)] + waiting).0.left
    ensures var (s', events) := Next(c, Run(c, s, [Command(cmd)] + waiting).0, Turn(m, hw));
            CarriedOut(cmd, hw, events, i, s'.receivers[i])
  {
    hide Run, Next, Logged;
    var before := Run(c, s, [Command(cmd)] + waiting).0;
    CommandStands(c, s, cmd, waiting);
    TurnLogs(c, before, m, hw);
    TurnSends(c, before, m, hw);
    TurnSets(c, before, m, hw, i);
  }

  /**
   * After a turn that retunes every receiver to `f`, every header reports `f` until the next change of
   * frequency; after one that sets every gain, every header reports these until the next change of gain.
   */
  lemma ChangesAreReported(c: Config, s: State, m: Measured, hw: Hardware, after: seq<Step>, f: nat, i: nat)
    requires ValidConfig(c) && ValidState(c, s) && ValidHardware(c, hw) && ValidRun(c, after) && !s.left && i < c.chNo
    ensures var (s', events) := Next(c, s, Turn(m, hw));
            var log := Run(c, s', after).1;
            && (Logged(events, FreqChange) && (forall k | 0 <= k < c.chNo :: hw.freq[k] == Some(f))
                && !Logged(log, FreqChange)
                ==> AllReport(log, f))
            && (Logged(events, GainChange) && hw.gainOk[i] && !Logged(log, GainChange) ==>
                  AllReportGain(log, i, s.newGains[i]))
  {
    hide Run, Next, Logged, AllReport, AllReportGain;
    TurnSets(c, s, m, hw, i);
    TurnSets(c, s, m, hw, c.chNo - 1);
    RunKeeps(c, Next(c, s, Turn(m, hw)).0, after, i);
  }

  /**
   * A correction of the sampling rate is carried out with one frame and, unless another one comes in between,
   * reset with the next: exactly if it is below the keep limit and the call succeeds.
   */
  lemma CorrectionIsReset(c: Config, s: State, m: Measured, hw: Hardware, waiting: seq<Step>, m': Measured,
                          hw': Hardware, i: nat, other: seq<real>)
    requires ValidConfig(c) && ValidState(c, s) && ValidHardware(c, hw) && ValidHardware(c, hw') && i < c.chNo
    requires !s.left && Logged(Next(c, s, Turn(m, hw)).1, FsSet) && hw.fsOk[i]
    requires ValidRun(c, waiting) && Waiting(waiting) && NoneLike(CorrectFs(other), waiting)
    requires !Run(c, Next(c, s, Turn(m, hw)).0, waiting).0.left
    ensures var s1 := Run(c, Next(c, s, Turn(m, hw)).0, waiting).0;
            var (s2, events) := Next(c, s1, Turn(m', hw'));
            && s1.receivers[i].ppm == s.newFsCorrections[i]
            && Logged(events, FsReset) && !s2.fsCorrectionFlag
            && s2.receivers[i].ppm == (if hw'.fsOk[i] && -0.008 < s.newFsCorrections[i] < 0.008 then 0.0
                                       else s.newFsCorrections[i])
  {
    hide Run, Next, Logged;
    var (s0, events0) := Next(c, s, Turn(m, hw));
    TurnLogs(c, s, m, hw);
    TurnSets(c, s, m, hw, i);
    TurnClears(c, s, m, hw);
    var s1 := Run(c, s0, waiting).0;
    CounterStands(c, s0, waiting, other);
    OrdersStand(c, s0, waiting);
    NoCorrection(OrdersOf(s0), waiting, other);
    RunKeeps(c, s0, waiting, i);
    assert forall k :: !Logged([], k) by { NothingLogged(); }
    TurnLogs(c, s1, m', hw');
    TurnSets(c, s1, m', hw', i);
    TurnClears(c, s1, m', hw');
  }

  lemma NothingLogged()
    ensures forall k :: !Logged([], k)
  {
  }

  lemma {:induction false} NoCorrection(o: Orders, waiting: seq<Step>, other: seq<real>)
    requires NoneLike(CorrectFs(other), waiting)
    ensures PlacedAll(o, waiting).ppm == o.ppm
    decreases |waiting|
  {
    if waiting != [] {
      NoCorrection(o, waiting[..|waiting| - 1], other);
    }
  }

  lemma {:induction false} CounterStands(c: Config, s: State, waiting: seq<Step>, other: seq<real>)
    requires ValidConfig(c) && ValidState(c, s) && ValidRun(c, waiting) && Waiting(waiting)
    requires NoneLike(CorrectFs(other), waiting)
    ensures var s' := Run(c, s, waiting).0;
            s'.fsCorrectionFlag == s.fsCorrectionFlag && s'.fsResetCntr == s.fsResetCntr
    decreases |waiting|
  {
    hide Next;
    if waiting != [] {
      var n := |waiting| - 1;
      CounterStands(c, s, waiting[..n], other);
      WaitingStep(c, Run(c, s, waiting[..n]).0, waiting[n]);
    }
  }

  // ---- the frames of a run ----

  function Frames(log: seq<Event>): nat {
    if log == [] then 0 else Frames(log[..|log| - 1]) + if log[|log| - 1].Emitted? then 1 else 0
  }

  lemma {:induction false} FramesConcat(a: seq<Event>, b: seq<Event>)
    ensures Frames(a + b) == Frames(a) + Frames(b)
    decreases |b|
  {
    if b == [] {
      assert a + b == a;
    } else {
      assert (a + b)[..|a + b| - 1] == a + b[..|b| - 1];
      FramesConcat(a, b[..|b| - 1]);
    }
  }

  lemma {:induction false} NoFrames(events: seq<Event>)
    requires forall e | e in events :: e.Applied?
    ensures Frames(events) == 0
  {
    if events != [] {
      assert events[|events| - 1] in events;
      NoFrames(events[..|events| - 1]);
    }
  }

  /** A frame in a log has the number of frames before it, and these constant fields. */
  ghost predicate NumberedAt(log: seq<Event>, j: nat, first: nat, header: IqHeader)
    requires j < |log|
  {
    log[j].Emitted? ==>
      && log[j].header.daqBlockIndex == (first + Frames(log[..j])) % 0x1_0000_0000
      && Constant(log[j].header) == Constant(header)
  }

  ghost predicate Numbered(log: seq<Event>, first: nat, header: IqHeader) {
    forall j | 0 <= j < |log| :: NumberedAt(log, j, first, header)
  }

  lemma NumberStays(log: seq<Event>, events: seq<Event>, j: nat, first: nat, header: IqHeader)
    requires j < |log| && NumberedAt(log, j, first, header)
    ensures NumberedAt(log + events, j, first, header)
  {
    hide Constant, Frames;
    assert (log + events)[..j] == log[..j];
  }

  lemma NextNumber(log: seq<Event>, events: seq<Event>, j: nat, first: nat, header: IqHeader)
    requires |log| <= j < |log + events| && (|log| < j ==> events[j - |log|].Applied?)
    requires events[0].Emitted? && events[0].header.daqBlockIndex == (first + Frames(log)) % 0x1_0000_0000
    requires Constant(events[0].header) == Constant(header)
    ensures NumberedAt(log + events, j, first, header)
  {
    hide Constant, Frames;
    assert (log + events)[j] == events[j - |log|];
    assert (log + events)[..|log|] == log;
  }

  lemma NumberedExtends(log: seq<Event>, events: seq<Event>, first: nat, header: IqHeader)
    requires Numbered(log, first, header) && events != [] && events[0].Emitted?
    requires forall j | 1 <= j < |events| :: events[j].Applied?
    requires events[0].header.daqBlockIndex == (first + Frames(log)) % 0x1_0000_0000
    requires Constant(events[0].header) == Constant(header)
    ensures Numbered(log + events, first, header)
  {
    hide Constant, Frames, NumberedAt;
    forall j | 0 <= j < |log + events|
      ensures NumberedAt(log + events, j, first, header)
    {
      if j < |log| {
        NumberStays(log, events, j, first, header);
      } else {
        NextNumber(log, events, j, first, header);
      }
    }
  }

  lemma NumberedStep(c: Config, s: State, step: Step, log: seq<Event>, first: nat, header: IqHeader)
    requires ValidConfig(c) && ValidState(c, s) && ValidStep(c, step)
    requires Numbered(log, first, header) && s.readBuffInd == first + Frames(log)
    requires Constant(s.header) == Constant(header)
    ensures var (s', events) := Next(c, s, step);
            && Numbered(log + events, first, header) && s'.readBuffInd == first + Frames(log + events)
            && Constant(s'.header) == Constant(header)
  {
    hide Constant, Next, Frames, Numbered, ValidState;
    var (s', events) := Next(c, s, step);
    if step.Turn? && !s.left {
      TurnNumbers(c, s, step.m, step.hw);
      FramesConcat(log, events);
      NumberedExtends(log, events, first, header);
    } else {
      NothingSent(c, s, step);
      assert log + events == log;
    }
  }

  lemma TurnNumbers(c: Config, s: State, m: Measured, hw: Hardware)
    requires ValidConfig(c) && ValidState(c, s) && ValidHardware(c, hw) && !s.left
    ensures var (s', events) := Next(c, s, Turn(m, hw));
            && events != [] && events[0].Emitted? && (forall j | 1 <= j < |events| :: events[j].Applied?)
            && events[0].header.daqBlockIndex == s.readBuffInd % 0x1_0000_0000
            && Constant(events[0].header) == Constant(s.header) && s'.header == events[0].header
            && s'.readBuffInd == s.readBuffInd + 1 && Frames(events) == 1
  {
    hide Next, Constant;
    TurnSends(c, s, m, hw);
    var events := Next(c, s, Turn(m, hw)).1;
    NoFrames(events[1..]);
    FramesConcat([events[0]], events[1..]);
    assert events == [events[0]] + events[1..];
    assert Frames([events[0]]) == 1;
  }

  /** Frames are numbered one after the other, modulo 2^32, and carry the configured fields unchanged. */
  lemma {:induction false} FramesAreNumbered(c: Config, s: State, steps: seq<Step>)
    requires ValidConfig(c) && ValidState(c, s) && ValidRun(c, steps)
    ensures var (s', log) := Run(c, s, steps);
            && Numbered(log, s.readBuffInd, s.header) && s'.readBuffInd == s.readBuffInd + Frames(log)
            && Constant(s'.header) == Constant(s.header)
  {
    hide Next, Numbered, Constant;
    if steps != [] {
      var n := |steps| - 1;
      FramesAreNumbered(c, s, steps[..n]);
      var (before, log) := Run(c, s, steps[..n]);
      NumberedStep(c, before, steps[n], log, s.readBuffInd, s.header);
    } else {
      NoneNumbered(s);
    }
  }

  lemma NoneNumbered(s: State)
    ensures Numbered([], s.readBuffInd, s.header)
  {
  }

  /** The process starts with nothing pending: its first frame is a DATA frame that reports the configured settings. */
  lemma FirstFrame(c: Config, gain: nat, freq: nat, header: IqHeader, m: Measured, hw: Hardware)
    requires ValidConfig(c) && |header.ifGains| == 32 && ValidHardware(c, hw)
    ensures var (s, events) := Next(c, Initial(c, gain, freq, header), Turn(m, hw));
            && |events| == 1 && events[0].Emitted?
            && var h := events[0].header;
               && h.frameType == FRAME_TYPE_DATA && h.daqBlockIndex == 0 && h.noiseSourceState == 0
               && h.rfCenterFreq == freq && (forall i | 0 <= i < c.chNo :: h.ifGains[i] == gain)
               && !s.left && s.receivers == Repeat(Receiver(gain, false, freq, 0.0), c.chNo)
  {
    hide Constant;
    var s0 := Initial(c, gain, freq, header);
    HeaderDescribes(c, s0, m);
    var sent := SendFrame(c, s0, m);
    assert Changes(c, sent) == [] && sent.receivers == s0.receivers;
  }

  // ---- the end of the loop ----

  ghost predicate NoHalt(steps: seq<Step>) {
    forall i | 0 <= i < |steps| :: steps[i] != Command(Halt)
  }

  /** Only a halt sets the exit flag, and it stays set. */
  lemma FlagStep(c: Config, s: State, step: Step)
    requires ValidConfig(c) && ValidState(c, s) && ValidStep(c, step)
    ensures Next(c, s, step).0.exitFlag <==> s.exitFlag || step == Command(Halt)
    ensures Next(c, s, step).0.left <==> s.left || (s.exitFlag && !step.Command?)
  {
    hide ValidState, SendFrame, Retune, Changes, Order;
    if step.Command? {
      OrderFlag(c, s, step.cmd);
    } else if step.Turn? && !s.left {
      SentFlag(c, s, step.m);
    }
  }

  lemma OrderFlag(c: Config, s: State, cmd: Command)
    requires ValidState(c, s) && ValidCommand(c, cmd)
    ensures Order(c, s, cmd).exitFlag <==> s.exitFlag || cmd == Halt
    ensures Order(c, s, cmd).left == s.left
  {
    hide ValidState;
    match cmd {
      case Halt =>
      case _ =>
    }
  }

  lemma SentFlag(c: Config, s: State, m: Measured)
    requires ValidConfig(c) && ValidState(c, s)
    ensures SendFrame(c, s, m).exitFlag == s.exitFlag
  {
    hide ValidState, NextHeader;
  }

  /** Once the loop has ended nothing is sent or changed any more. */
  lemma {:induction false} EndedIsSilent(c: Config, s: State, steps: seq<Step>)
    requires ValidConfig(c) && ValidState(c, s) && ValidRun(c, steps) && s.left
    ensures Run(c, s, steps).0.left && Run(c, s, steps).1 == []
    ensures Run(c, s, steps).0.receivers == s.receivers
  {
    hide Next;
    if steps != [] {
      var n := |steps| - 1;
      EndedIsSilent(c, s, steps[..n]);
      FlagStep(c, Run(c, s, steps[..n]).0, steps[n]);
      NothingSent(c, Run(c, s, steps[..n]).0, steps[n]);
    }
  }

  /** The loop does not end without a halt. */
  lemma {:induction false} RunsOn(c: Config, s: State, steps: seq<Step>)
    requires ValidConfig(c) && ValidState(c, s) && ValidRun(c, steps) && NoHalt(steps) && !s.exitFlag && !s.left
    ensures !Run(c, s, steps).0.exitFlag && !Run(c, s, steps).0.left
  {
    hide Next;
    if steps != [] {
      var n := |steps| - 1;
      RunsOn(c, s, steps[..n]);
      FlagStep(c, Run(c, s, steps[..n]).0, steps[n]);
    }
  }

  /** After a halt the loop goes round once more, at the most, and then sends nothing. */
  lemma HaltEndsTheLoop(c: Config, s: State, waiting: seq<Step>, last: Step, after: seq<Step>)
    requires ValidConfig(c) && ValidState(c, s) && ValidStep(c, last) && ValidRun(c, waiting) && ValidRun(c, after)
    requires s.exitFlag && !last.Command?
    ensures var mid := Run(c, s, waiting).0;
            var end := Next(c, mid, last).0;
            end.left && Run(c, end, after).1 == [] && Run(c, end, after).0.receivers == end.receivers
  {
    hide Next, Run;
    FlagStays(c, s, waiting);
    var mid := Run(c, s, waiting).0;
    FlagStep(c, mid, last);
    EndedIsSilent(c, Next(c, mid, last).0, after);
  }

  lemma {:induction false} FlagStays(c: Config, s: State, steps: seq<Step>)
    requires ValidConfig(c) && ValidState(c, s) && ValidRun(c, steps) && s.exitFlag
    ensures Run(c, s, steps).0.exitFlag
  {
    hide Next;
    if steps != [] {
      var n := |steps| - 1;
      FlagStays(c, s, steps[..n]);
      FlagStep(c, Run(c, s, steps[..n]).0, steps[n]);
    }
  }

  // ---- gain and AGC in one window ----

  /** The mode asked for last: with AGC after `EnableAgc`, with a fixed gain after `SetGains`. */
  function AskedLast(steps: seq<Step>, agc: bool): bool {
    if steps == [] then agc
    else
      var last := steps[|steps| - 1];
      if last == Command(EnableAgc) then true
      else if last.Command? && last.cmd.SetGains? then false
      else AskedLast(steps[..|steps| - 1], agc)
  }

  ghost predicate Asks(steps: seq<Step>) {
    exists i | 0 <= i < |steps| :: steps[i] == Command(EnableAgc)
  }

  ghost predicate AsksGain(steps: seq<Step>) {
    exists i | 0 <= i < |steps| :: steps[i].Command? && steps[i].cmd.SetGains?
  }

  lemma {:induction false} AskedIsPlaced(o: Orders, steps: seq<Step>)
    requires !o.agc && !o.gain
    ensures PlacedAll(o, steps).agc <==> Asks(steps)
    ensures PlacedAll(o, steps).gain <==> AsksGain(steps)
    decreases |steps|
  {
    if steps != [] {
      var n := |steps| - 1;
      AskedIsPlaced(o, steps[..n]);
      AsksSplit(steps);
    }
  }

  lemma AsksSplit(steps: seq<Step>)
    requires steps != []
    ensures var n := |steps| - 1;
            && (Asks(steps) <==> Asks(steps[..n]) || steps[n] == Command(EnableAgc))
            && (AsksGain(steps) <==> AsksGain(steps[..n]) || (steps[n].Command? && steps[n].cmd.SetGains?))
  {
    var n := |steps| - 1;
    if Asks(steps[..n]) {
      var i :| 0 <= i < n && steps[..n][i] == Command(EnableAgc);
      assert steps[i] == Command(EnableAgc);
    }
    if AsksGain(steps[..n]) {
      var i :| 0 <= i < n && steps[..n][i].Command? && steps[..n][i].cmd.SetGains?;
      assert steps[i] == steps[..n][i];
    }
  }

  lemma {:induction false} LastOfBoth(steps: seq<Step>, agc: bool)
    ensures AskedLast(steps, agc) ==> Asks(steps) || (agc && !AsksGain(steps))
    ensures !AskedLast(steps, agc) && !AsksGain(steps) ==> !agc && !Asks(steps)
    decreases |steps|
  {
    if steps != [] {
      LastOfBoth(steps[..|steps| - 1], agc);
      AsksSplit(steps);
    }
  }

  /**
   * Gain and AGC commands that arrive between two frames are carried out gain first, whichever came first. So the mode
   * a receiver gets is the one asked for last if and only if no gain command follows the last AGC command.
   */
  lemma LastModeExactly(c: Config, s: State, waiting: seq<Step>, m: Measured, hw: Hardware, i: nat)
    requires ValidConfig(c) && ValidState(c, s) && ValidRun(c, waiting) && ValidHardware(c, hw) && i < c.chNo
    requires Waiting(waiting) && !s.gainChangeFlag && !s.agcChangeFlag && hw.gainOk[i] && hw.agcOk[i]
    requires !Run(c, s, waiting).0.left
    ensures var agc := Next(c, Run(c, s, waiting).0, Turn(m, hw)).0.receivers[i].agc;
            var asked := AskedLast(waiting, s.receivers[i].agc);
            agc == asked <==> (Asks(waiting) ==> asked)
  {
    hide Run, Next, Logged, Asks, AsksGain, AskedLast;
    var before := Run(c, s, waiting).0;
    OrdersStand(c, s, waiting);
    AskedIsPlaced(OrdersOf(s), waiting);
    RunKeeps(c, s, waiting, i);
    NothingLogged();
    TurnLogs(c, before, m, hw);
    TurnSets(c, before, m, hw, i);
    LastOfBoth(waiting, s.receivers[i].agc);
  }
}
