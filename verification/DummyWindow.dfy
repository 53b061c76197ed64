/**
 * The dummy window of the receiver process: for any arrival order of commands, enough dummy frames
 * separate every applied change from the next frame that carries samples, and frames with no dummy
 * frame between them were sent with the same settings.
 */
module DummyWindow {
  import opened IqHeaders
  import opened RtlDaq

  /** Requests that the next turn completes. */
  ghost predicate Immediate(s: State) {
    || s.gainChangeFlag || s.centerFreqChangeFlag || s.agcChangeFlag
    || s.noiseSourceState != s.lastNoiseSourceState
  }

  /** A request is pending while a flag is set or the noise source is still to be switched. */
  ghost predicate Pending(s: State) {
    Immediate(s) || s.fsCorrectionFlag
  }

  /** Requests are pending only at the start of a dummy window; a rate correction takes two turns. */
  ghost predicate WindowInv(s: State) {
    && (s.enDummyFrame ==> s.dummyFrameCntr < NO_DUMMY_FRAMES)
    && (Immediate(s) ==> s.enDummyFrame && s.dummyFrameCntr == 0)
    && (s.fsCorrectionFlag ==>
         && s.enDummyFrame && s.fsResetCntr <= 1 && s.dummyFrameCntr <= 1
         && (s.fsResetCntr == 0 ==> s.dummyFrameCntr == 0))
  }

  function DummyCount(log: seq<Event>): nat {
    if log == [] then 0
    else DummyCount(log[1..]) + (if log[0].Emitted? && IsDummy(log[0].header) then 1 else 0)
  }

  lemma {:induction false} DummyCountConcat(a: seq<Event>, b: seq<Event>)
    ensures DummyCount(a + b) == DummyCount(a) + DummyCount(b)
  {
    if a == [] {
      assert a + b == b;
    } else {
      DummyCountConcat(a[1..], b);
      assert (a + b)[1..] == a[1..] + b;
    }
  }

  /** Dummy frames owed by an open window. */
  function Owed(s: State): int {
    if s.enDummyFrame then NO_DUMMY_FRAMES - s.dummyFrameCntr else 0
  }

  /** Dummy frames promised after a change of a given kind. */
  function Promised(k: Change): nat {
    if k.FsReset? then 3 else 4
  }

  /** Dummy frames sent since a logged change, plus those still owed, keep the promise. */
  ghost predicate Covered(log: seq<Event>, owed: int) {
    forall i | 0 <= i < |log| && log[i].Applied? :: DummyCount(log[i..]) + owed >= Promised(log[i].change)
  }

  ghost predicate IsSampleFrame(e: Event) {
    e.Emitted? && !IsDummy(e.header)
  }

  /** Between a change and a later frame with samples the promised dummy frames were sent. */
  ghost predicate Separated(log: seq<Event>) {
    forall i, j | 0 <= i < j < |log| && log[i].Applied? && IsSampleFrame(log[j]) ::
      DummyCount(log[i..j]) >= Promised(log[i].change)
  }

  // ---- one step ----

  lemma OrderKeepsWindow(c: Config, s: State, cmd: Command)
    requires ValidState(c, s) && ValidCommand(c, cmd) && WindowInv(s)
    ensures WindowInv(Order(c, s, cmd)) && Owed(Order(c, s, cmd)) >= Owed(s)
  {
  }

  lemma FrontChangesNeedFlags(s: State)
    ensures forall e | e in FrontChanges(s) :: e.Applied? && Promised(e.change) == 4 && Immediate(s)
    ensures FrontChanges(s) == [] <==> !s.centerFreqChangeFlag && !s.gainChangeFlag && !s.agcChangeFlag
  {
  }

  lemma TurnKeepsWindow(c: Config, s: State, m: Measured, hw: Hardware)
    requires ValidConfig(c) && ValidState(c, s) && ValidHardware(c, hw) && WindowInv(s)
    ensures var sent := SendFrame(c, s, m);
            && WindowInv(Control(c, sent, hw))
            && Owed(Control(c, sent, hw)) == Owed(s) - (if s.enDummyFrame then 1 else 0)
            && (forall e | e in Changes(c, sent) :: e.Applied? && Owed(Control(c, sent, hw)) >= Promised(e.change))
  {
    hide FrontChanges;
    FrontChangesNeedFlags(SendFrame(c, s, m));
  }

  lemma NoFrameAmongChanges(events: seq<Event>)
    requires forall e | e in events :: e.Applied?
    ensures DummyCount(events) == 0
  {
    if events != [] {
      assert events[0] in events;
      NoFrameAmongChanges(events[1..]);
    }
  }

  lemma CoverExtends(log: seq<Event>, h: IqHeader, changes: seq<Event>, owed: int, owed': int)
    requires Covered(log, owed) && Separated(log)
    requires forall e | e in changes :: e.Applied? && owed' >= Promised(e.change)
    requires owed' == owed - (if IsDummy(h) then 1 else 0)
    requires !IsDummy(h) ==> owed == 0
    ensures Covered(log + ([Emitted(h)] + changes), owed')
    ensures Separated(log + ([Emitted(h)] + changes))
  {
    var events := [Emitted(h)] + changes;
    var log' := log + events;
    NoFrameAmongChanges(changes);
    DummyCountConcat([Emitted(h)], changes);
    assert forall j | |log| < j < |log'| :: log'[j] in changes;
    forall i | 0 <= i < |log'| && log'[i].Applied?
      ensures DummyCount(log'[i..]) + owed' >= Promised(log'[i].change)
    {
      if i < |log| {
        assert log'[i..] == log[i..] + events;
        DummyCountConcat(log[i..], events);
      }
    }
    forall i, j | 0 <= i < j < |log'| && log'[i].Applied? && IsSampleFrame(log'[j])
      ensures DummyCount(log'[i..j]) >= Promised(log'[i].change)
    {
      if j < |log| {
        assert log'[i..j] == log[i..j];
      } else {
        assert log'[i..j] == log[i..];
      }
    }
  }

  // ---- whole runs ----

  lemma RunUnfold(c: Config, s: State, steps: seq<Step>)
    requires ValidConfig(c) && ValidState(c, s) && ValidRun(c, steps) && steps != []
    ensures var (before, log) := Run(c, s, steps[..|steps| - 1]);
            var (after, events) := Next(c, before, steps[|steps| - 1]);
            Run(c, s, steps) == (after, log + events)
  {
  }

  /** One step keeps the window and the promise of dummy frames. */
  lemma NextKeepsWindow(c: Config, s: State, log: seq<Event>, step: Step)
    requires ValidConfig(c) && ValidState(c, s) && ValidStep(c, step)
    requires WindowInv(s) && Covered(log, Owed(s)) && Separated(log)
    ensures var (after, events) := Next(c, s, step);
            WindowInv(after) && Covered(log + events, Owed(after)) && Separated(log + events)
  {
    hide Order, SendFrame, Control, Changes, NextHeader;
    assert log + [] == log;
    match step {
      case Command(cmd) =>
        OrderKeepsWindow(c, s, cmd);
      case Turn(m, hw) =>
        if !s.left {
          TurnKeepsWindow(c, s, m, hw);
          var sent := SendFrame(c, s, m);
          SentType(c, s, m);
          CoverExtends(log, sent.header, Changes(c, sent), Owed(s), Owed(Control(c, sent, hw)));
        }
      case NotReady =>
    }
  }

  lemma {:induction false} RunKeepsWindow(c: Config, s: State, steps: seq<Step>)
    requires ValidConfig(c) && ValidState(c, s) && ValidRun(c, steps) && WindowInv(s)
    ensures var (after, log) := Run(c, s, steps);
            WindowInv(after) && Covered(log, Owed(after)) && Separated(log)
  {
    hide Next, Covered, Separated;
    if steps != [] {
      RunKeepsWindow(c, s, steps[..|steps| - 1]);
      RunUnfold(c, s, steps);
      var (before, log) := Run(c, s, steps[..|steps| - 1]);
      NextKeepsWindow(c, before, log, steps[|steps| - 1]);
    } else {
      NothingLogged(s);
    }
  }

  lemma NothingLogged(s: State)
    ensures Covered([], Owed(s)) && Separated([])
  {
  }

  lemma SentType(c: Config, s: State, m: Measured)
    requires ValidConfig(c) && ValidState(c, s)
    ensures IsDummy(SendFrame(c, s, m).header) <==> s.enDummyFrame
  {
  }

  /**
   * The dummy window: in every run from the start, at least four dummy frames separate an applied
   * change from the next frame that carries samples, and at least three the reset of a sampling
   * rate correction.
   */
  lemma DummyFramesSeparate(c: Config, gain: nat, freq: nat, header: IqHeader, steps: seq<Step>, i: nat, j: nat)
    requires ValidConfig(c) && ValidRun(c, steps) && |header.ifGains| == 32
    requires var log := Run(c, Initial(c, gain, freq, header), steps).1;
             i < j < |log| && log[i].Applied? && IsSampleFrame(log[j])
    ensures var log := Run(c, Initial(c, gain, freq, header), steps).1;
            DummyCount(log[i..j]) >= if log[i].change == FsReset then 3 else 4
  {
    RunKeepsWindow(c, Initial(c, gain, freq, header), steps);
  }

  /** While a request is pending the next frame is a dummy frame. */
  lemma PendingMeansDummy(c: Config, gain: nat, freq: nat, header: IqHeader, steps: seq<Step>, m: Measured)
    requires ValidConfig(c) && ValidRun(c, steps) && |header.ifGains| == 32
    ensures var s := Run(c, Initial(c, gain, freq, header), steps).0;
            Pending(s) ==> IsDummy(NextHeader(c, s, m))
  {
    RunKeepsWindow(c, Initial(c, gain, freq, header), steps);
  }

  // ---- settings between dummy frames ----

  /** A turn leaves every receiver setting and the noise source alone unless it logs a change. */
  lemma SettingsChangeOnlyWhenLogged(c: Config, s: State, hw: Hardware)
    requires ValidState(c, s) && ValidHardware(c, hw) && WindowInv(s)
    ensures Changes(c, s) == [] ==> Control(c, s, hw).receivers == s.receivers
    ensures Changes(c, s) == [] && c.enNoiseSourceCtr ==> s.lastNoiseSourceState == s.noiseSourceState
  {
  }

  /** The part of a header that says under which settings it was sent. */
  function Settings(h: IqHeader): (nat, nat, seq<nat>, nat, nat) {
    (h.frameType, h.noiseSourceState, h.ifGains, h.rfCenterFreq, h.cpiLength)
  }

  /** Sample frames with no dummy frame since were sent with the settings of the next frame. */
  ghost predicate Current(c: Config, s: State, log: seq<Event>)
    requires ValidConfig(c) && ValidState(c, s)
  {
    !s.enDummyFrame ==>
      forall i | 0 <= i < |log| && IsSampleFrame(log[i]) && DummyCount(log[i..]) == 0 ::
        Settings(log[i].header) == Settings(NextHeader(c, s, Measured(0, 0)))
  }

  ghost predicate SameSettings(log: seq<Event>) {
    forall i, j | 0 <= i < j < |log| && IsSampleFrame(log[i]) && IsSampleFrame(log[j])
                  && DummyCount(log[i..j]) == 0 ::
      Settings(log[i].header) == Settings(log[j].header)
  }

  lemma IdleTurnKeepsSettings(c: Config, s: State, m: Measured, hw: Hardware)
    requires ValidConfig(c) && ValidState(c, s) && ValidHardware(c, hw) && WindowInv(s) && !s.enDummyFrame
    ensures var sent := SendFrame(c, s, m);
            && Settings(sent.header) == Settings(NextHeader(c, s, Measured(0, 0)))
            && Settings(NextHeader(c, Control(c, sent, hw), Measured(0, 0))) == Settings(sent.header)
            && !Control(c, sent, hw).enDummyFrame
            && Changes(c, sent) == []
  {
    var sent := SendFrame(c, s, m);
    SettingsChangeOnlyWhenLogged(c, sent, hw);
    assert IfGains(sent, c.chNo) == IfGains(s, c.chNo);
  }

  lemma SettingsExtend(log: seq<Event>, h: IqHeader, changes: seq<Event>)
    requires SameSettings(log)
    requires forall e | e in changes :: e.Applied?
    requires !IsDummy(h) ==>
               forall i | 0 <= i < |log| && IsSampleFrame(log[i]) && DummyCount(log[i..]) == 0 ::
                 Settings(log[i].header) == Settings(h)
    ensures SameSettings(log + ([Emitted(h)] + changes))
  {
    var log' := log + ([Emitted(h)] + changes);
    assert forall j | |log| < j < |log'| :: log'[j] in changes;
    forall i, j | 0 <= i < j < |log'| && IsSampleFrame(log'[i]) && IsSampleFrame(log'[j])
                  && DummyCount(log'[i..j]) == 0
      ensures Settings(log'[i].header) == Settings(log'[j].header)
    {
      if j < |log| {
        assert log'[i..j] == log[i..j];
      } else {
        assert log'[i..j] == log[i..];
      }
    }
  }

  lemma NotReadyKeepsHeader(c: Config, s: State)
    requires ValidConfig(c) && ValidState(c, s)
    ensures NextHeader(c, Next(c, s, NotReady).0, Measured(0, 0)) == NextHeader(c, s, Measured(0, 0))
  {
  }

  lemma CurrentExtends(c: Config, s: State, log: seq<Event>, m: Measured, hw: Hardware)
    requires ValidConfig(c) && ValidState(c, s) && ValidHardware(c, hw) && WindowInv(s) && Current(c, s, log)
    ensures var sent := SendFrame(c, s, m);
            Current(c, Control(c, sent, hw), log + ([Emitted(sent.header)] + Changes(c, sent)))
  {
    hide Changes, Control, SendFrame, NextHeader;
    var sent := SendFrame(c, s, m);
    var s' := Control(c, sent, hw);
    var events := [Emitted(sent.header)] + Changes(c, sent);
    var log' := log + events;
    TurnKeepsWindow(c, s, m, hw);
    SentType(c, s, m);
    NoFrameAmongChanges(Changes(c, sent));
    DummyCountConcat([Emitted(sent.header)], Changes(c, sent));
    if !s.enDummyFrame {
      IdleTurnKeepsSettings(c, s, m, hw);
    }
    assert forall j | |log| < j < |log'| :: log'[j] in Changes(c, sent);
    forall i | 0 <= i < |log'| && IsSampleFrame(log'[i]) && DummyCount(log'[i..]) == 0
      ensures !s'.enDummyFrame ==>
                Settings(log'[i].header) == Settings(NextHeader(c, s', Measured(0, 0)))
    {
      if i < |log| {
        assert log'[i..] == log[i..] + events;
        DummyCountConcat(log[i..], events);
      }
    }
  }

  /** In every run, two frames with samples and no dummy frame between them have the same settings. */
  lemma {:induction false} RunKeepsSettings(c: Config, s: State, steps: seq<Step>)
    requires ValidConfig(c) && ValidState(c, s) && ValidRun(c, steps) && WindowInv(s)
    ensures var (after, log) := Run(c, s, steps);
            Current(c, after, log) && SameSettings(log)
  {
    hide SendFrame, Control, Changes, NextHeader;
    if steps != [] {
      RunKeepsSettings(c, s, steps[..|steps| - 1]);
      RunKeepsWindow(c, s, steps[..|steps| - 1]);
      RunUnfold(c, s, steps);
      var (before, log) := Run(c, s, steps[..|steps| - 1]);
      match steps[|steps| - 1] {
        case Command(cmd) =>
          assert log + [] == log;
        case Turn(m, hw) =>
          if before.left {
            assert log + [] == log;
          } else {
            var sent := SendFrame(c, before, m);
            CurrentExtends(c, before, log, m, hw);
            TurnKeepsWindow(c, before, m, hw);
            SentType(c, before, m);
            if !before.enDummyFrame {
              IdleTurnKeepsSettings(c, before, m, hw);
            }
            SettingsExtend(log, sent.header, Changes(c, sent));
          }
        case NotReady =>
          NotReadyKeepsHeader(c, before);
          assert log + [] == log;
      }
    }
  }
}
