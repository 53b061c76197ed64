/**
 * The promise of dummy frames is exact: a receiver that is one block further ahead when a change is applied
 * than the dummy frames promised for it has a run in which the first frame with samples was received before it.
 */
module CaptureLimits {
  import opened Common
  import opened IqHeaders
  import opened DummyWindow
  import opened Capture
  import Daq = RtlDaq
  import Ring = AcquisitionRing

  /** Whatever the commands and the threads do, a lag up to `lag` at a change of this kind is harmless. */
  ghost predicate Harmless(kind: Daq.Change, lag: int) {
    forall c: Daq.Config, gain: nat, freq: nat, header: IqHeader, s: State, p: nat, f: nat, i: nat |
      Occurs(c, gain, freq, header, s) && p < f && SampledAt(s.log, f) && i < c.chNo
      && s.log[p].event == Daq.Applied(kind) && HasLag(s.log[p], i, lag) :: NotBegun(s.log[p], i, s.log[f].index)
  }

  ghost predicate HasLag(m: Mark, i: nat, lag: int) {
    i < |m.begun| && Lag(m, i) <= lag
  }

  ghost predicate NotBegun(m: Mark, i: nat, n: nat) {
    i < |m.begun| && m.begun[i] <= n
  }

  ghost predicate Occurs(c: Daq.Config, gain: nat, freq: nat, header: IqHeader, s: State) {
    && Daq.ValidConfig(c) && |header.ifGains| == 32 && ValidState(c, Initial(c, gain, freq, header))
    && exists steps :: Reaches(c, Initial(c, gain, freq, header), steps, s)
  }

  lemma {:induction false} ReachOn(c: Daq.Config, s: State, steps: seq<Step>, s': State, step: Step)
    requires Daq.ValidConfig(c) && ValidState(c, s) && Reaches(c, s, steps, s')
    requires ValidState(c, s') && Enabled(c, s', step)
    ensures Reaches(c, s, steps + [step], Next(c, s', step))
    decreases |steps|
  {
    hide Next, Enabled, ValidState;
    if steps == [] {
      assert Reaches(c, Next(c, s, step), [], Next(c, s', step));
      assert ([] + [step])[1..] == [];
    } else {
      ReachOn(c, Next(c, s, steps[0]), steps[1..], s', step);
      assert (steps + [step])[1..] == steps[1..] + [step];
    }
  }

  // ---- one receiver that is six blocks ahead ----

  const AHEAD: nat := 6

  function One(): (c: Daq.Config)
    ensures Daq.ValidConfig(c)
  {
    Daq.Config(1, 1, true)
  }

  function BlankHeader(): (h: IqHeader)
    ensures |h.ifGains| == 32
  {
    IqHeader(SYNC_WORD, 0, [], 0, 0, 0, 0, 0, 0, 0, 0, 0, 0, 0, 0, 0, 0, Repeat(0, 32), 0, 0, 0, 0, 0)
  }

  function Start(): (s: State)
    ensures ValidState(One(), s)
  {
    Initial(One(), 0, 0, BlankHeader())
  }

  ghost predicate Reached(s: State) {
    ValidState(One(), s) && exists steps :: Reaches(One(), Start(), steps, s)
  }

  lemma OneMore(s: State, step: Step)
    requires Reached(s) && Enabled(One(), s, step)
    ensures Reached(Next(One(), s, step))
  {
    hide Next, Enabled, Reaches, ValidState;
    var steps :| Reaches(One(), Start(), steps, s);
    ReachOn(One(), Start(), steps, s, step);
  }

  /** The command that leads to a change of this kind. */
  function Asking(kind: Daq.Change): (cmd: Daq.Command)
    ensures Daq.ValidCommand(One(), cmd)
  {
    match kind
    case FreqChange => Daq.Tune(0)
    case GainChange => Daq.SetGains([0])
    case AgcChange => Daq.EnableAgc
    case FsSet => Daq.CorrectFs([0.0])
    case FsReset => Daq.CorrectFs([0.0])
    case NoiseSwitch => Daq.SwitchNoise(true)
  }

  /** The next turn applies the change. */
  ghost predicate Applies(kind: Daq.Change, d: Daq.State) {
    match kind
    case FreqChange => d.centerFreqChangeFlag
    case GainChange => d.gainChangeFlag
    case AgcChange => d.agcChangeFlag
    case FsSet => d.fsCorrectionFlag && d.fsResetCntr == 0
    case FsReset => d.fsCorrectionFlag && d.fsResetCntr == 1
    case NoiseSwitch => d.lastNoiseSourceState != d.noiseSourceState
  }

  /** `window` dummy frames are still to come. */
  ghost predicate InWindow(d: Daq.State, window: nat) {
    && Daq.ValidState(One(), d) && !d.left && !d.exitFlag && window <= 5
    && d.enDummyFrame == (window != 0) && (window != 0 ==> d.dummyFrameCntr == 5 - window)
  }

  function Hardware(): (hw: Daq.Hardware)
    ensures Daq.ValidHardware(One(), hw)
  {
    Daq.Hardware([None], [true], [true], [true])
  }

  function Tick(): Daq.Step {
    Daq.Turn(Daq.Measured(0, 0), Hardware())
  }

  lemma AppliedIsLogged(kind: Daq.Change, d: Daq.State)
    requires Applies(kind, d)
    ensures Daq.Applied(kind) in Daq.Changes(One(), d)
  {
  }

  lemma TickInWindow(d: Daq.State, window: nat, kind: Daq.Change)
    requires InWindow(d, window)
    ensures var (d', events) := Daq.Next(One(), d, Tick());
            && InWindow(d', if window == 0 then 0 else window - 1)
            && events != [] && events[0].Emitted? && IsDummy(events[0].header) == (window != 0)
            && (Applies(kind, d) ==> exists j | 1 <= j < |events| :: events[j] == Daq.Applied(kind))
            && (Applies(Daq.FsSet, d) ==> Applies(Daq.FsReset, d'))
  {
    hide Daq.Retune, Daq.Changes;
    var sent := Daq.SendFrame(One(), d, Daq.Measured(0, 0));
    if Applies(kind, d) {
      AppliedIsLogged(kind, sent);
      var changes := Daq.Changes(One(), sent);
      var j :| 0 <= j < |changes| && changes[j] == Daq.Applied(kind);
      assert Daq.Next(One(), d, Tick()).1[j + 1] == Daq.Applied(kind);
    }
  }

  // ---- the run ----

  /** The change of this kind has been applied, with one dummy frame too few promised. */
  ghost predicate Missed(kind: Daq.Change, log: seq<Mark>) {
    exists p | 0 <= p < |log| ::
      log[p].event == Daq.Applied(kind) && log[p].index + Promised(kind) == AHEAD - 1 && log[p].begun == [AHEAD]
  }

  /** Frame `read` is to be sent next, after `window` dummy frames. */
  ghost predicate At(s: State, read: nat, window: nat) {
    && Reached(s) && s.ring.receivers == [Ring.Written(AHEAD)] && s.ring.phase.Waiting? && s.ring.current == []
    && s.ring.read == read && read < AHEAD && !s.due && InWindow(s.daq, window)
  }

  lemma {:induction false} WritesReach(n: nat) returns (s: State)
    ensures Reached(s) && s == Start().(ring := Start().ring.(receivers := [Ring.Written(n)]))
  {
    hide Ring.Written;
    if n == 0 {
      s := Start();
      assert Reaches(One(), s, [], s);
      Ring.WrittenNone();
    } else {
      hide Next, Enabled, Reaches;
      s := WritesReach(n - 1);
      s := WriteOnce(s, n - 1);
    }
  }

  lemma WriteOnce(s: State, n: nat) returns (s': State)
    requires Reached(s) && s.ring.receivers == [Ring.Written(n)] && s.ring.phase.Waiting?
    ensures Reached(s') && s' == s.(ring := s.ring.(receivers := [Ring.Written(n + 1)]))
  {
    hide Ring.Written, Reached, Ring.Next, Ring.Enabled;
    assert ValidState(One(), s) by { ReachedIsValid(s); }
    Ring.OneWrite(s.ring, n);
    OneMore(s, Thread(Ring.BeginWrite(0)));
    s' := Next(One(), s, Thread(Ring.BeginWrite(0)));
    OneMore(s', Thread(Ring.EndWrite(0)));
    s' := Next(One(), s', Thread(Ring.EndWrite(0)));
  }

  lemma ReachedIsValid(s: State)
    requires Reached(s)
    ensures ValidState(One(), s)
  {
  }

  lemma StillReady(read: nat)
    requires read < AHEAD
    ensures Ring.Ready(Ring.Written(AHEAD), read)
  {
    hide Ring.Written;
  }

  /** The loop wakes up and finds its receiver ready. */
  lemma Checked(s: State, read: nat, window: nat) returns (s': State)
    requires At(s, read, window)
    ensures Reached(s') && s' == s.(ring := s.ring.(phase := Ring.Sending(0)))
  {
    hide Ring.Written, Reached, Ring.Ready;
    StillReady(read);
    ReachedIsValid(s);
    OneMore(s, Thread(Ring.Wake));
    s' := Next(One(), s, Thread(Ring.Wake));
    OneMore(s', Thread(Ring.Check));
    s' := Next(One(), s', Thread(Ring.Check));
  }

  /** A dummy frame is sent. */
  lemma DummySent(s: State, read: nat, window: nat) returns (s': State)
    requires At(s, read, window) && window != 0
    ensures Reached(s') && s'.due && s'.daq == s.daq && s'.log == s.log
    ensures s'.ring == s.ring.(frames := s.ring.frames + [Ring.Frame(read, true, [])], read := read + 1)
  {
    hide Ring.Written, Reached;
    s' := Checked(s, read, window);
    ReachedIsValid(s');
    OneMore(s', Thread(Ring.SendDummy));
    s' := Next(One(), s', Thread(Ring.SendDummy));
  }

  /** A frame with samples is sent. */
  lemma SamplesSent(s: State, read: nat) returns (s': State)
    requires At(s, read, 0)
    ensures Reached(s') && s'.due && s'.daq == s.daq && s'.log == s.log && s'.ring.read == read + 1
    ensures s'.ring.receivers == s.ring.receivers
  {
    hide Ring.Written, Reached;
    s' := Checked(s, read, 0);
    ReachedIsValid(s');
    OneMore(s', Thread(Ring.BeginSend));
    s' := Next(One(), s', Thread(Ring.BeginSend));
    OneMore(s', Thread(Ring.EndSend));
    s' := Next(One(), s', Thread(Ring.EndSend));
    OneMore(s', Thread(Ring.Finish));
    s' := Next(One(), s', Thread(Ring.Finish));
  }

  /** The turn carries out what was requested. */
  lemma TurnEnds(s: State, read: nat, window: nat, kind: Daq.Change) returns (s': State)
    requires Reached(s) && s.due && InWindow(s.daq, window) && s.ring.read == read + 1
    requires s.ring.receivers == [Ring.Written(AHEAD)]
    ensures Reached(s') && !s'.due && s'.ring == s.ring && InWindow(s'.daq, if window == 0 then 0 else window - 1)
    ensures |s.log| < |s'.log| && s'.log[..|s.log|] == s.log
    ensures s'.log[|s.log|].event.Emitted? && IsDummy(s'.log[|s.log|].event.header) == (window != 0)
    ensures s'.log[|s.log|].index == read
    ensures Applies(kind, s.daq) ==>
              exists p | |s.log| < p < |s'.log| ::
                s'.log[p].event == Daq.Applied(kind) && s'.log[p].index == read + 1 && s'.log[p].begun == [AHEAD]
    ensures Applies(Daq.FsSet, s.daq) ==> Applies(Daq.FsReset, s'.daq)
  {
    hide Ring.Written, Reached, Daq.Next, InWindow, Applies;
    ReachedIsValid(s);
    TickInWindow(s.daq, window, kind);
    OneMore(s, Control(Daq.Measured(0, 0), Hardware()));
    s' := Next(One(), s, Control(Daq.Measured(0, 0), Hardware()));
    var events := Daq.Next(One(), s.daq, Tick()).1;
    assert s'.log == s.log + Marked(events, s.ring) && BegunAll(s.ring) == [AHEAD];
    if Applies(kind, s.daq) {
      var j :| 1 <= j < |events| && events[j] == Daq.Applied(kind);
      assert s'.log[|s.log| + j].event == events[j];
    }
  }

  lemma {:induction false} WindowPasses(s: State, read: nat, window: nat, kind: Daq.Change) returns (s': State)
    requires At(s, read, window) && read + window < AHEAD && Missed(kind, s.log)
    ensures At(s', read + window, 0) && Missed(kind, s'.log)
    decreases window
  {
    hide Reached, InWindow, Ring.Written;
    s' := s;
    if window != 0 {
      s' := DummySent(s, read, window);
      var log := s'.log;
      s' := TurnEnds(s', read, window, kind);
      StillMissed(kind, log, s'.log);
      s' := WindowPasses(s', read + 1, window - 1, kind);
    }
  }

  lemma StillMissed(kind: Daq.Change, log: seq<Mark>, log': seq<Mark>)
    requires Missed(kind, log) && |log| <= |log'| && log'[..|log|] == log
    ensures Missed(kind, log')
  {
    var p :| 0 <= p < |log| && log[p].event == Daq.Applied(kind) && log[p].index + Promised(kind) == AHEAD - 1
             && log[p].begun == [AHEAD];
    assert log'[p] == log[p];
  }

  /** Six blocks are written, and a command arrives. */
  lemma Ordered(kind: Daq.Change) returns (s: State)
    ensures At(s, 0, 5) && Applies(if kind.FsReset? then Daq.FsSet else kind, s.daq)
  {
    hide Ring.Written, Reached, Reaches;
    s := WritesReach(AHEAD);
    ReachedIsValid(s);
    OneMore(s, Order(Asking(kind)));
    s := Next(One(), s, Order(Asking(kind)));
  }

  /** The change is applied on the first turn after the command, or the second. */
  lemma ChangeIsMissed(kind: Daq.Change) returns (s: State, read: nat)
    ensures 1 <= read <= 2 && At(s, read, 5 - read) && Missed(kind, s.log)
  {
    hide Reached, InWindow, Applies, Ring.Written;
    s := Ordered(kind);
    var first := if kind.FsReset? then Daq.FsSet else kind;
    s := DummySent(s, 0, 5);
    s := TurnEnds(s, 0, 5, first);
    read := 1;
    if kind.FsReset? {
      s := DummySent(s, 1, 4);
      s := TurnEnds(s, 1, 4, kind);
      read := 2;
    }
  }

  /** Frame 5 has samples, but its block had begun before the change. */
  lemma ReceivedTooEarly(kind: Daq.Change) returns (s: State, p: nat, f: nat)
    ensures Occurs(One(), 0, 0, BlankHeader(), s) && p < f && SampledAt(s.log, f)
    ensures s.log[p].event == Daq.Applied(kind) && HasLag(s.log[p], 0, Promised(kind) + 1)
    ensures !NotBegun(s.log[p], 0, s.log[f].index)
  {
    hide Reaches, InWindow, Ring.Written;
    var read: nat;
    s, read := ChangeIsMissed(kind);
    s := WindowPasses(s, read, 5 - read, kind);
    p :| 0 <= p < |s.log| && s.log[p].event == Daq.Applied(kind)
         && s.log[p].index + Promised(kind) == AHEAD - 1 && s.log[p].begun == [AHEAD];
    f := |s.log|;
    var log := s.log;
    s := SamplesSent(s, 5);
    s := TurnEnds(s, 5, 0, kind);
    assert s.log[p] == log[p];
  }

  /** A lag at a change is harmless in every run exactly up to the number of dummy frames promised after it. */
  lemma PromiseIsExact(kind: Daq.Change, lag: int)
    ensures Harmless(kind, lag) <==> lag <= Promised(kind)
  {
    if lag <= Promised(kind) {
      forall c: Daq.Config, gain: nat, freq: nat, header: IqHeader, s: State, p: nat, f: nat, i: nat |
        Occurs(c, gain, freq, header, s) && p < f && SampledAt(s.log, f) && i < c.chNo
        && s.log[p].event == Daq.Applied(kind) && HasLag(s.log[p], i, lag)
        ensures NotBegun(s.log[p], i, s.log[f].index)
      {
        SmallLagIsHarmless(c, gain, freq, header, s, p, f, i);
      }
    } else {
      hide Occurs;
      var s, p, f := ReceivedTooEarly(kind);
      assert HasLag(s.log[p], 0, lag) && 0 < One().chNo;
      assert !NotBegun(s.log[p], 0, s.log[f].index);
    }
  }

  lemma SmallLagIsHarmless(c: Daq.Config, gain: nat, freq: nat, header: IqHeader, s: State, p: nat, f: nat, i: nat)
    requires Occurs(c, gain, freq, header, s) && p < f && SampledAt(s.log, f) && i < c.chNo
    requires s.log[p].event.Applied? && HasLag(s.log[p], i, Promised(s.log[p].event.change))
    ensures NotBegun(s.log[p], i, s.log[f].index)
  {
    hide Reaches, Ring.Inv, DummyCount, NextIndex, WindowInv, Covered, FramesAgree, Faithful, Initial;
    var steps :| Reaches(c, Initial(c, gain, freq, header), steps, s);
    Capture.InitialInv(c, gain, freq, header);
    RunKeeps(c, Initial(c, gain, freq, header), steps, s);
    var events := Events(s.log);
    assert IsSampleFrame(events[f]) && events[p].Applied?;
    assert DummyCount(events[p..f]) >= Promised(events[p].change);
    DummiesAreFrames(s.log, p, f);
  }
}
