/**
 * From the rings to the rebuffer's output: every sample of an output frame belongs to a block that was received
 * under the settings the frame's header reports, if the dummy frames cover the lag of its receiver.
 */
module CapturePurity {
  import opened Common
  import opened IqHeaders
  import opened DummyWindow
  import opened Capture
  import opened Purity
  import opened RebufferCoherence
  import Daq = RtlDaq
  import Rebuffer
  import Ring = AcquisitionRing

  /** The receiver process with its rings does what it does without them. */
  ghost predicate IsDaqRun(c: Daq.Config, d: Daq.State, s: State)
    requires Daq.ValidConfig(c) && Daq.ValidState(c, d)
  {
    exists steps :: Daq.ValidRun(c, steps) && Daq.Run(c, d, steps) == (s.daq, Events(s.log))
  }

  lemma OneMoreStep(c: Daq.Config, d: Daq.State, s: State, step: Daq.Step, s': State)
    requires Daq.ValidConfig(c) && Daq.ValidState(c, d) && IsDaqRun(c, d, s)
    requires Daq.ValidState(c, s.daq) && Daq.ValidStep(c, step)
    requires var (daq, events) := Daq.Next(c, s.daq, step); s'.daq == daq && Events(s'.log) == Events(s.log) + events
    ensures IsDaqRun(c, d, s')
  {
    hide Daq.Next;
    var steps :| Daq.ValidRun(c, steps) && Daq.Run(c, d, steps) == (s.daq, Events(s.log));
    var steps' := steps + [step];
    assert steps'[..|steps'| - 1] == steps;
    RunUnfold(c, d, steps');
  }

  lemma StepIsDaqStep(c: Daq.Config, d: Daq.State, s: State, step: Step)
    requires Daq.ValidConfig(c) && Daq.ValidState(c, d) && IsDaqRun(c, d, s)
    requires ValidState(c, s) && Enabled(c, s, step)
    ensures IsDaqRun(c, d, Next(c, s, step))
  {
    hide IsDaqRun, Ring.Next, Ring.Enabled, Daq.Order;
    var s' := Next(c, s, step);
    assert Events(s.log) + [] == Events(s.log);
    match step {
      case Order(cmd) =>
        OneMoreStep(c, d, s, Daq.Command(cmd), s');
      case Thread(r) =>
        if r.Check? && s'.ring.phase.Waiting? {
          OneMoreStep(c, d, s, Daq.NotReady, s');
        } else {
          SameHistory(c, d, s, s');
        }
      case Control(m, hw) =>
        EventsExtend(s.log, Daq.Next(c, s.daq, Daq.Turn(m, hw)).1, s.ring);
        OneMoreStep(c, d, s, Daq.Turn(m, hw), s');
    }
  }

  lemma SameHistory(c: Daq.Config, d: Daq.State, s: State, s': State)
    requires Daq.ValidConfig(c) && Daq.ValidState(c, d) && IsDaqRun(c, d, s) && s'.daq == s.daq && s'.log == s.log
    ensures IsDaqRun(c, d, s')
  {
  }

  lemma {:induction false} RunIsDaqRun(c: Daq.Config, d: Daq.State, s: State, steps: seq<Step>, s': State)
    requires Daq.ValidConfig(c) && Daq.ValidState(c, d) && IsDaqRun(c, d, s)
    requires ValidState(c, s) && Reaches(c, s, steps, s')
    ensures IsDaqRun(c, d, s')
    decreases |steps|
  {
    hide IsDaqRun, Next, Enabled;
    if steps != [] {
      StepIsDaqStep(c, d, s, steps[0]);
      RunIsDaqRun(c, d, Next(c, s, steps[0]), steps[1..], s');
    }
  }

  lemma {:induction false} IndexIsCount(log: seq<Mark>)
    ensures NextIndex(log) == FrameCount(Events(log))
  {
    if log != [] {
      IndexIsCount(log[..|log| - 1]);
      assert Events(log)[..|log| - 1] == Events(log[..|log| - 1]);
    }
  }

  /** Where frame `k` stands in the log. */
  lemma FrameIsSampled(c: Daq.Config, s: State, ins: seq<Frame<uint8>>, k: nat) returns (at: nat)
    requires Inv(c, s) && FramesOf(Events(s.log), ins) && k < |ins| && !IsDummy(ins[k].header)
    ensures StandsAt(s.log, ins, k, at)
  {
    hide Ring.Inv, Windowed, Counted, FramesAgree, Faithful, FrameCount;
    at := Position(Events(s.log), k);
    IndexIsCount(s.log[..at]);
    assert Events(s.log)[..at] == Events(s.log[..at]);
  }

  /** Position `p` of the frame with samples that is sent on frame `i` is from frame `k`. */
  ghost predicate Sends(z: Rebuffer.Sizes, ins: seq<Frame<uint8>>, i: nat, p: nat, k: nat)
    requires Rebuffer.ValidSizes(z) && Rebuffer.WellFormedRun(z, ins)
  {
    && i < |ins| && p < |PayloadOrigins(z, ins, i)| && PayloadOrigins(z, ins, i)[p].Sample?
    && PayloadOrigins(z, ins, i)[p].frame == k
    && Rebuffer.Run(z, 0, ins).1[i].Some? && !IsDummy(Rebuffer.Run(z, 0, ins).1[i].value.header)
  }

  /** The header sent on frame `i` reports the settings of frame `k`. */
  ghost predicate ReportsSettings(z: Rebuffer.Sizes, ins: seq<Frame<uint8>>, i: nat, k: nat)
    requires Rebuffer.ValidSizes(z) && Rebuffer.WellFormedRun(z, ins) && k <= i < |ins|
  {
    var out := Rebuffer.Run(z, 0, ins).1[i];
    && out.Some?
    && out.value.header.frameType == ins[k].header.frameType
    && out.value.header.noiseSourceState == ins[k].header.noiseSourceState
    && out.value.header.ifGains == ins[k].header.ifGains
    && out.value.header.rfCenterFreq == ins[k].header.rfCenterFreq
  }

  lemma SentPure(c: Daq.Config, gain: nat, freq: nat, header: IqHeader, s: State, z: Rebuffer.Sizes,
                 ins: seq<Frame<uint8>>, i: nat, p: nat, k: nat)
    requires Daq.ValidConfig(c) && |header.ifGains| == 32 && IsDaqRun(c, Daq.Initial(c, gain, freq, header), s)
    requires Rebuffer.ValidSizes(z) && Rebuffer.WellFormedRun(z, ins) && FramesOf(Events(s.log), ins)
    requires Sends(z, ins, i, p, k)
    ensures k <= i < |ins| && !IsDummy(ins[k].header) && !ChangedBetween(Events(s.log), k, i)
    ensures ReportsSettings(z, ins, i, k)
  {
    hide ChangedBetween, FramesOf, PayloadOrigins, Rebuffer.Run, Events, Daq.Run;
    var steps :| Daq.ValidRun(c, steps)
                 && Daq.Run(c, Daq.Initial(c, gain, freq, header), steps) == (s.daq, Events(s.log));
    OutputIsPure(c, gain, freq, header, steps, z, ins, i, p);
  }

  /** Frame `k` stands at position `at` of the log. */
  ghost predicate StandsAt(log: seq<Mark>, ins: seq<Frame<uint8>>, k: nat, at: nat)
    requires k < |ins|
  {
    SampledAt(log, at) && log[at].index == k && log[at].event.header == ins[k].header
  }

  /**
   * In every run of the receiver process with its rings, for rebuffer sizes of any kind: take a position of a
   * sent frame with samples and the DAQ frame it is from. No change was applied between that frame and the
   * one the output was sent on, the header reports its settings, and its block of each receiver was complete
   * before any later change and had not begun at an earlier one whose lag the promised dummy frames cover.
   */
  lemma SamplesAreReceivedPure(c: Daq.Config, gain: nat, freq: nat, header: IqHeader, steps: seq<Step>, s: State,
                               z: Rebuffer.Sizes, ins: seq<Frame<uint8>>, i: nat, p: nat, k: nat, ch: nat)
    returns (at: nat)
    requires Daq.ValidConfig(c) && |header.ifGains| == 32 && ch < c.chNo
    requires ValidState(c, Initial(c, gain, freq, header))
    requires Reaches(c, Initial(c, gain, freq, header), steps, s)
    requires Rebuffer.ValidSizes(z) && Rebuffer.WellFormedRun(z, ins) && FramesOf(Events(s.log), ins)
    requires Sends(z, ins, i, p, k)
    ensures k <= i < |ins| && !ChangedBetween(Events(s.log), k, i) && ReportsSettings(z, ins, i, k)
    ensures StandsAt(s.log, ins, k, at)
    ensures Counts(s.log, ch) && BegunAfter(s.log, at, ch) && CompleteBefore(s.log, at, ch)
  {
    hide Inv, BegunAfter, CompleteBefore, ChangedBetween, FramesOf, Reaches, Sends, Position,
         FrameCount, ReportsSettings, IsDaqRun, Events, Rebuffer.WellFormedRun;
    var d := Daq.Initial(c, gain, freq, header);
    InitialInv(c, gain, freq, header);
    RunKeeps(c, Initial(c, gain, freq, header), steps, s);
    StartIsDaqRun(c, d, Initial(c, gain, freq, header));
    RunIsDaqRun(c, d, Initial(c, gain, freq, header), steps, s);
    SentPure(c, gain, freq, header, s, z, ins, i, p, k);
    at := FrameIsSampled(c, s, ins, k);
    BlocksAreBetween(c, s, at, ch);
  }

  lemma StartIsDaqRun(c: Daq.Config, d: Daq.State, s: State)
    requires Daq.ValidConfig(c) && Daq.ValidState(c, d) && s.daq == d && s.log == []
    ensures IsDaqRun(c, d, s)
  {
    assert Events(s.log) == [];
    assert Daq.ValidRun(c, []) && Daq.Run(c, d, []) == (d, []);
  }
}
