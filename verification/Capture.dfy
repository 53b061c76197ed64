/**
 * The receiver process with its rings: callbacks fill the rings while the main loop sends blocks and then
 * applies the changes requested. A frame that carries samples was received after every earlier change if no
 * ring was further ahead than the dummy frames promised for it, and before every later one.
 */
module Capture {
  import opened IqHeaders
  import opened DummyWindow
  import Daq = RtlDaq
  import Ring = AcquisitionRing

  /**
   * An event of the main loop: the index of the frame sent, or of the next one when a change was applied,
   * and how many blocks of each receiver had begun and were complete at that time.
   */
  datatype Mark = Mark(event: Daq.Event, index: nat, begun: seq<nat>, complete: seq<nat>)

  /** `due` says that a frame has been sent and its turn is still to carry out the changes requested. */
  datatype State = State(ring: Ring.State, daq: Daq.State, due: bool, log: seq<Mark>)

  datatype Step =
    | Order(cmd: Daq.Command)
    | Thread(step: Ring.Step)
    | Control(m: Daq.Measured, hw: Daq.Hardware)

  ghost predicate ValidState(c: Daq.Config, s: State) {
    && Ring.ValidState(s.ring) && |s.ring.receivers| == c.chNo && Daq.ValidState(c, s.daq)
    && (s.due ==> s.ring.phase.Waiting? && 0 < s.ring.read)
  }

  function Initial(c: Daq.Config, gain: nat, freq: nat, header: IqHeader): State {
    State(Ring.Initial(c.chNo), Daq.Initial(c, gain, freq, header), false, [])
  }

  /** Commands get the mutex only while the main loop waits; the loop sends samples or a dummy frame. */
  ghost predicate Enabled(c: Daq.Config, s: State, step: Step)
    requires ValidState(c, s)
  {
    match step
    case Order(cmd) => Daq.ValidCommand(c, cmd) && s.ring.phase.Waiting? && !s.due
    case Thread(r) =>
      && Ring.Enabled(s.ring, r)
      && (r.Wake? ==> !s.due && !s.daq.left)
      && (r.SendDummy? ==> s.daq.enDummyFrame)
      && (r.BeginSend? || r.Finish? ==> !s.daq.enDummyFrame)
    case Control(_, hw) => s.due && Daq.ValidHardware(c, hw)
  }

  function BegunAll(ring: Ring.State): (r: seq<nat>)
    ensures |r| == |ring.receivers|
  {
    seq(|ring.receivers|, i requires 0 <= i < |ring.receivers| => Ring.Begun(ring.receivers[i]))
  }

  function CompleteAll(ring: Ring.State): (r: seq<nat>)
    ensures |r| == |ring.receivers|
  {
    seq(|ring.receivers|, i requires 0 <= i < |ring.receivers| => ring.receivers[i].buffInd)
  }

  /** The events of a turn, with the state of the rings. */
  function Marked(events: seq<Daq.Event>, ring: Ring.State): (r: seq<Mark>)
    requires 0 < ring.read
    ensures |r| == |events|
  {
    seq(|events|, i requires 0 <= i < |events| =>
      Mark(events[i], if events[i].Emitted? then ring.read - 1 else ring.read, BegunAll(ring), CompleteAll(ring)))
  }

  function Next(c: Daq.Config, s: State, step: Step): (r: State)
    requires Daq.ValidConfig(c) && ValidState(c, s) && Enabled(c, s, step)
    ensures ValidState(c, r)
  {
    match step
    case Order(cmd) => s.(daq := Daq.Next(c, s.daq, Daq.Command(cmd)).0)
    case Thread(r) =>
      var ring := Ring.Next(s.ring, r);
      var unready := r.Check? && ring.phase.Waiting?;
      SameRings(s.ring, r);
      State(ring, if unready then Daq.Next(c, s.daq, Daq.NotReady).0 else s.daq,
            s.due || r.Finish? || r.SendDummy?, s.log)
    case Control(m, hw) =>
      var (daq, events) := Daq.Next(c, s.daq, Daq.Turn(m, hw));
      State(s.ring, daq, false, s.log + Marked(events, s.ring))
  }

  lemma SameRings(s: Ring.State, r: Ring.Step)
    requires Ring.ValidState(s) && Ring.Enabled(s, r)
    ensures |Ring.Next(s, r).receivers| == |s.receivers|
    ensures s.phase.Waiting? && !r.Wake? ==> Ring.Next(s, r).phase.Waiting?
    ensures r.Finish? || r.SendDummy? ==> Ring.Next(s, r).phase.Waiting? && Ring.Next(s, r).read == s.read + 1
    ensures !r.Finish? && !r.SendDummy? ==> Ring.Next(s, r).read == s.read && Ring.Next(s, r).frames == s.frames
  {
  }

  /** `s'` is reached from `s` by these steps, each enabled when its turn comes. */
  ghost predicate Reaches(c: Daq.Config, s: State, steps: seq<Step>, s': State)
    requires Daq.ValidConfig(c) && ValidState(c, s)
    decreases |steps|
  {
    if steps == [] then s' == s
    else Enabled(c, s, steps[0]) && Reaches(c, Next(c, s, steps[0]), steps[1..], s')
  }

  // ---- what every run keeps ----

  function Events(log: seq<Mark>): (r: seq<Daq.Event>)
    ensures |r| == |log|
  {
    seq(|log|, q requires 0 <= q < |log| => log[q].event)
  }

  /** Frames carry consecutive indices, and a change the index of the frame to come. */
  function NextIndex(log: seq<Mark>): nat {
    if log == [] then 0
    else NextIndex(log[..|log| - 1]) + (if log[|log| - 1].event.Emitted? then 1 else 0)
  }

  ghost predicate Indexed(log: seq<Mark>) {
    forall q | 0 <= q < |log| :: log[q].index == NextIndex(log[..q])
  }

  /** Blocks counted in a mark have been counted since, and those of a sent frame are complete. */
  ghost predicate Counted(ring: Ring.State, log: seq<Mark>) {
    && (forall q | 0 <= q < |log| :: |log[q].begun| == |log[q].complete| == |ring.receivers|)
    && (forall q, i | 0 <= q < |log| && 0 <= i < |ring.receivers| :: log[q].complete[i] <= ring.receivers[i].buffInd)
    && (forall f, q, i | 0 <= f <= q < |log| && log[f].event.Emitted? && 0 <= i < |ring.receivers| ::
          log[f].index < log[q].complete[i])
  }

  /** The frames of the log are those of the rings. */
  ghost predicate FramesAgree(frames: seq<Ring.Frame>, log: seq<Mark>) {
    forall q | 0 <= q < |log| && log[q].event.Emitted? ::
      log[q].index < |frames| && frames[log[q].index].dummy == IsDummy(log[q].event.header)
  }

  /** A frame that is due was the kind of frame the flags ask for, and a loop at work has not ended. */
  ghost predicate Faithful(s: State) {
    && (s.due ==> 0 < s.ring.read == |s.ring.frames| && s.ring.frames[s.ring.read - 1].dummy == s.daq.enDummyFrame)
    && (s.due || !s.ring.phase.Waiting? ==> !s.daq.left)
  }

  ghost predicate Windowed(daq: Daq.State, log: seq<Mark>) {
    WindowInv(daq) && Covered(Events(log), Owed(daq)) && Separated(Events(log))
  }

  ghost predicate Inv(c: Daq.Config, s: State) {
    && ValidState(c, s) && Ring.Inv(s.ring) && Windowed(s.daq, s.log) && Indexed(s.log) && Counted(s.ring, s.log)
    && FramesAgree(s.ring.frames, s.log) && Faithful(s)
    && NextIndex(s.log) == s.ring.read - (if s.due then 1 else 0)
  }

  // ---- steps of the command thread and of the callbacks ----

  /** A step of the receiver process that logs nothing keeps the window. */
  lemma SilentKeeps(c: Daq.Config, daq: Daq.State, log: seq<Mark>, step: Daq.Step)
    requires Daq.ValidConfig(c) && Daq.ValidState(c, daq) && Daq.ValidStep(c, step) && Windowed(daq, log)
    requires !step.Turn?
    ensures Windowed(Daq.Next(c, daq, step).0, log)
  {
    hide Covered, Separated, WindowInv, Owed, Daq.Order;
    NextKeepsWindow(c, daq, Events(log), step);
    assert Events(log) + [] == Events(log);
  }

  lemma OrderKeeps(c: Daq.Config, s: State, cmd: Daq.Command)
    requires Daq.ValidConfig(c) && ValidState(c, s) && Enabled(c, s, Order(cmd)) && Inv(c, s)
    ensures Inv(c, Next(c, s, Order(cmd)))
  {
    hide Windowed, Indexed, Counted, FramesAgree, Ring.Inv, NextIndex, Daq.Next;
    SilentKeeps(c, s.daq, s.log, Daq.Command(cmd));
  }

  lemma RingGrows(s: Ring.State, r: Ring.Step)
    requires Ring.ValidState(s) && Ring.Enabled(s, r)
    ensures var s' := Ring.Next(s, r);
            && |s'.receivers| == |s.receivers|
            && (forall i | 0 <= i < |s.receivers| :: s.receivers[i].buffInd <= s'.receivers[i].buffInd)
            && s.frames <= s'.frames
            && (r.Finish? || r.SendDummy? ==>
                  |s'.frames| == |s.frames| + 1 && s'.frames[|s.frames|].dummy == r.SendDummy?)
            && (s.phase.Waiting? && !s'.phase.Waiting? ==> r.Wake?)
  {
  }

  lemma ThreadKeeps(c: Daq.Config, s: State, r: Ring.Step)
    requires Daq.ValidConfig(c) && ValidState(c, s) && Enabled(c, s, Thread(r)) && Inv(c, s)
    ensures Inv(c, Next(c, s, Thread(r)))
  {
    hide Windowed, Indexed, Ring.Inv, NextIndex, Ring.Next, Ring.Ready;
    Ring.StepKeepsInv(s.ring, r);
    RingGrows(s.ring, r);
    SameRings(s.ring, r);
    ReadSoFar(s.ring);
    SilentKeeps(c, s.daq, s.log, Daq.NotReady);
  }

  lemma ReadSoFar(s: Ring.State)
    requires Ring.Inv(s)
    ensures |s.frames| == s.read && forall i | 0 <= i < |s.receivers| :: s.read <= s.receivers[i].buffInd
  {
  }

  // ---- the main loop's turn ----

  lemma {:induction false} IndexedExtends(log: seq<Mark>, more: seq<Mark>)
    requires Indexed(log)
    requires more != [] && more[0].event.Emitted? && more[0].index == NextIndex(log)
    requires forall j | 1 <= j < |more| :: more[j].event.Applied? && more[j].index == NextIndex(log) + 1
    ensures Indexed(log + more) && NextIndex(log + more) == NextIndex(log) + 1
  {
    var end := more[|more| - 1];
    var front := more[..|more| - 1];
    assert log + more == (log + front) + [end];
    assert (log + more)[..|log + more| - 1] == log + front;
    if front == [] {
      assert log + front == log;
    } else {
      IndexedExtends(log, front);
    }
    forall q | 0 <= q < |log + more|
      ensures (log + more)[q].index == NextIndex((log + more)[..q])
    {
      assert q < |log + front| ==> (log + more)[..q] == (log + front)[..q];
      assert q == |log + front| ==> (log + more)[..q] == log + front;
    }
  }

  /** What a turn logs: its frame, then changes. */
  lemma TurnEvents(c: Daq.Config, d: Daq.State, m: Daq.Measured, hw: Daq.Hardware)
    requires Daq.ValidConfig(c) && Daq.ValidState(c, d) && Daq.ValidHardware(c, hw) && !d.left && WindowInv(d)
    ensures var events := Daq.Next(c, d, Daq.Turn(m, hw)).1;
            && events != [] && events[0].Emitted? && IsDummy(events[0].header) == d.enDummyFrame
            && forall j | 1 <= j < |events| :: events[j].Applied?
  {
    hide Daq.Changes, Daq.Control, WindowInv;
    TurnKeepsWindow(c, d, m, hw);
    var sent := Daq.SendFrame(c, d, m);
    var events := [Daq.Emitted(sent.header)] + Daq.Changes(c, sent);
    assert forall j | 1 <= j < |events| :: events[j] in Daq.Changes(c, sent);
  }

  lemma MarksAre(events: seq<Daq.Event>, ring: Ring.State)
    requires 0 < ring.read && events != [] && events[0].Emitted?
    requires forall j | 1 <= j < |events| :: events[j].Applied?
    ensures var marks := Marked(events, ring);
            && marks[0].event == events[0] && marks[0].index == ring.read - 1
            && (forall j | 1 <= j < |marks| :: marks[j].event.Applied? && marks[j].index == ring.read)
            && (forall j | 0 <= j < |marks| ::
                  |marks[j].begun| == |marks[j].complete| == |ring.receivers|
                  && forall i | 0 <= i < |ring.receivers| :: marks[j].complete[i] == ring.receivers[i].buffInd)
  {
  }

  lemma MarksCounted(ring: Ring.State, log: seq<Mark>, marks: seq<Mark>)
    requires Counted(ring, log) && Ring.Inv(ring) && marks != [] && marks[0].event.Emitted? && 0 < ring.read
    requires marks[0].index == ring.read - 1 && forall j | 1 <= j < |marks| :: marks[j].event.Applied?
    requires forall j | 0 <= j < |marks| ::
               |marks[j].begun| == |marks[j].complete| == |ring.receivers|
               && forall i | 0 <= i < |ring.receivers| :: marks[j].complete[i] == ring.receivers[i].buffInd
    ensures Counted(ring, log + marks)
  {
    hide Ring.Inv;
    ReadSoFar(ring);
    var log' := log + marks;
    assert forall q | |log| <= q < |log'| :: log'[q] == marks[q - |log|];
    forall f, q, i | 0 <= f <= q < |log'| && log'[f].event.Emitted? && 0 <= i < |ring.receivers|
      ensures log'[f].index < log'[q].complete[i]
    {
      if f < |log| <= q {
        assert log[f].index < log[f].complete[i] <= ring.receivers[i].buffInd;
      }
    }
  }

  lemma ControlKeeps(c: Daq.Config, s: State, m: Daq.Measured, hw: Daq.Hardware)
    requires Daq.ValidConfig(c) && ValidState(c, s) && Enabled(c, s, Control(m, hw)) && Inv(c, s)
    ensures Inv(c, Next(c, s, Control(m, hw)))
  {
    hide Ring.Inv, NextIndex, Indexed, Counted, Covered, Separated, WindowInv, Owed, Daq.Next, Marked, Events;
    ReadSoFar(s.ring);
    var (daq, events) := Daq.Next(c, s.daq, Daq.Turn(m, hw));
    TurnEvents(c, s.daq, m, hw);
    var marks := Marked(events, s.ring);
    MarksAre(events, s.ring);
    IndexedExtends(s.log, marks);
    MarksCounted(s.ring, s.log, marks);
    NextKeepsWindow(c, s.daq, Events(s.log), Daq.Turn(m, hw));
    EventsExtend(s.log, events, s.ring);
    assert forall q | |s.log| <= q < |s.log + marks| :: (s.log + marks)[q] == marks[q - |s.log|];
  }

  lemma EventsExtend(log: seq<Mark>, events: seq<Daq.Event>, ring: Ring.State)
    requires 0 < ring.read
    ensures Events(log + Marked(events, ring)) == Events(log) + events
  {
  }

  lemma StepKeeps(c: Daq.Config, s: State, step: Step)
    requires Daq.ValidConfig(c) && Inv(c, s) && Enabled(c, s, step)
    ensures Inv(c, Next(c, s, step))
  {
    hide Next, Ring.Inv, Windowed, Indexed, Counted, FramesAgree;
    match step {
      case Order(cmd) => OrderKeeps(c, s, cmd);
      case Thread(r) => ThreadKeeps(c, s, r);
      case Control(m, hw) => ControlKeeps(c, s, m, hw);
    }
  }

  // ---- the law ----

  lemma {:induction false} RunKeeps(c: Daq.Config, s: State, steps: seq<Step>, s': State)
    requires Daq.ValidConfig(c) && Inv(c, s) && Reaches(c, s, steps, s')
    ensures Inv(c, s')
    decreases |steps|
  {
    hide Next, Ring.Inv, Windowed, Indexed, Counted, FramesAgree, Enabled;
    if steps != [] {
      StepKeeps(c, s, steps[0]);
      RunKeeps(c, Next(c, s, steps[0]), steps[1..], s');
    }
  }

  lemma InitialInv(c: Daq.Config, gain: nat, freq: nat, header: IqHeader)
    requires Daq.ValidConfig(c) && |header.ifGains| == 32
    ensures Inv(c, Initial(c, gain, freq, header))
  {
    Ring.InitialInv(c.chNo);
    NothingLogged(Daq.Initial(c, gain, freq, header));
    assert Events([]) == [];
  }

  /** Every dummy frame of a stretch of the log has an index of its own. */
  lemma {:induction false} DummiesAreFrames(log: seq<Mark>, p: nat, f: nat)
    requires p <= f <= |log|
    ensures DummyCount(Events(log)[p..f]) <= NextIndex(log[..f]) - NextIndex(log[..p])
  {
    if p < f {
      DummiesAreFrames(log, p, f - 1);
      assert log[..f][..f - 1] == log[..f - 1];
      assert Events(log)[p..f] == Events(log)[p..f - 1] + [log[f - 1].event];
      DummyCountConcat(Events(log)[p..f - 1], [log[f - 1].event]);
      assert DummyCount([log[f - 1].event]) <= 1;
    }
  }

  /** How many blocks a receiver was ahead of the main loop. */
  function Lag(m: Mark, i: nat): int
    requires i < |m.begun|
  {
    m.begun[i] - m.index
  }

  ghost predicate SampledAt(log: seq<Mark>, f: nat) {
    f < |log| && log[f].event.Emitted? && !IsDummy(log[f].event.header)
  }

  /** Every mark counts the blocks of receiver `i`. */
  ghost predicate Counts(log: seq<Mark>, i: nat) {
    forall q | 0 <= q < |log| :: i < |log[q].begun| && i < |log[q].complete|
  }

  /** Block `n` had not begun when an earlier change found its receiver no further ahead than was promised for it. */
  ghost predicate BegunAfter(log: seq<Mark>, f: nat, i: nat)
    requires f < |log| && Counts(log, i)
  {
    forall p | 0 <= p < f && log[p].event.Applied? && Lag(log[p], i) <= Promised(log[p].event.change) ::
      log[p].begun[i] <= log[f].index
  }

  /** Block `n` was complete when a later change was applied. */
  ghost predicate CompleteBefore(log: seq<Mark>, f: nat, i: nat)
    requires f < |log| && Counts(log, i)
  {
    forall p | f < p < |log| && log[p].event.Applied? :: log[f].index < log[p].complete[i]
  }

  lemma BlocksAreBetween(c: Daq.Config, s: State, f: nat, i: nat)
    requires Daq.ValidConfig(c) && Inv(c, s) && SampledAt(s.log, f) && i < c.chNo
    ensures Counts(s.log, i) && BegunAfter(s.log, f, i) && CompleteBefore(s.log, f, i)
  {
    hide Ring.Inv, DummyCount, NextIndex, WindowInv, Covered, FramesAgree, Faithful;
    var events := Events(s.log);
    forall p | 0 <= p < f && s.log[p].event.Applied? && Lag(s.log[p], i) <= Promised(s.log[p].event.change)
      ensures s.log[p].begun[i] <= s.log[f].index
    {
      assert IsSampleFrame(events[f]) && events[p].Applied?;
      assert DummyCount(events[p..f]) >= Promised(events[p].change);
      DummiesAreFrames(s.log, p, f);
    }
  }

  /**
   * In every run with its rings: frame `n`, if it has samples, carries block `n` of each receiver exactly if
   * that receiver was at most a ring ahead when the block had been sent. The block was complete before any
   * later change, and had not begun at any earlier one that found its receiver no further ahead than the
   * dummy frames promised after it, 4 or 3.
   */
  lemma SettingsReachBlocks(c: Daq.Config, gain: nat, freq: nat, header: IqHeader, steps: seq<Step>, s: State,
                            f: nat, i: nat)
    requires Daq.ValidConfig(c) && |header.ifGains| == 32
    requires ValidState(c, Initial(c, gain, freq, header))
    requires Reaches(c, Initial(c, gain, freq, header), steps, s) && SampledAt(s.log, f) && i < c.chNo
    ensures Counts(s.log, i) && BegunAfter(s.log, f, i) && CompleteBefore(s.log, f, i)
    ensures var n := s.log[f].index;
            && n < |s.ring.frames| && s.ring.frames[n].index == n && |s.ring.frames[n].blocks| == c.chNo
            && (s.ring.frames[n].blocks[i].cell == Ring.Block(n) <==>
                  s.ring.frames[n].blocks[i].begun <= n + Ring.NUM_BUFF)
  {
    hide Reaches, Initial, Windowed, Indexed, Counted, BegunAfter, CompleteBefore;
    InitialInv(c, gain, freq, header);
    RunKeeps(c, Initial(c, gain, freq, header), steps, s);
    BlocksAreBetween(c, s, f, i);
    FrameIsExact(s.ring, s.log[f].index, i);
  }

  lemma FrameIsExact(ring: Ring.State, n: nat, i: nat)
    requires Ring.Inv(ring) && n < |ring.frames| && !ring.frames[n].dummy && i < |ring.receivers|
    ensures ring.frames[n].index == n && |ring.frames[n].blocks| == |ring.receivers|
    ensures ring.frames[n].blocks[i].cell == Ring.Block(n) <==> ring.frames[n].blocks[i].begun <= n + Ring.NUM_BUFF
  {
    assert Ring.AllExact(ring.frames[n].blocks, n);
    assert Ring.Exact(ring.frames[n].blocks[i], n);
  }
}
