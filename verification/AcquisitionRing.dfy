/**
 * The acquisition rings of the receiver process: one callback thread per receiver writes blocks into a
 * ring of eight slots while the main thread checks the rings and sends frames, channel by channel. Every
 * interleaving is a run; a block is named by its number.
 */
module AcquisitionRing {
  import opened Common

  const NUM_BUFF: nat := 8

  /** What a slot holds: nothing yet, a block that is being overwritten, or block `n`. */
  datatype Cell = Empty | Torn | Block(n: nat)

  /** `buffInd` blocks are complete; a callback may be writing one more. */
  datatype Receiver = Receiver(slots: seq<Cell>, buffInd: nat, writing: bool)

  /** While a block is being read, `cell` is what its bytes amount to so far. */
  datatype Phase = Waiting | Checking(next: nat) | Sending(next: nat) | Reading(next: nat, cell: Cell)

  /** One block as sent, and how many blocks its receiver had begun when the sending of the block ended. */
  datatype Sent = Sent(cell: Cell, begun: nat)

  /** A frame: its block index and its blocks, none for a dummy frame. */
  datatype Frame = Frame(index: nat, dummy: bool, blocks: seq<Sent>)

  datatype State = State(receivers: seq<Receiver>, read: nat, phase: Phase, current: seq<Sent>, frames: seq<Frame>)

  datatype Step =
    | BeginWrite(i: nat)
    | EndWrite(i: nat)
    | Wake
    | Check
    | BeginSend
    | EndSend
    | SendDummy
    | Finish

  function Initial(chNo: nat): State {
    State(Repeat(Receiver(Repeat(Empty, NUM_BUFF), 0, false), chNo), 0, Waiting, [], [])
  }

  function Begun(r: Receiver): nat {
    if r.writing then r.buffInd + 1 else r.buffInd
  }

  predicate Enabled(s: State, step: Step) {
    match step
    case BeginWrite(i) => i < |s.receivers| && !s.receivers[i].writing
    case EndWrite(i) => i < |s.receivers| && s.receivers[i].writing
    case Wake => s.phase.Waiting?
    case Check => s.phase.Checking? && s.phase.next < |s.receivers|
    case BeginSend => s.phase.Sending? && s.phase.next < |s.receivers|
    case EndSend => s.phase.Reading?
    case SendDummy => s.phase == Sending(0)
    case Finish => s.phase.Sending? && s.phase.next == |s.receivers|
  }

  /** The check of the main thread: the next block is complete and the writer is not a whole lap ahead. */
  predicate Ready(r: Receiver, read: nat) {
    read < r.buffInd && r.buffInd % NUM_BUFF != read % NUM_BUFF
  }

  ghost predicate ValidState(s: State) {
    && (forall i | 0 <= i < |s.receivers| :: |s.receivers[i].slots| == NUM_BUFF)
    && (s.phase.Sending? ==> s.phase.next <= |s.receivers|)
    && (s.phase.Checking? ==> s.phase.next <= |s.receivers|)
    && (s.phase.Reading? ==> s.phase.next < |s.receivers|)
  }

  /** The main thread reads slot by slot; a write that begins in the slot being read tears what is read. */
  function Disturbed(s: State, i: nat): Phase
    requires ValidState(s) && i < |s.receivers|
  {
    if s.phase.Reading? && s.phase.next == i && s.receivers[i].buffInd % NUM_BUFF == s.read % NUM_BUFF then
      s.phase.(cell := Torn)
    else
      s.phase
  }

  function Next(s: State, step: Step): (r: State)
    requires ValidState(s) && Enabled(s, step)
    ensures ValidState(r)
  {
    match step
    case BeginWrite(i) =>
      var rx := s.receivers[i];
      s.(receivers := s.receivers[i := rx.(slots := rx.slots[rx.buffInd % NUM_BUFF := Torn], writing := true)],
         phase := Disturbed(s, i))
    case EndWrite(i) =>
      var rx := s.receivers[i];
      s.(receivers := s.receivers[i := Receiver(rx.slots[rx.buffInd % NUM_BUFF := Block(rx.buffInd)],
                                                rx.buffInd + 1, false)])
    case Wake => s.(phase := if s.receivers == [] then Sending(0) else Checking(0))
    case Check =>
      if !Ready(s.receivers[s.phase.next], s.read) then s.(phase := Waiting)
      else if s.phase.next + 1 == |s.receivers| then s.(phase := Sending(0))
      else s.(phase := Checking(s.phase.next + 1))
    case BeginSend =>
      s.(phase := Reading(s.phase.next, s.receivers[s.phase.next].slots[s.read % NUM_BUFF]))
    case EndSend =>
      var rx := s.receivers[s.phase.next];
      s.(current := s.current + [Sent(s.phase.cell, Begun(rx))], phase := Sending(s.phase.next + 1))
    case SendDummy =>
      s.(frames := s.frames + [Frame(s.read, true, [])], current := [], read := s.read + 1, phase := Waiting)
    case Finish =>
      s.(frames := s.frames + [Frame(s.read, false, s.current)], current := [], read := s.read + 1, phase := Waiting)
  }

  ghost predicate Reaches(s: State, steps: seq<Step>, s': State)
    requires ValidState(s)
    decreases |steps|
  {
    if steps == [] then s' == s
    else Enabled(s, steps[0]) && Reaches(Next(s, steps[0]), steps[1..], s')
  }

  // ---- what a ring holds ----

  /** The last block below `end` that goes into slot `k`. */
  function Latest(end: nat, k: nat): Cell
    requires k < NUM_BUFF
  {
    if end == 0 then Empty
    else if (end - 1) % NUM_BUFF == k then Block(end - 1)
    else Latest(end - 1, k)
  }

  ghost predicate RingInv(r: Receiver) {
    && |r.slots| == NUM_BUFF
    && forall k | 0 <= k < NUM_BUFF ::
         r.slots[k] == if r.writing && k == r.buffInd % NUM_BUFF then Torn else Latest(r.buffInd, k)
  }

  /** The slot of block `n` holds block `n` exactly if it was written and no later lap has begun to overwrite it. */
  lemma {:induction false} LatestIs(end: nat, n: nat)
    ensures Latest(end, n % NUM_BUFF) == Block(n) <==> n < end <= n + NUM_BUFF
    decreases end
  {
    if end != 0 {
      NextLap(n);
      if (end - 1) % NUM_BUFF != n % NUM_BUFF {
        assert end - 1 != n && end - 1 != n + NUM_BUFF;
        LatestIs(end - 1, n);
      } else {
        LapsApart(end - 1, n);
      }
    }
  }

  lemma NextLap(n: nat)
    ensures (n + NUM_BUFF) % NUM_BUFF == n % NUM_BUFF
  {
  }

  lemma LapsApart(a: nat, b: nat)
    requires a % NUM_BUFF == b % NUM_BUFF
    ensures a == b || a >= b + NUM_BUFF || b >= a + NUM_BUFF
  {
  }

  lemma OtherSlot(a: nat, b: nat)
    requires a < b < a + NUM_BUFF
    ensures a % NUM_BUFF != b % NUM_BUFF
  {
  }

  lemma SlotIs(r: Receiver, n: nat)
    requires RingInv(r) && n < r.buffInd
    ensures r.slots[n % NUM_BUFF] == Block(n) <==> Begun(r) <= n + NUM_BUFF
  {
    hide Latest;
    LatestIs(r.buffInd, n);
    if r.writing && n % NUM_BUFF == r.buffInd % NUM_BUFF {
      LapsApart(r.buffInd, n);
    }
  }

  lemma WriteKeepsRing(r: Receiver)
    requires RingInv(r)
    ensures !r.writing ==> RingInv(r.(slots := r.slots[r.buffInd % NUM_BUFF := Torn], writing := true))
    ensures r.writing ==>
              RingInv(Receiver(r.slots[r.buffInd % NUM_BUFF := Block(r.buffInd)], r.buffInd + 1, false))
  {
  }

  // ---- runs ----

  /** Whether a block was sent as it should be: exactly if its receiver was not more than a ring ahead. */
  ghost predicate Exact(b: Sent, index: nat) {
    index < b.begun && (b.cell == Block(index) <==> b.begun <= index + NUM_BUFF)
  }

  ghost predicate AllExact(blocks: seq<Sent>, index: nat) {
    forall i | 0 <= i < |blocks| :: Exact(blocks[i], index)
  }

  /** The rings a phase has found ready. */
  function Passed(s: State): nat {
    match s.phase
    case Waiting => 0
    case Checking(next) => next
    case _ => |s.receivers|
  }

  ghost predicate Inv(s: State) {
    && ValidState(s)
    && (forall i | 0 <= i < |s.receivers| :: RingInv(s.receivers[i]))
    && (forall i | 0 <= i < |s.receivers| && i < Passed(s) :: s.read < s.receivers[i].buffInd)
    && |s.frames| == s.read
    && (forall n | 0 <= n < |s.frames| :: s.frames[n].index == n && AllExact(s.frames[n].blocks, n))
    && (forall n | 0 <= n < |s.frames| && !s.frames[n].dummy :: |s.frames[n].blocks| == |s.receivers|)
    && AllExact(s.current, s.read)
    && |s.current| == (if s.phase.Sending? || s.phase.Reading? then s.phase.next else 0)
    && (s.phase.Reading? ==>
          (s.phase.cell == Block(s.read) <==> Begun(s.receivers[s.phase.next]) <= s.read + NUM_BUFF))
    && (forall i | 0 <= i < |s.receivers| :: s.read <= s.receivers[i].buffInd)
  }

  /** A write that begins while a block is read tears it exactly if it takes the receiver more than a ring ahead. */
  lemma BeginWriteKeeps(s: State, i: nat)
    requires Inv(s) && Enabled(s, BeginWrite(i))
    ensures Inv(Next(s, BeginWrite(i)))
  {
    hide RingInv, AllExact;
    WriteKeepsRing(s.receivers[i]);
    if s.phase.Reading? && s.phase.next == i {
      if s.receivers[i].buffInd % NUM_BUFF == s.read % NUM_BUFF {
        LapsApart(s.receivers[i].buffInd, s.read);
      }
    }
  }

  lemma EndWriteKeeps(s: State, i: nat)
    requires Inv(s) && Enabled(s, EndWrite(i))
    ensures Inv(Next(s, EndWrite(i)))
  {
    hide RingInv, AllExact;
    WriteKeepsRing(s.receivers[i]);
  }

  lemma BeginSendKeeps(s: State)
    requires Inv(s) && Enabled(s, BeginSend)
    ensures Inv(Next(s, BeginSend))
  {
    hide RingInv, AllExact;
    SlotIs(s.receivers[s.phase.next], s.read);
  }

  lemma EndSendKeeps(s: State)
    requires Inv(s) && Enabled(s, EndSend)
    ensures Inv(Next(s, EndSend))
  {
    hide RingInv;
  }

  lemma StepKeepsInv(s: State, step: Step)
    requires Inv(s) && Enabled(s, step)
    ensures Inv(Next(s, step)) && |Next(s, step).receivers| == |s.receivers|
  {
    hide RingInv, Exact;
    match step {
      case BeginWrite(i) => BeginWriteKeeps(s, i);
      case EndWrite(i) => EndWriteKeeps(s, i);
      case BeginSend => BeginSendKeeps(s);
      case EndSend => EndSendKeeps(s);
      case _ =>
    }
  }

  lemma InitialInv(chNo: nat)
    ensures Inv(Initial(chNo))
  {
  }

  lemma {:induction false} RunKeepsInv(s: State, steps: seq<Step>, s': State)
    requires Inv(s) && Reaches(s, steps, s')
    ensures Inv(s') && |s'.receivers| == |s.receivers|
    decreases |steps|
  {
    hide RingInv, AllExact, Next, Enabled;
    if steps != [] {
      StepKeepsInv(s, steps[0]);
      RunKeepsInv(Next(s, steps[0]), steps[1..], s');
    }
  }

  lemma SameSlot(a: nat, b: nat)
    requires b <= a
    ensures a % NUM_BUFF == b % NUM_BUFF <==> (a - b) % NUM_BUFF == 0
  {
  }

  /**
   * In every interleaving the check of a receiver sends the main thread back to wait exactly if the receiver is a whole
   * number of laps ahead, none included; otherwise the next receiver is checked, or the frame sent after the last.
   */
  lemma CheckStopsExactly(chNo: nat, steps: seq<Step>, s: State)
    requires Reaches(Initial(chNo), steps, s) && Enabled(s, Check)
    ensures ValidState(s)
    ensures var k := s.phase.next;
            var ahead := s.receivers[k].buffInd - s.read;
            && 0 <= ahead && (Next(s, Check).phase.Waiting? <==> ahead % NUM_BUFF == 0)
            && (ahead % NUM_BUFF != 0 ==>
                  Next(s, Check).phase == if k + 1 == chNo then Sending(0) else Checking(k + 1))
  {
    InitialInv(chNo);
    RunKeepsInv(Initial(chNo), steps, s);
    SameSlot(s.receivers[s.phase.next].buffInd, s.read);
  }

  /**
   * In every interleaving: frames carry consecutive block indices, and frame `n` carries block `n` of a
   * channel exactly if, when that block had been sent, its receiver had begun no block beyond `n + 8 - 1`.
   */
  lemma FramesAreCoherent(chNo: nat, steps: seq<Step>, s: State, n: nat, i: nat)
    requires Reaches(Initial(chNo), steps, s) && n < |s.frames|
    ensures s.frames[n].index == n && (!s.frames[n].dummy ==> |s.frames[n].blocks| == chNo)
    ensures i < |s.frames[n].blocks| ==>
              (s.frames[n].blocks[i].cell == Block(n) <==> s.frames[n].blocks[i].begun <= n + NUM_BUFF)
  {
    InitialInv(chNo);
    RunKeepsInv(Initial(chNo), steps, s);
    assert AllExact(s.frames[n].blocks, n);
    assert i < |s.frames[n].blocks| ==> Exact(s.frames[n].blocks[i], n);
  }

  /**
   * While a frame is being sent, a callback writes into the slot being sent only if its receiver is more
   * than a whole ring ahead.
   */
  lemma WritesStayAhead(chNo: nat, steps: seq<Step>, s: State, i: nat)
    requires Reaches(Initial(chNo), steps, s) && (s.phase.Sending? || s.phase.Reading?) && i < |s.receivers|
    requires s.receivers[i].writing && Begun(s.receivers[i]) <= s.read + NUM_BUFF
    ensures s.receivers[i].buffInd % NUM_BUFF != s.read % NUM_BUFF
  {
    InitialInv(chNo);
    RunKeepsInv(Initial(chNo), steps, s);
    if s.receivers[i].buffInd % NUM_BUFF == s.read % NUM_BUFF {
      LapsApart(s.receivers[i].buffInd, s.read);
    }
  }

  // ---- a writer more than a ring ahead ----

  lemma {:induction false} Append(s: State, steps: seq<Step>, s': State, step: Step)
    requires ValidState(s) && Reaches(s, steps, s') && ValidState(s') && Enabled(s', step)
    ensures Reaches(s, steps + [step], Next(s', step))
    decreases |steps|
  {
    hide Next, Enabled, ValidState;
    if steps == [] {
      assert Reaches(Next(s, step), [], Next(s', step));
      assert ([] + [step])[1..] == [];
    } else {
      Append(Next(s, steps[0]), steps[1..], s', step);
      assert (steps + [step])[1..] == steps[1..] + [step];
    }
  }

  /** A receiver that has written `n` blocks. */
  function Written(n: nat): (r: Receiver)
    ensures |r.slots| == NUM_BUFF && r.buffInd == n && !r.writing
  {
    if n == 0 then Receiver(Repeat(Empty, NUM_BUFF), 0, false)
    else
      var r := Written(n - 1);
      Receiver(r.slots[r.buffInd % NUM_BUFF := Block(r.buffInd)], r.buffInd + 1, false)
  }

  lemma {:induction false} WrittenRing(n: nat)
    ensures RingInv(Written(n))
  {
    if n != 0 {
      WrittenRing(n - 1);
      var r := Written(n - 1);
      var torn := r.(slots := r.slots[r.buffInd % NUM_BUFF := Torn], writing := true);
      WriteKeepsRing(r);
      WriteKeepsRing(torn);
      assert torn.slots[r.buffInd % NUM_BUFF := Block(r.buffInd)] ==
             r.slots[r.buffInd % NUM_BUFF := Block(r.buffInd)];
    }
  }

  /** A block is written while the main thread waits. */
  lemma OneWrite(s: State, n: nat)
    requires ValidState(s) && s.receivers == [Written(n)] && s.phase.Waiting?
    ensures Enabled(s, BeginWrite(0)) && Enabled(Next(s, BeginWrite(0)), EndWrite(0))
    ensures Next(Next(s, BeginWrite(0)), EndWrite(0)) == s.(receivers := [Written(n + 1)])
  {
    var r := Written(n);
    assert r.slots[n % NUM_BUFF := Torn][n % NUM_BUFF := Block(n)] == r.slots[n % NUM_BUFF := Block(n)];
  }

  lemma {:induction false} WritesReach(s: State, n: nat) returns (steps: seq<Step>, s': State)
    requires ValidState(s) && s.receivers == [Written(0)] && s.phase.Waiting?
    ensures Reaches(s, steps, s') && ValidState(s') && s' == s.(receivers := [Written(n)])
  {
    hide Written;
    if n == 0 {
      steps, s' := [], s;
    } else {
      hide Next, Enabled;
      steps, s' := WritesReach(s, n - 1);
      OneWrite(s', n - 1);
      Append(s, steps, s', BeginWrite(0));
      Append(s, steps + [BeginWrite(0)], Next(s', BeginWrite(0)), EndWrite(0));
      steps := steps + [BeginWrite(0)] + [EndWrite(0)];
      s' := s'.(receivers := [Written(n)]);
    }
  }

  /** A frame is sent from a ready ring that holds `n` blocks. */
  lemma FrameSent(s0: State, before: seq<Step>, s: State, n: nat) returns (steps: seq<Step>, s': State)
    requires ValidState(s0) && Reaches(s0, before, s) && ValidState(s)
    requires s.receivers == [Written(n)] && s.phase.Waiting? && s.current == [] && Ready(Written(n), s.read)
    ensures Reaches(s0, steps, s')
    ensures s'.frames == s.frames + [Frame(s.read, false, [Sent(Written(n).slots[s.read % NUM_BUFF], n)])]
  {
    hide Written, Reaches, Ready;
    steps, s' := before, s;
    Append(s0, steps, s', Wake);
    steps, s' := steps + [Wake], Next(s', Wake);
    Append(s0, steps, s', Check);
    steps, s' := steps + [Check], Next(s', Check);
    Append(s0, steps, s', BeginSend);
    steps, s' := steps + [BeginSend], Next(s', BeginSend);
    Append(s0, steps, s', EndSend);
    steps, s' := steps + [EndSend], Next(s', EndSend);
    assert s'.current == [Sent(Written(n).slots[s.read % NUM_BUFF], n)];
    Append(s0, steps, s', Finish);
    steps, s' := steps + [Finish], Next(s', Finish);
  }

  /** The check for a whole lap does not stop a writer nine blocks ahead: frame 0 then carries block 8. */
  lemma OverrunIsSent() returns (steps: seq<Step>, s: State)
    ensures Reaches(Initial(1), steps, s) && |s.frames| == 1
    ensures !s.frames[0].dummy && |s.frames[0].blocks| == 1 && s.frames[0].blocks[0].cell == Block(NUM_BUFF)
  {
    hide Reaches, RingInv, Next, Enabled;
    WrittenNone();
    steps, s := WritesReach(Initial(1), 9);
    steps, s := FrameSent(Initial(1), steps, s, 9);
    NineWritten();
  }

  lemma WrittenNone()
    ensures Initial(1).receivers == [Written(0)]
  {
  }

  lemma NineWritten()
    ensures Written(9).slots[0] == Block(8)
  {
    WrittenRing(9);
    hide Written;
    assert Latest(9, 0) == Block(8);
  }
}
