/**
 * The rebuffer is a FIFO per channel: what it has sent since the last dummy frame, followed by
 * what its ring still holds, is what it has received since then, in every run, as long as no
 * output frame is smaller than a DAQ block.
 */
module RebufferFifo {
  import opened Common
  import opened IqHeaders
  import opened Rebuffer

  /** The `n` values found from `wr` on, wrapping at the end of the ring. */
  function Window<T>(cells: seq<T>, wr: nat, n: nat): (r: seq<T>)
    requires wr < |cells| && n <= |cells|
    ensures |r| == n
    ensures forall i | 0 <= i < n :: r[i] == cells[Wrap(wr + i, |cells|)]
  {
    seq(n, i requires 0 <= i < n => cells[Wrap(wr + i, |cells|)])
  }

  /** What a sampled frame adds to channel `m`, nothing for the other types. */
  function Added<T>(f: Frame<T>, m: nat): seq<T> {
    if IsSampled(f.header) && m < |f.blocks| then f.blocks[m] else []
  }

  /** The values of channel `m` carried by `frames` since the last dummy frame. */
  function Stream<T>(frames: seq<Frame<T>>, m: nat): seq<T> {
    if frames == [] then [] else
      var last := frames[|frames| - 1];
      if IsDummy(last.header) then [] else Stream(frames[..|frames| - 1], m) + Added(last, m)
  }

  /** The frames among the outcomes of a run. */
  function Sent<T>(outs: seq<Option<Frame<T>>>): seq<Frame<T>> {
    if outs == [] then []
    else
      var last := outs[|outs| - 1];
      Sent(outs[..|outs| - 1]) + (if last.Some? then [last.value] else [])
  }

  /** Data and calibration frames carry samples. */
  ghost predicate Carrying<T>(ins: seq<Frame<T>>) {
    forall i | 0 <= i < |ins| :: IsSampled(ins[i].header) ==> ins[i].header.cpiLength > 0
  }

  /** No output frame is smaller than a DAQ block. */
  ghost predicate BlocksFit(z: Sizes) {
    z.block <= z.data && z.block <= z.cal
  }

  /** What every step keeps when blocks fit: the window ends at `rd` and is shorter than one output frame. */
  ghost predicate RingInv<T>(z: Sizes, s: State<T>)
    requires ValidSizes(z) && ValidState(z, s)
  {
    && s.available < Max(z.data, z.cal)
    && s.rd == Wrap(s.wr + s.available, z.capacity)
  }

  /** What channel `m` of the ring still has to send. */
  function Held<T>(z: Sizes, s: State<T>, m: nat): seq<T>
    requires ValidSizes(z) && ValidState(z, s) && m < z.chNum && s.available <= z.capacity
  {
    Window(s.cells[m], s.wr, s.available)
  }

  // ---- one ring ----

  lemma StoreExtendsWindow<T>(cells: seq<T>, wr: nat, a: nat, block: seq<T>)
    requires wr < |cells| && a + |block| <= |cells|
    requires Wrap(wr + a, |cells|) + |block| <= |cells|
    ensures Window(Store(cells, Wrap(wr + a, |cells|), block), wr, a + |block|)
         == Window(cells, wr, a) + block
  {
  }

  lemma StoreBeyondWindow<T>(cells: seq<T>, wr: nat, a: nat, block: seq<T>)
    requires wr < |cells| && a + |block| <= |cells|
    requires Wrap(wr + a, |cells|) + |block| <= |cells|
    ensures Window(Store(cells, Wrap(wr + a, |cells|), block), wr, a) == Window(cells, wr, a)
  {
    StoreExtendsWindow(cells, wr, a, block);
    var stored := Store(cells, Wrap(wr + a, |cells|), block);
    assert Window(stored, wr, a) == Window(stored, wr, a + |block|)[..a];
  }

  lemma CopyIsWindow<T>(cells: seq<T>, wr: nat, n: nat)
    requires wr < |cells| && n <= |cells|
    ensures CopyOut(cells, wr, n) == Window(cells, wr, n)
  {
  }

  lemma WindowSplit<T>(cells: seq<T>, wr: nat, n: nat, a: nat)
    requires wr < |cells| && n <= a <= |cells| && n < |cells|
    ensures Window(cells, wr, a) == Window(cells, wr, n) + Window(cells, Wrap(wr + n, |cells|), a - n)
  {
  }

  // ---- one step ----

  function SentNow<T>(out: Option<Frame<T>>, m: nat): seq<T> {
    if out.Some? then Added(out.value, m) else []
  }

  /** Receiving a frame appends its block to the window and leaves the rest of it alone. */
  lemma ReceiveFifo<T>(z: Sizes, zero: T, s: State<T>, f: Frame<T>, m: nat)
    requires ValidSizes(z) && ValidState(z, s) && WellFormed(z, f) && Carrying([f])
    requires m < z.chNum && !IsDummy(f.header)
    requires s.available + z.block <= z.capacity && s.rd == Wrap(s.wr + s.available, z.capacity)
    ensures var r := Receive(z, zero, s, f);
            && r.available == s.available + |Added(f, m)|
            && Held(z, r, m) == Held(z, s, m) + Added(f, m)
            && r.rd == Wrap(r.wr + r.available, z.capacity)
  {
    assert IsSampled([f][0].header) ==> [f][0].header.cpiLength > 0;
    if f.header.cpiLength > 0 {
      StoreExtendsWindow(s.cells[m], s.wr, s.available, f.blocks[m]);
      StoreBeyondWindow(s.cells[m], s.wr, s.available, f.blocks[m]);
    }
  }

  /** Sending a frame takes its payload off the front of the window. */
  lemma EmitFifo<T>(z: Sizes, s: State<T>, h: IqHeader, m: nat)
    requires ValidSizes(z) && ValidState(z, s) && m < z.chNum && !IsDummy(h)
    requires s.available <= z.capacity && s.rd == Wrap(s.wr + s.available, z.capacity)
    ensures var (r, out) := Emit(z, s, h);
            && r.available == s.available - DueBytes(z, s.available, h)
            && Held(z, s, m) == SentNow(out, m) + Held(z, r, m)
            && r.rd == Wrap(r.wr + r.available, z.capacity)
            && (out.Some? ==> IsSampled(out.value.header))
  {
    hide Window;
    var n := DueBytes(z, s.available, h);
    if n > 0 {
      CopyIsWindow(s.cells[m], s.wr, n);
      WindowSplit(s.cells[m], s.wr, n, s.available);
    }
  }

  /** One step moves samples from the arriving block through the window to the sent frame, in order. */
  lemma StepFifo<T>(z: Sizes, zero: T, s: State<T>, f: Frame<T>, m: nat)
    requires ValidSizes(z) && ValidState(z, s) && WellFormed(z, f) && Carrying([f])
    requires BlocksFit(z) && RingInv(z, s) && m < z.chNum && !IsDummy(f.header)
    ensures var (r, out) := Step(z, zero, s, f);
            && RingInv(z, r)
            && Held(z, s, m) + Added(f, m) == SentNow(out, m) + Held(z, r, m)
            && (out.Some? ==> IsSampled(out.value.header))
  {
    ReceiveFifo(z, zero, s, f, m);
    EmitFifo(z, Receive(z, zero, s, f), f.header, m);
  }

  // ---- whole runs ----

  lemma StreamAppend<T>(before: seq<Frame<T>>, f: Frame<T>, m: nat)
    ensures Stream(before + [f], m) == if IsDummy(f.header) then [] else Stream(before, m) + Added(f, m)
  {
    assert (before + [f])[..|before|] == before;
  }

  lemma SentAppend<T>(outs: seq<Option<Frame<T>>>, out: Option<Frame<T>>, m: nat)
    ensures Stream(Sent(outs + [out]), m)
         == if out.Some? && IsDummy(out.value.header) then [] else Stream(Sent(outs), m) + SentNow(out, m)
  {
    assert (outs + [out])[..|outs|] == outs;
    if out.Some? {
      StreamAppend(Sent(outs), out.value, m);
    } else {
      assert Sent(outs) + [] == Sent(outs);
      assert Stream(Sent(outs), m) + [] == Stream(Sent(outs), m);
    }
  }

  lemma FifoAlgebra<T>(past: seq<T>, held: seq<T>, added: seq<T>, sent: seq<T>, held': seq<T>)
    requires held + added == sent + held'
    ensures (past + sent) + held' == (past + held) + added
  {
    assert (past + sent) + held' == past + (sent + held');
    assert (past + held) + added == past + (held + added);
  }

  lemma RunAppend<T>(z: Sizes, zero: T, before: seq<Frame<T>>, f: Frame<T>)
    requires ValidSizes(z) && WellFormedRun(z, before + [f])
    ensures WellFormedRun(z, before) && WellFormed(z, f)
    ensures var (s, outs) := Run(z, zero, before);
            var (s', out) := Step(z, zero, s, f);
            Run(z, zero, before + [f]) == (s', outs + [out])
  {
    assert (before + [f])[..|before|] == before;
    assert (before + [f])[|before|] == f;
    forall i | 0 <= i < |before|
      ensures WellFormed(z, before[i])
    {
      assert (before + [f])[i] == before[i];
    }
  }

  /** In every run the ring has room for the next block and never holds a whole larger output frame. */
  lemma {:induction false} RunKeepsRoom<T>(z: Sizes, zero: T, ins: seq<Frame<T>>)
    requires ValidSizes(z) && BlocksFit(z) && WellFormedRun(z, ins) && Carrying(ins)
    ensures var s := Run(z, zero, ins).0;
            && RingInv(z, s)
            && s.available + z.block < z.capacity
  {
    if ins != [] {
      var before, f := ins[..|ins| - 1], ins[|ins| - 1];
      assert ins == before + [f];
      RunAppend(z, zero, before, f);
      RunKeepsRoom(z, zero, before);
      assert Carrying([f]);
      if !IsDummy(f.header) {
        StepFifo(z, zero, Run(z, zero, before).0, f, 0);
      }
    }
  }

  /**
   * Refinement of a FIFO: on every run, for every channel, the payloads sent since the last dummy
   * frame followed by the ring's window are the blocks received since that frame.
   */
  lemma {:induction false} RunIsFifo<T>(z: Sizes, zero: T, ins: seq<Frame<T>>, m: nat)
    requires ValidSizes(z) && BlocksFit(z) && WellFormedRun(z, ins) && Carrying(ins) && m < z.chNum
    ensures Run(z, zero, ins).0.available <= z.capacity
    ensures var (s, outs) := Run(z, zero, ins);
            Stream(Sent(outs), m) + Held(z, s, m) == Stream(ins, m)
  {
    RunKeepsRoom(z, zero, ins);
    if ins != [] {
      var before, f := ins[..|ins| - 1], ins[|ins| - 1];
      assert ins == before + [f];
      RunAppend(z, zero, before, f);
      RunKeepsRoom(z, zero, before);
      RunIsFifo(z, zero, before, m);
      var (s, outs) := Run(z, zero, before);
      var (s', out) := Step(z, zero, s, f);
      StreamAppend(before, f, m);
      SentAppend(outs, out, m);
      if !IsDummy(f.header) {
        assert Carrying([f]);
        StepFifo(z, zero, s, f, m);
        FifoAlgebra(Stream(Sent(outs), m), Held(z, s, m), Added(f, m), SentNow(out, m), Held(z, s', m));
      }
    }
  }
}
