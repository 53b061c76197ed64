/**
 * How far the rebuffer's promises reach: the output rate of a burst of frames of one type, and
 * the proof that the FIFO law fails as soon as an output frame is smaller than a DAQ block.
 */
module RebufferLimits {
  import opened Common
  import opened IqHeaders
  import opened Rebuffer
  import opened RebufferFifo

  /** Bytes per channel of the output frames that frames of a sampled type turn into. */
  function SizeFor(z: Sizes, frameType: nat): nat {
    if frameType == FRAME_TYPE_CAL then z.cal else z.data
  }

  /** A header as the source makes it for a sampled frame of type `t`. */
  ghost predicate Sampled(h: IqHeader, t: nat) {
    h.frameType == t && h.cpiLength > 0 && IsSampled(h)
  }

  ghost predicate IsBurst<T>(burst: seq<Frame<T>>, t: nat) {
    forall i | 0 <= i < |burst| :: Sampled(burst[i].header, t)
  }

  ghost predicate AtReset<T>(before: seq<Frame<T>>) {
    before == [] || IsDummy(before[|before| - 1].header)
  }

  function Count<T>(outs: seq<Option<Frame<T>>>): nat {
    if outs == [] then 0
    else Count(outs[..|outs| - 1]) + (if outs[|outs| - 1].Some? then 1 else 0)
  }

  lemma CountAppend<T>(outs: seq<Option<Frame<T>>>, out: Option<Frame<T>>)
    ensures Count(outs + [out]) == Count(outs) + (if out.Some? then 1 else 0)
  {
    assert (outs + [out])[..|outs|] == outs;
  }

  lemma ResetState<T>(z: Sizes, zero: T, before: seq<Frame<T>>)
    requires ValidSizes(z) && WellFormedRun(z, before) && AtReset(before)
    ensures var s := Run(z, zero, before).0;
            s == Reset(z, zero, s.overdrive)
  {
    if before != [] {
      assert before == before[..|before| - 1] + [before[|before| - 1]];
      RunAppend(z, zero, before[..|before| - 1], before[|before| - 1]);
    }
  }

  /** One frame of a burst: `block` bytes more, and one output frame less once there is enough for it. */
  lemma BurstStep<T>(z: Sizes, zero: T, s: State<T>, f: Frame<T>)
    requires ValidSizes(z) && ValidState(z, s) && WellFormed(z, f) && Sampled(f.header, f.header.frameType)
    ensures var (s', out) := Step(z, zero, s, f);
            var size := SizeFor(z, f.header.frameType);
            && (out.Some? <==> s.available + z.block >= size)
            && s'.available == s.available + z.block - (if out.Some? then size else 0)
  {
    hide TimeStampAdjust, NextReadOffset, NextWriteOffset;
  }

  lemma BurstStart<T>(z: Sizes, zero: T, before: seq<Frame<T>>)
    requires ValidSizes(z) && WellFormedRun(z, before) && AtReset(before)
    ensures var (s, outs) := Run(z, zero, before);
            s.available == 0 && outs[|before|..] == [] && Count(outs[|before|..]) == 0
  {
    ResetState(z, zero, before);
  }

  /** Every byte of a burst was either sent or is still available, and less than a frame is left. */
  lemma {:induction false} BurstConserves<T>(z: Sizes, zero: T, before: seq<Frame<T>>, burst: seq<Frame<T>>, t: nat)
    requires ValidSizes(z) && WellFormedRun(z, before + burst)
    requires AtReset(before) && IsBurst(burst, t)
    requires z.block <= SizeFor(z, t)
    ensures var (s, outs) := Run(z, zero, before + burst);
            && s.available < SizeFor(z, t)
            && Times(Count(outs[|before|..]), SizeFor(z, t)) + s.available == Times(|burst|, z.block)
  {
    hide Step, Run, Count;
    if burst == [] {
      assert before + burst == before;
      BurstStart(z, zero, before);
    } else {
      var front, f := burst[..|burst| - 1], burst[|burst| - 1];
      assert before + burst == (before + front) + [f];
      RunAppend(z, zero, before + front, f);
      BurstConserves(z, zero, before, front, t);
      var (s, outs) := Run(z, zero, before + front);
      var out := Step(z, zero, s, f).1;
      BurstStep(z, zero, s, f);
      assert (outs + [out])[|before|..] == outs[|before|..] + [out];
      CountAppend(outs[|before|..], out);
    }
  }

  /** After k frames of one type since a reset, exactly floor(k * in / size) frames were sent. */
  lemma BurstRate<T>(c: Config, zero: T, before: seq<Frame<T>>, burst: seq<Frame<T>>, t: nat)
    requires ValidConfig(c)
    requires WellFormedRun(Configure(c), before + burst) && AtReset(before) && IsBurst(burst, t)
    requires c.inSize <= (if t == FRAME_TYPE_CAL then c.calSize else c.outSize)
    ensures Count(Run(Configure(c), zero, before + burst).1[|before|..])
         == |burst| * c.inSize / (if t == FRAME_TYPE_CAL then c.calSize else c.outSize)
  {
    var z := Configure(c);
    BurstConserves(z, zero, before, burst, t);
    var s := Run(z, zero, before + burst).0;
    FloorRate(Count(Run(z, zero, before + burst).1[|before|..]),
              if t == FRAME_TYPE_CAL then c.calSize else c.outSize, |burst|, c.inSize, s.available);
  }

  lemma FloorRate(n: nat, size: nat, k: nat, inSize: nat, left: nat)
    requires left < 2 * size && Times(n, 2 * size) + left == Times(k, 2 * inSize)
    ensures n == k * inSize / size
  {
    hide Times;
    TimesDouble(n, size);
    TimesDouble(k, inSize);
    TimesIsProduct(n, size);
    TimesIsProduct(k, inSize);
    DivModUnique(k * inSize, n, k * inSize - n * size, size);
  }

  // ---- frames smaller than a block ----

  /** The FIFO law seen from outside: what was sent is a prefix of what arrived. */
  ghost predicate SendsInOrder(z: Sizes, ins: seq<Frame<uint8>>)
    requires ValidSizes(z) && WellFormedRun(z, ins)
  {
    forall m | 0 <= m < z.chNum :: Stream(Sent(Run(z, 0, ins).1), m) <= Stream(ins, m)
  }

  ghost predicate AlwaysInOrder(z: Sizes)
    requires ValidSizes(z)
  {
    forall ins | WellFormedRun(z, ins) && Carrying(ins) :: SendsInOrder(z, ins)
  }

  function Flat(z: Sizes, h: IqHeader, v: uint8): Frame<uint8> {
    Frame(h, Repeat(Repeat(v, z.block), z.chNum))
  }

  ghost predicate Blank(z: Sizes, s: State<uint8>)
    requires ValidSizes(z) && ValidState(z, s)
  {
    s.cells == Repeat(Repeat(0, z.capacity), z.chNum)
  }

  lemma StepBlank(z: Sizes, h: IqHeader, s: State<uint8>)
    requires ValidSizes(z) && ValidState(z, s) && Blank(z, s)
    requires Sampled(h, h.frameType) && SizeFor(z, h.frameType) < z.block
    requires s.available + z.block - SizeFor(z, h.frameType) <= z.capacity
    requires s.rd == Wrap(s.wr + s.available, z.capacity)
    ensures WellFormed(z, Flat(z, h, 0))
    ensures var (s', out) := Step(z, 0, s, Flat(z, h, 0));
            && Blank(z, s')
            && s'.available == s.available + z.block - SizeFor(z, h.frameType)
            && s'.rd == Wrap(s'.wr + s'.available, z.capacity)
            && out.Some? && !IsDummy(out.value.header)
            && |SentNow(out, 0)| == SizeFor(z, h.frameType)
  {
    hide TimeStampAdjust;
    var f := Flat(z, h, 0);
    var cells := LoadBlocks(z, s, f);
    forall m | 0 <= m < z.chNum
      ensures cells[m] == s.cells[m]
    {
    }
    assert cells == s.cells;
  }

  /** A run of `j` blank frames: each leaves `block - size` bytes more in the ring than the one before. */
  lemma {:induction false} BlankRun(z: Sizes, h: IqHeader, j: nat)
    requires ValidSizes(z) && Sampled(h, h.frameType) && SizeFor(z, h.frameType) < z.block
    requires Times(j, z.block - SizeFor(z, h.frameType)) <= z.capacity
    ensures var ins := Repeat(Flat(z, h, 0), j);
            && WellFormedRun(z, ins) && Carrying(ins)
            && Stream(ins, 0) == Repeat(0, Times(j, z.block))
    ensures var (s, outs) := Run(z, 0, Repeat(Flat(z, h, 0), j));
            && Blank(z, s)
            && s.available == Times(j, z.block - SizeFor(z, h.frameType))
            && s.rd == Wrap(s.wr + s.available, z.capacity)
            && |Stream(Sent(outs), 0)| == Times(j, SizeFor(z, h.frameType))
  {
    hide Step, Run, Flat, Stream, Sent, Blank, SentNow;
    var f := Flat(z, h, 0);
    if j == 0 {
      BlankStart(z);
    } else {
      BlankRun(z, h, j - 1);
      var before := Repeat(f, j - 1);
      assert Repeat(f, j) == before + [f];
      var (s, outs) := Run(z, 0, before);
      StepBlank(z, h, s);
      FlatBlocks(z, h, 0);
      RunAppend(z, 0, before, f);
      StreamAppend(before, f, 0);
      SentAppend(outs, Step(z, 0, s, f).1, 0);
      assert Repeat(0 as uint8, Times(j - 1, z.block)) + f.blocks[0] == Repeat(0, Times(j, z.block));
    }
  }

  lemma BlankStart(z: Sizes)
    requires ValidSizes(z)
    ensures var (s, outs) := Run<uint8>(z, 0, []);
            && Blank(z, s) && s.available == 0 && s.rd == 0 && s.wr == 0
            && Stream(Sent(outs), 0) == [] && Stream<uint8>([], 0) == []
  {
  }

  lemma FlatBlocks(z: Sizes, h: IqHeader, v: uint8)
    ensures Flat(z, h, v).header == h && |Flat(z, h, v).blocks| == z.chNum
    ensures forall m | 0 <= m < z.chNum :: Flat(z, h, v).blocks[m] == Repeat(v, z.block)
  {
  }

  /** The longest run of blank frames that does not yet overfill the rings. */
  lemma {:induction false} FillCount(cap: nat, d: nat) returns (k: nat)
    requires 0 < d <= cap
    ensures 0 < k && cap - d < Times(k, d) <= cap
  {
    k := 1;
    while Times(k, d) + d <= cap
      invariant 0 < k && Times(k, d) <= cap
      decreases cap - Times(k, d)
    {
      k := k + 1;
    }
  }

  lemma TimesMonotone(k: nat, a: nat, b: nat)
    requires 0 < k && a < b
    ensures Times(k, a) < Times(k, b)
  {
    if k > 1 {
      TimesMonotone(k - 1, a, b);
    }
  }

  /** The first byte sent after the ring overran comes from the newest frame. */
  lemma OverrunStep(z: Sizes, h: IqHeader, s: State<uint8>)
    requires ValidSizes(z) && ValidState(z, s) && Sampled(h, h.frameType)
    requires s.rd <= s.wr < s.rd + z.block && SizeFor(z, h.frameType) < z.block
    ensures WellFormed(z, Flat(z, h, 1))
    ensures var out := Step(z, 0, s, Flat(z, h, 1)).1;
            && out.Some? && !IsDummy(out.value.header)
            && SentNow(out, 0) != [] && SentNow(out, 0)[0] == 1
  {
    hide TimeStampAdjust;
  }

  /** With a frame type smaller than a block, a run of blank frames and one other frame goes out of order. */
  lemma SmallFramesOverrun(z: Sizes, h: IqHeader)
    requires ValidSizes(z) && Sampled(h, h.frameType) && SizeFor(z, h.frameType) < z.block
    ensures !AlwaysInOrder(z)
  {
    hide Step, Flat, Run, Blank, Stream, Sent, SentNow;
    var size := SizeFor(z, h.frameType);
    var k := FillCount(z.capacity, z.block - size);
    BlankRun(z, h, k);
    var before, f := Repeat(Flat(z, h, 0), k), Flat(z, h, 1);
    var (s, outs) := Run(z, 0, before);
    OverrunStep(z, h, s);
    var ins := before + [f];
    assert WellFormedRun(z, ins) && Carrying(ins) by { FlatHeader(z, h, 1); }
    RunAppend(z, 0, before, f);
    var out := Step(z, 0, s, f).1;
    SentAppend(outs, out, 0);
    StreamAppend(before, f, 0);
    FlatHeader(z, h, 1);
    TimesMonotone(k, size, z.block);
    FlatBlocks(z, h, 1);
    var sent, arrived, p := Stream(Sent(outs + [out]), 0), Stream(ins, 0), Times(k, size);
    assert sent[p] == 1 && arrived[p] == 0;
    assert !SendsInOrder(z, ins);
  }

  lemma FlatHeader(z: Sizes, h: IqHeader, v: uint8)
    ensures Flat(z, h, v).header == h
  {
  }

  const SAMPLE_HEADER: IqHeader :=
    IqHeader(SYNC_WORD, FRAME_TYPE_CAL, [], 0, 1, 0, 0, 1, 1, 1, 0, 0, 0, 0, 0, 8, 0, [], 0, 0, 0, 0, 7)

  /** The rebuffer sends every stream in order exactly when no output frame is smaller than a DAQ block. */
  lemma InOrderIffBlocksFit(c: Config)
    requires ValidConfig(c)
    ensures AlwaysInOrder(Configure(c)) <==> c.inSize <= c.outSize && c.inSize <= c.calSize
  {
    var z := Configure(c);
    if c.inSize <= c.outSize && c.inSize <= c.calSize {
      forall ins | WellFormedRun(z, ins) && Carrying(ins)
        ensures SendsInOrder(z, ins)
      {
        forall m | 0 <= m < z.chNum
          ensures Stream(Sent(Run(z, 0, ins).1), m) <= Stream(ins, m)
        {
          RunIsFifo(z, 0, ins, m);
        }
      }
    } else if c.inSize > c.calSize {
      SmallFramesOverrun(z, SAMPLE_HEADER);
    } else {
      SmallFramesOverrun(z, SAMPLE_HEADER.(frameType := FRAME_TYPE_DATA));
    }
  }

  /** The shipped configuration has calibration frames a quarter of a block: they overrun the rings. */
  lemma ShippedConfigOverruns()
    ensures !AlwaysInOrder(Configure(Config(5, 262144, 1048576, 65536)))
  {
    InOrderIffBlocksFit(Config(5, 262144, 1048576, 65536));
  }
}
