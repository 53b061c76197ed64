/**
 * The rebuffer as a function on values: one ring per channel, filled by DAQ blocks and emptied
 * by CPI or calibration frames. The cell type is a parameter, so the same definitions run on
 * samples and on the origin of samples.
 */
module Rebuffer {
  import opened Common
  import opened IqHeaders

  /** Sizes in IQ samples per channel. */
  datatype Config = Config(chNum: nat, inSize: nat, outSize: nat, calSize: nat)

  /** Every size is a positive integer, as the configuration checker demands. */
  ghost predicate ValidConfig(c: Config) {
    0 < c.chNum && 0 < c.inSize && 0 < c.outSize && 0 < c.calSize
  }

  /** The sizes the processing loop works with, in bytes of one channel. */
  datatype Sizes = Sizes(chNum: nat, block: nat, capacity: nat, data: nat, cal: nat)

  ghost predicate ValidSizes(z: Sizes) {
    && 0 < z.chNum && 0 < z.block && 0 < z.data && 0 < z.cal
    && z.capacity % z.block == 0
    && z.data + z.block < z.capacity
    && z.cal + z.block < z.capacity
  }

  /** Number of DAQ blocks a ring holds. */
  function BufferNum(c: Config): nat
    requires 0 < c.inSize
  {
    var forData := c.outSize / c.inSize + 2;
    var forCal := c.calSize / c.inSize + 2;
    if forData >= forCal then forData else forCal
  }

  /** The rings are sized so that a whole output frame and one more block always fit. */
  function Configure(c: Config): (z: Sizes)
    requires ValidConfig(c)
    ensures ValidSizes(z)
    ensures z.chNum == c.chNum && z.block == 2 * c.inSize && z.data == 2 * c.outSize && z.cal == 2 * c.calSize
  {
    SizeFits(c.outSize, c.inSize, BufferNum(c));
    SizeFits(c.calSize, c.inSize, BufferNum(c));
    DivModUnique(BufferNum(c) * (c.inSize * 2), BufferNum(c), 0, c.inSize * 2);
    Sizes(c.chNum, c.inSize * 2, BufferNum(c) * (c.inSize * 2), c.outSize * 2, c.calSize * 2)
  }

  lemma SizeFits(size: nat, inSize: nat, bufferNum: nat)
    requires 0 < inSize && size / inSize + 2 <= bufferNum
    ensures size * 2 + inSize * 2 < bufferNum * (inSize * 2)
  {
    var k := size / inSize;
    assert size < (k + 1) * inSize by {
      assert size == k * inSize + size % inSize;
    }
    assert (k + 2) * (inSize * 2) == (k + 1) * inSize * 2 + inSize * 2;
    MulLe(k + 2, bufferNum, inSize * 2);
  }

  // ---- the rings ----

  datatype State<T> = State(cells: seq<seq<T>>, rd: nat, wr: nat, available: nat, overdrive: nat)

  ghost predicate ValidState<T>(z: Sizes, s: State<T>)
    requires ValidSizes(z)
  {
    && |s.cells| == z.chNum
    && (forall m | 0 <= m < z.chNum :: |s.cells[m]| == z.capacity)
    && s.rd % z.block == 0
    && s.rd + z.block <= z.capacity
    && s.wr < z.capacity
  }

  /** The shape `fread` gives a frame: a header with a nonzero length is followed by a block a channel. */
  ghost predicate WellFormed<T>(z: Sizes, f: Frame<T>) {
    if f.header.cpiLength > 0 then
      |f.blocks| == z.chNum && forall m | 0 <= m < z.chNum :: |f.blocks[m]| == z.block
    else
      f.blocks == []
  }

  function Reset<T>(z: Sizes, zero: T, overdrive: nat): State<T> {
    State(Repeat(Repeat(zero, z.capacity), z.chNum), 0, 0, 0, overdrive)
  }

  /** `block` copied over `cells` from position `off` on. */
  function Store<T>(cells: seq<T>, off: nat, block: seq<T>): (r: seq<T>)
    requires off + |block| <= |cells|
    ensures |r| == |cells|
    ensures forall i | 0 <= i < |cells| ::
              r[i] == if off <= i < off + |block| then block[i - off] else cells[i]
  {
    cells[..off] + block + cells[off + |block|..]
  }

  function LoadBlocks<T>(z: Sizes, s: State<T>, f: Frame<T>): (r: seq<seq<T>>)
    requires ValidSizes(z) && ValidState(z, s) && WellFormed(z, f)
    ensures |r| == z.chNum
    ensures forall m | 0 <= m < z.chNum :: |r[m]| == z.capacity
    ensures f.header.cpiLength > 0 ==>
              forall m | 0 <= m < z.chNum :: r[m] == Store(s.cells[m], s.rd, f.blocks[m])
  {
    if f.header.cpiLength > 0 then
      seq(z.chNum, m requires 0 <= m < z.chNum => Store(s.cells[m], s.rd, f.blocks[m]))
    else
      s.cells
  }

  /** The read offset stays on a block boundary and leaves room for a whole block. */
  function NextReadOffset(z: Sizes, rd: nat): (r: nat)
    requires ValidSizes(z)
    requires rd % z.block == 0 && rd + z.block <= z.capacity
    ensures r % z.block == 0 && r + z.block <= z.capacity
    ensures r == Wrap(rd + z.block, z.capacity)
  {
    NextBlock(rd, z.block, z.capacity);
    (rd + z.block) % z.capacity
  }

  lemma NextBlock(rd: nat, b: nat, cap: nat)
    requires 0 < b < cap
    requires rd % b == 0 && cap % b == 0 && rd + b <= cap
    ensures (rd + b) % cap == Wrap(rd + b, cap)
    ensures Wrap(rd + b, cap) % b == 0 && Wrap(rd + b, cap) + b <= cap
  {
    ModOnce(rd, b, cap);
    if rd + b < cap {
      ModShift(rd, 1, b);
      MultipleGap(rd + b, cap, b);
    }
  }

  /** Two multiples of `b` that differ are at least `b` apart. */
  lemma MultipleGap(x: nat, y: nat, b: nat)
    requires 0 < b && x % b == 0 && y % b == 0 && x < y
    ensures x + b <= y
  {
    var k, n := x / b, y / b;
    if n <= k {
      MulLe(n, k, b);
    }
    MulLe(k + 1, n, b);
  }

  /** Bitwise or of two flag words. */
  function FlagOr(a: nat, b: nat): nat {
    if a == 0 then b
    else if b == 0 then a
    else 2 * FlagOr(a / 2, b / 2) + (if a % 2 == 1 || b % 2 == 1 then 1 else 0)
  }

  /** Reading a frame into the rings and the bookkeeping that depends on its type. */
  function Receive<T>(z: Sizes, zero: T, s: State<T>, f: Frame<T>): (r: State<T>)
    requires ValidSizes(z) && ValidState(z, s) && WellFormed(z, f)
    ensures ValidState(z, r)
  {
    var cells := LoadBlocks(z, s, f);
    var readSize := if f.header.cpiLength > 0 then z.block else 1;
    if IsDummy(f.header) then
      Reset(z, zero, s.overdrive)
    else if IsSampled(f.header) then
      State(cells, NextReadOffset(z, s.rd), s.wr, s.available + readSize,
            FlagOr(s.overdrive, f.header.adcOverdriveFlags))
    else
      s.(cells := cells)
  }

  /** Bytes per channel of the frame that is due on a header `h`, zero when none is. */
  function DueBytes(z: Sizes, available: nat, h: IqHeader): (n: nat)
    ensures n <= available
  {
    if h.frameType == FRAME_TYPE_CAL && available >= z.cal then z.cal
    else if h.frameType == FRAME_TYPE_DATA && available >= z.data then z.data
    else 0
  }

  /** The two-chunk copy out of a ring: straight when it fits before the end, wrapped otherwise. */
  function CopyOut<T>(cells: seq<T>, wr: nat, n: nat): (r: seq<T>)
    requires wr < |cells| && n <= |cells|
    ensures |r| == n
  {
    var chunk := |cells| - wr;
    if chunk >= n then cells[wr..wr + n] else cells[wr..] + cells[..n - chunk]
  }

  function NextWriteOffset(cap: nat, wr: nat, n: nat): (r: nat)
    requires wr < cap && n < cap
    ensures r == Wrap(wr + n, cap)
  {
    var chunk := cap - wr;
    if chunk >= n then
      ModOnce(wr, n, cap);
      (wr + n) % cap
    else
      n - chunk
  }

  /** Milliseconds covered by the samples left in the ring, rounded half up; exact arithmetic. */
  function TimeStampAdjust(left: nat, samplingFreq: nat): nat {
    if samplingFreq == 0 then 0 else (left * 1000 + samplingFreq) / (2 * samplingFreq)
  }

  /** The header of a sent CPI or calibration frame. */
  function SentHeader(h: IqHeader, n: nat, left: nat, overdrive: nat): IqHeader {
    h.(cpiLength := n / 2, adcOverdriveFlags := overdrive,
       timeStamp := (h.timeStamp - TimeStampAdjust(left, h.samplingFreq)) % 0x1_0000_0000_0000_0000)
  }

  /** The frame written to the sink after `h` was received into `s`, and the state it leaves. */
  function Emit<T>(z: Sizes, s: State<T>, h: IqHeader): (r: (State<T>, Option<Frame<T>>))
    requires ValidSizes(z) && ValidState(z, s)
    ensures ValidState(z, r.0)
  {
    var n := DueBytes(z, s.available, h);
    if IsDummy(h) then
      (s, Some(Frame(h.(cpiLength := 0), [])))
    else if n == 0 then
      (s, None)
    else
      var blocks := seq(z.chNum, m requires 0 <= m < z.chNum => CopyOut(s.cells[m], s.wr, n));
      (State(s.cells, s.rd, NextWriteOffset(z.capacity, s.wr, n), s.available - n, 0),
       Some(Frame(SentHeader(h, n, s.available - n, s.overdrive), blocks)))
  }

  /** One turn of the processing loop in blocking mode. */
  function Step<T>(z: Sizes, zero: T, s: State<T>, f: Frame<T>): (r: (State<T>, Option<Frame<T>>))
    requires ValidSizes(z) && ValidState(z, s) && WellFormed(z, f)
    ensures ValidState(z, r.0)
  {
    Emit(z, Receive(z, zero, s, f), f.header)
  }

  ghost predicate WellFormedRun<T>(z: Sizes, ins: seq<Frame<T>>) {
    forall i | 0 <= i < |ins| :: WellFormed(z, ins[i])
  }

  /** The state after a run and, for each input frame, what was emitted on its arrival. */
  function Run<T>(z: Sizes, zero: T, ins: seq<Frame<T>>): (r: (State<T>, seq<Option<Frame<T>>>))
    requires ValidSizes(z) && WellFormedRun(z, ins)
    ensures ValidState(z, r.0)
    ensures |r.1| == |ins|
  {
    if ins == [] then
      (Reset(z, zero, 0), [])
    else
      var (s, outs) := Run(z, zero, ins[..|ins| - 1]);
      var (s', out) := Step(z, zero, s, ins[|ins| - 1]);
      (s', outs + [out])
  }
}
