/**
 * What the rebuffer says in the header of a frame that it sends: the length and the flags of what follows, a time
 * stamp moved back by what stays in the rings, and every other field as received; and when it sends one.
 */
module RebufferHeaders {
  import opened Common
  import opened IqHeaders
  import opened Rebuffer

  /** The fields that the rebuffer sets. */
  function Kept(h: IqHeader): IqHeader {
    h.(cpiLength := 0, adcOverdriveFlags := 0, timeStamp := 0)
  }

  /** `ms` is the time of `left` bytes, two a sample, in milliseconds, rounded to the nearest, up in the middle. */
  ghost predicate IsMilliseconds(ms: nat, left: nat, samplingFreq: nat) {
    if samplingFreq == 0 then ms == 0
    else 2 * samplingFreq * ms <= left * 1000 + samplingFreq < 2 * samplingFreq * (ms + 1)
  }

  /** The frame due on a frame of this type once `available` bytes of a channel are held, in bytes; zero if none is. */
  ghost predicate IsDue(z: Sizes, available: nat, frameType: nat, n: nat) {
    if frameType == FRAME_TYPE_CAL && z.cal <= available then n == z.cal
    else if frameType == FRAME_TYPE_DATA && z.data <= available then n == z.data
    else n == 0
  }

  /** The header of a frame of `n` bytes a channel, sent on `h`, with `left` bytes left behind. */
  ghost predicate Heads(h: IqHeader, n: nat, left: nat, flags: nat, sent: IqHeader) {
    && Kept(sent) == Kept(h) && sent.cpiLength == n / 2 && sent.adcOverdriveFlags == flags
    && exists ms | IsMilliseconds(ms, left, h.samplingFreq) ::
         sent.timeStamp == (h.timeStamp - ms) % 0x1_0000_0000_0000_0000
  }

  lemma Quotient(a: nat, d: nat)
    requires 0 < d
    ensures d * (a / d) <= a < d * (a / d + 1)
  {
    assert a == d * (a / d) + a % d;
    assert d * (a / d + 1) == d * (a / d) + d;
  }

  lemma AdjustIsMilliseconds(left: nat, samplingFreq: nat)
    ensures IsMilliseconds(TimeStampAdjust(left, samplingFreq), left, samplingFreq)
  {
    if samplingFreq != 0 {
      Quotient(left * 1000 + samplingFreq, 2 * samplingFreq);
    }
  }

  /** The rounding is unique. */
  lemma MillisecondsAreUnique(a: nat, b: nat, left: nat, samplingFreq: nat)
    requires IsMilliseconds(a, left, samplingFreq) && IsMilliseconds(b, left, samplingFreq)
    ensures a == b
  {
    if samplingFreq != 0 {
      QuotientIs(left * 1000 + samplingFreq, 2 * samplingFreq, a);
      QuotientIs(left * 1000 + samplingFreq, 2 * samplingFreq, b);
    }
  }

  lemma QuotientIs(a: nat, d: nat, q: nat)
    requires 0 < d && d * q <= a < d * (q + 1)
    ensures q == a / d
  {
    assert d * (q + 1) == d * q + d;
    assert q * d == d * q;
    DivModUnique(a, q, a - d * q, d);
  }

  /**
   * A dummy frame is passed on without samples at once; any other frame makes the rebuffer send one exactly if enough
   * bytes are held for its type, with the flags gathered and the time of the bytes left behind taken off its stamp.
   */
  lemma StepSends<T>(z: Sizes, zero: T, s: State<T>, f: Frame<T>)
    requires ValidSizes(z) && ValidState(z, s) && WellFormed(z, f)
    ensures var (s', out) := Step(z, zero, s, f);
            var held := Receive(z, zero, s, f);
            if IsDummy(f.header) then
              out == Some(Frame(f.header.(cpiLength := 0), [])) && s'.available == 0
            else if out.None? then
              IsDue(z, held.available, f.header.frameType, 0) && s' == held
            else
              exists n | 0 < n <= held.available && IsDue(z, held.available, f.header.frameType, n) ::
                && Heads(f.header, n, held.available - n, held.overdrive, out.value.header)
                && s'.available == held.available - n && s'.overdrive == 0
  {
    hide Receive, CopyOut, NextWriteOffset, SentHeader, Heads;
    if IsDummy(f.header) {
      DummyClears(z, zero, s, f);
    } else {
      var held := Receive(z, zero, s, f);
      var n := DueBytes(z, held.available, f.header);
      assert IsDue(z, held.available, f.header.frameType, n);
      if n != 0 {
        SentHeads(f.header, n, held.available - n, held.overdrive);
      }
    }
  }

  lemma DummyClears<T>(z: Sizes, zero: T, s: State<T>, f: Frame<T>)
    requires ValidSizes(z) && ValidState(z, s) && WellFormed(z, f) && IsDummy(f.header)
    ensures Receive(z, zero, s, f).available == 0
  {
    hide LoadBlocks;
  }

  lemma SentHeads(h: IqHeader, n: nat, left: nat, flags: nat)
    ensures Heads(h, n, left, flags, SentHeader(h, n, left, flags))
  {
    AdjustIsMilliseconds(left, h.samplingFreq);
    hide IsMilliseconds, TimeStampAdjust;
  }

  /**
   * What a frame books: a sampled one its block, or a single byte if it has no samples, and the next place in the ring;
   * one of another type nothing, so that the next block takes the place of its own; a dummy frame clears all.
   */
  lemma ReceiveBooks<T>(z: Sizes, zero: T, s: State<T>, f: Frame<T>)
    requires ValidSizes(z) && ValidState(z, s) && WellFormed(z, f)
    ensures var r := Receive(z, zero, s, f);
            if IsDummy(f.header) then
              && r.rd == 0 && r.wr == 0 && r.available == 0 && r.overdrive == s.overdrive
              && forall m, i | 0 <= m < z.chNum && 0 <= i < z.capacity :: r.cells[m][i] == zero
            else if IsSampled(f.header) then
              && r.rd == Wrap(s.rd + z.block, z.capacity) && r.wr == s.wr
              && r.available == s.available + if f.header.cpiLength > 0 then z.block else 1
            else
              r.rd == s.rd && r.wr == s.wr && r.available == s.available && r.overdrive == s.overdrive
    ensures !IsDummy(f.header) ==>
              forall m, i | 0 <= m < z.chNum && 0 <= i < z.capacity ::
                Receive(z, zero, s, f).cells[m][i] ==
                if f.header.cpiLength > 0 && s.rd <= i < s.rd + z.block then f.blocks[m][i - s.rd] else s.cells[m][i]
  {
    hide FlagOr;
  }

  /** The rings are as small as they can be: one block less and the larger frame and a block would not fit inside. */
  lemma RingsAreSmallest(c: Config)
    requires ValidConfig(c)
    ensures var z := Configure(c);
            z.capacity - z.block <= Max(z.data, z.cal) + z.block < z.capacity
  {
    var z := Configure(c);
    var q := BufferNum(c) - 2;
    assert z.capacity - z.block == (q + 1) * (2 * c.inSize) by {
      assert (q + 2) * (c.inSize * 2) == (q + 1) * (2 * c.inSize) + 2 * c.inSize;
    }
    Quotient(c.outSize, c.inSize);
    Quotient(c.calSize, c.inSize);
    assert (q + 1) * (2 * c.inSize) == 2 * (c.inSize * q) + 2 * c.inSize;
  }
}
