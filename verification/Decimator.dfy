/**
 * The decimator as a function on values: conversion to real samples, filtering by any filter that
 * keeps the length, and downsampling; and where the samples of each channel are read and written.
 */
module Decimator {
  import opened Common
  import opened IqHeaders
  import Rebuffer

  const DC: real := 127.5

  /** One filter for all channels: from its state and a block of samples to the new state and as many samples. */
  type Filter = (Delays, seq<real>) -> (Delays, seq<real>)

  /** The delay line of a filter. */
  type Delays = seq<real>

  ghost predicate KeepsLength(filter: Filter) {
    forall s: Delays, x: seq<real> :: |filter(s, x).1| == |x|
  }

  function Convert(b: uint8): real {
    (b as int as real - DC) / DC
  }

  /** Every second byte of a block, from byte `phase` on, converted. */
  function Phase(block: seq<uint8>, phase: nat): (r: seq<real>)
    requires |block| % 2 == 0 && phase < 2
    ensures |r| == |block| / 2
    ensures forall k | 0 <= k < |r| :: r[k] == Convert(block[2 * k + phase])
  {
    seq(|block| / 2, k requires 0 <= k < |block| / 2 => Convert(block[2 * k + phase]))
  }

  /** The last of every `dec` samples, I and Q interleaved. */
  function Downsampled(i: seq<real>, q: seq<real>, cpi: nat, dec: nat): (r: seq<real>)
    requires 0 < dec && |i| == |q| && Times(cpi, dec) <= |i|
    ensures |r| == 2 * cpi
  {
    if cpi == 0 then []
    else Downsampled(i, q, cpi - 1, dec) + [i[Times(cpi, dec) - 1], q[Times(cpi, dec) - 1]]
  }

  /** Filtering and downsampling of one channel. */
  function Channel(filter: Filter, s: Delays, block: seq<uint8>, cpi: nat, dec: nat): (r: (Delays, seq<real>))
    requires KeepsLength(filter) && 0 < dec && |block| == 2 * Times(cpi, dec)
    ensures |r.1| == 2 * cpi
  {
    var (s1, i) := filter(s, Phase(block, 0));
    var (s2, q) := filter(s1, Phase(block, 1));
    (s2, Downsampled(i, q, cpi, dec))
  }

  /** The first `chs` channels of a DATA frame, in order through the one filter. */
  function Channels(filter: Filter, s: Delays, payload: seq<uint8>, chs: nat, cpi: nat, dec: nat)
    : (r: (Delays, seq<real>))
    requires KeepsLength(filter) && 0 < dec && Times(chs, 2 * Times(cpi, dec)) <= |payload|
    ensures |r.1| == Times(chs, 2 * cpi)
  {
    if chs == 0 then (s, [])
    else
      var (s1, out) := Channels(filter, s, payload, chs - 1, cpi, dec);
      var (s2, mine) := Channel(filter, s1, BlockAt(payload, chs - 1, 2 * Times(cpi, dec)), cpi, dec);
      (s2, out + mine)
  }

  /** Conversion without filtering. */
  function Converted(payload: seq<uint8>, n: nat): (r: seq<real>)
    requires n <= |payload|
    ensures |r| == n && forall k | 0 <= k < n :: r[k] == Convert(payload[k])
  {
    seq(n, k requires 0 <= k < n => Convert(payload[k]))
  }

  // ---- frames ----

  predicate IsFiltered(h: IqHeader, dec: nat) {
    h.frameType == FRAME_TYPE_DATA && dec > 1
  }

  predicate IsConverted(h: IqHeader, dec: nat) {
    !IsFiltered(h, dec) && (h.frameType == FRAME_TYPE_CAL || dec == 1)
  }

  function SentHeader(h: IqHeader, dec: nat, cpiIndex: nat): IqHeader
    requires 0 < dec
  {
    var base := h.(dataType := 3, sampleBitDepth := 32, cpiIndex := cpiIndex % 0x1_0000_0000);
    if IsFiltered(h, dec) then base.(samplingFreq := h.adcSamplingFreq / dec, cpiLength := h.cpiLength / dec)
    else if IsConverted(h, dec) then base.(samplingFreq := h.adcSamplingFreq)
    else base
  }

  /** Values the frame with header `h` needs in its payload. */
  function PayloadNeeded(h: IqHeader, dec: nat): nat
    requires 0 < dec
  {
    if IsFiltered(h, dec) then Times(h.activeAntChs, 2 * Times(h.cpiLength / dec, dec))
    else if IsConverted(h, dec) then 2 * Times(h.activeAntChs, h.cpiLength)
    else 0
  }

  function Payload(filter: Filter, s: Delays, h: IqHeader, payload: seq<uint8>, dec: nat): (r: (Delays, seq<real>))
    requires KeepsLength(filter) && 0 < dec && PayloadNeeded(h, dec) <= |payload|
  {
    if IsFiltered(h, dec) then
      if h.cpiLength / dec == 0 then (s, []) else Channels(filter, s, payload, h.activeAntChs, h.cpiLength / dec, dec)
    else if IsConverted(h, dec) then (s, Converted(payload, PayloadNeeded(h, dec)))
    else (s, [])
  }

  // ---- runs ----

  /** The filter's delay line, and how many frames have been received. */
  datatype State = State(delays: Delays, received: nat)

  /** A frame as it is received, and whether the sink has a buffer free for it. */
  datatype Arrival = Arrival(header: IqHeader, payload: seq<uint8>, free: bool)

  datatype Sent = Sent(header: IqHeader, samples: seq<real>)

  /** One frame: processed into a free buffer, or dropped but still counted. */
  function Next(filter: Filter, dec: nat, s: State, a: Arrival): (r: (State, Option<Sent>))
    requires KeepsLength(filter) && 0 < dec && PayloadNeeded(a.header, dec) <= |a.payload|
  {
    if a.free then
      var (delays, samples) := Payload(filter, s.delays, a.header, a.payload, dec);
      (State(delays, s.received + 1), Some(Sent(SentHeader(a.header, dec, s.received), samples)))
    else
      (s.(received := s.received + 1), None)
  }

  ghost predicate ValidRun(dec: nat, arrivals: seq<Arrival>) {
    0 < dec && forall n | 0 <= n < |arrivals| :: PayloadNeeded(arrivals[n].header, dec) <= |arrivals[n].payload|
  }

  /** The state after a run and, for each frame received, what was sent. */
  function Run(filter: Filter, dec: nat, delays: Delays, arrivals: seq<Arrival>): (r: (State, seq<Option<Sent>>))
    requires KeepsLength(filter) && ValidRun(dec, arrivals)
    ensures |r.1| == |arrivals|
  {
    if arrivals == [] then (State(delays, 0), [])
    else
      var n := |arrivals| - 1;
      var (before, outs) := Run(filter, dec, delays, arrivals[..n]);
      var (after, out) := Next(filter, dec, before, arrivals[n]);
      (after, outs + [out])
  }

  // ---- laws ----

  lemma {:induction false} DownsampledAt(i: seq<real>, q: seq<real>, cpi: nat, dec: nat, k: nat)
    requires 0 < dec && |i| == |q| && Times(cpi, dec) <= |i| && k < cpi
    ensures 0 < Times(k + 1, dec) <= |i|
    ensures Downsampled(i, q, cpi, dec)[2 * k] == i[Times(k + 1, dec) - 1]
    ensures Downsampled(i, q, cpi, dec)[2 * k + 1] == q[Times(k + 1, dec) - 1]
  {
    BlockFits(k, cpi, dec);
    if k < cpi - 1 {
      DownsampledAt(i, q, cpi - 1, dec, k);
    }
  }

  /** The filter state when channel `m` is reached. */
  function StateAt(filter: Filter, s: Delays, payload: seq<uint8>, m: nat, cpi: nat, dec: nat): Delays
    requires KeepsLength(filter) && 0 < dec && Times(m, 2 * Times(cpi, dec)) <= |payload|
  {
    Channels(filter, s, payload, m, cpi, dec).0
  }

  /**
   * The output is one block of `2 * cpi` values per channel, without gap or overlap, and block `m` is
   * made of block `m` of the input alone.
   */
  lemma {:induction false} ChannelBlocks(filter: Filter, s: Delays, payload: seq<uint8>, chs: nat, cpi: nat,
                                            dec: nat, m: nat)
    requires KeepsLength(filter) && 0 < dec && Times(chs, 2 * Times(cpi, dec)) <= |payload| && m < chs
    ensures Times(m + 1, 2 * Times(cpi, dec)) <= |payload|
    ensures Times(m + 1, 2 * cpi) <= |Channels(filter, s, payload, chs, cpi, dec).1| == Times(chs, 2 * cpi)
    ensures BlockAt(Channels(filter, s, payload, chs, cpi, dec).1, m, 2 * cpi) ==
            Channel(filter, StateAt(filter, s, payload, m, cpi, dec),
                    BlockAt(payload, m, 2 * Times(cpi, dec)), cpi, dec).1
  {
    hide Channel, KeepsLength;
    BlockFits(m, chs, 2 * Times(cpi, dec));
    BlockFits(m, chs, 2 * cpi);
    var out := Channels(filter, s, payload, chs, cpi, dec).1;
    var before := Channels(filter, s, payload, chs - 1, cpi, dec).1;
    if m < chs - 1 {
      ChannelBlocks(filter, s, payload, chs - 1, cpi, dec, m);
      BlockFits(m, chs - 1, 2 * cpi);
      assert out[..|before|] == before;
      assert BlockAt(out, m, 2 * cpi) == BlockAt(before, m, 2 * cpi);
    } else {
      assert out[|before|..] == BlockAt(out, m, 2 * cpi);
    }
  }

  /** Sample `k` of channel `m` is the filtered sample at `(k + 1) * dec - 1` of that channel's own block. */
  lemma SampleIsLastOfGroup(filter: Filter, s: Delays, payload: seq<uint8>, chs: nat, cpi: nat, dec: nat,
                               m: nat, k: nat)
    requires KeepsLength(filter) && 0 < dec && Times(chs, 2 * Times(cpi, dec)) <= |payload| && m < chs && k < cpi
    ensures Times(m + 1, 2 * Times(cpi, dec)) <= |payload|
    ensures Times(m, 2 * cpi) + 2 * k + 1 < |Channels(filter, s, payload, chs, cpi, dec).1|
    ensures var out := Channels(filter, s, payload, chs, cpi, dec).1;
            var block := BlockAt(payload, m, 2 * Times(cpi, dec));
            var (s1, i) := filter(StateAt(filter, s, payload, m, cpi, dec), Phase(block, 0));
            var q := filter(s1, Phase(block, 1)).1;
            var at := Times(k + 1, dec) - 1;
            0 <= at < |i| == |q|
            && out[Times(m, 2 * cpi) + 2 * k] == i[at] && out[Times(m, 2 * cpi) + 2 * k + 1] == q[at]
  {
    hide Channels, StateAt, Phase, Downsampled;
    ChannelBlocks(filter, s, payload, chs, cpi, dec, m);
    BlockFits(m, chs, 2 * cpi);
    var out := Channels(filter, s, payload, chs, cpi, dec).1;
    var block := BlockAt(payload, m, 2 * Times(cpi, dec));
    var (s1, i) := filter(StateAt(filter, s, payload, m, cpi, dec), Phase(block, 0));
    var q := filter(s1, Phase(block, 1)).1;
    DownsampledAt(i, q, cpi, dec, k);
    assert out[Times(m, 2 * cpi) + 2 * k] == BlockAt(out, m, 2 * cpi)[2 * k];
    assert out[Times(m, 2 * cpi) + 2 * k + 1] == BlockAt(out, m, 2 * cpi)[2 * k + 1];
  }

  // ---- frames that the rebuffer sends ----

  /** The payload of a frame: its blocks one after the other. */
  function Flatten<T>(blocks: seq<seq<T>>): seq<T> {
    if blocks == [] then [] else Flatten(blocks[..|blocks| - 1]) + blocks[|blocks| - 1]
  }

  lemma {:induction false} FlattenBlocks<T>(blocks: seq<seq<T>>, size: nat, m: nat)
    requires (forall k | 0 <= k < |blocks| :: |blocks[k]| == size) && m <= |blocks|
    ensures |Flatten(blocks)| == Times(|blocks|, size)
    ensures m < |blocks| ==> Times(m + 1, size) <= |Flatten(blocks)| && BlockAt(Flatten(blocks), m, size) == blocks[m]
  {
    if blocks != [] {
      var n := |blocks| - 1;
      FlattenBlocks(blocks[..n], size, if m < n then m else n);
      if m < n {
        BlockFits(m, n, size);
        assert Flatten(blocks)[..Times(n, size)] == Flatten(blocks[..n]);
        assert BlockAt(Flatten(blocks), m, size) == BlockAt(Flatten(blocks[..n]), m, size);
      } else if m == n {
        assert BlockAt(Flatten(blocks), m, size) == blocks[m];
      }
    }
  }

  /** Where the input pointer stands after `chs` channels. */
  function ReadTo(chs: nat, cpi: nat, dec: nat): nat {
    Times(chs, 2 * Times(cpi, dec))
  }

  lemma {:induction false} TimesEqual(n: nat, x: nat, y: nat)
    requires x <= y
    ensures Times(n, x) <= Times(n, y)
    ensures Times(n, x) == Times(n, y) <==> n == 0 || x == y
  {
    if n != 0 {
      TimesEqual(n - 1, x, y);
    }
  }

  lemma WholeGroups(length: nat, dec: nat)
    requires 0 < dec
    ensures Times(length / dec, dec) + length % dec == length
  {
    var q := length / dec;
    TimesIsProduct(q, dec);
    hide Times;
    assert length == q * dec + length % dec;
  }

  /**
   * On a DATA frame of `length` samples per channel the input pointer ends behind the last sample exactly if the
   * ratio divides the length; otherwise it lags behind, and every channel but the first begins with samples of
   * an earlier one.
   */
  lemma CoveredExactlyWhenDivisible(chs: nat, length: nat, dec: nat)
    requires 0 < dec && 0 < chs
    ensures ReadTo(chs, length / dec, dec) <= Times(chs, 2 * length)
    ensures ReadTo(chs, length / dec, dec) == Times(chs, 2 * length) <==> length % dec == 0
  {
    hide Times;
    WholeGroups(length, dec);
    TimesEqual(chs, 2 * Times(length / dec, dec), 2 * length);
  }

  /** The shape of a frame that the rebuffer sends. */
  lemma EmittedFrame(c: Rebuffer.Config, r: Rebuffer.State<uint8>, h: IqHeader)
    requires Rebuffer.ValidConfig(c) && Rebuffer.ValidState(Rebuffer.Configure(c), r) && IsSampled(h)
    requires Rebuffer.Emit(Rebuffer.Configure(c), r, h).1.Some?
    ensures var f := Rebuffer.Emit(Rebuffer.Configure(c), r, h).1.value;
            && f.header.frameType == h.frameType && f.header.activeAntChs == h.activeAntChs
            && f.header.cpiLength == (if h.frameType == FRAME_TYPE_CAL then c.calSize else c.outSize)
            && |f.blocks| == c.chNum && forall m | 0 <= m < c.chNum :: |f.blocks[m]| == 2 * f.header.cpiLength
  {
    hide Rebuffer.CopyOut, Rebuffer.NextWriteOffset, Rebuffer.TimeStampAdjust;
  }

  /**
   * On a DATA frame that the rebuffer sent, every channel is made of exactly its own block: `cpi`
   * samples a channel, when the rebuffer's frame holds `cpi * dec`.
   */
  lemma RebufferedChannels(c: Rebuffer.Config, r: Rebuffer.State<uint8>, h: IqHeader, filter: Filter, s: Delays,
                              cpi: nat, dec: nat, m: nat)
    requires Rebuffer.ValidConfig(c) && Rebuffer.ValidState(Rebuffer.Configure(c), r)
    requires 1 < dec && c.outSize == Times(cpi, dec) && h.frameType == FRAME_TYPE_DATA
    requires h.activeAntChs == c.chNum && m < c.chNum && KeepsLength(filter)
    requires Rebuffer.Emit(Rebuffer.Configure(c), r, h).1.Some?
    ensures var f := Rebuffer.Emit(Rebuffer.Configure(c), r, h).1.value;
            && |f.blocks| == c.chNum && |f.blocks[m]| == 2 * Times(cpi, dec)
            && PayloadNeeded(f.header, dec) == |Flatten(f.blocks)|
            && SentHeader(f.header, dec, 0).cpiLength == cpi
            && Times(m + 1, 2 * Times(cpi, dec)) <= |Flatten(f.blocks)|
            && Times(m + 1, 2 * cpi) <= |Payload(filter, s, f.header, Flatten(f.blocks), dec).1|
                                     == Times(c.chNum, 2 * cpi)
            && BlockAt(Payload(filter, s, f.header, Flatten(f.blocks), dec).1, m, 2 * cpi) ==
               Channel(filter, StateAt(filter, s, Flatten(f.blocks), m, cpi, dec), f.blocks[m], cpi, dec).1
  {
    hide Channels, Channel, StateAt, KeepsLength, Flatten, Rebuffer.Emit, Rebuffer.Configure;
    var f := Rebuffer.Emit(Rebuffer.Configure(c), r, h).1.value;
    EmittedFrame(c, r, h);
    DividesBack(cpi, dec);
    assert cpi != 0;
    FlattenBlocks(f.blocks, 2 * Times(cpi, dec), m);
    ChannelBlocks(filter, s, Flatten(f.blocks), c.chNum, cpi, dec, m);
  }

  lemma DividesBack(cpi: nat, dec: nat)
    requires 0 < dec
    ensures Times(cpi, dec) / dec == cpi
  {
    TimesIsProduct(cpi, dec);
    DivModUnique(Times(cpi, dec), cpi, 0, dec);
  }

  /**
   * On a frame that the rebuffer sent and that is not filtered, a calibration frame or any sampled frame at
   * ratio one, block `m` of the output is block `m` of the frame, converted value by value.
   */
  lemma RebufferedConversion(c: Rebuffer.Config, r: Rebuffer.State<uint8>, h: IqHeader, filter: Filter, s: Delays,
                             dec: nat, m: nat)
    requires Rebuffer.ValidConfig(c) && Rebuffer.ValidState(Rebuffer.Configure(c), r)
    requires 0 < dec && IsSampled(h) && (h.frameType == FRAME_TYPE_CAL || dec == 1)
    requires h.activeAntChs == c.chNum && m < c.chNum && KeepsLength(filter)
    requires Rebuffer.Emit(Rebuffer.Configure(c), r, h).1.Some?
    ensures var f := Rebuffer.Emit(Rebuffer.Configure(c), r, h).1.value;
            var size := 2 * f.header.cpiLength;
            && |f.blocks| == c.chNum && |f.blocks[m]| == size
            && PayloadNeeded(f.header, dec) == |Flatten(f.blocks)|
            && Times(m + 1, size) <= |Payload(filter, s, f.header, Flatten(f.blocks), dec).1| == Times(c.chNum, size)
            && BlockAt(Payload(filter, s, f.header, Flatten(f.blocks), dec).1, m, size) == Converted(f.blocks[m], size)
            && Payload(filter, s, f.header, Flatten(f.blocks), dec).0 == s
  {
    hide Channels, KeepsLength, Flatten, Converted, BlockAt, Times, Rebuffer.Emit, Rebuffer.Configure;
    var f := Rebuffer.Emit(Rebuffer.Configure(c), r, h).1.value;
    EmittedFrame(c, r, h);
    TimesDouble(c.chNum, f.header.cpiLength);
    ConvertedBlocks(f.blocks, 2 * f.header.cpiLength, m);
  }

  lemma ConvertedBlocks(blocks: seq<seq<uint8>>, size: nat, m: nat)
    requires (forall k | 0 <= k < |blocks| :: |blocks[k]| == size) && m < |blocks|
    ensures |Flatten(blocks)| == Times(|blocks|, size) && Times(m + 1, size) <= Times(|blocks|, size)
    ensures BlockAt(Converted(Flatten(blocks), Times(|blocks|, size)), m, size) == Converted(blocks[m], size)
  {
    hide Flatten, Times;
    var payload := Flatten(blocks);
    FlattenBlocks(blocks, size, m);
    BlockFits(m, |blocks|, size);
    forall k | 0 <= k < size
      ensures BlockAt(Converted(payload, |payload|), m, size)[k] == Convert(blocks[m][k])
    {
      assert BlockAt(payload, m, size)[k] == payload[Times(m, size) + k];
    }
  }
}
