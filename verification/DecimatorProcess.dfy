/** The decimator with its sample buffers: index loops, advancing pointers and a running frame number. */
module DecimatorProcess {
  import opened Common
  import opened IqHeaders
  import opened Decimator
  import Memory
  import Rebuffer

  class Decimation {
    const filter: Filter
    const dec: nat
    const firInputI: array<real>
    const firInputQ: array<real>
    const firOutputI: array<real>
    const firOutputQ: array<real>
    var plan: Delays
    /** Frames received so far. */
    var received: nat

    ghost predicate Valid()
      reads this
    {
      && 0 < dec && KeepsLength(filter)
      && firInputI.Length == firInputQ.Length == firOutputI.Length == firOutputQ.Length
      && firInputI != firInputQ && firInputI != firOutputI && firInputI != firOutputQ
      && firInputQ != firOutputI && firInputQ != firOutputQ && firOutputI != firOutputQ
    }

    ghost function Abs(): State
      reads this
    {
      State(plan, received)
    }

    constructor (filter: Filter, dec: nat, size: nat, plan: Delays)
      requires 0 < dec && KeepsLength(filter)
      ensures Valid() && this.filter == filter && this.dec == dec && Abs() == State(plan, 0)
      ensures firInputI.Length == size
      ensures fresh(firInputI) && fresh(firInputQ) && fresh(firOutputI) && fresh(firOutputQ)
    {
      this.filter, this.dec, this.plan, received := filter, dec, plan, 0;
      firInputI := new real[size](_ => 0.0);
      firInputQ := new real[size](_ => 0.0);
      firOutputI := new real[size](_ => 0.0);
      firOutputQ := new real[size](_ => 0.0);
    }

    /** De-interleaves and converts `n` samples of the input from `off` on. */
    method DeInterleave(input: array<uint8>, off: nat, n: nat)
      requires Valid() && n <= firInputI.Length && off + 2 * n <= input.Length
      modifies firInputI, firInputQ
      ensures firInputI[..n] == Phase(input[off..off + 2 * n], 0)
      ensures firInputQ[..n] == Phase(input[off..off + 2 * n], 1)
    {
      for k := 0 to n
        invariant forall j | 0 <= j < k :: firInputI[j] == Convert(input[off + 2 * j])
        invariant forall j | 0 <= j < k :: firInputQ[j] == Convert(input[off + 2 * j + 1])
      {
        firInputI[k] := Convert(input[off + 2 * k]);
        firInputQ[k] := Convert(input[off + 2 * k + 1]);
      }
      ghost var block := input[off..off + 2 * n];
      assert forall j | 0 <= j < n :: block[2 * j] == input[off + 2 * j] && block[2 * j + 1] == input[off + 2 * j + 1];
      assert firInputI[..n] == Phase(block, 0);
      assert firInputQ[..n] == Phase(block, 1);
    }

    /** One call of the filter library on the first `n` samples. */
    method RunFilter(dst: array<real>, src: array<real>, n: nat)
      requires Valid() && dst != src && n <= src.Length && n <= dst.Length
      modifies this`plan, dst
      ensures (plan, dst[..n]) == filter(old(plan), src[..n])
    {
      var (next, out) := filter(plan, src[..n]);
      assert |out| == n;
      plan := next;
      for k := 0 to n
        invariant dst[..k] == out[..k]
        modifies dst
      {
        dst[k] := out[k];
      }
      assert dst[..n] == out[..n] == out;
    }

    /** Stores one sample. */
    method StorePair(output: array<real>, at: nat, i: real, q: real)
      requires at + 2 <= output.Length
      modifies output
      ensures output[..] == Rebuffer.Store(old(output[..]), at, [i, q])
    {
      output[at] := i;
      output[at + 1] := q;
    }

    /** Keeps the last of every `dec` filtered samples, interleaved into the output from `off` on. */
    method Downsample(output: array<real>, off: nat, cpi: nat)
      requires Valid() && Times(cpi, dec) <= firOutputI.Length && off + 2 * cpi <= output.Length
      requires output != firOutputI && output != firOutputQ
      modifies output
      ensures output[..] == Rebuffer.Store(old(output[..]), off,
                Downsampled(firOutputI[..Times(cpi, dec)], firOutputQ[..Times(cpi, dec)], cpi, dec))
    {
      hide Times, Rebuffer.Store, Downsampled;
      TimesIsProduct(cpi, dec);
      var n := cpi * dec;
      ghost var i, q := firOutputI[..n], firOutputQ[..n];
      var outSampleIndex, decIndex := 0, 0;
      ghost var done := 0;
      DownsampledNone(output[..], off, i, q);
      for k := 0 to n
        invariant 0 <= decIndex < dec && done <= cpi && outSampleIndex == 2 * done
        invariant k == Times(done, dec) + decIndex <= n == Times(cpi, dec)
        invariant firOutputI[..n] == i && firOutputQ[..n] == q
        invariant Times(done, dec) <= n
        invariant output[..] == Rebuffer.Store(old(output[..]), off, Downsampled(i, q, done, dec))
      {
        GroupEnds(k, done, decIndex, cpi, dec);
        decIndex := (decIndex + 1) % dec;
        if decIndex == 0 {
          assert i[k] == firOutputI[k] && q[k] == firOutputQ[k];
          StorePair(output, off + outSampleIndex, firOutputI[k], firOutputQ[k]);
          DownsampledNext(i, q, done, dec);
          Memory.StoreTwice(old(output[..]), off, Downsampled(i, q, done, dec), [i[k], q[k]]);
          outSampleIndex := outSampleIndex + 2;
          done := done + 1;
        }
      }
      AllDone(done, decIndex, cpi, dec);
    }

    lemma DownsampledNone(b: seq<real>, off: nat, i: seq<real>, q: seq<real>)
      requires 0 < dec && |i| == |q| && off <= |b|
      ensures Times(0, dec) == 0 && b == Rebuffer.Store(b, off, Downsampled(i, q, 0, dec))
    {
    }

    lemma DownsampledNext(i: seq<real>, q: seq<real>, done: nat, dec: nat)
      requires 0 < dec && |i| == |q| && Times(done + 1, dec) <= |i|
      ensures 0 < Times(done, dec) + dec == Times(done + 1, dec)
      ensures Downsampled(i, q, done + 1, dec) ==
              Downsampled(i, q, done, dec) + [i[Times(done + 1, dec) - 1], q[Times(done + 1, dec) - 1]]
    {
    }

    /** Either the group goes on or the next one begins. */
    lemma GroupEnds(k: nat, done: nat, decIndex: nat, cpi: nat, dec: nat)
      requires decIndex < dec && k == Times(done, dec) + decIndex < Times(cpi, dec) && done <= cpi
      ensures done < cpi && Times(done + 1, dec) == Times(done, dec) + dec <= Times(cpi, dec)
      ensures (decIndex + 1) % dec == if decIndex + 1 == dec then 0 else decIndex + 1
    {
      if done < cpi {
        BlockFits(done, cpi, dec);
      }
      if decIndex + 1 < dec {
        ModSmall(decIndex + 1, dec);
      }
    }

    lemma AllDone(done: nat, decIndex: nat, cpi: nat, dec: nat)
      requires decIndex < dec && done <= cpi && Times(cpi, dec) == Times(done, dec) + decIndex
      ensures done == cpi
    {
      if done < cpi {
        BlockFits(done, cpi, dec);
      }
    }

    /** One channel: de-interleave, filter I and Q, downsample. */
    method ProcessChannel(input: array<uint8>, inOff: nat, output: array<real>, outOff: nat, cpi: nat)
      requires Valid() && Times(cpi, dec) <= firInputI.Length
      requires inOff + 2 * Times(cpi, dec) <= input.Length && outOff + 2 * cpi <= output.Length
      requires output !in {firInputI, firInputQ, firOutputI, firOutputQ}
      modifies this`plan, firInputI, firInputQ, firOutputI, firOutputQ, output
      ensures var block := input[inOff..inOff + 2 * Times(cpi, dec)];
              && plan == Channel(filter, old(plan), block, cpi, dec).0
              && output[..] == Rebuffer.Store(old(output[..]), outOff, Channel(filter, old(plan), block, cpi, dec).1)
    {
      hide Phase, Downsampled, Rebuffer.Store;
      TimesIsProduct(cpi, dec);
      DeInterleave(input, inOff, cpi * dec);
      RunFilter(firOutputI, firInputI, cpi * dec);
      RunFilter(firOutputQ, firInputQ, cpi * dec);
      Downsample(output, outOff, cpi);
    }

    /** All channels of a DATA frame; the pointers advance channel by channel, the input's to `inOff`. */
    method ProcessChannels(input: array<uint8>, output: array<real>, chs: nat, cpi: nat) returns (inOff: nat)
      requires Valid() && Times(cpi, dec) <= firInputI.Length
      requires Times(chs, 2 * Times(cpi, dec)) <= input.Length && Times(chs, 2 * cpi) <= output.Length
      requires output !in {firInputI, firInputQ, firOutputI, firOutputQ}
      modifies this`plan, firInputI, firInputQ, firOutputI, firOutputQ, output
      ensures inOff == ReadTo(chs, cpi, dec)
      ensures plan == Channels(filter, old(plan), input[..], chs, cpi, dec).0
      ensures output[..] == Rebuffer.Store(old(output[..]), 0, Channels(filter, old(plan), input[..], chs, cpi, dec).1)
    {
      hide Channel, Channels, Rebuffer.Store, Times;
      TimesIsProduct(cpi, dec);
      var outOff, inStep := 0, 2 * (cpi * dec);
      inOff := 0;
      ghost var payload := input[..];
      ChannelsNone(output[..], payload, cpi);
      for m := 0 to chs
        invariant inOff == Times(m, inStep) <= Times(chs, inStep)
        invariant outOff == Times(m, 2 * cpi) <= Times(chs, 2 * cpi)
        invariant input[..] == payload
        invariant plan == Channels(filter, old(plan), payload, m, cpi, dec).0
        invariant output[..] == Rebuffer.Store(old(output[..]), 0, Channels(filter, old(plan), payload, m, cpi, dec).1)
        modifies this`plan, firInputI, firInputQ, firOutputI, firOutputQ, output
      {
        BlockFits(m, chs, inStep);
        BlockFits(m, chs, 2 * cpi);
        ghost var (before, out) := Channels(filter, old(plan), payload, m, cpi, dec);
        assert input[inOff..inOff + inStep] == BlockAt(payload, m, inStep);
        ProcessChannel(input, inOff, output, outOff, cpi);
        ChannelsNext(old(plan), payload, m, cpi);
        Memory.StoreTwice(old(output[..]), 0, out, Channel(filter, before, BlockAt(payload, m, inStep), cpi, dec).1);
        inOff := inOff + inStep;
        outOff := outOff + 2 * cpi;
      }
    }

    lemma ChannelsNone(b: seq<real>, payload: seq<uint8>, cpi: nat)
      requires 0 < dec && KeepsLength(filter)
      ensures Times(0, 2 * Times(cpi, dec)) == 0 && Times(0, 2 * cpi) == 0
      ensures Channels(filter, plan, payload, 0, cpi, dec) == (plan, []) && Rebuffer.Store(b, 0, []) == b
    {
    }

    lemma ChannelsNext(s: Delays, payload: seq<uint8>, m: nat, cpi: nat)
      requires 0 < dec && KeepsLength(filter) && Times(m + 1, 2 * Times(cpi, dec)) <= |payload|
      ensures Times(m, 2 * Times(cpi, dec)) + 2 * Times(cpi, dec) == Times(m + 1, 2 * Times(cpi, dec))
      ensures var (before, out) := Channels(filter, s, payload, m, cpi, dec);
              var (after, mine) := Channel(filter, before, BlockAt(payload, m, 2 * Times(cpi, dec)), cpi, dec);
              Channels(filter, s, payload, m + 1, cpi, dec) == (after, out + mine)
    {
      hide Channel;
    }

    lemma NothingStored(b: seq<real>)
      ensures Rebuffer.Store(b, 0, []) == b
    {
    }

    /** Conversion of a frame that is not filtered. */
    method ConvertAll(input: array<uint8>, output: array<real>, samples: nat)
      requires 2 * samples <= input.Length && 2 * samples <= output.Length
      modifies output
      ensures output[..] == Rebuffer.Store(old(output[..]), 0, Converted(input[..], 2 * samples))
    {
      for k := 0 to samples
        invariant forall j | 0 <= j < output.Length ::
                    output[j] == if j < 2 * k then Convert(input[j]) else old(output[j])
      {
        output[2 * k] := Convert(input[2 * k]);
        output[2 * k + 1] := Convert(input[2 * k + 1]);
      }
    }

    /** The header fields that the decimator sets, on the frame with number `index`. */
    method UpdateHeader(h: IqHeader, index: nat) returns (sent: IqHeader)
      requires Valid()
      ensures sent == SentHeader(h, dec, index)
    {
      sent := h.(dataType := 3, sampleBitDepth := 32, cpiIndex := index % 0x1_0000_0000);
      if h.frameType == FRAME_TYPE_DATA && dec > 1 {
        sent := sent.(samplingFreq := sent.adcSamplingFreq / dec, cpiLength := sent.cpiLength / dec);
      } else if h.frameType == FRAME_TYPE_CAL || dec == 1 {
        sent := sent.(samplingFreq := sent.adcSamplingFreq);
      }
    }

    /** Filtering, conversion or nothing, by frame type and ratio. */
    method FillPayload(h: IqHeader, input: array<uint8>, output: array<real>)
      requires Valid() && PayloadNeeded(h, dec) <= input.Length
      requires IsFiltered(h, dec) ==> Times(h.cpiLength / dec, dec) <= firInputI.Length
      requires |Payload(filter, plan, h, input[..], dec).1| <= output.Length
      requires output !in {firInputI, firInputQ, firOutputI, firOutputQ}
      modifies this`plan, firInputI, firInputQ, firOutputI, firOutputQ, output
      ensures plan == Payload(filter, old(plan), h, old(input[..]), dec).0
      ensures output[..] == Rebuffer.Store(old(output[..]), 0, Payload(filter, old(plan), h, old(input[..]), dec).1)
    {
      hide Channels, Rebuffer.Store, Converted, Times, KeepsLength;
      NothingStored(output[..]);
      if h.frameType == FRAME_TYPE_DATA && dec > 1 {
        var cpi := h.cpiLength / dec;
        if cpi > 0 {
          var _ := ProcessChannels(input, output, h.activeAntChs, cpi);
        }
      } else if h.frameType == FRAME_TYPE_CAL || dec == 1 {
        TimesIsProduct(h.activeAntChs, h.cpiLength);
        ConvertAll(input, output, h.cpiLength * h.activeAntChs);
      }
    }

    /** A frame is processed into a free buffer of the sink. */
    method ProcessFrame(h: IqHeader, input: array<uint8>, output: array<real>) returns (sent: IqHeader)
      requires Valid() && PayloadNeeded(h, dec) <= input.Length
      requires IsFiltered(h, dec) ==> Times(h.cpiLength / dec, dec) <= firInputI.Length
      requires |Payload(filter, plan, h, input[..], dec).1| <= output.Length
      requires output !in {firInputI, firInputQ, firOutputI, firOutputQ}
      modifies this, firInputI, firInputQ, firOutputI, firOutputQ, output
      ensures Valid()
      ensures var (after, out) := Next(filter, dec, old(Abs()), Arrival(h, old(input[..]), true));
              && Abs() == after && out.Some? && sent == out.value.header
              && |out.value.samples| <= output.Length
              && output[..] == Rebuffer.Store(old(output[..]), 0, out.value.samples)
    {
      hide Payload, Rebuffer.Store, SentHeader, KeepsLength, PayloadNeeded, IsFiltered, Times;
      sent := UpdateHeader(h, received);
      received := received + 1;
      FillPayload(h, input, output);
    }

    /** A frame that finds no free buffer is dropped but still counted. */
    method DropFrame(h: IqHeader, input: array<uint8>)
      requires Valid() && PayloadNeeded(h, dec) <= input.Length
      modifies this`received
      ensures Valid() && (Abs(), None) == Next(filter, dec, old(Abs()), Arrival(h, input[..], false))
    {
      received := received + 1;
    }
  }
}
