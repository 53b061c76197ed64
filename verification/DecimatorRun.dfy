/**
 * The decimator over runs of received frames: how sent frames are numbered, what their headers say and keep, and
 * what only filtered frames change.
 */
module DecimatorRun {
  import opened Common
  import opened IqHeaders
  import opened Decimator

  const NUMBERS: nat := 0x1_0000_0000

  lemma RunUnfold(filter: Filter, dec: nat, delays: Delays, arrivals: seq<Arrival>)
    requires KeepsLength(filter) && ValidRun(dec, arrivals) && arrivals != []
    ensures var n := |arrivals| - 1;
            var (before, outs) := Run(filter, dec, delays, arrivals[..n]);
            var (after, out) := Next(filter, dec, before, arrivals[n]);
            Run(filter, dec, delays, arrivals) == (after, outs + [out])
  {
  }

  // ---- numbers ----

  lemma FrameIsNumbered(filter: Filter, dec: nat, s: State, a: Arrival)
    requires KeepsLength(filter) && 0 < dec && PayloadNeeded(a.header, dec) <= |a.payload|
    ensures var (s', out) := Next(filter, dec, s, a);
            && s'.received == s.received + 1 && (out.Some? <==> a.free)
            && (out.Some? ==> out.value.header.cpiIndex == s.received % NUMBERS)
  {
    hide Payload, PayloadNeeded, KeepsLength;
  }

  /**
   * In any run frame `n`, if it is not dropped, is sent with number `n` modulo 2^32: dropped frames
   * are counted, and exactly those that find a free buffer are sent.
   */
  lemma {:induction false} FramesAreNumbered(filter: Filter, dec: nat, delays: Delays, arrivals: seq<Arrival>, n: nat)
    requires KeepsLength(filter) && ValidRun(dec, arrivals)
    ensures var (s, outs) := Run(filter, dec, delays, arrivals);
            && s.received == |arrivals|
            && (n < |arrivals| ==> (outs[n].Some? <==> arrivals[n].free))
            && (n < |arrivals| && outs[n].Some? ==> outs[n].value.header.cpiIndex == n % NUMBERS)
    decreases |arrivals|
  {
    hide Next, PayloadNeeded, KeepsLength;
    if arrivals != [] {
      var last := |arrivals| - 1;
      FramesAreNumbered(filter, dec, delays, arrivals[..last], n);
      FrameIsNumbered(filter, dec, Run(filter, dec, delays, arrivals[..last]).0, arrivals[last]);
    }
  }

  function Dropped(arrivals: seq<Arrival>): nat {
    if arrivals == [] then 0
    else Dropped(arrivals[..|arrivals| - 1]) + if arrivals[|arrivals| - 1].free then 0 else 1
  }

  lemma {:induction false} AllDropped(arrivals: seq<Arrival>)
    requires forall k | 0 <= k < |arrivals| :: !arrivals[k].free
    ensures Dropped(arrivals) == |arrivals|
  {
    if arrivals != [] {
      AllDropped(arrivals[..|arrivals| - 1]);
    }
  }

  /** From one sent frame to the next the number advances by one and by the frames dropped between them. */
  lemma NumbersTellDrops(filter: Filter, dec: nat, delays: Delays, arrivals: seq<Arrival>, i: nat, j: nat)
    requires KeepsLength(filter) && ValidRun(dec, arrivals) && i < j < |arrivals|
    requires var outs := Run(filter, dec, delays, arrivals).1;
             outs[i].Some? && outs[j].Some? && forall k | i < k < j :: outs[k].None?
    ensures var outs := Run(filter, dec, delays, arrivals).1;
            outs[j].value.header.cpiIndex ==
            (outs[i].value.header.cpiIndex + 1 + Dropped(arrivals[i + 1..j])) % NUMBERS
  {
    hide Run, KeepsLength, ValidRun;
    var outs := Run(filter, dec, delays, arrivals).1;
    forall k | i <= k <= j
      ensures outs[k].Some? <==> arrivals[k].free
    {
      FramesAreNumbered(filter, dec, delays, arrivals, k);
    }
    FramesAreNumbered(filter, dec, delays, arrivals, i);
    FramesAreNumbered(filter, dec, delays, arrivals, j);
    AllDropped(arrivals[i + 1..j]);
    ModAddLeft(i, j - i, NUMBERS);
  }

  // ---- headers and samples ----

  /** The fields that the decimator sets; every other field is sent as received. */
  function Kept(h: IqHeader): IqHeader {
    h.(dataType := 0, sampleBitDepth := 0, cpiIndex := 0, samplingFreq := 0, cpiLength := 0)
  }

  /** What a sent header says about the frame it was made of, and how many samples follow it. */
  ghost predicate Announces(dec: nat, h: IqHeader, sent: Sent)
    requires 0 < dec
  {
    var h' := sent.header;
    && Kept(h') == Kept(h) && h'.dataType == 3 && h'.sampleBitDepth == 32
    && (if h.frameType == FRAME_TYPE_DATA && 1 < dec then
          && h'.samplingFreq == h.adcSamplingFreq / dec && h'.cpiLength == h.cpiLength / dec
          && |sent.samples| == Times(h'.activeAntChs, 2 * h'.cpiLength)
        else if h.frameType == FRAME_TYPE_CAL || dec == 1 then
          && h'.samplingFreq == h.adcSamplingFreq && h'.cpiLength == h.cpiLength
          && |sent.samples| == Times(h'.activeAntChs, 2 * h'.cpiLength)
        else
          h'.samplingFreq == h.samplingFreq && h'.cpiLength == h.cpiLength && sent.samples == [])
  }

  lemma {:induction false} TimesZero(n: nat)
    ensures Times(n, 0) == 0
  {
    if n != 0 {
      TimesZero(n - 1);
    }
  }

  lemma FrameAnnounces(filter: Filter, dec: nat, s: State, a: Arrival)
    requires KeepsLength(filter) && 0 < dec && PayloadNeeded(a.header, dec) <= |a.payload|
    ensures var (s', out) := Next(filter, dec, s, a);
            && (out.Some? ==> Announces(dec, a.header, out.value))
            && (!(a.free && a.header.frameType == FRAME_TYPE_DATA && 1 < dec) ==> s'.delays == s.delays)
  {
    hide KeepsLength, Channels, Times;
    TimesDouble(a.header.activeAntChs, a.header.cpiLength);
    TimesZero(a.header.activeAntChs);
  }

  /**
   * Every frame sent in a run announces the rate, the length and the samples that follow, and keeps every other
   * field of the frame it was made of.
   */
  lemma {:induction false} HeadersAnnounce(filter: Filter, dec: nat, delays: Delays, arrivals: seq<Arrival>, n: nat)
    requires KeepsLength(filter) && ValidRun(dec, arrivals) && n < |arrivals|
    ensures var out := Run(filter, dec, delays, arrivals).1[n];
            out.Some? ==> Announces(dec, arrivals[n].header, out.value)
    decreases |arrivals|
  {
    hide Next, PayloadNeeded, KeepsLength, Announces;
    var last := |arrivals| - 1;
    if n < last {
      HeadersAnnounce(filter, dec, delays, arrivals[..last], n);
    } else {
      FrameAnnounces(filter, dec, Run(filter, dec, delays, arrivals[..last]).0, arrivals[last]);
    }
  }

  ghost predicate NoneFiltered(dec: nat, arrivals: seq<Arrival>) {
    forall k | 0 <= k < |arrivals| ::
      !(arrivals[k].free && arrivals[k].header.frameType == FRAME_TYPE_DATA && 1 < dec)
  }

  /** Calibration frames, dummy frames and dropped frames leave the filter as it was. */
  lemma {:induction false} OnlyDataFilters(filter: Filter, dec: nat, delays: Delays, arrivals: seq<Arrival>,
                                           rest: seq<Arrival>)
    requires KeepsLength(filter) && ValidRun(dec, arrivals + rest) && ValidRun(dec, arrivals) && NoneFiltered(dec, rest)
    ensures Run(filter, dec, delays, arrivals + rest).0.delays == Run(filter, dec, delays, arrivals).0.delays
    decreases |rest|
  {
    hide Next, PayloadNeeded, KeepsLength;
    if rest == [] {
      assert arrivals + rest == arrivals;
    } else {
      var last := |rest| - 1;
      assert (arrivals + rest)[..|arrivals + rest| - 1] == arrivals + rest[..last];
      assert (arrivals + rest)[|arrivals| + last] == rest[last];
      OnlyDataFilters(filter, dec, delays, arrivals, rest[..last]);
      FrameAnnounces(filter, dec, Run(filter, dec, delays, arrivals + rest[..last]).0, rest[last]);
    }
  }

  /** Conversion maps the bytes to equally spaced values from -1 to 1. */
  lemma ConversionIsAffine(a: uint8, b: uint8)
    ensures -1.0 <= Convert(a) <= 1.0 && Convert(0) == -1.0 && Convert(255) == 1.0
    ensures (Convert(a) - Convert(b)) * 255.0 == 2.0 * (a as real - b as real)
  {
  }
}
