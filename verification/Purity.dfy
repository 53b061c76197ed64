/**
 * End-to-end purity of source and rebuffer: whatever commands arrive and whatever the buffer
 * sizes are, no setting is changed between the DAQ frames that one output frame is made of, and every
 * one of them was sent with the settings that the output's header reports. How sending relates to what
 * the receivers put into their rings is the matter of `Capture`.
 */
module Purity {
  import opened Common
  import opened IqHeaders
  import Daq = RtlDaq
  import opened DummyWindow
  import Rebuffer
  import opened RebufferCoherence

  /** Number of frames a log has sent. */
  function FrameCount(log: seq<Daq.Event>): nat {
    if log == [] then 0
    else FrameCount(log[..|log| - 1]) + (if log[|log| - 1].Emitted? then 1 else 0)
  }

  /** The position in the log of frame `n`. */
  function Position(log: seq<Daq.Event>, n: nat): (p: nat)
    requires n < FrameCount(log)
    ensures p < |log| && log[p].Emitted? && FrameCount(log[..p]) == n
  {
    var front := log[..|log| - 1];
    if n < FrameCount(front) then
      var p := Position(front, n);
      assert log[..p] == front[..p];
      p
    else
      |log| - 1
  }

  /** `ins` are the frames of the log: the same headers in the same order. */
  ghost predicate FramesOf(log: seq<Daq.Event>, ins: seq<Frame<uint8>>) {
    && |ins| == FrameCount(log)
    && forall n | 0 <= n < |ins| :: ins[n].header == log[Position(log, n)].header
  }

  /** Some change was applied after frame `k` was sent and before frame `i` was. */
  ghost predicate ChangedBetween(log: seq<Daq.Event>, k: nat, i: nat) {
    exists p | 0 <= p < |log| :: log[p].Applied? && k < FrameCount(log[..p]) <= i
  }

  lemma {:induction false} FrameCountMonotone(log: seq<Daq.Event>, a: nat, b: nat)
    requires a <= b <= |log|
    ensures FrameCount(log[..a]) <= FrameCount(log[..b])
    ensures a < b && log[a].Emitted? ==> FrameCount(log[..a]) < FrameCount(log[..b])
  {
    if a < b {
      assert log[..b][..b - 1] == log[..b - 1];
      FrameCountMonotone(log, a, b - 1);
    }
  }

  /** Positions are ordered like the frames they hold. */
  lemma PositionUnique(log: seq<Daq.Event>, p: nat)
    requires p < |log| && log[p].Emitted?
    ensures FrameCount(log[..p]) < FrameCount(log)
    ensures Position(log, FrameCount(log[..p])) == p
  {
    assert log[..|log|] == log;
    FrameCountMonotone(log, p, |log|);
    var q := Position(log, FrameCount(log[..p]));
    if p < q {
      FrameCountMonotone(log, p, q);
    } else if q < p {
      FrameCountMonotone(log, q, p);
    }
  }

  lemma {:induction false} NoDummyCounted(log: seq<Daq.Event>)
    requires forall p | 0 <= p < |log| :: log[p].Emitted? ==> !IsDummy(log[p].header)
    ensures DummyCount(log) == 0
  {
    if log != [] {
      NoDummyCounted(log[1..]);
    }
  }

  /** A stretch of frames without a dummy frame is a stretch of the log without one. */
  lemma StretchHasNoDummy(log: seq<Daq.Event>, ins: seq<Frame<uint8>>, k: nat, i: nat)
    requires FramesOf(log, ins) && k <= i < |ins| && DummyFree(ins, k, i + 1)
    ensures Position(log, k) <= Position(log, i)
    ensures DummyCount(log[Position(log, k)..Position(log, i)]) == 0
  {
    var a, b := Position(log, k), Position(log, i);
    if b < a {
      FrameCountMonotone(log, b, a);
    }
    forall p | a <= p < b && log[p].Emitted?
      ensures !IsDummy(log[p].header)
    {
      FrameCountMonotone(log, a, p);
      FrameCountMonotone(log, p, b);
      PositionUnique(log, p);
    }
    NoDummyCounted(log[a..b]);
  }

  lemma NoChangeWithoutDummy(log: seq<Daq.Event>, a: nat, p: nat, b: nat)
    requires Separated(log) && a <= p < b < |log| && IsSampleFrame(log[b])
    requires DummyCount(log[a..b]) == 0
    ensures !log[p].Applied?
  {
    if log[p].Applied? {
      assert log[a..b] == log[a..p] + log[p..b];
      DummyCountConcat(log[a..p], log[p..b]);
    }
  }

  /** Frames with no dummy frame among them: nothing was changed in between and the settings agree. */
  lemma StretchIsPure(log: seq<Daq.Event>, ins: seq<Frame<uint8>>, k: nat, i: nat)
    requires Separated(log) && SameSettings(log)
    requires FramesOf(log, ins) && k <= i < |ins| && DummyFree(ins, k, i + 1)
    ensures !ChangedBetween(log, k, i)
    ensures Settings(ins[k].header) == Settings(ins[i].header)
  {
    hide FrameCount, DummyCount, Separated;
    var a, b := Position(log, k), Position(log, i);
    StretchHasNoDummy(log, ins, k, i);
    assert IsSampleFrame(log[a]) && IsSampleFrame(log[b]);
    forall p | 0 <= p < |log| && k < FrameCount(log[..p]) <= i
      ensures !log[p].Applied?
    {
      if p <= a {
        FrameCountMonotone(log, p, a);
      } else if b < p {
        FrameCountMonotone(log, b, p);
      } else if p < b {
        NoChangeWithoutDummy(log, a, p, b);
      }
    }
  }

  /**
   * Purity: in every run of the source, for rebuffer sizes of any kind, take a sent frame that
   * carries samples, one of its positions and the input frame that the position is from. No change
   * was applied between that frame and the one the output was sent on, and the settings of both
   * are those in the header of the output.
   */
  lemma OutputIsPure(c: Daq.Config, gain: nat, freq: nat, header: IqHeader, steps: seq<Daq.Step>,
                     z: Rebuffer.Sizes, ins: seq<Frame<uint8>>, i: nat, p: nat)
    requires Daq.ValidConfig(c) && Daq.ValidRun(c, steps) && |header.ifGains| == 32
    requires Rebuffer.ValidSizes(z) && Rebuffer.WellFormedRun(z, ins)
    requires FramesOf(Daq.Run(c, Daq.Initial(c, gain, freq, header), steps).1, ins)
    requires i < |ins| && p < |PayloadOrigins(z, ins, i)| && PayloadOrigins(z, ins, i)[p].Sample?
    requires var out := Rebuffer.Run(z, 0, ins).1[i];
             out.Some? && !IsDummy(out.value.header)
    ensures var log := Daq.Run(c, Daq.Initial(c, gain, freq, header), steps).1;
            var out := Rebuffer.Run(z, 0, ins).1[i].value.header;
            var k := PayloadOrigins(z, ins, i)[p].frame;
            && k <= i && !IsDummy(ins[k].header)
            && !ChangedBetween(log, k, i)
            && Settings(ins[k].header) == Settings(ins[i].header)
            && out.frameType == ins[k].header.frameType
            && out.noiseSourceState == ins[k].header.noiseSourceState
            && out.ifGains == ins[k].header.ifGains
            && out.rfCenterFreq == ins[k].header.rfCenterFreq
  {
    var s := Daq.Initial(c, gain, freq, header);
    RunKeepsWindow(c, s, steps);
    RunKeepsSettings(c, s, steps);
    PayloadIsCoherent(z, 0, ins, i);
    StretchIsPure(Daq.Run(c, s, steps).1, ins, PayloadOrigins(z, ins, i)[p].frame, i);
    SentHeaderKeeps(z, ins, i);
  }

  /** The header of a sent frame is that of the frame it was sent on, but for length, flags and time. */
  lemma {:induction false} SentHeaderKeeps(z: Rebuffer.Sizes, ins: seq<Frame<uint8>>, i: nat)
    requires Rebuffer.ValidSizes(z) && Rebuffer.WellFormedRun(z, ins) && i < |ins|
    ensures var out := Rebuffer.Run(z, 0, ins).1[i];
            out.Some? ==>
              && out.value.header.frameType == ins[i].header.frameType
              && out.value.header.noiseSourceState == ins[i].header.noiseSourceState
              && out.value.header.ifGains == ins[i].header.ifGains
              && out.value.header.rfCenterFreq == ins[i].header.rfCenterFreq
  {
    if i < |ins| - 1 {
      SentHeaderKeeps(z, ins[..|ins| - 1], i);
    }
  }
}
