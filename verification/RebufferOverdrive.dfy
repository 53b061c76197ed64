/**
 * The overdrive flags of a sent frame: a channel is flagged exactly if it was overdriven in one of the
 * sampled frames received since the last frame with samples was sent, dummy frames or not.
 */
module RebufferOverdrive {
  import opened Common
  import opened IqHeaders
  import opened Rebuffer

  lemma {:induction false} FlagOrBit(a: nat, b: nat, k: nat)
    ensures Bit(FlagOr(a, b), k) <==> Bit(a, k) || Bit(b, k)
    decreases a
  {
    if a == 0 {
      NoBit(k);
    } else if b == 0 {
      NoBit(k);
    } else if k != 0 {
      FlagOrBit(a / 2, b / 2, k - 1);
    }
  }

  lemma {:induction false} NoBit(k: nat)
    ensures !Bit(0, k)
  {
    if k != 0 {
      NoBit(k - 1);
    }
  }

  predicate SendsSamples<T>(out: Option<Frame<T>>) {
    out.Some? && !IsDummy(out.value.header)
  }

  /** The flag words of the sampled frames received since the last frame with samples was sent. */
  function Gathered<T>(z: Sizes, zero: T, ins: seq<Frame<T>>): seq<nat>
    requires ValidSizes(z) && WellFormedRun(z, ins)
  {
    if ins == [] then []
    else
      var before, last := ins[..|ins| - 1], ins[|ins| - 1];
      if SendsSamples(Step(z, zero, Run(z, zero, before).0, last).1) then []
      else Heard(Gathered(z, zero, before), last.header)
  }

  function Heard(flags: seq<nat>, h: IqHeader): seq<nat> {
    if IsSampled(h) then flags + [h.adcOverdriveFlags] else flags
  }

  ghost predicate SomeBit(flags: seq<nat>, k: nat) {
    exists i | 0 <= i < |flags| :: Bit(flags[i], k)
  }

  lemma OneMoreBit(flags: seq<nat>, w: nat, k: nat)
    ensures SomeBit(flags + [w], k) <==> SomeBit(flags, k) || Bit(w, k)
  {
    var all := flags + [w];
    assert all[|flags|] == w;
    if SomeBit(flags, k) {
      var i :| 0 <= i < |flags| && Bit(flags[i], k);
      assert all[i] == flags[i];
    }
  }

  /** Receiving a frame merges its flags into the pending ones; dummy frames leave them alone. */
  lemma ReceiveMerges<T>(z: Sizes, zero: T, s: State<T>, f: Frame<T>, flags: seq<nat>, k: nat)
    requires ValidSizes(z) && ValidState(z, s) && WellFormed(z, f)
    requires Bit(s.overdrive, k) <==> SomeBit(flags, k)
    ensures Bit(Receive(z, zero, s, f).overdrive, k) <==> SomeBit(Heard(flags, f.header), k)
  {
    hide LoadBlocks, Reset, Bit, FlagOr;
    FlagOrBit(s.overdrive, f.header.adcOverdriveFlags, k);
    OneMoreBit(flags, f.header.adcOverdriveFlags, k);
    assert Reset(z, zero, s.overdrive).overdrive == s.overdrive by { ResetKeepsFlags(z, zero, s.overdrive); }
  }

  lemma ResetKeepsFlags<T>(z: Sizes, zero: T, overdrive: nat)
    ensures Reset(z, zero, overdrive).overdrive == overdrive
  {
  }

  lemma {:induction false} PendingFlags<T>(z: Sizes, zero: T, ins: seq<Frame<T>>, k: nat)
    requires ValidSizes(z) && WellFormedRun(z, ins)
    ensures Bit(Run(z, zero, ins).0.overdrive, k) <==> SomeBit(Gathered(z, zero, ins), k)
  {
    hide Receive, Bit, SomeBit, CopyOut;
    if ins == [] {
      NothingPending(z, zero, k);
    } else {
      var before, last := ins[..|ins| - 1], ins[|ins| - 1];
      PendingFlags(z, zero, before, k);
      ReceiveMerges(z, zero, Run(z, zero, before).0, last, Gathered(z, zero, before), k);
      NoFlags(k);
    }
  }

  lemma NothingPending<T>(z: Sizes, zero: T, k: nat)
    ensures Reset(z, zero, 0).overdrive == 0 && !Bit(0, k) && !SomeBit([], k)
  {
    NoBit(k);
  }

  lemma NoFlags(k: nat)
    ensures !Bit(0, k) && !SomeBit([], k)
  {
    NoBit(k);
  }

  /**
   * In every run, bit `k` of the flags of a sent frame is set exactly if it was set in a sampled frame
   * received since the last frame with samples was sent, this one included.
   */
  lemma SentFlags<T>(z: Sizes, zero: T, ins: seq<Frame<T>>, f: Frame<T>, k: nat)
    requires ValidSizes(z) && WellFormedRun(z, ins) && WellFormed(z, f)
    requires SendsSamples(Step(z, zero, Run(z, zero, ins).0, f).1)
    ensures Bit(Step(z, zero, Run(z, zero, ins).0, f).1.value.header.adcOverdriveFlags, k) <==>
              SomeBit(Heard(Gathered(z, zero, ins), f.header), k)
  {
    hide Receive, Bit, SomeBit, CopyOut, Run, Gathered;
    PendingFlags(z, zero, ins, k);
    ReceiveMerges(z, zero, Run(z, zero, ins).0, f, Gathered(z, zero, ins), k);
  }
}
