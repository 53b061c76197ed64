/**
 * Channel coherence of the rebuffer for any sizes, even when the rings are overrun: position p of
 * every channel of a sent payload comes from one and the same input frame and offset. The origin
 * of each position is found by running the rebuffer on origins in place of samples.
 */
module RebufferCoherence {
  import opened Common
  import opened IqHeaders
  import opened Rebuffer
  import opened RebufferFifo

  /** Where a ring cell got its value: a reset, or a position of an input frame. */
  datatype Origin = Zero | Sample(frame: nat, pos: nat)

  function OneChannel(z: Sizes): Sizes {
    z.(chNum := 1)
  }

  function OriginFrame(z: Sizes, h: IqHeader, i: nat): Frame<Origin> {
    Frame(h, if h.cpiLength > 0 then [seq(z.block, j requires 0 <= j < z.block => Sample(i, j))] else [])
  }

  /** The same headers, with a single channel that says where each value is from. */
  function Origins<T>(z: Sizes, ins: seq<Frame<T>>): (r: seq<Frame<Origin>>)
    ensures |r| == |ins|
    ensures forall i | 0 <= i < |ins| :: r[i] == OriginFrame(z, ins[i].header, i)
    ensures WellFormedRun(OneChannel(z), r)
  {
    seq(|ins|, i requires 0 <= i < |ins| => OriginFrame(z, ins[i].header, i))
  }

  /** The value that channel `m` has at an origin. */
  function Resolve<T>(zero: T, ins: seq<Frame<T>>, m: nat, o: Origin): T {
    match o
    case Zero => zero
    case Sample(i, j) =>
      if i < |ins| && m < |ins[i].blocks| && j < |ins[i].blocks[m]| then ins[i].blocks[m][j] else zero
  }

  ghost predicate Follows<T>(zero: T, ins: seq<Frame<T>>, m: nat, xs: seq<T>, os: seq<Origin>) {
    |xs| == |os| && forall p | 0 <= p < |xs| :: xs[p] == Resolve(zero, ins, m, os[p])
  }

  ghost predicate Related<T>(z: Sizes, zero: T, ins: seq<Frame<T>>, s: State<T>, t: State<Origin>)
    requires ValidSizes(z) && ValidState(z, s) && ValidState(OneChannel(z), t)
  {
    && s.rd == t.rd && s.wr == t.wr && s.available == t.available && s.overdrive == t.overdrive
    && forall m | 0 <= m < z.chNum :: Follows(zero, ins, m, s.cells[m], t.cells[0])
  }

  ghost predicate RelatedOut<T>(z: Sizes, zero: T, ins: seq<Frame<T>>, a: Option<Frame<T>>, b: Option<Frame<Origin>>) {
    && (a.Some? <==> b.Some?)
    && (a.Some? ==>
         && a.value.header == b.value.header
         && (IsDummy(a.value.header) ==> a.value.blocks == [])
         && (!IsDummy(a.value.header) ==>
              && |a.value.blocks| == z.chNum && |b.value.blocks| == 1
              && forall m | 0 <= m < z.chNum :: Follows(zero, ins, m, a.value.blocks[m], b.value.blocks[0])))
  }

  lemma StoreFollows<T>(zero: T, ins: seq<Frame<T>>, m: nat, xs: seq<T>, os: seq<Origin>,
                        off: nat, block: seq<T>, origins: seq<Origin>)
    requires Follows(zero, ins, m, xs, os) && Follows(zero, ins, m, block, origins)
    requires off + |block| <= |xs|
    ensures Follows(zero, ins, m, Store(xs, off, block), Store(os, off, origins))
  {
  }

  lemma CopyFollows<T>(zero: T, ins: seq<Frame<T>>, m: nat, xs: seq<T>, os: seq<Origin>, wr: nat, n: nat)
    requires Follows(zero, ins, m, xs, os) && wr < |xs| && n <= |xs|
    ensures Follows(zero, ins, m, CopyOut(xs, wr, n), CopyOut(os, wr, n))
  {
    CopyIsWindow(xs, wr, n);
    CopyIsWindow(os, wr, n);
  }

  lemma ReceiveRelated<T>(z: Sizes, zero: T, ins: seq<Frame<T>>, i: nat, s: State<T>, t: State<Origin>)
    requires ValidSizes(z) && ValidState(z, s) && ValidState(OneChannel(z), t)
    requires i < |ins| && WellFormed(z, ins[i]) && Related(z, zero, ins, s, t)
    ensures WellFormed(OneChannel(z), OriginFrame(z, ins[i].header, i))
    ensures Related(z, zero, ins, Receive(z, zero, s, ins[i]),
                    Receive(OneChannel(z), Zero, t, OriginFrame(z, ins[i].header, i)))
  {
    var f, g := ins[i], OriginFrame(z, ins[i].header, i);
    var cells, origins := LoadBlocks(z, s, f), LoadBlocks(OneChannel(z), t, g);
    forall m | 0 <= m < z.chNum
      ensures Follows(zero, ins, m, cells[m], origins[0])
    {
      if f.header.cpiLength > 0 {
        StoreFollows(zero, ins, m, s.cells[m], t.cells[0], s.rd, f.blocks[m], g.blocks[0]);
      }
    }
  }

  lemma EmitRelated<T>(z: Sizes, zero: T, ins: seq<Frame<T>>, h: IqHeader, s: State<T>, t: State<Origin>)
    requires ValidSizes(z) && ValidState(z, s) && ValidState(OneChannel(z), t)
    requires Related(z, zero, ins, s, t)
    ensures Related(z, zero, ins, Emit(z, s, h).0, Emit(OneChannel(z), t, h).0)
    ensures RelatedOut(z, zero, ins, Emit(z, s, h).1, Emit(OneChannel(z), t, h).1)
  {
    hide TimeStampAdjust;
    var n := DueBytes(z, s.available, h);
    if n > 0 {
      forall m | 0 <= m < z.chNum
        ensures Follows(zero, ins, m, CopyOut(s.cells[m], s.wr, n), CopyOut(t.cells[0], t.wr, n))
      {
        CopyFollows(zero, ins, m, s.cells[m], t.cells[0], s.wr, n);
      }
    }
  }

  lemma StartRelated<T>(z: Sizes, zero: T, ins: seq<Frame<T>>)
    requires ValidSizes(z)
    ensures Related(z, zero, ins, Run<T>(z, zero, []).0, Run(OneChannel(z), Zero, []).0)
  {
  }

  /** The run on samples is the run on origins, resolved in each channel. */
  lemma {:induction false} RunRelated<T>(z: Sizes, zero: T, ins: seq<Frame<T>>, k: nat)
    requires ValidSizes(z) && WellFormedRun(z, ins) && k <= |ins|
    ensures WellFormedRun(z, ins[..k]) && WellFormedRun(OneChannel(z), Origins(z, ins)[..k])
    ensures var (s, outs) := Run(z, zero, ins[..k]);
            var (t, origins) := Run(OneChannel(z), Zero, Origins(z, ins)[..k]);
            && Related(z, zero, ins, s, t)
            && forall i | 0 <= i < k :: RelatedOut(z, zero, ins, outs[i], origins[i])
  {
    hide Step, Receive, Emit, Run, Related, RelatedOut, OriginFrame;
    if k == 0 {
      StartRelated(z, zero, ins);
    } else {
      RunRelated(z, zero, ins, k - 1);
      assert ins[..k] == ins[..k - 1] + [ins[k - 1]];
      assert Origins(z, ins)[..k] == Origins(z, ins)[..k - 1] + [OriginFrame(z, ins[k - 1].header, k - 1)];
      RunAppend(z, zero, ins[..k - 1], ins[k - 1]);
      RunAppend(OneChannel(z), Zero, Origins(z, ins)[..k - 1], OriginFrame(z, ins[k - 1].header, k - 1));
      var s, t := Run(z, zero, ins[..k - 1]).0, Run(OneChannel(z), Zero, Origins(z, ins)[..k - 1]).0;
      StepRelated(z, zero, ins, k - 1, s, t);
    }
  }

  lemma StepRelated<T>(z: Sizes, zero: T, ins: seq<Frame<T>>, i: nat, s: State<T>, t: State<Origin>)
    requires ValidSizes(z) && ValidState(z, s) && ValidState(OneChannel(z), t)
    requires i < |ins| && WellFormed(z, ins[i]) && Related(z, zero, ins, s, t)
    ensures WellFormed(OneChannel(z), OriginFrame(z, ins[i].header, i))
    ensures var (s', a) := Step(z, zero, s, ins[i]);
            var (t', b) := Step(OneChannel(z), Zero, t, OriginFrame(z, ins[i].header, i));
            Related(z, zero, ins, s', t') && RelatedOut(z, zero, ins, a, b)
  {
    hide Receive, Emit;
    ReceiveRelated(z, zero, ins, i, s, t);
    EmitRelated(z, zero, ins, ins[i].header, Receive(z, zero, s, ins[i]),
                Receive(OneChannel(z), Zero, t, OriginFrame(z, ins[i].header, i)));
  }

  // ---- age of origins ----

  ghost predicate DummyFree<T>(ins: seq<Frame<T>>, from: nat, to: nat) {
    forall i | from <= i < to && i < |ins| :: !IsDummy(ins[i].header)
  }

  /** Every origin among `os` is a carried position of a frame among the first `k`, with no dummy frame since. */
  ghost predicate Recent<T>(z: Sizes, ins: seq<Frame<T>>, k: nat, os: seq<Origin>) {
    forall p | 0 <= p < |os| && os[p].Sample? ::
      && os[p].frame < k && os[p].pos < z.block
      && DummyFree(ins, os[p].frame, k)
  }

  lemma StepRecent<T>(z: Sizes, ins: seq<Frame<T>>, i: nat, t: State<Origin>)
    requires ValidSizes(z) && ValidState(OneChannel(z), t) && i < |ins|
    requires Recent(z, ins, i, t.cells[0])
    ensures WellFormed(OneChannel(z), OriginFrame(z, ins[i].header, i))
    ensures var (t', out) := Step(OneChannel(z), Zero, t, OriginFrame(z, ins[i].header, i));
            && Recent(z, ins, i + 1, t'.cells[0])
            && (out.Some? && out.value.blocks != [] ==> Recent(z, ins, i + 1, out.value.blocks[0]))
  {
    hide TimeStampAdjust;
    var g := OriginFrame(z, ins[i].header, i);
    var r := Receive(OneChannel(z), Zero, t, g);
    assert Recent(z, ins, i + 1, r.cells[0]);
    var n := DueBytes(OneChannel(z), r.available, g.header);
    if n > 0 {
      CopyIsWindow(r.cells[0], r.wr, n);
      assert Recent(z, ins, i + 1, CopyOut(r.cells[0], r.wr, n));
    }
  }

  lemma OriginsWellFormed<T>(z: Sizes, ins: seq<Frame<T>>, k: nat)
    requires ValidSizes(z) && WellFormedRun(z, ins) && k <= |ins|
    ensures WellFormedRun(OneChannel(z), Origins(z, ins)[..k])
  {
  }

  lemma NoneRecent<T>(z: Sizes, ins: seq<Frame<T>>)
    requires ValidSizes(z) && WellFormedRun(z, ins)
    ensures Recent(z, ins, 0, Run(OneChannel(z), Zero, Origins(z, ins)[..0]).0.cells[0])
  {
  }

  lemma {:induction false} RunRecent<T>(z: Sizes, ins: seq<Frame<T>>, k: nat)
    requires ValidSizes(z) && WellFormedRun(z, ins) && k <= |ins|
    ensures WellFormedRun(OneChannel(z), Origins(z, ins)[..k])
    ensures var (t, outs) := Run(OneChannel(z), Zero, Origins(z, ins)[..k]);
            && Recent(z, ins, k, t.cells[0])
            && forall i | 0 <= i < k ::
                 outs[i].Some? && outs[i].value.blocks != [] ==> Recent(z, ins, i + 1, outs[i].value.blocks[0])
  {
    if k == 0 {
      NoneRecent(z, ins);
    } else {
      hide Step, Recent, Run, WellFormedRun;
      RunRecent(z, ins, k - 1);
      OriginsWellFormed(z, ins, k);
      assert Origins(z, ins)[..k] == Origins(z, ins)[..k - 1] + [OriginFrame(z, ins[k - 1].header, k - 1)];
      RunAppend(OneChannel(z), Zero, Origins(z, ins)[..k - 1], OriginFrame(z, ins[k - 1].header, k - 1));
      StepRecent(z, ins, k - 1, Run(OneChannel(z), Zero, Origins(z, ins)[..k - 1]).0);
    }
  }

  /** The origins of the payload sent on the arrival of `ins[i]`; they do not depend on the channel. */
  function PayloadOrigins<T>(z: Sizes, ins: seq<Frame<T>>, i: nat): seq<Origin>
    requires ValidSizes(z) && WellFormedRun(z, ins) && i < |ins|
  {
    var out := Run(OneChannel(z), Zero, Origins(z, ins)).1[i];
    if out.Some? && out.value.blocks != [] then out.value.blocks[0] else []
  }

  /**
   * Coherence: in every run, for any sizes, position p of every channel of a sent payload holds that
   * channel's value at one common origin: a reset, or a position of an input frame after which no
   * dummy frame arrived.
   */
  lemma PayloadIsCoherent<T>(z: Sizes, zero: T, ins: seq<Frame<T>>, i: nat)
    requires ValidSizes(z) && WellFormedRun(z, ins) && i < |ins|
    ensures var out := Run(z, zero, ins).1[i];
            out.Some? && !IsDummy(out.value.header) ==>
              && |out.value.blocks| == z.chNum
              && (forall m | 0 <= m < z.chNum ::
                    Follows(zero, ins, m, out.value.blocks[m], PayloadOrigins(z, ins, i)))
              && Recent(z, ins, i + 1, PayloadOrigins(z, ins, i))
  {
    assert ins[..|ins|] == ins && Origins(z, ins)[..|ins|] == Origins(z, ins);
    RunRelated(z, zero, ins, |ins|);
    RunRecent(z, ins, |ins|);
    var out := Run(z, zero, ins).1[i];
    assert RelatedOut(z, zero, ins, out, Run(OneChannel(z), Zero, Origins(z, ins)).1[i]);
  }
}
