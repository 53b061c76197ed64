/**
 * Progress and delivery of a blocking chain of any length under any schedule: some process can
 * always step until all are done, every schedule ends, and then the sink has received the image
 * of every frame of the source, once and in order.
 */
module ChainProgress {
  import opened Common
  import opened Shmem
  import opened ShmemSafety
  import opened Chain

  /** The state after the processes in `schedule` stepped in turn; none if one of them could not. */
  ghost function Run<F, S>(s: System<F, S>, schedule: seq<nat>): (r: Option<System<F, S>>)
    requires SystemInv(s)
    ensures r.Some? ==> SystemInv(r.value)
  {
    if schedule == [] then Some(s)
    else
      var before := Run(s, schedule[..|schedule| - 1]);
      var k := schedule[|schedule| - 1];
      if before.Some? && k < |before.value.pc| && CanStep(before.value, k) then
        StepKeeps(before.value, k);
        Some(StepOf(before.value, k))
      else None
  }

  /** A chain of `n` links before its first step. */
  ghost function Start<F, S>(n: nat, blocks: Blocks<F, S>, supply: seq<F>, empty: F): (s: System<F, S>)
    requires 0 < n
    ensures SystemInv(s) && |s.links| == n && s.supply == supply && s.blocks == blocks
  {
    InitialSystemInv(n, blocks, supply, empty);
    Chain.Initial(n, blocks, supply, empty)
  }

  lemma InitialSystemInv<F, S>(n: nat, blocks: Blocks<F, S>, supply: seq<F>, empty: F)
    requires 0 < n
    ensures SystemInv(Chain.Initial(n, blocks, supply, empty))
  {
    InitialInv(empty, empty);
    var s := Chain.Initial(n, blocks, supply, empty);
    forall k | 0 <= k < |s.pc|
      ensures ProcessInv(s, k)
    {
      if k < n {
        assert Map(blocks, k, Begun(s, k)) == [];
      }
    }
  }

  // ---- progress ----

  ghost predicate AllDone<F, S>(s: System<F, S>) {
    forall k | 0 <= k < |s.pc| :: s.pc[k] == Done
  }

  /** An empty forward FIFO and no held buffer leave the producer a buffer. */
  lemma IdleConsumerFreesBuffers<F>(l: Link<F>)
    requires Inv(l) && l.fw == [] && !l.consumer.Holding?
    ensures Returns(l.free, l.bw, false)
  {
    assert Owners(l, 0) == 1;
  }

  /** When nobody can step, from the sink back to process `k` everybody is done or waits on an empty link. */
  lemma {:induction false} StuckFromSink<F, S>(s: System<F, S>, k: nat)
    requires SystemInv(s) && k < |s.pc|
    requires forall j | 0 <= j < |s.pc| :: !CanStep(s, j)
    ensures s.pc[k] == Done || s.pc[k] == WaitIn
    ensures k > 0 ==> s.links[k - 1].fw == [] && !s.links[k - 1].consumer.Holding?
    decreases |s.pc| - k
  {
    assert ProcessInv(s, k) && !CanStep(s, k);
    if k + 1 < |s.pc| {
      StuckFromSink(s, k + 1);
      IdleConsumerFreesBuffers(s.links[k]);
    }
    if k > 0 && s.pc[k] == Done {
      assert s.links[k - 1].consumer.Stopped?;
    }
  }

  /** When nobody can step, from the source on everybody is done. */
  lemma {:induction false} StuckIsDone<F, S>(s: System<F, S>, k: nat)
    requires SystemInv(s) && k < |s.pc|
    requires forall j | 0 <= j < |s.pc| :: !CanStep(s, j)
    ensures s.pc[k] == Done
  {
    StuckFromSink(s, k);
    assert ProcessInv(s, k) && !CanStep(s, k);
    if k > 0 {
      StuckIsDone(s, k - 1);
      assert ProcessInv(s, k - 1);
      var l := s.links[k - 1];
      assert l.producer.Finished? && l.fw == [];
    }
  }

  /** No deadlock: in every reachable state some process can step, unless all are done. */
  lemma ChainNeverBlocks<F, S>(n: nat, blocks: Blocks<F, S>, supply: seq<F>, empty: F, schedule: seq<nat>)
    requires 0 < n
    ensures var r := Run(Start(n, blocks, supply, empty), schedule);
            r.Some? && !AllDone(r.value) ==>
              exists k | 0 <= k < |r.value.pc| :: CanStep(r.value, k)
  {
    var r := Run(Start(n, blocks, supply, empty), schedule);
    if r.Some? && !AllDone(r.value) {
      var k :| 0 <= k < |r.value.pc| && r.value.pc[k] != Done;
      if forall j | 0 <= j < |r.value.pc| :: !CanStep(r.value, j) {
        StuckIsDone(r.value, k);
      }
    }
  }

  // ---- every schedule ends ----

  function Rank(pc: Pc): nat {
    match pc
    case WaitOut => 6
    case Work => 5
    case Send => 4
    case ReleaseIn => 3
    case WaitIn => 2
    case Stopping => 1
    case Done => 0
  }

  /** Steps that process `k` can still take. */
  ghost function Remaining<F, S>(s: System<F, S>, k: nat): int
    requires SystemInv(s) && k < |s.pc|
  {
    5 * (|s.supply| - |Begun(s, k)|) + Rank(s.pc[k])
  }

  ghost function TotalRemaining<F, S>(s: System<F, S>, k: nat): int
    requires SystemInv(s) && k <= |s.pc|
  {
    if k == 0 then 0 else TotalRemaining(s, k - 1) + Remaining(s, k - 1)
  }

  /** No process has begun more frames than the source has. */
  lemma {:induction false} BegunBounded<F, S>(s: System<F, S>, k: nat)
    requires SystemInv(s) && k < |s.pc|
    ensures |Begun(s, k)| <= |s.supply|
  {
    if k > 0 {
      BegunBounded(s, k - 1);
      assert ProcessInv(s, k - 1);
      assert Inv(s.links[k - 1]);
    }
  }

  lemma SelfReduces<F, S>(s: System<F, S>, k: nat)
    requires SystemInv(s) && k < |s.pc| && CanStep(s, k) && SystemInv(StepOf(s, k))
    ensures |StepOf(s, k).pc| == |s.pc| && StepOf(s, k).supply == s.supply
    ensures Remaining(StepOf(s, k), k) < Remaining(s, k)
  {
    hide Inv, Map, After, Worked, Published, Sending, Receiving, Fetching, Made;
    assert ProcessInv(s, k);
  }

  lemma OthersRest<F, S>(s: System<F, S>, k: nat, j: nat)
    requires SystemInv(s) && k < |s.pc| && CanStep(s, k) && j < |s.pc| && j != k
    requires SystemInv(StepOf(s, k)) && |StepOf(s, k).pc| == |s.pc|
    ensures Remaining(StepOf(s, k), j) == Remaining(s, j)
  {
    hide Inv, Map, After, Worked, Published, Sending, Receiving, Fetching, Made;
    assert ProcessInv(s, k);
  }

  lemma StepReduces<F, S>(s: System<F, S>, k: nat, j: nat)
    requires SystemInv(s) && k < |s.pc| && CanStep(s, k) && j < |s.pc|
    requires SystemInv(StepOf(s, k))
    ensures |StepOf(s, k).pc| == |s.pc|
    ensures StepOf(s, k).supply == s.supply
    ensures if j == k then Remaining(StepOf(s, k), j) < Remaining(s, j)
            else Remaining(StepOf(s, k), j) == Remaining(s, j)
  {
    hide StepOf, CanStep, Remaining, ProcessInv, Inv;
    SelfReduces(s, k);
    if j != k {
      OthersRest(s, k, j);
    }
  }

  lemma {:induction false} StepReducesTotal<F, S>(s: System<F, S>, k: nat, j: nat)
    requires SystemInv(s) && k < |s.pc| && CanStep(s, k) && j <= |s.pc|
    requires SystemInv(StepOf(s, k))
    ensures |StepOf(s, k).pc| == |s.pc| && StepOf(s, k).supply == s.supply
    ensures TotalRemaining(StepOf(s, k), j) <= TotalRemaining(s, j) - (if k < j then 1 else 0)
  {
    hide StepOf, CanStep, Remaining, ProcessInv, Inv;
    StepReduces(s, k, k);
    if j > 0 {
      StepReducesTotal(s, k, j - 1);
      StepReduces(s, k, j - 1);
    }
  }

  lemma {:induction false} TotalNonNegative<F, S>(s: System<F, S>, k: nat)
    requires SystemInv(s) && k <= |s.pc|
    ensures 0 <= TotalRemaining(s, k)
  {
    if k > 0 {
      TotalNonNegative(s, k - 1);
      BegunBounded(s, k - 1);
    }
  }

  lemma {:induction false} RunUsesSteps<F, S>(s: System<F, S>, schedule: seq<nat>)
    requires SystemInv(s)
    ensures var r := Run(s, schedule);
            r.Some? ==>
              && |r.value.pc| == |s.pc| && r.value.supply == s.supply && r.value.blocks == s.blocks
              && TotalRemaining(r.value, |s.pc|) + |schedule| <= TotalRemaining(s, |s.pc|)
  {
    hide CanStep;
    if schedule != [] && Run(s, schedule).Some? {
      var front, k := schedule[..|schedule| - 1], schedule[|schedule| - 1];
      RunUsesSteps(s, front);
      var before := Run(s, front).value;
      StepKeeps(before, k);
      StepReducesTotal(before, k, |s.pc|);
      StepKeepsBlocks(before, k);
    }
  }

  lemma StepKeepsBlocks<F, S>(s: System<F, S>, k: nat)
    requires SystemInv(s) && k < |s.pc| && CanStep(s, k)
    ensures StepOf(s, k).blocks == s.blocks
  {
  }

  lemma {:induction false} InitialTotal<F, S>(n: nat, blocks: Blocks<F, S>, supply: seq<F>, empty: F, k: nat)
    requires 0 < n && k <= n + 1
    ensures TotalRemaining(Start(n, blocks, supply, empty), k) == Times(k, 5 * |supply| + 2)
  {
    if k > 0 {
      InitialTotal(n, blocks, supply, empty, k - 1);
      assert Remaining(Start(n, blocks, supply, empty), k - 1) == 5 * |supply| + 2;
    }
  }

  lemma ScheduleBound<F, S>(n: nat, blocks: Blocks<F, S>, supply: seq<F>, empty: F, schedule: seq<nat>)
    requires 0 < n
    ensures Run(Start(n, blocks, supply, empty), schedule).Some? ==>
              |schedule| <= Times(n + 1, 5 * |supply| + 2)
  {
    var s := Start(n, blocks, supply, empty);
    RunUsesSteps(s, schedule);
    InitialTotal(n, blocks, supply, empty, n + 1);
    if Run(s, schedule).Some? {
      TotalNonNegative(Run(s, schedule).value, n + 1);
    }
  }

  /** Every schedule of a chain is finite, and its length is bounded before it starts. */
  lemma ChainTerminates<F, S>(n: nat, blocks: Blocks<F, S>, supply: seq<F>, empty: F, schedule: seq<nat>)
    requires 0 < n
    ensures Run(Start(n, blocks, supply, empty), schedule).Some? ==>
              |schedule| <= (n + 1) * (5 * |supply| + 2)
  {
    hide *;
    ScheduleBound(n, blocks, supply, empty, schedule);
    TimesIsProduct(n + 1, 5 * |supply| + 2);
  }

  // ---- delivery ----

  /** The frames of the source as they leave block `k`. */
  function Through<F, S>(blocks: Blocks<F, S>, k: nat, frames: seq<F>): (r: seq<F>)
    ensures |r| == |frames|
  {
    if k == 0 then frames else Map(blocks, k, Through(blocks, k - 1, frames))
  }

  lemma {:induction false} MapPrefix<F, S>(blocks: Blocks<F, S>, k: nat, a: seq<F>, b: seq<F>)
    requires a <= b
    ensures Map(blocks, k, a) <= Map(blocks, k, b)
  {
    hide After;
    if k > 0 && |a| < |b| {
      MapPrefix(blocks, k, a, b[..|b| - 1]);
    } else {
      assert k > 0 ==> a == b;
    }
  }

  /** What a link promises its two processes. */
  lemma LinkDelivers<F, S>(s: System<F, S>, k: nat)
    requires SystemInv(s) && k < |s.links|
    ensures s.links[k].received <= s.links[k].published
    ensures s.pc[k + 1] == Done ==> s.links[k].received == s.links[k].published
    ensures s.links[k].published <= Map(s.blocks, k, Begun(s, k))
    ensures s.pc[k] == Done ==> s.links[k].published == Map(s.blocks, k, Begun(s, k))
    ensures k == 0 && s.pc[0] == Done ==> Begun(s, 0) == s.supply
  {
    assert ProcessInv(s, k) && ProcessInv(s, k + 1);
    var l := s.links[k];
    assert Inv(l);
    if s.pc[k + 1] == Done {
      assert Queue(l) == [];
      assert l.received + [] == l.received;
    }
  }

  lemma {:induction false} PublishedIsPrefix<F, S>(s: System<F, S>, k: nat)
    requires SystemInv(s) && k < |s.links|
    ensures s.links[k].received <= Through(s.blocks, k, s.supply)
    ensures (forall j | 0 <= j <= k + 1 :: s.pc[j] == Done) ==> s.links[k].received == Through(s.blocks, k, s.supply)
  {
    hide Inv, Map, ProcessInv;
    LinkDelivers(s, k);
    if k > 0 {
      PublishedIsPrefix(s, k - 1);
      MapPrefix(s.blocks, k, Begun(s, k), Through(s.blocks, k - 1, s.supply));
    } else {
      MapPrefix(s.blocks, 0, Begun(s, 0), s.supply);
      MapSource(s.blocks, s.supply);
    }
  }

  lemma MapSource<F, S>(blocks: Blocks<F, S>, frames: seq<F>)
    ensures Map(blocks, 0, frames) == frames
  {
  }

  /**
   * Delivery: at all times the sink has received a prefix of the images of the source's frames,
   * and when no process can step it has received all of them and every process has stopped.
   */
  lemma ChainDelivers<F, S>(n: nat, blocks: Blocks<F, S>, supply: seq<F>, empty: F, schedule: seq<nat>)
    requires 0 < n
    ensures var r := Run(Start(n, blocks, supply, empty), schedule);
            r.Some? ==>
              var s := r.value;
              && |s.links| == n
              && s.links[n - 1].received <= Through(blocks, n - 1, supply)
              && ((forall k | 0 <= k < |s.pc| :: !CanStep(s, k)) ==>
                   AllDone(s) && s.links[n - 1].received == Through(blocks, n - 1, supply))
  {
    hide TotalRemaining, ProcessInv, CanStep, Through, Inv, StepOf;
    RunUsesSteps(Start(n, blocks, supply, empty), schedule);
    var r := Run(Start(n, blocks, supply, empty), schedule);
    if r.Some? {
      var s := r.value;
      PublishedIsPrefix(s, n - 1);
      if forall k | 0 <= k < |s.pc| :: !CanStep(s, k) {
        forall k | 0 <= k < |s.pc|
          ensures s.pc[k] == Done
        {
          StuckIsDone(s, k);
        }
      }
    }
  }
}
