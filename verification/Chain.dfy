/**
 * A linear chain of processing blocks joined by blocking shared memory links: each block holds
 * its input buffer while it waits for an output buffer. Process 0 is the source, process n the
 * sink, and link k joins process k to process k + 1. A block carries a state from frame to frame.
 */
module Chain {
  import opened Common
  import opened Shmem
  import opened ShmemSafety

  datatype Pc = WaitIn | WaitOut | Work | Send | ReleaseIn | Stopping | Done

  /** The state block k starts with, and what it makes of its state and a frame. */
  datatype Blocks<!F, !S> = Blocks(start: nat -> S, work: (nat, S, F) -> (S, F))

  datatype System<!F, !S> = System(
    blocks: Blocks<F, S>,
    supply: seq<F>,
    fetched: nat,
    links: seq<Link<F>>,
    pc: seq<Pc>,
    states: seq<S>)

  function Initial<F, S>(n: nat, blocks: Blocks<F, S>, supply: seq<F>, empty: F): System<F, S> {
    System(blocks, supply, 0, Repeat(Shmem.Initial(empty, empty), n), Repeat(WaitIn, n + 1),
           seq(n + 1, k requires 0 <= k => blocks.start(k)))
  }

  // ---- one process ----

  /** The frame that process `k` works on. */
  function Input<F, S>(s: System<F, S>, k: nat): F
    requires k < |s.pc| && |s.pc| == |s.links| + 1
    requires k == 0 ==> 0 < s.fetched <= |s.supply|
    requires k > 0 ==> Sized(s.links[k - 1]) && s.links[k - 1].consumer.Holding?
  {
    if k == 0 then s.supply[s.fetched - 1] else s.links[k - 1].buffers[s.links[k - 1].consumer.buffer]
  }

  /** Frames that process `k` has begun. */
  function Begun<F, S>(s: System<F, S>, k: nat): seq<F>
    requires k < |s.pc| && |s.pc| == |s.links| + 1 && s.fetched <= |s.supply|
  {
    if k == 0 then s.supply[..s.fetched] else s.links[k - 1].received
  }

  /** The state of block `k` after a sequence of frames. */
  function After<F, S>(blocks: Blocks<F, S>, k: nat, frames: seq<F>): S {
    if frames == [] then blocks.start(k)
    else blocks.work(k, After(blocks, k, frames[..|frames| - 1]), frames[|frames| - 1]).0
  }

  /** What process `k` makes of a sequence of frames; the source passes them on. */
  function Map<F, S>(blocks: Blocks<F, S>, k: nat, frames: seq<F>): (r: seq<F>)
    ensures |r| == |frames|
  {
    if k == 0 then frames
    else if frames == [] then []
    else
      var before, last := frames[..|frames| - 1], frames[|frames| - 1];
      Map(blocks, k, before) + [blocks.work(k, After(blocks, k, before), last).1]
  }

  /** The frames that block `k` has worked on: all it has begun, but for one that it is about to work on. */
  function Worked<F>(pc: Pc, begun: seq<F>): seq<F> {
    if pc in {WaitOut, Work} && begun != [] then begun[..|begun| - 1] else begun
  }

  /** The source's counter says how far it is in its supply. */
  ghost predicate Fetching(pc: Pc, fetched: nat, total: nat) {
    && pc != ReleaseIn
    && fetched <= total
    && (pc in {WaitOut, Work, Send} ==> 0 < fetched)
    && (pc in {Stopping, Done} ==> fetched == total)
  }

  /** The input side of any other process is in the state its program counter says. */
  ghost predicate Receiving(pc: Pc, consumer: Consumer) {
    match pc
    case WaitIn => consumer.Waiting?
    case Stopping | Done => consumer.Stopped?
    case _ => consumer.Holding? && consumer.buffer < 2
  }

  /** The output side likewise. */
  ghost predicate Sending(pc: Pc, producer: Producer) {
    match pc
    case Work | Send => producer.Writing? && producer.buffer < 2
    case Done => producer.Finished?
    case _ => producer.Idle?
  }

  /** The images of the begun frames are published but for the one in work, and a written buffer holds that one. */
  ghost predicate Published<F>(pc: Pc, producer: Producer, images: seq<F>, published: seq<F>, buffers: seq<F>)
    requires |buffers| == 2 && Sending(pc, producer)
  {
    if pc in {WaitOut, Work, Send} then
      && images != [] && published == images[..|images| - 1]
      && (pc == Send ==> buffers[producer.buffer] == images[|images| - 1])
    else
      published == images
  }

  ghost predicate ProcessInv<F, S>(s: System<F, S>, k: nat)
    requires k < |s.pc| && |s.pc| == |s.links| + 1 == |s.states| && s.fetched <= |s.supply|
  {
    && (if k == 0 then Fetching(s.pc[k], s.fetched, |s.supply|) else Receiving(s.pc[k], s.links[k - 1].consumer))
    && (if k == |s.links| then
          s.pc[k] in {WaitIn, ReleaseIn, Done}
        else
          && Sending(s.pc[k], s.links[k].producer) && |s.links[k].buffers| == 2
          && Published(s.pc[k], s.links[k].producer, Map(s.blocks, k, Begun(s, k)), s.links[k].published,
                       s.links[k].buffers)
          && (k > 0 ==> s.states[k] == After(s.blocks, k, Worked(s.pc[k], Begun(s, k)))))
  }

  ghost predicate SystemInv<F, S>(s: System<F, S>) {
    && |s.pc| == |s.links| + 1 == |s.states| && 0 < |s.links| && s.fetched <= |s.supply|
    && (forall j | 0 <= j < |s.links| :: Inv(s.links[j]))
    && (forall k | 0 <= k < |s.pc| :: ProcessInv(s, k))
  }

  /** Process `k` can take a step. */
  ghost predicate CanStep<F, S>(s: System<F, S>, k: nat)
    requires SystemInv(s) && k < |s.pc|
  {
    match s.pc[k]
    case WaitIn => k > 0 ==> Enabled(s.links[k - 1], false, Take)
    case WaitOut => k < |s.links| && Enabled(s.links[k], false, Acquire)
    case Done => false
    case _ => true
  }

  function SetLink<F, S>(s: System<F, S>, j: nat, l: Link<F>, k: nat, pc: Pc, state: S): System<F, S>
    requires j < |s.links| && k < |s.pc| && |s.states| == |s.pc|
  {
    s.(links := s.links[j := l], pc := s.pc[k := pc], states := s.states[k := state])
  }

  /** The state and the frame that process `k` makes of its state and its input. */
  function Made<F, S>(s: System<F, S>, k: nat): (S, F)
    requires k < |s.pc| && |s.pc| == |s.links| + 1 == |s.states|
    requires k == 0 ==> 0 < s.fetched <= |s.supply|
    requires k > 0 ==> Sized(s.links[k - 1]) && s.links[k - 1].consumer.Holding?
  {
    if k == 0 then (s.states[0], Input(s, 0)) else s.blocks.work(k, s.states[k], Input(s, k))
  }

  /** The step of process `k`. */
  ghost function StepOf<F, S>(s: System<F, S>, k: nat): System<F, S>
    requires SystemInv(s) && k < |s.pc| && CanStep(s, k)
  {
    assert ProcessInv(s, k);
    match s.pc[k]
    case WaitIn =>
      if k == 0 then
        if s.fetched < |s.supply| then s.(fetched := s.fetched + 1, pc := s.pc[0 := WaitOut])
        else s.(pc := s.pc[0 := Stopping])
      else
        var l := Apply(s.links[k - 1], false, Take);
        SetLink(s, k - 1, l, k,
                if l.consumer.Holding? then (if k == |s.links| then ReleaseIn else WaitOut)
                else if k == |s.links| then Done else Stopping, s.states[k])
    case WaitOut => SetLink(s, k, Apply(s.links[k], false, Acquire), k, Work, s.states[k])
    case Work =>
      var (state, f) := Made(s, k);
      SetLink(s, k, Apply(s.links[k], false, Write(f)), k, Send, state)
    case Send =>
      SetLink(s, k, Apply(s.links[k], false, Publish), k, if k == 0 then WaitIn else ReleaseIn, s.states[k])
    case ReleaseIn => SetLink(s, k - 1, Apply(s.links[k - 1], false, Release), k, WaitIn, s.states[k])
    case Stopping => SetLink(s, k, Apply(s.links[k], false, Terminate), k, Done, s.states[k])
  }

  // ---- every step keeps the invariant ----

  /** The parts of a link that its producer's process sees. */
  ghost predicate SameForProducer<F>(l: Link<F>, l': Link<F>) {
    l'.producer == l.producer && l'.published == l.published && l'.buffers == l.buffers
  }

  /** The parts of a link that its consumer's process sees. */
  ghost predicate SameForConsumer<F>(l: Link<F>, l': Link<F>) {
    l'.consumer == l.consumer && l'.received == l.received
  }

  /** Replacing link `j` and counter `k` keeps every process but `k`, if the other end of the link cannot tell. */
  lemma OthersKeep<F, S>(s: System<F, S>, j: nat, l: Link<F>, k: nat, pc: Pc, state: S)
    requires SystemInv(s) && j < |s.links| && k < |s.pc| && Inv(l)
    requires (k == j && SameForConsumer(s.links[j], l)) || (k == j + 1 && SameForProducer(s.links[j], l))
    ensures var s' := SetLink(s, j, l, k, pc, state);
            && (forall i | 0 <= i < |s'.links| :: Inv(s'.links[i]))
            && forall i | 0 <= i < |s'.pc| && i != k :: ProcessInv(s', i)
  {
    hide Map, After, Inv, Published, Sending, Receiving, Fetching;
    var s' := SetLink(s, j, l, k, pc, state);
    forall i | 0 <= i < |s'.pc| && i != k
      ensures ProcessInv(s', i)
    {
      assert ProcessInv(s, i);
      assert Begun(s', i) == Begun(s, i);
    }
  }

  lemma MapGrows<F, S>(blocks: Blocks<F, S>, k: nat, frames: seq<F>, f: F)
    ensures k > 0 ==>
              Map(blocks, k, frames + [f]) == Map(blocks, k, frames) + [blocks.work(k, After(blocks, k, frames), f).1]
    ensures After(blocks, k, frames + [f]) == blocks.work(k, After(blocks, k, frames), f).0
    ensures |Map(blocks, k, frames + [f])| == |frames| + 1
    ensures Map(blocks, k, frames + [f])[..|frames|] == Map(blocks, k, frames)
  {
    assert (frames + [f])[..|frames + [f]| - 1] == frames;
  }

  lemma FetchKeeps<F, S>(s: System<F, S>)
    requires SystemInv(s) && s.pc[0] == WaitIn
    ensures SystemInv(StepOf(s, 0))
  {
    var s' := StepOf(s, 0);
    forall i | 0 <= i < |s'.pc|
      ensures ProcessInv(s', i)
    {
      assert ProcessInv(s, i);
      if i == 0 && s.fetched < |s.supply| {
        assert s.supply[..s.fetched + 1] == s.supply[..s.fetched] + [s.supply[s.fetched]];
      }
    }
  }

  lemma TakeInKeeps<F, S>(s: System<F, S>, k: nat)
    requires SystemInv(s) && 0 < k < |s.pc| && s.pc[k] == WaitIn && CanStep(s, k)
    ensures SystemInv(StepOf(s, k))
  {
    hide Owners, Count, Announced, Map, After;
    assert ProcessInv(s, k);
    var l := s.links[k - 1];
    var l' := Apply(l, false, Take);
    TakeKeeps(l, false);
    var s' := StepOf(s, k);
    OthersKeep(s, k - 1, l', k, s'.pc[k], s.states[k]);
    if k < |s.links| && l'.consumer.Holding? {
      MapGrows(s.blocks, k, l.received, Queue(l)[0]);
      assert Worked(s'.pc[k], Begun(s', k)) == Begun(s, k);
    }
    assert ProcessInv(s', k);
  }

  lemma AcquireOutKeeps<F, S>(s: System<F, S>, k: nat)
    requires SystemInv(s) && k < |s.pc| && s.pc[k] == WaitOut && CanStep(s, k)
    ensures SystemInv(StepOf(s, k))
  {
    hide Owners, Count, Announced, Map, After;
    assert ProcessInv(s, k);
    var l := s.links[k];
    AcquireKeeps(l, false);
    assert l.bw != [] ==> IsSignal(l.bw[0]);
    var s' := StepOf(s, k);
    OthersKeep(s, k, Apply(l, false, Acquire), k, Work, s.states[k]);
    assert ProcessInv(s', k);
  }

  lemma WorkKeeps<F, S>(s: System<F, S>, k: nat)
    requires SystemInv(s) && k < |s.pc| && s.pc[k] == Work
    ensures SystemInv(StepOf(s, k))
  {
    hide Owners, Count, Announced;
    assert ProcessInv(s, k);
    var l := s.links[k];
    var (state, f) := Made(s, k);
    WriteKeeps(l, false, f);
    var s' := StepOf(s, k);
    OthersKeep(s, k, Apply(l, false, Write(f)), k, Send, state);
    var begun := Begun(s, k);
    assert begun != [] && Input(s, k) == begun[|begun| - 1];
    assert ProcessInv(s', k);
  }

  lemma SendKeeps<F, S>(s: System<F, S>, k: nat)
    requires SystemInv(s) && k < |s.pc| && s.pc[k] == Send
    ensures SystemInv(StepOf(s, k))
  {
    hide Owners, Count, Announced, Map, After;
    assert ProcessInv(s, k);
    var l := s.links[k];
    PublishKeeps(l, false);
    var s' := StepOf(s, k);
    OthersKeep(s, k, Apply(l, false, Publish), k, s'.pc[k], s.states[k]);
    var images := Map(s.blocks, k, Begun(s, k));
    assert images[..|images| - 1] + [images[|images| - 1]] == images;
    assert ProcessInv(s', k);
  }

  lemma ReleaseInKeeps<F, S>(s: System<F, S>, k: nat)
    requires SystemInv(s) && k < |s.pc| && s.pc[k] == ReleaseIn
    ensures SystemInv(StepOf(s, k))
  {
    hide Owners, Count, Announced, Map, After;
    assert ProcessInv(s, k);
    ReleaseKeeps(s.links[k - 1], false);
    var s' := StepOf(s, k);
    OthersKeep(s, k - 1, Apply(s.links[k - 1], false, Release), k, WaitIn, s.states[k]);
    assert ProcessInv(s', k);
  }

  lemma StopKeeps<F, S>(s: System<F, S>, k: nat)
    requires SystemInv(s) && k < |s.pc| && s.pc[k] == Stopping
    ensures SystemInv(StepOf(s, k))
  {
    hide Owners, Count, Announced, Map, After;
    assert ProcessInv(s, k);
    TerminateKeeps(s.links[k], false);
    var s' := StepOf(s, k);
    OthersKeep(s, k, Apply(s.links[k], false, Terminate), k, Done, s.states[k]);
    assert ProcessInv(s', k);
  }

  lemma StepKeeps<F, S>(s: System<F, S>, k: nat)
    requires SystemInv(s) && k < |s.pc| && CanStep(s, k)
    ensures SystemInv(StepOf(s, k))
  {
    hide StepOf;
    match s.pc[k] {
      case WaitIn => if k == 0 { FetchKeeps(s); } else { TakeInKeeps(s, k); }
      case WaitOut => AcquireOutKeeps(s, k);
      case Work => WorkKeeps(s, k);
      case Send => SendKeeps(s, k);
      case ReleaseIn => ReleaseInKeeps(s, k);
      case Stopping => StopKeeps(s, k);
    }
  }
}
