/**
 * Safety and delivery of the handshake: every buffer has one owner at all times, frames arrive
 * unchanged and in order, none is lost but those counted as dropped, and the link behaves as a
 * bounded queue.
 */
module ShmemSafety {
  import opened Shmem

  function Count(bytes: seq<nat>, b: nat): nat {
    if bytes == [] then 0 else Count(bytes[1..], b) + (if bytes[0] == b then 1 else 0)
  }

  lemma {:induction false} CountConcat(x: seq<nat>, y: seq<nat>, b: nat)
    ensures Count(x + y, b) == Count(x, b) + Count(y, b)
  {
    if x == [] {
      assert x + y == y;
    } else {
      CountConcat(x[1..], y, b);
      assert (x + y)[1..] == x[1..] + y;
    }
  }

  /** Number of the four places at which buffer `i` is: producer-free, forward FIFO, consumer, backward FIFO. */
  function Owners<F>(l: Link<F>, i: nat): nat
    requires |l.free| == 2 && i < 2
  {
    (if l.free[i] then 1 else 0) + Count(l.fw, Signal(i))
      + (if l.consumer == Holding(i) then 1 else 0) + Count(l.bw, Signal(i))
  }

  ghost predicate IsSignal(b: nat) {
    b == A_BUFF_READY || b == B_BUFF_READY
  }

  /** The frame announced by a forward byte, if it announces one. */
  function AnnouncedBy<F>(signal: nat, buffers: seq<F>): seq<F>
    requires |buffers| == 2
  {
    if ReadyCode(signal) == 0 then [buffers[0]] else if ReadyCode(signal) == 1 then [buffers[1]] else []
  }

  /** The frames announced by forward bytes, oldest first. */
  function Announced<F>(fw: seq<nat>, buffers: seq<F>): seq<F>
    requires |buffers| == 2
  {
    if fw == [] then [] else AnnouncedBy(fw[0], buffers) + Announced(fw[1..], buffers)
  }

  /** The link as a queue: the published frames that the consumer has not taken yet. */
  function Queue<F>(l: Link<F>): seq<F>
    requires Sized(l)
  {
    Announced(l.fw, l.buffers)
  }

  ghost predicate Inv<F>(l: Link<F>) {
    && Sized(l)
    && Owners(l, 0) == 1 && Owners(l, 1) == 1
    && (l.producer.Writing? ==> l.free[l.producer.buffer])
    && (forall k | 0 <= k < |l.bw| :: IsSignal(l.bw[k]))
    && (forall k | 0 <= k < |l.fw| :: IsSignal(l.fw[k]) || (l.fw[k] == TERMINATE && k == |l.fw| - 1))
    && (l.producer.Finished? <==> l.consumer.Stopped? || (l.fw != [] && l.fw[|l.fw| - 1] == TERMINATE))
    && (l.consumer.Stopped? ==> l.fw == [])
    && l.published == l.received + Queue(l)
    && (l.consumer.Holding? ==> l.received != [] && l.buffers[l.consumer.buffer] == l.received[|l.received| - 1])
    && l.attempts == |l.published| + l.dropped + (if l.producer.Writing? then 1 else 0)
  }

  lemma InitialInv<F>(a: F, b: F)
    ensures Inv(Initial(a, b))
  {
  }

  lemma {:induction false} AnnouncedConcat<F>(x: seq<nat>, y: seq<nat>, buffers: seq<F>)
    requires |buffers| == 2
    ensures Announced(x + y, buffers) == Announced(x, buffers) + Announced(y, buffers)
  {
    hide AnnouncedBy;
    if x == [] {
      assert x + y == y;
    } else {
      AnnouncedConcat(x[1..], y, buffers);
      assert (x + y)[1..] == x[1..] + y && (x + y)[0] == x[0];
      var rest := Announced(x[1..], buffers);
      assert AnnouncedBy(x[0], buffers) + (rest + Announced(y, buffers)) ==
             (AnnouncedBy(x[0], buffers) + rest) + Announced(y, buffers);
    }
  }

  /** Writing a buffer that is not announced leaves the queue alone. */
  lemma {:induction false} WriteKeepsAnnounced<F>(fw: seq<nat>, buffers: seq<F>, i: nat, f: F)
    requires |buffers| == 2 && i < 2 && Count(fw, Signal(i)) == 0
    ensures Announced(fw, buffers[i := f]) == Announced(fw, buffers)
  {
    if fw != [] {
      WriteKeepsAnnounced(fw[1..], buffers, i, f);
    }
  }

  lemma AcquireKeeps<F>(l: Link<F>, dropMode: bool)
    requires Inv(l) && Enabled(l, dropMode, Acquire)
    ensures Inv(Apply(l, dropMode, Acquire))
    ensures Queue(Apply(l, dropMode, Acquire)) == Queue(l)
  {
    if l.bw != [] {
      assert l.bw == [l.bw[0]] + l.bw[1..];
      assert IsSignal(l.bw[0]);
    }
  }

  lemma WriteKeeps<F>(l: Link<F>, dropMode: bool, f: F)
    requires Inv(l) && Enabled(l, dropMode, Write(f))
    ensures Inv(Apply(l, dropMode, Write(f)))
    ensures Queue(Apply(l, dropMode, Write(f))) == Queue(l)
  {
    WriteKeepsAnnounced(l.fw, l.buffers, l.producer.buffer, f);
  }

  lemma PublishKeeps<F>(l: Link<F>, dropMode: bool)
    requires Inv(l) && Enabled(l, dropMode, Publish)
    ensures Inv(Apply(l, dropMode, Publish))
    ensures Queue(Apply(l, dropMode, Publish)) == Queue(l) + [l.buffers[l.producer.buffer]]
  {
    var s := [Signal(l.producer.buffer)];
    CountConcat(l.fw, s, A_BUFF_READY);
    CountConcat(l.fw, s, B_BUFF_READY);
    AnnouncedConcat(l.fw, s, l.buffers);
    assert Announced(s, l.buffers) == [l.buffers[l.producer.buffer]] + [];
    var l' := Apply(l, dropMode, Publish);
    assert l'.published == l.received + (Queue(l) + [l.buffers[l.producer.buffer]]);
  }

  lemma TerminateKeeps<F>(l: Link<F>, dropMode: bool)
    requires Inv(l) && Enabled(l, dropMode, Terminate)
    ensures Inv(Apply(l, dropMode, Terminate))
    ensures Queue(Apply(l, dropMode, Terminate)) == Queue(l)
  {
    CountConcat(l.fw, [TERMINATE], A_BUFF_READY);
    CountConcat(l.fw, [TERMINATE], B_BUFF_READY);
    AnnouncedConcat(l.fw, [TERMINATE], l.buffers);
    assert Queue(l) + [] == Queue(l);
  }

  lemma TakeKeeps<F>(l: Link<F>, dropMode: bool)
    requires Inv(l) && Enabled(l, dropMode, Take)
    ensures var l' := Apply(l, dropMode, Take);
            && Inv(l')
            && (l'.consumer.Holding? ==>
                 Queue(l) != [] && Queue(l') == Queue(l)[1..] && l'.received == l.received + [Queue(l)[0]])
            && (l'.consumer.Stopped? ==> Queue(l) == [] && l'.received == l.received == l.published)
  {
    var l' := Apply(l, dropMode, Take);
    assert l.fw == [l.fw[0]] + l.fw[1..];
    if l'.consumer.Holding? {
      assert l.published == l'.received + Queue(l');
    } else {
      assert |l.fw| == 1;
    }
  }

  lemma ReleaseKeeps<F>(l: Link<F>, dropMode: bool)
    requires Inv(l) && Enabled(l, dropMode, Release)
    ensures Inv(Apply(l, dropMode, Release))
    ensures Queue(Apply(l, dropMode, Release)) == Queue(l)
  {
    CountConcat(l.bw, [Signal(l.consumer.buffer)], A_BUFF_READY);
    CountConcat(l.bw, [Signal(l.consumer.buffer)], B_BUFF_READY);
  }

  /** Every action of either side keeps the invariant, in blocking and in drop mode. */
  lemma ActionKeeps<F>(l: Link<F>, dropMode: bool, a: Action<F>)
    requires Inv(l) && Enabled(l, dropMode, a)
    ensures Inv(Apply(l, dropMode, a))
  {
    match a {
      case Acquire => AcquireKeeps(l, dropMode);
      case Write(f) => WriteKeeps(l, dropMode, f);
      case Publish => PublishKeeps(l, dropMode);
      case Terminate => TerminateKeeps(l, dropMode);
      case Take => TakeKeeps(l, dropMode);
      case Release => ReleaseKeeps(l, dropMode);
    }
  }

  lemma {:induction false} RunKeeps<F>(a: F, b: F, dropMode: bool, actions: seq<Action<F>>)
    ensures var l := Run(Initial(a, b), dropMode, actions);
            l.Some? ==> Inv(l.value)
  {
    if actions != [] {
      var front := actions[..|actions| - 1];
      RunKeeps(a, b, dropMode, front);
      var before := Run(Initial(a, b), dropMode, front);
      if before.Some? && Enabled(before.value, dropMode, actions[|actions| - 1]) {
        ActionKeeps(before.value, dropMode, actions[|actions| - 1]);
      }
    }
  }

  lemma {:induction false} AnnouncedLength<F>(fw: seq<nat>, buffers: seq<F>)
    requires |buffers| == 2
    ensures |Announced(fw, buffers)| == Count(fw, A_BUFF_READY) + Count(fw, B_BUFF_READY)
  {
    if fw != [] {
      AnnouncedLength(fw[1..], buffers);
    }
  }

  // ---- the promises of the handshake, for every run of both sides ----

  /** The consumer side owns buffer `i`: it is announced, or held. */
  ghost predicate ConsumerOwns<F>(l: Link<F>, i: nat) {
    Count(l.fw, Signal(i)) == 1 || l.consumer == Holding(i)
  }

  /** A buffer is in exactly one place, and the consumer never holds the one being written. */
  lemma BuffersHaveOneOwner<F>(a: F, b: F, dropMode: bool, actions: seq<Action<F>>)
    ensures var run := Run(Initial(a, b), dropMode, actions);
            run.Some? ==>
              var l := run.value;
              && Owners(l, 0) == 1 && Owners(l, 1) == 1
              && (l.producer.Writing? ==> !ConsumerOwns(l, l.producer.buffer))
  {
    RunKeeps(a, b, dropMode, actions);
  }

  /**
   * Frames arrive unchanged and in order: what the consumer has received is a prefix of what was
   * published, the rest is announced, at most two frames are between both sides, and the buffer
   * the consumer holds has the contents of the frame it took for as long as it holds it.
   */
  lemma FramesArriveInOrder<F>(a: F, b: F, dropMode: bool, actions: seq<Action<F>>)
    ensures var run := Run(Initial(a, b), dropMode, actions);
            run.Some? ==>
              var l := run.value;
              && l.published == l.received + Queue(l)
              && |Queue(l)| + (if l.consumer.Holding? then 1 else 0) <= 2
              && (l.consumer.Holding? ==>
                   l.received != [] && l.buffers[l.consumer.buffer] == l.received[|l.received| - 1])
              && (l.consumer.Stopped? ==> l.producer.Finished? && l.received == l.published)
  {
    RunKeeps(a, b, dropMode, actions);
    var run := Run(Initial(a, b), dropMode, actions);
    if run.Some? {
      var l := run.value;
      AnnouncedLength(l.fw, l.buffers);
      assert Owners(l, 0) == 1 && Owners(l, 1) == 1;
      if l.consumer.Stopped? {
        assert l.received + [] == l.received;
      }
    }
  }

  /** No frame is lost unnoticed: attempts are delivered, in flight, being written or counted as dropped. */
  lemma FramesAreAccountedFor<F>(a: F, b: F, dropMode: bool, actions: seq<Action<F>>)
    ensures var run := Run(Initial(a, b), dropMode, actions);
            run.Some? ==>
              var l := run.value;
              l.attempts == |l.received| + |Queue(l)| + (if l.producer.Writing? then 1 else 0) + l.dropped
  {
    RunKeeps(a, b, dropMode, actions);
  }

  /** A frame is dropped exactly when the consumer side owns both buffers, and only in drop mode. */
  lemma DropIffConsumerOwnsBoth<F>(a: F, b: F, dropMode: bool, actions: seq<Action<F>>)
    ensures var run := Run(Initial(a, b), dropMode, actions);
            run.Some? && Enabled(run.value, dropMode, Acquire) ==>
              var l := run.value;
              var l' := Apply(l, dropMode, Acquire);
              && (l'.producer == Idle <==> ConsumerOwns(l, 0) && ConsumerOwns(l, 1))
              && (l'.dropped == l.dropped + 1 <==> ConsumerOwns(l, 0) && ConsumerOwns(l, 1))
              && (l'.dropped > l.dropped ==> dropMode)
  {
    RunKeeps(a, b, dropMode, actions);
    var run := Run(Initial(a, b), dropMode, actions);
    if run.Some? {
      var l := run.value;
      assert Owners(l, 0) == 1 && Owners(l, 1) == 1;
      if l.bw != [] {
        assert l.bw == [l.bw[0]] + l.bw[1..];
        assert IsSignal(l.bw[0]);
      }
    }
  }

  /** In blocking mode an idle producer waits exactly while the consumer side owns both buffers. */
  lemma WaitsIffConsumerOwnsBoth<F>(a: F, b: F, actions: seq<Action<F>>)
    ensures var run := Run(Initial(a, b), false, actions);
            run.Some? && run.value.producer.Idle? ==>
              (Enabled(run.value, false, Acquire) <==> !(ConsumerOwns(run.value, 0) && ConsumerOwns(run.value, 1)))
  {
    RunKeeps(a, b, false, actions);
    var run := Run(Initial(a, b), false, actions);
    if run.Some? {
      var l := run.value;
      assert Owners(l, 0) == 1 && Owners(l, 1) == 1;
      if l.bw != [] {
        assert l.bw == [l.bw[0]] + l.bw[1..];
        assert IsSignal(l.bw[0]);
      }
    }
  }

  /** A signal is decoded to the buffer that it announces, or to the end; any other byte to an error. */
  lemma SignalsAreDecoded(signal: nat, i: nat)
    ensures i < 2 ==> (ReadyCode(signal) == i <==> signal == Signal(i))
    ensures ReadyCode(signal) == TERMINATE <==> signal == TERMINATE
    ensures ReadyCode(signal) < 0 <==> signal !in {Signal(0), Signal(1), TERMINATE}
  {
  }

  /**
   * A byte on the way back that is no signal is consumed and frees no buffer: the C call fails, and the Python
   * call asks for a drop that it does not count.
   */
  lemma UnknownSignalFreesNothing(free: seq<bool>, bw: seq<nat>, dropMode: bool)
    requires |free| == 2 && !free[0] && !free[1] && bw != [] && !IsSignal(bw[0])
    ensures var c := WaitBuffFree(free, bw, dropMode);
            c.code < 0 && c.free == free && c.bw == bw[1..] && !c.dropped
    ensures var py := PyWaitBuffFree(free, bw, dropMode);
            py.code == FRAME_DROP && py.free == free && py.bw == bw[1..] && !py.dropped
  {
  }

  /** The C and the Python producer take the same buffer in every reachable state. */
  lemma BothProducersAgree<F>(a: F, b: F, dropMode: bool, actions: seq<Action<F>>)
    ensures var run := Run(Initial(a, b), dropMode, actions);
            run.Some? && Returns(run.value.free, run.value.bw, dropMode) ==>
              WaitBuffFree(run.value.free, run.value.bw, dropMode)
              == PyWaitBuffFree(run.value.free, run.value.bw, dropMode)
  {
    RunKeeps(a, b, dropMode, actions);
    var run := Run(Initial(a, b), dropMode, actions);
    if run.Some? && run.value.bw != [] {
      assert IsSignal(run.value.bw[0]);
    }
  }

  /** A queue of capacity two with its past: what a step may do to it. */
  ghost predicate QueueStep<F>(q: seq<F>, received: seq<F>, q': seq<F>, received': seq<F>) {
    || (q' == q && received' == received)
    || (|q| < 2 && |q'| == |q| + 1 && q' == q + [q'[|q|]] && received' == received)
    || (q != [] && q' == q[1..] && received' == received + [q[0]])
  }

  /** Refinement: every action of the handshake is a step of a queue of capacity two, or leaves it alone. */
  lemma HandshakeIsBoundedQueue<F>(a: F, b: F, dropMode: bool, actions: seq<Action<F>>, next: Action<F>)
    ensures var run := Run(Initial(a, b), dropMode, actions);
            run.Some? && Enabled(run.value, dropMode, next) ==>
              var l, l' := run.value, Apply(run.value, dropMode, next);
              QueueStep(Queue(l), l.received, Queue(l'), l'.received)
  {
    RunKeeps(a, b, dropMode, actions);
    var run := Run(Initial(a, b), dropMode, actions);
    if run.Some? && Enabled(run.value, dropMode, next) {
      var l := run.value;
      AnnouncedLength(l.fw, l.buffers);
      assert Owners(l, 0) == 1 && Owners(l, 1) == 1;
      match next {
        case Acquire => AcquireKeeps(l, dropMode);
        case Write(f) => WriteKeeps(l, dropMode, f);
        case Publish => PublishKeeps(l, dropMode);
        case Terminate => TerminateKeeps(l, dropMode);
        case Take =>
          TakeKeeps(l, dropMode);
          assert Apply(l, dropMode, Take).consumer.Holding? || Apply(l, dropMode, Take).consumer.Stopped?;
        case Release => ReleaseKeeps(l, dropMode);
      }
    }
  }
}
