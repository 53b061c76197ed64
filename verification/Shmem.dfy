/**
 * The two-buffer shared memory handshake between a producer and a consumer: the producer's free
 * flags, a forward and a backward control FIFO, and the two buffers. Every action of either side
 * is one atomic step; a frame is written by any number of steps between acquiring a buffer and
 * publishing it.
 */
module Shmem {
  import opened Common

  const A_BUFF_READY: nat := 1
  const B_BUFF_READY: nat := 2
  const TERMINATE: nat := 255

  /** The value of `wait_buff_free` that tells the caller to drop its frame. */
  const FRAME_DROP: int := 3

  datatype Producer = Idle | Writing(buffer: nat) | Finished
  datatype Consumer = Waiting | Holding(buffer: nat) | Stopped

  /**
   * The shared state, with the history of the frames published, received and attempted.
   * FIFO bytes are listed oldest first.
   */
  datatype Link<F> = Link(
    free: seq<bool>,
    fw: seq<nat>,
    bw: seq<nat>,
    buffers: seq<F>,
    dropped: nat,
    producer: Producer,
    consumer: Consumer,
    attempts: nat,
    published: seq<F>,
    received: seq<F>)

  function Initial<F>(a: F, b: F): Link<F> {
    Link([true, true], [], [], [a, b], 0, Idle, Waiting, 0, [], [])
  }

  function Signal(buffer: nat): nat {
    if buffer == 0 then A_BUFF_READY else B_BUFF_READY
  }

  /** Outcome of a call that looks for a free buffer, on the flags and the backward FIFO. */
  datatype Acquired = Acquired(code: int, free: seq<bool>, bw: seq<nat>, dropped: bool)

  /** True when the call returns without waiting for the consumer. */
  predicate Returns(free: seq<bool>, bw: seq<nat>, dropMode: bool)
    requires |free| == 2
  {
    free[0] || free[1] || bw != [] || dropMode
  }

  /** `wait_buff_free` of the C library. */
  function WaitBuffFree(free: seq<bool>, bw: seq<nat>, dropMode: bool): Acquired
    requires |free| == 2 && Returns(free, bw, dropMode)
  {
    if free[0] then Acquired(0, free, bw, false)
    else if free[1] then Acquired(1, free, bw, false)
    else if bw == [] then Acquired(FRAME_DROP, free, bw, true)
    else if bw[0] == A_BUFF_READY then Acquired(0, free[0 := true], bw[1..], false)
    else if bw[0] == B_BUFF_READY then Acquired(1, free[1 := true], bw[1..], false)
    else Acquired(-1, free, bw[1..], false)
  }

  /** `wait_buff_free` of the Python interface: an unknown signal asks for a drop that is not counted. */
  function PyWaitBuffFree(free: seq<bool>, bw: seq<nat>, dropMode: bool): Acquired
    requires |free| == 2 && Returns(free, bw, dropMode)
  {
    if free[0] then Acquired(0, free, bw, false)
    else if free[1] then Acquired(1, free, bw, false)
    else if bw == [] then Acquired(FRAME_DROP, free, bw, true)
    else if bw[0] == A_BUFF_READY then Acquired(0, free[0 := true], bw[1..], false)
    else if bw[0] == B_BUFF_READY then Acquired(1, free[1 := true], bw[1..], false)
    else Acquired(FRAME_DROP, free, bw[1..], false)
  }

  /** `wait_buff_ready` on the oldest forward byte. */
  function ReadyCode(signal: nat): int {
    if signal == A_BUFF_READY then 0
    else if signal == B_BUFF_READY then 1
    else if signal == TERMINATE then TERMINATE
    else -2
  }

  // ---- the steps of both sides ----

  datatype Action<F> = Acquire | Write(frame: F) | Publish | Terminate | Take | Release

  ghost predicate Sized<F>(l: Link<F>) {
    && |l.free| == 2 && |l.buffers| == 2
    && (l.producer.Writing? ==> l.producer.buffer < 2)
    && (l.consumer.Holding? ==> l.consumer.buffer < 2)
  }

  ghost predicate Enabled<F>(l: Link<F>, dropMode: bool, a: Action<F>)
    requires Sized(l)
  {
    match a
    case Acquire => l.producer.Idle? && Returns(l.free, l.bw, dropMode)
    case Write(_) => l.producer.Writing?
    case Publish => l.producer.Writing?
    case Terminate => l.producer.Idle?
    case Take => l.consumer.Waiting? && l.fw != []
    case Release => l.consumer.Holding?
  }

  function Apply<F>(l: Link<F>, dropMode: bool, a: Action<F>): (r: Link<F>)
    requires Sized(l) && Enabled(l, dropMode, a)
    ensures Sized(r)
  {
    match a
    case Acquire =>
      var w := WaitBuffFree(l.free, l.bw, dropMode);
      l.(free := w.free, bw := w.bw, dropped := l.dropped + (if w.dropped then 1 else 0),
         producer := if w.code == 0 || w.code == 1 then Writing(w.code) else Idle,
         attempts := l.attempts + 1)
    case Write(frame) =>
      l.(buffers := l.buffers[l.producer.buffer := frame])
    case Publish =>
      var i := l.producer.buffer;
      l.(free := l.free[i := false], fw := l.fw + [Signal(i)], producer := Idle,
         published := l.published + [l.buffers[i]])
    case Terminate =>
      l.(fw := l.fw + [TERMINATE], producer := Finished)
    case Take =>
      var code := ReadyCode(l.fw[0]);
      var rest := l.(fw := l.fw[1..]);
      if code == 0 || code == 1 then
        rest.(consumer := Holding(code), received := l.received + [l.buffers[code]])
      else
        rest.(consumer := Stopped)
    case Release =>
      l.(bw := l.bw + [Signal(l.consumer.buffer)], consumer := Waiting)
  }

  /** The link after a run of actions of both sides in any order; none if one of them was not enabled. */
  ghost function Run<F>(l: Link<F>, dropMode: bool, actions: seq<Action<F>>): (r: Option<Link<F>>)
    requires Sized(l)
    ensures r.Some? ==> Sized(r.value)
  {
    if actions == [] then Some(l)
    else
      var before := Run(l, dropMode, actions[..|actions| - 1]);
      var a := actions[|actions| - 1];
      if before.Some? && Enabled(before.value, dropMode, a) then Some(Apply(before.value, dropMode, a)) else None
  }
}
