/** The calls of the shared memory library on their flags, counters and control FIFOs. */
module ShmemProcess {
  import opened Shmem

  /** A control FIFO; bytes are listed oldest first. */
  class Fifo {
    var bytes: seq<nat>

    constructor ()
      ensures bytes == []
    {
      bytes := [];
    }

    method Push(b: nat)
      modifies this
      ensures bytes == old(bytes) + [b]
    {
      bytes := bytes + [b];
    }

    method Pop() returns (b: nat)
      requires bytes != []
      modifies this
      ensures b == old(bytes)[0] && bytes == old(bytes)[1..]
    {
      b, bytes := bytes[0], bytes[1..];
    }
  }

  /** The transfer structure of the C library; a producer and a consumer each have one on the same FIFOs. */
  class ShmemTransfer {
    const bufferFree: array<bool>
    const dropMode: bool
    var droppedFrameCntr: nat
    const fwCtrFifo: Fifo
    const bwCtrFifo: Fifo

    ghost predicate Valid() {
      bufferFree.Length == 2 && fwCtrFifo != bwCtrFifo
    }

    constructor (fw: Fifo, bw: Fifo, dropMode: bool)
      requires fw != bw
      ensures Valid() && fwCtrFifo == fw && bwCtrFifo == bw && this.dropMode == dropMode
      ensures fresh(bufferFree) && bufferFree[..] == [true, true] && droppedFrameCntr == 0
    {
      fwCtrFifo, bwCtrFifo := fw, bw;
      this.dropMode := dropMode;
      droppedFrameCntr := 0;
      bufferFree := new bool[2](_ => true);
    }

    /** Takes a free buffer, or the oldest one the consumer gave back. */
    method WaitForFree() returns (code: int)
      requires Valid() && Returns(bufferFree[..], bwCtrFifo.bytes, dropMode)
      modifies this`droppedFrameCntr, bufferFree, bwCtrFifo
      ensures var w := WaitBuffFree(old(bufferFree[..]), old(bwCtrFifo.bytes), dropMode);
              && code == w.code && bufferFree[..] == w.free && bwCtrFifo.bytes == w.bw
              && droppedFrameCntr == old(droppedFrameCntr) + (if w.dropped then 1 else 0)
    {
      if bufferFree[0] {
        return 0;
      } else if bufferFree[1] {
        return 1;
      } else if bwCtrFifo.bytes == [] {
        droppedFrameCntr := droppedFrameCntr + 1;
        return FRAME_DROP;
      }
      var signal := bwCtrFifo.Pop();
      if signal == A_BUFF_READY {
        bufferFree[0] := true;
        return 0;
      } else if signal == B_BUFF_READY {
        bufferFree[1] := true;
        return 1;
      }
      return -1;
    }

    /** Publishes a written buffer. */
    method SendCtrBuffReady(i: nat)
      requires Valid() && i < 2
      modifies bufferFree, fwCtrFifo
      ensures bufferFree[..] == old(bufferFree[..])[i := false]
      ensures fwCtrFifo.bytes == old(fwCtrFifo.bytes) + [Signal(i)]
    {
      bufferFree[i] := false;
      if i == 0 {
        fwCtrFifo.Push(A_BUFF_READY);
      } else if i == 1 {
        fwCtrFifo.Push(B_BUFF_READY);
      }
    }

    method SendCtrTerminate()
      modifies fwCtrFifo
      ensures fwCtrFifo.bytes == old(fwCtrFifo.bytes) + [TERMINATE]
    {
      fwCtrFifo.Push(TERMINATE);
    }

    /** The consumer's read of the oldest announcement. */
    method WaitBuffReady() returns (code: int)
      requires fwCtrFifo.bytes != []
      modifies fwCtrFifo
      ensures code == ReadyCode(old(fwCtrFifo.bytes)[0]) && fwCtrFifo.bytes == old(fwCtrFifo.bytes)[1..]
    {
      var signal := fwCtrFifo.Pop();
      if signal == A_BUFF_READY {
        return 0;
      } else if signal == B_BUFF_READY {
        return 1;
      } else if signal == TERMINATE {
        return TERMINATE;
      }
      return -2;
    }

    /** The consumer gives a buffer back. */
    method SendCtrBuffFree(i: nat)
      requires i < 2
      modifies bwCtrFifo
      ensures bwCtrFifo.bytes == old(bwCtrFifo.bytes) + [Signal(i)]
    {
      if i == 0 {
        bwCtrFifo.Push(A_BUFF_READY);
      } else if i == 1 {
        bwCtrFifo.Push(B_BUFF_READY);
      }
    }
  }

  /** The producer of the Python interface: it announces a buffer before it clears the free flag. */
  class OutShmemIface {
    var bufferFree: seq<bool>
    const dropMode: bool
    var droppedFrameCntr: nat
    const fwCtrFifo: Fifo
    const bwCtrFifo: Fifo

    constructor (fw: Fifo, bw: Fifo, dropMode: bool)
      ensures fwCtrFifo == fw && bwCtrFifo == bw && this.dropMode == dropMode
      ensures bufferFree == [true, true] && droppedFrameCntr == 0
    {
      fwCtrFifo, bwCtrFifo := fw, bw;
      this.dropMode := dropMode;
      bufferFree, droppedFrameCntr := [true, true], 0;
    }

    method SendCtrBuffReady(i: nat)
      requires |bufferFree| == 2 && i < 2
      modifies this`bufferFree, fwCtrFifo
      ensures bufferFree == old(bufferFree)[i := false]
      ensures fwCtrFifo.bytes == old(fwCtrFifo.bytes) + [Signal(i)]
    {
      if i == 0 {
        fwCtrFifo.Push(A_BUFF_READY);
      } else if i == 1 {
        fwCtrFifo.Push(B_BUFF_READY);
      }
      bufferFree := bufferFree[i := false];
    }

    method WaitForFree() returns (code: int)
      requires |bufferFree| == 2 && Returns(bufferFree, bwCtrFifo.bytes, dropMode)
      modifies this, bwCtrFifo
      ensures var w := PyWaitBuffFree(old(bufferFree), old(bwCtrFifo.bytes), dropMode);
              && code == w.code && bufferFree == w.free && bwCtrFifo.bytes == w.bw
              && droppedFrameCntr == old(droppedFrameCntr) + (if w.dropped then 1 else 0)
    {
      if bufferFree[0] {
        return 0;
      } else if bufferFree[1] {
        return 1;
      }
      if bwCtrFifo.bytes == [] {
        droppedFrameCntr := droppedFrameCntr + 1;
      } else {
        var signal := bwCtrFifo.Pop();
        if signal == A_BUFF_READY {
          bufferFree := bufferFree[0 := true];
          return 0;
        }
        if signal == B_BUFF_READY {
          bufferFree := bufferFree[1 := true];
          return 1;
        }
      }
      return FRAME_DROP;
    }
  }
}
