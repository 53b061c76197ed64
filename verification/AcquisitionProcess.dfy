/** The ring of one receiver as a byte buffer that callbacks fill, and the readiness check of the main loop. */
module AcquisitionProcess {
  import opened Common
  import opened Memory
  import Rebuffer
  import Ring = AcquisitionRing

  class RtlReceiver {
    const bufferSize: nat
    const buffer: array<uint8>
    var buffInd: nat
    /** All blocks received so far. */
    ghost var blocks: seq<seq<uint8>>

    ghost predicate Valid()
      reads this, buffer
    {
      && buffer.Length == Times(Ring.NUM_BUFF, bufferSize) && |blocks| == buffInd
      && (forall n | 0 <= n < buffInd :: |blocks[n]| == bufferSize)
      && (forall n | 0 <= n < buffInd && buffInd <= n + Ring.NUM_BUFF :: Slot(n % Ring.NUM_BUFF) == blocks[n])
    }

    /** The bytes of slot `k`. */
    ghost function Slot(k: nat): seq<uint8>
      requires k < Ring.NUM_BUFF && buffer.Length == Times(Ring.NUM_BUFF, bufferSize)
      reads buffer
    {
      BlockFits(k, Ring.NUM_BUFF, bufferSize);
      BlockAt(buffer[..], k, bufferSize)
    }

    constructor (bufferSize: nat)
      ensures Valid() && this.bufferSize == bufferSize && blocks == [] && fresh(buffer)
    {
      this.bufferSize := bufferSize;
      TimesIsProduct(Ring.NUM_BUFF, bufferSize);
      buffer := new uint8[Ring.NUM_BUFF * bufferSize](_ => 0);
      buffInd, blocks := 0, [];
    }

    /** A block arrives from the device; it replaces the block a whole ring before it. */
    method Callback(buf: seq<uint8>)
      requires Valid() && |buf| == bufferSize
      modifies this`buffInd, this`blocks, buffer
      ensures Valid() && blocks == old(blocks) + [buf]
    {
      var wrBuffInd := buffInd % Ring.NUM_BUFF;
      BlockFits(wrBuffInd, Ring.NUM_BUFF, bufferSize);
      TimesIsProduct(wrBuffInd, bufferSize);
      ghost var before := buffer[..];
      FRead(buffer, bufferSize * wrBuffInd, buf);
      forall n | 0 <= n <= buffInd && buffInd + 1 <= n + Ring.NUM_BUFF
        ensures Slot(n % Ring.NUM_BUFF) == (blocks + [buf])[n]
      {
        SlotAfter(before, buf, wrBuffInd, n % Ring.NUM_BUFF);
        if n < buffInd {
          Ring.OtherSlot(n, buffInd);
        }
      }
      blocks := blocks + [buf];
      buffInd := buffInd + 1;
    }

    /** Writing one slot leaves the others alone. */
    lemma SlotAfter(before: seq<uint8>, buf: seq<uint8>, w: nat, k: nat)
      requires w < Ring.NUM_BUFF && k < Ring.NUM_BUFF && |buf| == bufferSize
      requires buffer.Length == |before| == Times(Ring.NUM_BUFF, bufferSize)
      requires Times(w, bufferSize) + bufferSize <= |before|
      requires buffer[..] == Rebuffer.Store(before, Times(w, bufferSize), buf)
      ensures Times(k + 1, bufferSize) <= |before|
      ensures Slot(k) == if k == w then buf else BlockAt(before, k, bufferSize)
    {
      hide Times;
      BlockFits(k, Ring.NUM_BUFF, bufferSize);
      if k < w {
        BlockFits(k, w, bufferSize);
      } else if w < k {
        BlockFits(w, k, bufferSize);
      }
    }

    /** What the main thread sends for block `n`. */
    method ReadBlock(n: nat) returns (block: seq<uint8>)
      requires Valid() && n < buffInd && buffInd <= n + Ring.NUM_BUFF
      ensures block == blocks[n]
    {
      var k := n % Ring.NUM_BUFF;
      BlockFits(k, Ring.NUM_BUFF, bufferSize);
      TimesIsProduct(k, bufferSize);
      block := buffer[bufferSize * k..bufferSize * k + bufferSize];
      assert block == Slot(k);
    }
  }

  /** The main loop's check of all receivers. */
  method DataReady(receivers: seq<RtlReceiver>, read: nat) returns (ready: bool)
    ensures ready == forall i | 0 <= i < |receivers| ::
                       read < receivers[i].buffInd && receivers[i].buffInd % Ring.NUM_BUFF != read % Ring.NUM_BUFF
  {
    ready := true;
    for i := 0 to |receivers|
      invariant ready && forall j | 0 <= j < i ::
                  read < receivers[j].buffInd && receivers[j].buffInd % Ring.NUM_BUFF != read % Ring.NUM_BUFF
    {
      if receivers[i].buffInd <= read {
        ready := false;
        break;
      }
      if receivers[i].buffInd % Ring.NUM_BUFF == read % Ring.NUM_BUFF {
        ready := false;
        break;
      }
    }
  }
}
