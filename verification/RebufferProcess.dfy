/** The rebuffer process: the rings and offsets updated in place, one frame at a time. */
module RebufferProcess {
  import opened Common
  import opened IqHeaders
  import opened Memory
  import opened Rebuffer

  /** One of the two shared memory buffers towards the decimator. */
  class SinkBuffer {
    var header: IqHeader
    const payload: array<uint8>

    constructor (header: IqHeader, size: nat)
      ensures fresh(payload) && payload.Length == size
    {
      this.header := header;
      payload := new uint8[size](_ => 0);
    }
  }

  /** The sink buffer holds the header of `f` and its blocks, channel after channel. */
  ghost predicate Carries(sink: SinkBuffer, f: Frame<uint8>)
    reads sink, sink.payload
  {
    && sink.header == f.header
    && forall m | 0 <= m < |f.blocks| ::
         Offset(m, |f.blocks[m]|) + |f.blocks[m]| <= sink.payload.Length
         && Section(sink.payload[..], m, |f.blocks[m]|) == f.blocks[m]
  }

  /** The contents of the rings. */
  ghost function Contents(rings: seq<array<uint8>>): (r: seq<seq<uint8>>)
    reads rings
    ensures |r| == |rings|
    ensures forall m | 0 <= m < |rings| :: r[m] == rings[m][..]
  {
    seq(|rings|, m requires 0 <= m < |rings| reads rings => rings[m][..])
  }

  ghost predicate Distinct(rings: seq<array<uint8>>) {
    forall i, j | 0 <= i < j < |rings| :: rings[i] != rings[j]
  }

  /** Where channel `m` starts in a payload with `n` bytes a channel. */
  function Offset(m: nat, n: nat): nat {
    m * n
  }

  /** Channel `m` of a multichannel payload with `n` bytes a channel. */
  function Section(payload: seq<uint8>, m: nat, n: nat): seq<uint8>
    requires Offset(m, n) + n <= |payload|
  {
    payload[Offset(m, n)..Offset(m, n) + n]
  }

  lemma OffsetOrder(k: nat, m: nat, n: nat)
    requires k < m
    ensures Offset(k, n) + n <= Offset(m, n)
  {
    MulLe(k + 1, m, n);
    assert (k + 1) * n == k * n + n;
  }

  lemma OffsetMonotone(m: nat, n: nat, n': nat)
    requires n <= n'
    ensures Offset(m, n) <= Offset(m, n')
  {
    MulLe(n, n', m);
  }

  /** Writing section `m` sets it and leaves the sections before it alone. */
  lemma SectionOfStore(before: seq<uint8>, m: nat, block: seq<uint8>)
    requires Offset(m, |block|) + |block| <= |before|
    ensures var after := Store(before, Offset(m, |block|), block);
            && Section(after, m, |block|) == block
            && forall k | 0 <= k < m :: Offset(k, |block|) + |block| <= |before|
                                        && Section(after, k, |block|) == Section(before, k, |block|)
  {
    hide Offset;
    var n := |block|;
    forall k | 0 <= k < m
      ensures Offset(k, n) + n <= |before|
      ensures Section(Store(before, Offset(m, n), block), k, n) == Section(before, k, n)
    {
      OffsetOrder(k, m, n);
    }
  }

  lemma CopyOutIs(cells: seq<uint8>, wr: nat, n: nat)
    requires wr < |cells| && n <= |cells|
    ensures CopyOut(cells, wr, n) ==
            if n <= |cells| - wr then cells[wr..wr + n] else cells[wr..] + cells[..n - (|cells| - wr)]
  {
  }

  /** Copies `n` bytes of a ring, found from `wr` on, to position `off` of the payload. */
  method CopyRing(payload: array<uint8>, off: nat, ring: array<uint8>, wr: nat, n: nat)
    requires payload != ring && off + n <= payload.Length
    requires wr < ring.Length && n <= ring.Length
    modifies payload
    ensures payload[..] == Store(old(payload[..]), off, CopyOut(ring[..], wr, n))
  {
    hide Store, CopyOut;
    var chunkSize := ring.Length - wr;
    ghost var before, cells := payload[..], ring[..];
    CopyOutIs(cells, wr, n);
    if chunkSize >= n {
      MemCpy(payload, off, ring, wr, n);
      assert ring[wr..wr + n] == cells[wr..wr + n];
    } else {
      ghost var first, second := cells[wr..], cells[..n - chunkSize];
      assert ring[wr..wr + chunkSize] == first && |first| == chunkSize;
      MemCpy(payload, off, ring, wr, chunkSize);
      assert payload[..] == Store(before, off, first);
      assert ring[0..0 + (n - chunkSize)] == second;
      MemCpy(payload, off + chunkSize, ring, 0, n - chunkSize);
      StoreTwice(before, off, first, second);
    }
  }

  class Rebuffering {
    const z: Sizes
    const rings: seq<array<uint8>>
    var rdOffset: nat
    var wrOffset: nat
    var available: nat
    var adcOverdriveFlags: nat

    ghost predicate Valid()
      reads this, rings
    {
      && ValidSizes(z)
      && |rings| == z.chNum && Distinct(rings)
      && ValidState(z, Abs())
    }

    ghost function Abs(): State<uint8>
      reads this, rings
    {
      State(Contents(rings), rdOffset, wrOffset, available, adcOverdriveFlags)
    }

    constructor (c: Config)
      requires ValidConfig(c)
      ensures Valid() && z == Configure(c) && fresh(rings)
      ensures Abs() == Reset(z, 0, 0)
    {
      z := Configure(c);
      var zs := Configure(c);
      var buffers: seq<array<uint8>> := [];
      for m := 0 to c.chNum
        invariant |buffers| == m && Distinct(buffers) && fresh(buffers)
        invariant forall k | 0 <= k < m :: allocated(buffers[k]) && buffers[k][..] == Repeat(0, zs.capacity)
      {
        var ring := new uint8[zs.capacity](_ => 0);
        assert ring[..] == Repeat(0, zs.capacity);
        buffers := buffers + [ring];
      }
      rings := buffers;
      rdOffset, wrOffset, available := 0, 0, 0;
      adcOverdriveFlags := 0;
      new;
      assert Contents(rings) == Repeat(Repeat(0, z.capacity), z.chNum);
    }

    /** Reads the blocks of a frame into the rings. */
    method ReadBlocks(f: Frame<uint8>)
      requires Valid() && WellFormed(z, f) && f.header.cpiLength > 0
      modifies rings
      ensures Valid() && Contents(rings) == LoadBlocks(z, old(Abs()), f)
    {
      for m := 0 to z.chNum
        invariant forall k | 0 <= k < m :: rings[k][..] == Store(old(rings[k][..]), rdOffset, f.blocks[k])
        invariant forall k | m <= k < z.chNum :: rings[k][..] == old(rings[k][..])
      {
        FRead(rings[m], rdOffset, f.blocks[m]);
      }
      assert Contents(rings) == LoadBlocks(z, old(Abs()), f);
    }

    method ResetRings()
      requires Valid()
      modifies rings
      ensures Contents(rings) == Repeat(Repeat(0, z.capacity), z.chNum)
      ensures forall m | 0 <= m < z.chNum :: rings[m].Length == z.capacity
    {
      for m := 0 to z.chNum
        invariant forall k | 0 <= k < m :: rings[k][..] == Repeat(0, z.capacity)
        invariant forall k | 0 <= k < z.chNum :: rings[k].Length == z.capacity
      {
        MemSet(rings[m], 0);
      }
    }

    /** Copies the next `n` bytes of every ring into the payload, one channel after the other. */
    method WritePayload(payload: array<uint8>, n: nat)
      requires Valid() && 0 < n && n + z.block < z.capacity
      requires Offset(z.chNum, n) <= payload.Length && payload !in rings
      modifies payload
      ensures forall m | 0 <= m < z.chNum ::
                Offset(m, n) + n <= payload.Length
                && Section(payload[..], m, n) == CopyOut(rings[m][..], wrOffset, n)
    {
      hide Section, CopyOut, Offset;
      for m := 0 to z.chNum
        invariant forall k | 0 <= k < m ::
                    Offset(k, n) + n <= payload.Length
                    && Section(payload[..], k, n) == CopyOut(rings[k][..], wrOffset, n)
      {
        OffsetOrder(m, z.chNum, n);
        ghost var before := payload[..];
        CopyRing(payload, Offset(m, n), rings[m], wrOffset, n);
        SectionOfStore(before, m, CopyOut(rings[m][..], wrOffset, n));
      }
    }

    method AdvanceRead()
      requires Valid()
      modifies this`rdOffset
      ensures Valid() && rdOffset == NextReadOffset(z, old(rdOffset))
    {
      NextBlock(rdOffset, z.block, z.capacity);
      rdOffset := (rdOffset + z.block) % z.capacity;
    }

    method AdvanceWrite(n: nat)
      requires Valid() && n < z.capacity
      modifies this`wrOffset
      ensures Valid() && wrOffset == NextWriteOffset(z.capacity, old(wrOffset), n)
    {
      var chunkSize := z.capacity - wrOffset;
      if chunkSize >= n {
        wrOffset := (wrOffset + n) % z.capacity;
      } else {
        wrOffset := n - chunkSize;
      }
    }

    /** Reads a frame and updates the offsets according to its type. */
    method ReceiveFrame(f: Frame<uint8>)
      requires Valid() && WellFormed(z, f)
      modifies this, rings
      ensures Valid() && Abs() == Receive(z, 0, old(Abs()), f)
    {
      hide NextReadOffset, ValidSizes;
      var readSize := 1;
      if f.header.cpiLength > 0 {
        ReadBlocks(f);
        readSize := z.block;
      }
      if f.header.frameType == FRAME_TYPE_DUMMY {
        ResetRings();
        wrOffset, rdOffset, available := 0, 0, 0;
      } else if f.header.frameType == FRAME_TYPE_DATA || f.header.frameType == FRAME_TYPE_CAL {
        AdvanceRead();
        available := available + readSize;
        adcOverdriveFlags := FlagOr(adcOverdriveFlags, f.header.adcOverdriveFlags);
      }
      assert Abs().cells == Receive(z, 0, old(Abs()), f).cells;
    }

    /** Sends the frame that is due on header `h`, if any, through the free buffer `sink`. */
    method SendFrame(h: IqHeader, sink: SinkBuffer) returns (sent: bool)
      requires Valid()
      requires Offset(z.chNum, Max(z.data, z.cal)) <= sink.payload.Length && sink.payload !in rings
      modifies this, sink, sink.payload
      ensures Valid() && Abs() == Emit(z, old(Abs()), h).0
      ensures sent == Emit(z, old(Abs()), h).1.Some?
      ensures sent ==> Carries(sink, Emit(z, old(Abs()), h).1.value)
    {
      hide TimeStampAdjust, NextWriteOffset, CopyOut, Section, Offset;
      sent := false;
      var active := 0;
      if h.frameType == FRAME_TYPE_DUMMY {
        sink.header := h.(cpiLength := 0);
        sent := true;
      } else if h.frameType == FRAME_TYPE_CAL && available >= z.cal {
        active := z.cal;
      } else if h.frameType == FRAME_TYPE_DATA && available >= z.data {
        active := z.data;
      }
      if active > 0 {
        sink.header := SentHeader(h, active, available - active, adcOverdriveFlags);
        adcOverdriveFlags := 0;
        assert Offset(z.chNum, active) <= sink.payload.Length by {
          OffsetMonotone(z.chNum, active, Max(z.data, z.cal));
        }
        WritePayload(sink.payload, active);
        AdvanceWrite(active);
        available := available - active;
        sent := true;
      }
    }

    /**
     * One turn of the processing loop with the free sink buffer `sink`. A header without the
     * sync word ends the process; otherwise the new state and the sent frame are those of the model.
     */
    method ProcessFrame(f: Frame<uint8>, sink: SinkBuffer) returns (running: bool, sent: bool)
      requires Valid() && WellFormed(z, f)
      requires Offset(z.chNum, Max(z.data, z.cal)) <= sink.payload.Length && sink.payload !in rings
      modifies this, rings, sink, sink.payload
      ensures Valid() && running == (f.header.syncWord == SYNC_WORD)
      ensures !running ==> !sent && Abs() == old(Abs())
      ensures running ==> Abs() == Step(z, 0, old(Abs()), f).0
      ensures running ==> sent == Step(z, 0, old(Abs()), f).1.Some?
      ensures sent ==> Carries(sink, Step(z, 0, old(Abs()), f).1.value)
    {
      running, sent := f.header.syncWord == SYNC_WORD, false;
      if running {
        ReceiveFrame(f);
        sent := SendFrame(f.header, sink);
      }
    }
  }
}
