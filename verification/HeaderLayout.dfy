/**
 * Where the header's fields stand on the wire, and what encoding a decoded header gives back.
 */
module HeaderLayout {
  import opened Common
  import opened IqHeaders
  import opened StructCodec
  import opened HeaderCodec

  /** The unsigned little-endian number of `size` bytes at offset `at`. */
  function Unsigned(b: seq<uint8>, at: nat, size: nat): nat
    requires at + size <= |b|
  {
    ToNumber(b[at..at + size])
  }

  // ---- offsets ----

  lemma NumberStands(h: IqHeader, i: nat, at: nat, size: nat, v: nat)
    requires Encodable(h) && i < 17 + WORDS && Start(Format(), i) == at && Size(Format()[i]) == size
    requires Values(h)[i] == Num(v)
    ensures at + size <= |Encode(h)| && Unsigned(Encode(h), at, size) == v
  {
    hide Encode, Values, Format, Start;
    FieldAt(h, i, at, size);
  }

  lemma LeadNumber(h: IqHeader, i: nat, at: nat, v: nat)
    requires Encodable(h) && i < 17 && i != 2 && Start(LEAD, i) == at && Values(h)[i] == Num(v)
    ensures at + Size(LEAD[i]) <= |Encode(h)| && Unsigned(Encode(h), at, Size(LEAD[i])) == v
  {
    hide Encode, Values, Start, Unsigned;
    LeadStart(i);
    NumberStands(h, i, at, Size(LEAD[i]), v);
  }

  lemma LeadStarts()
    ensures Start(LEAD, 0) == 0 && Start(LEAD, 1) == 4 && Start(LEAD, 3) == 24 && Start(LEAD, 4) == 28
    ensures Start(LEAD, 5) == 32 && Start(LEAD, 6) == 40 && Start(LEAD, 7) == 48 && Start(LEAD, 8) == 56
  {
    hide End, Start;
    NoneEnd(LEAD);
    LeadEnds();
    LeadEndsMiddle();
    NextEnd(LEAD, 0, 0, U32);
    NextEnd(LEAD, 1, 4, U32);
    NextEnd(LEAD, 3, 24, U32);
    NextEnd(LEAD, 4, 28, U32);
    NextEnd(LEAD, 5, 32, U32);
    NextEnd(LEAD, 6, 36, U64);
    NextEnd(LEAD, 7, 48, U64);
    NextEnd(LEAD, 8, 56, U64);
  }

  lemma LeadStartsLate()
    ensures Start(LEAD, 9) == 64 && Start(LEAD, 10) == 72 && Start(LEAD, 11) == 80 && Start(LEAD, 12) == 84
    ensures Start(LEAD, 13) == 88 && Start(LEAD, 14) == 96 && Start(LEAD, 15) == 100 && Start(LEAD, 16) == 104
  {
    hide End, Start;
    LeadEndsMiddle();
    LeadEndsLate();
    NextEnd(LEAD, 9, 64, U32);
    NextEnd(LEAD, 10, 68, U64);
    NextEnd(LEAD, 11, 80, U32);
    NextEnd(LEAD, 12, 84, U32);
    NextEnd(LEAD, 13, 88, U64);
    NextEnd(LEAD, 14, 96, U32);
    NextEnd(LEAD, 15, 100, U32);
    NextEnd(LEAD, 16, 104, U32);
  }

  /** The offsets of the C structure: identification and frequencies. */
  lemma FieldsStandFirst(h: IqHeader)
    requires Encodable(h)
    ensures |Encode(h)| == HEADER_SIZE
    ensures Unsigned(Encode(h), 0, 4) == h.syncWord && Unsigned(Encode(h), 4, 4) == h.frameType
    ensures Encode(h)[8..24] == PaddedId(h)
    ensures Unsigned(Encode(h), 24, 4) == h.unitId && Unsigned(Encode(h), 28, 4) == h.activeAntChs
    ensures Unsigned(Encode(h), 32, 4) == h.iooType && Unsigned(Encode(h), 40, 8) == h.rfCenterFreq
    ensures Unsigned(Encode(h), 48, 8) == h.adcSamplingFreq && Unsigned(Encode(h), 56, 8) == h.samplingFreq
  {
    hide Encode, Values, Start, Unsigned, PaddedId;
    EncodedId(h);
    LeadStarts();
    LeadValues(h);
    LeadNumber(h, 0, 0, h.syncWord);
    LeadNumber(h, 1, 4, h.frameType);
    LeadNumber(h, 3, 24, h.unitId);
    LeadNumber(h, 4, 28, h.activeAntChs);
    LeadNumber(h, 5, 32, h.iooType);
    LeadNumber(h, 6, 40, h.rfCenterFreq);
    LeadNumber(h, 7, 48, h.adcSamplingFreq);
    LeadNumber(h, 8, 56, h.samplingFreq);
  }

  lemma LeadValues(h: IqHeader)
    requires Encodable(h)
    ensures forall i | 0 <= i < 2 :: Values(h)[i] == HeadValues(h)[i]
    ensures forall i | 3 <= i < 17 :: Values(h)[i] == FieldValues(h)[i - 3]
  {
    hide Values, HeadValues, FieldValues;
    ValueCounts(h);
    forall i | 0 <= i < 17
      ensures i < 2 ==> Values(h)[i] == HeadValues(h)[i]
      ensures 3 <= i ==> Values(h)[i] == FieldValues(h)[i - 3]
    {
      ValueIndex(h, i);
    }
  }

  /** The offsets of the C structure: counters, sizes and flags. */
  lemma FieldsStandNext(h: IqHeader)
    requires Encodable(h)
    ensures |Encode(h)| == HEADER_SIZE
    ensures Unsigned(Encode(h), 64, 4) == h.cpiLength && Unsigned(Encode(h), 72, 8) == h.timeStamp
    ensures Unsigned(Encode(h), 80, 4) == h.daqBlockIndex && Unsigned(Encode(h), 84, 4) == h.cpiIndex
    ensures Unsigned(Encode(h), 88, 8) == h.extIntegrationCntr && Unsigned(Encode(h), 96, 4) == h.dataType
    ensures Unsigned(Encode(h), 100, 4) == h.sampleBitDepth
    ensures Unsigned(Encode(h), 104, 4) == h.adcOverdriveFlags
  {
    hide Encode, Values, Start, Unsigned;
    EncodedId(h);
    LeadStartsLate();
    LeadValues(h);
    LeadNumber(h, 9, 64, h.cpiLength);
    LeadNumber(h, 10, 72, h.timeStamp);
    LeadNumber(h, 11, 80, h.daqBlockIndex);
    LeadNumber(h, 12, 84, h.cpiIndex);
    LeadNumber(h, 13, 88, h.extIntegrationCntr);
    LeadNumber(h, 14, 96, h.dataType);
    LeadNumber(h, 15, 100, h.sampleBitDepth);
    LeadNumber(h, 16, 104, h.adcOverdriveFlags);
  }

  /** The offsets of the C structure: gains, synchronizer stamps, reserved words and version. */
  lemma WordsStand(h: IqHeader, n: nat)
    requires Encodable(h) && n < WORDS
    ensures |Encode(h)| == HEADER_SIZE && Unsigned(Encode(h), 108 + 4 * n, 4) ==
            if n < 32 then h.ifGains[n]
            else if n == 32 then h.delaySyncFlag
            else if n == 33 then h.iqSyncFlag
            else if n == 34 then h.syncState
            else if n == 35 then h.noiseSourceState
            else if n < 228 then 0
            else h.headerVersion
  {
    hide Encode, Values, Start, Unsigned, Words;
    EncodedId(h);
    WordStart(n);
    ValueIndex(h, 17 + n);
    WordIndex(h, n);
    NumberStands(h, 17 + n, 108 + 4 * n, 4, Words(h)[n]);
  }

  // ---- encoding what was decoded ----

  /** Alignment gaps of the record. */
  predicate InGap(k: nat) {
    36 <= k < 40 || 68 <= k < 72
  }

  predicate InReserved(k: nat) {
    252 <= k < 1020
  }

  lemma ItemCovers(i: nat, k: nat)
    requires i < 17 + WORDS && Start(Format(), i) <= k < Start(Format(), i) + Size(Format()[i])
    ensures !IsGap(Format(), k)
  {
  }

  lemma LeadCovers(i: nat, at: nat, k: nat)
    requires i < 17 && Start(LEAD, i) == at && at <= k < at + Size(LEAD[i])
    ensures !IsGap(Format(), k)
  {
    hide Start, IsGap;
    LeadStart(i);
    ItemCovers(i, k);
  }

  lemma LeadHasNoOtherGaps(k: nat)
    requires k < 108 && !InGap(k)
    ensures !IsGap(Format(), k)
  {
    hide Start, IsGap;
    LeadStarts();
    LeadStartsLate();
    if k < 4 { LeadCovers(0, 0, k); }
    else if k < 8 { LeadCovers(1, 4, k); }
    else if k < 24 { IdStart(); ItemCovers(2, k); }
    else if k < 28 { LeadCovers(3, 24, k); }
    else if k < 32 { LeadCovers(4, 28, k); }
    else if k < 36 { LeadCovers(5, 32, k); }
    else if k < 48 { LeadCovers(6, 40, k); }
    else if k < 56 { LeadCovers(7, 48, k); }
    else if k < 64 { LeadCovers(8, 56, k); }
    else if k < 68 { LeadCovers(9, 64, k); }
    else if k < 80 { LeadCovers(10, 72, k); }
    else if k < 84 { LeadCovers(11, 80, k); }
    else if k < 88 { LeadCovers(12, 84, k); }
    else if k < 96 { LeadCovers(13, 88, k); }
    else if k < 100 { LeadCovers(14, 96, k); }
    else if k < 104 { LeadCovers(15, 100, k); }
    else { LeadCovers(16, 104, k); }
  }

  lemma WordsHaveNoGaps(k: nat)
    requires 108 <= k < HEADER_SIZE
    ensures !IsGap(Format(), k)
  {
    hide Start, IsGap;
    var n := (k - 108) / 4;
    WordStart(n);
    ItemCovers(17 + n, k);
  }

  lemma GapBetween(i: nat, lo: nat, hi: nat, k: nat)
    requires 0 < i < 17 && End(LEAD, i) == lo && Start(LEAD, i) == hi && lo <= k < hi
    ensures IsGap(Format(), k)
  {
    hide Start, End;
    LeadStart(i - 1);
    LeadStart(i);
    forall j | 0 <= j < 17 + WORDS
      ensures !(Start(Format(), j) <= k < Start(Format(), j) + Size(Format()[j]))
    {
      ItemsInside(Format(), j);
      if j < i {
        EndGrows(Format(), j + 1, i);
      } else {
        StartGrows(Format(), i, j);
      }
    }
  }

  /** The only positions of the record that belong to no field are two alignment gaps. */
  lemma GapsAre(k: nat)
    requires k < HEADER_SIZE
    ensures IsGap(Format(), k) <==> InGap(k)
  {
    hide Start, End, IsGap;
    LeadStarts();
    LeadStartsLate();
    LeadEnds();
    LeadEndsMiddle();
    if InGap(k) {
      if k < 40 {
        GapBetween(6, 36, 40, k);
      } else {
        GapBetween(10, 68, 72, k);
      }
    } else if k < 108 {
      LeadHasNoOtherGaps(k);
    } else {
      WordsHaveNoGaps(k);
    }
  }

  /** The same bytes with the reserved words zeroed. */
  function Cleared(b: seq<uint8>): (r: seq<uint8>)
    requires |b| == HEADER_SIZE
    ensures |r| == HEADER_SIZE && forall k | 0 <= k < HEADER_SIZE :: r[k] == if InReserved(k) then 0 else b[k]
  {
    b[..252] + Repeat(0, 768) + b[1020..]
  }

  lemma {:induction false} ZeroNumber(n: nat)
    ensures ToNumber(Repeat(0, n)) == 0
  {
    if n != 0 {
      ZeroNumber(n - 1);
      assert Repeat<uint8>(0, n)[1..] == Repeat(0, n - 1);
    }
  }

  /** A reserved word is read as zero after clearing; every other item is read as before. */
  lemma ClearedItem(b: seq<uint8>, i: nat)
    requires |b| == HEADER_SIZE == End(Format(), 17 + WORDS) && i < 17 + WORDS
    ensures Unpack(Format(), Cleared(b))[i] ==
            if 53 <= i < 245 then Num(0) else Unpack(Format(), b)[i]
  {
    hide Start, End, Cleared;
    ItemsInside(Format(), i);
    if 17 <= i {
      var n := i - 17;
      WordStart(n);
      if 36 <= n < 228 {
        assert Part(Format(), Cleared(b), i) == Repeat(0, 4);
        ZeroNumber(4);
      } else {
        assert Part(Format(), Cleared(b), i) == Part(Format(), b, i);
      }
    } else {
      LeadEndsLate();
      LeadStart(i);
      EndGrows(LEAD, i + 1, 17);
      assert Part(Format(), Cleared(b), i) == Part(Format(), b, i);
    }
  }

  lemma DecodedLead(b: seq<uint8>, i: nat)
    requires |b| == HEADER_SIZE == End(Format(), 17 + WORDS) && i < 17
    ensures var h := FromValues(Unpack(Format(), b), b[8..24]);
            |h.hardwareId| == ID_LENGTH && Values(h)[i] == Unpack(Format(), b)[i]
  {
    hide Start, End, Unpack, Values, Words, NumAt, NumsAt;
    var h := FromValues(Unpack(Format(), b), b[8..24]);
    ValueIndex(h, i);
    ItemKinds(b, i);
  }

  lemma DecodedWord(b: seq<uint8>, n: nat)
    requires |b| == HEADER_SIZE == End(Format(), 17 + WORDS) && n < WORDS
    ensures var h := FromValues(Unpack(Format(), b), b[8..24]);
            |h.hardwareId| == ID_LENGTH
            && Values(h)[17 + n] == if 36 <= n < 228 then Num(0) else Unpack(Format(), b)[17 + n]
  {
    hide Start, End, Unpack, Values, Words, NumAt;
    var h := FromValues(Unpack(Format(), b), b[8..24]);
    ValueIndex(h, 17 + n);
    ItemKinds(b, 17 + n);
    WordIndex(h, n);
  }

  lemma ItemKinds(b: seq<uint8>, i: nat)
    requires |b| == HEADER_SIZE == End(Format(), 17 + WORDS) && i < 17 + WORDS
    ensures i != 2 ==> Unpack(Format(), b)[i] == Num(NumAt(Unpack(Format(), b), i))
    ensures i == 2 ==> Unpack(Format(), b)[i] == Bytes(b[8..24])
  {
    hide Start, End;
    ItemsInside(Format(), i);
    if i == 2 {
      IdStart();
    } else if i < 17 {
      LeadStart(i);
      assert !LEAD[i].Text?;
    } else {
      WordStart(i - 17);
    }
  }

  lemma DecodedIsEncodable(b: seq<uint8>)
    requires |b| == HEADER_SIZE == End(Format(), 17 + WORDS)
    ensures var h := FromValues(Unpack(Format(), b), b[8..24]);
            Encodable(h) && Values(h) == Unpack(Format(), Cleared(b))
  {
    hide Start, End, Cleared, Unpack, FromValues, Limit;
    var h := FromValues(Unpack(Format(), b), b[8..24]);
    UnpackedFit(Format(), b);
    assert Encodable(h) by {
      DecodedInRange(b);
    }
    forall i | 0 <= i < 17 + WORDS
      ensures Values(h)[i] == Unpack(Format(), Cleared(b))[i]
    {
      ClearedItem(b, i);
      if i < 17 {
        DecodedLead(b, i);
      } else {
        DecodedWord(b, i - 17);
      }
    }
  }

  lemma NumberInRange(b: seq<uint8>, i: nat, size: nat)
    requires |b| == HEADER_SIZE == End(Format(), 17 + WORDS) && i < 17 + WORDS && i != 2
    requires Size(Format()[i]) == size
    ensures NumAt(Unpack(Format(), b), i) < Limit(size)
  {
    hide Start, End, Unpack, Limit, Format;
    UnpackedFit(Format(), b);
    ItemKinds(b, i);
  }

  lemma DecodedInRange(b: seq<uint8>)
    requires |b| == HEADER_SIZE == End(Format(), 17 + WORDS)
    ensures Encodable(FromValues(Unpack(Format(), b), b[8..24]))
  {
    hide Start, End, Unpack, Limit;
    forall i | 0 <= i < 17 + WORDS && i != 2
      ensures NumAt(Unpack(Format(), b), i) < Limit(Size(Format()[i]))
    {
      NumberInRange(b, i, Size(Format()[i]));
    }
    assert forall i | 0 <= i < 17 :: Format()[i] == LEAD[i];
    assert forall i | 17 <= i < 17 + WORDS :: Format()[i] == U32;
  }

  /**
   * Encoding a decoded header gives the bytes back, with the reserved words and the alignment gaps zeroed.
   */
  lemma EncodeDecode(fields: IqHeader, b: seq<uint8>)
    requires |b| == HEADER_SIZE && IsText(b[8..24])
    ensures var (h, ok) := Decode(fields, b);
            ok && Encodable(h) && |Encode(h)| == HEADER_SIZE
            && forall k | 0 <= k < HEADER_SIZE ::
                 Encode(h)[k] == if InGap(k) || InReserved(k) then 0 else b[k]
  {
    hide Start, End, Cleared, Unpack, FromValues, Encode, Values, Encodable, Pack, IsGap;
    FormatEnds(WORDS);
    var h := FromValues(Unpack(Format(), b), b[8..24]);
    DecodedIsEncodable(b);
    EncodeIsPack(h);
    forall k | 0 <= k < HEADER_SIZE
      ensures Encode(h)[k] == if InGap(k) || InReserved(k) then 0 else b[k]
    {
      PackUnpack(Format(), Cleared(b), k);
      GapsAre(k);
    }
  }
}
