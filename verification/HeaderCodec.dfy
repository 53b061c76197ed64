/**
 * The IQ header on the wire: what the Python blocks encode and decode, against the layout of the C
 * structure that the other blocks read and write.
 */
module HeaderCodec {
  import opened Common
  import opened IqHeaders
  import opened StructCodec

  const HEADER_SIZE: nat := 1024
  const RESERVED_WORDS: nat := 192
  const GAINS: nat := 32
  const ID_LENGTH: nat := 16

  /** The fields before the gains. */
  const LEAD: seq<Item> :=
    [U32, U32, Text(16), U32, U32, U32, U64, U64, U64, U32, U64, U32, U32, U64, U32, U32, U32]

  const WORDS: nat := GAINS + 4 + RESERVED_WORDS + 1

  /** The whole record; all that follows the lead are words. */
  function Format(): (f: seq<Item>)
    ensures |f| == 17 + WORDS
  {
    LEAD + Repeat(U32, WORDS)
  }

  // ---- texts ----

  predicate Continues(b: seq<uint8>, k: nat) {
    k < |b| && 0x80 <= b[k] < 0xC0
  }

  /** The length of the character in front of `b`, 0 if there is none (section 4 of RFC 3629). */
  function CharLength(b: seq<uint8>): (n: nat)
    ensures n <= |b|
  {
    if b == [] then 0
    else if b[0] < 0x80 then 1
    else if 0xC2 <= b[0] <= 0xDF && Continues(b, 1) then 2
    else if 0xE0 <= b[0] <= 0xEF && Continues(b, 1) && Continues(b, 2)
            && (b[0] == 0xE0 ==> 0xA0 <= b[1]) && (b[0] == 0xED ==> b[1] <= 0x9F) then 3
    else if 0xF0 <= b[0] <= 0xF4 && Continues(b, 1) && Continues(b, 2) && Continues(b, 3)
            && (b[0] == 0xF0 ==> 0x90 <= b[1]) && (b[0] == 0xF4 ==> b[1] <= 0x8F) then 4
    else 0
  }

  predicate IsText(b: seq<uint8>) {
    b == [] || (CharLength(b) != 0 && IsText(b[CharLength(b)..]))
  }

  lemma {:induction false} ZerosAreText(n: nat)
    ensures IsText(Repeat(0, n))
  {
    if n != 0 {
      ZerosAreText(n - 1);
      assert Repeat<uint8>(0, n)[1..] == Repeat(0, n - 1);
    }
  }

  lemma {:induction false} TextsConcat(a: seq<uint8>, b: seq<uint8>)
    requires IsText(a) && IsText(b)
    ensures IsText(a + b)
  {
    if a == [] {
      assert a + b == b;
    } else {
      var n := CharLength(a);
      TextsConcat(a[n..], b);
      assert (a + b)[n..] == a[n..] + b;
      assert CharLength(a + b) == n;
    }
  }

  // ---- encoding ----

  predicate IsWord(v: nat) {
    v < Limit(4)
  }

  predicate IsLong(v: nat) {
    v < Limit(8)
  }

  /** What can be encoded; packing raises an error for anything else. */
  predicate Encodable(h: IqHeader) {
    && |h.hardwareId| <= ID_LENGTH && GAINS <= |h.ifGains|
    && IsWord(h.syncWord) && IsWord(h.frameType) && IsWord(h.unitId) && IsWord(h.activeAntChs) && IsWord(h.iooType)
    && IsLong(h.rfCenterFreq) && IsLong(h.adcSamplingFreq) && IsLong(h.samplingFreq) && IsWord(h.cpiLength)
    && IsLong(h.timeStamp) && IsWord(h.daqBlockIndex) && IsWord(h.cpiIndex) && IsLong(h.extIntegrationCntr)
    && IsWord(h.dataType) && IsWord(h.sampleBitDepth) && IsWord(h.adcOverdriveFlags)
    && (forall m | 0 <= m < GAINS :: IsWord(h.ifGains[m]))
    && IsWord(h.delaySyncFlag) && IsWord(h.iqSyncFlag) && IsWord(h.syncState) && IsWord(h.noiseSourceState)
    && IsWord(h.headerVersion)
  }

  function PaddedId(h: IqHeader): (id: seq<uint8>)
    requires |h.hardwareId| <= ID_LENGTH
    ensures |id| == ID_LENGTH
  {
    h.hardwareId + Repeat(0, ID_LENGTH - |h.hardwareId|)
  }

  const HEAD: seq<Item> := [U32, U32]
  const FIELDS: seq<Item> := [U32, U32, U32, U64, U64, U64, U32, U64, U32, U32, U64, U32, U32, U32]

  function HeadValues(h: IqHeader): seq<Value> {
    [Num(h.syncWord), Num(h.frameType)]
  }

  function FieldValues(h: IqHeader): seq<Value> {
    [Num(h.unitId), Num(h.activeAntChs), Num(h.iooType), Num(h.rfCenterFreq), Num(h.adcSamplingFreq),
     Num(h.samplingFreq), Num(h.cpiLength), Num(h.timeStamp), Num(h.daqBlockIndex), Num(h.cpiIndex),
     Num(h.extIntegrationCntr), Num(h.dataType), Num(h.sampleBitDepth), Num(h.adcOverdriveFlags)]
  }

  /** The words after the lead: gains, flags, reserved words and the version. */
  function Words(h: IqHeader): (w: seq<nat>)
    requires GAINS <= |h.ifGains|
    ensures |w| == WORDS
  {
    h.ifGains[..GAINS] + [h.delaySyncFlag, h.iqSyncFlag, h.syncState, h.noiseSourceState]
    + Repeat(0, RESERVED_WORDS) + [h.headerVersion]
  }

  function WordBytes(words: seq<nat>): (r: seq<uint8>)
    ensures |r| == 4 * |words|
  {
    if words == [] then [] else WordBytes(words[..|words| - 1]) + ToBytes(words[|words| - 1], 4)
  }

  lemma PiecesFit(h: IqHeader)
    requires Encodable(h)
    ensures AllFit(HEAD, HeadValues(h)) && AllFit(FIELDS, FieldValues(h))
  {
  }

  /** The pieces in the order in which they are appended. */
  ghost function Encode(h: IqHeader): (b: seq<uint8>)
    requires Encodable(h)
  {
    PiecesFit(h);
    Pack(HEAD, HeadValues(h), 2) + PaddedId(h) + Pack(FIELDS, FieldValues(h), 14) + WordBytes(Words(h))
  }

  // ---- the encoding is the packed record ----

  function Nums(words: seq<nat>): (v: seq<Value>)
    ensures |v| == |words| && forall i | 0 <= i < |v| :: v[i] == Num(words[i])
  {
    seq(|words|, i requires 0 <= i < |words| => Num(words[i]))
  }

  function Values(h: IqHeader): (v: seq<Value>)
    requires |h.hardwareId| <= ID_LENGTH && GAINS <= |h.ifGains|
    ensures |v| == 17 + WORDS
  {
    HeadValues(h) + [Bytes(PaddedId(h))] + FieldValues(h) + Nums(Words(h))
  }

  lemma WordsFit(h: IqHeader)
    requires Encodable(h)
    ensures AllFit(Repeat(U32, WORDS), Nums(Words(h)))
  {
    assert IsWord(0);
    forall i | 0 <= i < WORDS
      ensures IsWord(Words(h)[i])
    {
    }
  }

  lemma {:induction false} WordEnds(n: nat, k: nat)
    requires k <= n
    ensures End(Repeat(U32, n), k) == 4 * k
  {
    if k != 0 {
      WordEnds(n, k - 1);
    }
  }

  lemma {:induction false} WordsPack(format: seq<Item>, words: seq<nat>, k: nat)
    requires format == Repeat(U32, |words|) && AllFit(format, Nums(words)) && k <= |words|
    ensures Pack(format, Nums(words), k) == WordBytes(words[..k])
  {
    hide Pack, End, Start, Fits, ToBytes;
    if k == 0 {
      PackNone(format, Nums(words));
    } else {
      WordsPack(format, words, k - 1);
      WordEnds(|words|, k - 1);
      assert words[..k][..k - 1] == words[..k - 1];
      assert Padding(U32, 4 * (k - 1)) == 0;
      PackLast(format, Nums(words), k);
    }
  }

  /** The end of the next item from the end of the items before it. */
  lemma NextEnd(format: seq<Item>, n: nat, at: nat, item: Item)
    requires n < |format| && End(format, n) == at && format[n] == item
    ensures Start(format, n) == at + Padding(item, at)
    ensures End(format, n + 1) == at + Padding(item, at) + Size(item)
  {
  }

  /** Where the fields of the lead start and end. */
  lemma LeadEnds()
    ensures End(LEAD, 1) == 4 && End(LEAD, 2) == 8 && End(LEAD, 3) == 24 && End(LEAD, 4) == 28
    ensures End(LEAD, 5) == 32 && End(LEAD, 6) == 36
  {
    hide End, Start;
    NoneEnd(LEAD);
    NextEnd(LEAD, 0, 0, U32);
    NextEnd(LEAD, 1, 4, U32);
    NextEnd(LEAD, 2, 8, Text(16));
    NextEnd(LEAD, 3, 24, U32);
    NextEnd(LEAD, 4, 28, U32);
    NextEnd(LEAD, 5, 32, U32);
  }

  lemma LeadEndsMiddle()
    ensures End(LEAD, 7) == 48 && End(LEAD, 8) == 56 && End(LEAD, 9) == 64 && End(LEAD, 10) == 68
  {
    hide End, Start;
    LeadEnds();
    NextEnd(LEAD, 6, 36, U64);
    NextEnd(LEAD, 7, 48, U64);
    NextEnd(LEAD, 8, 56, U64);
    NextEnd(LEAD, 9, 64, U32);
  }

  lemma LeadEndsLate()
    ensures End(LEAD, 11) == 80 && End(LEAD, 12) == 84
    ensures End(LEAD, 13) == 88 && End(LEAD, 14) == 96 && End(LEAD, 15) == 100 && End(LEAD, 16) == 104
    ensures End(LEAD, 17) == 108
  {
    hide End, Start;
    LeadEndsMiddle();
    NextEnd(LEAD, 10, 68, U64);
    NextEnd(LEAD, 11, 80, U32);
    NextEnd(LEAD, 12, 84, U32);
    NextEnd(LEAD, 13, 88, U64);
    NextEnd(LEAD, 14, 96, U32);
    NextEnd(LEAD, 15, 100, U32);
    NextEnd(LEAD, 16, 104, U32);
  }

  lemma NoneEnd(format: seq<Item>)
    ensures End(format, 0) == 0
  {
  }

  lemma LeadPacks(h: IqHeader)
    requires Encodable(h)
    ensures AllFit(LEAD, HeadValues(h) + [Bytes(PaddedId(h))] + FieldValues(h))
    ensures Pack(LEAD, HeadValues(h) + [Bytes(PaddedId(h))] + FieldValues(h), 17) ==
            Pack(HEAD, HeadValues(h), 2) + PaddedId(h) + Pack(FIELDS, FieldValues(h), 14)
  {
    hide Pack, End;
    var id := [Text(16)];
    var idValue := [Bytes(PaddedId(h))];
    PiecesFit(h);
    HeadEnds();
    assert AllFit(id, idValue);
    PackPieces(HEAD, id, HeadValues(h), idValue, 1);
    TextPacks(PaddedId(h));
    EndsMove(HEAD, id, 1);
    PackPieces(HEAD + id, FIELDS, HeadValues(h) + idValue, FieldValues(h), 14);
    assert HEAD + id + FIELDS == LEAD;
  }

  lemma HeadEnds()
    ensures End(HEAD, 2) == 8 && End([Text(16)], 1) == 16
  {
    assert End(HEAD, 0) == 0 && End(HEAD, 1) == 4;
    assert End([Text(16)], 0) == 0;
  }

  lemma TextPacks(b: seq<uint8>)
    requires |b| == ID_LENGTH
    ensures AllFit([Text(16)], [Bytes(b)]) && Pack([Text(16)], [Bytes(b)], 1) == b
  {
    assert Pack([Text(16)], [Bytes(b)], 0) == [];
    assert Repeat<uint8>(0, 0) == [];
  }

  /** Encoding piece by piece gives the packed record of 1024 bytes. */
  lemma EncodeIsPack(h: IqHeader)
    requires Encodable(h)
    ensures AllFit(Format(), Values(h))
    ensures Encode(h) == Pack(Format(), Values(h), 17 + WORDS) && |Encode(h)| == HEADER_SIZE
  {
    hide Pack, End;
    LeadPacks(h);
    LeadEndsLate();
    WordsFit(h);
    PackPieces(LEAD, Repeat(U32, WORDS), HeadValues(h) + [Bytes(PaddedId(h))] + FieldValues(h), Nums(Words(h)), WORDS);
    WordsPack(Repeat(U32, WORDS), Words(h), WORDS);
    assert Words(h)[..WORDS] == Words(h);
    FormatEnds(WORDS);
  }

  /** Where the words after the lead end. */
  lemma FormatEnds(n: nat)
    requires n <= WORDS
    ensures End(Format(), 17 + n) == 108 + 4 * n
  {
    hide End;
    LeadEndsLate();
    EndsMove(LEAD, Repeat(U32, WORDS), n);
    WordEnds(WORDS, n);
  }

  // ---- decoding ----

  function NumAt(v: seq<Value>, i: nat): nat
    requires i < |v|
  {
    if v[i].Num? then v[i].v else 0
  }

  function NumsAt(v: seq<Value>, lo: nat, hi: nat): (r: seq<nat>)
    requires lo <= hi <= |v|
    ensures |r| == hi - lo && forall k | 0 <= k < hi - lo :: r[k] == NumAt(v, lo + k)
  {
    seq<nat>(hi - lo, k requires 0 <= k < hi - lo => NumAt(v, lo + k))
  }

  /** The header that the unpacked values describe. */
  function FromValues(v: seq<Value>, id: seq<uint8>): (h: IqHeader)
    requires |v| == 17 + WORDS
    ensures |h.ifGains| == GAINS
  {
    IqHeader(NumAt(v, 0), NumAt(v, 1), id, NumAt(v, 3), NumAt(v, 4), NumAt(v, 5), NumAt(v, 6), NumAt(v, 7), NumAt(v, 8),
             NumAt(v, 9), NumAt(v, 10), NumAt(v, 11), NumAt(v, 12), NumAt(v, 13), NumAt(v, 14), NumAt(v, 15),
             NumAt(v, 16), NumsAt(v, 17, 17 + GAINS), NumAt(v, 49), NumAt(v, 50), NumAt(v, 51), NumAt(v, 52),
             NumAt(v, 52 + RESERVED_WORDS + 1))
  }

  /**
   * The fields after decoding, and whether decoding went through: bytes of another length raise an error
   * at once, a hardware id that is no text raises one after the first two fields are stored.
   */
  ghost function Decode(fields: IqHeader, b: seq<uint8>): (IqHeader, bool) {
    if |b| != HEADER_SIZE then (fields, false)
    else
      FormatEnds(WORDS);
      var v := Unpack(Format(), b);
      if !IsText(b[8..24]) then (fields.(syncWord := NumAt(v, 0), frameType := NumAt(v, 1)), false)
      else (FromValues(v, b[8..24]), true)
  }

  /** Item starts in the whole record. */
  lemma LeadStart(i: nat)
    requires i < 17
    ensures Start(Format(), i) == Start(LEAD, i) && End(Format(), i + 1) == End(LEAD, i + 1)
    ensures Format()[i] == LEAD[i]
  {
    SamePrefix(LEAD, Repeat(U32, WORDS), i);
    SamePrefix(LEAD, Repeat(U32, WORDS), i + 1);
  }

  lemma WordStart(n: nat)
    requires n < WORDS
    ensures Start(Format(), 17 + n) == 108 + 4 * n && Format()[17 + n] == U32
  {
    hide End;
    FormatEnds(n);
    assert Padding(U32, 108 + 4 * n) == 0;
  }

  lemma IdStart()
    ensures Start(Format(), 2) == 8 && Size(Format()[2]) == 16
  {
    hide End;
    LeadStart(2);
    LeadEnds();
  }

  /** The value of item `i` as encoded. */
  lemma FieldAt(h: IqHeader, i: nat, at: nat, size: nat)
    requires Encodable(h) && i < 17 + WORDS && Start(Format(), i) == at && size == Size(Format()[i])
    ensures at + size <= |Encode(h)|
    ensures AllFit(Format(), Values(h)) && Encode(h)[at..at + size] == PackOne(Format()[i], Values(h)[i])
    ensures Values(h)[i].Num? ==> ToNumber(Encode(h)[at..at + size]) == Values(h)[i].v
  {
    hide Encode, Values, Format, PackOne, Start, Pack;
    EncodeIsPack(h);
    PackedAt(Format(), Values(h), 17 + WORDS, i);
    OneBack(Format()[i], Values(h)[i]);
    UnpackNumber(Format()[i], Values(h)[i]);
  }

  lemma UnpackNumber(item: Item, value: Value)
    requires Fits(item, value)
    ensures value.Num? ==> ToNumber(PackOne(item, value)) == value.v
  {
    if value.Num? {
      NumberBack(value.v, Size(item));
    }
  }

  lemma EncodedId(h: IqHeader)
    requires Encodable(h)
    ensures |Encode(h)| == HEADER_SIZE && Encode(h)[8..24] == PaddedId(h)
  {
    hide Encode, Start, PaddedId;
    EncodeIsPack(h);
    IdStart();
    FieldAt(h, 2, 8, 16);
  }

  lemma ValueIndex(h: IqHeader, i: nat)
    requires |h.hardwareId| <= ID_LENGTH && GAINS <= |h.ifGains| && i < 17 + WORDS
    ensures i < 2 ==> Values(h)[i] == HeadValues(h)[i]
    ensures i == 2 ==> Values(h)[i] == Bytes(PaddedId(h))
    ensures 3 <= i < 17 ==> Values(h)[i] == FieldValues(h)[i - 3]
    ensures 17 <= i ==> Values(h)[i] == Num(Words(h)[i - 17])
  {
    hide PaddedId, Words, HeadValues, FieldValues, Nums;
    assert |HeadValues(h)| == 2 && |FieldValues(h)| == 14 by { ValueCounts(h); }
  }

  lemma ValueCounts(h: IqHeader)
    ensures |HeadValues(h)| == 2 && |FieldValues(h)| == 14
  {
  }

  lemma WordIndex(h: IqHeader, m: nat)
    requires GAINS <= |h.ifGains| && m < WORDS
    ensures m < 32 ==> Words(h)[m] == h.ifGains[m]
    ensures 36 <= m < 228 ==> Words(h)[m] == 0
    ensures Words(h)[32] == h.delaySyncFlag && Words(h)[33] == h.iqSyncFlag && Words(h)[34] == h.syncState
    ensures Words(h)[35] == h.noiseSourceState && Words(h)[228] == h.headerVersion
  {
  }

  lemma LeadBack(h: IqHeader)
    requires |h.hardwareId| <= ID_LENGTH && GAINS <= |h.ifGains|
    ensures forall i | 0 <= i < 2 :: NumAt(Values(h), i) == NumAt(HeadValues(h), i)
    ensures forall i | 3 <= i < 17 :: NumAt(Values(h), i) == NumAt(FieldValues(h), i - 3)
    ensures forall i | 17 <= i < 17 + WORDS :: NumAt(Values(h), i) == Words(h)[i - 17]
  {
    hide Values, PaddedId, Words;
    forall i | 0 <= i < 17 + WORDS
      ensures i < 2 ==> NumAt(Values(h), i) == NumAt(HeadValues(h), i)
      ensures 3 <= i < 17 ==> NumAt(Values(h), i) == NumAt(FieldValues(h), i - 3)
      ensures 17 <= i ==> NumAt(Values(h), i) == Words(h)[i - 17]
    {
      ValueIndex(h, i);
    }
  }

  lemma ValuesBack(h: IqHeader)
    requires Encodable(h)
    ensures FromValues(Values(h), PaddedId(h)) == h.(hardwareId := PaddedId(h), ifGains := h.ifGains[..GAINS])
  {
    hide PaddedId, Values, Words;
    var v := Values(h);
    LeadBack(h);
    WordIndex(h, 0);
    assert NumsAt(v, 17, 17 + GAINS) == h.ifGains[..GAINS] by {
      forall m | 0 <= m < GAINS
        ensures NumAt(v, 17 + m) == h.ifGains[m]
      {
        WordIndex(h, m);
      }
    }
  }

  /** Decoding an encoded header gives every field back, the hardware id filled up with zeros. */
  lemma DecodeEncode(fields: IqHeader, h: IqHeader)
    requires Encodable(h) && IsText(h.hardwareId)
    ensures Decode(fields, Encode(h)) ==
            (h.(hardwareId := PaddedId(h), ifGains := h.ifGains[..GAINS]), true)
  {
    hide Encode, Values, FromValues, Pack, Unpack;
    EncodeIsPack(h);
    UnpackPack(Format(), Values(h));
    EncodedId(h);
    ZerosAreText(ID_LENGTH - |h.hardwareId|);
    TextsConcat(h.hardwareId, Repeat(0, ID_LENGTH - |h.hardwareId|));
    ValuesBack(h);
  }
}
