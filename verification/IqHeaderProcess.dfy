/** The Python header object: fields that decoding stores and encoding appends byte by byte. */
module IqHeaderProcess {
  import opened Common
  import opened IqHeaders
  import opened StructCodec
  import opened HeaderCodec

  class IQHeader {
    var fields: IqHeader

    constructor (h: IqHeader)
      ensures fields == h
    {
      fields := h;
    }

    /** The bytes of the header, or nothing if packing raises an error. */
    method EncodeHeader() returns (b: Option<seq<uint8>>)
      ensures b == if Encodable(fields) then Some(Encode(fields)) else None
    {
      hide Pack, Fits, IsWord, IsLong, WordBytes, Limit;
      if !Encodable(fields) {
        return None;
      }
      PiecesFit(fields);
      var bytes := Pack(HEAD, HeadValues(fields), 2);
      bytes := bytes + PaddedId(fields);
      bytes := bytes + Pack(FIELDS, FieldValues(fields), 14);
      ghost var lead := bytes;
      bytes := AppendGains(bytes);
      bytes := AppendTail(bytes, lead, fields.ifGains[..GAINS]);
      b := Some(bytes);
    }

    method AppendGains(lead: seq<uint8>) returns (bytes: seq<uint8>)
      requires GAINS <= |fields.ifGains|
      ensures bytes == lead + WordBytes(fields.ifGains[..GAINS])
    {
      bytes := lead;
      for m := 0 to GAINS
        invariant bytes == lead + WordBytes(fields.ifGains[..m])
      {
        WordAppends(lead, fields.ifGains[..m], fields.ifGains[m]);
        assert fields.ifGains[..m + 1] == fields.ifGains[..m] + [fields.ifGains[m]];
        bytes := bytes + ToBytes(fields.ifGains[m], 4);
      }
    }

    method AppendTail(start: seq<uint8>, ghost lead: seq<uint8>, ghost gains: seq<nat>) returns (bytes: seq<uint8>)
      requires start == lead + WordBytes(gains)
      ensures bytes == lead + WordBytes(gains + [fields.delaySyncFlag, fields.iqSyncFlag, fields.syncState,
                                                 fields.noiseSourceState]
                                        + Repeat(0, RESERVED_WORDS) + [fields.headerVersion])
    {
      hide WordBytes, ToBytes;
      ghost var words := gains;
      bytes := start + ToBytes(fields.delaySyncFlag, 4);
      WordAppends(lead, words, fields.delaySyncFlag);
      words := words + [fields.delaySyncFlag];
      bytes := bytes + ToBytes(fields.iqSyncFlag, 4);
      WordAppends(lead, words, fields.iqSyncFlag);
      words := words + [fields.iqSyncFlag];
      bytes := bytes + ToBytes(fields.syncState, 4);
      WordAppends(lead, words, fields.syncState);
      words := words + [fields.syncState];
      bytes := bytes + ToBytes(fields.noiseSourceState, 4);
      WordAppends(lead, words, fields.noiseSourceState);
      words := words + [fields.noiseSourceState];
      assert words == gains + [fields.delaySyncFlag, fields.iqSyncFlag, fields.syncState, fields.noiseSourceState];
      assert words + Repeat(0, 0) == words;
      for m := 0 to RESERVED_WORDS
        invariant bytes == lead + WordBytes(words + Repeat(0, m))
      {
        WordAppends(lead, words + Repeat(0, m), 0);
        assert words + Repeat(0, m) + [0] == words + Repeat(0, m + 1);
        bytes := bytes + ToBytes(0, 4);
      }
      WordAppends(lead, words + Repeat(0, RESERVED_WORDS), fields.headerVersion);
      bytes := bytes + ToBytes(fields.headerVersion, 4);
    }

    /** Stores the decoded fields; false if decoding raises an error. */
    method DecodeHeader(b: seq<uint8>) returns (ok: bool)
      modifies this
      ensures (fields, ok) == Decode(old(fields), b)
    {
      if |b| != HEADER_SIZE {
        return false;
      }
      FormatEnds(WORDS);
      var values := Unpack(Format(), b);
      fields := fields.(syncWord := NumAt(values, 0), frameType := NumAt(values, 1));
      if !IsText(b[8..24]) {
        return false;
      }
      fields := FromValues(values, b[8..24]);
      ok := true;
    }

    method CheckSyncWord() returns (r: int)
      ensures r == 0 <==> fields.syncWord == SYNC_WORD
      ensures r in {0, -1}
    {
      r := if fields.syncWord != SYNC_WORD then -1 else 0;
    }
  }

  lemma WordAppends(lead: seq<uint8>, words: seq<nat>, w: nat)
    ensures lead + WordBytes(words) + ToBytes(w, 4) == lead + WordBytes(words + [w])
  {
    assert (words + [w])[..|words|] == words;
  }
}
