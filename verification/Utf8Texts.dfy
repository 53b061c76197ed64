/**
 * What the decoder of the IQ header takes for a text: exactly the UTF-8 encodings of sequences of Unicode scalar values
 * (section 3 of RFC 3629); and what it stores when it fails.
 */
module Utf8Texts {
  import opened Common
  import opened IqHeaders
  import opened StructCodec
  import opened HeaderCodec
  import HeaderLayout

  predicate IsScalar(cp: nat) {
    cp < 0x11_0000 && !(0xD800 <= cp < 0xE000)
  }

  /** The encoding of one character. */
  function Utf8(cp: nat): (b: seq<uint8>)
    requires IsScalar(cp)
    ensures 1 <= |b| <= 4
  {
    if cp < 0x80 then [cp as uint8]
    else if cp < 0x800 then [(0xC0 + cp / 0x40) as uint8, (0x80 + cp % 0x40) as uint8]
    else if cp < 0x1_0000 then
      [(0xE0 + cp / 0x1000) as uint8, (0x80 + cp / 0x40 % 0x40) as uint8, (0x80 + cp % 0x40) as uint8]
    else
      [(0xF0 + cp / 0x4_0000) as uint8, (0x80 + cp / 0x1000 % 0x40) as uint8, (0x80 + cp / 0x40 % 0x40) as uint8,
       (0x80 + cp % 0x40) as uint8]
  }

  ghost predicate AllScalar(cps: seq<nat>) {
    forall i | 0 <= i < |cps| :: IsScalar(cps[i])
  }

  function Utf8All(cps: seq<nat>): seq<uint8>
    requires AllScalar(cps)
  {
    if cps == [] then [] else Utf8(cps[0]) + Utf8All(cps[1..])
  }

  /** An encoded character is recognised, whatever follows it. */
  lemma ScalarIsCharacter(cp: nat, rest: seq<uint8>)
    requires IsScalar(cp)
    ensures CharLength(Utf8(cp) + rest) == |Utf8(cp)|
  {
    var b := Utf8(cp) + rest;
    assert forall k | 0 <= k < |Utf8(cp)| :: b[k] == Utf8(cp)[k];
  }

  /** The digits of a number to the base 64. */
  lemma TwoDigits(x: nat, y: nat)
    requires y < 0x40
    ensures (x * 0x40 + y) / 0x40 == x && (x * 0x40 + y) % 0x40 == y
  {
  }

  lemma TwoBytes(x: nat, y: nat)
    requires 2 <= x < 0x20 && y < 0x40
    ensures IsScalar(x * 0x40 + y) && Utf8(x * 0x40 + y) == [(0xC0 + x) as uint8, (0x80 + y) as uint8]
  {
    TwoDigits(x, y);
  }

  lemma ThreeBytes(x: nat, y: nat, z: nat)
    requires x < 0x10 && y < 0x40 && z < 0x40 && (x == 0 ==> 0x20 <= y) && (x == 0xD ==> y < 0x20)
    ensures var cp := (x * 0x40 + y) * 0x40 + z;
            IsScalar(cp) && Utf8(cp) == [(0xE0 + x) as uint8, (0x80 + y) as uint8, (0x80 + z) as uint8]
  {
    TwoDigits(x * 0x40 + y, z);
    TwoDigits(x, y);
    var cp := (x * 0x40 + y) * 0x40 + z;
    assert cp / 0x1000 == x;
  }

  lemma FourBytes(x: nat, y: nat, z: nat, w: nat)
    requires x < 5 && y < 0x40 && z < 0x40 && w < 0x40 && (x == 0 ==> 0x10 <= y) && (x == 4 ==> y < 0x10)
    ensures var cp := ((x * 0x40 + y) * 0x40 + z) * 0x40 + w;
            && IsScalar(cp)
            && Utf8(cp) == [(0xF0 + x) as uint8, (0x80 + y) as uint8, (0x80 + z) as uint8, (0x80 + w) as uint8]
  {
    TwoDigits((x * 0x40 + y) * 0x40 + z, w);
    TwoDigits(x * 0x40 + y, z);
    TwoDigits(x, y);
    var cp := ((x * 0x40 + y) * 0x40 + z) * 0x40 + w;
    assert cp / 0x1000 == x * 0x40 + y;
    assert cp / 0x4_0000 == x;
  }

  /** What is recognised is an encoded character. */
  lemma CharacterIsScalar(b: seq<uint8>) returns (cp: nat)
    requires CharLength(b) != 0
    ensures IsScalar(cp) && Utf8(cp) == b[..CharLength(b)]
  {
    hide Utf8;
    var n := CharLength(b);
    if n == 1 {
      cp := b[0] as nat;
      OneByte(b[0]);
    } else if n == 2 {
      var x, y := b[0] as nat - 0xC0, b[1] as nat - 0x80;
      TwoBytes(x, y);
      cp := x * 0x40 + y;
    } else if n == 3 {
      var x, y, z := b[0] as nat - 0xE0, b[1] as nat - 0x80, b[2] as nat - 0x80;
      ThreeBytes(x, y, z);
      cp := (x * 0x40 + y) * 0x40 + z;
    } else {
      var x, y, z, w := b[0] as nat - 0xF0, b[1] as nat - 0x80, b[2] as nat - 0x80, b[3] as nat - 0x80;
      FourBytes(x, y, z, w);
      cp := ((x * 0x40 + y) * 0x40 + z) * 0x40 + w;
    }
  }

  lemma OneByte(x: uint8)
    requires x < 0x80
    ensures IsScalar(x as nat) && Utf8(x as nat) == [x]
  {
  }

  lemma {:induction false} EncodedIsText(cps: seq<nat>)
    requires AllScalar(cps)
    ensures IsText(Utf8All(cps))
  {
    hide Utf8, CharLength;
    if cps != [] {
      var b := Utf8All(cps);
      ScalarIsCharacter(cps[0], Utf8All(cps[1..]));
      assert b[|Utf8(cps[0])|..] == Utf8All(cps[1..]);
      EncodedIsText(cps[1..]);
    }
  }

  lemma {:induction false} TextIsEncoded(b: seq<uint8>) returns (cps: seq<nat>)
    requires IsText(b)
    ensures AllScalar(cps) && Utf8All(cps) == b
    decreases |b|
  {
    hide Utf8, CharLength;
    if b == [] {
      cps := [];
    } else {
      var n := CharLength(b);
      var cp := CharacterIsScalar(b);
      var rest := TextIsEncoded(b[n..]);
      cps := [cp] + rest;
      assert cps[1..] == rest;
      assert b[..n] + b[n..] == b;
    }
  }

  /** A hardware id is accepted if and only if it is the encoding of some characters. */
  lemma TextsAreUtf8(b: seq<uint8>)
    ensures IsText(b) <==> exists cps :: AllScalar(cps) && Utf8All(cps) == b
  {
    hide IsText, Utf8All, AllScalar;
    if IsText(b) {
      var cps := TextIsEncoded(b);
      assert AllScalar(cps) && Utf8All(cps) == b;
    } else if cps :| AllScalar(cps) && Utf8All(cps) == b {
      EncodedIsText(cps);
      assert false;
    }
  }

  // ---- failed decoding ----

  /** The number in these bytes, the least significant first. */
  function Number4(b: seq<uint8>, at: nat): nat
    requires at + 4 <= |b|
  {
    b[at] as nat + 0x100 * b[at + 1] as nat + 0x1_0000 * b[at + 2] as nat + 0x100_0000 * b[at + 3] as nat
  }

  lemma Number4Is(b: seq<uint8>, at: nat)
    requires at + 4 <= |b|
    ensures ToNumber(b[at..at + 4]) == Number4(b, at)
  {
    var w := b[at..at + 4];
    var w1, w2, w3 := w[1..], w[1..][1..], w[1..][1..][1..];
    assert w3[1..] == [] && w3 == [b[at + 3]];
    assert ToNumber(w3) == b[at + 3] as nat;
    assert ToNumber(w2) == b[at + 2] as nat + 0x100 * ToNumber(w3);
    assert ToNumber(w1) == b[at + 1] as nat + 0x100 * ToNumber(w2);
  }

  lemma FirstWords(b: seq<uint8>)
    requires |b| == End(Format(), |Format()|) && 8 <= |b|
    ensures var v := Unpack(Format(), b);
            NumAt(v, 0) == Number4(b, 0) && NumAt(v, 1) == Number4(b, 4)
  {
    hide ToNumber, End, Unpack;
    LeadStart(0);
    LeadStart(1);
    HeaderLayout.LeadStarts();
    Number4Is(b, 0);
    Number4Is(b, 4);
    UnpackedFirst(b, 0, 0);
    UnpackedFirst(b, 1, 4);
  }

  lemma UnpackedFirst(b: seq<uint8>, i: nat, at: nat)
    requires |b| == End(Format(), |Format()|) && i < 2 && at + 4 <= |b| && Start(Format(), i) == at
    requires Format()[i] == U32
    ensures NumAt(Unpack(Format(), b), i) == ToNumber(b[at..at + 4])
  {
    hide ToNumber, End, Format;
  }

  /**
   * Decoding fails exactly on bytes of another length than the header's, where it stores nothing, and on a hardware id
   * that is no text, where it has stored the first two fields and nothing else.
   */
  lemma DecodeFailsExactly(fields: IqHeader, b: seq<uint8>)
    ensures var (h, ok) := Decode(fields, b);
            && (ok <==> |b| == 1024 && exists cps :: AllScalar(cps) && Utf8All(cps) == b[8..24])
            && (|b| != 1024 ==> h == fields)
            && (|b| == 1024 && !ok ==> h == fields.(syncWord := Number4(b, 0), frameType := Number4(b, 4)))
  {
    hide IsText, Unpack, FromValues, Utf8All, AllScalar, Format;
    if |b| == 1024 {
      TextsAreUtf8(b[8..24]);
      FormatEnds(WORDS);
      FirstWords(b);
    }
  }
}
