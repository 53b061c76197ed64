/**
 * Native packing of records, as a C compiler lays them out and Python's `struct` module packs them:
 * little-endian unsigned numbers of four and eight bytes, each at a multiple of its size, and byte strings.
 */
module StructCodec {
  import opened Common

  /** An item of a format: `U32` is "I", `U64` is "Q", `Text(n)` is "ns". */
  datatype Item = U32 | U64 | Text(n: nat)

  datatype Value = Num(v: nat) | Bytes(b: seq<uint8>)

  function Size(item: Item): nat {
    match item
    case U32 => 4
    case U64 => 8
    case Text(n) => n
  }

  function Alignment(item: Item): (n: nat)
    ensures n in {1, 4, 8}
  {
    match item
    case U32 => 4
    case U64 => 8
    case Text(_) => 1
  }

  /** The bytes skipped before an item that would start at `at`. */
  function Padding(item: Item, at: nat): (n: nat)
    ensures n < 8 && (at + n) % Alignment(item) == 0
  {
    match item
    case U32 => UpTo(at, 4)
    case U64 => UpTo(at, 8)
    case Text(_) => 0
  }

  /** The distance to the next multiple. */
  function UpTo(at: nat, unit: nat): (n: nat)
    requires 0 < unit
    ensures n < unit && (at + n) % unit == 0
  {
    if at % unit == 0 then 0
    else
      NextMultiple(at, unit);
      unit - at % unit
  }

  lemma NextMultiple(at: nat, unit: nat)
    requires 0 < unit
    ensures (at + (unit - at % unit)) % unit == 0
  {
    var q := at / unit;
    assert at == q * unit + at % unit;
    assert (q + 1) * unit == q * unit + unit;
    DivModUnique(at + (unit - at % unit), q + 1, 0, unit);
  }

  /** Where the first `n` items end. */
  function End(format: seq<Item>, n: nat): nat
    requires n <= |format|
    decreases n, 0
  {
    if n == 0 then 0 else Start(format, n - 1) + Size(format[n - 1])
  }

  /** Where item `i` starts. */
  function Start(format: seq<Item>, i: nat): nat
    requires i < |format|
    decreases i, 1
  {
    End(format, i) + Padding(format[i], End(format, i))
  }

  // ---- numbers ----

  /** `v` in `n` bytes, the lowest first. */
  function ToBytes(v: nat, n: nat): (r: seq<uint8>)
    ensures |r| == n
  {
    if n == 0 then [] else [(v % 256) as uint8] + ToBytes(v / 256, n - 1)
  }

  function ToNumber(b: seq<uint8>): nat {
    if b == [] then 0 else b[0] as nat + 256 * ToNumber(b[1..])
  }

  function Limit(n: nat): nat {
    if n == 0 then 1 else 256 * Limit(n - 1)
  }

  lemma {:induction false} NumberBack(v: nat, n: nat)
    requires v < Limit(n)
    ensures ToNumber(ToBytes(v, n)) == v
  {
    if n != 0 {
      NumberBack(v / 256, n - 1);
      assert ToBytes(v, n)[1..] == ToBytes(v / 256, n - 1);
    }
  }

  lemma {:induction false} BytesBack(b: seq<uint8>)
    ensures ToNumber(b) < Limit(|b|) && ToBytes(ToNumber(b), |b|) == b
  {
    if b != [] {
      BytesBack(b[1..]);
      LowByte(b[0] as nat, ToNumber(b[1..]));
      assert b == [b[0]] + b[1..];
      assert |b| - 1 == |b[1..]|;
    }
  }

  lemma LowByte(low: nat, high: nat)
    requires low < 256
    ensures (low + 256 * high) % 256 == low && (low + 256 * high) / 256 == high
  {
  }

  // ---- values ----

  /** Values that packing accepts: numbers in range, texts of exactly the item's length. */
  predicate Fits(item: Item, value: Value) {
    match item
    case Text(n) => value.Bytes? && |value.b| == n
    case _ => value.Num? && value.v < Limit(Size(item))
  }

  ghost predicate AllFit(format: seq<Item>, values: seq<Value>) {
    |format| == |values| && forall i | 0 <= i < |format| :: Fits(format[i], values[i])
  }

  function PackOne(item: Item, value: Value): (r: seq<uint8>)
    requires Fits(item, value)
    ensures |r| == Size(item)
  {
    match value
    case Num(v) => ToBytes(v, Size(item))
    case Bytes(b) => b
  }

  function UnpackOne(item: Item, b: seq<uint8>): (v: Value)
    requires |b| == Size(item)
  {
    if item.Text? then Bytes(b) else Num(ToNumber(b))
  }

  lemma OneBack(item: Item, value: Value)
    requires Fits(item, value)
    ensures UnpackOne(item, PackOne(item, value)) == value
  {
    if value.Num? {
      NumberBack(value.v, Size(item));
    }
  }

  lemma OneForth(item: Item, b: seq<uint8>)
    requires |b| == Size(item)
    ensures Fits(item, UnpackOne(item, b)) && PackOne(item, UnpackOne(item, b)) == b
  {
    BytesBack(b);
  }

  // ---- records ----

  /** The first `n` items of a record, with zeros in the gaps. */
  function Pack(format: seq<Item>, values: seq<Value>, n: nat): (r: seq<uint8>)
    requires AllFit(format, values) && n <= |format|
    ensures |r| == End(format, n)
  {
    if n == 0 then []
    else
      Pack(format, values, n - 1) + Repeat(0, Padding(format[n - 1], End(format, n - 1)))
      + PackOne(format[n - 1], values[n - 1])
  }

  function Unpack(format: seq<Item>, b: seq<uint8>): (values: seq<Value>)
    requires |b| == End(format, |format|)
    ensures |values| == |format|
  {
    seq(|format|, i requires 0 <= i < |format| => (ItemsInside(format, i); UnpackOne(format[i], Part(format, b, i))))
  }

  lemma {:induction false} EndGrows(format: seq<Item>, m: nat, n: nat)
    requires m <= n <= |format|
    ensures End(format, m) <= End(format, n)
  {
    if m < n {
      EndGrows(format, m, n - 1);
    }
  }

  lemma ItemsInside(format: seq<Item>, i: nat)
    requires i < |format|
    ensures Start(format, i) + Size(format[i]) == End(format, i + 1) <= End(format, |format|)
  {
    EndGrows(format, i + 1, |format|);
  }

  /** The bytes of item `i`. */
  function Part(format: seq<Item>, b: seq<uint8>, i: nat): (r: seq<uint8>)
    requires i < |format| && Start(format, i) + Size(format[i]) <= |b|
    ensures |r| == Size(format[i])
  {
    b[Start(format, i)..Start(format, i) + Size(format[i])]
  }

  lemma PackLast(format: seq<Item>, values: seq<Value>, n: nat)
    requires AllFit(format, values) && 0 < n <= |format|
    ensures Pack(format, values, n) ==
            Pack(format, values, n - 1) + Repeat(0, Padding(format[n - 1], End(format, n - 1)))
            + PackOne(format[n - 1], values[n - 1])
  {
  }

  /** A packed record holds each value where its item starts. */
  lemma {:induction false} PackedAt(format: seq<Item>, values: seq<Value>, n: nat, i: nat)
    requires AllFit(format, values) && i < n <= |format|
    ensures Start(format, i) + Size(format[i]) <= End(format, n)
    ensures Part(format, Pack(format, values, n), i) == PackOne(format[i], values[i])
  {
    hide PackOne, Padding, Pack, Fits;
    EndGrows(format, i + 1, n);
    PackLast(format, values, n);
    if i < n - 1 {
      EndGrows(format, i + 1, n - 1);
      PackedAt(format, values, n - 1, i);
      var before := Pack(format, values, n - 1);
      assert Pack(format, values, n)[..|before|] == before;
      assert Part(format, Pack(format, values, n), i) == Part(format, before, i);
    }
  }

  /** Unpacking a packed record gives its values back. */
  lemma UnpackPack(format: seq<Item>, values: seq<Value>)
    requires AllFit(format, values)
    ensures Unpack(format, Pack(format, values, |format|)) == values
  {
    hide PackOne, UnpackOne, Part, Pack, Start;
    var b := Pack(format, values, |format|);
    forall i | 0 <= i < |format|
      ensures Unpack(format, b)[i] == values[i]
    {
      ItemsInside(format, i);
      PackedAt(format, values, |format|, i);
      OneBack(format[i], values[i]);
    }
  }

  /** A position that belongs to no item. */
  ghost predicate IsGap(format: seq<Item>, k: nat) {
    forall i | 0 <= i < |format| :: !(Start(format, i) <= k < Start(format, i) + Size(format[i]))
  }

  lemma UnpackedFit(format: seq<Item>, b: seq<uint8>)
    requires |b| == End(format, |format|)
    ensures AllFit(format, Unpack(format, b))
  {
    hide PackOne, UnpackOne, Part, Start, Fits;
    forall i | 0 <= i < |format|
      ensures Fits(format[i], Unpack(format, b)[i])
    {
      ItemsInside(format, i);
      OneForth(format[i], Part(format, b, i));
    }
  }

  lemma {:induction false} PackUnpackUpTo(format: seq<Item>, b: seq<uint8>, n: nat, k: nat)
    requires |b| == End(format, |format|) && n <= |format| && k < End(format, n) <= |b|
    ensures AllFit(format, Unpack(format, b))
    ensures Pack(format, Unpack(format, b), n)[k] == if IsGap(format, k) then 0 else b[k]
  {
    hide PackOne, UnpackOne, Padding, Fits, Pack, IsGap;
    UnpackedFit(format, b);
    var values := Unpack(format, b);
    if n != 0 {
      PackLast(format, values, n);
      var i := n - 1;
      ItemsInside(format, i);
      if k < End(format, i) {
        PackUnpackUpTo(format, b, i, k);
      } else if k < Start(format, i) {
        BeforeItem(format, i, k);
      } else {
        OneForth(format[i], Part(format, b, i));
        assert Pack(format, values, n)[k] == PackOne(format[i], values[i])[k - Start(format, i)];
        InItem(format, i, k);
      }
    }
  }

  lemma BeforeItem(format: seq<Item>, i: nat, k: nat)
    requires i < |format| && End(format, i) <= k < Start(format, i)
    ensures IsGap(format, k)
  {
    forall j | 0 <= j < |format|
      ensures !(Start(format, j) <= k < Start(format, j) + Size(format[j]))
    {
      if j < i {
        EndGrows(format, j + 1, i);
      } else {
        StartGrows(format, i, j);
      }
    }
  }

  lemma InItem(format: seq<Item>, i: nat, k: nat)
    requires i < |format| && Start(format, i) <= k < Start(format, i) + Size(format[i])
    ensures !IsGap(format, k)
  {
  }

  lemma StartGrows(format: seq<Item>, i: nat, j: nat)
    requires i <= j < |format|
    ensures Start(format, i) <= Start(format, j)
  {
    if i < j {
      EndGrows(format, i + 1, j);
    }
  }

  /** Packing what was unpacked gives the bytes back, with the gaps zeroed. */
  lemma PackUnpack(format: seq<Item>, b: seq<uint8>, k: nat)
    requires |b| == End(format, |format|) && k < |b|
    ensures AllFit(format, Unpack(format, b))
    ensures Pack(format, Unpack(format, b), |format|)[k] == if IsGap(format, k) then 0 else b[k]
  {
    PackUnpackUpTo(format, b, |format|, k);
  }

  // ---- records packed in pieces ----

  /** A piece may start here without moving its items apart. */
  predicate MayStart(at: nat, piece: seq<Item>) {
    at % 8 == 0 || (at % 4 == 0 && U64 !in piece)
  }

  lemma PaddingMoves(item: Item, at: nat, x: nat)
    requires at % 8 == 0 || (at % 4 == 0 && item != U64)
    ensures Padding(item, at + x) == Padding(item, x)
  {
    ModuloMoves(at, x, 4);
    if item == U64 {
      ModuloMoves(at, x, 8);
    }
  }

  lemma ModuloMoves(at: nat, x: nat, m: nat)
    requires m in {4, 8} && at % m == 0
    ensures (at + x) % m == x % m
  {
    ModAddLeft(at, x, m);
  }

  lemma {:induction false} EndsMove(a: seq<Item>, b: seq<Item>, n: nat)
    requires n <= |b| && MayStart(End(a, |a|), b)
    ensures End(a + b, |a| + n) == End(a, |a|) + End(b, n)
  {
    hide Padding;
    if n == 0 {
      SamePrefix(a, b, |a|);
    } else {
      EndsMove(a, b, n - 1);
      assert (a + b)[|a| + n - 1] == b[n - 1];
      PaddingMoves(b[n - 1], End(a, |a|), End(b, n - 1));
    }
  }

  lemma {:induction false} SamePrefix(a: seq<Item>, b: seq<Item>, n: nat)
    requires n <= |a|
    ensures End(a + b, n) == End(a, n)
  {
    if n != 0 {
      SamePrefix(a, b, n - 1);
      assert (a + b)[n - 1] == a[n - 1];
    }
  }

  lemma {:induction false} SamePrefixPack(a: seq<Item>, b: seq<Item>, v: seq<Value>, w: seq<Value>, n: nat)
    requires AllFit(a, v) && AllFit(b, w) && n <= |a|
    ensures AllFit(a + b, v + w)
    ensures Pack(a + b, v + w, n) == Pack(a, v, n)
  {
    hide Padding, PackOne;
    if n != 0 {
      SamePrefixPack(a, b, v, w, n - 1);
      SamePrefix(a, b, n - 1);
      assert (a + b)[n - 1] == a[n - 1] && (v + w)[n - 1] == v[n - 1];
    }
  }

  lemma Regroup<T>(a: seq<T>, b: seq<T>, c: seq<T>, d: seq<T>)
    ensures (a + b) + c + d == a + (b + c + d)
  {
  }

  lemma FitTogether(a: seq<Item>, b: seq<Item>, v: seq<Value>, w: seq<Value>)
    requires AllFit(a, v) && AllFit(b, w)
    ensures AllFit(a + b, v + w)
  {
  }

  /** Packing in pieces is packing the whole, if every piece starts well. */
  lemma {:induction false} PackPieces(a: seq<Item>, b: seq<Item>, v: seq<Value>, w: seq<Value>, n: nat)
    requires AllFit(a, v) && AllFit(b, w) && n <= |b| && MayStart(End(a, |a|), b)
    ensures AllFit(a + b, v + w)
    ensures Pack(a + b, v + w, |a| + n) == Pack(a, v, |a|) + Pack(b, w, n)
  {
    hide Pack, End, Padding, PackOne, Fits, AllFit, Repeat;
    FitTogether(a, b, v, w);
    if n == 0 {
      SamePrefixPack(a, b, v, w, |a|);
      PackNone(b, w);
      assert Pack(a, v, |a|) + [] == Pack(a, v, |a|);
    } else {
      PackPieces(a, b, v, w, n - 1);
      EndsMove(a, b, n - 1);
      LengthsAgree(a, v);
      LengthsAgree(b, w);
      var item, value, gap := b[n - 1], w[n - 1], Padding(b[n - 1], End(b, n - 1));
      assert (a + b)[|a| + n - 1] == item && (v + w)[|a| + n - 1] == value;
      PaddingMoves(item, End(a, |a|), End(b, n - 1));
      PackLast(a + b, v + w, |a| + n);
      PackLast(b, w, n);
      Regroup(Pack(a, v, |a|), Pack(b, w, n - 1), Repeat(0, gap), PackOne(item, value));
    }
  }

  lemma PackNone(format: seq<Item>, values: seq<Value>)
    requires AllFit(format, values)
    ensures Pack(format, values, 0) == []
  {
  }

  lemma LengthsAgree(format: seq<Item>, values: seq<Value>)
    requires AllFit(format, values)
    ensures |format| == |values| && forall i | 0 <= i < |format| :: Fits(format[i], values[i])
  {
  }
}
