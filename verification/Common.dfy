/** Small definitions shared by the models of the DAQ chain. */
module Common {

  datatype Option<+T> = None | Some(value: T)

  /** One byte of a sample stream or of a frame header. */
  newtype uint8 = x: int | 0 <= x < 256

  function Min(a: int, b: int): int {
    if a <= b then a else b
  }

  function Max(a: int, b: int): int {
    if a >= b then a else b
  }

  /** The sequence of `n` copies of `x`. */
  function Repeat<T>(x: T, n: nat): (r: seq<T>)
    ensures |r| == n
    ensures forall i | 0 <= i < n :: r[i] == x
  {
    seq(n, _ => x)
  }

  /** Position `x` of a ring of `cap` cells, for an `x` at most one lap ahead. */
  function Wrap(x: int, cap: int): int {
    if x < cap then x else x - cap
  }

  lemma ModOnce(base: nat, i: nat, cap: nat)
    requires base < cap && i <= cap
    ensures (base + i) % cap == Wrap(base + i, cap)
  {
  }

  lemma ModAddLeft(a: int, b: int, cap: nat)
    requires 0 < cap
    ensures (a % cap + b) % cap == (a + b) % cap
  {
    var q := a / cap;
    assert a == q * cap + a % cap;
    ModShift(a % cap + b, q, cap);
    assert a + b == (a % cap + b) + q * cap;
  }

  /** Adding whole laps does not change a ring position. */
  lemma ModShift(a: int, q: int, cap: nat)
    requires 0 < cap
    ensures (a + q * cap) % cap == a % cap
  {
    var d := a / cap;
    var r := a % cap;
    assert a == d * cap + r;
    assert a + q * cap == (d + q) * cap + r by {
      assert (d + q) * cap == d * cap + q * cap;
    }
    DivModUnique(a + q * cap, d + q, r, cap);
  }

  lemma DivModUnique(a: int, q: int, r: int, cap: nat)
    requires 0 <= r < cap
    requires a == q * cap + r
    ensures a / cap == q
    ensures a % cap == r
  {
    var q', r' := a / cap, a % cap;
    assert (q - q') * cap == r' - r by {
      assert a == q' * cap + r';
      assert (q - q') * cap == q * cap - q' * cap;
    }
    if q > q' {
      MulGe(q - q', cap);
    } else if q < q' {
      MulGe(q' - q, cap);
    }
  }

  lemma ModSmall(a: nat, cap: nat)
    requires a < cap
    ensures a % cap == a
  {
  }

  lemma MulGe(k: int, cap: nat)
    requires 1 <= k
    ensures k * cap >= cap
    ensures (-k) * cap + cap <= 0
  {
  }

  lemma MulLe(a: int, b: int, x: nat)
    requires a <= b
    ensures a * x <= b * x
  {
  }

  /** `k` copies of `x` added up: the product, in the form an induction on `k` needs. */
  function Times(k: nat, x: nat): nat {
    if k == 0 then 0 else Times(k - 1, x) + x
  }

  lemma TimesIsProduct(k: nat, x: nat)
    ensures Times(k, x) == k * x
  {
  }

  lemma BlockFits(m: nat, n: nat, size: nat)
    requires m < n
    ensures Times(m, size) + size == Times(m + 1, size) <= Times(n, size)
  {
    if m + 1 < n {
      BlockFits(m, n - 1, size);
    }
  }

  /** Block `m` of a payload, when the blocks have `size` values each. */
  function BlockAt<T>(payload: seq<T>, m: nat, size: nat): (r: seq<T>)
    requires Times(m + 1, size) <= |payload|
    ensures |r| == size
  {
    payload[Times(m, size)..Times(m, size) + size]
  }

  lemma {:induction false} TimesDouble(k: nat, x: nat)
    ensures Times(k, 2 * x) == 2 * Times(k, x)
  {
    if k != 0 {
      TimesDouble(k - 1, x);
    }
  }

  /** Bit `k` of a flag word. */
  predicate Bit(w: nat, k: nat) {
    if k == 0 then w % 2 == 1 else Bit(w / 2, k - 1)
  }
}
