/**
 * The sample delay estimate in exact arithmetic: the zero-padded circular correlation is the linear
 * cross-correlation at every lag, and for a channel that is a moved copy of the reference the peak is
 * strictly unique and the reported delay exact.
 */
module Correlation {
  import opened Common

  datatype Complex = Complex(re: real, im: real)

  const ZERO: Complex := Complex(0.0, 0.0)

  function Add(a: Complex, b: Complex): Complex {
    Complex(a.re + b.re, a.im + b.im)
  }

  function Mul(a: Complex, b: Complex): Complex {
    Complex(a.re * b.re - a.im * b.im, a.re * b.im + a.im * b.re)
  }

  function Conj(a: Complex): Complex {
    Complex(a.re, -a.im)
  }

  function Product(u: real, v: real): real {
    u * v
  }

  function Power(a: Complex): real {
    Product(a.re, a.re) + Product(a.im, a.im)
  }

  // ---- correlations ----

  /** Sample `n` of a signal that is zero outside its window. */
  function At(x: seq<Complex>, n: int): Complex {
    if 0 <= n < |x| then x[n] else ZERO
  }

  /** The sum over `lo <= n < hi` of conj(x[n]) * y[n + lag]. */
  function Cross(x: seq<Complex>, y: seq<Complex>, lag: int, lo: int, hi: int): Complex
    requires lo <= hi
    decreases hi - lo
  {
    if lo == hi then ZERO
    else Add(Cross(x, y, lag, lo, hi - 1), Mul(Conj(At(x, hi - 1)), At(y, hi - 1 + lag)))
  }

  /** The linear cross-correlation. */
  function Linear(x: seq<Complex>, y: seq<Complex>, lag: int): Complex {
    Cross(x, y, lag, 0, |x|)
  }

  /** The first `n` terms of the circular correlation, the inverse transform of conj(X) * Y, at shift `k`. */
  function CircularSum(a: seq<Complex>, b: seq<Complex>, k: nat, n: nat): Complex
    requires |a| == |b| && k < |a| && n <= |a|
  {
    if n == 0 then ZERO
    else Add(CircularSum(a, b, k, n - 1), Mul(Conj(a[n - 1]), b[Wrap(n - 1 + k, |b|)]))
  }

  function Circular(a: seq<Complex>, b: seq<Complex>, k: nat): Complex
    requires |a| == |b| && k < |a|
  {
    CircularSum(a, b, k, |a|)
  }

  /** The reference channel is padded behind, the channel to be matched in front. */
  function PadBehind(x: seq<Complex>): seq<Complex> {
    x + Repeat(ZERO, |x|)
  }

  function PadFront(y: seq<Complex>): seq<Complex> {
    Repeat(ZERO, |y|) + y
  }

  lemma {:induction false} CircularPrefix(x: seq<Complex>, y: seq<Complex>, k: nat, n: nat)
    requires |x| == |y| && k < 2 * |x| && n <= 2 * |x|
    ensures CircularSum(PadBehind(x), PadFront(y), k, n) == Cross(x, y, k - |x|, 0, if n <= |x| then n else |x|)
  {
    hide Mul, Add, Conj;
    if n != 0 {
      CircularPrefix(x, y, k, n - 1);
      var a, b := PadBehind(x), PadFront(y);
      if n <= |x| {
        assert a[n - 1] == At(x, n - 1);
        assert b[Wrap(n - 1 + k, 2 * |x|)] == At(y, n - 1 + k - |x|);
      } else {
        assert a[n - 1] == ZERO;
        ZeroTerm(b[Wrap(n - 1 + k, 2 * |x|)], CircularSum(a, b, k, n - 1));
      }
    }
  }

  /** The circular correlation of the padded channels never wraps: entry `k` is the linear correlation at `k - N`. */
  lemma CircularIsLinear(x: seq<Complex>, y: seq<Complex>, k: nat)
    requires |x| == |y| && k < 2 * |x|
    ensures Circular(PadBehind(x), PadFront(y), k) == Linear(x, y, k - |x|)
  {
    hide CircularSum, Cross, PadBehind, PadFront;
    PaddedLength(x, y);
    CircularPrefix(x, y, k, 2 * |x|);
  }

  lemma PaddedLength(x: seq<Complex>, y: seq<Complex>)
    requires |x| == |y|
    ensures |PadBehind(x)| == |PadFront(y)| == 2 * |x|
  {
  }

  // ---- the peak ----

  /** The correlation function of a channel against the reference channel. */
  function CorrFunction(x: seq<Complex>, y: seq<Complex>): (r: seq<real>)
    requires |x| == |y|
    ensures |r| == 2 * |x|
  {
    seq(2 * |x|, k requires 0 <= k < 2 * |x| => Power(Circular(PadBehind(x), PadFront(y), k)))
  }

  /** The first index of the largest of the `n` first values. */
  function ArgMax(f: seq<real>, n: nat): (i: nat)
    requires 0 < n <= |f|
    ensures i < n
    ensures forall j | 0 <= j < n :: f[j] <= f[i]
    ensures forall j | 0 <= j < i :: f[j] < f[i]
  {
    if n == 1 then 0
    else
      var i := ArgMax(f, n - 1);
      if f[i] < f[n - 1] then n - 1 else i
  }

  /** The delay the synchronizer reports for a channel. */
  function Delay(x: seq<Complex>, y: seq<Complex>): int
    requires |x| == |y| > 0
  {
    |x| - ArgMax(CorrFunction(x, y), 2 * |x|)
  }

  // ---- sums over wide windows ----

  lemma {:induction false} CrossOutside(x: seq<Complex>, y: seq<Complex>, lag: int, lo: int, hi: int)
    requires lo <= 0 && |x| <= hi
    ensures Cross(x, y, lag, lo, hi) == Linear(x, y, lag)
    decreases hi - lo
  {
    hide Mul, Add, Conj;
    if hi > |x| {
      CrossOutside(x, y, lag, lo, hi - 1);
      ZeroTerm(At(y, hi - 1 + lag), Cross(x, y, lag, lo, hi - 1));
    } else if lo < 0 {
      CrossFront(x, y, lag, lo, hi);
      CrossOutside(x, y, lag, lo + 1, hi);
      ZeroTerm(At(y, lo + lag), Cross(x, y, lag, lo + 1, hi));
    }
  }

  lemma ZeroTimes(z: real, a: real)
    requires z == 0.0
    ensures z * a == 0.0
  {
  }

  lemma MulZero(z: Complex, a: Complex)
    requires z.re == 0.0 && z.im == 0.0
    ensures Mul(z, a) == ZERO
  {
    ZeroTimes(z.re, a.re);
    ZeroTimes(z.re, a.im);
    ZeroTimes(z.im, a.re);
    ZeroTimes(z.im, a.im);
  }

  lemma AddZero(sum: Complex)
    ensures Add(sum, ZERO) == sum == Add(ZERO, sum)
  {
  }

  lemma ZeroTerm(a: Complex, sum: Complex)
    ensures Add(sum, Mul(Conj(ZERO), a)) == sum && Add(Mul(Conj(ZERO), a), sum) == sum
  {
    hide Mul;
    MulZero(Conj(ZERO), a);
    AddZero(sum);
  }

  lemma {:induction false} CrossFront(x: seq<Complex>, y: seq<Complex>, lag: int, lo: int, hi: int)
    requires lo < hi
    ensures Cross(x, y, lag, lo, hi) ==
            Add(Mul(Conj(At(x, lo)), At(y, lo + lag)), Cross(x, y, lag, lo + 1, hi))
    decreases hi - lo
  {
    if lo + 1 < hi {
      CrossFront(x, y, lag, lo, hi - 1);
    } else {
      assert Cross(x, y, lag, lo, lo) == ZERO;
    }
  }

  /** The sum over `lo <= n < hi` of |x[n + lag]|^2. */
  function Energy(x: seq<Complex>, lag: int, lo: int, hi: int): (e: real)
    requires lo <= hi
    ensures 0.0 <= e
    decreases hi - lo
  {
    if lo == hi then 0.0 else Energy(x, lag, lo, hi - 1) + Power(At(x, hi - 1 + lag))
  }

  lemma {:induction false} EnergyMoves(x: seq<Complex>, lag: int, lo: int, hi: int)
    requires lo <= hi
    ensures Energy(x, lag, lo, hi) == Energy(x, 0, lo + lag, hi + lag)
    decreases hi - lo
  {
    if lo < hi {
      EnergyMoves(x, lag, lo, hi - 1);
    }
  }

  lemma {:induction false} EnergyFront(x: seq<Complex>, lo: int, hi: int)
    requires lo < hi
    ensures Energy(x, 0, lo, hi) == Power(At(x, lo)) + Energy(x, 0, lo + 1, hi)
    decreases hi - lo
  {
    if lo + 1 < hi {
      EnergyFront(x, lo, hi - 1);
    }
  }

  lemma PowerZero()
    ensures Power(ZERO) == 0.0
  {
  }

  lemma {:induction false} EnergyOutside(x: seq<Complex>, lo: int, hi: int)
    requires lo <= 0 && |x| <= hi
    ensures Energy(x, 0, lo, hi) == Energy(x, 0, 0, |x|)
    decreases hi - lo
  {
    hide Power;
    PowerZero();
    if hi > |x| {
      EnergyOutside(x, lo, hi - 1);
    } else if lo < 0 {
      EnergyFront(x, lo, hi);
      EnergyOutside(x, lo + 1, hi);
    }
  }

  /** At lag zero the correlation of a signal with itself is its energy. */
  lemma {:induction false} SelfCorrelation(x: seq<Complex>, n: nat)
    ensures Cross(x, x, 0, 0, n) == Complex(Energy(x, 0, 0, n), 0.0)
  {
    if n != 0 {
      SelfCorrelation(x, n - 1);
    }
  }

  // ---- the autocorrelation of a nonzero signal peaks only at zero ----

  /** |r y - R x|^2, expanded. */
  function Deficit(r: real, big: Complex, x: Complex, y: Complex): real {
    Power(big) * Power(x) + r * r * Power(y) - 2.0 * r * Mul(Conj(big), Mul(Conj(x), y)).re
  }

  /** r y - R x. */
  function Rest(r: real, big: Complex, x: Complex, y: Complex): Complex {
    Complex(r * y.re - (big.re * x.re - big.im * x.im), r * y.im - (big.re * x.im + big.im * x.re))
  }

  lemma DeficitSquares(r: real, a: real, b: real, c: real, d: real, e: real, f: real)
    ensures var u := r * e - (a * c - b * d);
            var v := r * f - (a * d + b * c);
            u * u + v * v ==
            (a * a + b * b) * (c * c + d * d) + r * r * (e * e + f * f)
            - 2.0 * r * (a * (c * e - -d * f) - -b * (c * f + -d * e))
  {
    var p, q := a * c - b * d, a * d + b * c;
    assert p * p + q * q == (a * a + b * b) * (c * c + d * d);
    assert (r * e - p) * (r * e - p) == r * r * (e * e) - 2.0 * r * (e * p) + p * p;
    assert (r * f - q) * (r * f - q) == r * r * (f * f) - 2.0 * r * (f * q) + q * q;
    assert e * p + f * q == a * (c * e - -d * f) - -b * (c * f + -d * e);
  }

  lemma DeficitIsPower(r: real, big: Complex, x: Complex, y: Complex)
    ensures Deficit(r, big, x, y) == Power(Rest(r, big, x, y))
  {
    DeficitSquares(r, big.re, big.im, x.re, x.im, y.re, y.im);
  }

  lemma RestOfZero(r: real, big: Complex, y: Complex)
    requires r > 0.0 && y != ZERO
    ensures Rest(r, big, ZERO, y) != ZERO
  {
    ProductNonZero(r, y.re);
    ProductNonZero(r, y.im);
    assert Rest(r, big, ZERO, y) == Complex(r * y.re, r * y.im);
  }

  lemma ProductNonZero(r: real, a: real)
    requires r > 0.0
    ensures a != 0.0 ==> r * a != 0.0
  {
  }

  lemma SameSigns(u: real, v: real)
    requires (u > 0.0 && v > 0.0) || (u < 0.0 && v < 0.0)
    ensures Product(u, v) > 0.0
  {
  }

  lemma PowerSign(a: Complex)
    ensures Power(a) >= 0.0 && (a != ZERO ==> Power(a) > 0.0)
  {
    hide Product;
    SquareSign(a.re);
    SquareSign(a.im);
  }

  lemma SquareSign(u: real)
    ensures Product(u, u) >= 0.0 && (u != 0.0 ==> Product(u, u) > 0.0)
  {
    if u != 0.0 {
      hide Product;
      SameSigns(u, u);
    }
  }

  lemma DeficitSign(r: real, big: Complex, x: Complex, y: Complex)
    ensures Deficit(r, big, x, y) >= 0.0
    ensures x == ZERO && y != ZERO && r > 0.0 ==> Deficit(r, big, x, y) > 0.0
  {
    hide Deficit, Power, Rest;
    DeficitIsPower(r, big, x, y);
    PowerSign(Rest(r, big, x, y));
    if x == ZERO && y != ZERO && r > 0.0 {
      RestOfZero(r, big, y);
    }
  }

  /** The deficits over a window add up to this. */
  function Total(r: real, big: Complex, e: real, f: real, sum: Complex): real {
    Power(big) * e + r * r * f - 2.0 * r * Mul(Conj(big), sum).re
  }

  lemma DeficitStep(r: real, big: Complex, e: real, f: real, sum: Complex, a: Complex, b: Complex)
    ensures Total(r, big, e + Power(a), f + Power(b), Add(sum, Mul(Conj(a), b))) ==
            Total(r, big, e, f, sum) + Deficit(r, big, a, b)
  {
    var term := Mul(Conj(a), b);
    assert Mul(Conj(big), Add(sum, term)).re == Mul(Conj(big), sum).re + Mul(Conj(big), term).re;
  }

  lemma EmptyTotal(r: real, big: Complex)
    ensures Total(r, big, 0.0, 0.0, ZERO) == 0.0
  {
  }

  predicate OnEdge(x: seq<Complex>, t: int, n: int) {
    At(x, n) == ZERO && At(x, n + t) != ZERO
  }

  lemma {:induction false} DeficitSum(x: seq<Complex>, t: int, r: real, big: Complex, lo: int, hi: int)
    requires lo <= hi
    ensures Total(r, big, Energy(x, 0, lo, hi), Energy(x, t, lo, hi), Cross(x, x, t, lo, hi)) >= 0.0
    ensures r > 0.0 && (exists n | lo <= n < hi :: OnEdge(x, t, n)) ==>
              Total(r, big, Energy(x, 0, lo, hi), Energy(x, t, lo, hi), Cross(x, x, t, lo, hi)) > 0.0
    decreases hi - lo
  {
    hide Total, Deficit, Power, Mul, Add, Conj, At;
    if lo < hi {
      var a, b := At(x, hi - 1), At(x, hi - 1 + t);
      DeficitSum(x, t, r, big, lo, hi - 1);
      DeficitSign(r, big, a, b);
      DeficitStep(r, big, Energy(x, 0, lo, hi - 1), Energy(x, t, lo, hi - 1), Cross(x, x, t, lo, hi - 1), a, b);
    } else {
      EmptyTotal(r, big);
    }
  }

  lemma {:induction false} FirstNonZero(x: seq<Complex>, from: nat) returns (p: nat)
    requires from <= |x|
    requires exists n | from <= n < |x| :: x[n] != ZERO
    ensures from <= p < |x| && x[p] != ZERO && forall n | from <= n < p :: x[n] == ZERO
    decreases |x| - from
  {
    if x[from] != ZERO {
      p := from;
    } else {
      p := FirstNonZero(x, from + 1);
    }
  }

  lemma {:induction false} LastNonZero(x: seq<Complex>, to: nat) returns (q: nat)
    requires to <= |x|
    requires exists n | 0 <= n < to :: x[n] != ZERO
    ensures q < to && x[q] != ZERO && forall n | q < n < to :: x[n] == ZERO
  {
    if x[to - 1] != ZERO {
      q := to - 1;
    } else {
      q := LastNonZero(x, to - 1);
    }
  }

  /** A move by `t` takes some zero sample of the signal onto a nonzero one. */
  lemma EdgeMoves(x: seq<Complex>, t: int) returns (n: int)
    requires t != 0 && exists n | 0 <= n < |x| :: x[n] != ZERO
    ensures OnEdge(x, t, n)
  {
    if t > 0 {
      var p := FirstNonZero(x, 0);
      n := p - t;
    } else {
      var q := LastNonZero(x, |x|);
      n := q - t;
    }
  }

  lemma {:induction false} EnergyPositive(x: seq<Complex>, n: nat, p: nat)
    requires p < n <= |x| && x[p] != ZERO
    ensures Energy(x, 0, 0, n) > 0.0
  {
    hide Power;
    PowerSign(x[n - 1]);
    if p < n - 1 {
      EnergyPositive(x, n - 1, p);
    }
  }

  /** The autocorrelation of a nonzero signal is strictly largest at lag zero. */
  lemma SelfPeakIsStrict(x: seq<Complex>, t: int)
    requires t != 0 && exists n | 0 <= n < |x| :: x[n] != ZERO
    ensures Power(Linear(x, x, t)) < Power(Linear(x, x, 0))
  {
    hide Power, Mul, Add, Cross, Energy, At, Total, OnEdge;
    var n := EdgeMoves(x, t);
    var r := Energy(x, 0, 0, |x|);
    var p := FirstNonZero(x, 0);
    EnergyPositive(x, |x|, p);
    var big := Linear(x, x, t);
    var lo := Min(Min(0, -t), n);
    var hi := Max(Max(|x|, |x| - t), n + 1);
    CrossOutside(x, x, t, lo, hi);
    EnergyOutside(x, lo, hi);
    EnergyMoves(x, t, lo, hi);
    EnergyOutside(x, lo + t, hi + t);
    DeficitSum(x, t, r, big, lo, hi);
    SelfCorrelation(x, |x|);
    StrictBound(big, r);
  }

  lemma StrictBound(big: Complex, r: real)
    requires r > 0.0 && Total(r, big, r, r, big) > 0.0
    ensures Power(big) < Power(Complex(r, 0.0))
  {
    var w := Power(big);
    assert Mul(Conj(big), big).re == w;
    assert w * r + r * r * r - 2.0 * r * w == r * (r * r - w);
    FactorSign(r, r * r - w);
  }

  lemma FactorSign(r: real, d: real)
    requires r > 0.0
    ensures r * d > 0.0 ==> d > 0.0
  {
  }

  // ---- moved copies ----

  /** `y` is `x` moved by `s` samples, and nothing of it leaves the window. */
  ghost predicate Moved(x: seq<Complex>, y: seq<Complex>, s: int) {
    |x| == |y| && forall n: int {:trigger At(y, n)} :: At(y, n) == At(x, n - s)
  }

  lemma {:induction false} CrossMoved(x: seq<Complex>, y: seq<Complex>, s: int, lag: int, lo: int, hi: int)
    requires Moved(x, y, s) && lo <= hi
    ensures Cross(x, y, lag, lo, hi) == Cross(x, x, lag - s, lo, hi)
    decreases hi - lo
  {
    hide Mul, Add;
    if lo < hi {
      CrossMoved(x, y, s, lag, lo, hi - 1);
      assert At(y, hi - 1 + lag) == At(x, hi - 1 + lag - s);
    }
  }

  /** The correlation peak of a moved copy is strictly unique: it stands at its own lag and nowhere else. */
  lemma PeakIsUnique(x: seq<Complex>, y: seq<Complex>, s: int, k: nat)
    requires Moved(x, y, s) && exists n | 0 <= n < |x| :: x[n] != ZERO
    requires k < 2 * |x| && k != |x| + s
    ensures 0 <= |x| + s < 2 * |x|
    ensures CorrFunction(x, y)[k] < CorrFunction(x, y)[|x| + s]
  {
    hide Cross, At, Power, PadBehind, PadFront, CircularSum;
    MoveFits(x, y, s);
    PaddedLength(x, y);
    CircularIsLinear(x, y, k);
    CircularIsLinear(x, y, |x| + s);
    CrossMoved(x, y, s, k - |x|, 0, |x|);
    CrossMoved(x, y, s, s, 0, |x|);
    SelfPeakIsStrict(x, k - |x| - s);
  }

  lemma MoveFits(x: seq<Complex>, y: seq<Complex>, s: int)
    requires Moved(x, y, s) && exists n | 0 <= n < |x| :: x[n] != ZERO
    ensures |x| == |y| && -|x| < s < |x|
  {
    var p := FirstNonZero(x, 0);
    assert At(y, p + s) == At(x, p);
  }

  /** For a nonzero channel moved by `s` inside the window the reported delay is exactly `-s`. */
  lemma DelayIsExact(x: seq<Complex>, y: seq<Complex>, s: int)
    requires Moved(x, y, s) && exists n | 0 <= n < |x| :: x[n] != ZERO
    ensures Delay(x, y) == -s
  {
    hide Moved;
    MoveFits(x, y, s);
    var i := ArgMax(CorrFunction(x, y), 2 * |x|);
    if i != |x| + s {
      PeakIsUnique(x, y, s, i);
    }
  }
}
