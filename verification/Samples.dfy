// Sample blocks as sequences of reals: inner products, energy, and the
// Cauchy-Schwarz inequality with its equality case. Also Python's `round`.
module Samples {

  datatype Option<T> = None | Some(value: T)

  function Times(x: real, y: real): real {
    x * y
  }

  function Dot(a: seq<real>, b: seq<real>): real
    requires |a| == |b|
  {
    if a == [] then 0.0
    else Dot(a[..|a| - 1], b[..|b| - 1]) + Times(a[|a| - 1], b[|b| - 1])
  }

  function Energy(a: seq<real>): real {
    Dot(a, a)
  }

  /** y - c * x */
  function Rest(x: real, y: real, c: real): real {
    y - c * x
  }

  /** b - c * a */
  function Residual(a: seq<real>, b: seq<real>, c: real): (r: seq<real>)
    requires |a| == |b|
    ensures |r| == |a| && forall i :: 0 <= i < |a| ==> r[i] == Rest(a[i], b[i], c)
  {
    seq(|a|, i requires 0 <= i < |a| => Rest(a[i], b[i], c))
  }

  /** b is c times a. */
  ghost predicate IsMultiple(a: seq<real>, b: seq<real>, c: real) {
    |a| == |b| && forall i :: 0 <= i < |a| ==> Rest(a[i], b[i], c) == 0.0
  }

  ghost predicate PositiveMultiple(a: seq<real>, b: seq<real>) {
    exists c: real :: c > 0.0 && IsMultiple(a, b, c)
  }

  lemma PositiveTimes(x: real, y: real)
    requires x > 0.0 && y > 0.0
    ensures Times(x, y) > 0.0
  {
  }

  lemma SquareSign(x: real)
    ensures Times(x, x) >= 0.0
    ensures Times(x, x) == 0.0 <==> x == 0.0
  {
    if x > 0.0 {
      PositiveTimes(x, x);
      hide Times;
    } else if x < 0.0 {
      PositiveTimes(-x, -x);
      assert Times(x, x) == Times(-x, -x);
      hide Times;
    } else {
      assert Times(0.0, 0.0) == 0.0;
    }
  }

  lemma {:induction false} EnergyNonNegative(a: seq<real>)
    ensures Energy(a) >= 0.0
    ensures Energy(a) == 0.0 ==> forall i :: 0 <= i < |a| ==> a[i] == 0.0
  {
    if a != [] {
      hide Times;
      var n := |a| - 1;
      EnergyNonNegative(a[..n]);
      SquareSign(a[n]);
      assert a == a[..n] + [a[n]];
    }
  }

  /** The inner product of one sample each is their product, and concatenation
      adds inner products up. */
  lemma {:induction false} DotLaws(a: seq<real>, b: seq<real>, c: seq<real>, d: seq<real>, x: real, y: real)
    requires |a| == |b| && |c| == |d|
    ensures Dot([x], [y]) == x * y
    ensures Dot(a + c, b + d) == Dot(a, b) + Dot(c, d)
    decreases |c|
  {
    assert [x][..0] == [] && [y][..0] == [] && Dot([x][..0], [y][..0]) == 0.0;
    if c == [] {
      assert a + c == a && b + d == b;
    } else {
      var n := |c| - 1;
      DotLaws(a, b, c[..n], d[..n], x, y);
      assert (a + c)[..|a + c| - 1] == a + c[..n] && (b + d)[..|b + d| - 1] == b + d[..n];
    }
  }

  lemma ResidualStep(e: real, d: real, f: real, x: real, y: real, c: real)
    ensures (f - 2.0 * c * d + c * c * e) + Times(Rest(x, y, c), Rest(x, y, c))
         == (f + Times(y, y)) - 2.0 * c * (d + Times(x, y)) + c * c * (e + Times(x, x))
  {
  }

  lemma {:induction false} ResidualEnergy(a: seq<real>, b: seq<real>, c: real)
    requires |a| == |b|
    ensures Energy(Residual(a, b, c)) == Energy(b) - 2.0 * c * Dot(a, b) + c * c * Energy(a)
  {
    if a != [] {
      var n := |a| - 1;
      ResidualEnergy(a[..n], b[..n], c);
      hide Rest, Times;
      assert Residual(a, b, c)[..n] == Residual(a[..n], b[..n], c);
      ResidualStep(Energy(a[..n]), Dot(a[..n], b[..n]), Energy(b[..n]), a[n], b[n], c);
    }
  }

  lemma BestCoefficient(a: real, d: real, b: real, c: real, r: real)
    requires Times(c, a) == d && r == b - 2.0 * c * d + c * c * a
    ensures Times(r, a) == Times(a, b) - Times(d, d)
  {
    assert c * c * a * a == (c * a) * (c * a);
    assert c * d * a == (c * a) * d;
  }

  lemma QuotientTimes(d: real, a: real)
    requires a != 0.0
    ensures Times(d / a, a) == d
  {
  }

  lemma ProductSign(x: real, y: real)
    requires x >= 0.0 && y > 0.0
    ensures Times(x, y) >= 0.0
    ensures Times(x, y) == 0.0 ==> x == 0.0
  {
  }

  /** Cauchy-Schwarz, with the equality case. */
  lemma CauchySchwarz(a: seq<real>, b: seq<real>)
    requires |a| == |b| && Energy(a) > 0.0
    ensures Times(Dot(a, b), Dot(a, b)) <= Times(Energy(a), Energy(b))
    ensures Times(Dot(a, b), Dot(a, b)) == Times(Energy(a), Energy(b)) ==> IsMultiple(a, b, Dot(a, b) / Energy(a))
  {
    hide Dot, Rest, Times;
    var e, d, f := Energy(a), Dot(a, b), Energy(b);
    var c := d / e;
    var r := Residual(a, b, c);
    ResidualEnergy(a, b, c);
    QuotientTimes(d, e);
    BestCoefficient(e, d, f, c, Energy(r));
    EnergyNonNegative(r);
    ProductSign(Energy(r), e);
  }

  lemma MultipleStep(e: real, d: real, f: real, x: real, y: real, c: real)
    requires d == Times(c, e) && f == Times(c, Times(c, e)) && Rest(x, y, c) == 0.0
    ensures d + Times(x, y) == Times(c, e + Times(x, x))
    ensures f + Times(y, y) == Times(c, Times(c, e + Times(x, x)))
  {
    assert y == c * x;
    assert x * y == c * (x * x);
    assert y * y == c * (c * (x * x)) by {
      assert y * y == (c * x) * (c * x);
    }
  }

  lemma {:induction false} DotOfMultiple(a: seq<real>, b: seq<real>, c: real)
    requires IsMultiple(a, b, c)
    ensures Dot(a, b) == Times(c, Energy(a)) && Energy(b) == Times(c, Times(c, Energy(a)))
  {
    if a == [] {
      assert Times(c, 0.0) == 0.0;
    } else {
      hide Rest, Times;
      var n := |a| - 1;
      DotOfMultiple(a[..n], b[..n], c);
      MultipleStep(Energy(a[..n]), Dot(a[..n], b[..n]), Energy(b[..n]), a[n], b[n], c);
    }
  }

  lemma TimesMonotone(x: real, y: real)
    requires 0.0 <= x <= y
    ensures Times(x, x) <= Times(y, y)
    ensures x < y ==> Times(x, x) < Times(y, y)
  {
    var d := y - x;
    assert Times(y, y) == Times(x, x) + 2.0 * Times(x, d) + Times(d, d);
    SquareSign(d);
    TimesNonNegative(x, d);
    hide Times;
  }

  lemma TimesNonNegative(x: real, y: real)
    requires x >= 0.0 && y >= 0.0
    ensures Times(x, y) >= 0.0
  {
  }

  /** Comparing a number with a positive one through their squares. */
  lemma CompareSquares(d: real, p: real)
    requires p > 0.0 && Times(d, d) <= Times(p, p)
    ensures d <= p
    ensures d == p <==> d > 0.0 && Times(d, d) == Times(p, p)
  {
    hide Times;
    if d > p {
      TimesMonotone(p, d);
    } else if 0.0 < d < p {
      TimesMonotone(d, p);
    }
  }

  // ---------- rounding ----------

  /** Round to nearest, halves to even. */
  function Round(x: real): int {
    var f := x.Floor;
    var d := x - f as real;
    if d < 0.5 then f
    else if d > 0.5 then f + 1
    else if f % 2 == 0 then f else f + 1
  }

  /** n is the nearest integer to x, the even one of two that are as near. */
  predicate IsRounded(n: int, x: real) {
    && -0.5 <= n as real - x <= 0.5
    && (n as real - x == 0.5 || n as real - x == -0.5 ==> n % 2 == 0)
  }

  lemma RoundIsNear(x: real)
    ensures -0.5 <= Round(x) as real - x <= 0.5
    ensures IsRounded(Round(x), x)
  {
  }

  /** That determines the integer. */
  lemma RoundedOnce(n: int, k: int, x: real)
    requires IsRounded(n, x) && IsRounded(k, x)
    ensures n == k
  {
  }

  lemma RoundKeepsIntegers(n: int)
    ensures Round(n as real) == n
  {
  }

  lemma RoundIsMonotone(x: real, y: real)
    requires x <= y
    ensures Round(x) <= Round(y)
  {
  }
}
