/** Exact arithmetic over reals for the averages, rates and roundings of the other modules. */
module Arithmetic {

  lemma Scale(x: real, y: real, k: real)
    requires k > 0.0
    ensures x < y <==> x * k < y * k
  {}

  /** n * x by repeated addition, which the solver follows better than the product. */
  function Times(x: real, n: nat): real {
    if n == 0 then 0.0 else x + Times(x, n - 1)
  }

  lemma {:induction false} TimesIsProduct(x: real, n: nat)
    ensures Times(x, n) == x * n as real
  {
    if n > 0 {
      TimesIsProduct(x, n - 1);
    }
  }

  lemma {:induction false} TimesGrows(x: real, y: real, n: nat)
    requires x <= y
    ensures Times(x, n) <= Times(y, n)
  {
    if n > 0 {
      TimesGrows(x, y, n - 1);
    }
  }

  lemma DivideBelow(total: real, n: nat, x: real)
    requires n > 0
    ensures total <= Times(x, n) <==> total / n as real <= x
    ensures total < Times(x, n) <==> total / n as real < x
  {
    TimesIsProduct(x, n);
    Quotient(total, n as real);
    Scale(x, total / n as real, n as real);
    Scale(total / n as real, x, n as real);
  }

  lemma Quotient(total: real, n: real)
    requires n > 0.0
    ensures (total / n) * n == total
  {}

  function Square(x: real): (r: real)
    ensures r >= 0.0
  {
    x * x
  }

  /** Python's `round`: to the nearest integer, ties to the even one. */
  function Round(x: real): int {
    var below := x - x.Floor as real;
    if below < 0.5 || (below == 0.5 && x.Floor % 2 == 0) then x.Floor else x.Floor + 1
  }

  /** `round(x, 1)` */
  function RoundTenth(x: real): real {
    Round(x * 10.0) as real / 10.0
  }

  /** The nearest integer; halfway between two, the even one. */
  predicate IsNearest(x: real, n: int) {
    n as real - 0.5 < x < n as real + 0.5 || ((x == n as real - 0.5 || x == n as real + 0.5) && n % 2 == 0)
  }

  lemma RoundIff(x: real, n: int)
    ensures Round(x) == n <==> IsNearest(x, n)
  {}

  lemma RoundTenthIff(x: real, n: int)
    ensures RoundTenth(x) == n as real / 10.0 <==> IsNearest(10.0 * x, n)
  {
    RoundIff(x * 10.0, n);
  }

  lemma RoundReachesIff(x: real, k: int)
    ensures Round(x) >= k <==> if k % 2 == 0 then x >= k as real - 0.5 else x > k as real - 0.5
  {
    assert x.Floor >= k ==> x >= k as real;
    assert x.Floor < k - 1 ==> x < (k - 1) as real;
    assert x.Floor == k - 1 ==> x - x.Floor as real == x - k as real + 1.0;
  }

  /** Rounded to a tenth and then to an integer, a number reaches k exactly from k - 0.55 or k - 0.45 on:
      the first for even k, and excluded; the second for odd k, and included. */
  lemma RoundTwiceReachesIff(x: real, k: int)
    ensures Round(RoundTenth(x)) >= k <==> if k % 2 == 0 then x > k as real - 0.55 else x >= k as real - 0.45
  {
    RoundReachesIff(RoundTenth(x), k);
    RoundReachesIff(x * 10.0, if k % 2 == 0 then 10 * k - 5 else 10 * k - 4);
    hide Round;
    if k % 2 == 0 {
      assert (10 * k - 5) % 2 == 1;
    } else {
      assert (10 * k - 4) % 2 == 0;
    }
  }

  /** Rounding to a tenth and then to an integer never leaves an interval with integer ends. */
  lemma RoundTwiceBetween(x: real, lo: int, hi: int)
    requires lo as real <= x <= hi as real
    ensures lo <= Round(RoundTenth(x)) <= hi
  {
    var tenths := Round(x * 10.0);
    assert 10 * lo <= tenths <= 10 * hi;
    assert lo as real <= RoundTenth(x) <= hi as real;
  }

  // ---- averages ----

  function Sum(s: seq<real>): real {
    if s == [] then 0.0 else s[0] + Sum(s[1..])
  }

  function Average(s: seq<real>): real
    requires s != []
  {
    Sum(s) / |s| as real
  }

  function SquaredDeviations(s: seq<real>, center: real): (r: real)
    ensures r >= 0.0
  {
    if s == [] then 0.0 else Square(s[0] - center) + SquaredDeviations(s[1..], center)
  }

  /** The square of the standard deviation. */
  function Variance(s: seq<real>): real
    requires s != []
  {
    SquaredDeviations(s, Average(s)) / |s| as real
  }

  predicate Within(s: seq<real>, lo: real, hi: real) {
    forall i :: 0 <= i < |s| ==> lo <= s[i] <= hi
  }

  lemma {:induction false} SumBetween(s: seq<real>, lo: real, hi: real)
    requires Within(s, lo, hi)
    ensures Times(lo, |s|) <= Sum(s) <= Times(hi, |s|)
  {
    if s != [] {
      SumBetween(s[1..], lo, hi);
    }
  }

  lemma AverageBetween(s: seq<real>, lo: real, hi: real)
    requires s != [] && Within(s, lo, hi)
    ensures lo <= Average(s) <= hi
  {
    SumBetween(s, lo, hi);
    DivideBelow(Sum(s), |s|, lo);
    DivideBelow(Sum(s), |s|, hi);
  }

  /** The deviations from a center, each times k. */
  function Weighted(s: seq<real>, c: real, k: real): real {
    if s == [] then 0.0 else k * (s[0] - c) + Weighted(s[1..], c, k)
  }

  lemma Distribute(k: real, a: real, b: real)
    ensures k * (a + b) == k * a + k * b
  {}

  lemma {:induction false} WeightedTotal(s: seq<real>, c: real, k: real)
    ensures Weighted(s, c, k) == k * (Sum(s) - Times(c, |s|))
  {
    if s != [] {
      WeightedTotal(s[1..], c, k);
      Distribute(k, s[0] - c, Sum(s[1..]) - Times(c, |s| - 1));
      assert Sum(s) - Times(c, |s|) == (s[0] - c) + (Sum(s[1..]) - Times(c, |s| - 1));
    }
  }

  /** The average balances the deviations. */
  lemma AverageBalances(s: seq<real>, k: real)
    requires s != []
    ensures Weighted(s, Average(s), k) == 0.0
  {
    DivideBelow(Sum(s), |s|, Average(s));
    TimesIsProduct(Average(s), |s|);
    Quotient(Sum(s), |s| as real);
    WeightedTotal(s, Average(s), k);
  }

  lemma SquareShift(x: real, c: real, e: real)
    ensures Square(x - (c + e)) == Square(x - c) - (2.0 * e) * (x - c) + Square(e)
  {}

  lemma {:induction false} MoveCenter(s: seq<real>, c: real, e: real)
    ensures SquaredDeviations(s, c + e) == SquaredDeviations(s, c) - Weighted(s, c, 2.0 * e) + Times(Square(e), |s|)
  {
    if s != [] {
      MoveCenter(s[1..], c, e);
      SquareShift(s[0], c, e);
    }
  }

  lemma {:induction false} TimesNonNegative(x: real, n: nat)
    requires x >= 0.0
    ensures Times(x, n) >= 0.0
  {
    if n > 0 {
      TimesNonNegative(x, n - 1);
    }
  }

  /** No center is closer, in squares, than the average. */
  lemma AverageIsClosest(s: seq<real>, center: real)
    requires s != []
    ensures SquaredDeviations(s, Average(s)) <= SquaredDeviations(s, center)
  {
    var e := center - Average(s);
    MoveCenter(s, Average(s), e);
    AverageBalances(s, 2.0 * e);
    TimesNonNegative(Square(e), |s|);
  }

  lemma SquareWithin(x: real, r: real)
    requires -r <= x <= r
    ensures Square(x) <= Square(r)
  {
    assert (r - x) * (r + x) >= 0.0;
    assert (r - x) * (r + x) == r * r - x * x;
  }

  lemma SquareLess(x: real, y: real)
    requires 0.0 <= x < y
    ensures Square(x) < Square(y)
  {
    SquareWithin(x, y);
    assert (y - x) * (y + x) == y * y - x * x;
    Scale(0.0, y - x, y + x);
  }

  lemma {:induction false} DeviationsFromMiddle(s: seq<real>, middle: real, radius: real)
    requires Within(s, middle - radius, middle + radius)
    ensures SquaredDeviations(s, middle) <= Times(Square(radius), |s|)
  {
    if s != [] {
      SquareWithin(s[0] - middle, radius);
      DeviationsFromMiddle(s[1..], middle, radius);
    }
  }

  /** Numbers within an interval have a variance of at most the squared half of its width. */
  lemma VarianceBound(s: seq<real>, lo: real, hi: real)
    requires s != [] && Within(s, lo, hi)
    ensures Variance(s) <= Square((hi - lo) / 2.0)
  {
    var middle, radius := (lo + hi) / 2.0, (hi - lo) / 2.0;
    AverageIsClosest(s, middle);
    DeviationsFromMiddle(s, middle, radius);
    DivideBelow(SquaredDeviations(s, Average(s)), |s|, Square(radius));
  }
}
