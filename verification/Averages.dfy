/** Sums, means and roundings, independent of the order in which values are visited. */
module Averages {

  /** The sum of all values of `m`. */
  ghost function Total<K>(m: map<K, real>): real
    decreases |m|
  {
    if m == map[] then 0.0
    else
      var k :| k in m;
      m[k] + Total(m - {k})
  }

  /** The sum does not depend on which key is taken first. */
  lemma {:induction false} TotalRemove<K>(m: map<K, real>, k: K)
    requires k in m
    ensures Total(m) == m[k] + Total(m - {k})
    decreases |m|
  {
    var j :| j in m && Total(m) == m[j] + Total(m - {j});
    if j != k {
      TotalRemove(m - {j}, k);
      TotalRemove(m - {k}, j);
      assert m - {j} - {k} == m - {k} - {j};
    }
  }

  ghost function Mean<K>(m: map<K, real>): real
    requires m != map[]
  {
    Total(m) / |m| as real
  }

  /** `sum` could be the sum of `n` values that all lie in [lo, hi]. */
  ghost predicate SumWithin(lo: real, hi: real, n: nat, sum: real) {
    lo * n as real <= sum <= hi * n as real
  }

  lemma SumWithinNone(lo: real, hi: real)
    ensures SumWithin(lo, hi, 0, 0.0)
  {
  }

  lemma SumWithinOneMore(lo: real, hi: real, n: nat, sum: real, v: real)
    requires lo <= v <= hi
    requires SumWithin(lo, hi, n, sum)
    ensures SumWithin(lo, hi, n + 1, v + sum)
  {
    assert (n + 1) as real == n as real + 1.0;
  }

  lemma {:induction false} TotalBounds<K>(m: map<K, real>, lo: real, hi: real)
    requires forall k | k in m :: lo <= m[k] <= hi
    ensures SumWithin(lo, hi, |m|, Total(m))
    decreases |m|
  {
    if m == map[] {
      SumWithinNone(lo, hi);
    } else {
      var k :| k in m;
      var rest := m - {k};
      TotalRemove(m, k);
      TotalBounds(rest, lo, hi);
      assert m.Keys == rest.Keys + {k};
      assert |m| == |rest| + 1;
      SumWithinOneMore(lo, hi, |rest|, Total(rest), m[k]);
    }
  }

  /** A mean lies between any two bounds that hold for every value. */
  lemma MeanBounds<K>(m: map<K, real>, lo: real, hi: real)
    requires m != map[]
    requires forall k | k in m :: lo <= m[k] <= hi
    ensures lo <= Mean(m) <= hi
  {
    TotalBounds(m, lo, hi);
    var n := |m| as real;
    assert n > 0.0;
    DivideBounds(lo, Total(m), hi, n);
  }

  lemma DivideBounds(lo: real, total: real, hi: real, n: real)
    requires n > 0.0
    requires lo * n <= total <= hi * n
    ensures lo <= total / n <= hi
  {
    var q := total / n;
    assert q * n == total;
  }

  /** Round to the nearest integer, ties to the even one. */
  function RoundHalfEven(x: real): int {
    var f := x.Floor;
    var d := x - f as real;
    if d < 0.5 then f
    else if d > 0.5 then f + 1
    else if f % 2 == 0 then f else f + 1
  }

  lemma RoundBounds(x: real, lo: int, hi: int)
    requires lo as real <= x <= hi as real
    ensures lo <= RoundHalfEven(x) <= hi
  {
    var f := x.Floor;
    assert lo <= f <= hi;
  }

  /** No integer is nearer, and of two equally near ones the even one is taken. */
  lemma RoundsToNearest(x: real)
    ensures -1.0 <= 2.0 * (RoundHalfEven(x) as real - x) <= 1.0
    ensures 2.0 * (RoundHalfEven(x) as real - x) == 1.0 || 2.0 * (RoundHalfEven(x) as real - x) == -1.0 ==> RoundHalfEven(x) % 2 == 0
  {
  }

  lemma ScaledWithin(x: real, n: real)
    requires -1.0 <= x <= 1.0 && n > 0.0
    ensures -n <= x * n <= n
    ensures x * n == n ==> x == 1.0
    ensures x * n == -n ==> x == -1.0
  {
  }

  lemma Distributes(a: real, b: real, n: real)
    ensures 2.0 * (a - b) * n == 2.0 * (a * n - b * n)
  {
  }

  /** The same without dividing: `r` times the count is within half the count of the sum. */
  lemma RoundedSum(r: int, mean: real, total: real, n: real)
    requires n > 0.0 && mean * n == total && r == RoundHalfEven(mean)
    ensures var off := 2.0 * (r as real * n - total); -n <= off <= n && (off == n || off == -n ==> r % 2 == 0)
  {
    var a, x := r as real, 2.0 * (r as real - mean);
    RoundsToNearest(mean);
    ScaledWithin(x, n);
    Distributes(a, mean, n);
    var off := 2.0 * (a * n - total);
    assert x * n == off;
    if off == n || off == -n {
      assert x == 1.0 || x == -1.0;
    }
  }

  /** The moment halfway between two instants, to the microsecond. */
  function Midpoint(lo: int, hi: int): int {
    lo + RoundHalfEven((hi - lo) as real / 2.0)
  }

  lemma MidpointBounds(lo: int, hi: int)
    requires lo <= hi
    ensures lo <= Midpoint(lo, hi) <= hi
  {
    RoundBounds((hi - lo) as real / 2.0, 0, hi - lo);
  }

  /** Not more than half a microsecond off the middle, and then an even way from the first instant. */
  lemma MidpointIsMiddle(lo: int, hi: int)
    requires lo <= hi
    ensures -1 <= 2 * Midpoint(lo, hi) - lo - hi <= 1
    ensures (hi - lo) % 2 == 1 ==> (Midpoint(lo, hi) - lo) % 2 == 0
  {
    var x := (hi - lo) as real / 2.0;
    RoundsToNearest(x);
    if (hi - lo) % 2 == 1 {
      var r := RoundHalfEven(x);
      assert 2.0 * (r as real - x) == (2 * r - (hi - lo)) as real;
    }
  }

  /** The mean, times the number of values, is their sum. */
  lemma MeanTimesCount<K>(m: map<K, real>)
    requires m != map[]
    ensures Mean(m) * |m| as real == Total(m)
  {
    assert |m| as real > 0.0;
  }

  lemma MulCancel(a: int, b: int, width: int)
    requires width > 0 && a * width < b * width
    ensures a < b
  {
  }

  lemma DivMonotone(x: int, y: int, width: int)
    requires width > 0 && x <= y
    ensures x / width <= y / width
  {
    var a, b := x / width, y / width;
    assert a * width <= x && y < b * width + width;
    assert b * width + width == (b + 1) * width;
    MulCancel(a, b + 1, width);
  }
}
