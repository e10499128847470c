/** Currency arithmetic: integer cents, with exact rationals rounded once.
    HalfUp(n, d) is the quotient n / d rounded to the nearest integer, ties away from zero. */
module Money {

  function HalfUp(n: int, d: int): int
    requires d > 0
  {
    if n >= 0 then (2 * n + d) / (2 * d) else -((2 * -n + d) / (2 * d))
  }

  predicate IsNearest(n: int, d: int, r: int)
    requires d > 0
  {
    && -d <= 2 * (d * r - n) <= d
    && (2 * (d * r - n) == d ==> n > 0)
    && (2 * (d * r - n) == -d ==> n < 0)
  }

  lemma FloorBounds(x: int, m: int)
    requires m > 0
    ensures m * (x / m) <= x < m * (x / m) + m
  {
  }

  /** The result is the nearest integer, and of two nearest ones the one further from zero. */
  lemma HalfUpNearest(n: int, d: int)
    requires d > 0
    ensures IsNearest(n, d, HalfUp(n, d))
  {
    var a := if n >= 0 then n else -n;
    var q := (2 * a + d) / (2 * d);
    FloorBounds(2 * a + d, 2 * d);
    assert (2 * d) * q == 2 * (d * q);
    assert d * (-q) == -(d * q);
  }

  lemma Distribute(d: int, a: int, b: int)
    ensures d * (a + b) == d * a + d * b
  {
  }

  lemma {:induction false} AtLeast(d: int, k: int)
    requires d > 0 && k > 0
    ensures d * k >= d
  {
    if k > 1 {
      AtLeast(d, k - 1);
      Distribute(d, k - 1, 1);
    }
  }

  lemma Apart(d: int, p: int, q: int)
    requires d > 0 && p > q
    ensures d * p >= d * q + d
  {
    Distribute(d, q, p - q);
    AtLeast(d, p - q);
  }

  /** IsNearest has one solution, so it defines HalfUp. */
  lemma NearestUnique(n: int, d: int, r: int)
    requires d > 0 && IsNearest(n, d, r)
    ensures r == HalfUp(n, d)
  {
    NearestOrdered(n, n, d, r, HalfUp(n, d)) by { HalfUpNearest(n, d); }
    NearestOrdered(n, n, d, HalfUp(n, d), r) by { HalfUpNearest(n, d); }
  }

  /** Rounding keeps the order of the numerators. */
  lemma NearestOrdered(n: int, m: int, d: int, p: int, q: int)
    requires d > 0 && n <= m && IsNearest(n, d, p) && IsNearest(m, d, q)
    ensures p <= q
  {
    if p > q {
      Apart(d, p, q);
    }
  }

  lemma HalfUpExact(k: int, d: int)
    requires d > 0
    ensures HalfUp(k * d, d) == k
  {
    assert d * k == k * d;
    NearestUnique(k * d, d, k);
  }

  lemma HalfUpMonotone(n: int, m: int, d: int)
    requires d > 0 && n <= m
    ensures HalfUp(n, d) <= HalfUp(m, d)
  {
    HalfUpNearest(n, d);
    HalfUpNearest(m, d);
    NearestOrdered(n, m, d, HalfUp(n, d), HalfUp(m, d));
  }

  lemma HalfUpSign(n: int, d: int)
    requires d > 0
    ensures n >= 0 ==> HalfUp(n, d) >= 0
    ensures n <= 0 ==> HalfUp(n, d) <= 0
  {
    HalfUpExact(0, d);
    if n >= 0 { HalfUpMonotone(0, n, d); }
    if n <= 0 { HalfUpMonotone(n, 0, d); }
  }

  /** When rounding stays within a whole bound: below half a unit over it, or at just that from below zero. */
  predicate Within(n: int, d: int, m: int) { if n >= 0 then 2 * n < d * (2 * m + 1) else 2 * n <= d * (2 * m + 1) }

  lemma RoundsWithin(n: int, d: int, m: int)
    requires d > 0
    ensures HalfUp(n, d) <= m <==> Within(n, d, m)
  {
    var r := HalfUp(n, d);
    HalfUpNearest(n, d);
    assert d * (2 * m + 1) == 2 * (d * m) + d;
    if r < m {
      Apart(d, m, r);
    } else if r > m {
      Apart(d, r, m);
    }
  }
}
