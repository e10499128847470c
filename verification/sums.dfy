/** Finite sums over sequences. Every rollup, ledger and conservation law of the project is one of
    these, taken with a named weight so that two mentions of it are the same term. */
module Sums {

  function Sum<T>(xs: seq<T>, f: T -> int): int {
    if xs == [] then 0 else Sum(xs[..|xs| - 1], f) + f(xs[|xs| - 1])
  }

  lemma {:induction false} SumConcat<T>(xs: seq<T>, ys: seq<T>, f: T -> int)
    ensures Sum(xs + ys, f) == Sum(xs, f) + Sum(ys, f)
  {
    if ys == [] {
      assert xs + ys == xs;
    } else {
      var zs := xs + ys;
      assert zs[..|zs| - 1] == xs + ys[..|ys| - 1];
      SumConcat(xs, ys[..|ys| - 1], f);
    }
  }

  lemma SumAppend<T>(xs: seq<T>, x: T, f: T -> int)
    ensures Sum(xs + [x], f) == Sum(xs, f) + f(x)
  {
    assert (xs + [x])[..|xs|] == xs;
  }

  lemma SumSingleton<T>(x: T, f: T -> int)
    ensures Sum([x], f) == f(x)
  {
    assert [x] == [] + [x];
    SumAppend([], x, f);
  }

  lemma {:induction false} SumUpdate<T>(xs: seq<T>, i: nat, x: T, f: T -> int)
    requires i < |xs|
    ensures Sum(xs[i := x], f) == Sum(xs, f) - f(xs[i]) + f(x)
  {
    var n := |xs| - 1;
    if i == n {
      assert xs[i := x][..n] == xs[..n];
    } else {
      assert xs[i := x][..n] == xs[..n][i := x];
      SumUpdate(xs[..n], i, x, f);
    }
  }

  /** Two tables whose rows weigh the same, row by row, have the same sum. */
  lemma {:induction false} SumSame<T, U>(xs: seq<T>, f: T -> int, ys: seq<U>, g: U -> int)
    requires |xs| == |ys|
    requires forall i :: 0 <= i < |xs| ==> f(xs[i]) == g(ys[i])
    ensures Sum(xs, f) == Sum(ys, g)
  {
    if xs != [] {
      SumSame(xs[..|xs| - 1], f, ys[..|ys| - 1], g);
    }
  }

  lemma {:induction false} SumNonNeg<T>(xs: seq<T>, f: T -> int)
    requires forall i :: 0 <= i < |xs| ==> f(xs[i]) >= 0
    ensures Sum(xs, f) >= 0
  {
    if xs != [] {
      SumNonNeg(xs[..|xs| - 1], f);
    }
  }

  /** With non-negative rows no row exceeds the whole. */
  lemma SumPart<T>(xs: seq<T>, i: nat, f: T -> int)
    requires i < |xs|
    requires forall j :: 0 <= j < |xs| ==> f(xs[j]) >= 0
    ensures 0 <= f(xs[i]) <= Sum(xs, f)
  {
    assert xs == xs[..i] + xs[i..];
    SumConcat(xs[..i], xs[i..], f);
    assert xs[i..] == [xs[i]] + xs[i + 1..];
    SumConcat([xs[i]], xs[i + 1..], f);
    SumSingleton(xs[i], f);
    SumNonNeg(xs[..i], f);
    SumNonNeg(xs[i + 1..], f);
  }

  /** The sum of pointwise sums. */
  lemma {:induction false} SumAdd<T>(xs: seq<T>, f: T -> int, g: T -> int, h: T -> int)
    requires forall i :: 0 <= i < |xs| ==> h(xs[i]) == f(xs[i]) + g(xs[i])
    ensures Sum(xs, h) == Sum(xs, f) + Sum(xs, g)
  {
    if xs != [] {
      SumAdd(xs[..|xs| - 1], f, g, h);
    }
  }

  lemma {:induction false} AllZero<T>(xs: seq<T>, f: T -> int)
    requires forall i :: 0 <= i < |xs| ==> f(xs[i]) == 0
    ensures Sum(xs, f) == 0
  {
    if xs != [] { AllZero(xs[..|xs| - 1], f); }
  }
}
