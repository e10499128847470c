/** Splitting a declared dividend pool over the members by capital, by patronage or by a blend of both.
    Each member's share is rounded on its own, so the shares need not add up to the pool: how far they
    may miss it, and exactly when they overspend it. */
module Dividend {
  import opened Outcome
  import opened Sums
  import opened Money

  /** Cents of confirmed capital, and cents of purchases in the fiscal year. */
  datatype Member = Member(capital: nat, patronage: nat)

  datatype Basis = ByCapital | ByPatronage | Hybrid

  const WHOLE := 10000

  /** The part of a blend that goes by capital, in hundredths of a percent, unless told otherwise. */
  const DEFAULT_CAPITAL_SHARE := 5000

  function ShareOf(option: Option<int>): int { if option.Some? then option.value else DEFAULT_CAPITAL_SHARE }

  /** The option is checked whatever the basis. */
  predicate ShareOk(share: int) { 0 <= share <= WHOLE }

  function TotalCapital(members: seq<Member>): nat {
    if members == [] then 0 else TotalCapital(members[..|members| - 1]) + members[|members| - 1].capital
  }

  function AtLeastOne(n: nat): nat { if n == 0 then 1 else n }

  /** A member's weight. The blend adds capital / totalCapital and patronage / totalPatronage in the given
      proportion; it is taken over the common denominator, which does not change anyone's share. */
  function Weight(basis: Basis, share: int, m: Member, totalCapital: nat, totalPatronage: nat): (w: nat)
    requires ShareOk(share)
  {
    match basis
    case ByCapital => m.capital
    case ByPatronage => m.patronage
    case Hybrid =>
      Product3(share, if totalCapital > 0 then m.capital else 0, AtLeastOne(totalPatronage))
        + Product3(WHOLE - share, if totalPatronage > 0 then m.patronage else 0, AtLeastOne(totalCapital))
  }

  function Product3(a: nat, b: nat, c: nat): (r: nat)
    ensures r > 0 <==> a > 0 && b > 0 && c > 0
  {
    Times(a, b);
    Times(a * b, c);
    a * b * c
  }

  lemma Times(a: nat, b: nat)
    ensures a * b >= 0 && (a * b > 0 <==> a > 0 && b > 0)
  {
  }

  function WeightsOf(basis: Basis, share: int, members: seq<Member>, totalCapital: nat,
                     totalPatronage: nat): (r: seq<nat>)
    requires ShareOk(share)
    ensures |r| == |members|
    ensures forall i :: 0 <= i < |r| ==> r[i] == Weight(basis, share, members[i], totalCapital, totalPatronage)
  {
    if members == [] then []
    else
      var k := |members| - 1;
      WeightsOf(basis, share, members[..k], totalCapital, totalPatronage)
        + [Weight(basis, share, members[k], totalCapital, totalPatronage)]
  }

  function WeightFn(): nat -> int { (w: nat) => w }

  function TotalWeight(weights: seq<nat>): int { Sum(weights, WeightFn()) }

  function ShareFn(pool: int, total: int): nat -> int {
    (w: nat) => if total > 0 then HalfUp(pool * w, total) else 0
  }

  /** What is paid out over all members; one without weight gets no row, and no money. */
  function PaidOut(pool: int, weights: seq<nat>): int { Sum(weights, ShareFn(pool, TotalWeight(weights))) }

  /** The weights add up to nothing exactly when nobody has any. */
  lemma {:induction false} NoWeight(weights: seq<nat>)
    ensures TotalWeight(weights) >= 0
    ensures TotalWeight(weights) > 0 <==> exists i :: 0 <= i < |weights| && weights[i] > 0
  {
    SumNonNeg(weights, WeightFn());
    if i :| 0 <= i < |weights| && weights[i] > 0 { SumPart(weights, i, WeightFn()); }
    if forall i :: 0 <= i < |weights| ==> weights[i] == 0 { AllNothing(weights); }
  }

  lemma {:induction false} AllNothing(weights: seq<nat>)
    requires forall i :: 0 <= i < |weights| ==> weights[i] == 0
    ensures TotalWeight(weights) == 0
  {
    if weights != [] { AllNothing(weights[..|weights| - 1]); }
  }

  /** Who gets a row, and how much is on it: refused when the share is none, though the basis may not use
      it, or when nobody has weight. */
  method AllocateDividend(pool: int, members: seq<Member>, basis: Basis, capitalShare: Option<int>,
                          totalPatronage: nat)
    returns (r: Result<map<nat, int>>)
    ensures r.Ok? <==> (ShareOk(ShareOf(capitalShare))
                        && exists i :: 0 <= i < |members|
                             && Weight(basis, ShareOf(capitalShare), members[i], TotalCapital(members),
                                totalPatronage) > 0)
    ensures r.Ok? ==>
              var weights := WeightsOf(basis, ShareOf(capitalShare), members, TotalCapital(members), totalPatronage);
              && TotalWeight(weights) > 0
              && (forall i: nat :: i in r.value <==> i < |members| && weights[i] > 0)
              && (forall i: nat :: i in r.value ==> r.value[i] == HalfUp(pool * weights[i], TotalWeight(weights)))
    ensures r.Err? ==> r.status == 400
  {
    hide HalfUp, Weight, WeightsOf, TotalCapital;
    var share := ShareOf(capitalShare);
    if share < 0 || share > WHOLE { return Err(400); }
    var totalCapital := SumCapital(members);
    ghost var weights := WeightsOf(basis, share, members, totalCapital, totalPatronage);
    var total, i := 0, 0;
    assert weights[..0] == [];
    while i < |members|
      invariant 0 <= i <= |members| && total == Sum(weights[..i], WeightFn())
    {
      assert weights[..i + 1] == weights[..i] + [weights[i]];
      SumAppend(weights[..i], weights[i], WeightFn());
      total := total + Weight(basis, share, members[i], totalCapital, totalPatronage);
      i := i + 1;
    }
    assert weights[..|weights|] == weights;
    NoWeight(weights);
    if total <= 0 { return Err(400); }
    var amounts: map<nat, int> := map[];
    i := 0;
    while i < |members|
      invariant 0 <= i <= |members|
      invariant forall k: nat :: k in amounts <==> k < i && weights[k] > 0
      invariant forall k: nat :: k in amounts ==> amounts[k] == HalfUp(pool * weights[k], total)
    {
      var weight := Weight(basis, share, members[i], totalCapital, totalPatronage);
      if weight > 0 { amounts := amounts[i := HalfUp(pool * weight, total)]; }
      i := i + 1;
    }
    return Ok(amounts);
  }

  method SumCapital(members: seq<Member>) returns (total: nat)
    ensures total == TotalCapital(members)
  {
    var i := 0;
    total := 0;
    while i < |members|
      invariant 0 <= i <= |members| && total == TotalCapital(members[..i])
    {
      assert members[..i + 1][..i] == members[..i];
      total := total + members[i].capital;
      i := i + 1;
    }
    assert members[..|members|] == members;
  }

  lemma Threefold(c: int, d: int, r: int, n: int)
    ensures c * (2 * (d * r - n)) == 2 * ((c * d) * r - c * n)
  {
    assert (c * d) * r == c * (d * r);
    assert c * (d * r - n) == c * (d * r) - c * n;
  }

  lemma ScaledBounds(c: int, a: int, x: int)
    requires c > 0
    ensures a <= x <==> c * a <= c * x
    ensures a == x <==> c * a == c * x
  {
    assert c * x - c * a == c * (x - a);
    SameSign(c, x - a);
    SameSign(c, a - x);
  }

  /** Weights over a common denominator give everyone the same share as the fractions they stand for. */
  lemma CommonDenominator(pool: int, w: int, total: int, c: int)
    requires total > 0 && c > 0
    ensures c * total > 0 && HalfUp(pool * (c * w), c * total) == HalfUp(pool * w, total)
  {
    var n, r := pool * w, HalfUp(pool * w, total);
    HalfUpNearest(n, total);
    Times(c, total);
    Threefold(c, total, r, n);
    var x := 2 * (total * r - n);
    ScaledBounds(c, x, total);
    ScaledBounds(c, -total, x);
    assert c * (-total) == -(c * total);
    ScaledBounds(c, n, 0);
    ScaledBounds(c, 0, n);
    assert pool * (c * w) == c * n;
    NearestUnique(c * n, c * total, r);
  }

  lemma {:induction false} CapitalAdds(members: seq<Member>)
    ensures TotalCapital(members) == Sum(members, (m: Member) => m.capital)
  {
    if members != [] { CapitalAdds(members[..|members| - 1]); }
  }

  lemma TimesReal(a: int, b: int, c: int)
    ensures (a * b * c) as real == a as real * b as real * c as real
  {
    assert (a * b) as real == a as real * b as real;
    assert ((a * b) * c) as real == (a * b) as real * c as real;
  }

  lemma PartOf(share: nat, part: nat, whole: nat, other: nat)
    ensures Product3(share, if whole > 0 then part else 0, AtLeastOne(other)) as real
         == AtLeastOne(whole) as real * AtLeastOne(other) as real
            * (share as real * (if whole > 0 then part as real / whole as real else 0.0))
  {
    var m := if whole > 0 then part else 0;
    TimesReal(share, m, AtLeastOne(other));
    if whole > 0 {
      var q, w, s, o := part as real / whole as real, whole as real, share as real, AtLeastOne(other) as real;
      assert q * w == part as real;
      Regroup(s, q, w, o);
    }
  }

  lemma Regroup(s: real, q: real, w: real, o: real)
    ensures s * (q * w) * o == w * o * (s * q)
  {
    assert s * (q * w) == (s * q) * w;
    assert (s * q) * w * o == (s * q) * (w * o);
  }

  /** A member's weight is his capital, his purchases, or a common multiple of the blend of both: the given
      part of his fraction of all capital and the rest of his fraction of all purchases. */
  lemma WeightExact(share: int, m: Member, totalCapital: nat, totalPatronage: nat)
    requires 0 <= share <= 10000
    ensures ShareOk(share)
    ensures Weight(ByCapital, share, m, totalCapital, totalPatronage) == m.capital
    ensures Weight(ByPatronage, share, m, totalCapital, totalPatronage) == m.patronage
    ensures var unit := AtLeastOne(totalCapital) as real * AtLeastOne(totalPatronage) as real;
            var capital := if totalCapital > 0 then m.capital as real / totalCapital as real else 0.0;
            var patronage := if totalPatronage > 0 then m.patronage as real / totalPatronage as real else 0.0;
            && unit > 0.0
            && Weight(Hybrid, share, m, totalCapital, totalPatronage) as real
               == unit * (share as real * capital + (10000 - share) as real * patronage)
  {
    PartOf(share, m.capital, totalCapital, totalPatronage);
    PartOf(WHOLE - share, m.patronage, totalPatronage, totalCapital);
    var c, p := AtLeastOne(totalCapital) as real, AtLeastOne(totalPatronage) as real;
    var x := share as real * (if totalCapital > 0 then m.capital as real / totalCapital as real else 0.0);
    var y := (WHOLE - share) as real
             * (if totalPatronage > 0 then m.patronage as real / totalPatronage as real else 0.0);
    hide Product3;
    Blend(c, p, x, y);
  }

  lemma Blend(c: real, p: real, x: real, y: real)
    ensures c * p * x + p * c * y == c * p * (x + y)
  {
    assert p * c == c * p;
  }

  // ---- How far the payout may miss the pool ----

  lemma ErrorStep(total: int, pool: int, sum: int, weight: int, share: int, w: int, k: int)
    requires total > 0
    requires -k * total <= 2 * (total * sum - pool * weight) <= k * total
    requires -total <= 2 * (total * share - pool * w) <= total
    ensures -(k + 1) * total <= 2 * (total * (sum + share) - pool * (weight + w)) <= (k + 1) * total
  {
    assert total * (sum + share) == total * sum + total * share;
    assert pool * (weight + w) == pool * weight + pool * w;
    assert (k + 1) * total == k * total + total;
  }

  lemma {:induction false} ErrorGrows(pool: int, total: int, weights: seq<nat>)
    requires total > 0
    ensures var k := |weights|;
            -k * total
            <= 2 * (total * Sum(weights, ShareFn(pool, total)) - pool * Sum(weights, WeightFn()))
            <= k * total
  {
    if weights != [] {
      var n := |weights| - 1;
      ErrorGrows(pool, total, weights[..n]);
      HalfUpNearest(pool * weights[n], total);
      ErrorStep(total, pool, Sum(weights[..n], ShareFn(pool, total)), Sum(weights[..n], WeightFn()),
                HalfUp(pool * weights[n], total), weights[n], n);
    }
  }

  lemma DivideOut(total: int, x: int, k: int)
    requires total > 0 && -k * total <= 2 * (total * x) <= k * total
    ensures -k <= 2 * x <= k
  {
    assert total * (2 * x) == 2 * (total * x) && k * total == total * k && total * (-k) == -(total * k);
    if 2 * x > k { Apart(total, 2 * x, k); }
    if 2 * x < -k { Apart(total, -k, 2 * x); }
  }

  lemma Factor(total: int, paid: int, pool: int)
    ensures total * paid - pool * total == total * (paid - pool)
  {
  }

  /** What is paid out differs from the pool by at most half a cent per member. */
  lemma PaidOutNearPool(pool: int, weights: seq<nat>)
    requires TotalWeight(weights) > 0
    ensures -|weights| <= 2 * (PaidOut(pool, weights) - pool) <= |weights|
  {
    var total, paid := TotalWeight(weights), PaidOut(pool, weights);
    ErrorGrows(pool, total, weights);
    Factor(total, paid, pool);
    DivideOut(total, paid - pool, |weights|);
  }

  // ---- Exactly when it overspends ----

  /** What the exact share of a weight has over a whole cent, in parts of `total`. */
  function RemainderFn(pool: nat, total: int): nat -> int {
    (w: nat) => if total > 0 then (pool * w) % total else 0
  }

  /** One for each share that is rounded up: its remainder is at least half a cent. */
  function RoundedUpFn(pool: nat, total: int): nat -> int {
    (w: nat) => if total > 0 && 2 * ((pool * w) % total) >= total then 1 else 0
  }

  /** Rounding one share adds what is missing to the next cent, or drops what is over the last one. */
  lemma OneShare(n: nat, d: int)
    requires d > 0
    ensures d * HalfUp(n, d) == n - n % d + (if 2 * (n % d) >= d then d else 0)
  {
    var q, r := n / d, n % d;
    assert n == d * q + r;
    if 2 * r >= d {
      assert d * (q + 1) == d * q + d;
      NearestUnique(n, d, q + 1);
    } else {
      NearestUnique(n, d, q);
    }
  }

  lemma {:induction false} SharesInAll(pool: nat, total: int, weights: seq<nat>)
    requires total > 0
    ensures total * Sum(weights, ShareFn(pool, total))
         == pool * Sum(weights, WeightFn()) - Sum(weights, RemainderFn(pool, total))
            + total * Sum(weights, RoundedUpFn(pool, total))
  {
    if weights != [] {
      var n := |weights| - 1;
      var w := weights[n];
      SharesInAll(pool, total, weights[..n]);
      OneShare(pool * w, total);
      Distribute(total, Sum(weights[..n], ShareFn(pool, total)), HalfUp(pool * w, total));
      Distribute(pool, Sum(weights[..n], WeightFn()), w);
      Distribute(total, Sum(weights[..n], RoundedUpFn(pool, total)), RoundedUpFn(pool, total)(w));
    }
  }

  lemma SameSign(d: int, x: int)
    requires d > 0
    ensures d * x <= 0 <==> x <= 0
  {
    if x > 0 { AtLeast(d, x); }
  }

  /** The payout stays within the pool exactly when the cents added by rounding up do not outweigh what
      all the shares had over whole cents: the number of shares whose remainder is half a cent or more,
      each counted as a whole, is at most the sum of all remainders. */
  lemma WithinPool(pool: nat, weights: seq<nat>)
    requires TotalWeight(weights) > 0
    ensures var total := TotalWeight(weights);
            PaidOut(pool, weights) <= pool <==>
              total * Sum(weights, RoundedUpFn(pool, total)) <= Sum(weights, RemainderFn(pool, total))
  {
    var total, paid := TotalWeight(weights), PaidOut(pool, weights);
    SharesInAll(pool, total, weights);
    Factor(total, paid, pool);
    SameSign(total, paid - pool);
  }

  /** Two equal members and a pool of one cent: both remainders are half a cent, both shares are rounded
      up, and twice the pool is paid out. */
  lemma PaysMoreThanThePool(w: nat)
    requires w > 0
    ensures PaidOut(1, [w, w]) == 2
  {
    var one: seq<nat> := [w];
    assert one + one == [w, w];
    SumSingleton<nat>(w, WeightFn());
    SumConcat<nat>(one, one, WeightFn());
    var total := TotalWeight([w, w]);
    NearestUnique(w, total, 1);
    SumSingleton<nat>(w, ShareFn(1, total));
    SumConcat<nat>(one, one, ShareFn(1, total));
  }

  /** A larger weight never earns less, and equal weights earn the same. */
  lemma SharesOrdered(pool: nat, total: int, a: nat, b: nat)
    requires total > 0 && a <= b
    ensures 0 <= ShareFn(pool, total)(a) <= ShareFn(pool, total)(b)
  {
    assert pool * b - pool * a == pool * (b - a) >= 0;
    HalfUpSign(pool * a, total);
    HalfUpMonotone(pool * a, pool * b, total);
  }
}
