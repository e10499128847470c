/** Which closed shifts the confirmed deposits cover. Shifts are numbered in closing order, so the
    oldest-first walk of a deposit is the walk of its links in ascending order. Amounts are cents. */
module Cash {
  import opened Outcome
  import opened Allocation
  import opened Fefo

  /** A CONFIRMED deposit as the allocation sees it: the bank's figure and the shifts it is for. Links
      that name no shift of the store are ignored. */
  datatype Confirmed = Confirmed(amount: int, links: set<nat>)

  /** What the till of a shift owes the bank; the opening float stays in it. */
  function BankableCash(counted: Option<int>, openingFloat: int): int {
    if counted.None? then 0 else Max0(counted.value - openingFloat)
  }

  function RoomTo(bankable: seq<int>, covered: seq<int>, links: set<nat>, n: nat): (r: seq<int>)
    requires n <= |bankable| == |covered|
    ensures |r| == n && NonNeg(r)
  {
    if n == 0 then []
    else RoomTo(bankable, covered, links, n - 1)
         + [if n - 1 in links then Max0(bankable[n - 1] - covered[n - 1]) else 0]
  }

  /** What each linked shift still has uncovered. */
  function Room(bankable: seq<int>, covered: seq<int>, links: set<nat>): (r: seq<int>)
    requires |bankable| == |covered|
    ensures |r| == |bankable| && NonNeg(r)
  {
    RoomTo(bankable, covered, links, |bankable|)
  }

  lemma {:induction false} RoomToAt(bankable: seq<int>, covered: seq<int>, links: set<nat>, n: nat, i: nat)
    requires i < n <= |bankable| == |covered|
    ensures RoomTo(bankable, covered, links, n)[i] == if i in links then Max0(bankable[i] - covered[i]) else 0
  {
    if i < n - 1 { RoomToAt(bankable, covered, links, n - 1, i); }
  }

  lemma RoomAt(bankable: seq<int>, covered: seq<int>, links: set<nat>, i: nat)
    requires i < |bankable| == |covered|
    ensures Room(bankable, covered, links)[i] == if i in links then Max0(bankable[i] - covered[i]) else 0
  {
    RoomToAt(bankable, covered, links, |bankable|, i);
  }

  function PlusTo(xs: seq<int>, ys: seq<int>, n: nat): (r: seq<int>)
    requires n <= |xs| == |ys|
    ensures |r| == n
  {
    if n == 0 then [] else PlusTo(xs, ys, n - 1) + [xs[n - 1] + ys[n - 1]]
  }

  lemma {:induction false} PlusToAt(xs: seq<int>, ys: seq<int>, n: nat, i: nat)
    requires i < n <= |xs| == |ys|
    ensures PlusTo(xs, ys, n)[i] == xs[i] + ys[i]
  {
    if i < n - 1 { PlusToAt(xs, ys, n - 1, i); }
  }

  /** One deposit, spread over its shifts oldest first as far as there is room. */
  function Cover(bankable: seq<int>, covered: seq<int>, d: Confirmed): (r: seq<int>)
    requires |bankable| == |covered|
    ensures |r| == |bankable|
  {
    PlusTo(covered, Takes(Room(bankable, covered, d.links), Max0(d.amount)), |bankable|)
  }

  function CoverFrom(bankable: seq<int>, covered: seq<int>, ds: seq<Confirmed>): (r: seq<int>)
    requires |bankable| == |covered|
    ensures |r| == |bankable|
  {
    if ds == [] then covered
    else Cover(bankable, CoverFrom(bankable, covered, ds[..|ds| - 1]), ds[|ds| - 1])
  }

  function Zeros(n: nat): (r: seq<int>)
    ensures |r| == n && forall i :: 0 <= i < n ==> r[i] == 0
  {
    if n == 0 then [] else Zeros(n - 1) + [0]
  }

  /** All deposits, in confirmation order. */
  function Coverage(bankable: seq<int>, ds: seq<Confirmed>): (r: seq<int>)
    ensures |r| == |bankable|
  {
    CoverFrom(bankable, Zeros(|bankable|), ds)
  }

  lemma CoverAt(bankable: seq<int>, covered: seq<int>, d: Confirmed, i: nat)
    requires i < |bankable| == |covered|
    ensures Cover(bankable, covered, d)[i]
         == covered[i] + Given(Room(bankable, covered, d.links), Max0(d.amount), i)
  {
    PlusToAt(covered, Takes(Room(bankable, covered, d.links), Max0(d.amount)), |bankable|, i);
    TakesAt(Room(bankable, covered, d.links), Max0(d.amount), i);
  }

  // ---- Sound and tight ----

  predicate Within(bankable: seq<int>, covered: seq<int>) {
    |bankable| == |covered| && forall i :: 0 <= i < |bankable| ==> 0 <= covered[i] <= bankable[i]
  }

  lemma {:induction false} PlusTotal(xs: seq<int>, ys: seq<int>, n: nat)
    requires n <= |xs| == |ys|
    ensures UpTo(PlusTo(xs, ys, |xs|), n) == UpTo(xs, n) + UpTo(ys, n)
  {
    if n > 0 {
      PlusTotal(xs, ys, n - 1);
      PlusToAt(xs, ys, |xs|, n - 1);
    }
  }

  lemma OneShift(bankable: seq<int>, covered: seq<int>, d: Confirmed, i: nat)
    requires Within(bankable, covered) && i < |bankable|
    ensures var next, room, a := Cover(bankable, covered, d), Room(bankable, covered, d.links), Max0(d.amount);
            && covered[i] <= next[i] <= bankable[i] && (i !in d.links ==> next[i] == covered[i])
            && (i in d.links && a >= UpTo(room, i + 1) ==> next[i] == bankable[i])
            && (next[i] > covered[i] ==> a > UpTo(room, i))
  {
    var room := Room(bankable, covered, d.links);
    CoverAt(bankable, covered, d, i);
    RoomAt(bankable, covered, d.links, i);
    UpToMono(room, i, i + 1);
  }

  /** What one deposit does: no shift is over-covered or loses cover; it is absorbed as far as its
      shifts have room; money left over means all of them are full; and a shift gets some of it only
      once every older linked shift is full. */
  lemma DepositSpreads(bankable: seq<int>, covered: seq<int>, d: Confirmed)
    requires Within(bankable, covered)
    ensures var next, n, room := Cover(bankable, covered, d), |bankable|, Room(bankable, covered, d.links);
            && Within(bankable, next)
            && (forall i :: 0 <= i < n ==> covered[i] <= next[i] && (i !in d.links ==> next[i] == covered[i]))
            && UpTo(next, n) - UpTo(covered, n) == Min(Max0(d.amount), UpTo(room, n))
            && (UpTo(next, n) - UpTo(covered, n) < d.amount ==>
                  forall i :: 0 <= i < n && i in d.links ==> next[i] == bankable[i])
            && (forall i, j :: 0 <= j < i < n && j in d.links && next[i] > covered[i] ==> next[j] == bankable[j])
  {
    var next, n, room, a := Cover(bankable, covered, d), |bankable|, Room(bankable, covered, d.links), Max0(d.amount);
    PlusTotal(covered, Takes(room, a), n);
    TakesPrefix(room, a, n);
    forall i | 0 <= i < n
      ensures covered[i] <= next[i] <= bankable[i] && (i !in d.links ==> next[i] == covered[i])
    {
      OneShift(bankable, covered, d, i);
    }
    forall i | 0 <= i < n && i in d.links && UpTo(next, n) - UpTo(covered, n) < d.amount
      ensures next[i] == bankable[i]
    {
      OneShift(bankable, covered, d, i);
      UpToMono(room, i + 1, n);
    }
    forall i, j | 0 <= j < i < n && j in d.links && next[i] > covered[i] ensures next[j] == bankable[j] {
      OneShift(bankable, covered, d, i);
      OneShift(bankable, covered, d, j);
      UpToMono(room, j + 1, i);
    }
  }

  function Banked(ds: seq<Confirmed>): int {
    if ds == [] then 0 else Banked(ds[..|ds| - 1]) + Max0(ds[|ds| - 1].amount)
  }

  lemma {:induction false} CoverFromWithin(bankable: seq<int>, covered: seq<int>, ds: seq<Confirmed>)
    requires Within(bankable, covered)
    ensures Within(bankable, CoverFrom(bankable, covered, ds))
    ensures UpTo(CoverFrom(bankable, covered, ds), |bankable|) <= UpTo(covered, |bankable|) + Banked(ds)
  {
    if ds != [] {
      CoverFromWithin(bankable, covered, ds[..|ds| - 1]);
      DepositSpreads(bankable, CoverFrom(bankable, covered, ds[..|ds| - 1]), ds[|ds| - 1]);
    }
  }

  lemma {:induction false} ZerosSum(n: nat, k: nat)
    requires k <= n
    ensures UpTo(Zeros(n), k) == 0
  {
    if k > 0 { ZerosSum(n, k - 1); }
  }

  /** Each shift is covered between nothing and its bankable cash, and no more is covered in all than
      the bank has confirmed. */
  lemma CoverageSound(bankable: seq<int>, ds: seq<Confirmed>)
    requires NonNeg(bankable)
    ensures Within(bankable, Coverage(bankable, ds))
    ensures UpTo(Coverage(bankable, ds), |bankable|) <= Banked(ds)
  {
    ZerosSum(|bankable|, |bankable|);
    CoverFromWithin(bankable, Zeros(|bankable|), ds);
  }

  // ---- Removing a deposit ----

  /** `less` is nowhere above `more`, and in all at most `gap` below it. */
  predicate Below(less: seq<int>, more: seq<int>, gap: int) {
    && |less| == |more| && (forall i :: 0 <= i < |less| ==> less[i] <= more[i])
    && UpTo(more, |more|) - UpTo(less, |less|) <= gap
  }

  lemma {:induction false} RoomShrinks(bankable: seq<int>, less: seq<int>, more: seq<int>, links: set<nat>, k: nat)
    requires |bankable| == |less| == |more| && k <= |bankable|
    requires forall i :: 0 <= i < |less| ==> less[i] <= more[i]
    ensures UpTo(Room(bankable, more, links), k) <= UpTo(Room(bankable, less, links), k)
  {
    if k > 0 {
      RoomShrinks(bankable, less, more, links, k - 1);
      RoomAt(bankable, less, links, k - 1);
      RoomAt(bankable, more, links, k - 1);
    }
  }

  /** Starting from less cover, a deposit ends with less cover, and never widens the gap. */
  lemma CoverMonotone(bankable: seq<int>, less: seq<int>, more: seq<int>, d: Confirmed, gap: int)
    requires Within(bankable, less) && Within(bankable, more) && Below(less, more, gap)
    ensures Below(Cover(bankable, less, d), Cover(bankable, more, d), gap)
  {
    var n, a := |bankable|, Max0(d.amount);
    var r, q := Room(bankable, less, d.links), Room(bankable, more, d.links);
    forall i | 0 <= i < n ensures Cover(bankable, less, d)[i] <= Cover(bankable, more, d)[i] {
      CoverAt(bankable, less, d, i);
      CoverAt(bankable, more, d, i);
      RoomAt(bankable, less, d.links, i);
      RoomAt(bankable, more, d.links, i);
      RoomShrinks(bankable, less, more, d.links, i);
      RoomShrinks(bankable, less, more, d.links, i + 1);
      UpToMono(r, i, i + 1);
      UpToMono(q, i, i + 1);
    }
    RoomShrinks(bankable, less, more, d.links, n);
    DepositSpreads(bankable, less, d);
    DepositSpreads(bankable, more, d);
  }

  lemma {:induction false} CoverFromMonotone(bankable: seq<int>, less: seq<int>, more: seq<int>, ds: seq<Confirmed>,
                                             gap: int)
    requires Within(bankable, less) && Within(bankable, more) && Below(less, more, gap)
    ensures Below(CoverFrom(bankable, less, ds), CoverFrom(bankable, more, ds), gap)
  {
    if ds != [] {
      var init := ds[..|ds| - 1];
      CoverFromMonotone(bankable, less, more, init, gap);
      CoverFromWithin(bankable, less, init);
      CoverFromWithin(bankable, more, init);
      CoverMonotone(bankable, CoverFrom(bankable, less, init), CoverFrom(bankable, more, init), ds[|ds| - 1], gap);
    }
  }

  lemma {:induction false} CoverFromConcat(bankable: seq<int>, covered: seq<int>, xs: seq<Confirmed>,
                                           ys: seq<Confirmed>)
    requires |bankable| == |covered|
    ensures CoverFrom(bankable, covered, xs + ys) == CoverFrom(bankable, CoverFrom(bankable, covered, xs), ys)
  {
    if ys == [] {
      assert xs + ys == xs;
    } else {
      CoverFromConcat(bankable, covered, xs, ys[..|ys| - 1]);
      assert (xs + ys)[..|xs + ys| - 1] == xs + ys[..|ys| - 1];
    }
  }

  /** Taking any deposit out, wherever it stands in the confirmation order, never raises the cover of
      any shift and lowers the total by at most that deposit, however the later ones re-spread. */
  lemma RemovalNonExpansive(bankable: seq<int>, before: seq<Confirmed>, d: Confirmed, after: seq<Confirmed>)
    requires NonNeg(bankable)
    ensures Below(Coverage(bankable, before + after), Coverage(bankable, before + [d] + after), Max0(d.amount))
  {
    var zero := Zeros(|bankable|);
    CoverFromConcat(bankable, zero, before, after);
    CoverFromConcat(bankable, zero, before + [d], after);
    assert (before + [d])[..|before|] == before;
    var less := CoverFrom(bankable, zero, before);
    CoverFromWithin(bankable, zero, before);
    DepositSpreads(bankable, less, d);
    CoverFromMonotone(bankable, less, Cover(bankable, less, d), after, Max0(d.amount));
  }

  // ---- The loop ----

  lemma CoverNothingMore(bankable: seq<int>, covered: seq<int>, d: Confirmed, i: nat)
    requires |bankable| == |covered| && i <= |bankable|
    requires Max0(d.amount) <= UpTo(Room(bankable, covered, d.links), i)
    ensures forall j :: i <= j < |bankable| ==> Cover(bankable, covered, d)[j] == covered[j]
  {
    var room := Room(bankable, covered, d.links);
    forall j | i <= j < |bankable| ensures Cover(bankable, covered, d)[j] == covered[j] {
      CoverAt(bankable, covered, d, j);
      UpToMono(room, i, j);
      UpToMono(room, j, j + 1);
    }
  }

  method SpreadDeposit(bankable: seq<int>, covered: array<int>, d: Confirmed)
    requires covered.Length == |bankable|
    modifies covered
    ensures covered[..] == Cover(bankable, old(covered[..]), d)
  {
    ghost var before := covered[..];
    ghost var room := Room(bankable, before, d.links);
    var left, i := d.amount, 0;
    while i < |bankable| && left > 0
      invariant 0 <= i <= |bankable|
      invariant Max0(left) == Max0(d.amount) - Min(Max0(d.amount), UpTo(room, i)) && left <= Max0(left)
      invariant forall j :: 0 <= j < i ==> covered[j] == Cover(bankable, before, d)[j]
      invariant forall j :: i <= j < |bankable| ==> covered[j] == before[j]
    {
      RoomAt(bankable, before, d.links, i);
      CoverAt(bankable, before, d, i);
      UpToMono(room, i, i + 1);
      if i in d.links {
        var remaining := bankable[i] - covered[i];
        if remaining > 0 {
          var take := Min(left, remaining);
          covered[i] := covered[i] + take;
          left := left - take;
        }
      }
      i := i + 1;
    }
    UpToMono(room, 0, i);
    if i < |bankable| { CoverNothingMore(bankable, before, d, i); }
    assert covered[..] == Cover(bankable, before, d);
  }

  method AllocateConfirmedDeposits(bankable: seq<int>, deposits: seq<Confirmed>) returns (covered: array<int>)
    ensures fresh(covered) && covered[..] == Coverage(bankable, deposits)
  {
    covered := new int[|bankable|](i => 0);
    assert covered[..] == Zeros(|bankable|);
    var k := 0;
    assert deposits[..0] == [];
    while k < |deposits|
      invariant 0 <= k <= |deposits| && covered.Length == |bankable|
      invariant covered[..] == CoverFrom(bankable, Zeros(|bankable|), deposits[..k])
    {
      SpreadDeposit(bankable, covered, deposits[k]);
      assert deposits[..k + 1][..k] == deposits[..k];
      k := k + 1;
    }
    assert deposits[..|deposits|] == deposits;
  }
}
