/** The lots behind a sale line: which lot supplied which unit, and the walk that maps a refund of
    some of the units back onto those lots. */
module Allocation {
  import opened Outcome
  import opened Sums

  /** One SaleItemLot row: `qty` units of the line came out of `lot`. */
  datatype Alloc = Alloc(lot: nat, qty: int)

  function QtyFn(): Alloc -> int { (a: Alloc) => a.qty }

  function OnFn(l: nat): Alloc -> int { (a: Alloc) => if a.lot == l then a.qty else 0 }

  function Total(allocs: seq<Alloc>): int { Sum(allocs, QtyFn()) }

  /** Units the rows take from lot `l`. */
  function On(allocs: seq<Alloc>, l: nat): int { Sum(allocs, OnFn(l)) }

  predicate Positive(allocs: seq<Alloc>) { forall a :: a in allocs ==> a.qty > 0 }

  lemma OnAppend(allocs: seq<Alloc>, a: Alloc, l: nat)
    ensures On(allocs + [a], l) == On(allocs, l) + (if a.lot == l then a.qty else 0)
    ensures Total(allocs + [a]) == Total(allocs) + a.qty
  {
    SumAppend(allocs, a, OnFn(l));
    SumAppend(allocs, a, QtyFn());
  }

  lemma OnCons(a: Alloc, rest: seq<Alloc>, l: nat)
    ensures On([a] + rest, l) == (if a.lot == l then a.qty else 0) + On(rest, l)
    ensures Total([a] + rest) == a.qty + Total(rest)
  {
    SumConcat([a], rest, OnFn(l));
    SumSingleton(a, OnFn(l));
    SumConcat([a], rest, QtyFn());
    SumSingleton(a, QtyFn());
  }

  lemma OnConcat(xs: seq<Alloc>, ys: seq<Alloc>, l: nat)
    ensures On(xs + ys, l) == On(xs, l) + On(ys, l)
    ensures Total(xs + ys) == Total(xs) + Total(ys)
  {
    SumConcat(xs, ys, OnFn(l));
    SumConcat(xs, ys, QtyFn());
  }

  lemma OnBounds(allocs: seq<Alloc>, l: nat)
    requires Positive(allocs)
    ensures 0 <= On(allocs, l) <= Total(allocs)
    ensures On(allocs, l) > 0 <==> exists i :: 0 <= i < |allocs| && allocs[i].lot == l
    ensures forall i :: 0 <= i < |allocs| ==> allocs[i].qty <= On(allocs, allocs[i].lot)
  {
    SumNonNeg(allocs, OnFn(l));
    forall i | 0 <= i < |allocs| ensures allocs[i].qty <= On(allocs, allocs[i].lot) {
      SumPart(allocs, i, OnFn(allocs[i].lot));
    }
    OnAtMostTotal(allocs, l);
    if forall i :: 0 <= i < |allocs| ==> allocs[i].lot != l {
      NoneOn(allocs, l);
    }
  }

  lemma {:induction false} OnAtMostTotal(allocs: seq<Alloc>, l: nat)
    requires Positive(allocs)
    ensures On(allocs, l) <= Total(allocs)
  {
    if allocs != [] {
      OnAtMostTotal(allocs[..|allocs| - 1], l);
    }
  }

  lemma {:induction false} NoneOn(allocs: seq<Alloc>, l: nat)
    requires forall i :: 0 <= i < |allocs| ==> allocs[i].lot != l
    ensures On(allocs, l) == 0
  {
    if allocs != [] {
      NoneOn(allocs[..|allocs| - 1], l);
    }
  }

  // ---- The unit-by-unit reading of an allocation ----

  /** The lot that supplied unit number `u` of the line: units are numbered in row order. */
  function UnitLot(allocs: seq<Alloc>, u: int): nat
    requires Positive(allocs) && 0 <= u < Total(allocs)
    decreases |allocs|
  {
    assert allocs == [allocs[0]] + allocs[1..];
    OnCons(allocs[0], allocs[1..], 0);
    if u < allocs[0].qty then allocs[0].lot
    else UnitLot(allocs[1..], u - allocs[0].qty)
  }

  /** How many of the units from `lo` up to `hi` came out of lot `l`. */
  function UnitsOn(allocs: seq<Alloc>, l: nat, lo: int, hi: int): int
    requires Positive(allocs) && 0 <= lo <= hi <= Total(allocs)
    decreases hi - lo
  {
    if lo == hi then 0
    else UnitsOn(allocs, l, lo, hi - 1) + (if UnitLot(allocs, hi - 1) == l then 1 else 0)
  }

  /** Intervals laid end to end count once each: no unit is restored twice. */
  lemma {:induction false} UnitsSplit(allocs: seq<Alloc>, l: nat, lo: int, mid: int, hi: int)
    requires Positive(allocs) && 0 <= lo <= mid <= hi <= Total(allocs)
    ensures UnitsOn(allocs, l, lo, hi) == UnitsOn(allocs, l, lo, mid) + UnitsOn(allocs, l, mid, hi)
    decreases hi
  {
    if mid < hi {
      UnitsSplit(allocs, l, lo, mid, hi - 1);
    }
  }

  lemma {:induction false} UnitsNonNeg(allocs: seq<Alloc>, l: nat, lo: int, hi: int)
    requires Positive(allocs) && 0 <= lo <= hi <= Total(allocs)
    ensures 0 <= UnitsOn(allocs, l, lo, hi) <= hi - lo
    decreases hi
  {
    if lo < hi {
      UnitsNonNeg(allocs, l, lo, hi - 1);
    }
  }

  /** Within the first row every unit comes from its lot; past it, the units of the remaining rows. */
  lemma {:induction false} UnitsFirstRow(allocs: seq<Alloc>, l: nat, lo: int, hi: int)
    requires allocs != [] && Positive(allocs) && 0 <= lo <= hi <= allocs[0].qty
    requires hi <= Total(allocs)
    ensures UnitsOn(allocs, l, lo, hi) == (if allocs[0].lot == l then hi - lo else 0)
    decreases hi
  {
    if lo < hi {
      UnitsFirstRow(allocs, l, lo, hi - 1);
    }
  }

  lemma {:induction false} UnitsLaterRows(allocs: seq<Alloc>, l: nat, lo: int, hi: int)
    requires allocs != [] && Positive(allocs) && 0 <= lo <= hi
    requires hi <= Total(allocs[1..])
    requires Total(allocs) == allocs[0].qty + Total(allocs[1..])
    ensures UnitsOn(allocs, l, allocs[0].qty + lo, allocs[0].qty + hi) == UnitsOn(allocs[1..], l, lo, hi)
    decreases hi
  {
    if lo < hi {
      UnitsLaterRows(allocs, l, lo, hi - 1);
    }
  }

  /** All the units of a line, lot by lot, are what its rows say. */
  lemma {:induction false} UnitsAll(allocs: seq<Alloc>, l: nat)
    requires Positive(allocs)
    ensures Total(allocs) >= 0
    ensures UnitsOn(allocs, l, 0, Total(allocs)) == On(allocs, l)
    decreases |allocs|
  {
    OnBounds(allocs, l);
    if allocs != [] {
      var rest := allocs[1..];
      assert allocs == [allocs[0]] + rest;
      OnCons(allocs[0], rest, l);
      UnitsAll(rest, l);
      UnitsSplit(allocs, l, 0, allocs[0].qty, Total(allocs));
      UnitsFirstRow(allocs, l, 0, allocs[0].qty);
      UnitsLaterRows(allocs, l, 0, Total(rest));
    }
  }

  /** No interval of units holds more units of a lot than the lot supplied. */
  lemma UnitsAtMost(allocs: seq<Alloc>, l: nat, lo: int, hi: int)
    requires Positive(allocs) && 0 <= lo <= hi <= Total(allocs)
    ensures UnitsOn(allocs, l, lo, hi) <= On(allocs, l)
  {
    var n := Total(allocs);
    UnitsSplit(allocs, l, 0, lo, n);
    UnitsSplit(allocs, l, lo, hi, n);
    UnitsNonNeg(allocs, l, 0, lo);
    UnitsNonNeg(allocs, l, hi, n);
    UnitsAll(allocs, l);
  }

  // ---- The refund walk ----

  function Min(a: int, b: int): int { if a < b then a else b }

  /** What the walk hands back: per row, the units left after `skip` refunded ones, up to `n`. */
  function Slice(allocs: seq<Alloc>, skip: int, n: int): (r: seq<Alloc>)
    decreases |allocs|
  {
    if allocs == [] || n <= 0 then []
    else
      var skipHere := Min(allocs[0].qty, skip);
      var restore := Min(allocs[0].qty - skipHere, n);
      if restore <= 0 then Slice(allocs[1..], skip - skipHere, n)
      else [Alloc(allocs[0].lot, restore)] + Slice(allocs[1..], skip - skipHere, n - restore)
  }

  lemma FirstAndRest(allocs: seq<Alloc>, l: nat)
    requires allocs != [] && Positive(allocs)
    ensures Positive(allocs[1..]) && Total(allocs[1..]) >= 0 && allocs[0].qty > 0
    ensures Total(allocs) == allocs[0].qty + Total(allocs[1..])
    ensures On(allocs, l) == (if allocs[0].lot == l then allocs[0].qty else 0) + On(allocs[1..], l)
  {
    assert allocs == [allocs[0]] + allocs[1..];
    OnCons(allocs[0], allocs[1..], l);
    OnBounds(allocs[1..], l);
  }

  /** A row that was refunded before is skipped; the first row with units left gives some of them. */
  lemma SliceHead(allocs: seq<Alloc>, skip: int, n: int)
    requires allocs != [] && Positive(allocs) && 0 <= skip && 0 < n
    ensures var q, rest := allocs[0].qty, allocs[1..];
            Slice(allocs, skip, n)
            == if q <= skip then Slice(rest, skip - q, n)
               else [Alloc(allocs[0].lot, Min(q - skip, n))] + Slice(rest, 0, n - Min(q - skip, n))
  {
  }

  lemma TakeRow(allocs: seq<Alloc>, skip: int, n: int, restore: int, l: nat)
    requires allocs != [] && Positive(allocs) && 0 <= skip < allocs[0].qty && 0 < n && skip + n <= Total(allocs)
    requires restore == Min(allocs[0].qty - skip, n)
    requires Positive(allocs[1..]) && n - restore <= Total(allocs[1..])
    ensures UnitsOn(allocs, l, skip, skip + n)
         == (if allocs[0].lot == l then restore else 0) + UnitsOn(allocs[1..], l, 0, n - restore)
  {
    FirstAndRest(allocs, l);
    UnitsSplit(allocs, l, skip, skip + restore, skip + n);
    UnitsFirstRow(allocs, l, skip, skip + restore);
    if n > restore { UnitsLaterRows(allocs, l, 0, n - restore); }
  }

  /** The walk returns exactly the units numbered skip .. skip + n, each to the lot it came from. */
  lemma {:induction false} SliceIsInterval(allocs: seq<Alloc>, skip: int, n: int, l: nat)
    requires Positive(allocs) && 0 <= skip && 0 <= n && skip + n <= Total(allocs)
    ensures On(Slice(allocs, skip, n), l) == UnitsOn(allocs, l, skip, skip + n)
    ensures Total(Slice(allocs, skip, n)) == n
    ensures Positive(Slice(allocs, skip, n))
    decreases |allocs|
  {
    if allocs != [] && n > 0 {
      var q, rest := allocs[0].qty, allocs[1..];
      FirstAndRest(allocs, l);
      SliceHead(allocs, skip, n);
      hide Slice, UnitsOn;
      if q <= skip {
        SliceIsInterval(rest, skip - q, n, l);
        UnitsLaterRows(allocs, l, skip - q, skip - q + n);
      } else {
        var restore := Min(q - skip, n);
        SliceIsInterval(rest, 0, n - restore, l);
        OnCons(Alloc(allocs[0].lot, restore), Slice(rest, 0, n - restore), l);
        TakeRow(allocs, skip, n, restore, l);
      }
    }
  }

  /** The walk only names lots of the line. */
  lemma {:induction false} SliceLots(allocs: seq<Alloc>, skip: int, n: int)
    ensures forall r :: r in Slice(allocs, skip, n) ==> exists a :: a in allocs && a.lot == r.lot
    decreases |allocs|
  {
    if allocs != [] && n > 0 {
      var skipHere := Min(allocs[0].qty, skip);
      var restore := Min(allocs[0].qty - skipHere, n);
      if restore <= 0 {
        SliceLots(allocs[1..], skip - skipHere, n);
      } else {
        SliceLots(allocs[1..], skip - skipHere, n - restore);
      }
    }
  }

  lemma {:induction false} SliceShort(allocs: seq<Alloc>, skip: int, n: int)
    requires Positive(allocs) && 0 <= skip && 0 <= n
    ensures Total(Slice(allocs, skip, n)) <= n
    ensures Total(Slice(allocs, skip, n)) == n <==> n == 0 || skip + n <= Total(allocs)
    decreases |allocs|
  {
    if allocs != [] && n > 0 {
      var q, rest := allocs[0].qty, allocs[1..];
      FirstAndRest(allocs, 0);
      SliceHead(allocs, skip, n);
      hide Slice;
      if q <= skip {
        SliceShort(rest, skip - q, n);
      } else {
        var restore := Min(q - skip, n);
        SliceShort(rest, 0, n - restore);
        OnCons(Alloc(allocs[0].lot, restore), Slice(rest, 0, n - restore), 0);
      }
    }
  }

  /** One round of the loop below. */
  lemma SliceStep(allocs: seq<Alloc>, i: nat, skip: int, n: int)
    requires i < |allocs| && n > 0
    ensures var skipHere := Min(allocs[i].qty, skip);
            var restore := Min(allocs[i].qty - skipHere, n);
            Slice(allocs[i..], skip, n)
            == if restore <= 0 then Slice(allocs[i + 1..], skip - skipHere, n)
               else [Alloc(allocs[i].lot, restore)] + Slice(allocs[i + 1..], skip - skipHere, n - restore)
  {
    assert allocs[i..][1..] == allocs[i + 1..];
  }

  lemma WalkOutcome(allocs: seq<Alloc>, skip: int, n: int)
    requires Positive(allocs) && 0 <= skip && 0 < n
    ensures Total(Slice(allocs, skip, n)) <= n
    ensures Total(Slice(allocs, skip, n)) == n <==> skip + n <= Total(allocs)
    ensures skip + n <= Total(allocs) ==> Positive(Slice(allocs, skip, n))
    ensures skip + n <= Total(allocs) ==>
              forall l: nat :: On(Slice(allocs, skip, n), l) == UnitsOn(allocs, l, skip, skip + n)
  {
    SliceShort(allocs, skip, n);
    if skip + n <= Total(allocs) {
      forall l: nat ensures On(Slice(allocs, skip, n), l) == UnitsOn(allocs, l, skip, skip + n) {
        SliceIsInterval(allocs, skip, n, l);
      }
      SliceIsInterval(allocs, skip, n, 0);
    }
  }

  lemma WalkPut(done: seq<Alloc>, a: Alloc, rest: seq<Alloc>)
    ensures done + ([a] + rest) == (done + [a]) + rest
    ensures Total(done + [a]) == Total(done) + a.qty
  {
    OnAppend(done, a, 0);
  }

  /** Where the loop begins, and where it ends. */
  lemma WalkEnds(allocs: seq<Alloc>, i: nat, skip: int, n: int)
    requires i <= |allocs| && (i == |allocs| || n <= 0)
    ensures Slice(allocs[i..], skip, n) == []
    ensures Total([]) == 0 && allocs[0..] == allocs
  {
  }

  /** The loop of finalizeSucceededRefund: what it hands back, and how many units it could not place. */
  method WalkBack(allocs: seq<Alloc>, alreadyRefunded: int, quantity: int)
    returns (restorations: seq<Alloc>, toRestore: int)
    requires Positive(allocs) && 0 <= alreadyRefunded && 0 < quantity
    ensures restorations == Slice(allocs, alreadyRefunded, quantity)
    ensures toRestore == quantity - Total(restorations)
  {
    hide Slice, Total, Positive;
    var skip, i := alreadyRefunded, 0;
    restorations, toRestore := [], quantity;
    ghost var walk := Slice(allocs, alreadyRefunded, quantity);
    WalkEnds(allocs, |allocs|, skip, quantity);
    assert [] + walk == walk;
    while i < |allocs| && toRestore > 0
      invariant 0 <= i <= |allocs| && 0 <= toRestore
      invariant restorations + Slice(allocs[i..], skip, toRestore) == walk
      invariant Total(restorations) == quantity - toRestore
    {
      var alloc := allocs[i];
      SliceStep(allocs, i, skip, toRestore);
      var skipHere := Min(alloc.qty, skip);
      var capacity := alloc.qty - skipHere;
      var restore := Min(capacity, toRestore);
      skip := skip - skipHere;
      i := i + 1;
      if restore > 0 {
        WalkPut(restorations, Alloc(alloc.lot, restore), Slice(allocs[i..], skip, toRestore - restore));
        restorations := restorations + [Alloc(alloc.lot, restore)];
        toRestore := toRestore - restore;
      }
    }
    WalkEnds(allocs, i, skip, toRestore);
    assert restorations + [] == restorations;
  }

  /** It refuses with 500 exactly when the line has fewer than skip + n units, and otherwise hands back
      the units skip .. skip + n. */
  method RestoreWalk(allocs: seq<Alloc>, alreadyRefunded: int, quantity: int) returns (r: Result<seq<Alloc>>)
    requires Positive(allocs) && 0 <= alreadyRefunded && 0 < quantity
    ensures r.Ok? <==> alreadyRefunded + quantity <= Total(allocs)
    ensures r.Ok? ==> r.value == Slice(allocs, alreadyRefunded, quantity)
    ensures r.Ok? ==> Positive(r.value) && Total(r.value) == quantity
    ensures r.Ok? ==> forall l: nat :: On(r.value, l) == UnitsOn(allocs, l, alreadyRefunded, alreadyRefunded + quantity)
    ensures r.Err? ==> r.status == 500
  {
    var restorations, toRestore := WalkBack(allocs, alreadyRefunded, quantity);
    WalkOutcome(allocs, alreadyRefunded, quantity);
    return if toRestore > 0 then Err(500) else Ok(restorations);
  }
}
