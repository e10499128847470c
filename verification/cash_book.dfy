/** The life of a deposit: recorded by the operator, confirmed at the bank's figure, perhaps disputed.
    Coverage is never stored; it follows from the CONFIRMED rows in confirmation order. */
module CashBooks {
  import opened Outcome
  import opened Allocation
  import opened Fefo
  import opened Cash

  datatype DepositStatus = Recorded | BankConfirmed | Disputed

  datatype Deposit = Deposit(status: DepositStatus, amount: int, confirmedAmount: int, confirmedAt: int,
                             links: set<nat>)

  // ---- Confirmation order ----

  predicate Earlier(ds: seq<Deposit>, i: nat, j: nat)
    requires i < |ds| && j < |ds|
  {
    ds[i].confirmedAt < ds[j].confirmedAt || (ds[i].confirmedAt == ds[j].confirmedAt && i < j)
  }

  predicate Rows(ds: seq<Deposit>, order: seq<nat>) { forall i :: 0 <= i < |order| ==> order[i] < |ds| }

  predicate InOrderOf(ds: seq<Deposit>, order: seq<nat>)
    requires Rows(ds, order)
  {
    forall i, j :: 0 <= i < j < |order| ==> Earlier(ds, order[i], order[j])
  }

  function Place(ds: seq<Deposit>, order: seq<nat>, d: nat): (r: seq<nat>)
    requires Rows(ds, order) && d < |ds|
    ensures Rows(ds, r)
  {
    if order == [] || Earlier(ds, d, order[0]) then [d] + order else [order[0]] + Place(ds, order[1..], d)
  }

  /** The CONFIRMED deposits among the first `n`, by confirmation time and then id. */
  function ConfirmedIds(ds: seq<Deposit>, n: nat): (r: seq<nat>)
    requires n <= |ds|
    ensures Rows(ds, r)
  {
    if n == 0 then []
    else if ds[n - 1].status.BankConfirmed? then Place(ds, ConfirmedIds(ds, n - 1), n - 1)
    else ConfirmedIds(ds, n - 1)
  }

  function AppliedIds(ds: seq<Deposit>, order: seq<nat>): (r: seq<Confirmed>)
    requires Rows(ds, order)
    ensures |r| == |order|
  {
    if order == [] then []
    else [Confirmed(ds[order[0]].confirmedAmount, ds[order[0]].links)] + AppliedIds(ds, order[1..])
  }

  /** What the allocation is given: the query of loadDrawerCoverage. */
  function Applied(ds: seq<Deposit>): seq<Confirmed> { AppliedIds(ds, ConfirmedIds(ds, |ds|)) }

  lemma {:induction false} PlaceKeeps(ds: seq<Deposit>, order: seq<nat>, d: nat)
    requires Rows(ds, order) && d < |ds| && InOrderOf(ds, order) && d !in order
    ensures InOrderOf(ds, Place(ds, order, d))
    ensures forall x :: x in Place(ds, order, d) <==> x == d || x in order
  {
    if order != [] && !Earlier(ds, d, order[0]) {
      var rest := order[1..];
      PlaceKeeps(ds, rest, d);
      var r := Place(ds, rest, d);
      forall j | 0 <= j < |r| ensures Earlier(ds, order[0], r[j]) {
        assert r[j] in r;
        if r[j] != d {
          var i :| 0 <= i < |rest| && rest[i] == r[j];
          assert Earlier(ds, order[0], order[i + 1]);
        }
      }
    }
  }

  lemma {:induction false} ConfirmedIdsSpec(ds: seq<Deposit>, n: nat)
    requires n <= |ds|
    ensures InOrderOf(ds, ConfirmedIds(ds, n))
    ensures forall d: nat :: d in ConfirmedIds(ds, n) <==> d < n && ds[d].status.BankConfirmed?
  {
    if n > 0 {
      ConfirmedIdsSpec(ds, n - 1);
      var order, r := ConfirmedIds(ds, n - 1), ConfirmedIds(ds, n);
      assert r == if ds[n - 1].status.BankConfirmed? then Place(ds, order, n - 1) else order;
      hide ConfirmedIds, Place;
      if ds[n - 1].status.BankConfirmed? { PlaceKeeps(ds, order, n - 1); }
    }
  }

  /** Row `order[k]` of the table is the deposit applied as number `k`. */
  predicate IsApplied(ds: seq<Deposit>, order: seq<nat>, applied: seq<Confirmed>) {
    && |applied| == |order|
    && forall k :: 0 <= k < |order| ==>
         && order[k] < |ds| && ds[order[k]].status.BankConfirmed?
         && applied[k] == Confirmed(ds[order[k]].confirmedAmount, ds[order[k]].links)
  }

  lemma {:induction false} AppliedAt(ds: seq<Deposit>, order: seq<nat>, k: nat)
    requires Rows(ds, order) && k < |order|
    ensures AppliedIds(ds, order)[k] == Confirmed(ds[order[k]].confirmedAmount, ds[order[k]].links)
  {
    if k > 0 { AppliedAt(ds, order[1..], k - 1); }
  }

  /** Which deposits cover shifts, and in what order: every CONFIRMED one, at the bank's figure, once; the
      one confirmed first before any confirmed later, and of two confirmed together the lower id. */
  lemma AppliedInOrder(ds: seq<Deposit>)
    ensures exists order: seq<nat> ::
              && IsApplied(ds, order, Applied(ds))
              && (forall d: nat :: d < |ds| && ds[d].status.BankConfirmed? ==> d in order)
              && (forall i, j :: 0 <= i < j < |order| ==>
                    ds[order[i]].confirmedAt < ds[order[j]].confirmedAt
                    || (ds[order[i]].confirmedAt == ds[order[j]].confirmedAt && order[i] < order[j]))
  {
    var order := ConfirmedIds(ds, |ds|);
    ConfirmedIdsSpec(ds, |ds|);
    forall k | 0 <= k < |order|
      ensures ds[order[k]].status.BankConfirmed?
      ensures Applied(ds)[k] == Confirmed(ds[order[k]].confirmedAmount, ds[order[k]].links)
    {
      assert order[k] in order;
      AppliedAt(ds, order, k);
    }
    assert IsApplied(ds, order, Applied(ds));
    forall i, j | 0 <= i < j < |order|
      ensures ds[order[i]].confirmedAt < ds[order[j]].confirmedAt
              || (ds[order[i]].confirmedAt == ds[order[j]].confirmedAt && order[i] < order[j])
    {
      assert Earlier(ds, order[i], order[j]);
    }
  }

  function Without(order: seq<nat>, id: nat): seq<nat> {
    if order == [] then []
    else if order[0] == id then Without(order[1..], id)
    else [order[0]] + Without(order[1..], id)
  }

  lemma {:induction false} WithoutAbsent(order: seq<nat>, id: nat)
    requires id !in order
    ensures Without(order, id) == order
  {
    if order != [] { WithoutAbsent(order[1..], id); }
  }

  lemma {:induction false} WithoutRows(ds: seq<Deposit>, order: seq<nat>, id: nat)
    requires Rows(ds, order)
    ensures Rows(ds, Without(order, id))
    ensures forall x :: x in Without(order, id) <==> x in order && x != id
  {
    if order != [] { WithoutRows(ds, order[1..], id); }
  }

  /** Only row `id` differs. */
  predicate SameBut(a: seq<Deposit>, b: seq<Deposit>, id: nat) {
    |a| == |b| && forall i :: 0 <= i < |a| && i != id ==> a[i] == b[i]
  }

  /** Placing a deposit and taking another out commute. */
  lemma {:induction false} PlaceWithout(a: seq<Deposit>, b: seq<Deposit>, order: seq<nat>, id: nat, d: nat)
    requires SameBut(a, b, id) && Rows(b, order) && InOrderOf(b, order) && d < |b| && d != id && d !in order
    ensures Rows(a, Without(order, id))
    ensures Place(a, Without(order, id), d) == Without(Place(b, order, d), id)
  {
    WithoutRows(a, order, id);
    if order == [] {
    } else if Earlier(b, d, order[0]) {
      var kept := Without(order, id);
      assert ([d] + order)[1..] == order;
      if kept != [] {
        assert kept[0] in kept;
        var i :| 0 <= i < |order| && order[i] == kept[0];
        assert i > 0 ==> Earlier(b, order[0], order[i]);
      }
    } else {
      PlaceWithout(a, b, order[1..], id, d);
      WithoutRows(a, order[1..], id);
      var placed := Place(b, order[1..], d);
      assert ([order[0]] + placed)[1..] == placed;
      if order[0] != id {
        var kept := Without(order[1..], id);
        assert ([order[0]] + kept)[1..] == kept;
      }
    }
  }

  /** A deposit that is not confirmed is in no confirmation order; the others keep theirs. */
  lemma {:induction false} OrderWithout(a: seq<Deposit>, b: seq<Deposit>, id: nat, n: nat)
    requires SameBut(a, b, id) && id < |a| && n <= |a| && !a[id].status.BankConfirmed?
    ensures ConfirmedIds(a, n) == Without(ConfirmedIds(b, n), id)
  {
    if n > 0 {
      OrderWithout(a, b, id, n - 1);
      ConfirmedIdsSpec(b, n - 1);
      NextConfirmed(a, n);
      NextConfirmed(b, n);
      var order := ConfirmedIds(b, n - 1);
      hide ConfirmedIds, Place, Without, Earlier;
      if n - 1 == id {
        WithoutAbsent(order, id);
        if b[id].status.BankConfirmed? { PlaceAndTake(b, order, id); }
      } else if b[n - 1].status.BankConfirmed? {
        PlaceWithout(a, b, order, id, n - 1);
      }
    }
  }

  lemma NextConfirmed(ds: seq<Deposit>, n: nat)
    requires 0 < n <= |ds|
    ensures ConfirmedIds(ds, n)
         == if ds[n - 1].status.BankConfirmed? then Place(ds, ConfirmedIds(ds, n - 1), n - 1)
            else ConfirmedIds(ds, n - 1)
  {
  }

  lemma {:induction false} PlaceAndTake(ds: seq<Deposit>, order: seq<nat>, id: nat)
    requires Rows(ds, order) && id < |ds| && id !in order
    ensures Without(Place(ds, order, id), id) == order
  {
    if order == [] || Earlier(ds, id, order[0]) {
      assert ([id] + order)[1..] == order;
      WithoutAbsent(order, id);
    } else {
      PlaceAndTake(ds, order[1..], id);
      var placed := Place(ds, order[1..], id);
      assert ([order[0]] + placed)[1..] == placed;
    }
  }

  lemma {:induction false} AppliedConcat(ds: seq<Deposit>, xs: seq<nat>, ys: seq<nat>)
    requires Rows(ds, xs) && Rows(ds, ys)
    ensures Rows(ds, xs + ys) && AppliedIds(ds, xs + ys) == AppliedIds(ds, xs) + AppliedIds(ds, ys)
  {
    if xs == [] {
      assert xs + ys == ys;
    } else {
      AppliedConcat(ds, xs[1..], ys);
      assert (xs + ys)[1..] == xs[1..] + ys;
    }
  }

  lemma {:induction false} AppliedSame(a: seq<Deposit>, b: seq<Deposit>, id: nat, order: seq<nat>)
    requires SameBut(a, b, id) && Rows(a, order) && id !in order
    ensures AppliedIds(a, order) == AppliedIds(b, order)
  {
    if order != [] { AppliedSame(a, b, id, order[1..]); }
  }

  /** The confirmation order with and without deposit `id`. */
  lemma SplitOrder(a: seq<Deposit>, b: seq<Deposit>, id: nat) returns (before: seq<nat>, after: seq<nat>)
    requires SameBut(a, b, id) && id < |a|
    requires !a[id].status.BankConfirmed? && b[id].status.BankConfirmed?
    ensures ConfirmedIds(b, |b|) == before + [id] + after && ConfirmedIds(a, |a|) == before + after
    ensures id !in before && id !in after
  {
    var order := ConfirmedIds(b, |b|);
    ConfirmedIdsSpec(b, |b|);
    OrderWithout(a, b, id, |a|);
    var k :| 0 <= k < |order| && order[k] == id;
    before, after := order[..k], order[k + 1..];
    OnceInOrder(b, order, k);
    WithoutAt(order, k, id);
  }

  lemma OnceInOrder(ds: seq<Deposit>, order: seq<nat>, k: nat)
    requires Rows(ds, order) && InOrderOf(ds, order) && k < |order|
    ensures order[k] !in order[..k] && order[k] !in order[k + 1..]
  {
    forall i | 0 <= i < |order| && i != k ensures order[i] != order[k] {
      if i < k { assert Earlier(ds, order[i], order[k]); } else { assert Earlier(ds, order[k], order[i]); }
    }
  }

  lemma {:induction false} WithoutAt(order: seq<nat>, k: nat, id: nat)
    requires k < |order| && order[k] == id && id !in order[..k] && id !in order[k + 1..]
    ensures order == order[..k] + [id] + order[k + 1..]
    ensures Without(order, id) == order[..k] + order[k + 1..]
  {
    if k == 0 {
      WithoutAbsent(order[1..], id);
    } else {
      var rest := order[1..];
      assert order[..k] == [order[0]] + rest[..k - 1] && rest[k..] == order[k + 1..];
      WithoutAt(rest, k - 1, id);
    }
  }

  lemma AppliedOne(ds: seq<Deposit>, id: nat)
    requires id < |ds|
    ensures AppliedIds(ds, [id]) == [Confirmed(ds[id].confirmedAmount, ds[id].links)]
  {
    assert AppliedIds(ds, [id]) == [Confirmed(ds[id].confirmedAmount, ds[id].links)] + AppliedIds(ds, [id][1..]);
  }

  lemma AppliedSplit(a: seq<Deposit>, b: seq<Deposit>, id: nat, before: seq<nat>, after: seq<nat>)
    requires SameBut(a, b, id) && id < |a| && Rows(a, before) && Rows(a, after) && id !in before && id !in after
    ensures Rows(b, before + [id] + after) && Rows(a, before + after)
    ensures AppliedIds(b, before + [id] + after)
         == AppliedIds(b, before) + [Confirmed(b[id].confirmedAmount, b[id].links)] + AppliedIds(b, after)
    ensures AppliedIds(a, before + after) == AppliedIds(b, before) + AppliedIds(b, after)
  {
    hide AppliedIds;
    AppliedConcat(b, before, [id]);
    AppliedOne(b, id);
    AppliedConcat(b, before + [id], after);
    AppliedConcat(a, before, after);
    AppliedSame(a, b, id, before);
    AppliedSame(a, b, id, after);
  }

  /** Table `a` is table `b` with deposit `id` no longer (or not yet) confirmed: no shift is better
      covered, and at most that deposit's confirmed amount is missing in all. */
  lemma UnconfirmedCoversLess(shifts: seq<int>, a: seq<Deposit>, b: seq<Deposit>, id: nat)
    requires NonNeg(shifts) && SameBut(a, b, id) && id < |a|
    requires !a[id].status.BankConfirmed? && b[id].status.BankConfirmed?
    ensures Below(Coverage(shifts, Applied(a)), Coverage(shifts, Applied(b)), Max0(b[id].confirmedAmount))
  {
    var before, after := SplitOrder(a, b, id);
    assert Rows(b, ConfirmedIds(b, |b|));
    assert Rows(a, before) && Rows(a, after) by {
      forall i | 0 <= i < |after| ensures after[i] < |a| {
        assert (before + [id] + after)[|before| + 1 + i] == after[i];
      }
      forall i | 0 <= i < |before| ensures before[i] < |a| { assert (before + [id] + after)[i] == before[i]; }
    }
    AppliedSplit(a, b, id, before, after);
    RemovalNonExpansive(shifts, AppliedIds(b, before), Confirmed(b[id].confirmedAmount, b[id].links),
      AppliedIds(b, after));
  }

  /** Rows that are not confirmed do not matter. */
  lemma UnconfirmedIgnored(a: seq<Deposit>, b: seq<Deposit>, id: nat)
    requires SameBut(a, b, id) && id < |a| && !a[id].status.BankConfirmed? && !b[id].status.BankConfirmed?
    ensures Applied(a) == Applied(b)
  {
    OrderWithout(a, b, id, |a|);
    ConfirmedIdsSpec(b, |b|);
    WithoutAbsent(ConfirmedIds(b, |b|), id);
    AppliedSame(a, b, id, ConfirmedIds(b, |b|));
  }

  lemma {:induction false} OrderOfPrefix(ds: seq<Deposit>, d: Deposit, n: nat)
    requires n <= |ds|
    ensures ConfirmedIds(ds + [d], n) == ConfirmedIds(ds, n)
  {
    if n > 0 {
      OrderOfPrefix(ds, d, n - 1);
      if ds[n - 1].status.BankConfirmed? { PlaceInPrefix(ds, d, ConfirmedIds(ds, n - 1), n - 1); }
    }
  }

  lemma {:induction false} PlaceInPrefix(ds: seq<Deposit>, d: Deposit, order: seq<nat>, k: nat)
    requires Rows(ds, order) && k < |ds|
    ensures Place(ds + [d], order, k) == Place(ds, order, k)
  {
    if order != [] && !Earlier(ds, k, order[0]) { PlaceInPrefix(ds, d, order[1..], k); }
  }

  lemma {:induction false} AppliedPrefix(ds: seq<Deposit>, d: Deposit, order: seq<nat>)
    requires Rows(ds, order)
    ensures Rows(ds + [d], order) && AppliedIds(ds + [d], order) == AppliedIds(ds, order)
  {
    if order != [] { AppliedPrefix(ds, d, order[1..]); }
  }

  // ---- The service ----

  class CashBook {
    /** Closed shifts, in closing order, by the cash that is to be banked; drawers still open have ids of
        their own and no place in that order yet. */
    var shifts: seq<int>
    var open: set<nat>
    var deposits: seq<Deposit>

    ghost predicate Valid()
      reads this
    {
      NonNeg(shifts)
    }

    ghost function Covered(): seq<int>
      reads this
    {
      Coverage(shifts, Applied(deposits))
    }

    constructor ()
      ensures Valid() && shifts == [] && deposits == [] && open == {}
    {
      shifts, deposits, open := [], [], {};
    }

    method OpenDrawer(drawer: nat)
      modifies `open
      ensures open == old(open) + {drawer}
    {
      open := open + {drawer};
    }

    /** What a drawer owes the bank is what it holds over its opening float; one that was not counted, or
        holds less than that, owes nothing. */
    method CloseShift(drawer: nat, counted: Option<int>, openingFloat: int)
      requires Valid()
      modifies this
      ensures Valid() && deposits == old(deposits) && open == old(open) - {drawer}
      ensures |shifts| == |old(shifts)| + 1 && shifts[..|old(shifts)|] == old(shifts)
      ensures var owed := shifts[|old(shifts)|];
              && (counted.None? || counted.value <= openingFloat ==> owed == 0)
              && (counted.Some? && counted.value > openingFloat ==> openingFloat + owed == counted.value)
    {
      open := open - {drawer};
      shifts := shifts + [BankableCash(counted, openingFloat)];
    }

    predicate Known(links: set<nat>, openLinks: set<nat>)
      reads this
    {
      (forall i :: i in links ==> i < |shifts|) && openLinks <= open
    }

    /** A claim for the listed drawers. It covers nothing. It is refused when it is for no money or no
        drawer (400), when a drawer is unknown (404), and when one is still open or already covered in
        full (409). */
    method Record(amount: int, links: set<nat>, openLinks: set<nat>) returns (r: Result<nat>)
      requires Valid()
      modifies `deposits
      ensures Valid() && Covered() == old(Covered())
      ensures r == Err(400) <==> amount <= 0 || links + openLinks == {}
      ensures r == Err(404) <==>
                && amount > 0 && links + openLinks != {}
                && ((exists i :: i in links && i >= |shifts|) || exists d :: d in openLinks && d !in open)
      ensures r.Ok? <==> amount > 0 && links != {} && openLinks == {}
                         && (forall i :: i in links ==> i < |shifts| && old(Covered())[i] < shifts[i])
      ensures r.Ok? ==>
                && r.value == |old(deposits)|
                && deposits == old(deposits) + [Deposit(Recorded, amount, 0, 0, links)]
      ensures r.Err? ==> deposits == old(deposits) && r.status in {400, 404, 409}
    {
      if amount <= 0 || links + openLinks == {} { return Err(400); }
      if !Known(links, openLinks) { return Err(404); }
      if openLinks != {} { return Err(409); }
      var covered := AllocateConfirmedDeposits(shifts, Applied(deposits));
      if exists i :: i in links && shifts[i] - covered[i] <= 0 { return Err(409); }
      var d := Deposit(Recorded, amount, 0, 0, links);
      OrderOfPrefix(deposits, d, |deposits|);
      AppliedPrefix(deposits, d, ConfirmedIds(deposits, |deposits|));
      deposits := deposits + [d];
      return Ok(|deposits| - 1);
    }

    /** The bank's figure is what counts from now on: no shift loses cover, and at most that figure is
        newly covered in all. */
    method Confirm(id: nat, actual: int, now: int) returns (refusal: Option<nat>)
      requires Valid()
      modifies `deposits
      ensures Valid()
      ensures refusal.None? <==> actual > 0 && id < |old(deposits)| && old(deposits)[id].status.Recorded?
      ensures refusal.None? ==>
                && deposits == old(deposits)[id := old(deposits)[id].(
                                 status := BankConfirmed, confirmedAmount := actual, confirmedAt := now)]
                && Below(old(Covered()), Covered(), actual)
      ensures refusal.Some? ==> deposits == old(deposits)
    {
      if actual <= 0 { return Some(400); }
      if id >= |deposits| { return Some(404); }
      if !deposits[id].status.Recorded? { return Some(409); }
      var next := deposits[id := deposits[id].(status := BankConfirmed, confirmedAmount := actual, confirmedAt := now)];
      UnconfirmedCoversLess(shifts, deposits, next, id);
      deposits := next;
      return None;
    }

    /** Disputing never raises any shift's cover. A claim that was never confirmed covered nothing; a
        confirmed one releases at most what the bank had confirmed, with nothing to unwind. */
    method Dispute(id: nat) returns (refusal: Option<nat>)
      requires Valid()
      modifies `deposits
      ensures Valid()
      ensures refusal.None? <==> id < |old(deposits)| && !old(deposits)[id].status.Disputed?
      ensures refusal.None? ==>
                && deposits == old(deposits)[id := old(deposits)[id].(status := Disputed)]
                && Below(Covered(), old(Covered()),
                         if old(deposits)[id].status.BankConfirmed? then Max0(old(deposits)[id].confirmedAmount) else 0)
      ensures refusal.Some? ==> deposits == old(deposits)
    {
      if id >= |deposits| { return Some(404); }
      if deposits[id].status.Disputed? { return Some(409); }
      var next := deposits[id := deposits[id].(status := Disputed)];
      if deposits[id].status.BankConfirmed? {
        UnconfirmedCoversLess(shifts, next, deposits, id);
      } else {
        UnconfirmedIgnored(next, deposits, id);
      }
      deposits := next;
      return None;
    }

    /** Cash still in the tills: everything bankable that no confirmed deposit covers. */
    method Undeposited() returns (total: int)
      requires Valid()
      ensures total == UpTo(shifts, |shifts|) - UpTo(Covered(), |shifts|) >= 0
    {
      var covered := AllocateConfirmedDeposits(shifts, Applied(deposits));
      CoverageSound(shifts, Applied(deposits));
      ghost var cover := Covered();
      total := 0;
      var i := 0;
      while i < |shifts|
        invariant 0 <= i <= |shifts| && total >= 0
        invariant total == UpTo(shifts, i) - UpTo(cover, i)
      {
        var uncovered := shifts[i] - covered[i];
        if uncovered > 0 { total := total + uncovered; }
        i := i + 1;
      }
    }
  }
}
