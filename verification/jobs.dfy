/** What one round of each background job achieves. */
module Jobs {
  import opened Outcome
  import opened Sums
  import opened Allocation
  import opened Lots
  import opened StockEngine
  import opened Ledger
  import opened LedgerInvariant
  import opened SaleSteps
  import opened CartPlans
  import opened PaymentSteps
  import opened Holds
  import opened RefundProtocol
  import opened SaleHistory
  import opened TillService

  predicate DistinctIds(ids: seq<nat>) { forall i, j :: 0 <= i < j < |ids| ==> ids[i] != ids[j] }

  /** What settling sales leaves behind, in any state a store can reach and in one whose books are in order. */
  predicate Kept(s: State, t: State) {
    && HoldsOk(t) && |t.sales| == |s.sales| && SameTally(s, t)
    && (Inv(s) ==> Inv(t) && SaleMoved(s.shelf, t.shelf))
  }

  lemma KeptTwice(s: State, mid: State, t: State)
    requires Kept(s, mid) && Kept(mid, t)
    ensures Kept(s, t)
  {
    hide HoldsOk, Inv, SameTally, SaleMoved;
    TallyOn(s, mid, t);
    if Inv(s) { MovedStep(s.shelf, mid.shelf, t.shelf); }
  }

  lemma KeptNot(s: State)
    requires HoldsOk(s)
    ensures Kept(s, s)
  {
    hide HoldsOk, Inv;
  }

  lemma PaidKept(s: State, id: nat, now: int)
    requires HoldsOk(s) && id < |s.sales| && s.sales[id].status.Pending? && FinalizePaidSale(s, id, now).Ok?
    ensures Kept(s, FinalizePaidSale(s, id, now).value)
    ensures FinalizePaidSale(s, id, now).value.sales
         == s.sales[id := s.sales[id].(status := Paid, paidAt := Some(now))]
  {
    PayHolds(s, id, now);
    hide HoldsOk, Inv, SameTally, FinalizeItems;
    if Inv(s) { PaidIsNeverRefused(s, id, now); }
  }

  /** A sale paid at the processor: PAID exactly when the goods are there, and they are if the books are
      in order; else it stays as it was. */
  lemma SettlePaid(s: State, id: nat, now: int)
    requires HoldsOk(s) && id < |s.sales| && s.sales[id].status.Pending?
    ensures var t := Exec(s, EvPaid(id, now));
            && Kept(s, t) && (FinalizePaidSale(s, id, now).Ok? <==> CanGive(s, id))
            && t.sales == (if CanGive(s, id) then s.sales[id := s.sales[id].(status := Paid, paidAt := Some(now))]
                           else s.sales)
            && (Inv(s) ==> CanGive(s, id))
  {
    hide HoldsOk, Kept, CanGive, Inv, FinalizePaidSale, ShortAt, RowsCovered, StockCovered;
    PaidExact(s, id, now);
    KeptNot(s);
    if CanGive(s, id) { PaidKept(s, id, now); }
    if Inv(s) { PaidIsNeverRefused(s, id, now); }
  }

  lemma SettleUnpaid(s: State, id: nat)
    requires HoldsOk(s) && id < |s.sales| && s.sales[id].status.Pending?
    ensures var t := Exec(s, EvUnpaid(id, true));
            && SettleUnpaidSale(s, id, true).Ok? && Kept(s, t)
            && t.sales == s.sales[id := s.sales[id].(status := TimedOut)]
  {
    hide HoldsOk, Inv, SettleUnpaidSale;
    UnpaidReleasesAll(s, id, true);
  }

  /** How an abandoned checkout ends: expired, or paid if the processor says so and it could be served, or
      else as it was. */
  function EndsAs(sale: Sale, paid: bool, served: bool, now: int): Sale {
    if !paid then sale.(status := TimedOut)
    else if served then sale.(status := Paid, paidAt := Some(now))
    else sale
  }

  lemma SettleOne(s: State, id: nat, paid: set<nat>, now: int)
    requires HoldsOk(s) && id < |s.sales| && s.sales[id].status.Pending?
    ensures var e := SettleEvent(id, paid, now);
            && Kept(s, Exec(s, e)) && (Step(s, e).Ok? <==> id !in paid || CanGive(s, id))
            && Exec(s, e).sales == s.sales[id := EndsAs(s.sales[id], id in paid, CanGive(s, id), now)]
            && (Inv(s) ==> CanGive(s, id))
  {
    hide HoldsOk, Inv, Kept, CanGive;
    SettlePaid(s, id, now);
    if id !in paid { SettleUnpaid(s, id); }
  }

  /** The sales of the list the processor reports as paid whose goods are still there when their turn
      comes. */
  function Served(s: State, stale: seq<nat>, paid: set<nat>, now: int): seq<nat> {
    if stale == [] then []
    else
      var init, id := stale[..|stale| - 1], stale[|stale| - 1];
      Served(s, init, paid, now)
      + (if id in paid && CanGive(Run(s, SettleEvents(init, paid, now)), id) then [id] else [])
  }

  function Unpaid(stale: seq<nat>, paid: set<nat>): seq<nat> {
    if stale == [] then []
    else
      var init, id := stale[..|stale| - 1], stale[|stale| - 1];
      Unpaid(init, paid) + (if id !in paid then [id] else [])
  }

  predicate Settled(s: State, t: State, stale: seq<nat>, paid: set<nat>, served: seq<nat>, now: int) {
    && Kept(s, t)
    && (forall id: nat :: id < |s.sales| ==>
          t.sales[id] == if id in stale then EndsAs(s.sales[id], id in paid, id in served, now) else s.sales[id])
  }

  lemma SettledMore(s: State, mid: State, t: State, init: seq<nat>, id: nat, paid: set<nat>, served: seq<nat>,
                    now: int)
    requires Settled(s, mid, init, paid, served, now) && Kept(mid, t) && id !in init && id !in served
    requires id < |s.sales| && t.sales == mid.sales[id := EndsAs(mid.sales[id], id in paid, CanGive(mid, id), now)]
    ensures Settled(s, t, init + [id], paid, served + (if id in paid && CanGive(mid, id) then [id] else []), now)
  {
    hide Kept, CanGive;
    KeptTwice(s, mid, t);
    assert |mid.sales| == |s.sales| by { KeptRows(s, mid); }
    hide EndsAs;
    var more := served + (if id in paid && CanGive(mid, id) then [id] else []);
    forall x: nat | x < |s.sales|
      ensures t.sales[x] == if x in init + [id] then EndsAs(s.sales[x], x in paid, x in more, now) else s.sales[x]
    {
      EndsSame(mid.sales[id], id in paid, CanGive(mid, id), now);
    }
  }

  lemma KeptRows(s: State, t: State)
    requires Kept(s, t)
    ensures |t.sales| == |s.sales|
  {
  }

  /** Whether an unpaid sale could have been served makes no difference. */
  lemma EndsSame(sale: Sale, paid: bool, served: bool, now: int)
    ensures EndsAs(sale, paid, served, now) == EndsAs(sale, paid, paid && served, now)
  {
  }

  lemma {:induction false} ServedListed(s: State, stale: seq<nat>, paid: set<nat>, now: int)
    ensures forall id :: id in Served(s, stale, paid, now) ==> id in stale && id in paid
  {
    if stale != [] { ServedListed(s, stale[..|stale| - 1], paid, now); }
  }

  /** The expiry job on any list of PENDING sales, in any state a store can reach. Every sale the processor
      does not report as paid has expired; of those it does, exactly the ones whose goods were still there
      at their turn are PAID, the others are as they were; no other sale moves, and each lot and the
      customers between them hold what they held. In a store whose books are in order all of them are
      PAID. The job reports just that. */
  lemma {:induction false} ExpiryJobSettles(s: State, stale: seq<nat>, paid: set<nat>, now: int)
    requires HoldsOk(s) && DistinctIds(stale)
    requires forall i :: 0 <= i < |stale| ==> stale[i] < |s.sales| && s.sales[stale[i]].status.Pending?
    ensures Settled(s, Run(s, SettleEvents(stale, paid, now)), stale, paid, Served(s, stale, paid, now), now)
    ensures Inv(s) ==> forall id :: id in stale && id in paid ==> id in Served(s, stale, paid, now)
    ensures Succeeded(s, stale, paid, now, true) == Served(s, stale, paid, now)
    ensures Succeeded(s, stale, paid, now, false) == Unpaid(stale, paid)
  {
    hide HoldsOk, Inv, Exec, Step, Kept, CanGive, EndsAs;
    if stale == [] {
      KeptNot(s);
    } else {
      hide Settled;
      var k := |stale| - 1;
      var init, id := stale[..k], stale[k];
      ExpiryJobSettles(s, init, paid, now);
      ServedListed(s, init, paid, now);
      RunAppend(s, SettleEvents(init, paid, now), SettleEvent(id, paid, now));
      var mid := Run(s, SettleEvents(init, paid, now));
      StillPending(s, mid, init, paid, Served(s, init, paid, now), now, id);
      SettleOne(mid, id, paid, now);
      SettledMore(s, mid, Run(s, SettleEvents(stale, paid, now)), init, id, paid, Served(s, init, paid, now), now);
      assert stale == init + [id];
    }
  }

  lemma StillPending(s: State, mid: State, init: seq<nat>, paid: set<nat>, served: seq<nat>, now: int, id: nat)
    requires Settled(s, mid, init, paid, served, now) && id !in init && id < |s.sales|
    ensures HoldsOk(mid) && id < |mid.sales| && mid.sales[id] == s.sales[id] && (Inv(s) ==> Inv(mid))
  {
    hide HoldsOk, Inv;
  }

  predicate PastDue(lot: Lot, now: int) { lot.expiry.Some? && lot.expiry.value < now && lot.status.Active? }

  /** Of the lots, exactly the past-due ACTIVE ones of the list with nothing reserved have left the shelf. */
  predicate ExpiredOf(s: State, t: State, due: seq<nat>, now: int) {
    && ShelfWf(t.shelf) && |t.shelf.lots| == |s.shelf.lots| && t.sales == s.sales && t.refunds == s.refunds
    && forall l: nat :: l < |s.shelf.lots| ==>
         t.shelf.lots[l] == if l in due && PastDue(s.shelf.lots[l], now) && s.shelf.lots[l].reserved <= 0
                            then s.shelf.lots[l].(status := LotStatus.Expired) else s.shelf.lots[l]
  }

  lemma OneLotExpires(s: State, l: nat, now: int)
    requires ShelfWf(s.shelf)
    ensures ExpiredOf(s, Exec(s, EvExpire(l, now)), [l], now)
  {
  }

  lemma ExpiredMore(s: State, mid: State, t: State, init: seq<nat>, l: nat, now: int)
    requires ExpiredOf(s, mid, init, now) && ExpiredOf(mid, t, [l], now)
    ensures ExpiredOf(s, t, init + [l], now)
  {
  }

  /** The lot job: exactly the past-due ACTIVE lots on its list with nothing reserved have left the
      shelf; no quantity and no other lot changes. */
  lemma {:induction false} ExpireLotsExact(s: State, due: seq<nat>, now: int)
    requires ShelfWf(s.shelf)
    ensures ExpiredOf(s, Run(s, ExpiryEvents(due, now)), due, now)
  {
    if due != [] {
      hide Exec;
      var k := |due| - 1;
      ExpireLotsExact(s, due[..k], now);
      RunAppend(s, ExpiryEvents(due[..k], now), EvExpire(due[k], now));
      var mid := Run(s, ExpiryEvents(due[..k], now));
      OneLotExpires(mid, due[k], now);
      ExpiredMore(s, mid, Exec(mid, EvExpire(due[k], now)), due[..k], due[k], now);
      assert due == due[..k] + [due[k]];
    }
  }
}
