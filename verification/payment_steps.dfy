/** Every step that creates or settles a sale keeps books that are in order in order. A PENDING sale can
    then always be paid, through its reservation; it can be failed or expired in any state at all. */
module PaymentSteps {
  import opened Outcome
  import opened Sums
  import opened Allocation
  import opened Lots
  import opened StockEngine
  import opened Fefo
  import opened Checkout
  import opened Ledger
  import opened LedgerInvariant
  import opened SaleSteps
  import opened CartPlans
  import opened Holds

  lemma PendingIsHeld(s: State, id: nat)
    requires Core(s) && id < |s.sales| && s.sales[id].status.Pending?
    ensures AllSupplied(s.shelf, s.sales[id].items) && HeldFor(s.shelf, s.sales[id].items)
    ensures forall i :: 0 <= i < |s.sales[id].items| ==> s.sales[id].items[i].allocs != []
  {
    assert SaleOk(s.shelf, s.sales[id]);
    forall i | 0 <= i < |s.sales[id].items|
      ensures Supplies(s.shelf, s.sales[id].items[i].product, s.sales[id].items[i].allocs)
      ensures s.sales[id].items[i].allocs != []
    {
      assert ItemOk(s.shelf, s.sales[id].items[i]);
    }
    forall l: nat | l < |s.shelf.lots| ensures Units(s.sales[id].items, l) <= s.shelf.lots[l].reserved {
      HeldNonNeg(s.shelf, s.sales, l);
      assert HeldFn(l)(s.sales[id]) == Units(s.sales[id].items, l);
    }
  }

  lemma FinalizeUnits(s: State, id: nat)
    requires Core(s) && id < |s.sales| && s.sales[id].status.Pending?
    ensures forall i :: 0 <= i < |s.sales[id].items| ==> Intact(s.shelf.lots, s.sales[id].items[i].allocs)
    ensures FinalizeItems(s.shelf, s.shelf.lots, s.sales[id].items).Ok?
    ensures var shelf := FinalizeItems(s.shelf, s.shelf.lots, s.sales[id].items).value;
            && ShelfOk(shelf) && SaleMoved(s.shelf, shelf)
            && forall l: nat :: l < |s.shelf.lots| ==>
                 && shelf.lots[l].remaining == s.shelf.lots[l].remaining - SaleOn(s.sales[id], l)
                 && shelf.lots[l].reserved == s.shelf.lots[l].reserved - SaleOn(s.sales[id], l)
  {
    PendingIsHeld(s, id);
    FinalizeItemsKeeps(s.shelf, s.shelf.lots, s.sales[id].items);
  }

  /** A paid customer is never refused: in every state whose books are in order a PENDING sale can be
      finalized, each of its lines takes the reserved path, and no guard on the way fails. */
  lemma PaidIsNeverRefused(s: State, id: nat, now: int)
    requires Inv(s) && id < |s.sales| && s.sales[id].status.Pending?
    ensures FinalizePaidSale(s, id, now).Ok?
    ensures forall i :: 0 <= i < |s.sales[id].items| ==> Intact(s.shelf.lots, s.sales[id].items[i].allocs)
    ensures var t := FinalizePaidSale(s, id, now).value;
            && Inv(t) && SaleMoved(s.shelf, t.shelf) && SameTally(s, t)
            && t.sales == s.sales[id := s.sales[id].(status := Paid, paidAt := Some(now))]
            && (forall l: nat :: l < |s.shelf.lots| ==>
                  t.shelf.lots[l].remaining == s.shelf.lots[l].remaining - SaleOn(s.sales[id], l))
  {
    assert SaleOk(s.shelf, s.sales[id]);
    FinalizeUnits(s, id);
    InvHolds(s);
    hide HoldsOk, Core, SameTally, ShelfOk, SaleMoved, FinalizeItems, Intact;
    PayHolds(s, id, now);
    StaysInOrder(s, FinalizePaidSale(s, id, now).value);
  }

  lemma ReleaseUnits(s: State, id: nat)
    requires Core(s) && id < |s.sales| && s.sales[id].status.Pending?
    ensures ReleaseItems(s.shelf, s.sales[id].items).Ok?
    ensures var shelf := ReleaseItems(s.shelf, s.sales[id].items).value;
            && ShelfOk(shelf) && SaleMoved(s.shelf, shelf)
            && forall l: nat :: l < |s.shelf.lots| ==>
                 shelf.lots[l] == s.shelf.lots[l].(reserved := s.shelf.lots[l].reserved - SaleOn(s.sales[id], l))
  {
    PendingIsHeld(s, id);
    ReleaseItemsKeeps(s.shelf, s.sales[id].items);
  }

  /** A sale that was never paid gives back exactly what it held, and moves no stock, in any state a
      store can reach; books in order stay so. */
  lemma UnpaidReleasesAll(s: State, id: nat, timedOut: bool)
    requires HoldsOk(s) && id < |s.sales| && s.sales[id].status.Pending?
    ensures SettleUnpaidSale(s, id, timedOut).Ok?
    ensures var t := SettleUnpaidSale(s, id, timedOut).value;
            && HoldsOk(t) && SameTally(s, t) && StockStays(s.shelf, t.shelf)
            && t.sales == s.sales[id := s.sales[id].(status := if timedOut then TimedOut else Failed)]
            && (forall l: nat :: l < |s.shelf.lots| ==>
                  t.shelf.lots[l] == s.shelf.lots[l].(reserved := s.shelf.lots[l].reserved - SaleOn(s.sales[id], l)))
            && (Inv(s) ==> Inv(t) && SaleMoved(s.shelf, t.shelf))
  {
    UnpaidGoes(s, id, timedOut);
    if Inv(s) {
      ReleaseUnits(s, id);
      hide HoldsOk, Core, SameTally, ShelfOk, SaleMoved, ReleaseItems, StockStays;
      StaysInOrder(s, SettleUnpaidSale(s, id, timedOut).value);
    }
  }

  /** A new sale, cash or card, online or synced from an outage, as long as free units cover it. A key
      already used leaves everything as it is, however short the shelf. */
  lemma CreateKeeps(s: State, cart: seq<CartLine>, terms: StoreTerms, cash: bool, offline: bool, key: Option<string>,
                    now: int)
    requires Inv(s) && CreateSale(s, cart, terms, cash, offline, key, now).Ok?
    requires offline && !(key.Some? && HasKey(s.sales, key.value)) ==> Servable(s, cart)
    ensures var t := CreateSale(s, cart, terms, cash, offline, key, now).value;
            && Inv(t) && SaleMoved(s.shelf, t.shelf) && SameTally(s, t)
  {
    InvHolds(s);
    assert ShelfOk(s.shelf);
    CreateHolds(s, cart, terms, cash, offline, key, now);
    if !(key.Some? && HasKey(s.sales, key.value)) {
      CreateGranted(s, cart, terms, cash, offline, key, now);
      hide CreateSale, Inv, HoldsOk, SameTally, SaleMoved, PlanCart, Price, TakeItems, ShelfOk;
      var lots := s.shelf.lots;
      if offline { OfflineSame(lots, cart, ZeroTaken(|lots|)); }
      NewItemsTake(s, cart, PlanCart(lots, cart, ZeroTaken(|lots|), false).value, terms, cash);
      StaysInOrder(s, CreateSale(s, cart, terms, cash, offline, key, now).value);
    }
  }
}
