/** What taking, holding, releasing and finalizing a whole sale does to the shelf, line by line. */
module SaleSteps {
  import opened Outcome
  import opened Sums
  import opened Allocation
  import opened Lots
  import opened StockEngine
  import opened Ledger
  import opened LedgerInvariant

  /** Steps of a sale leave quarantined lots in quarantine, do not touch recalled or expired ones, and
      withdraw none. */
  predicate SaleMoved(a: Shelf, b: Shelf) {
    && |a.lots| == |b.lots| && |a.products| == |b.products|
    && forall l :: 0 <= l < |a.lots| ==>
         && a.lots[l].product == b.lots[l].product
         && (Terminal(a.lots[l].status) ==> a.lots[l] == b.lots[l])
         && (a.lots[l].status.Quarantined? ==> b.lots[l].status.Quarantined?)
         && (Withdrawn(b.lots[l].status) ==> Withdrawn(a.lots[l].status) && b.lots[l].reserved == a.lots[l].reserved)
  }

  predicate AllSupplied(shelf: Shelf, items: seq<SaleItem>) {
    forall i :: 0 <= i < |items| ==> Supplies(shelf, items[i].product, items[i].allocs)
  }

  lemma SuppliedFrame(a: Shelf, b: Shelf, items: seq<SaleItem>)
    requires AllSupplied(a, items) && SaleMoved(a, b)
    ensures AllSupplied(b, items)
  {
    forall i | 0 <= i < |items| ensures Supplies(b, items[i].product, items[i].allocs) {
      assert Supplies(a, items[i].product, items[i].allocs);
    }
  }

  lemma MovedStep(a: Shelf, b: Shelf, c: Shelf)
    requires SaleMoved(a, b) && SaleMoved(b, c)
    ensures SaleMoved(a, c)
  {
  }

  function Units(items: seq<SaleItem>, l: nat): int { Sum(items, ItemOnFn(l)) }

  /** Every unit the lines ask for is free on an ACTIVE lot. */
  predicate FreeFor(shelf: Shelf, items: seq<SaleItem>) {
    forall l: nat :: l < |shelf.lots| && Units(items, l) > 0 ==>
      shelf.lots[l].status.Active? && Units(items, l) <= shelf.lots[l].remaining - shelf.lots[l].reserved
  }

  /** Every unit the lines ask for is reserved. */
  predicate HeldFor(shelf: Shelf, items: seq<SaleItem>) {
    forall l: nat :: l < |shelf.lots| ==> Units(items, l) <= shelf.lots[l].reserved
  }

  lemma ConsumedTwice(lot: Lot, a: int, b: int, held: int, more: int)
    requires 0 <= a && 0 <= b && (a == 0 || b == 0 || a + b <= lot.remaining)
    ensures Consumed(Consumed(lot, a, held), b, more) == Consumed(lot, a + b, held + more)
  {
  }

  /** One lot after `n` of its units were sold for cash, or held for a card payment. */
  function Effect(lot: Lot, n: int, cash: bool): Lot {
    if cash then Consumed(lot, n, 0) else lot.(reserved := lot.reserved + n)
  }

  lemma LineAndOthers(shelf: Shelf, items: seq<SaleItem>, l: nat)
    requires items != [] && AllSupplied(shelf, items)
    ensures 0 <= On(items[0].allocs, l) && 0 <= Units(items[1..], l)
    ensures Units(items, l) == On(items[0].allocs, l) + Units(items[1..], l)
  {
    ItemsCons(items, l);
    OnBounds(items[0].allocs, l);
    ItemsNonNeg(shelf, items[1..], l);
  }

  /** Lots after the units of the first line were taken or held. */
  lemma TakenFirst(shelf: Shelf, next: Shelf, items: seq<SaleItem>, cash: bool)
    requires LotsOk(shelf.lots) && items != [] && AllSupplied(shelf, items) && FreeFor(shelf, items)
    requires |next.lots| == |shelf.lots| && |next.products| == |shelf.products|
    requires forall l: nat :: l < |shelf.lots| ==>
               next.lots[l] == Effect(shelf.lots[l], On(items[0].allocs, l), cash)
    ensures SaleMoved(shelf, next) && FreeFor(next, items[1..])
  {
    hide AllSupplied, Units, On;
    forall l: nat | l < |shelf.lots|
      ensures 0 <= On(items[0].allocs, l) && 0 <= Units(items[1..], l)
      ensures Units(items, l) == On(items[0].allocs, l) + Units(items[1..], l)
      ensures LotOk(shelf.lots[l])
    {
      LineAndOthers(shelf, items, l);
    }
  }

  lemma TakeFirst(shelf: Shelf, items: seq<SaleItem>, cash: bool)
    requires ShelfOk(shelf) && items != [] && AllSupplied(shelf, items) && FreeFor(shelf, items)
    ensures var p, allocs := items[0].product, items[0].allocs;
            var next := if cash then ConsumeDirect(shelf, p, allocs) else Reserve(shelf, p, allocs);
            && ShelfOk(next) && SaleMoved(shelf, next) && FreeFor(next, items[1..])
            && forall l: nat :: l < |shelf.lots| ==> next.lots[l] == Effect(shelf.lots[l], On(allocs, l), cash)
  {
    var p, allocs := items[0].product, items[0].allocs;
    forall l: nat | l < |shelf.lots| && On(allocs, l) > 0
      ensures shelf.lots[l].status.Active? && On(allocs, l) <= shelf.lots[l].remaining - shelf.lots[l].reserved
    {
      LineAndOthers(shelf, items, l);
    }
    var next := if cash then ConsumeDirect(shelf, p, allocs) else Reserve(shelf, p, allocs);
    if cash { ConsumeDirectKeeps(shelf, p, allocs); } else { ReserveKeeps(shelf, p, allocs); }
    hide ShelfOk, FreeFor, SaleMoved, AllSupplied, On;
    TakenFirst(shelf, next, items, cash);
  }

  lemma EffectOfBoth(shelf: Shelf, items: seq<SaleItem>, cash: bool, l: nat)
    requires items != [] && AllSupplied(shelf, items) && FreeFor(shelf, items) && LotsOk(shelf.lots) && l < |shelf.lots|
    ensures Effect(Effect(shelf.lots[l], On(items[0].allocs, l), cash), Units(items[1..], l), cash)
         == Effect(shelf.lots[l], Units(items, l), cash)
  {
    ItemsCons(items, l);
    OnBounds(items[0].allocs, l);
    ItemsNonNeg(shelf, items[1..], l);
    assert LotOk(shelf.lots[l]);
    ConsumedTwice(shelf.lots[l], On(items[0].allocs, l), Units(items[1..], l), 0, 0);
  }

  /** A sale of free units goes through, and moves each lot by exactly what the sale takes from it. */
  lemma {:induction false} TakeItemsKeeps(shelf: Shelf, items: seq<SaleItem>, cash: bool)
    requires ShelfOk(shelf) && AllSupplied(shelf, items) && FreeFor(shelf, items)
    ensures TakeItems(shelf, items, cash).Ok?
    ensures var t := TakeItems(shelf, items, cash).value;
            && ShelfOk(t) && SaleMoved(shelf, t)
            && forall l: nat :: l < |shelf.lots| ==> t.lots[l] == Effect(shelf.lots[l], Units(items, l), cash)
    decreases |items|
  {
    if items != [] {
      var p, allocs := items[0].product, items[0].allocs;
      var next := if cash then ConsumeDirect(shelf, p, allocs) else Reserve(shelf, p, allocs);
      TakeFirst(shelf, items, cash);
      SuppliedFrame(shelf, next, items[1..]);
      TakeItemsKeeps(next, items[1..], cash);
      var t := TakeItems(next, items[1..], cash).value;
      MovedStep(shelf, next, t);
      forall l: nat | l < |shelf.lots| ensures t.lots[l] == Effect(shelf.lots[l], Units(items, l), cash) {
        EffectOfBoth(shelf, items, cash, l);
      }
    }
  }

  /** The snapshot taken when the lots were locked is at least as full as the rows are now. */
  predicate SnapshotOf(locked: seq<Lot>, lots: seq<Lot>) {
    && |locked| == |lots|
    && forall l :: 0 <= l < |lots| ==>
         lots[l].reserved <= locked[l].reserved && lots[l].remaining <= locked[l].remaining
  }

  /** Lots after giving the held units of the first line. */
  lemma GivenFirst(shelf: Shelf, next: Shelf, locked: seq<Lot>, items: seq<SaleItem>)
    requires LotsOk(shelf.lots) && items != [] && AllSupplied(shelf, items) && HeldFor(shelf, items)
    requires SnapshotOf(locked, shelf.lots) && |next.lots| == |shelf.lots| && |next.products| == |shelf.products|
    requires forall l: nat :: l < |shelf.lots| ==>
               next.lots[l] == Consumed(shelf.lots[l], On(items[0].allocs, l), On(items[0].allocs, l))
    ensures SaleMoved(shelf, next) && HeldFor(next, items[1..]) && SnapshotOf(locked, next.lots)
  {
    forall l: nat | l < |shelf.lots|
      ensures 0 <= On(items[0].allocs, l) && Units(items[1..], l) <= next.lots[l].reserved
      ensures next.lots[l].remaining <= locked[l].remaining && next.lots[l].reserved <= locked[l].reserved
      ensures !shelf.lots[l].status.Active? ==> next.lots[l] == shelf.lots[l]
      ensures next.lots[l].product == shelf.lots[l].product
    {
      ItemsCons(items, l);
      OnBounds(items[0].allocs, l);
      ItemsNonNeg(shelf, items[1..], l);
      assert LotOk(shelf.lots[l]);
    }
  }

  lemma FinalizeFirst(shelf: Shelf, locked: seq<Lot>, items: seq<SaleItem>)
    requires ShelfOk(shelf) && items != [] && AllSupplied(shelf, items) && items[0].allocs != []
    requires HeldFor(shelf, items) && SnapshotOf(locked, shelf.lots)
    ensures Intact(locked, items[0].allocs)
    ensures FinalizeItem(shelf, locked, items[0]).Ok?
    ensures var next := FinalizeItem(shelf, locked, items[0]).value;
            && ShelfOk(next) && SaleMoved(shelf, next) && HeldFor(next, items[1..]) && SnapshotOf(locked, next.lots)
            && forall l: nat :: l < |shelf.lots| ==>
                 next.lots[l] == Consumed(shelf.lots[l], On(items[0].allocs, l), On(items[0].allocs, l))
  {
    var p, allocs := items[0].product, items[0].allocs;
    assert Supplies(shelf, p, allocs);
    assert Backed(shelf.lots, allocs) by {
      forall l: nat | l < |shelf.lots| ensures On(allocs, l) <= shelf.lots[l].reserved {
        ItemsCons(items, l);
        ItemsNonNeg(shelf, items[1..], l);
      }
    }
    HeldIsIntact(shelf, locked, p, allocs);
    ConsumeReservedKeeps(shelf, p, allocs);
    var next := ConsumeReserved(shelf, p, allocs).value;
    assert FinalizeItem(shelf, locked, items[0]) == Ok(next);
    hide FinalizeItem, ConsumeReserved, Intact, HeldFor, SnapshotOf, SaleMoved, Supplies;
    GivenFirst(shelf, next, locked, items);
  }

  lemma HeldIsIntact(shelf: Shelf, locked: seq<Lot>, p: nat, allocs: seq<Alloc>)
    requires LotsOk(shelf.lots) && Supplies(shelf, p, allocs) && Backed(shelf.lots, allocs)
             && SnapshotOf(locked, shelf.lots)
    ensures Intact(locked, allocs)
  {
    forall i | 0 <= i < |allocs|
      ensures allocs[i].lot < |locked|
      ensures locked[allocs[i].lot].reserved >= allocs[i].qty && locked[allocs[i].lot].remaining >= allocs[i].qty
    {
      OnBounds(allocs, allocs[i].lot);
      assert LotOk(shelf.lots[allocs[i].lot]);
    }
  }

  lemma ConsumedOfBoth(shelf: Shelf, items: seq<SaleItem>, l: nat)
    requires items != [] && AllSupplied(shelf, items) && HeldFor(shelf, items) && LotsOk(shelf.lots) && l < |shelf.lots|
    ensures var a, b, n := On(items[0].allocs, l), Units(items[1..], l), Units(items, l);
            Consumed(Consumed(shelf.lots[l], a, a), b, b) == Consumed(shelf.lots[l], n, n)
  {
    ItemsCons(items, l);
    OnBounds(items[0].allocs, l);
    ItemsNonNeg(shelf, items[1..], l);
    assert LotOk(shelf.lots[l]);
    ConsumedTwice(shelf.lots[l], On(items[0].allocs, l), Units(items[1..], l), On(items[0].allocs, l),
      Units(items[1..], l));
  }

  /** Finalizing a sale whose units are all reserved: every line takes the reserved path, no guard
      fails, and each lot gives exactly what the sale held on it. */
  lemma {:induction false} FinalizeItemsKeeps(shelf: Shelf, locked: seq<Lot>, items: seq<SaleItem>)
    requires ShelfOk(shelf) && AllSupplied(shelf, items)
    requires forall i :: 0 <= i < |items| ==> items[i].allocs != []
    requires HeldFor(shelf, items) && SnapshotOf(locked, shelf.lots)
    ensures FinalizeItems(shelf, locked, items).Ok?
    ensures forall i :: 0 <= i < |items| ==> Intact(locked, items[i].allocs)
    ensures var t := FinalizeItems(shelf, locked, items).value;
            && ShelfOk(t) && SaleMoved(shelf, t)
            && forall l: nat :: l < |shelf.lots| ==>
                 t.lots[l] == Consumed(shelf.lots[l], Units(items, l), Units(items, l))
    decreases |items|
  {
    if items != [] {
      hide ShelfOk, SnapshotOf, FinalizeItem, Intact, HeldFor, SaleMoved;
      FinalizeFirst(shelf, locked, items);
      var next := FinalizeItem(shelf, locked, items[0]).value;
      SuppliedFrame(shelf, next, items[1..]);
      FinalizeItemsKeeps(next, locked, items[1..]);
      var t := FinalizeItems(next, locked, items[1..]).value;
      MovedStep(shelf, next, t);
      forall i | 0 <= i < |items| ensures Intact(locked, items[i].allocs) {
        if i > 0 { assert items[i] == items[1..][i - 1]; }
      }
      forall l: nat | l < |shelf.lots|
        ensures t.lots[l] == Consumed(shelf.lots[l], Units(items, l), Units(items, l))
      {
        ConsumedOfBoth(shelf, items, l);
      }
    }
  }

  lemma ReleaseFirst(shelf: Shelf, items: seq<SaleItem>)
    requires ShelfOk(shelf) && items != [] && AllSupplied(shelf, items) && HeldFor(shelf, items)
    ensures Release(shelf, items[0].product, items[0].allocs).Ok?
    ensures var next := Release(shelf, items[0].product, items[0].allocs).value;
            && ShelfOk(next) && SaleMoved(shelf, next) && HeldFor(next, items[1..])
            && forall l: nat :: l < |shelf.lots| ==>
                 next.lots[l] == shelf.lots[l].(reserved := shelf.lots[l].reserved - On(items[0].allocs, l))
  {
    var p, allocs := items[0].product, items[0].allocs;
    forall l: nat | l < |shelf.lots|
      ensures 0 <= On(allocs, l) && 0 <= Units(items[1..], l)
      ensures Units(items, l) == On(allocs, l) + Units(items[1..], l)
      ensures LotOk(shelf.lots[l])
    {
      ItemsCons(items, l);
      OnBounds(allocs, l);
      ItemsNonNeg(shelf, items[1..], l);
    }
    assert Backed(shelf.lots, allocs);
    ReleaseKeeps(shelf, p, allocs);
  }

  /** Releasing a sale whose units are all reserved never fails and changes reservations only. */
  lemma {:induction false} ReleaseItemsKeeps(shelf: Shelf, items: seq<SaleItem>)
    requires ShelfOk(shelf) && AllSupplied(shelf, items) && HeldFor(shelf, items)
    ensures ReleaseItems(shelf, items).Ok?
    ensures var t := ReleaseItems(shelf, items).value;
            && ShelfOk(t) && SaleMoved(shelf, t)
            && forall l: nat :: l < |shelf.lots| ==>
                 t.lots[l] == shelf.lots[l].(reserved := shelf.lots[l].reserved - Units(items, l))
    decreases |items|
  {
    if items != [] {
      ReleaseFirst(shelf, items);
      var next := Release(shelf, items[0].product, items[0].allocs).value;
      SuppliedFrame(shelf, next, items[1..]);
      ReleaseItemsKeeps(next, items[1..]);
      MovedStep(shelf, next, ReleaseItems(next, items[1..]).value);
      forall l: nat | l < |shelf.lots|
        ensures ReleaseItems(shelf, items).value.lots[l]
             == shelf.lots[l].(reserved := shelf.lots[l].reserved - Units(items, l))
      {
        ItemsCons(items, l);
      }
    }
  }
}
