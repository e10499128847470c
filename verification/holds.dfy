/** What survives an offline sale that overdraws the shelf and a recall that shares a lot: which units are
    reserved and for whom, and what each lot and the customers hold between them. With it, the exact
    condition under which a customer who pays is served. */
module Holds {
  import opened Outcome
  import opened Sums
  import opened Allocation
  import opened Lots
  import opened StockEngine
  import opened Fefo
  import opened Checkout
  import opened Ledger
  import opened LedgerInvariant
  import opened SaleSteps
  import opened CartPlans

  function HoldFn(p: nat): Lot -> int { (lot: Lot) => if lot.product == p then lot.reserved else 0 }

  /** Units reserved on the lots of the product, whatever their status. */
  function HeldUnits(lots: seq<Lot>, p: nat): int { Sum(lots, HoldFn(p)) }

  predicate ProductHolds(s: Shelf) {
    forall p: nat :: p < |s.products| ==> s.products[p].reserved == HeldUnits(s.lots, p)
  }

  predicate HoldsWf(s: Shelf) { ShelfWf(s) && ProductHolds(s) }

  /** What survives everything: a unit is reserved exactly when a PENDING sale holds it, and
      Product.reserved counts those units. */
  predicate HoldsOk(s: State) {
    HoldsWf(s.shelf) && SalesOk(s.shelf, s.sales) && HeldOk(s) && RefundsOk(s.sales, s.refunds) && KeysOk(s.sales)
  }

  /** The invariant is this and an exact rollup, with the lots of DRAFT recalls in quarantine. */
  lemma InvIs(s: State)
    ensures Inv(s) <==> HoldsOk(s) && ShelfOk(s.shelf) && RecallsOk(s)
  {
    if Inv(s) { InvHolds(s); }
  }

  lemma InvHolds(s: State)
    requires Inv(s)
    ensures HoldsOk(s)
  {
    forall p: nat | p < |s.shelf.products| ensures s.shelf.products[p].reserved == HeldUnits(s.shelf.lots, p) {
      forall l | 0 <= l < |s.shelf.lots| ensures HoldFn(p)(s.shelf.lots[l]) == ReservedFn(p)(s.shelf.lots[l]) {
        assert LotOk(s.shelf.lots[l]);
      }
      SumSame(s.shelf.lots, HoldFn(p), s.shelf.lots, ReservedFn(p));
    }
  }

  /** A step of a sale or refund keeps DRAFT recalls as they are, so books in order stay in order when the
      shelf is. */
  lemma StaysInOrder(s: State, t: State)
    requires Inv(s) && HoldsOk(t) && ShelfOk(t.shelf) && SaleMoved(s.shelf, t.shelf) && t.recalls == s.recalls
    ensures Inv(t)
  {
    InvIs(t);
  }

  /** Each lot and the customers between them hold what they held. */
  predicate SameTally(s: State, t: State) {
    |s.shelf.lots| <= |t.shelf.lots| && forall l: nat :: l < |s.shelf.lots| ==> Tally(t, l) == Tally(s, l)
  }

  // ---- Moving a list of allocations ----

  function Signed(c: int, n: int): int { if c == 0 then 0 else if c > 0 then n else -n }

  /** The step moves reservations by `c` times the quantity, and what is there by `d` times. */
  ghost predicate Shifts(op: (Lot, int) -> Lot, c: int, d: int) {
    forall lot, q ::
      && op(lot, q).product == lot.product
      && op(lot, q).reserved == lot.reserved + Signed(c, q)
      && op(lot, q).remaining == lot.remaining + Signed(d, q)
  }

  lemma {:induction false} ShiftedAt(lots: seq<Lot>, allocs: seq<Alloc>, op: (Lot, int) -> Lot, c: int, d: int, l: nat)
    requires InRange(lots, allocs) && l < |lots| && Shifts(op, c, d)
    ensures ApplyAll(lots, allocs, op)[l].product == lots[l].product
    ensures ApplyAll(lots, allocs, op)[l].reserved == lots[l].reserved + Signed(c, On(allocs, l))
    ensures ApplyAll(lots, allocs, op)[l].remaining == lots[l].remaining + Signed(d, On(allocs, l))
  {
    if allocs != [] { ShiftedAt(lots, allocs[..|allocs| - 1], op, c, d, l); }
  }

  lemma {:induction false} SumSigned(allocs: seq<Alloc>, c: int)
    ensures Sum(allocs, ScaledFn(c)) == Signed(c, Total(allocs))
  {
    if allocs != [] { SumSigned(allocs[..|allocs| - 1], c); }
  }

  lemma HeldUnitsMove(s: Shelf, p: nat, allocs: seq<Alloc>, op: (Lot, int) -> Lot, c: int, d: int, r: nat)
    requires Supplies(s, p, allocs) && Shifts(op, c, d)
    ensures HeldUnits(ApplyAll(s.lots, allocs, op), r) == HeldUnits(s.lots, r)
            + (if r == p then Signed(c, Total(allocs)) else 0)
  {
    var sign := if r == p then c else 0;
    forall k | 0 <= k < |allocs|
      ensures var lot := ApplyAll(s.lots, allocs[..k], op)[allocs[k].lot];
              HoldFn(r)(op(lot, allocs[k].qty)) == HoldFn(r)(lot) + ScaledFn(sign)(allocs[k])
    {
      ShiftedAt(s.lots, allocs[..k], op, c, d, allocs[k].lot);
    }
    ApplySum(s.lots, allocs, op, HoldFn(r), ScaledFn(sign));
    SumSigned(allocs, sign);
  }

  predicate SameShape(a: Shelf, b: Shelf) {
    && |a.lots| == |b.lots| && |a.products| == |b.products|
    && forall l :: 0 <= l < |a.lots| ==> a.lots[l].product == b.lots[l].product
  }

  predicate LotShifted(a: Lot, b: Lot, n: int, c: int, d: int) {
    b.reserved == a.reserved + Signed(c, n) && b.remaining == a.remaining + Signed(d, n)
  }

  /** `b` is `a` after `allocs` of product `p` were held (c = 1), let go (c = -1) or moved without (c = 0). */
  ghost predicate LineMoved(a: Shelf, b: Shelf, p: nat, allocs: seq<Alloc>, op: (Lot, int) -> Lot, c: int)
    requires Supplies(a, p, allocs)
  {
    && b.lots == ApplyAll(a.lots, allocs, op) && |b.products| == |a.products|
    && forall r :: 0 <= r < |a.products| ==>
         b.products[r].reserved == a.products[r].reserved + (if r == p then Signed(c, Total(allocs)) else 0)
  }

  lemma LineMoves(a: Shelf, b: Shelf, p: nat, allocs: seq<Alloc>, op: (Lot, int) -> Lot, c: int, d: int)
    requires HoldsWf(a) && Supplies(a, p, allocs) && Shifts(op, c, d) && LineMoved(a, b, p, allocs, op, c)
    ensures HoldsWf(b) && SameShape(a, b)
    ensures forall l: nat :: l < |a.lots| ==> LotShifted(a.lots[l], b.lots[l], On(allocs, l), c, d)
  {
    forall l: nat | l < |a.lots|
      ensures b.lots[l].product == a.lots[l].product
      ensures LotShifted(a.lots[l], b.lots[l], On(allocs, l), c, d)
    {
      ShiftedAt(a.lots, allocs, op, c, d, l);
    }
    forall r: nat | r < |b.products| ensures b.products[r].reserved == HeldUnits(b.lots, r) {
      HeldUnitsMove(a, p, allocs, op, c, d, r);
    }
  }

  // ---- Moving the lines of a sale ----

  /** `b` is `a` with the units of the lines held or let go (`c`), and taken or not (`d`). */
  predicate ItemsMoved(a: Shelf, b: Shelf, items: seq<SaleItem>, c: int, d: int) {
    && HoldsWf(b) && SameShape(a, b)
    && forall l: nat :: l < |a.lots| ==> LotShifted(a.lots[l], b.lots[l], Units(items, l), c, d)
  }

  lemma NextMoved(a: Shelf, mid: Shelf, b: Shelf, items: seq<SaleItem>, c: int, d: int)
    requires items != [] && SameShape(a, mid) && ItemsMoved(mid, b, items[1..], c, d)
    requires forall l: nat :: l < |a.lots| ==> LotShifted(a.lots[l], mid.lots[l], On(items[0].allocs, l), c, d)
    ensures ItemsMoved(a, b, items, c, d)
  {
    forall l: nat | l < |a.lots| ensures LotShifted(a.lots[l], b.lots[l], Units(items, l), c, d) {
      ItemsCons(items, l);
      assert LotShifted(a.lots[l], mid.lots[l], On(items[0].allocs, l), c, d);
      assert LotShifted(mid.lots[l], b.lots[l], Units(items[1..], l), c, d);
    }
  }

  lemma {:induction false} TakeHolds(shelf: Shelf, items: seq<SaleItem>, cash: bool)
    requires HoldsWf(shelf) && TakeItems(shelf, items, cash).Ok?
    ensures ItemsMoved(shelf, TakeItems(shelf, items, cash).value, items, if cash then 0 else 1, if cash then -1 else 0)
    decreases |items|
  {
    if items != [] {
      var p, allocs := items[0].product, items[0].allocs;
      var next := if cash then ConsumeDirect(shelf, p, allocs) else Reserve(shelf, p, allocs);
      if cash {
        LineMoves(shelf, next, p, allocs, ConsumeDirectOp, 0, -1);
      } else {
        LineMoves(shelf, next, p, allocs, ReserveOp, 1, 0);
      }
      TakeHolds(next, items[1..], cash);
      NextMoved(shelf, next, TakeItems(next, items[1..], cash).value, items, if cash then 0 else 1,
                if cash then -1 else 0);
    }
  }

  /** Lines on rows of their own products are always taken. */
  lemma {:induction false} TakeGoes(shelf: Shelf, items: seq<SaleItem>, cash: bool)
    requires AllSupplied(shelf, items)
    ensures TakeItems(shelf, items, cash).Ok?
    decreases |items|
  {
    if items != [] {
      var p, allocs := items[0].product, items[0].allocs;
      assert Supplies(shelf, p, allocs);
      var op := if cash then ConsumeDirectOp else ReserveOp;
      var next := if cash then ConsumeDirect(shelf, p, allocs) else Reserve(shelf, p, allocs);
      forall l: nat | l < |shelf.lots| ensures next.lots[l].product == shelf.lots[l].product {
        ShiftedAt(shelf.lots, allocs, op, if cash then 0 else 1, if cash then -1 else 0, l);
      }
      forall i | 0 <= i < |items[1..]| ensures Supplies(next, items[1..][i].product, items[1..][i].allocs) {
        assert Supplies(shelf, items[i + 1].product, items[i + 1].allocs);
      }
      TakeGoes(next, items[1..], cash);
    }
  }

  lemma PlannedGoes(shelf: Shelf, cart: seq<CartLine>, terms: StoreTerms, cash: bool, offline: bool)
    requires cart != [] && CartOk(cart) && Price(cart, terms).Ok?
    requires forall i :: 0 <= i < |cart| ==> cart[i].product < |shelf.products|
    requires PlanCart(shelf.lots, cart, ZeroTaken(|shelf.lots|), offline).Ok?
    ensures var plans := PlanCart(shelf.lots, cart, ZeroTaken(|shelf.lots|), offline).value;
            TakeItems(shelf, ItemsOf(cart, plans, terms.taxRate), cash).Ok?
  {
    var plans := PlanCart(shelf.lots, cart, ZeroTaken(|shelf.lots|), offline).value;
    PlanCartFits(shelf.lots, cart, ZeroTaken(|shelf.lots|), offline);
    NewItemsOk(shelf, cart, plans, terms);
    hide *;
    TakeGoes(shelf, ItemsOf(cart, plans, terms.taxRate), cash);
  }

  /** Beyond its guards a checkout has nothing to fail on. */
  lemma CheckoutGoes(s: State, cart: seq<CartLine>, terms: StoreTerms, cash: bool, offline: bool,
                     key: Option<string>, now: int)
    requires cart != [] && CartOk(cart) && (offline ==> cash && key.Some?)
    requires forall i :: 0 <= i < |cart| ==> cart[i].product < |s.shelf.products|
    requires PlanCart(s.shelf.lots, cart, ZeroTaken(|s.shelf.lots|), offline).Ok? && Price(cart, terms).Ok?
    ensures CreateSale(s, cart, terms, cash, offline, key, now).Ok?
  {
    PlannedGoes(s.shelf, cart, terms, cash, offline);
    hide PlanCart, Price, TakeItems, ItemsOf, CartOk;
  }

  lemma {:induction false} ReleaseHolds(shelf: Shelf, items: seq<SaleItem>)
    requires HoldsWf(shelf) && ReleaseItems(shelf, items).Ok?
    ensures ItemsMoved(shelf, ReleaseItems(shelf, items).value, items, -1, 0)
    decreases |items|
  {
    if items != [] {
      var next := Release(shelf, items[0].product, items[0].allocs).value;
      LineMoves(shelf, next, items[0].product, items[0].allocs, ReleaseOp, -1, 0);
      ReleaseHolds(next, items[1..]);
      NextMoved(shelf, next, ReleaseItems(next, items[1..]).value, items, -1, 0);
    }
  }

  // ---- When a customer who pays is served ----

  /** Each row finds its lot, as locked, still holding what it is to give. */
  predicate RowsCovered(locked: seq<Lot>, items: seq<SaleItem>) {
    forall i, k :: 0 <= i < |items| && 0 <= k < |items[i].allocs| && items[i].allocs[k].lot < |locked| ==>
      items[i].allocs[k].qty <= locked[items[i].allocs[k].lot].remaining
  }

  function SoldFn(p: nat): SaleItem -> int { (item: SaleItem) => if item.product == p then Total(item.allocs) else 0 }

  /** Units of the product on the lines. */
  function Sold(items: seq<SaleItem>, p: nat): int { Sum(items, SoldFn(p)) }

  predicate StockCovered(products: seq<Product>, items: seq<SaleItem>) {
    forall p: nat :: p < |products| && Sold(items, p) > 0 ==> Sold(items, p) <= products[p].stock
  }

  /** Lots and stock still have what the sale is to give. */
  predicate CanGive(s: State, id: nat) {
    id < |s.sales|
    && RowsCovered(s.shelf.lots, s.sales[id].items) && StockCovered(s.shelf.products, s.sales[id].items)
  }

  /** Line `n` can be given once the lines before it were: its lots, as locked, have its units, and the
      stock of its product those of all lines so far. */
  predicate LineCovered(products: seq<Product>, locked: seq<Lot>, items: seq<SaleItem>, n: nat)
    requires n < |items|
  {
    var p := items[n].product;
    RowsCovered(locked, [items[n]]) && (p < |products| ==> Sold(items[..n + 1], p) <= products[p].stock)
  }

  /** Line `n` is the first that cannot be given. */
  predicate ShortAt(products: seq<Product>, locked: seq<Lot>, items: seq<SaleItem>, n: nat) {
    n < |items| && !LineCovered(products, locked, items, n)
    && forall k: nat :: k < n ==> LineCovered(products, locked, items, k)
  }

  /** What a line that cannot be given is answered: 409 if a lot of it is short, 500 if only stock is. */
  function ShortAnswer(locked: seq<Lot>, item: SaleItem): nat { if RowsCovered(locked, [item]) then 500 else 409 }

  /** The shelf half way through the lines of a payment. */
  predicate Settling(shelf: Shelf, locked: seq<Lot>, items: seq<SaleItem>) {
    && HoldsWf(shelf) && SnapshotOf(locked, shelf.lots) && AllSupplied(shelf, items) && HeldFor(shelf, items)
    && (forall l :: 0 <= l < |shelf.lots| ==> shelf.lots[l].reserved >= 0)
    && (forall i :: 0 <= i < |items| ==> items[i].allocs != [])
  }

  /** The line's own units are on its lots, so releasing them leaves no product below zero. */
  lemma OwnHolds(shelf: Shelf, p: nat, allocs: seq<Alloc>)
    requires HoldsWf(shelf) && Supplies(shelf, p, allocs) && Backed(shelf.lots, allocs)
    requires forall l :: 0 <= l < |shelf.lots| ==> shelf.lots[l].reserved >= 0
    ensures Total(allocs) <= shelf.products[p].reserved
  {
    var after := ApplyAll(shelf.lots, allocs, ReleaseOp);
    HeldUnitsMove(shelf, p, allocs, ReleaseOp, -1, 0, p);
    forall l: nat | l < |after| ensures HoldFn(p)(after[l]) >= 0 { ShiftedAt(shelf.lots, allocs, ReleaseOp, -1, 0, l); }
    SumNonNeg(after, HoldFn(p));
  }

  // ---- A customer who does not pay ----

  /** The units of the lines are held, whatever else has become of the lots. */
  predicate Releasing(shelf: Shelf, items: seq<SaleItem>) {
    && HoldsWf(shelf) && AllSupplied(shelf, items) && HeldFor(shelf, items)
    && (forall l :: 0 <= l < |shelf.lots| ==> shelf.lots[l].reserved >= 0)
  }

  predicate StockStays(a: Shelf, b: Shelf) {
    && |b.lots| == |a.lots| && |b.products| == |a.products|
    && forall p :: 0 <= p < |a.products| ==> b.products[p].stock == a.products[p].stock
  }

  lemma HeldGoes(shelf: Shelf, p: nat, allocs: seq<Alloc>)
    requires HoldsWf(shelf) && Supplies(shelf, p, allocs) && Backed(shelf.lots, allocs)
    requires forall l :: 0 <= l < |shelf.lots| ==> shelf.lots[l].reserved >= 0
    ensures Release(shelf, p, allocs).Ok?
    ensures var next := Release(shelf, p, allocs).value;
            && HoldsWf(next) && StockStays(shelf, next)
            && forall l: nat :: l < |shelf.lots| ==>
                 next.lots[l] == shelf.lots[l].(reserved := shelf.lots[l].reserved - On(allocs, l))
  {
    BackedIsHeld(shelf.lots, allocs, |allocs|);
    OwnHolds(shelf, p, allocs);
    var next := Release(shelf, p, allocs).value;
    LineMoves(shelf, next, p, allocs, ReleaseOp, -1, 0);
    hide HoldsWf, HeldRows, Supplies, Backed;
    forall l: nat | l < |shelf.lots|
      ensures next.lots[l] == shelf.lots[l].(reserved := shelf.lots[l].reserved - On(allocs, l))
    {
      ReleaseEffect(shelf.lots, allocs, l);
    }
  }

  lemma ReleaseLine(shelf: Shelf, items: seq<SaleItem>)
    requires items != [] && Releasing(shelf, items)
    ensures Release(shelf, items[0].product, items[0].allocs).Ok?
    ensures var next := Release(shelf, items[0].product, items[0].allocs).value;
            && Releasing(next, items[1..]) && StockStays(shelf, next)
            && forall l: nat :: l < |shelf.lots| ==>
                 next.lots[l] == shelf.lots[l].(reserved := shelf.lots[l].reserved - On(items[0].allocs, l))
  {
    var p, allocs := items[0].product, items[0].allocs;
    assert Supplies(shelf, p, allocs);
    forall l: nat | l < |shelf.lots|
      ensures 0 <= On(allocs, l) && 0 <= Units(items[1..], l) && Units(items[1..], l) + On(allocs, l) == Units(items, l)
    {
      LineAndOthers(shelf, items, l);
    }
    HeldGoes(shelf, p, allocs);
    var next := Release(shelf, p, allocs).value;
    hide HoldsWf, Release, Units, On;
    forall i | 0 <= i < |items[1..]| ensures Supplies(next, items[1..][i].product, items[1..][i].allocs) {
      assert Supplies(shelf, items[i + 1].product, items[i + 1].allocs);
    }
  }

  /** Held units can always be let go: no guard fails, no stock moves, and each lot gives back exactly
      what the lines held on it. */
  lemma {:induction false} ReleaseGoes(shelf: Shelf, items: seq<SaleItem>)
    requires Releasing(shelf, items)
    ensures ReleaseItems(shelf, items).Ok? && StockStays(shelf, ReleaseItems(shelf, items).value)
    ensures forall l: nat :: l < |shelf.lots| ==>
              ReleaseItems(shelf, items).value.lots[l]
              == shelf.lots[l].(reserved := shelf.lots[l].reserved - Units(items, l))
    decreases |items|
  {
    if items != [] {
      assert Supplies(shelf, items[0].product, items[0].allocs);
      ReleaseLine(shelf, items);
      hide Releasing, Release, Supplies;
      var next := Release(shelf, items[0].product, items[0].allocs).value;
      ReleaseGoes(next, items[1..]);
      forall l: nat | l < |shelf.lots|
        ensures ReleaseItems(next, items[1..]).value.lots[l]
             == shelf.lots[l].(reserved := shelf.lots[l].reserved - Units(items, l))
      {
        ItemsCons(items, l);
      }
    }
  }

  // ---- Line by line through a payment ----

  /** A line one of whose lots was emptied under it has nowhere to go: what is left there is not free. */
  lemma NotFree(shelf: Shelf, locked: seq<Lot>, p: nat, allocs: seq<Alloc>, k: nat)
    requires Supplies(shelf, p, allocs) && SnapshotOf(locked, shelf.lots) && k < |allocs|
    requires forall l :: 0 <= l < |shelf.lots| ==> shelf.lots[l].reserved >= 0
    requires locked[allocs[k].lot].remaining < allocs[k].qty
    ensures ConsumeFree(shelf, p, allocs) == Err(409)
  {
    var l := allocs[k].lot;
    assert Positive(allocs[..k]);
    ShiftedAt(shelf.lots, allocs[..k], ConsumeDirectOp, 0, -1, l);
    OnBounds(allocs[..k], l);
    FreeNext(shelf.lots, allocs, k);
    FreePrefix(shelf.lots, allocs, k + 1);
  }

  lemma RowsOfOne(shelf: Shelf, locked: seq<Lot>, item: SaleItem)
    requires Supplies(shelf, item.product, item.allocs) && |locked| == |shelf.lots|
    requires forall l: nat :: l < |locked| ==> On(item.allocs, l) <= locked[l].reserved
    ensures Intact(locked, item.allocs) <==> RowsCovered(locked, [item])
    ensures !RowsCovered(locked, [item]) ==>
              exists k :: 0 <= k < |item.allocs| && locked[item.allocs[k].lot].remaining < item.allocs[k].qty
  {
    OnBounds(item.allocs, 0);
    if Intact(locked, item.allocs) {
      forall i, k | 0 <= i < |[item]| && 0 <= k < |[item][i].allocs| && [item][i].allocs[k].lot < |locked|
        ensures [item][i].allocs[k].qty <= locked[[item][i].allocs[k].lot].remaining
      {
        assert [item][i] == item;
      }
    } else {
      var k :| 0 <= k < |item.allocs| && locked[item.allocs[k].lot].remaining < item.allocs[k].qty;
      assert [item][0].allocs[k] == item.allocs[k];
    }
  }

  /** One line of the payment. */
  lemma PayLine(shelf: Shelf, locked: seq<Lot>, items: seq<SaleItem>)
    requires items != [] && Settling(shelf, locked, items)
    ensures var p, total := items[0].product, Total(items[0].allocs);
            var r := FinalizeItem(shelf, locked, items[0]);
            if !RowsCovered(locked, [items[0]]) then r == Err(409)
            else if shelf.products[p].stock < total then r == Err(500)
            else r == ConsumeReserved(shelf, p, items[0].allocs) && r.Ok?
  {
    var p, allocs := items[0].product, items[0].allocs;
    assert Supplies(shelf, p, allocs);
    forall l: nat | l < |shelf.lots| ensures 0 <= On(allocs, l) <= shelf.lots[l].reserved {
      ItemsCons(items, l);
      ItemsNonNeg(shelf, items[1..], l);
      OnBounds(allocs, l);
    }
    OwnHolds(shelf, p, allocs);
    RowsOfOne(shelf, locked, items[0]);
    hide RowsCovered, ConsumeFree;
    if !RowsCovered(locked, [items[0]]) {
      var k :| 0 <= k < |allocs| && locked[allocs[k].lot].remaining < allocs[k].qty;
      NotFree(shelf, locked, p, allocs, k);
    }
  }

  /** ... and the shelf it leaves for the next. */
  lemma PaidLine(shelf: Shelf, locked: seq<Lot>, items: seq<SaleItem>)
    requires items != [] && Settling(shelf, locked, items)
    requires ConsumeReserved(shelf, items[0].product, items[0].allocs).Ok?
    ensures var next := ConsumeReserved(shelf, items[0].product, items[0].allocs).value;
            && Settling(next, locked, items[1..]) && SameShape(shelf, next)
            && (forall l: nat :: l < |shelf.lots| ==>
               LotShifted(shelf.lots[l], next.lots[l], On(items[0].allocs, l), -1, -1))
  {
    var p, allocs := items[0].product, items[0].allocs;
    assert Supplies(shelf, p, allocs);
    var next := ConsumeReserved(shelf, p, allocs).value;
    LineMoves(shelf, next, p, allocs, ConsumeReservedOp, -1, -1);
    forall l: nat | l < |shelf.lots|
      ensures 0 <= Units(items[1..], l) <= next.lots[l].reserved
      ensures next.lots[l].reserved <= locked[l].reserved && next.lots[l].remaining <= locked[l].remaining
    {
      ItemsCons(items, l);
      ItemsNonNeg(shelf, items[1..], l);
      OnBounds(allocs, l);
      assert LotShifted(shelf.lots[l], next.lots[l], On(allocs, l), -1, -1);
    }
    forall i | 0 <= i < |items[1..]| ensures Supplies(next, items[1..][i].product, items[1..][i].allocs) {
      assert Supplies(shelf, items[i + 1].product, items[i + 1].allocs);
    }
  }

  lemma SoldCons(shelf: Shelf, items: seq<SaleItem>, p: nat)
    requires items != [] && AllSupplied(shelf, items)
    ensures Sold(items, p) == (if items[0].product == p then Total(items[0].allocs) else 0) + Sold(items[1..], p)
    ensures Sold(items[1..], p) >= 0 && (items[0].allocs != [] ==> Total(items[0].allocs) > 0)
  {
    assert Supplies(shelf, items[0].product, items[0].allocs);
    if items[0].allocs != [] { OnBounds(items[0].allocs, items[0].allocs[0].lot); }
    assert items == [items[0]] + items[1..];
    SumConcat([items[0]], items[1..], SoldFn(p));
    SumSingleton(items[0], SoldFn(p));
    forall i | 0 <= i < |items[1..]| ensures SoldFn(p)(items[1..][i]) >= 0 {
      assert Supplies(shelf, items[i + 1].product, items[i + 1].allocs);
      OnBounds(items[i + 1].allocs, 0);
    }
    SumNonNeg(items[1..], SoldFn(p));
  }

  lemma CoveredCons(shelf: Shelf, next: Shelf, locked: seq<Lot>, items: seq<SaleItem>)
    requires items != [] && AllSupplied(shelf, items) && items[0].allocs != []
    requires ConsumeReserved(shelf, items[0].product, items[0].allocs) == Ok(next)
    ensures RowsCovered(locked, items) <==> RowsCovered(locked, [items[0]]) && RowsCovered(locked, items[1..])
    ensures StockCovered(shelf.products, items) <==> StockCovered(next.products, items[1..])
  {
    if RowsCovered(locked, items) {
      forall i, k | 0 <= i < |items[1..]| && 0 <= k < |items[1..][i].allocs| && items[1..][i].allocs[k].lot < |locked|
        ensures items[1..][i].allocs[k].qty <= locked[items[1..][i].allocs[k].lot].remaining
      {
        assert items[1..][i] == items[i + 1];
      }
    }
    if RowsCovered(locked, [items[0]]) && RowsCovered(locked, items[1..]) {
      forall i, k | 0 <= i < |items| && 0 <= k < |items[i].allocs| && items[i].allocs[k].lot < |locked|
        ensures items[i].allocs[k].qty <= locked[items[i].allocs[k].lot].remaining
      {
        if i == 0 { assert items[0] == [items[0]][0]; } else { assert items[i] == items[1..][i - 1]; }
      }
    }
    forall p: nat | p < |shelf.products|
      ensures (Sold(items, p) > 0 ==> Sold(items, p) <= shelf.products[p].stock)
         <==> (Sold(items[1..], p) > 0 ==> Sold(items[1..], p) <= next.products[p].stock)
    {
      SoldCons(shelf, items, p);
    }
  }

  /** A line that fails settles it for all. */
  lemma FirstShort(shelf: Shelf, locked: seq<Lot>, items: seq<SaleItem>)
    requires items != [] && AllSupplied(shelf, items) && items[0].allocs != []
    ensures !RowsCovered(locked, [items[0]]) ==> !RowsCovered(locked, items)
    ensures items[0].product < |shelf.products| && shelf.products[items[0].product].stock < Total(items[0].allocs) ==>
              !StockCovered(shelf.products, items)
  {
    SoldCons(shelf, items, items[0].product);
  }

  /** The lines after the first see the stock the first has left. */
  lemma LineCoveredCons(shelf: Shelf, next: Shelf, locked: seq<Lot>, items: seq<SaleItem>, k: nat)
    requires items != [] && AllSupplied(shelf, items) && k + 1 < |items|
    requires ConsumeReserved(shelf, items[0].product, items[0].allocs) == Ok(next)
    ensures LineCovered(shelf.products, locked, items, k + 1) <==> LineCovered(next.products, locked, items[1..], k)
  {
    var p, first, rest := items[k + 1].product, items[0], items[1..][..k + 1];
    assert items[..k + 2] == [first] + rest && items[1..][k] == items[k + 1];
    SumConcat([first], rest, SoldFn(p));
    SumSingleton(first, SoldFn(p));
    hide RowsCovered;
  }

  lemma LineCoveredFirst(products: seq<Product>, locked: seq<Lot>, items: seq<SaleItem>)
    requires items != []
    ensures LineCovered(products, locked, items, 0) <==>
              && RowsCovered(locked, [items[0]])
              && (items[0].product < |products| ==> Total(items[0].allocs) <= products[items[0].product].stock)
  {
    assert items[..1] == [items[0]];
    SumSingleton(items[0], SoldFn(items[0].product));
  }

  /** The first short line of all is the first, or that of the others. */
  lemma ShortAtCons(shelf: Shelf, next: Shelf, locked: seq<Lot>, items: seq<SaleItem>, n: nat)
    requires items != [] && AllSupplied(shelf, items) && LineCovered(shelf.products, locked, items, 0)
    requires ConsumeReserved(shelf, items[0].product, items[0].allocs) == Ok(next)
    ensures !ShortAt(shelf.products, locked, items, 0)
    ensures ShortAt(shelf.products, locked, items, n + 1) <==> ShortAt(next.products, locked, items[1..], n)
  {
    forall k: nat | k + 1 < |items|
      ensures LineCovered(shelf.products, locked, items, k + 1) <==> LineCovered(next.products, locked, items[1..], k)
    {
      LineCoveredCons(shelf, next, locked, items, k);
    }
    hide LineCovered, ConsumeReserved;
    if ShortAt(shelf.products, locked, items, n + 1) {
      forall k: nat | k < n ensures LineCovered(next.products, locked, items[1..], k) {
        assert LineCovered(shelf.products, locked, items, k + 1);
      }
    }
    if ShortAt(next.products, locked, items[1..], n) {
      forall k: nat | k < n + 1 ensures LineCovered(shelf.products, locked, items, k) {
        if k > 0 { assert LineCovered(next.products, locked, items[1..], k - 1); }
      }
    }
  }

  /** The first line that cannot be given decides the answer, whatever the lines after it lack. */
  lemma {:induction false} PayLinesAnswer(shelf: Shelf, locked: seq<Lot>, items: seq<SaleItem>)
    requires Settling(shelf, locked, items)
    ensures FinalizeItems(shelf, locked, items).Err? <==>
              exists n: nat :: ShortAt(shelf.products, locked, items, n)
    ensures forall n: nat :: ShortAt(shelf.products, locked, items, n) ==>
              FinalizeItems(shelf, locked, items) == Err(ShortAnswer(locked, items[n]))
    decreases |items|
  {
    if items != [] {
      PayLine(shelf, locked, items);
      LineCoveredFirst(shelf.products, locked, items);
      assert AllSupplied(shelf, items) && items[0].product < |shelf.products| by {
        assert Supplies(shelf, items[0].product, items[0].allocs);
      }
      if FinalizeItem(shelf, locked, items[0]).Ok? {
        var next := FinalizeItem(shelf, locked, items[0]).value;
        PaidLine(shelf, locked, items);
        hide Settling, RowsCovered, FinalizeItem, ConsumeReserved, AllSupplied, LineCovered, ShortAt, Total;
        PayLinesAnswer(next, locked, items[1..]);
        forall n: nat
          ensures !ShortAt(shelf.products, locked, items, 0)
          ensures ShortAt(shelf.products, locked, items, n + 1) <==> ShortAt(next.products, locked, items[1..], n)
        {
          ShortAtCons(shelf, next, locked, items, n);
        }
        AnswerOn(shelf, next, locked, items);
      } else {
        assert ShortAt(shelf.products, locked, items, 0);
        hide Settling, RowsCovered, ConsumeReserved, AllSupplied, LineCovered;
      }
    }
  }

  lemma AnswerOn(shelf: Shelf, next: Shelf, locked: seq<Lot>, items: seq<SaleItem>)
    requires items != [] && FinalizeItem(shelf, locked, items[0]) == Ok(next)
    requires FinalizeItems(next, locked, items[1..]).Err? <==>
               exists n: nat :: ShortAt(next.products, locked, items[1..], n)
    requires forall n: nat :: ShortAt(next.products, locked, items[1..], n) ==>
               FinalizeItems(next, locked, items[1..]) == Err(ShortAnswer(locked, items[1..][n]))
    requires !ShortAt(shelf.products, locked, items, 0)
    requires forall n: nat :: ShortAt(shelf.products, locked, items, n + 1) <==>
               ShortAt(next.products, locked, items[1..], n)
    ensures FinalizeItems(shelf, locked, items).Err? <==>
              exists n: nat :: ShortAt(shelf.products, locked, items, n)
    ensures forall n: nat :: ShortAt(shelf.products, locked, items, n) ==>
              FinalizeItems(shelf, locked, items) == Err(ShortAnswer(locked, items[n]))
  {
  }

  /** All lines: served exactly when every row's lot still has the row's units and every product's
      stock the units of its lines; else the first line that cannot be given is answered, 409 if a lot of
      it is short and 500 if only stock is. */
  lemma {:induction false} PayLinesExact(shelf: Shelf, locked: seq<Lot>, items: seq<SaleItem>)
    requires Settling(shelf, locked, items)
    ensures FinalizeItems(shelf, locked, items).Ok?
            <==> RowsCovered(locked, items) && StockCovered(shelf.products, items)
    ensures FinalizeItems(shelf, locked, items).Ok? ==>
            ItemsMoved(shelf, FinalizeItems(shelf, locked, items).value, items, -1, -1)
    ensures forall n: nat :: ShortAt(shelf.products, locked, items, n) ==>
              FinalizeItems(shelf, locked, items) == Err(ShortAnswer(locked, items[n]))
    ensures FinalizeItems(shelf, locked, items).Err? ==> exists n: nat :: ShortAt(shelf.products, locked, items, n)
    ensures items != [] && !RowsCovered(locked, [items[0]]) ==> FinalizeItems(shelf, locked, items) == Err(409)
    ensures FinalizeItems(shelf, locked, items).Err? ==>
              var status := FinalizeItems(shelf, locked, items).status;
              && (RowsCovered(locked, items) ==> status == 500)
                 && (StockCovered(shelf.products, items) ==> status == 409)
    decreases |items|
  {
    PayLinesAnswer(shelf, locked, items);
    hide ShortAt;
    if items != [] {
      PayLine(shelf, locked, items);
      FirstShort(shelf, locked, items);
      if FinalizeItem(shelf, locked, items[0]).Ok? {
        var next := FinalizeItem(shelf, locked, items[0]).value;
        PaidLine(shelf, locked, items);
        CoveredCons(shelf, next, locked, items);
        hide Settling, RowsCovered, StockCovered, FinalizeItem, ConsumeReserved, HoldsWf;
        PayLinesExact(next, locked, items[1..]);
        if FinalizeItems(shelf, locked, items).Ok? {
          NextMoved(shelf, next, FinalizeItems(next, locked, items[1..]).value, items, -1, -1);
        }
      }
    }
  }

  // ---- Steps of a sale ----

  /** One sale row and the shelf change together. */
  lemma RowHolds(s: State, id: nat, shelf: Shelf, sale: Sale)
    requires HoldsOk(s) && id < |s.sales|
    requires HoldsWf(shelf) && SameShape(s.shelf, shelf) && SaleOk(shelf, sale) && sale.key == s.sales[id].key
    requires forall l: nat :: l < |shelf.lots| ==>
               && shelf.lots[l].reserved == s.shelf.lots[l].reserved - HeldFn(l)(s.sales[id]) + HeldFn(l)(sale)
               && shelf.lots[l].remaining == s.shelf.lots[l].remaining + NetTake(s.sales[id], l) - NetTake(sale, l)
    ensures var t := s.(shelf := shelf, sales := s.sales[id := sale]);
            HoldsWf(shelf) && SalesOk(shelf, t.sales) && HeldOk(t) && KeysOk(t.sales) && SameTally(s, t)
  {
    SalesFrame(s.shelf, shelf, s.sales);
    forall l: nat
      ensures Held(s.sales[id := sale], l) == Held(s.sales, l) - HeldFn(l)(s.sales[id]) + HeldFn(l)(sale)
      ensures Sum(s.sales[id := sale], NetTakeFn(l))
              == Sum(s.sales, NetTakeFn(l)) - NetTake(s.sales[id], l) + NetTake(sale, l)
    {
      SumUpdate(s.sales, id, sale, HeldFn(l));
      SumUpdate(s.sales, id, sale, NetTakeFn(l));
    }
  }

  /** Before the first line of a payment. */
  lemma PendingSettles(s: State, id: nat)
    requires HoldsOk(s) && id < |s.sales| && s.sales[id].status.Pending?
    ensures SaleOk(s.shelf, s.sales[id]) && Settling(s.shelf, s.shelf.lots, s.sales[id].items)
  {
    var items := s.sales[id].items;
    assert SaleOk(s.shelf, s.sales[id]);
    forall i | 0 <= i < |items| ensures Supplies(s.shelf, items[i].product, items[i].allocs) && items[i].allocs != [] {
      assert ItemOk(s.shelf, items[i]);
    }
    forall l: nat | l < |s.shelf.lots| ensures 0 <= Units(items, l) <= s.shelf.lots[l].reserved {
      HeldNonNeg(s.shelf, s.sales, l);
      assert HeldFn(l)(s.sales[id]) == Units(items, l);
    }
  }

  /** When the customer of a PENDING sale is served, in any state at all: exactly when each lot of the
      sale still has the units of each of its rows and the stock of each product the units of its
      lines. Otherwise the first line that cannot be given decides: 409 if a lot of it is short, 500 if
      only the product row is. */
  lemma PaidExact(s: State, id: nat, now: int)
    requires HoldsOk(s) && id < |s.sales| && s.sales[id].status.Pending?
    ensures var items, r := s.sales[id].items, FinalizePaidSale(s, id, now);
            && items != []
            && (r.Ok? <==> CanGive(s, id))
            && (r.Err? ==> exists n: nat :: ShortAt(s.shelf.products, s.shelf.lots, items, n))
            && (forall n: nat :: ShortAt(s.shelf.products, s.shelf.lots, items, n) ==>
                  r == Err(ShortAnswer(s.shelf.lots, items[n])))
            && (r.Err? && RowsCovered(s.shelf.lots, items) ==> r.status == 500)
            && (r.Err? && StockCovered(s.shelf.products, items) ==> r.status == 409)
            && (!RowsCovered(s.shelf.lots, [items[0]]) ==> r == Err(409))
  {
    PendingSettles(s, id);
    PayLinesExact(s.shelf, s.shelf.lots, s.sales[id].items);
    hide RowsCovered, StockCovered, ShortAt, Settling, HoldsOk;
  }

  /** What a sale that was PENDING has taken, now that it is not. */
  lemma SettledTake(shelf: Shelf, sale: Sale, status: PaymentStatus, paidAt: Option<int>, l: nat)
    requires SaleOk(shelf, sale) && sale.status.Pending? && (status.Paid? || status.Failed? || status.TimedOut?)
    ensures NetTake(sale, l) == 0 && HeldFn(l)(sale) == Units(sale.items, l)
    ensures HeldFn(l)(sale.(status := status, paidAt := paidAt)) == 0
    ensures NetTake(sale.(status := status, paidAt := paidAt), l) == if status.Paid? then Units(sale.items, l) else 0
  {
    UnrefundedTake(sale, l);
  }

  /** The row of a sale that was PENDING, now that it is not. */
  lemma SettledRowHolds(s: State, id: nat, shelf: Shelf, status: PaymentStatus, paidAt: Option<int>)
    requires HoldsOk(s) && id < |s.sales| && s.sales[id].status.Pending?
    requires (status.Paid? && paidAt.Some?) || ((status.Failed? || status.TimedOut?) && paidAt.None?)
    requires ItemsMoved(s.shelf, shelf, s.sales[id].items, -1, if status.Paid? then -1 else 0)
    ensures var t := s.(shelf := shelf, sales := s.sales[id := s.sales[id].(status := status, paidAt := paidAt)]);
            HoldsOk(t) && SameTally(s, t)
  {
    var sale := s.sales[id].(status := status, paidAt := paidAt);
    assert SaleOk(s.shelf, s.sales[id]);
    ItemsFrame(s.shelf, shelf, sale.items);
    forall l: nat | l < |shelf.lots|
      ensures shelf.lots[l].reserved == s.shelf.lots[l].reserved - HeldFn(l)(s.sales[id]) + HeldFn(l)(sale)
      ensures shelf.lots[l].remaining == s.shelf.lots[l].remaining + NetTake(s.sales[id], l) - NetTake(sale, l)
    {
      SettledTake(s.shelf, s.sales[id], status, paidAt, l);
      assert LotShifted(s.shelf.lots[l], shelf.lots[l], Units(sale.items, l), -1, if status.Paid? then -1 else 0);
    }
    RowHolds(s, id, shelf, sale);
    RefundsUntouched(s.sales, s.refunds, id, sale);
  }

  lemma PayHolds(s: State, id: nat, now: int)
    requires HoldsOk(s) && FinalizePaidSale(s, id, now).Ok?
    ensures HoldsOk(FinalizePaidSale(s, id, now).value) && SameTally(s, FinalizePaidSale(s, id, now).value)
  {
    if s.sales[id].status.Pending? {
      PendingSettles(s, id);
      PayLinesExact(s.shelf, s.shelf.lots, s.sales[id].items);
      SettledRowHolds(s, id, FinalizeItems(s.shelf, s.shelf.lots, s.sales[id].items).value, Paid, Some(now));
    }
  }

  /** A sale that was never paid can be failed or expired in any state at all: no guard fails, it gives
      back exactly what it held, and no stock moves. */
  lemma UnpaidGoes(s: State, id: nat, timedOut: bool)
    requires HoldsOk(s) && id < |s.sales| && s.sales[id].status.Pending?
    ensures SettleUnpaidSale(s, id, timedOut).Ok?
    ensures var t := SettleUnpaidSale(s, id, timedOut).value;
            && HoldsOk(t) && SameTally(s, t) && StockStays(s.shelf, t.shelf) && t.recalls == s.recalls
            && t.refunds == s.refunds
            && t.sales == s.sales[id := s.sales[id].(status := if timedOut then TimedOut else Failed)]
            && (forall l: nat :: l < |s.shelf.lots| ==>
                  t.shelf.lots[l] == s.shelf.lots[l].(reserved := s.shelf.lots[l].reserved - SaleOn(s.sales[id], l)))
  {
    var items, next := s.sales[id].items, if timedOut then TimedOut else Failed;
    PendingSettles(s, id);
    assert Releasing(s.shelf, items) && s.sales[id].paidAt == None;
    ReleaseGoes(s.shelf, items);
    ReleaseHolds(s.shelf, items);
    hide HoldsOk, ReleaseItems, Settling, Releasing, SameTally, HoldsWf, ItemsMoved, StockStays, SaleOk;
    SettledRowHolds(s, id, ReleaseItems(s.shelf, items).value, next, None);
    assert s.sales[id].(status := next, paidAt := None) == s.sales[id].(status := next);
  }

  lemma UnpaidHolds(s: State, id: nat, timedOut: bool)
    requires HoldsOk(s) && SettleUnpaidSale(s, id, timedOut).Ok?
    ensures HoldsOk(SettleUnpaidSale(s, id, timedOut).value) && SameTally(s, SettleUnpaidSale(s, id, timedOut).value)
  {
    if s.sales[id].status.Pending? {
      hide HoldsOk;
      UnpaidGoes(s, id, timedOut);
    }
  }

  /** What a new row holds or has taken is what its lots gave. */
  predicate RowGiven(a: Shelf, b: Shelf, sale: Sale) {
    |b.lots| == |a.lots|
    && forall l: nat :: l < |b.lots| ==>
         && b.lots[l].reserved == a.lots[l].reserved + HeldFn(l)(sale)
         && b.lots[l].remaining == a.lots[l].remaining - NetTake(sale, l)
  }

  lemma AppendedUnits(s: State, shelf: Shelf, sale: Sale)
    requires HeldOk(s) && RowGiven(s.shelf, shelf, sale)
    ensures var t := s.(shelf := shelf, sales := s.sales + [sale]);
            HeldOk(t) && SameTally(s, t)
  {
    forall l: nat
      ensures Held(s.sales + [sale], l) == Held(s.sales, l) + HeldFn(l)(sale)
      ensures Sum(s.sales + [sale], NetTakeFn(l)) == Sum(s.sales, NetTakeFn(l)) + NetTake(sale, l)
    {
      SumAppend(s.sales, sale, HeldFn(l));
      SumAppend(s.sales, sale, NetTakeFn(l));
    }
  }

  lemma AppendedRow(a: Shelf, b: Shelf, sales: seq<Sale>, refunds: seq<Refund>, sale: Sale)
    requires SalesOk(a, sales) && SameShape(a, b) && SaleOk(b, sale)
    requires RefundsOk(sales, refunds) && !sale.status.Refunding?
    requires KeysOk(sales) && (sale.key.Some? ==> !HasKey(sales, sale.key.value))
    ensures SalesOk(b, sales + [sale]) && RefundsOk(sales + [sale], refunds) && KeysOk(sales + [sale])
  {
    SalesFrame(a, b, sales);
    AppendUnrefunded(sales, refunds, sale);
    hide SaleOk, RefundsOk;
  }

  lemma NewRowHolds(s: State, shelf: Shelf, sale: Sale)
    requires HoldsOk(s) && HoldsWf(shelf) && SameShape(s.shelf, shelf) && SaleOk(shelf, sale)
    requires (sale.status.Paid? || sale.status.Pending?) && (sale.key.Some? ==> !HasKey(s.sales, sale.key.value))
    requires RowGiven(s.shelf, shelf, sale)
    ensures var t := s.(shelf := shelf, sales := s.sales + [sale]);
            HoldsOk(t) && SameTally(s, t)
  {
    hide HoldsWf, SameShape, SaleOk, SalesOk, HeldOk, RefundsOk, KeysOk, HasKey, RowGiven, SameTally;
    AppendedUnits(s, shelf, sale);
    AppendedRow(s.shelf, shelf, s.sales, s.refunds, sale);
  }

  lemma AppendUnrefunded(sales: seq<Sale>, refunds: seq<Refund>, sale: Sale)
    requires RefundsOk(sales, refunds) && !sale.status.Refunding?
    ensures RefundsOk(sales + [sale], refunds)
  {
    forall id: nat | id < |sales| && sales[id].status.Refunding? ensures RefundOpen(sales + [sale], refunds, id) {
      assert RefundOpen(sales, refunds, id);
    }
  }

  lemma LinesGiven(shelf: Shelf, next: Shelf, sale: Sale)
    requires sale.status.Paid? || sale.status.Pending?
    requires ItemsMoved(shelf, next, sale.items, if sale.status.Paid? then 0 else 1,
                        if sale.status.Paid? then -1 else 0)
    requires forall i :: 0 <= i < |sale.items| ==> sale.items[i].parts == []
    ensures HoldsWf(next) && SameShape(shelf, next) && RowGiven(shelf, next, sale)
  {
    var c, d := if sale.status.Paid? then 0 else 1, if sale.status.Paid? then -1 else 0;
    assert HoldsWf(next) && SameShape(shelf, next);
    hide HoldsWf;
    forall l: nat | l < |next.lots|
      ensures next.lots[l].reserved == shelf.lots[l].reserved + HeldFn(l)(sale)
      ensures next.lots[l].remaining == shelf.lots[l].remaining - NetTake(sale, l)
    {
      UnrefundedTake(sale, l);
      assert LotShifted(shelf.lots[l], next.lots[l], Units(sale.items, l), c, d);
    }
  }

  lemma NewRowOk(shelf: Shelf, next: Shelf, priced: Priced, terms: StoreTerms, items: seq<SaleItem>, cash: bool,
                 key: Option<string>, now: int)
    requires ItemsOk(shelf, items) && SameShape(shelf, next) && items != [] && !FullyRefunded(items)
    requires forall i :: 0 <= i < |items| ==> items[i].parts == []
    ensures SaleOk(next, NewSale(priced, terms, items, cash, key, now))
  {
    ItemsFrame(shelf, next, items);
    hide ItemsOk, FullyRefunded;
  }

  /** The shelf and the row of a sale whose planned lines have been taken or held. */
  lemma NewSaleShelf(shelf: Shelf, cart: seq<CartLine>, plans: seq<seq<Alloc>>, terms: StoreTerms, cash: bool,
                     key: Option<string>, now: int)
    requires HoldsWf(shelf) && cart != [] && CartOk(cart) && Price(cart, terms).Ok?
    requires |plans| == |cart| && PlansFit(shelf.lots, cart, plans)
    requires forall i :: 0 <= i < |cart| ==> cart[i].product < |shelf.products|
    requires TakeItems(shelf, ItemsOf(cart, plans, terms.taxRate), cash).Ok?
    ensures var items := ItemsOf(cart, plans, terms.taxRate);
            var next, sale := TakeItems(shelf, items, cash).value,
                              NewSale(Price(cart, terms).value, terms, items, cash, key, now);
            HoldsWf(next) && SameShape(shelf, next) && SaleOk(next, sale) && RowGiven(shelf, next, sale)
  {
    var items := ItemsOf(cart, plans, terms.taxRate);
    var priced := Price(cart, terms).value;
    NewItemsOk(shelf, cart, plans, terms);
    hide TakeItems, PlansFit, Price, HoldsWf, SameShape, SaleOk, RowGiven, ItemsMoved, ItemsOk, FullyRefunded, CartOk,
         AllSupplied;
    TakeHolds(shelf, items, cash);
    var next := TakeItems(shelf, items, cash).value;
    LinesGiven(shelf, next, NewSale(priced, terms, items, cash, key, now));
    NewRowOk(shelf, next, priced, terms, items, cash, key, now);
  }

  /** A new sale, overdrawing or not. */
  lemma CreateHolds(s: State, cart: seq<CartLine>, terms: StoreTerms, cash: bool, offline: bool, key: Option<string>,
                    now: int)
    requires HoldsOk(s) && CreateSale(s, cart, terms, cash, offline, key, now).Ok?
    ensures var t := CreateSale(s, cart, terms, cash, offline, key, now).value;
            HoldsOk(t) && SameTally(s, t)
  {
    if !(key.Some? && HasKey(s.sales, key.value)) {
      CreateGranted(s, cart, terms, cash, offline, key, now);
      assert HoldsWf(s.shelf);
      hide HoldsOk, CreateSale, PlanCart, TakeItems, SameTally, Price, HoldsWf, CartOk, SaleOk, ItemsOf, RowGiven,
           SameShape;
      var plans := PlanCart(s.shelf.lots, cart, ZeroTaken(|s.shelf.lots|), offline).value;
      var items := ItemsOf(cart, plans, terms.taxRate);
      PlanCartFits(s.shelf.lots, cart, ZeroTaken(|s.shelf.lots|), offline);
      NewSaleShelf(s.shelf, cart, plans, terms, cash, key, now);
      NewRowHolds(s, TakeItems(s.shelf, items, cash).value,
                  NewSale(Price(cart, terms).value, terms, items, cash, key, now));
    } else {
      assert CreateSale(s, cart, terms, cash, offline, key, now).value == s;
    }
  }

  // ---- Steps that move no reservation ----

  /** No row appears, and no reservation moves. */
  predicate Quiet(a: Shelf, b: Shelf) {
    && SameShape(a, b)
    && (forall l :: 0 <= l < |a.lots| ==> b.lots[l].reserved == a.lots[l].reserved)
    && (forall p :: 0 <= p < |a.products| ==> b.products[p].reserved == a.products[p].reserved)
  }

  lemma QuietWf(a: Shelf, b: Shelf)
    requires HoldsWf(a) && Quiet(a, b)
    ensures HoldsWf(b)
  {
    forall p: nat | p < |b.products| ensures b.products[p].reserved == HeldUnits(b.lots, p) {
      SumSame(b.lots, HoldFn(p), a.lots, HoldFn(p));
    }
  }

  lemma QuietTrans(a: Shelf, b: Shelf, c: Shelf)
    requires Quiet(a, b) && Quiet(b, c)
    ensures Quiet(a, c)
  {
  }
}
