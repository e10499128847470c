/** Offline sales told from the cart. Whether the books survive one, and whether a card customer does, is
    decided by a few sums a caller can work out before the sale: for each product, what the cart asks for
    line by line, what is free on the lots before the last, and what the last lot holds. */
module OfflineCart {
  import opened Outcome
  import opened Sums
  import opened Allocation
  import opened Lots
  import opened StockEngine
  import opened Fefo
  import opened Checkout
  import opened Ledger
  import opened LedgerInvariant
  import opened SaleSteps
  import opened CartPlans
  import opened PaymentSteps
  import opened Holds
  import opened OfflinePlan
  import opened OfflineOverflow

  /** The lot an offline shortfall falls on. */
  function LastLot(lots: seq<Lot>, p: nat): (l: nat)
    requires Overdrawable(lots, p)
    ensures l < |lots|
  {
    var order := ActiveFefo(lots, p);
    order[|order| - 1]
  }

  /** Units free on the lots before it. */
  function FreeBefore(lots: seq<Lot>, p: nat): int
    requires Overdrawable(lots, p)
  {
    var order := ActiveFefo(lots, p);
    UpTo(Avails(lots, order, ZeroTaken(|lots|)), |order| - 1)
  }

  /** The demand of the cart reaches exactly the end of the product's last lot with line `j`. */
  predicate Exhausts(lots: seq<Lot>, cart: seq<CartLine>, j: nat)
    requires j < |cart|
  {
    var p := cart[j].product;
    Overdrawable(lots, p)
    && lots[LastLot(lots, p)].remaining > 0
    && Ahead(cart, j + 1, p) == FreeBefore(lots, p) + lots[LastLot(lots, p)].remaining
  }

  // ---- Rows against lines ----

  /** A row that empties its lot is the last one there. */
  predicate EmptiedLast(lots: seq<Lot>, rows: seq<Alloc>)
    requires InRange(lots, rows)
  {
    forall k: nat :: k < |rows| && Empties(lots, rows, k) ==> On(rows, rows[k].lot) == lots[rows[k].lot].remaining
  }

  lemma RowsFromThere(rows: seq<Alloc>, k: nat, l: nat)
    requires Positive(rows) && k <= |rows|
    ensures On(rows, l) == On(rows[..k], l) + On(rows[k..], l)
    ensures On(rows[k..], l) >= 0
    ensures On(rows[k..], l) > 0 <==> exists j :: k <= j < |rows| && rows[j].lot == l
  {
    assert rows == rows[..k] + rows[k..];
    OnConcat(rows[..k], rows[k..], l);
    assert Positive(rows[k..]);
    OnBounds(rows[k..], l);
    if j :| k <= j < |rows| && rows[j].lot == l { assert rows[k..][j - k].lot == l; }
    if i :| 0 <= i < |rows[k..]| && rows[k..][i].lot == l { assert rows[k + i].lot == l; }
  }

  lemma LastIffActive(lots: seq<Lot>, rows: seq<Alloc>)
    requires InRange(lots, rows) && Positive(rows)
    requires forall k :: 0 <= k < |rows| ==> lots[rows[k].lot].status.Active?
    ensures ActiveAtTurn(lots, rows) <==> EmptiedLast(lots, rows)
  {
    if ActiveAtTurn(lots, rows) {
      forall k: nat | k < |rows| && Empties(lots, rows, k)
        ensures On(rows, rows[k].lot) == lots[rows[k].lot].remaining
      {
        forall j: nat | k < j < |rows| ensures rows[j].lot != rows[k].lot { assert TurnOk(lots, rows, j); }
        RowsFromThere(rows, k + 1, rows[k].lot);
      }
    }
    if EmptiedLast(lots, rows) {
      forall j: nat | j < |rows| ensures TurnOk(lots, rows, j) {
        forall k: nat | k < j && rows[k].lot == rows[j].lot ensures !Empties(lots, rows, k) {
          RowsFromThere(rows, k + 1, rows[j].lot);
        }
      }
    }
  }

  lemma OneRow(allocs: seq<Alloc>, k: nat)
    requires Positive(allocs) && DistinctLots(allocs) && k < |allocs|
    ensures On(allocs[..k + 1], allocs[k].lot) == On(allocs, allocs[k].lot) == allocs[k].qty
  {
    var l := allocs[k].lot;
    assert allocs[..k + 1] == allocs[..k] + [allocs[k]];
    NoneOn(allocs[..k], l);
    OnAppend(allocs[..k], allocs[k], l);
    RowsFromThere(allocs, k + 1, l);
  }

  /** Lines each of whose rows are on lots of their own. */
  predicate LinesOk(items: seq<SaleItem>) {
    forall i :: 0 <= i < |items| ==> Positive(items[i].allocs) && DistinctLots(items[i].allocs)
  }

  lemma {:induction false} RowsSnoc(items: seq<SaleItem>)
    requires items != []
    ensures RowsOf(items) == RowsOf(items[..|items| - 1]) + items[|items| - 1].allocs
    decreases |items|
  {
    var init, rest, last := items[..|items| - 1], items[1..], items[|items| - 1];
    if |items| > 1 {
      RowsSnoc(rest);
      assert rest[..|rest| - 1] == init[1..] && rest[|rest| - 1] == last && init[0] == items[0];
      assert RowsOf(init) == items[0].allocs + RowsOf(init[1..]);
      Regroup(items[0].allocs, RowsOf(init[1..]), last.allocs);
    } else {
      assert RowsOf(rest) == [] && RowsOf(init) == [];
    }
  }

  lemma Regroup(a: seq<Alloc>, b: seq<Alloc>, c: seq<Alloc>)
    ensures a + (b + c) == (a + b) + c
  {
  }

  lemma {:induction false} RowsAddUp(items: seq<SaleItem>, l: nat)
    requires LinesOk(items)
    ensures Positive(RowsOf(items)) && On(RowsOf(items), l) == Units(items, l)
  {
    if items != [] {
      var init, last := items[..|items| - 1], items[|items| - 1];
      RowsAddUp(init, l);
      RowsSnoc(items);
      OnConcat(RowsOf(init), last.allocs, l);
    }
  }

  /** The rows of the lines before the last stay where they are ... */
  lemma EarlierRow(items: seq<SaleItem>, k: nat)
    requires items != [] && k < |RowsOf(items[..|items| - 1])|
    ensures k < |RowsOf(items)| && RowsOf(items)[k] == RowsOf(items[..|items| - 1])[k]
    ensures RowsOf(items)[..k + 1] == RowsOf(items[..|items| - 1])[..k + 1]
  {
    RowsSnoc(items);
  }

  /** ... and each row of the last line brings its lot to what all lines take of it. */
  lemma LastLineRow(items: seq<SaleItem>, i: nat)
    requires items != [] && LinesOk(items) && i < |items[|items| - 1].allocs|
    ensures var k, a := |RowsOf(items[..|items| - 1])| + i, items[|items| - 1].allocs[i];
            && k < |RowsOf(items)| && RowsOf(items)[k] == a
            && On(RowsOf(items)[..k + 1], a.lot) == Units(items, a.lot)
            && On(items[|items| - 1].allocs, a.lot) > 0
  {
    var init, last, rows := items[..|items| - 1], items[|items| - 1], RowsOf(items);
    var l, k := last.allocs[i].lot, |RowsOf(init)| + i;
    RowsSnoc(items);
    assert rows[..k + 1] == RowsOf(init) + last.allocs[..i + 1];
    OnConcat(RowsOf(init), last.allocs[..i + 1], l);
    OneRow(last.allocs, i);
    RowsAddUp(init, l);
    assert Positive(last.allocs);
  }

  /** Line `j` brings what the lines take of lot `l` to `x`; row `k` does. */
  predicate LineBrings(items: seq<SaleItem>, j: nat, l: nat, x: int) {
    j < |items| && On(items[j].allocs, l) > 0 && Units(items[..j + 1], l) == x
  }

  predicate RowBrings(rows: seq<Alloc>, k: nat, l: nat, x: int) {
    k < |rows| && rows[k].lot == l && On(rows[..k + 1], l) == x
  }

  /** What a row does a line does ... */
  lemma {:induction false} RowToLine(items: seq<SaleItem>, k: nat, l: nat, x: int)
    requires LinesOk(items) && RowBrings(RowsOf(items), k, l, x)
    ensures exists j: nat :: LineBrings(items, j, l, x)
  {
    var n := |items| - 1;
    var init := items[..n];
    if k < |RowsOf(init)| {
      EarlierRow(items, k);
      hide RowsOf;
      RowToLine(init, k, l, x);
      var j: nat :| LineBrings(init, j, l, x);
      assert items[..j + 1] == init[..j + 1];
      assert LineBrings(items, j, l, x);
    } else {
      RowsSnoc(items);
      hide RowsOf;
      LastLineRow(items, k - |RowsOf(init)|);
      assert items[..n + 1] == items;
      assert LineBrings(items, n, l, x);
    }
  }

  /** ... and the other way round. */
  lemma {:induction false} LineToRow(items: seq<SaleItem>, j: nat, l: nat, x: int)
    requires LinesOk(items) && LineBrings(items, j, l, x)
    ensures exists k: nat :: RowBrings(RowsOf(items), k, l, x)
  {
    hide RowsOf;
    var n := |items| - 1;
    var init := items[..n];
    if j < n {
      assert items[..j + 1] == init[..j + 1];
      LineToRow(init, j, l, x);
      var k: nat :| RowBrings(RowsOf(init), k, l, x);
      EarlierRow(items, k);
      assert RowBrings(RowsOf(items), k, l, x);
    } else {
      assert items[..n + 1] == items;
      OnBounds(items[n].allocs, l);
      var i :| 0 <= i < |items[n].allocs| && items[n].allocs[i].lot == l;
      LastLineRow(items, i);
      assert RowBrings(RowsOf(items), |RowsOf(init)| + i, l, x);
    }
  }

  /** In terms of lines: a line that empties a lot is the last to take from it. */
  ghost predicate LinesEmptyLast(lots: seq<Lot>, items: seq<SaleItem>) {
    forall j: nat, l: nat :: l < |lots| && LineBrings(items, j, l, lots[l].remaining) ==>
      Units(items, l) == lots[l].remaining
  }

  ghost predicate LinesSpareHolds(lots: seq<Lot>, items: seq<SaleItem>) {
    forall j: nat, l: nat :: l < |lots| && LineBrings(items, j, l, lots[l].remaining) ==> lots[l].reserved == 0
  }

  lemma RowsOrLines(lots: seq<Lot>, items: seq<SaleItem>)
    requires LinesOk(items) && InRange(lots, RowsOf(items))
    ensures EmptiedLast(lots, RowsOf(items)) <==> LinesEmptyLast(lots, items)
    ensures HoldsSpared(lots, RowsOf(items)) <==> LinesSpareHolds(lots, items)
  {
    var rows := RowsOf(items);
    forall k: nat | k < |rows| && Empties(lots, rows, k)
      ensures exists j: nat :: LineBrings(items, j, rows[k].lot, lots[rows[k].lot].remaining)
      ensures On(rows, rows[k].lot) == Units(items, rows[k].lot)
    {
      RowToLine(items, k, rows[k].lot, lots[rows[k].lot].remaining);
      RowsAddUp(items, rows[k].lot);
    }
    forall j: nat, l: nat | l < |lots| && LineBrings(items, j, l, lots[l].remaining)
      ensures exists k: nat :: k < |rows| && rows[k].lot == l && Empties(lots, rows, k)
      ensures On(rows, l) == Units(items, l)
    {
      LineToRow(items, j, l, lots[l].remaining);
      var k: nat :| RowBrings(rows, k, l, lots[l].remaining);
      assert Empties(lots, rows, k);
      RowsAddUp(items, l);
    }
    hide Empties, LineBrings, Units;
  }

  // ---- What the plan of a cart takes ----

  lemma {:induction false} PlansDistinct(lots: seq<Lot>, cart: seq<CartLine>, taken: seq<int>)
    requires |taken| == |lots| && PlanCart(lots, cart, taken, true).Ok?
    ensures var plans := PlanCart(lots, cart, taken, true).value;
            forall j :: 0 <= j < |plans| ==> DistinctLots(plans[j])
    decreases |cart|
  {
    if cart != [] {
      var order := ActiveFefo(lots, cart[0].product);
      var plan := PlanLine(lots, order, taken, cart[0].quantity, true).value;
      ActiveFefoSpec(lots, cart[0].product);
      RowsDistinct(order, TakesOverdrawn(Avails(lots, order, taken), cart[0].quantity), |order|);
      hide RowsTo, TakesOverdrawn, Avails, ActiveFefo, DistinctLots, TakenAfter;
      PlansDistinct(lots, cart[1..], plan.taken);
    }
  }

  /** The cart is planned, from lots in order. */
  predicate Planned(s: State, cart: seq<CartLine>) {
    && ShelfWf(s.shelf) && LotsOk(s.shelf.lots) && CartOk(cart)
    && PlanCart(s.shelf.lots, cart, ZeroTaken(|s.shelf.lots|), true).Ok?
  }

  /** Rows on ACTIVE lots of the right product. */
  predicate OnOrder(lots: seq<Lot>, cart: seq<CartLine>, items: seq<SaleItem>) {
    |items| == |cart|
    && forall j, k :: 0 <= j < |items| && 0 <= k < |items[j].allocs| ==>
         && items[j].allocs[k].lot < |lots| && lots[items[j].allocs[k].lot].status.Active?
         && lots[items[j].allocs[k].lot].product == cart[j].product
  }

  lemma PlannedOnOrder(s: State, cart: seq<CartLine>, taxRate: nat)
    requires Planned(s, cart)
    ensures LinesOk(PlannedLines(s, cart, taxRate)) && OnOrder(s.shelf.lots, cart, PlannedLines(s, cart, taxRate))
  {
    var lots := s.shelf.lots;
    PlanCartFits(lots, cart, ZeroTaken(|lots|), true);
    PlansDistinct(lots, cart, ZeroTaken(|lots|));
    hide PlanCart, DistinctLots;
  }

  lemma LineOnOrder(lots: seq<Lot>, cart: seq<CartLine>, items: seq<SaleItem>, j: nat, l: nat)
    requires LinesOk(items) && OnOrder(lots, cart, items) && j < |items| && On(items[j].allocs, l) > 0
    ensures l < |lots| && lots[l].status.Active? && l in ActiveFefo(lots, cart[j].product)
  {
    OnBounds(items[j].allocs, l);
    ActiveFefoSpec(lots, cart[j].product);
  }

  lemma {:induction false} RowOnOrder(lots: seq<Lot>, cart: seq<CartLine>, items: seq<SaleItem>, k: nat)
    requires LinesOk(items) && OnOrder(lots, cart, items) && k < |RowsOf(items)|
    ensures RowsOf(items)[k].lot < |lots| && lots[RowsOf(items)[k].lot].status.Active?
  {
    var l, x := RowsOf(items)[k].lot, On(RowsOf(items)[..k + 1], RowsOf(items)[k].lot);
    RowToLine(items, k, l, x);
    var j: nat :| LineBrings(items, j, l, x);
    LineOnOrder(lots, cart, items, j, l);
  }

  /** What holds of the planned lines: rows of their own, on ACTIVE lots of their products. */
  lemma PlannedRows(s: State, cart: seq<CartLine>, taxRate: nat)
    requires Planned(s, cart)
    ensures var items := PlannedLines(s, cart, taxRate);
            && |items| == |cart| && LinesOk(items) && InRange(s.shelf.lots, RowsOf(items))
            && (forall k :: 0 <= k < |RowsOf(items)| ==> s.shelf.lots[RowsOf(items)[k].lot].status.Active?)
            && (forall j: nat, l: nat :: j < |items| && On(items[j].allocs, l) > 0 ==>
                  l < |s.shelf.lots| && l in ActiveFefo(s.shelf.lots, cart[j].product))
  {
    var lots := s.shelf.lots;
    var items := PlannedLines(s, cart, taxRate);
    PlannedOnOrder(s, cart, taxRate);
    assert |items| == |cart|;
    hide PlannedLines, LinesOk, OnOrder, ActiveFefo, RowsOf, On;
    forall j: nat, l: nat | j < |items| && On(items[j].allocs, l) > 0
      ensures l < |lots| && l in ActiveFefo(lots, cart[j].product)
    {
      LineOnOrder(lots, cart, items, j, l);
    }
    forall k: nat | k < |RowsOf(items)|
      ensures RowsOf(items)[k].lot < |lots| && lots[RowsOf(items)[k].lot].status.Active?
    {
      RowOnOrder(lots, cart, items, k);
    }
  }

  /** The first lines take of each lot of a product what their demand puts there. */
  lemma PlannedShare(s: State, cart: seq<CartLine>, taxRate: nat, j: nat, p: nat, i: nat)
    requires Planned(s, cart) && j <= |cart| && i < |ActiveFefo(s.shelf.lots, p)|
    ensures var lots := s.shelf.lots;
            var avail := Avails(lots, ActiveFefo(lots, p), ZeroTaken(|lots|));
            Ahead(cart, j, p) >= 0
            && Units(PlannedLines(s, cart, taxRate)[..j], ActiveFefo(lots, p)[i])
               == TakesOverdrawn(avail, Ahead(cart, j, p))[i]
  {
    var lots := s.shelf.lots;
    var plans := PlanCart(lots, cart, ZeroTaken(|lots|), true).value;
    CartTakes(lots, cart, ZeroTaken(|lots|), j, p, i);
    ItemsUnits(cart[..j], plans[..j], taxRate, ActiveFefo(lots, p)[i]);
    assert PlannedLines(s, cart, taxRate)[..j] == ItemsOf(cart[..j], plans[..j], taxRate);
  }

  /** The last lot of a product gives what the demand exceeds the lots before it by ... */
  lemma LastShare(s: State, cart: seq<CartLine>, taxRate: nat, j: nat, p: nat)
    requires Planned(s, cart) && j <= |cart| && Overdrawable(s.shelf.lots, p)
    ensures Ahead(cart, j, p) >= 0 && FreeBefore(s.shelf.lots, p) >= 0
    ensures Units(PlannedLines(s, cart, taxRate)[..j], LastLot(s.shelf.lots, p))
         == Max0(Ahead(cart, j, p) - FreeBefore(s.shelf.lots, p))
  {
    var lots, order := s.shelf.lots, ActiveFefo(s.shelf.lots, p);
    var avail := Avails(lots, order, ZeroTaken(|lots|));
    hide Planned, PlannedLines, TakesOverdrawn, Avails, ActiveFefo, Ahead;
    PlannedShare(s, cart, taxRate, j, p, |order| - 1);
    LotShare(avail, Ahead(cart, j, p), |order| - 1);
    UpToMono(avail, 0, |order| - 1);
  }

  /** ... and every other lot of it no more than is free there. */
  lemma OtherShare(s: State, cart: seq<CartLine>, taxRate: nat, j: nat, p: nat, l: nat)
    requires Planned(s, cart) && j <= |cart| && l in ActiveFefo(s.shelf.lots, p) && l != LastLot(s.shelf.lots, p)
    ensures l < |s.shelf.lots|
    ensures 0 <= Units(PlannedLines(s, cart, taxRate)[..j], l)
              <= Max0(s.shelf.lots[l].remaining - s.shelf.lots[l].reserved)
  {
    var lots, order := s.shelf.lots, ActiveFefo(s.shelf.lots, p);
    var avail := Avails(lots, order, ZeroTaken(|lots|));
    var i: nat :| i < |order| && order[i] == l;
    assert i != |order| - 1;
    hide Planned, PlannedLines, TakesOverdrawn, Avails, ActiveFefo, Ahead;
    PlannedShare(s, cart, taxRate, j, p, i);
    LotShare(avail, Ahead(cart, j, p), i);
    AvailsAt(lots, order, ZeroTaken(|lots|), i);
  }

  /** Lines only ever add. */
  lemma UnitsGrow(items: seq<SaleItem>, j: nat, l: nat)
    requires LinesOk(items) && j < |items|
    ensures Units(items[..j + 1], l) == Units(items[..j], l) + On(items[j].allocs, l)
    ensures Units(items[..j + 1], l) <= Units(items, l)
  {
    var rest := items[j + 1..];
    assert items[..j + 1][..j] == items[..j] && items == items[..j + 1] + rest;
    SumConcat(items[..j + 1], rest, ItemOnFn(l));
    forall i | 0 <= i < |rest| ensures ItemOnFn(l)(rest[i]) >= 0 {
      assert rest[i] == items[j + 1 + i];
      OnBounds(rest[i].allocs, l);
    }
    SumNonNeg(rest, ItemOnFn(l));
  }

  lemma DemandGrows(cart: seq<CartLine>, j: nat)
    requires CartOk(cart) && j < |cart|
    ensures Ahead(cart, j, cart[j].product) < Ahead(cart, j + 1, cart[j].product)
  {
    assert LineOk(cart[j]);
    assert cart[..j + 1][..j] == cart[..j];
  }

  // ---- When the books survive ----

  /** A line that brings a lot to nothing: not the last lot, and then it was free and nobody comes
      after; or the last lot, and then the demand ends there. */
  lemma WhatEmpties(s: State, cart: seq<CartLine>, taxRate: nat, j: nat, l: nat)
    requires Planned(s, cart) && l < |s.shelf.lots|
    requires LineBrings(PlannedLines(s, cart, taxRate), j, l, s.shelf.lots[l].remaining)
    ensures j < |cart| && Overdrawable(s.shelf.lots, cart[j].product)
    ensures l != LastLot(s.shelf.lots, cart[j].product) ==>
              Units(PlannedLines(s, cart, taxRate), l) == s.shelf.lots[l].remaining && s.shelf.lots[l].reserved == 0
    ensures l == LastLot(s.shelf.lots, cart[j].product) ==> Exhausts(s.shelf.lots, cart, j)
  {
    var lots, items, p := s.shelf.lots, PlannedLines(s, cart, taxRate), cart[j].product;
    PlannedRows(s, cart, taxRate);
    UnitsGrow(items, j, l);
    assert LotOk(lots[l]) && Overdrawable(lots, p) && items[..|items|] == items;
    hide Planned, PlannedLines, LastLot, FreeBefore, Ahead, ActiveFefo, Overdrawable, LinesOk, Units;
    if l == LastLot(lots, p) {
      LastShare(s, cart, taxRate, j, p);
      LastShare(s, cart, taxRate, j + 1, p);
    } else {
      OtherShare(s, cart, taxRate, j, p, l);
      OtherShare(s, cart, taxRate, j + 1, p, l);
      OtherShare(s, cart, taxRate, |cart|, p, l);
    }
  }

  lemma EndsThere(free: int, left: int, before: int, now: int, all: int, on: int)
    requires free >= 0 && left > 0 && before < now == free + left
    requires Max0(now - free) == Max0(before - free) + on
    ensures on > 0 && Max0(now - free) == left && (Max0(all - free) == left <==> all == now)
  {
  }

  /** What line `j` and all lines take of the last lot of its product. */
  lemma LastOfLine(s: State, cart: seq<CartLine>, taxRate: nat, j: nat)
    requires Planned(s, cart) && j < |cart| && Overdrawable(s.shelf.lots, cart[j].product)
    ensures var lots, p, items := s.shelf.lots, cart[j].product, PlannedLines(s, cart, taxRate);
            var free, l := FreeBefore(lots, p), LastLot(lots, p);
            && free >= 0 && j < |items| && Ahead(cart, j, p) < Ahead(cart, j + 1, p)
            && Units(items[..j + 1], l) == Max0(Ahead(cart, j + 1, p) - free)
            && Units(items[..j + 1], l) == Max0(Ahead(cart, j, p) - free) + On(items[j].allocs, l)
            && Units(items, l) == Max0(Ahead(cart, |cart|, p) - free)
  {
    var p, items := cart[j].product, PlannedLines(s, cart, taxRate);
    PlannedRows(s, cart, taxRate);
    assert CartOk(cart) && items[..|cart|] == items;
    hide *;
    UnitsGrow(items, j, LastLot(s.shelf.lots, p));
    DemandGrows(cart, j);
    LastShare(s, cart, taxRate, j, p);
    LastShare(s, cart, taxRate, j + 1, p);
    LastShare(s, cart, taxRate, |cart|, p);
  }

  /** The other way round, for the last lot. */
  lemma ExhaustsEmpties(s: State, cart: seq<CartLine>, taxRate: nat, j: nat)
    requires Planned(s, cart) && j < |cart| && Exhausts(s.shelf.lots, cart, j)
    ensures var lots, p := s.shelf.lots, cart[j].product;
            && LineBrings(PlannedLines(s, cart, taxRate), j, LastLot(lots, p), lots[LastLot(lots, p)].remaining)
            && (Units(PlannedLines(s, cart, taxRate), LastLot(lots, p)) == lots[LastLot(lots, p)].remaining
                <==> Ahead(cart, |cart|, p) == Ahead(cart, j + 1, p))
  {
    var lots, p, items := s.shelf.lots, cart[j].product, PlannedLines(s, cart, taxRate);
    var l := LastLot(lots, p);
    hide Planned, PlannedLines, LastLot, FreeBefore, Ahead, Overdrawable, Units, On, Max0;
    LastOfLine(s, cart, taxRate, j);
    EndsThere(FreeBefore(lots, p), lots[l].remaining, Ahead(cart, j, p), Ahead(cart, j + 1, p), Ahead(cart, |cart|, p),
              On(items[j].allocs, l));
  }

  /** The product of line `j` is asked for again after it. */
  predicate GoesOn(cart: seq<CartLine>, j: nat)
    requires j < |cart|
  {
    Ahead(cart, |cart|, cart[j].product) != Ahead(cart, j + 1, cart[j].product)
  }

  /** No line of the product comes after the one that exhausts it. */
  predicate ExhaustedLast(lots: seq<Lot>, cart: seq<CartLine>) {
    forall j: nat :: j < |cart| && Exhausts(lots, cart, j) ==> !GoesOn(cart, j)
  }

  /** No line exhausts a product whose last lot has units reserved. */
  predicate ExhaustedSpares(lots: seq<Lot>, cart: seq<CartLine>) {
    forall j: nat :: j < |cart| && Exhausts(lots, cart, j) ==> lots[LastLot(lots, cart[j].product)].reserved == 0
  }

  /** What emptying a lot comes to, line by line. */
  lemma LineOrCart(s: State, cart: seq<CartLine>, taxRate: nat, j: nat, l: nat)
    requires Planned(s, cart) && l < |s.shelf.lots|
    requires LineBrings(PlannedLines(s, cart, taxRate), j, l, s.shelf.lots[l].remaining)
    ensures ExhaustedLast(s.shelf.lots, cart) ==> Units(PlannedLines(s, cart, taxRate), l) == s.shelf.lots[l].remaining
    ensures ExhaustedSpares(s.shelf.lots, cart) ==> s.shelf.lots[l].reserved == 0
  {
    WhatEmpties(s, cart, taxRate, j, l);
    hide Planned, PlannedLines, Exhausts, LineBrings;
    if l == LastLot(s.shelf.lots, cart[j].product) { ExhaustsEmpties(s, cart, taxRate, j); }
  }

  lemma CartOrLine(s: State, cart: seq<CartLine>, taxRate: nat, j: nat)
    requires Planned(s, cart) && j < |cart| && Exhausts(s.shelf.lots, cart, j)
    ensures LinesEmptyLast(s.shelf.lots, PlannedLines(s, cart, taxRate)) ==> !GoesOn(cart, j)
    ensures LinesSpareHolds(s.shelf.lots, PlannedLines(s, cart, taxRate)) ==>
              s.shelf.lots[LastLot(s.shelf.lots, cart[j].product)].reserved == 0
  {
    assert Overdrawable(s.shelf.lots, cart[j].product);
    hide Planned, PlannedLines, Exhausts, LineBrings, LastLot;
    ExhaustsEmpties(s, cart, taxRate, j);
  }

  lemma LinesOrCart(s: State, cart: seq<CartLine>, taxRate: nat)
    requires Planned(s, cart)
    ensures LinesEmptyLast(s.shelf.lots, PlannedLines(s, cart, taxRate)) <==> ExhaustedLast(s.shelf.lots, cart)
    ensures LinesSpareHolds(s.shelf.lots, PlannedLines(s, cart, taxRate)) <==> ExhaustedSpares(s.shelf.lots, cart)
  {
    hide *;
    CartToLines(s, cart, taxRate);
    LinesToCart(s, cart, taxRate);
  }

  lemma CartToLines(s: State, cart: seq<CartLine>, taxRate: nat)
    requires Planned(s, cart)
    ensures ExhaustedLast(s.shelf.lots, cart) ==> LinesEmptyLast(s.shelf.lots, PlannedLines(s, cart, taxRate))
    ensures ExhaustedSpares(s.shelf.lots, cart) ==> LinesSpareHolds(s.shelf.lots, PlannedLines(s, cart, taxRate))
  {
    var lots, items := s.shelf.lots, PlannedLines(s, cart, taxRate);
    hide Planned, PlannedLines, ExhaustedLast, ExhaustedSpares, LineBrings, Units;
    forall j: nat, l: nat | l < |lots| && LineBrings(items, j, l, lots[l].remaining)
      ensures ExhaustedLast(lots, cart) ==> Units(items, l) == lots[l].remaining
      ensures ExhaustedSpares(lots, cart) ==> lots[l].reserved == 0
    {
      LineOrCart(s, cart, taxRate, j, l);
    }
  }

  lemma LinesToCart(s: State, cart: seq<CartLine>, taxRate: nat)
    requires Planned(s, cart)
    ensures LinesEmptyLast(s.shelf.lots, PlannedLines(s, cart, taxRate)) ==> ExhaustedLast(s.shelf.lots, cart)
    ensures LinesSpareHolds(s.shelf.lots, PlannedLines(s, cart, taxRate)) ==> ExhaustedSpares(s.shelf.lots, cart)
  {
    var lots, items := s.shelf.lots, PlannedLines(s, cart, taxRate);
    hide Planned, PlannedLines, LinesEmptyLast, LinesSpareHolds, GoesOn, LastLot;
    forall j: nat | j < |cart| && Exhausts(lots, cart, j)
      ensures LinesEmptyLast(lots, items) ==> !GoesOn(cart, j)
      ensures LinesSpareHolds(lots, items) ==> lots[LastLot(lots, cart[j].product)].reserved == 0
    {
      CartOrLine(s, cart, taxRate, j);
    }
  }

  /** An offline sale of any cart, however far it overdraws: Product.stock stays right exactly when no
      product's demand ends, with one line, just where its last lot does and then goes on; and the whole
      rollup exactly when besides no demand ends just there while that lot has units reserved. */
  lemma CartKeepsBooks(s: State, cart: seq<CartLine>, terms: StoreTerms, key: string, now: int)
    requires ShelfOk(s.shelf) && !HasKey(s.sales, key)
    requires CreateSale(s, cart, terms, true, true, Some(key), now).Ok?
    ensures var shelf := CreateSale(s, cart, terms, true, true, Some(key), now).value.shelf;
            && (StockRollup(shelf) <==> ExhaustedLast(s.shelf.lots, cart))
            && (Rollup(shelf) <==> ExhaustedLast(s.shelf.lots, cart) && ExhaustedSpares(s.shelf.lots, cart))
  {
    NewSaleRow(s, cart, terms, key, now);
    assert Planned(s, cart);
    hide *;
    var items := PlannedLines(s, cart, terms.taxRate);
    OfflineSaleExact(s, cart, terms, key, now);
    PlannedRows(s, cart, terms.taxRate);
    LastIffActive(s.shelf.lots, RowsOf(items));
    RowsOrLines(s.shelf.lots, items);
    LinesOrCart(s, cart, terms.taxRate);
  }

  // ---- When a card customer does ----

  /** A unit the cart takes of the last lot, on top of one of his rows. */
  predicate RowBeside(lots: seq<Lot>, cart: seq<CartLine>, p: nat, a: Alloc) {
    Overdrawable(lots, p) && a.lot == LastLot(lots, p) ==>
      a.qty + Max0(Ahead(cart, |cart|, p) - FreeBefore(lots, p)) <= lots[a.lot].remaining
  }

  /** His rows on last lots have room beside the cart, and the stock of his products is enough for both. */
  predicate ServedBeside(s: Shelf, cart: seq<CartLine>, items: seq<SaleItem>) {
    && (forall i, k :: 0 <= i < |items| && 0 <= k < |items[i].allocs| ==>
          RowBeside(s.lots, cart, items[i].product, items[i].allocs[k]))
    && (forall p: nat :: p < |s.products| && Sold(items, p) > 0 ==>
          Sold(items, p) + Ahead(cart, |cart|, p) <= s.products[p].stock)
  }

  /** The cart sells what it asks for. */
  lemma SoldIsDemand(s: State, cart: seq<CartLine>, taxRate: nat, p: nat)
    requires Planned(s, cart)
    ensures Sold(PlannedLines(s, cart, taxRate), p) == Ahead(cart, |cart|, p)
  {
    var lots := s.shelf.lots;
    var items := PlannedLines(s, cart, taxRate);
    PlanCartFits(lots, cart, ZeroTaken(|lots|), true);
    hide PlanCart;
    SumSame(items, SoldFn(p), cart, QuantityFn(p));
    assert cart[..|cart|] == cart;
  }

  /** The units of each of his rows are reserved on an ACTIVE lot of the product. */
  lemma HisRow(s: State, id: nat, i: nat, k: nat)
    requires Inv(s) && id < |s.sales| && s.sales[id].status.Pending?
    requires i < |s.sales[id].items| && k < |s.sales[id].items[i].allocs|
    ensures var a, p := s.sales[id].items[i].allocs[k], s.sales[id].items[i].product;
            && a.lot < |s.shelf.lots| && a.lot in ActiveFefo(s.shelf.lots, p)
            && 0 < a.qty <= s.shelf.lots[a.lot].reserved <= s.shelf.lots[a.lot].remaining
  {
    var items := s.sales[id].items;
    var l := items[i].allocs[k].lot;
    assert SaleOk(s.shelf, s.sales[id]);
    assert ItemOk(s.shelf, items[i]) && Supplies(s.shelf, items[i].product, items[i].allocs);
    PendingIsHeld(s, id);
    ItemsNonNeg(s.shelf, items, l);
    OnBounds(items[i].allocs, l);
    assert LotOk(s.shelf.lots[l]);
    ActiveFefoSpec(s.shelf.lots, items[i].product);
  }

  lemma RowBesideCart(s: State, cart: seq<CartLine>, taxRate: nat, id: nat, i: nat, k: nat)
    requires Inv(s) && Planned(s, cart) && id < |s.sales| && s.sales[id].status.Pending?
    requires i < |s.sales[id].items| && k < |s.sales[id].items[i].allocs|
    ensures var a, p := s.sales[id].items[i].allocs[k], s.sales[id].items[i].product;
            a.lot < |s.shelf.lots|
            && (a.qty + Units(PlannedLines(s, cart, taxRate), a.lot) <= s.shelf.lots[a.lot].remaining
                <==> RowBeside(s.shelf.lots, cart, p, a))
  {
    var lots, items := s.shelf.lots, PlannedLines(s, cart, taxRate);
    var a, p := s.sales[id].items[i].allocs[k], s.sales[id].items[i].product;
    HisRow(s, id, i, k);
    assert |items| == |cart| && items[..|cart|] == items;
    hide Inv, Planned, PlannedLines, ActiveFefo, FreeBefore, Ahead, Units;
    if a.lot == LastLot(lots, p) {
      LastShare(s, cart, taxRate, |cart|, p);
    } else {
      OtherShare(s, cart, taxRate, |cart|, p, a.lot);
    }
  }

  lemma BesideCart(s: State, cart: seq<CartLine>, taxRate: nat, id: nat)
    requires Inv(s) && Planned(s, cart) && id < |s.sales| && s.sales[id].status.Pending?
    ensures CoveredBeside(s.shelf, s.sales[id].items, PlannedLines(s, cart, taxRate))
       <==> ServedBeside(s.shelf, cart, s.sales[id].items)
  {
    var items, sold := s.sales[id].items, PlannedLines(s, cart, taxRate);
    hide Inv, Planned, PlannedLines, RowBeside, Units, Sold, Ahead;
    forall p: nat ensures Sold(sold, p) == Ahead(cart, |cart|, p) { SoldIsDemand(s, cart, taxRate, p); }
    forall i, k | 0 <= i < |items| && 0 <= k < |items[i].allocs|
      ensures items[i].allocs[k].lot < |s.shelf.lots|
      ensures items[i].allocs[k].qty + Units(sold, items[i].allocs[k].lot)
                <= s.shelf.lots[items[i].allocs[k].lot].remaining
         <==> RowBeside(s.shelf.lots, cart, items[i].product, items[i].allocs[k])
    {
      RowBesideCart(s, cart, taxRate, id, i, k);
    }
  }

  /** In a store whose books are in order, an offline sale is booked while a card customer is paying. He
      is served exactly when each of his rows on the last lot of its product fits there beside what the
      cart asks of the product beyond the units free before, and the stock of each of his products covers
      him and the cart. */
  lemma PaidBesideCart(s: State, cart: seq<CartLine>, terms: StoreTerms, key: string, now: int, id: nat, later: int)
    requires Inv(s) && id < |s.sales| && s.sales[id].status.Pending? && !HasKey(s.sales, key)
    requires CreateSale(s, cart, terms, true, true, Some(key), now).Ok?
    ensures var t := CreateSale(s, cart, terms, true, true, Some(key), now).value;
            && id < |t.sales| && t.sales[id] == s.sales[id]
            && (FinalizePaidSale(t, id, later).Ok? <==> ServedBeside(s.shelf, cart, s.sales[id].items))
  {
    InvHolds(s);
    NewSaleRow(s, cart, terms, key, now);
    assert Planned(s, cart);
    hide *;
    PaidAfterOfflineSale(s, cart, terms, key, now, id, later);
    BesideCart(s, cart, terms.taxRate, id);
  }
}
