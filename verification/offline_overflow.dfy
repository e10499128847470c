/** Offline sales may overdraw a lot: the goods have left the store, so the till books them. What that
    does to the rollup, exactly when it stays right, and exactly whom it leaves without goods. */
module OfflineOverflow {
  import opened Outcome
  import opened Sums
  import opened Allocation
  import opened Lots
  import opened StockEngine
  import opened Fefo
  import opened Checkout
  import opened Ledger
  import opened LedgerInvariant
  import opened SaleSteps
  import opened CartPlans
  import opened PaymentSteps
  import opened Holds

  predicate StockRollup(s: Shelf) {
    forall p: nat :: p < |s.products| ==> s.products[p].stock == ActiveStock(s.lots, p)
  }

  // ---- The rows of a sale, each at its turn ----

  /** Row `k` takes its lot to exactly nothing: the rows up to it add up to what was there. */
  predicate Empties(lots: seq<Lot>, rows: seq<Alloc>, k: nat)
    requires InRange(lots, rows) && k < |rows|
  {
    On(rows[..k + 1], rows[k].lot) == lots[rows[k].lot].remaining
  }

  /** None of the first `k` rows takes lot `l` to exactly nothing. */
  predicate NotEmptied(lots: seq<Lot>, rows: seq<Alloc>, k: nat, l: nat)
    requires InRange(lots, rows) && k <= |rows|
  {
    forall j: nat :: j < k && rows[j].lot == l ==> !Empties(lots, rows, j)
  }

  predicate TurnOk(lots: seq<Lot>, rows: seq<Alloc>, k: nat)
    requires InRange(lots, rows) && k < |rows|
  {
    lots[rows[k].lot].status.Active? && NotEmptied(lots, rows, k, rows[k].lot)
  }

  /** Every row is on an ACTIVE lot that no earlier row has taken to exactly nothing. */
  predicate ActiveAtTurn(lots: seq<Lot>, rows: seq<Alloc>)
    requires InRange(lots, rows)
  {
    forall k: nat :: k < |rows| ==> TurnOk(lots, rows, k)
  }

  /** No row takes a lot with reserved units to exactly nothing. */
  predicate HoldsSpared(lots: seq<Lot>, rows: seq<Alloc>)
    requires InRange(lots, rows)
  {
    forall k: nat :: k < |rows| && Empties(lots, rows, k) ==> lots[rows[k].lot].reserved == 0
  }

  lemma EarlierRows(lots: seq<Lot>, rows: seq<Alloc>, n: nat)
    requires InRange(lots, rows) && n <= |rows|
    ensures InRange(lots, rows[..n])
    ensures forall k: nat :: k < n ==> (Empties(lots, rows[..n], k) <==> Empties(lots, rows, k))
    ensures forall k: nat, l: nat :: k <= n ==> (NotEmptied(lots, rows[..n], k, l) <==> NotEmptied(lots, rows, k, l))
    ensures forall k: nat :: k < n ==> (TurnOk(lots, rows[..n], k) <==> TurnOk(lots, rows, k))
  {
    forall k: nat | k < n ensures Empties(lots, rows[..n], k) <==> Empties(lots, rows, k) {
      assert rows[..n][..k + 1] == rows[..k + 1];
    }
  }

  /** A lot after the rows: down by what they take from it, and still ACTIVE unless one of them took it
      to exactly nothing. */
  lemma {:induction false} LotAfter(lots: seq<Lot>, rows: seq<Alloc>, l: nat)
    requires InRange(lots, rows) && Positive(rows) && l < |lots|
    ensures var lot := ApplyAll(lots, rows, ConsumeDirectOp)[l];
            && lot == lots[l].(remaining := lots[l].remaining - On(rows, l), status := lot.status)
            && (lot.status.Active? <==> lots[l].status.Active? && NotEmptied(lots, rows, |rows|, l))
            && (lot.status == lots[l].status || lot.status.Depleted?)
  {
    if rows != [] {
      var k := |rows| - 1;
      LotAfter(lots, rows[..k], l);
      EarlierRows(lots, rows, k);
      assert rows[..k + 1] == rows && rows == rows[..k] + [rows[k]];
      OnAppend(rows[..k], rows[k], l);
      assert NotEmptied(lots, rows, k + 1, l)
             <==> NotEmptied(lots, rows, k, l) && !(rows[k].lot == l && Empties(lots, rows, k));
      hide NotEmptied;
    }
  }

  /** The lot as row `k` finds it. */
  function Found(lots: seq<Lot>, rows: seq<Alloc>, k: nat): Lot
    requires InRange(lots, rows) && k < |rows|
  {
    ApplyAll(lots, rows[..k], ConsumeDirectOp)[rows[k].lot]
  }

  lemma FoundIs(lots: seq<Lot>, rows: seq<Alloc>, k: nat)
    requires InRange(lots, rows) && Positive(rows) && k < |rows|
    ensures Found(lots, rows, k).product == lots[rows[k].lot].product
    ensures Found(lots, rows, k).reserved == lots[rows[k].lot].reserved
    ensures Found(lots, rows, k).status.Active? <==> TurnOk(lots, rows, k)
    ensures Found(lots, rows, k).remaining == rows[k].qty <==> Empties(lots, rows, k)
  {
    LotAfter(lots, rows[..k], rows[k].lot);
    EarlierRows(lots, rows, k);
    assert rows[..k + 1] == rows[..k] + [rows[k]];
    OnAppend(rows[..k], rows[k], rows[k].lot);
  }

  // ---- What the rows do to the sums over ACTIVE lots ----

  function AskedFn(lots: seq<Lot>, p: nat): Alloc -> int {
    (a: Alloc) => if a.lot < |lots| && lots[a.lot].product == p then a.qty else 0
  }

  /** Units the rows take of the product, from whatever lots. */
  function Asked(lots: seq<Lot>, rows: seq<Alloc>, p: nat): int { Sum(rows, AskedFn(lots, p)) }

  /** Of these, the units that come out of ACTIVE lots. */
  function FromShelf(lots: seq<Lot>, rows: seq<Alloc>, p: nat): int
    requires InRange(lots, rows)
  {
    if rows == [] then 0
    else
      var k := |rows| - 1;
      FromShelf(lots, rows[..k], p)
      + (if lots[rows[k].lot].product == p && Found(lots, rows, k).status.Active? then rows[k].qty else 0)
  }

  /** Reserved units on lots the rows take off the shelf. */
  function HoldsLost(lots: seq<Lot>, rows: seq<Alloc>, p: nat): int
    requires InRange(lots, rows)
  {
    if rows == [] then 0
    else
      var k := |rows| - 1;
      var lot := Found(lots, rows, k);
      HoldsLost(lots, rows[..k], p)
      + (if lot.product == p && lot.status.Active? && lot.remaining == rows[k].qty then lot.reserved else 0)
  }

  lemma {:induction false} SumsMove(lots: seq<Lot>, rows: seq<Alloc>, p: nat)
    requires InRange(lots, rows) && Positive(rows)
    ensures ActiveStock(ApplyAll(lots, rows, ConsumeDirectOp), p) == ActiveStock(lots, p) - FromShelf(lots, rows, p)
    ensures ActiveReserved(ApplyAll(lots, rows, ConsumeDirectOp), p)
            == ActiveReserved(lots, p) - HoldsLost(lots, rows, p)
  {
    if rows != [] {
      var k := |rows| - 1;
      SumsMove(lots, rows[..k], p);
      FoundIs(lots, rows, k);
      var before := ApplyAll(lots, rows[..k], ConsumeDirectOp);
      var next := ConsumeDirectOp(before[rows[k].lot], rows[k].qty);
      SumUpdate(before, rows[k].lot, next, StockFn(p));
      SumUpdate(before, rows[k].lot, next, ReservedFn(p));
    }
  }

  lemma AskedStep(lots: seq<Lot>, rows: seq<Alloc>, p: nat)
    requires rows != [] && InRange(lots, rows)
    ensures var k := |rows| - 1;
            Asked(lots, rows, p) == Asked(lots, rows[..k], p)
              + (if lots[rows[k].lot].product == p then rows[k].qty else 0)
  {
  }

  /** All that is asked for comes off the shelf when every row's turn is right, for every product ... */
  lemma {:induction false} AllFromShelf(lots: seq<Lot>, rows: seq<Alloc>, p: nat)
    requires InRange(lots, rows) && Positive(rows)
    ensures FromShelf(lots, rows, p) <= Asked(lots, rows, p)
    ensures ActiveAtTurn(lots, rows) ==> FromShelf(lots, rows, p) == Asked(lots, rows, p)
  {
    if rows != [] {
      var k := |rows| - 1;
      AllFromShelf(lots, rows[..k], p);
      FoundIs(lots, rows, k);
      EarlierRows(lots, rows, k);
      AskedStep(lots, rows, p);
      hide TurnOk, Asked;
    }
  }

  /** ... and falls short for the product of any row whose turn is not. */
  lemma {:induction false} SomeNotFromShelf(lots: seq<Lot>, rows: seq<Alloc>, k: nat)
    requires InRange(lots, rows) && Positive(rows) && k < |rows| && !TurnOk(lots, rows, k)
    ensures var p := lots[rows[k].lot].product;
            FromShelf(lots, rows, p) < Asked(lots, rows, p)
  {
    var n, p := |rows| - 1, lots[rows[k].lot].product;
    AskedStep(lots, rows, p);
    EarlierRows(lots, rows, n);
    hide TurnOk, Asked;
    if k == n {
      FoundIs(lots, rows, k);
      AllFromShelf(lots, rows[..n], p);
    } else {
      SomeNotFromShelf(lots, rows[..n], k);
    }
  }

  predicate NoneNegative(lots: seq<Lot>) { forall l :: 0 <= l < |lots| ==> lots[l].reserved >= 0 }

  lemma {:induction false} NoHoldsLost(lots: seq<Lot>, rows: seq<Alloc>, p: nat)
    requires InRange(lots, rows) && Positive(rows) && NoneNegative(lots)
    ensures HoldsLost(lots, rows, p) >= 0
    ensures HoldsSpared(lots, rows) ==> HoldsLost(lots, rows, p) == 0
  {
    if rows != [] {
      var k := |rows| - 1;
      NoHoldsLost(lots, rows[..k], p);
      FoundIs(lots, rows, k);
      EarlierRows(lots, rows, k);
      hide Empties;
    }
  }

  lemma {:induction false} SomeHoldsLost(lots: seq<Lot>, rows: seq<Alloc>, k: nat)
    requires InRange(lots, rows) && Positive(rows) && NoneNegative(lots) && k < |rows|
    requires TurnOk(lots, rows, k) && Empties(lots, rows, k) && lots[rows[k].lot].reserved > 0
    ensures HoldsLost(lots, rows, lots[rows[k].lot].product) > 0
  {
    var n := |rows| - 1;
    EarlierRows(lots, rows, n);
    FoundIs(lots, rows, n);
    hide TurnOk, Empties;
    if k == n {
      NoHoldsLost(lots, rows[..n], lots[rows[k].lot].product);
    } else {
      SomeHoldsLost(lots, rows[..n], k);
    }
  }

  // ---- Exactly when the rollup survives ----

  /** `t` is `s` after the rows were taken and every product row told. */
  predicate Booked(s: Shelf, t: Shelf, rows: seq<Alloc>) {
    && ShelfWf(s) && InRange(s.lots, rows) && Positive(rows)
    && t.lots == ApplyAll(s.lots, rows, ConsumeDirectOp) && |t.products| == |s.products|
    && forall p: nat :: p < |s.products| ==>
         t.products[p] == Product(s.products[p].stock - Asked(s.lots, rows, p), s.products[p].reserved)
  }

  lemma StockExact(s: Shelf, t: Shelf, rows: seq<Alloc>)
    requires Booked(s, t, rows) && StockRollup(s)
    ensures StockRollup(t) <==> ActiveAtTurn(s.lots, rows)
  {
    forall p: nat | p < |s.products|
      ensures t.products[p].stock - ActiveStock(t.lots, p) == FromShelf(s.lots, rows, p) - Asked(s.lots, rows, p)
      ensures ActiveAtTurn(s.lots, rows) ==> FromShelf(s.lots, rows, p) == Asked(s.lots, rows, p)
    {
      SumsMove(s.lots, rows, p);
      AllFromShelf(s.lots, rows, p);
    }
    hide TurnOk;
    if !ActiveAtTurn(s.lots, rows) {
      var k: nat :| k < |rows| && !TurnOk(s.lots, rows, k);
      SomeNotFromShelf(s.lots, rows, k);
      var p := s.lots[rows[k].lot].product;
      assert t.products[p].stock != ActiveStock(t.lots, p);
    }
  }

  /** Any sale from the shelf, whatever it overdraws: Product.stock and Product.reserved both stay right
      exactly when every row is on an ACTIVE lot that no earlier row took to exactly nothing, and no row
      takes a lot with reserved units to exactly nothing. */
  lemma RollupExact(s: Shelf, t: Shelf, rows: seq<Alloc>)
    requires Booked(s, t, rows) && Rollup(s) && NoneNegative(s.lots)
    ensures Rollup(t) <==> ActiveAtTurn(s.lots, rows) && HoldsSpared(s.lots, rows)
  {
    StockExact(s, t, rows);
    forall p: nat | p < |s.products|
      ensures ActiveReserved(t.lots, p) == t.products[p].reserved - HoldsLost(s.lots, rows, p)
      ensures HoldsSpared(s.lots, rows) ==> HoldsLost(s.lots, rows, p) == 0
    {
      SumsMove(s.lots, rows, p);
      NoHoldsLost(s.lots, rows, p);
    }
    hide TurnOk, Empties;
    if Rollup(t) { assert StockRollup(t); }
    if ActiveAtTurn(s.lots, rows) && !HoldsSpared(s.lots, rows) {
      var k: nat :| k < |rows| && Empties(s.lots, rows, k) && s.lots[rows[k].lot].reserved != 0;
      SomeHoldsLost(s.lots, rows, k);
      var p := s.lots[rows[k].lot].product;
      assert t.products[p].reserved != ActiveReserved(t.lots, p);
    }
  }

  // ---- The rows of a whole cart ----

  /** The allocation rows of the lines, in order. */
  function RowsOf(items: seq<SaleItem>): seq<Alloc>
    decreases |items|
  {
    if items == [] then [] else items[0].allocs + RowsOf(items[1..])
  }

  lemma AskedOfLine(s: Shelf, p: nat, allocs: seq<Alloc>, r: nat)
    requires Supplies(s, p, allocs)
    ensures Asked(s.lots, allocs, r) == if r == p then Total(allocs) else 0
  {
    if r == p {
      SumSame(allocs, AskedFn(s.lots, p), allocs, QtyFn());
    } else {
      AllZero(allocs, AskedFn(s.lots, r));
    }
  }

  lemma BookedNext(s: Shelf, mid: Shelf, t: Shelf, p: nat, allocs: seq<Alloc>, rest: seq<Alloc>)
    requires ShelfWf(s) && Supplies(s, p, allocs) && mid == ConsumeDirect(s, p, allocs) && Booked(mid, t, rest)
    ensures Booked(s, t, allocs + rest)
  {
    forall l: nat | l < |s.lots| ensures mid.lots[l].product == s.lots[l].product {
      ShiftedAt(s.lots, allocs, ConsumeDirectOp, 0, -1, l);
    }
    ApplyConcat(s.lots, allocs, rest, ConsumeDirectOp);
    forall r: nat | r < |s.products|
      ensures t.products[r] == Product(s.products[r].stock - Asked(s.lots, allocs + rest, r), s.products[r].reserved)
    {
      AskedOfLine(s, p, allocs, r);
      SumConcat(allocs, rest, AskedFn(s.lots, r));
      SumSame(rest, AskedFn(mid.lots, r), rest, AskedFn(s.lots, r));
    }
  }

  lemma {:induction false} CartBooked(s: Shelf, items: seq<SaleItem>)
    requires ShelfWf(s) && TakeItems(s, items, true).Ok?
    ensures Booked(s, TakeItems(s, items, true).value, RowsOf(items))
    decreases |items|
  {
    if items != [] {
      var p, allocs := items[0].product, items[0].allocs;
      var mid := ConsumeDirect(s, p, allocs);
      forall l: nat | l < |s.lots| ensures mid.lots[l].product == s.lots[l].product {
        ShiftedAt(s.lots, allocs, ConsumeDirectOp, 0, -1, l);
      }
      CartBooked(mid, items[1..]);
      hide Booked, ConsumeDirect;
      BookedNext(s, mid, TakeItems(mid, items[1..], true).value, p, allocs, RowsOf(items[1..]));
    }
  }

  /** The lines of an offline sale as they would be planned now. */
  function PlannedLines(s: State, cart: seq<CartLine>, taxRate: nat): seq<SaleItem>
    requires PlanCart(s.shelf.lots, cart, ZeroTaken(|s.shelf.lots|), true).Ok?
  {
    ItemsOf(cart, PlanCart(s.shelf.lots, cart, ZeroTaken(|s.shelf.lots|), true).value, taxRate)
  }

  /** A booked offline sale is its plan: the row it adds has the planned lines, and the shelf is as it
      was less those. */
  lemma NewSaleRow(s: State, cart: seq<CartLine>, terms: StoreTerms, key: string, now: int)
    requires !HasKey(s.sales, key) && CreateSale(s, cart, terms, true, true, Some(key), now).Ok?
    ensures PlanCart(s.shelf.lots, cart, ZeroTaken(|s.shelf.lots|), true).Ok?
    ensures cart != [] && CartOk(cart) && Price(cart, terms).Ok?
    ensures forall i :: 0 <= i < |cart| ==> cart[i].product < |s.shelf.products|
    ensures var t := CreateSale(s, cart, terms, true, true, Some(key), now).value;
            && |t.sales| == |s.sales| + 1 && t.sales[..|s.sales|] == s.sales
            && t.sales[|s.sales|].items == PlannedLines(s, cart, terms.taxRate)
            && TakeItems(s.shelf, PlannedLines(s, cart, terms.taxRate), true) == Ok(t.shelf)
  {
    CreateGranted(s, cart, terms, true, true, Some(key), now);
    hide CreateSale, PlanCart, Price, TakeItems, ItemsOf, CartOk;
  }

  /** Any offline sale the server books, whatever it overdraws: told from its plan, exactly when the
      books stay right. */
  lemma OfflineSaleExact(s: State, cart: seq<CartLine>, terms: StoreTerms, key: string, now: int)
    requires ShelfOk(s.shelf) && !HasKey(s.sales, key)
    requires CreateSale(s, cart, terms, true, true, Some(key), now).Ok?
    ensures PlanCart(s.shelf.lots, cart, ZeroTaken(|s.shelf.lots|), true).Ok?
    ensures var shelf := CreateSale(s, cart, terms, true, true, Some(key), now).value.shelf;
            var rows := RowsOf(PlannedLines(s, cart, terms.taxRate));
            && InRange(s.shelf.lots, rows) && Positive(rows)
            && (StockRollup(shelf) <==> ActiveAtTurn(s.shelf.lots, rows))
            && (Rollup(shelf) <==> ActiveAtTurn(s.shelf.lots, rows) && HoldsSpared(s.shelf.lots, rows))
  {
    NewSaleRow(s, cart, terms, key, now);
    hide CreateSale, TakeItems, PlanCart, PlannedLines;
    var t := CreateSale(s, cart, terms, true, true, Some(key), now).value;
    var items := PlannedLines(s, cart, terms.taxRate);
    CartBooked(s.shelf, items);
    forall l | 0 <= l < |s.shelf.lots| ensures s.shelf.lots[l].reserved >= 0 { assert LotOk(s.shelf.lots[l]); }
    StockExact(s.shelf, t.shelf, RowsOf(items));
    RollupExact(s.shelf, t.shelf, RowsOf(items));
  }

  // ---- One line ----

  predicate DistinctLots(allocs: seq<Alloc>) { forall i, j :: 0 <= i < j < |allocs| ==> allocs[i].lot != allocs[j].lot }

  lemma {:induction false} RowsDistinct(order: seq<nat>, takes: seq<int>, k: nat)
    requires k <= |order| == |takes| && Distinct(order)
    ensures DistinctLots(RowsTo(order, takes, k))
  {
    if k > 0 {
      RowsDistinct(order, takes, k - 1);
      RowsWithin(order, takes, k - 1);
      var rows := RowsTo(order, takes, k - 1);
      assert forall i :: 0 <= i < |rows| ==> rows[i] in rows;
    }
  }

  /** One offline line, however far it overdraws the last lot, leaves Product.stock right. */
  lemma OneLineKeepsStock(s: Shelf, p: nat, taken: seq<int>, q: int)
    requires ShelfWf(s) && StockRollup(s) && p < |s.products| && |taken| == |s.lots| && q > 0
             && ActiveFefo(s.lots, p) != []
    ensures PlanLine(s.lots, ActiveFefo(s.lots, p), taken, q, true).Ok?
    ensures var rows := PlanLine(s.lots, ActiveFefo(s.lots, p), taken, q, true).value.rows;
            Supplies(s, p, rows) && StockRollup(ConsumeDirect(s, p, rows))
  {
    var order := ActiveFefo(s.lots, p);
    ActiveFefoSpec(s.lots, p);
    PlanLineExact(s.lots, order, taken, q, true);
    var rows := PlanLine(s.lots, order, taken, q, true).value.rows;
    RowsDistinct(order, TakesOverdrawn(Avails(s.lots, order, taken), q), |order|);
    assert forall i :: 0 <= i < |rows| ==> rows[i] in rows;
    hide PlanLine;
    forall r: nat | r < |s.products| ensures Asked(s.lots, rows, r) == if r == p then Total(rows) else 0 {
      AskedOfLine(s, p, rows, r);
    }
    StockExact(s, ConsumeDirect(s, p, rows), rows);
  }

  // ---- Who is refused ----

  lemma {:induction false} TakeSells(s: Shelf, items: seq<SaleItem>)
    requires TakeItems(s, items, true).Ok?
    ensures var t := TakeItems(s, items, true).value;
            && |t.products| == |s.products| && |t.lots| == |s.lots|
            && (forall p: nat :: p < |s.products| ==> t.products[p].stock == s.products[p].stock - Sold(items, p))
            && (forall l: nat :: l < |s.lots| ==> t.lots[l].remaining == s.lots[l].remaining - Units(items, l))
    decreases |items|
  {
    if items != [] {
      var p, allocs := items[0].product, items[0].allocs;
      var mid := ConsumeDirect(s, p, allocs);
      TakeSells(mid, items[1..]);
      assert items == [items[0]] + items[1..];
      forall r: nat ensures Sold(items, r) == SoldFn(r)(items[0]) + Sold(items[1..], r) {
        SumConcat([items[0]], items[1..], SoldFn(r));
        SumSingleton(items[0], SoldFn(r));
      }
      forall l: nat | l < |s.lots|
        ensures mid.lots[l].remaining == s.lots[l].remaining - On(allocs, l)
        ensures Units(items, l) == On(allocs, l) + Units(items[1..], l)
      {
        ShiftedAt(s.lots, allocs, ConsumeDirectOp, 0, -1, l);
        ItemsCons(items, l);
      }
    }
  }

  /** Lots and stock still cover the lines once `sold` is gone too. */
  predicate CoveredBeside(s: Shelf, items: seq<SaleItem>, sold: seq<SaleItem>) {
    && (forall i, k :: 0 <= i < |items| && 0 <= k < |items[i].allocs| && items[i].allocs[k].lot < |s.lots| ==>
          items[i].allocs[k].qty + Units(sold, items[i].allocs[k].lot) <= s.lots[items[i].allocs[k].lot].remaining)
    && (forall p: nat :: p < |s.products| && Sold(items, p) > 0 ==>
       Sold(items, p) + Sold(sold, p) <= s.products[p].stock)
  }

  lemma CoveredAfter(s: State, t: State, id: nat, sold: seq<SaleItem>)
    requires id < |s.sales| && id < |t.sales| && t.sales[id] == s.sales[id]
    requires |t.shelf.lots| == |s.shelf.lots| && |t.shelf.products| == |s.shelf.products|
    requires forall p: nat :: p < |s.shelf.products| ==>
               t.shelf.products[p].stock == s.shelf.products[p].stock - Sold(sold, p)
    requires forall l: nat :: l < |s.shelf.lots| ==>
               t.shelf.lots[l].remaining == s.shelf.lots[l].remaining - Units(sold, l)
    ensures CanGive(t, id) <==> CoveredBeside(s.shelf, s.sales[id].items, sold)
  {
    hide Sold, Units;
  }

  /** An offline sale is booked while a card customer is paying. Told from the state before it: the
      customer is served exactly when every lot of his has his units beside what the offline sale is
      planned to take from it, and every product of his has stock for both. */
  lemma PaidAfterOfflineSale(s: State, cart: seq<CartLine>, terms: StoreTerms, key: string, now: int, id: nat,
                             later: int)
    requires HoldsOk(s) && id < |s.sales| && s.sales[id].status.Pending? && !HasKey(s.sales, key)
    requires CreateSale(s, cart, terms, true, true, Some(key), now).Ok?
    ensures PlanCart(s.shelf.lots, cart, ZeroTaken(|s.shelf.lots|), true).Ok?
    ensures var t := CreateSale(s, cart, terms, true, true, Some(key), now).value;
            && |t.sales| == |s.sales| + 1 && t.sales[id] == s.sales[id]
            && (FinalizePaidSale(t, id, later).Ok? <==>
                  CoveredBeside(s.shelf, s.sales[id].items, PlannedLines(s, cart, terms.taxRate)))
  {
    hide *;
    NewSaleRow(s, cart, terms, key, now);
    CreateHolds(s, cart, terms, true, true, Some(key), now);
    var t := CreateSale(s, cart, terms, true, true, Some(key), now).value;
    var sold := PlannedLines(s, cart, terms.taxRate);
    assert t.sales[id] == t.sales[..|s.sales|][id];
    TakeSells(s.shelf, sold);
    PaidExact(t, id, later);
    CoveredAfter(s, t, id, sold);
  }

  // ---- Two customers who are ----

  /** One line planned, and then the rest. */
  lemma PlanStep(lots: seq<Lot>, cart: seq<CartLine>, taken: seq<int>, plan: LinePlan, rest: seq<seq<Alloc>>)
    requires |taken| == |lots| == |plan.taken| && cart != [] && !Blocked(lots, cart[0].product)
    requires PlanLine(lots, ActiveFefo(lots, cart[0].product), taken, cart[0].quantity, true) == Ok(plan)
    requires PlanCart(lots, cart[1..], plan.taken, true) == Ok(rest)
    ensures PlanCart(lots, cart, taken, true) == Ok([plan.rows] + rest)
  {
    hide PlanLine, ActiveFefo, Avails, UpTo, Blocked;
  }

  lemma PlanOne(lots: seq<Lot>, line: CartLine, taken: seq<int>, plan: LinePlan)
    requires |taken| == |lots| == |plan.taken| && !Blocked(lots, line.product)
    requires PlanLine(lots, ActiveFefo(lots, line.product), taken, line.quantity, true) == Ok(plan)
    ensures PlanCart(lots, [line], taken, true) == Ok([plan.rows])
  {
    hide PlanLine, ActiveFefo, Blocked;
    assert [line][1..] == [] && PlanCart(lots, [], plan.taken, true) == Ok([]);
    PlanStep(lots, [line], taken, plan, []);
    assert [plan.rows] + [] == [plan.rows];
  }

  lemma OnlyTake(avail: seq<int>, q: int)
    requires |avail| == 1 && q > 0 && NonNeg(avail)
    ensures TakesOverdrawn(avail, q) == [q]
  {
    OverdrawnNonNeg(avail, q);
    var takes := TakesOverdrawn(avail, q);
    assert UpTo(takes, 1) == UpTo(takes, 0) + takes[0];
  }

  lemma RowsOfOneTake(l: nat, q: int)
    requires q > 0
    ensures RowsTo([l], [q], 1) == [Alloc(l, q)]
  {
    assert RowsTo([l], [q], 0) == [];
  }

  lemma OnlyLotPlan(lots: seq<Lot>, l: nat, taken: seq<int>, q: int)
    requires l < |lots| == |taken| && q > 0
    ensures PlanLine(lots, [l], taken, q, true) == Ok(LinePlan([Alloc(l, q)], taken[l := taken[l] + q]))
  {
    hide TakesOverdrawn, RowsTo, Avails;
    OnlyTake(Avails(lots, [l], taken), q);
    RowsOfOneTake(l, q);
    PushRow(taken, [], Alloc(l, q));
    assert [] + [Alloc(l, q)] == [Alloc(l, q)];
  }

  /** A sale of one line is booked on the rows it was planned. */
  lemma OneLineSale(s: State, line: CartLine, terms: StoreTerms, key: string, now: int, l: nat)
    requires ShelfWf(s.shelf) && l in ActiveFefo(s.shelf.lots, line.product) && LineOk(line) && !HasKey(s.sales, key)
    requires PlanCart(s.shelf.lots, [line], ZeroTaken(|s.shelf.lots|), true) == Ok([[Alloc(l, line.quantity)]])
    requires Price([line], terms).Ok?
    ensures var r := CreateSale(s, [line], terms, true, true, Some(key), now);
            && r.Ok? && |r.value.sales| == |s.sales| + 1
            && r.value.sales[|s.sales|].items == [ItemOf(line, [Alloc(l, line.quantity)], terms.taxRate)]
  {
    ActiveFefoSpec(s.shelf.lots, line.product);
    CheckoutGoes(s, [line], terms, true, true, Some(key), now);
    CreateGranted(s, [line], terms, true, true, Some(key), now);
    hide CreateSale, PlanCart, TakeItems;
    var items := ItemsOf([line], [[Alloc(l, line.quantity)]], terms.taxRate);
    assert items == [ItemOf(line, [Alloc(l, line.quantity)], terms.taxRate)];
  }

  lemma UnitsOfOne(item: SaleItem, l: nat, q: int, p: nat)
    requires item.allocs == [Alloc(l, q)]
    ensures Units([item], l) == q && forall k: nat :: k != l ==> Units([item], k) == 0
    ensures Sold([item], p) == if item.product == p then q else 0
  {
    forall k: nat ensures Units([item], k) == if k == l then q else 0 {
      SumSingleton(item, ItemOnFn(k));
      SumSingleton(Alloc(l, q), OnFn(k));
    }
    SumSingleton(item, SoldFn(p));
    SumSingleton(Alloc(l, q), QtyFn());
  }

  /** His lot is sold out under him: it is the product's only one, he holds all of it, and an offline
      sale of any size takes from it. His payment is answered 409. */
  lemma LotSoldUnderHim(s: State, line: CartLine, terms: StoreTerms, key: string, now: int, id: nat, later: int, l: nat)
    requires HoldsOk(s) && id < |s.sales| && s.sales[id].status.Pending? && !HasKey(s.sales, key)
    requires LineOk(line) && Price([line], terms).Ok?
    requires l < |s.shelf.lots| && ActiveFefo(s.shelf.lots, line.product) == [l] && !Blocked(s.shelf.lots, line.product)
    requires |s.sales[id].items| == 1 && s.sales[id].items[0].allocs == [Alloc(l, s.shelf.lots[l].remaining)]
    ensures var r := CreateSale(s, [line], terms, true, true, Some(key), now);
            r.Ok? && id < |r.value.sales| && FinalizePaidSale(r.value, id, later) == Err(409)
  {
    var lots, q := s.shelf.lots, line.quantity;
    OnlyLotPlan(lots, l, ZeroTaken(|lots|), q);
    var none := ZeroTaken(|lots|);
    PlanOne(lots, line, none, LinePlan([Alloc(l, q)], none[l := none[l] + q]));
    hide PlanCart, FinalizePaidSale, Price;
    OneLineSale(s, line, terms, key, now, l);
    CreateGranted(s, [line], terms, true, true, Some(key), now);
    CreateHolds(s, [line], terms, true, true, Some(key), now);
    var t := CreateSale(s, [line], terms, true, true, Some(key), now).value;
    hide CreateSale, HoldsOk, SameTally, CartOk, ItemsOf, ActiveFefo, Blocked, TakeItems, ShortAt, CanGive;
    var items := t.sales[|s.sales|].items;
    TakeSells(s.shelf, items);
    UnitsOfOne(items[0], l, q, 0);
    assert items == [items[0]];
    PaidExact(t, id, later);
    assert s.sales[id].items[0].allocs[0].qty > t.shelf.lots[l].remaining;
    assert !RowsCovered(t.shelf.lots, [s.sales[id].items[0]]) by {
      assert [s.sales[id].items[0]][0].allocs[0].lot == l;
    }
  }

  lemma TwoLotStock(lots: seq<Lot>, p: nat, a: nat, b: nat)
    requires a < |lots| && b < |lots| && ActiveFefo(lots, p) == [a, b]
    ensures a != b && ActiveStock(lots, p) == lots[a].remaining + lots[b].remaining
    ensures lots[a].product == p && lots[b].product == p && lots[a].status.Active? && lots[b].status.Active?
  {
    ActiveFefoSpec(lots, p);
    var order := ActiveFefo(lots, p);
    assert order[0] == a && order[1] == b && a in order && b in order;
    var none := lots[a := lots[a].(status := Depleted)][b := lots[b].(status := Depleted)];
    SumUpdate(lots, a, lots[a].(status := Depleted), StockFn(p));
    SumUpdate(lots[a := lots[a].(status := Depleted)], b, lots[b].(status := Depleted), StockFn(p));
    forall l | 0 <= l < |none| ensures StockFn(p)(none[l]) == 0 {
      assert lots[l].status.Active? && lots[l].product == p ==> l in order;
    }
    AllZero(none, StockFn(p));
  }

  lemma TwoTakes(avail: seq<int>, q: int)
    requires |avail| == 2 && avail[0] == 0 && 0 <= avail[1] < q
    ensures TakesOverdrawn(avail, q) == [0, q]
  {
    assert UpTo(avail, 1) == UpTo(avail, 0) + avail[0] == 0;
    assert UpTo(avail, 2) == UpTo(avail, 1) + avail[1];
    TakesAt(avail, q, 0);
    TakesAt(avail, q, 1);
  }

  lemma RowsOfTwoTakes(a: nat, b: nat, q: int)
    requires q > 0
    ensures RowsTo([a, b], [0, q], 2) == [Alloc(b, q)]
  {
    assert RowsTo([a, b], [0, q], 0) == [];
    assert RowsTo([a, b], [0, q], 1) == [] + [] == [];
    assert [] + [Alloc(b, q)] == [Alloc(b, q)];
  }

  lemma SecondOfTwo(lots: seq<Lot>, a: nat, b: nat, taken: seq<int>, q: int)
    requires a < |lots| && b < |lots| == |taken| && Free(lots, taken, a) == 0 && q > Free(lots, taken, b)
    ensures PlanLine(lots, [a, b], taken, q, true) == Ok(LinePlan([Alloc(b, q)], taken[b := taken[b] + q]))
  {
    var avail := Avails(lots, [a, b], taken);
    AvailsAt(lots, [a, b], taken, 0);
    AvailsAt(lots, [a, b], taken, 1);
    hide Avails, TakesOverdrawn, RowsTo;
    TwoTakes(avail, q);
    RowsOfTwoTakes(a, b, q);
    PushRow(taken, [], Alloc(b, q));
    assert [] + [Alloc(b, q)] == [Alloc(b, q)];
  }

  /** His lots cover him and the stock of one of his products does not. */
  lemma StockAlone(s: State, id: nat, now: int, p: nat)
    requires HoldsOk(s) && id < |s.sales| && s.sales[id].status.Pending? && p < |s.shelf.products|
    requires RowsCovered(s.shelf.lots, s.sales[id].items)
    requires var sold := Sold(s.sales[id].items, p); sold > 0 && sold > s.shelf.products[p].stock
    ensures FinalizePaidSale(s, id, now) == Err(500)
  {
    hide HoldsOk, FinalizePaidSale, RowsCovered, ShortAt, Sold;
    PaidExact(s, id, now);
  }

  lemma StockShort(s: State, line: CartLine, terms: StoreTerms, key: string, now: int, id: nat, later: int, a: nat,
                   b: nat)
    requires HoldsOk(s) && id < |s.sales| && s.sales[id].status.Pending? && !HasKey(s.sales, key)
    requires a < |s.shelf.lots| && a != b && line.product < |s.shelf.products| && line.quantity > 0
    requires CreateSale(s, [line], terms, true, true, Some(key), now).Ok?
    requires var sales := CreateSale(s, [line], terms, true, true, Some(key), now).value.sales;
             |sales| == |s.sales| + 1
               && sales[|s.sales|].items == [ItemOf(line, [Alloc(b, line.quantity)], terms.taxRate)]
    requires s.shelf.products[line.product].stock - line.quantity < s.shelf.lots[a].remaining
    requires |s.sales[id].items| == 1 && s.sales[id].items[0].allocs == [Alloc(a, s.shelf.lots[a].remaining)]
    requires s.sales[id].items[0].product == line.product && s.shelf.lots[a].remaining > 0
    ensures var t := CreateSale(s, [line], terms, true, true, Some(key), now).value;
            && id < |t.sales| && a < |t.shelf.lots| && t.shelf.lots[a].remaining == s.shelf.lots[a].remaining
            && FinalizePaidSale(t, id, later) == Err(500)
  {
    CreateGranted(s, [line], terms, true, true, Some(key), now);
    CreateHolds(s, [line], terms, true, true, Some(key), now);
    var t := CreateSale(s, [line], terms, true, true, Some(key), now).value;
    hide CreateSale, PlanCart, TakeItems, FinalizePaidSale, HoldsOk, Price, SameTally, CartOk, ItemsOf;
    var items, his, p := t.sales[|s.sales|].items, s.sales[id].items, line.product;
    TakeSells(s.shelf, items);
    UnitsOfOne(items[0], b, line.quantity, p);
    UnitsOfOne(his[0], a, s.shelf.lots[a].remaining, p);
    assert items == [items[0]] && his == [his[0]];
    assert RowsCovered(t.shelf.lots, his);
    StockAlone(t, id, later, p);
  }

  lemma HisStock(s: State, id: nat, p: nat, a: nat, b: nat)
    requires Inv(s) && id < |s.sales| && s.sales[id].status.Pending? && p < |s.shelf.products|
    requires a < |s.shelf.lots| && b < |s.shelf.lots| && ActiveFefo(s.shelf.lots, p) == [a, b]
    requires |s.sales[id].items| == 1 && s.sales[id].items[0].allocs == [Alloc(a, s.shelf.lots[a].remaining)]
    ensures HoldsOk(s) && a != b && s.shelf.lots[a].remaining > 0 && s.shelf.lots[b].remaining >= 0
    ensures s.shelf.products[p].stock == s.shelf.lots[a].remaining + s.shelf.lots[b].remaining
    ensures ShelfWf(s.shelf) && b in ActiveFefo(s.shelf.lots, p)
  {
    InvHolds(s);
    TwoLotStock(s.shelf.lots, p, a, b);
    assert LotOk(s.shelf.lots[b]);
    assert SaleOk(s.shelf, s.sales[id]);
    var item := s.sales[id].items[0];
    assert ItemOk(s.shelf, item);
    hide Inv, SaleOk, ShelfOk, HoldsOk, ActiveFefo;
    assert item.allocs[0] in item.allocs;
  }

  lemma SecondLotPlan(lots: seq<Lot>, line: CartLine, a: nat, b: nat)
    requires a < |lots| && b < |lots| && ActiveFefo(lots, line.product) == [a, b] && !Blocked(lots, line.product)
    requires lots[a].reserved == lots[a].remaining && lots[b].reserved == 0
    requires line.quantity > lots[b].remaining && line.quantity > 0
    ensures PlanCart(lots, [line], ZeroTaken(|lots|), true) == Ok([[Alloc(b, line.quantity)]])
  {
    var none, q := ZeroTaken(|lots|), line.quantity;
    SecondOfTwo(lots, a, b, none, q);
    hide *;
    PlanOne(lots, line, none, LinePlan([Alloc(b, q)], none[b := none[b] + q]));
  }

  /** His own lot is untouched and he is refused all the same: the offline sale overdraws another lot of
      the product, so Product.stock no longer covers him. His payment is answered 500. */
  lemma StockSoldUnderHim(s: State, line: CartLine, terms: StoreTerms, key: string, now: int, id: nat, later: int,
                          a: nat, b: nat)
    requires Inv(s) && id < |s.sales| && s.sales[id].status.Pending? && !HasKey(s.sales, key)
    requires LineOk(line) && Price([line], terms).Ok? && line.product < |s.shelf.products|
    requires a < |s.shelf.lots| && b < |s.shelf.lots| && ActiveFefo(s.shelf.lots, line.product) == [a, b]
    requires s.shelf.lots[a].reserved == s.shelf.lots[a].remaining && s.shelf.lots[b].reserved == 0
    requires line.quantity > s.shelf.lots[b].remaining && !Blocked(s.shelf.lots, line.product)
    requires |s.sales[id].items| == 1 && s.sales[id].items[0].allocs == [Alloc(a, s.shelf.lots[a].remaining)]
    requires s.sales[id].items[0].product == line.product
    ensures var r := CreateSale(s, [line], terms, true, true, Some(key), now);
            && r.Ok? && id < |r.value.sales| && a < |r.value.shelf.lots|
               && r.value.shelf.lots[a].remaining == s.shelf.lots[a].remaining
            && FinalizePaidSale(r.value, id, later) == Err(500)
  {
    HisStock(s, id, line.product, a, b);
    SecondLotPlan(s.shelf.lots, line, a, b);
    hide *;
    OneLineSale(s, line, terms, key, now, b);
    StockShort(s, line, terms, key, now, id, later, a, b);
  }

  // ---- Two lines of one offline sale ----

  lemma PlanTwo(lots: seq<Lot>, x: CartLine, y: CartLine, l: nat, taken: seq<int>)
    requires x.product == y.product && l < |lots| == |taken| && x.quantity > 0 && y.quantity > 0
    requires ActiveFefo(lots, x.product) == [l] && !Blocked(lots, x.product)
    ensures PlanCart(lots, [x, y], taken, true) == Ok([[Alloc(l, x.quantity)], [Alloc(l, y.quantity)]])
  {
    hide *;
    var a, b := Alloc(l, x.quantity), Alloc(l, y.quantity);
    var next := taken[l := taken[l] + a.qty];
    var first, second := LinePlan([a], next), LinePlan([b], next[l := next[l] + b.qty]);
    OnlyLotPlan(lots, l, taken, a.qty);
    OnlyLotPlan(lots, l, next, b.qty);
    PlanOne(lots, y, next, second);
    assert [x, y][1..] == [y];
    PlanStep(lots, [x, y], taken, first, [[b]]);
    assert [[a]] + [[b]] == [[a], [b]];
  }

  lemma {:induction false} TwoLines(items: seq<SaleItem>, a: Alloc, b: Alloc)
    requires |items| == 2 && items[0].allocs == [a] && items[1].allocs == [b]
    ensures RowsOf(items) == [a, b]
  {
    assert items[1..][1..] == [];
    assert RowsOf(items[1..]) == [b] + RowsOf([]) == [b];
    assert RowsOf(items) == [a] + [b];
  }

  lemma TwoRows(l: nat, m: int, n: int)
    ensures var rows := [Alloc(l, m), Alloc(l, n)];
            rows[..1] == [Alloc(l, m)] && rows[..2] == rows && On(rows[..1], l) == m && On(rows, l) == m + n
  {
    var rows := [Alloc(l, m), Alloc(l, n)];
    assert rows[..1] == [Alloc(l, m)] && rows == [Alloc(l, m)] + [Alloc(l, n)];
    SumSingleton(Alloc(l, m), OnFn(l));
    OnAppend([Alloc(l, m)], Alloc(l, n), l);
  }

  /** The second of two rows on a lot that holds just the first. */
  lemma SecondRowBreaks(s: Shelf, t: Shelf, l: nat, m: int, n: int)
    requires Booked(s, t, [Alloc(l, m), Alloc(l, n)]) && StockRollup(s) && l < |s.lots|
    requires s.lots[l].remaining == m && s.lots[l].status.Active?
    ensures l < |t.lots| && t.lots[l].status.Depleted? && t.lots[l].remaining == -n && !StockRollup(t)
  {
    var rows := [Alloc(l, m), Alloc(l, n)];
    TwoRows(l, m, n);
    LotAfter(s.lots, rows, l);
    StockExact(s, t, rows);
    assert Empties(s.lots, rows, 0);
    assert !TurnOk(s.lots, rows, 1) && !NotEmptied(s.lots, rows, 2, l);
  }

  /** Two lines of one offline sale: the first sells the product's only lot out, the second drives the
      now DEPLETED row below zero and Product.stock with it, where the ACTIVE lots sum to nothing. */
  lemma SecondLineBreaks(s: State, x: CartLine, y: CartLine, terms: StoreTerms, key: string, now: int, l: nat)
    requires ShelfWf(s.shelf) && StockRollup(s.shelf) && l < |s.shelf.lots|
    requires x.product == y.product == s.shelf.lots[l].product && LineOk(x) && LineOk(y)
    requires ActiveFefo(s.shelf.lots, x.product) == [l] && !Blocked(s.shelf.lots, x.product)
    requires s.shelf.lots[l].remaining == x.quantity && s.shelf.lots[l].status.Active?
    requires Price([x, y], terms).Ok? && !HasKey(s.sales, key)
    ensures var r := CreateSale(s, [x, y], terms, true, true, Some(key), now);
            && r.Ok? && |r.value.shelf.lots| == |s.shelf.lots|
            && r.value.shelf.lots[l].status.Depleted? && r.value.shelf.lots[l].remaining == -y.quantity
            && !StockRollup(r.value.shelf)
  {
    var lots, a, b := s.shelf.lots, Alloc(l, x.quantity), Alloc(l, y.quantity);
    PlanTwo(lots, x, y, l, ZeroTaken(|lots|));
    hide PlanCart, Price, ActiveFefo, Blocked;
    CheckoutGoes(s, [x, y], terms, true, true, Some(key), now);
    CreateGranted(s, [x, y], terms, true, true, Some(key), now);
    var items := ItemsOf([x, y], [[a], [b]], terms.taxRate);
    assert items[0].allocs == [a] && items[1].allocs == [b];
    hide *;
    var t := TakeItems(s.shelf, items, true).value;
    CartBooked(s.shelf, items);
    TwoLines(items, a, b);
    SecondRowBreaks(s.shelf, t, l, x.quantity, y.quantity);
    assert |t.lots| == |lots| by { TakeSells(s.shelf, items); }
  }
}
