/** The service itself: the tables as mutable rows, the stock engine's loops over them, and every
    transaction with its rollback. Each method is proved to do exactly what Ledger says of it, so the
    theorems about runs of the ledger are theorems about runs of these methods. */
module TillService {
  import opened Outcome
  import opened Sums
  import opened Allocation
  import opened Lots
  import opened StockEngine
  import opened Fefo
  import opened Checkout
  import opened Ledger
  import opened LedgerInvariant

  /** A transaction commits its new state or leaves the old one and reports the refusal. */
  predicate Commits(before: State, r: Result<State>, after: State, refusal: Option<nat>) {
    match r
    case Ok(t) => after == t && refusal == None
    case Err(e) => after == before && refusal == Some(e)
  }

  /** Inside a transaction a refusal may leave rows half written: the caller rolls back. */
  predicate Writes(r: Result<Shelf>, after: Shelf, refusal: Option<nat>) {
    match r
    case Ok(t) => after == t && refusal == None
    case Err(e) => refusal == Some(e)
  }

  function Prepend(plans: seq<seq<Alloc>>, r: Result<seq<seq<Alloc>>>): Result<seq<seq<Alloc>>> {
    match r case Ok(rest) => Ok(plans + rest) case Err(e) => Err(e)
  }

  lemma PrependNone(lots: seq<Lot>, cart: seq<CartLine>, taken: seq<int>, offline: bool)
    requires |taken| == |lots|
    ensures PlanCart(lots, cart, taken, offline) == Prepend([], PlanCart(lots, cart[0..], taken, offline))
  {
    assert cart[0..] == cart;
    var r := PlanCart(lots, cart, taken, offline);
    if r.Ok? { assert [] + r.value == r.value; }
  }

  lemma PrependEnd(lots: seq<Lot>, cart: seq<CartLine>, taken: seq<int>, offline: bool, plans: seq<seq<Alloc>>)
    requires |taken| == |lots|
    ensures Prepend(plans, PlanCart(lots, cart[|cart|..], taken, offline)) == Ok(plans)
  {
    assert plans + [] == plans;
  }

  lemma PrependNext(lots: seq<Lot>, cart: seq<CartLine>, i: nat, taken: seq<int>, offline: bool, plans: seq<seq<Alloc>>)
    requires |taken| == |lots| && i < |cart|
    ensures var p, q := cart[i].product, cart[i].quantity;
            var order := ActiveFefo(lots, p);
            var free := UpTo(Avails(lots, order, taken), |order|);
            Prepend(plans, PlanCart(lots, cart[i..], taken, offline))
            == if free < q && free == 0 && Blocked(lots, p) then Err(409)
               else match PlanLine(lots, order, taken, q, offline)
                 case Err(e) => Err(e)
                 case Ok(plan) => Prepend(plans + [plan.rows], PlanCart(lots, cart[i + 1..], plan.taken, offline))
  {
    assert cart[i..][0] == cart[i] && cart[i..][1..] == cart[i + 1..];
    var plan := PlanLine(lots, ActiveFefo(lots, cart[i].product), taken, cart[i].quantity, offline);
    if plan.Ok? && PlanCart(lots, cart[i + 1..], plan.value.taken, offline).Ok? {
      var rest := PlanCart(lots, cart[i + 1..], plan.value.taken, offline).value;
      assert plans + ([plan.value.rows] + rest) == (plans + [plan.value.rows]) + rest;
    }
  }

  /** What the walk back needs of the rows: whole positive allocations and quantities. */
  predicate WalkReady(items: seq<SaleItem>, lines: seq<RefundLine>) {
    && (forall i :: 0 <= i < |items| ==> Positive(items[i].allocs) && items[i].refundedQuantity >= 0)
    && (forall k :: 0 <= k < |lines| ==> lines[k].quantity > 0)
  }

  predicate Walkable(s: State) {
    forall rid :: 0 <= rid < |s.refunds| && s.refunds[rid].status.RefundPending? && s.refunds[rid].sale < |s.sales| ==>
      WalkReady(s.sales[s.refunds[rid].sale].items, s.refunds[rid].lines)
  }

  lemma ClaimGranted(s: State, id: nat, restock: bool, requested: seq<RefundLine>, lines: seq<RefundLine>, q: Quote)
    requires id < |s.sales| && s.sales[id].status.Paid?
    requires lines == if requested == [] then RemainingLines(s.sales[id].items) else requested
    requires LinesValid(s.sales[id].items, lines) && lines != [] && QuoteRefund(s.sales[id], lines) == Ok(q)
    ensures Ledger.ClaimRefund(s, id, restock, requested)
         == Ok(s.(refunds := s.refunds + [Refund(id, RefundPending, restock, lines, q.amount, q.operatorAmount)],
                  sales := s.sales[id := s.sales[id].(status := Refunding, pendingRefund := Some(|s.refunds|))]))
  {
  }

  // ---- What the jobs send ----

  function ExpiryEvents(due: seq<nat>, now: int): seq<Event> {
    if due == [] then [] else ExpiryEvents(due[..|due| - 1], now) + [EvExpire(due[|due| - 1], now)]
  }

  function SettleEvent(id: nat, paid: set<nat>, now: int): Event {
    if id in paid then EvPaid(id, now) else EvUnpaid(id, true)
  }

  function SettleEvents(stale: seq<nat>, paid: set<nat>, now: int): seq<Event> {
    if stale == [] then []
    else SettleEvents(stale[..|stale| - 1], paid, now) + [SettleEvent(stale[|stale| - 1], paid, now)]
  }

  /** The sales of the list whose settlement, as paid or as abandoned, was not refused. */
  function Succeeded(s: State, stale: seq<nat>, paid: set<nat>, now: int, asPaid: bool): seq<nat> {
    if stale == [] then []
    else
      var init, id := stale[..|stale| - 1], stale[|stale| - 1];
      Succeeded(s, init, paid, now, asPaid)
      + (if (id in paid) == asPaid && Step(Run(s, SettleEvents(init, paid, now)), SettleEvent(id, paid, now)).Ok?
         then [id] else [])
  }

  lemma NextSucceeded(s: State, stale: seq<nat>, i: nat, paid: set<nat>, now: int, asPaid: bool)
    requires i < |stale|
    ensures Succeeded(s, stale[..0], paid, now, asPaid) == []
    ensures Succeeded(s, stale[..i + 1], paid, now, asPaid)
         == Succeeded(s, stale[..i], paid, now, asPaid)
            + (if (stale[i] in paid) == asPaid
                  && Step(Run(s, SettleEvents(stale[..i], paid, now)), SettleEvent(stale[i], paid, now)).Ok?
               then [stale[i]] else [])
  {
    hide Step, Run;
    assert stale[..i + 1][..i] == stale[..i];
  }

  lemma NextExpiry(s: State, due: seq<nat>, i: nat, now: int)
    requires i < |due|
    ensures Run(s, ExpiryEvents(due[..0], now)) == s
    ensures Run(s, ExpiryEvents(due[..i + 1], now)) == Exec(Run(s, ExpiryEvents(due[..i], now)), EvExpire(due[i], now))
  {
    assert due[..i + 1] == due[..i] + [due[i]];
    RunAppend(s, ExpiryEvents(due[..i], now), EvExpire(due[i], now));
  }

  lemma NoneSettled(s: State, stale: seq<nat>, paid: set<nat>, now: int)
    ensures Run(s, SettleEvents(stale[..0], paid, now)) == s
    ensures forall asPaid :: Succeeded(s, stale[..0], paid, now, asPaid) == []
  {
  }

  lemma NextSettlement(s: State, stale: seq<nat>, i: nat, paid: set<nat>, now: int)
    requires i < |stale|
    ensures Run(s, SettleEvents(stale[..0], paid, now)) == s
    ensures Run(s, SettleEvents(stale[..i + 1], paid, now))
         == Exec(Run(s, SettleEvents(stale[..i], paid, now)), SettleEvent(stale[i], paid, now))
  {
    assert stale[..i + 1] == stale[..i] + [stale[i]];
    RunAppend(s, SettleEvents(stale[..i], paid, now), SettleEvent(stale[i], paid, now));
  }

  lemma RunAppend(s: State, es: seq<Event>, e: Event)
    ensures Run(s, es + [e]) == Exec(Run(s, es), e)
  {
    assert (es + [e])[..|es|] == es;
  }

  class Till {
    var products: seq<Product>
    var lots: seq<Lot>
    var sales: seq<Sale>
    var refunds: seq<Refund>
    var recalls: seq<Recall>

    ghost function Goods(): Shelf
      reads `products, `lots
    {
      Shelf(products, lots)
    }

    ghost function Books(): State
      reads this
    {
      State(Goods(), sales, refunds, recalls)
    }

    constructor ()
      ensures Books() == EMPTY
    {
      products, lots, sales, refunds, recalls := [], [], [], [], [];
    }

    // ---- The stock engine ----

    method Reserve(p: nat, allocs: seq<Alloc>)
      requires Supplies(Goods(), p, allocs)
      modifies `products, `lots
      ensures Goods() == StockEngine.Reserve(old(Goods()), p, allocs)
    {
      ApplyEnds(lots, allocs, ReserveOp);
      hide ApplyAll;
      var k := 0;
      while k < |allocs|
        invariant 0 <= k <= |allocs| && products == old(products)
        invariant lots == ApplyAll(old(lots), allocs[..k], ReserveOp)
      {
        var a := allocs[k];
        ApplyNext(old(lots), allocs, k, ReserveOp);
        lots := lots[a.lot := lots[a.lot].(reserved := lots[a.lot].reserved + a.qty)];
        k := k + 1;
      }
      products := products[p := products[p].(reserved := products[p].reserved + Total(allocs))];
    }

    /** Row by row; the first row whose reservation is not there stops it. */
    method ReleaseRows(allocs: seq<Alloc>) returns (held: bool)
      requires InRange(lots, allocs)
      modifies `lots
      ensures held <==> HeldRows(old(lots), allocs, |allocs|)
      ensures held ==> lots == ApplyAll(old(lots), allocs, ReleaseOp)
    {
      ApplyEnds(lots, allocs, ReleaseOp);
      hide ApplyAll;
      var k := 0;
      while k < |allocs|
        invariant 0 <= k <= |allocs| && HeldRows(old(lots), allocs, k)
        invariant lots == ApplyAll(old(lots), allocs[..k], ReleaseOp)
      {
        var a := allocs[k];
        HeldNext(old(lots), allocs, k);
        if lots[a.lot].reserved < a.qty {
          HeldPrefix(old(lots), allocs, k + 1);
          return false;
        }
        ApplyNext(old(lots), allocs, k, ReleaseOp);
        lots := lots[a.lot := lots[a.lot].(reserved := lots[a.lot].reserved - a.qty)];
        k := k + 1;
      }
      return true;
    }

    method Release(p: nat, allocs: seq<Alloc>) returns (refusal: Option<nat>)
      requires Supplies(Goods(), p, allocs)
      modifies `products, `lots
      ensures Writes(StockEngine.Release(old(Goods()), p, allocs), Goods(), refusal)
    {
      var held := ReleaseRows(allocs);
      if !held || products[p].reserved < Total(allocs) {
        return Some(500);
      }
      products := products[p := products[p].(reserved := products[p].reserved - Total(allocs))];
      return None;
    }

    method ConsumeReserved(p: nat, allocs: seq<Alloc>) returns (refusal: Option<nat>)
      requires Supplies(Goods(), p, allocs)
      modifies `products, `lots
      ensures Writes(StockEngine.ConsumeReserved(old(Goods()), p, allocs), Goods(), refusal)
    {
      ApplyEnds(lots, allocs, ConsumeReservedOp);
      hide ApplyAll;
      var k := 0;
      while k < |allocs|
        invariant 0 <= k <= |allocs| && products == old(products)
        invariant lots == ApplyAll(old(lots), allocs[..k], ConsumeReservedOp)
      {
        var a := allocs[k];
        ApplyNext(old(lots), allocs, k, ConsumeReservedOp);
        var lot := lots[a.lot].(remaining := lots[a.lot].remaining - a.qty, reserved := lots[a.lot].reserved - a.qty);
        if lot.remaining == 0 {
          lot := lot.(status := Depleted);
        }
        lots := lots[a.lot := lot];
        k := k + 1;
      }
      var n := Total(allocs);
      if products[p].reserved < n || products[p].stock < n {
        return Some(500);
      }
      products := products[p := Product(products[p].stock - n, products[p].reserved - n)];
      return None;
    }

    method ConsumeRows(allocs: seq<Alloc>)
      requires InRange(lots, allocs)
      modifies `lots
      ensures lots == ApplyAll(old(lots), allocs, ConsumeDirectOp)
    {
      ApplyEnds(lots, allocs, ConsumeDirectOp);
      hide ApplyAll;
      var k := 0;
      while k < |allocs|
        invariant 0 <= k <= |allocs|
        invariant lots == ApplyAll(old(lots), allocs[..k], ConsumeDirectOp)
      {
        var a := allocs[k];
        ApplyNext(old(lots), allocs, k, ConsumeDirectOp);
        var lot := lots[a.lot].(remaining := lots[a.lot].remaining - a.qty);
        if lot.remaining == 0 {
          lot := lot.(status := Depleted);
        }
        lots := lots[a.lot := lot];
        k := k + 1;
      }
    }

    /** The conditional update of the last-chance claim; the first row that is not free stops it. */
    method ClaimRows(allocs: seq<Alloc>) returns (claimed: bool)
      requires InRange(lots, allocs)
      modifies `lots
      ensures claimed <==> FreeRows(old(lots), allocs, |allocs|)
      ensures claimed ==> lots == ApplyAll(old(lots), allocs, ConsumeDirectOp)
    {
      ApplyEnds(lots, allocs, ConsumeDirectOp);
      hide ApplyAll;
      var k := 0;
      while k < |allocs|
        invariant 0 <= k <= |allocs| && FreeRows(old(lots), allocs, k)
        invariant lots == ApplyAll(old(lots), allocs[..k], ConsumeDirectOp)
      {
        var a := allocs[k];
        FreeNext(old(lots), allocs, k);
        if !FreeRow(lots[a.lot], a.qty) {
          FreePrefix(old(lots), allocs, k + 1);
          return false;
        }
        ApplyNext(old(lots), allocs, k, ConsumeDirectOp);
        lots := lots[a.lot := ConsumeDirectOp(lots[a.lot], a.qty)];
        k := k + 1;
      }
      return true;
    }

    /** Cash sales, and with `requireAvailable` the last-chance claim of free units. */
    method ConsumeDirect(p: nat, allocs: seq<Alloc>, requireAvailable: bool) returns (refusal: Option<nat>)
      requires Supplies(Goods(), p, allocs)
      modifies `products, `lots
      ensures requireAvailable ==> Writes(ConsumeFree(old(Goods()), p, allocs), Goods(), refusal)
      ensures !requireAvailable ==> refusal == None && Goods() == StockEngine.ConsumeDirect(old(Goods()), p, allocs)
    {
      if requireAvailable {
        var claimed := ClaimRows(allocs);
        if !claimed || products[p].stock - products[p].reserved < Total(allocs) {
          return Some(409);
        }
      } else {
        ConsumeRows(allocs);
      }
      products := products[p := products[p].(stock := products[p].stock - Total(allocs))];
      return None;
    }

    /** Row by row, reading each lot's status from the locked copy; `sellable` is what rejoins the stock. */
    method RestockRows(locked: seq<Lot>, back: seq<Alloc>) returns (ok: bool, sellable: int)
      requires InRange(lots, back) && |locked| == |lots|
      modifies `lots
      ensures ok <==> forall i :: 0 <= i < |back| ==> !Terminal(locked[back[i].lot].status)
      ensures ok ==> lots == ApplyAll(old(lots), back, RestockOp) && sellable == Sum(back, SellableFn(locked))
    {
      ApplyEnds(lots, back, RestockOp);
      assert back[..0] == [] && Sum(back[..0], SellableFn(locked)) == 0;
      hide ApplyAll, Sum;
      var k := 0;
      sellable := 0;
      while k < |back|
        invariant 0 <= k <= |back|
        invariant lots == ApplyAll(old(lots), back[..k], RestockOp)
        invariant sellable == Sum(back[..k], SellableFn(locked))
        invariant forall j :: 0 <= j < k ==> !Terminal(locked[back[j].lot].status)
      {
        var row := back[k];
        if locked[row.lot].status.Recalled? || locked[row.lot].status.Expired? {
          return false, sellable;
        }
        ApplyNext(old(lots), back, k, RestockOp);
        assert back[..k + 1] == back[..k] + [row];
        SumAppend(back[..k], row, SellableFn(locked));
        var lot := lots[row.lot].(remaining := lots[row.lot].remaining + row.qty);
        if lot.status.Depleted? && lot.remaining > 0 {
          lot := lot.(status := Active);
        }
        lots := lots[row.lot := lot];
        if !locked[row.lot].status.Quarantined? {
          sellable := sellable + row.qty;
        }
        k := k + 1;
      }
      return true, sellable;
    }

    method RestockToLots(p: nat, locked: seq<Lot>, back: seq<Alloc>) returns (refusal: Option<nat>)
      requires Supplies(Goods(), p, back) && |locked| == |lots|
      modifies `products, `lots
      ensures Writes(Restock(old(Goods()), p, locked, back), Goods(), refusal)
    {
      var ok, sellable := RestockRows(locked, back);
      if !ok {
        return Some(409);
      }
      products := products[p := products[p].(stock := products[p].stock + sellable)];
      return None;
    }

    method SetLotRemaining(l: nat, target: int) returns (refusal: Option<nat>)
      requires l < |lots| && lots[l].product < |products|
      modifies `products, `lots
      ensures Writes(StockEngine.SetLotRemaining(old(Goods()), l, target), Goods(), refusal)
    {
      var lot := lots[l];
      if target < 0 { return Some(400); }
      if lot.status.Active? && target < lot.reserved { return Some(409); }
      var status := lot.status;
      if lot.status.Active? && target == 0 {
        status := Depleted;
      } else if lot.status.Depleted? && target > 0 {
        status := Active;
      }
      if target != lot.remaining || status != lot.status {
        lots := lots[l := lot.(remaining := target, status := status)];
      }
      var rollupDelta := (if status.Active? then target else 0) - (if lot.status.Active? then lot.remaining else 0);
      if rollupDelta != 0 {
        products := products[lot.product := products[lot.product].(stock := products[lot.product].stock + rollupDelta)];
      }
      return None;
    }

    method LeaveSellableRollup(l: nat, next: LotStatus)
      requires l < |lots| && lots[l].product < |products|
      modifies `products, `lots
      ensures Goods() == StockEngine.LeaveSellableRollup(old(Goods()), l, next)
    {
      var lot := lots[l];
      lots := lots[l := lot.(status := next)];
      if lot.status.Active? && lot.remaining > 0 {
        var row := products[lot.product];
        products := products[lot.product := row.(stock := row.stock - lot.remaining)];
      }
    }

    method ReturnToSellableRollup(l: nat)
      requires l < |lots| && lots[l].product < |products|
      modifies `products, `lots
      ensures Goods() == StockEngine.ReturnToSellableRollup(old(Goods()), l)
    {
      var lot := lots[l];
      if lot.status.Quarantined? {
        lots := lots[l := lot.(status := Active)];
        if lot.remaining > 0 {
          var row := products[lot.product];
          products := products[lot.product := row.(stock := row.stock + lot.remaining)];
        }
      }
    }

    /** The rollup check operators run: it finds nothing exactly when every product row is right. */
    method FindStockRollupMismatches() returns (mismatches: seq<nat>)
      ensures forall p :: p in mismatches ==>
                p < |products| && products[p] != Product(ActiveStock(lots, p), ActiveReserved(lots, p))
      ensures mismatches == [] <==> Rollup(Goods())
    {
      mismatches := [];
      var p := 0;
      while p < |products|
        invariant 0 <= p <= |products|
        invariant forall q :: q in mismatches ==>
                    q < p && products[q] != Product(ActiveStock(lots, q), ActiveReserved(lots, q))
        invariant mismatches == [] <==>
                    forall q: nat :: q < p ==> products[q] == Product(ActiveStock(lots, q), ActiveReserved(lots, q))
      {
        var remaining, reserved, l := 0, 0, 0;
        while l < |lots|
          invariant 0 <= l <= |lots|
          invariant remaining == Sum(lots[..l], StockFn(p)) && reserved == Sum(lots[..l], ReservedFn(p))
        {
          assert lots[..l + 1] == lots[..l] + [lots[l]];
          SumAppend(lots[..l], lots[l], StockFn(p));
          SumAppend(lots[..l], lots[l], ReservedFn(p));
          if lots[l].product == p && lots[l].status.Active? {
            remaining := remaining + lots[l].remaining;
            reserved := reserved + lots[l].reserved;
          }
          l := l + 1;
        }
        assert lots[..|lots|] == lots;
        if remaining != products[p].stock || reserved != products[p].reserved {
          mismatches := mismatches + [p];
        }
        p := p + 1;
      }
    }

    // ---- Sales ----

    /** The allocation loop of createSale: `taken` carries what earlier lines have planned. */
    method PlanSale(cart: seq<CartLine>, offline: bool) returns (r: Result<seq<seq<Alloc>>>)
      requires CartOk(cart)
      ensures r == PlanCart(lots, cart, ZeroTaken(|lots|), offline)
    {
      var taken := new int[|lots|](i => 0);
      assert taken[..] == ZeroTaken(|lots|);
      var plans := [];
      var i := 0;
      PrependNone(lots, cart, taken[..], offline);
      hide PlanCart;
      while i < |cart|
        invariant 0 <= i <= |cart| && fresh(taken) && taken.Length == |lots|
        invariant PlanCart(lots, cart, ZeroTaken(|lots|), offline)
               == Prepend(plans, PlanCart(lots, cart[i..], taken[..], offline))
      {
        assert LineOk(cart[i]);
        var p, q := cart[i].product, cart[i].quantity;
        var order := ActiveFefo(lots, p);
        ActiveFefoSpec(lots, p);
        PrependNext(lots, cart, i, taken[..], offline, plans);
        var free := UpTo(Avails(lots, order, taken[..]), |order|);
        if free < q && free == 0 && Blocked(lots, p) {
          return Err(409);
        }
        var rows := AllocateFefo(lots, order, taken, q, offline);
        if rows.Err? {
          return Err(rows.status);
        }
        plans := plans + [rows.value];
        i := i + 1;
      }
      PrependEnd(lots, cart, taken[..], offline, plans);
      return Ok(plans);
    }

    method TakeLines(items: seq<SaleItem>, cash: bool) returns (refusal: Option<nat>)
      modifies `products, `lots
      ensures Writes(TakeItems(old(Goods()), items, cash), Goods(), refusal)
    {
      var i := 0;
      assert items[0..] == items;
      while i < |items|
        invariant 0 <= i <= |items|
        invariant TakeItems(old(Goods()), items, cash) == TakeItems(Goods(), items[i..], cash)
      {
        var item := items[i];
        assert items[i..][0] == item && items[i..][1..] == items[i + 1..];
        if !Supplies(Shelf(products, lots), item.product, item.allocs) {
          return Some(500);
        }
        if cash {
          var _ := ConsumeDirect(item.product, item.allocs, false);
        } else {
          Reserve(item.product, item.allocs);
        }
        i := i + 1;
      }
      return None;
    }

    method CreateSale(cart: seq<CartLine>, terms: StoreTerms, cash: bool, offline: bool, key: Option<string>, now: int)
      returns (refusal: Option<nat>)
      modifies this
      ensures Commits(old(Books()), Ledger.CreateSale(old(Books()), cart, terms, cash, offline, key, now),
                      Books(), refusal)
    {
      hide PlanCart, Price, TakeItems, Supplies;
      if cart == [] { return Some(400); }
      if offline && (!cash || key.None?) { return Some(400); }
      if key.Some? && HasKey(sales, key.value) { return None; }
      if !CartOk(cart) { return Some(400); }
      if exists i :: 0 <= i < |cart| && cart[i].product >= |products| { return Some(404); }
      var plans := PlanSale(cart, offline);
      if plans.Err? { return Some(plans.status); }
      var priced := PriceCart(cart, terms);
      if priced.Err? { return Some(priced.status); }
      var items := ItemsOf(cart, plans.value, terms.taxRate);
      var savedProducts, savedLots := products, lots;
      refusal := TakeLines(items, cash);
      if refusal.Some? {
        products, lots := savedProducts, savedLots;
        return;
      }
      sales := sales + [NewSale(priced.value, terms, items, cash, key, now)];
    }

    method ConsumeLines(items: seq<SaleItem>, locked: seq<Lot>) returns (refusal: Option<nat>)
      modifies `products, `lots
      ensures Writes(FinalizeItems(old(Goods()), locked, items), Goods(), refusal)
    {
      var i := 0;
      assert items[0..] == items;
      while i < |items|
        invariant 0 <= i <= |items|
        invariant FinalizeItems(old(Goods()), locked, items) == FinalizeItems(Goods(), locked, items[i..])
      {
        var item := items[i];
        assert items[i..][0] == item && items[i..][1..] == items[i + 1..];
        if item.allocs == [] || !Supplies(Shelf(products, lots), item.product, item.allocs) {
          return Some(500);
        }
        if Intact(locked, item.allocs) {
          refusal := ConsumeReserved(item.product, item.allocs);
        } else {
          refusal := ConsumeDirect(item.product, item.allocs, true);
        }
        if refusal.Some? { return; }
        i := i + 1;
      }
      return None;
    }

    method FinalizePaidSale(id: nat, now: int) returns (refusal: Option<nat>)
      modifies this
      ensures Commits(old(Books()), Ledger.FinalizePaidSale(old(Books()), id, now), Books(), refusal)
    {
      if id >= |sales| { return Some(404); }
      var sale := sales[id];
      if sale.status.Paid? { return None; }
      if !sale.status.Pending? { return Some(409); }
      if sale.items == [] { return Some(500); }
      var savedProducts, savedLots := products, lots;
      refusal := ConsumeLines(sale.items, lots);
      if refusal.Some? {
        products, lots := savedProducts, savedLots;
        return;
      }
      sales := sales[id := sale.(status := Paid, paidAt := Some(now))];
    }

    method ReleaseLines(items: seq<SaleItem>) returns (refusal: Option<nat>)
      modifies `products, `lots
      ensures Writes(ReleaseItems(old(Goods()), items), Goods(), refusal)
    {
      var i := 0;
      assert items[0..] == items;
      while i < |items|
        invariant 0 <= i <= |items|
        invariant ReleaseItems(old(Goods()), items) == ReleaseItems(Goods(), items[i..])
      {
        var item := items[i];
        assert items[i..][0] == item && items[i..][1..] == items[i + 1..];
        if !Supplies(Shelf(products, lots), item.product, item.allocs) {
          return Some(500);
        }
        refusal := Release(item.product, item.allocs);
        if refusal.Some? { return; }
        i := i + 1;
      }
      return None;
    }

    method SettleUnpaidSale(id: nat, timedOut: bool) returns (refusal: Option<nat>)
      modifies this
      ensures Commits(old(Books()), Ledger.SettleUnpaidSale(old(Books()), id, timedOut), Books(), refusal)
    {
      if id >= |sales| { return Some(404); }
      var sale := sales[id];
      if sale.status.Failed? || sale.status.TimedOut? { return None; }
      if !sale.status.Pending? { return Some(409); }
      var savedProducts, savedLots := products, lots;
      refusal := ReleaseLines(sale.items);
      if refusal.Some? {
        products, lots := savedProducts, savedLots;
        return;
      }
      sales := sales[id := sale.(status := if timedOut then TimedOut else Failed)];
    }

    // ---- Refunds ----

    method ClaimRefund(id: nat, restock: bool, requested: seq<RefundLine>) returns (refusal: Option<nat>)
      modifies this
      ensures Commits(old(Books()), Ledger.ClaimRefund(old(Books()), id, restock, requested), Books(), refusal)
    {
      if id >= |sales| { return Some(404); }
      var sale := sales[id];
      if !sale.status.Paid? { return Some(409); }
      var lines := if requested == [] then RemainingLines(sale.items) else requested;
      if !LinesValid(sale.items, lines) { return Some(400); }
      if lines == [] { return Some(409); }
      var quote := QuoteRefund(sale, lines);
      if quote.Err? { return Some(quote.status); }
      ClaimGranted(Books(), id, restock, requested, lines, quote.value);
      sales := sales[id := sale.(status := Refunding, pendingRefund := Some(|refunds|))];
      refunds := refunds + [Refund(id, RefundPending, restock, lines, quote.value.amount, quote.value.operatorAmount)];
      return None;
    }

    /** The goods of one refund, line by line, walked back to the lots they came from. */
    method RestockLines(locked: seq<Lot>, start: seq<SaleItem>, lines: seq<RefundLine>, restock: bool)
      returns (refusal: Option<nat>, items: seq<SaleItem>)
      requires WalkReady(start, lines)
      modifies `products, `lots
      ensures match FinalizeLines(old(Goods()), locked, start, lines, restock)
              case Ok(done) => refusal == None && items == done.items && Goods() == done.shelf
              case Err(e) => refusal == Some(e)
    {
      items := start;
      var k := 0;
      assert lines[0..] == lines;
      while k < |lines|
        invariant 0 <= k <= |lines| && WalkReady(items, lines)
        invariant FinalizeLines(old(Goods()), locked, start, lines, restock)
               == FinalizeLines(Goods(), locked, items, lines[k..], restock)
      {
        var i, q := lines[k].item, lines[k].quantity;
        assert lines[k..][0] == lines[k] && lines[k..][1..] == lines[k + 1..];
        if i >= |items| { return Some(500), items; }
        var item := items[i];
        if q > item.quantity - item.refundedQuantity { return Some(409), items; }
        if restock {
          if item.allocs == [] { return Some(500), items; }
          SliceShort(item.allocs, item.refundedQuantity, q);
          var back := RestoreWalk(item.allocs, item.refundedQuantity, q);
          if back.Err? { return Some(back.status), items; }
          if !Supplies(Shelf(products, lots), item.product, back.value) || |locked| != |lots| {
            return Some(500), items;
          }
          refusal := RestockToLots(item.product, locked, back.value);
          if refusal.Some? { return; }
        }
        items := items[i := RefundItem(item, q, restock)];
        k := k + 1;
      }
      return None, items;
    }

    method FinalizeRefund(rid: nat) returns (refusal: Option<nat>)
      requires Walkable(Books())
      modifies this
      ensures Commits(old(Books()), Ledger.FinalizeRefund(old(Books()), rid), Books(), refusal)
    {
      if rid >= |refunds| || refunds[rid].sale >= |sales| { return Some(404); }
      var refund := refunds[rid];
      if refund.status.RefundSucceeded? { return None; }
      if refund.status.RefundFailed? { return Some(409); }
      var sale := sales[refund.sale];
      var savedProducts, savedLots := products, lots;
      var items;
      refusal, items := RestockLines(lots, sale.items, refund.lines, refund.restock);
      if refusal.Some? {
        products, lots := savedProducts, savedLots;
        return;
      }
      refunds := refunds[rid := refund.(status := RefundSucceeded)];
      sales := sales[refund.sale := SettleRefund(sale, refund, items)];
    }

    method AbortRefund(rid: nat) returns (refusal: Option<nat>)
      modifies this
      ensures Commits(old(Books()), Ledger.AbortRefund(old(Books()), rid), Books(), refusal)
    {
      if rid >= |refunds| || refunds[rid].sale >= |sales| { return Some(404); }
      if refunds[rid].status.RefundSucceeded? { return Some(409); }
      var id := refunds[rid].sale;
      refunds := refunds[rid := refunds[rid].(status := RefundFailed)];
      if sales[id].status.Refunding? && sales[id].pendingRefund == Some(rid) {
        sales := sales[id := sales[id].(status := Paid, pendingRefund := None)];
      }
      return None;
    }

    method ReconcileRefund(id: nat, answer: StripeAnswer) returns (refusal: Option<nat>)
      requires Walkable(Books())
      modifies this
      ensures Commits(old(Books()), Ledger.ReconcileRefund(old(Books()), id, answer), Books(), refusal)
    {
      if id >= |sales| || !sales[id].status.Refunding? { return None; }
      if sales[id].pendingRefund.None? {
        sales := sales[id := sales[id].(status := Paid)];
        return None;
      }
      var rid := sales[id].pendingRefund.value;
      match answer
      case StripeUnreachable => refusal := Some(409);
      case StripeSucceeded => refusal := FinalizeRefund(rid);
      case StripeFailed => refusal := AbortRefund(rid);
      case StripePending => refusal := None;
      case StripeUnknown(graceOver) =>
        if graceOver {
          refusal := AbortRefund(rid);
        } else {
          refusal := None;
        }
    }

    // ---- Stock ----

    method CreateProduct()
      modifies this
      ensures Books() == Ledger.CreateProduct(old(Books()))
    {
      products := products + [Product(0, 0)];
    }

    method Receive(p: nat, qty: int, expiry: Option<int>, at: int) returns (refusal: Option<nat>)
      modifies this
      ensures Commits(old(Books()), Ledger.Receive(old(Books()), p, qty, expiry, at), Books(), refusal)
    {
      if p >= |products| { return Some(404); }
      if qty < 0 { return Some(400); }
      if qty > 0 {
        lots := lots + [Lot(p, qty, 0, Active, expiry, at)];
        products := products[p := products[p].(stock := products[p].stock + qty)];
      }
      return None;
    }

    method AdjustLot(l: nat, quantity: int) returns (refusal: Option<nat>)
      modifies this
      ensures Commits(old(Books()), Ledger.AdjustLot(old(Books()), l, quantity), Books(), refusal)
    {
      if quantity < 0 { return Some(400); }
      if l >= |lots| || lots[l].product >= |products| { return Some(404); }
      var savedProducts, savedLots := products, lots;
      refusal := SetLotRemaining(l, quantity);
      if refusal.None? && quantity == savedLots[l].remaining {
        refusal := Some(400);
      }
      if refusal.Some? {
        products, lots := savedProducts, savedLots;
      }
    }

    method ApplyVariances(lines: seq<Variance>) returns (refusal: Option<nat>)
      modifies `products, `lots
      ensures Writes(Ledger.ApplyVariances(old(Goods()), lines), Goods(), refusal)
    {
      var i := 0;
      assert lines[0..] == lines;
      while i < |lines|
        invariant 0 <= i <= |lines|
        invariant Ledger.ApplyVariances(old(Goods()), lines) == Ledger.ApplyVariances(Goods(), lines[i..])
      {
        var line := lines[i];
        assert lines[i..][0] == line && lines[i..][1..] == lines[i + 1..];
        if line.delta != 0 {
          if line.lot >= |lots| || lots[line.lot].product >= |products| { return Some(500); }
          refusal := SetLotRemaining(line.lot, Max0(lots[line.lot].remaining + line.delta));
          if refusal.Some? { return; }
        }
        i := i + 1;
      }
      return None;
    }

    method ApproveVariances(lines: seq<Variance>, overrideBlocked: bool) returns (refusal: Option<nat>)
      modifies this
      ensures Commits(old(Books()), Ledger.ApproveVariances(old(Books()), lines, overrideBlocked), Books(), refusal)
    {
      if CountBlocked(lots, lines) && !overrideBlocked { return Some(409); }
      var savedProducts, savedLots := products, lots;
      refusal := ApplyVariances(lines);
      if refusal.Some? {
        products, lots := savedProducts, savedLots;
      }
    }

    method QuarantineLot(l: nat) returns (refusal: Option<nat>)
      modifies this
      ensures Commits(old(Books()), Ledger.QuarantineLot(old(Books()), l), Books(), refusal)
    {
      if l >= |lots| || lots[l].product >= |products| { return Some(404); }
      if lots[l].status.Quarantined? { return None; }
      if !lots[l].status.Active? || lots[l].reserved > 0 { return Some(409); }
      LeaveSellableRollup(l, Quarantined);
      return None;
    }

    method InitiateRecall(recalled: seq<nat>) returns (refusal: Option<nat>)
      modifies this
      ensures Commits(old(Books()), Ledger.InitiateRecall(old(Books()), recalled), Books(), refusal)
    {
      if recalled == [] { return Some(400); }
      if exists i :: 0 <= i < |recalled| && recalled[i] >= |lots| { return Some(404); }
      var now := State(Shelf(products, lots), sales, refunds, recalls);
      if exists i :: 0 <= i < |recalled| && !Recallable(now, recalled[i]) {
        return Some(409);
      }
      var i := 0;
      assert recalled[0..] == recalled;
      while i < |recalled|
        invariant 0 <= i <= |recalled| && refunds == old(refunds) && sales == old(sales) && recalls == old(recalls)
        invariant QuarantineAll(old(Goods()), recalled) == QuarantineAll(Goods(), recalled[i..])
      {
        var l := recalled[i];
        assert recalled[i..][0] == l && recalled[i..][1..] == recalled[i + 1..];
        if l < |lots| && lots[l].status.Active? && lots[l].product < |products| {
          LeaveSellableRollup(l, Quarantined);
        }
        i := i + 1;
      }
      recalls := recalls + [Recall(Draft, recalled)];
      return None;
    }

    method ActivateRecall(r: nat) returns (refusal: Option<nat>)
      modifies this
      ensures Commits(old(Books()), Ledger.ActivateRecall(old(Books()), r), Books(), refusal)
    {
      if r >= |recalls| { return Some(404); }
      if !recalls[r].status.Draft? { return Some(409); }
      var recalled, i := recalls[r].lots, 0;
      assert recalled[0..] == recalled;
      while i < |recalled|
        invariant 0 <= i <= |recalled| && refunds == old(refunds) && sales == old(sales) && recalls == old(recalls)
        invariant DepleteLots(old(Goods()), recalled) == DepleteLots(Goods(), recalled[i..])
      {
        var l := recalled[i];
        assert recalled[i..][0] == l && recalled[i..][1..] == recalled[i + 1..];
        if l < |lots| {
          lots := lots[l := lots[l].(status := Recalled, remaining := 0)];
        }
        i := i + 1;
      }
      recalls := recalls[r := recalls[r].(status := Live)];
      return None;
    }

    method CancelRecall(r: nat) returns (refusal: Option<nat>)
      modifies this
      ensures Commits(old(Books()), Ledger.CancelRecall(old(Books()), r), Books(), refusal)
    {
      if r >= |recalls| { return Some(404); }
      if !recalls[r].status.Draft? { return Some(409); }
      var recalled, i := recalls[r].lots, 0;
      assert recalled[0..] == recalled;
      while i < |recalled|
        invariant 0 <= i <= |recalled| && refunds == old(refunds) && sales == old(sales) && recalls == old(recalls)
        invariant ReturnLots(old(Goods()), recalled) == ReturnLots(Goods(), recalled[i..])
      {
        var l := recalled[i];
        assert recalled[i..][0] == l && recalled[i..][1..] == recalled[i + 1..];
        if l < |lots| && lots[l].product < |products| {
          ReturnToSellableRollup(l);
        }
        i := i + 1;
      }
      recalls := recalls[r := recalls[r].(status := Cancelled)];
      return None;
    }

    // ---- Jobs ----

    method ExpireLot(l: nat, now: int)
      modifies this
      ensures Books() == Exec(old(Books()), EvExpire(l, now))
    {
      if l < |lots| && lots[l].product < |products| {
        var lot := lots[l];
        if lot.expiry.Some? && lot.expiry.value < now && lot.status.Active? && lot.reserved <= 0 {
          LeaveSellableRollup(l, LotStatus.Expired);
        }
      }
    }

    /** One transaction per due lot; a lot that meanwhile left the shelf or holds a reservation is skipped. */
    method ExpireLots(due: seq<nat>, now: int)
      modifies this
      ensures Books() == Run(old(Books()), ExpiryEvents(due, now))
    {
      var i := 0;
      assert due[..0] == [];
      while i < |due|
        invariant 0 <= i <= |due| && Books() == Run(old(Books()), ExpiryEvents(due[..i], now))
      {
        NextExpiry(old(Books()), due, i, now);
        ExpireLot(due[i], now);
        i := i + 1;
      }
      assert due[..|due|] == due;
    }

    method SettleStale(id: nat, paid: set<nat>, now: int) returns (refusal: Option<nat>)
      modifies this
      ensures Books() == Exec(old(Books()), SettleEvent(id, paid, now))
      ensures refusal.None? <==> Step(old(Books()), SettleEvent(id, paid, now)).Ok?
    {
      hide Ledger.FinalizePaidSale, Ledger.SettleUnpaidSale;
      if id in paid {
        refusal := FinalizePaidSale(id, now);
      } else {
        refusal := SettleUnpaidSale(id, true);
      }
    }

    /** Abandoned checkouts: `paid` is what the processor says of each. A refused settlement is logged
        and the job goes on. */
    method ExpirePendingSales(stale: seq<nat>, paid: set<nat>, now: int)
      returns (finalized: seq<nat>, expired: seq<nat>)
      modifies this
      ensures Books() == Run(old(Books()), SettleEvents(stale, paid, now))
      ensures finalized == Succeeded(old(Books()), stale, paid, now, true)
      ensures expired == Succeeded(old(Books()), stale, paid, now, false)
    {
      hide Run, Step, Succeeded, SettleEvents, Exec;
      finalized, expired := [], [];
      var i := 0;
      NoneSettled(old(Books()), stale, paid, now);
      while i < |stale|
        invariant 0 <= i <= |stale| && Books() == Run(old(Books()), SettleEvents(stale[..i], paid, now))
        invariant finalized == Succeeded(old(Books()), stale[..i], paid, now, true)
        invariant expired == Succeeded(old(Books()), stale[..i], paid, now, false)
      {
        NextSettlement(old(Books()), stale, i, paid, now);
        NextSucceeded(old(Books()), stale, i, paid, now, true);
        NextSucceeded(old(Books()), stale, i, paid, now, false);
        var refusal := SettleStale(stale[i], paid, now);
        if refusal.None? {
          if stale[i] in paid { finalized := finalized + [stale[i]]; } else { expired := expired + [stale[i]]; }
        }
        i := i + 1;
      }
      assert stale[..|stale|] == stale;
    }
  }
}
