/** How a cart is planned and booked: which units its lines ask for, and what a checkout that goes through
    does to the tables. */
module CartPlans {
  import opened Outcome
  import opened Sums
  import opened Allocation
  import opened Lots
  import opened StockEngine
  import opened Fefo
  import opened Checkout
  import opened Ledger
  import opened LedgerInvariant
  import opened SaleSteps

  lemma SaleMovedFrame(a: Shelf, b: Shelf)
    requires SaleMoved(a, b)
    ensures SameProducts(a, b)
  {
  }

  /** A sale that is not being refunded is nobody's refund. */
  lemma RefundsUntouched(sales: seq<Sale>, refunds: seq<Refund>, id: nat, sale: Sale)
    requires RefundsOk(sales, refunds) && id < |sales| && !sales[id].status.Refunding? && !sale.status.Refunding?
    ensures RefundsOk(sales[id := sale], refunds)
  {
    var next := sales[id := sale];
    forall k: nat | k < |next| && next[k].status.Refunding?
      ensures RefundOpen(next, refunds, k)
    {
      assert RefundOpen(sales, refunds, k);
    }
  }

  function PlansOn(plans: seq<seq<Alloc>>, l: nat): int {
    if plans == [] then 0 else On(plans[0], l) + PlansOn(plans[1..], l)
  }

  /** The planned lines draw on ACTIVE lots of their products, for their full quantity. */
  predicate PlansFit(lots: seq<Lot>, cart: seq<CartLine>, plans: seq<seq<Alloc>>)
    requires |cart| == |plans|
  {
    forall i :: 0 <= i < |cart| ==>
      && InRange(lots, plans[i]) && Positive(plans[i]) && plans[i] != [] && Total(plans[i]) == cart[i].quantity
      && forall k :: 0 <= k < |plans[i]| ==>
           lots[plans[i][k].lot].product == cart[i].product && lots[plans[i][k].lot].status.Active?
  }

  /** What one planned line leaves, lot by lot. */
  lemma PlanLineFits(lots: seq<Lot>, p: nat, taken: seq<int>, q: int, offline: bool)
    requires |taken| == |lots| && q > 0 && PlanLine(lots, ActiveFefo(lots, p), taken, q, offline).Ok?
    ensures var plan := PlanLine(lots, ActiveFefo(lots, p), taken, q, offline).value;
            && InRange(lots, plan.rows) && Positive(plan.rows) && plan.rows != [] && Total(plan.rows) == q
            && (forall k :: 0 <= k < |plan.rows| ==>
                  lots[plan.rows[k].lot].product == p && lots[plan.rows[k].lot].status.Active?)
            && (forall l: nat :: l < |lots| ==> plan.taken[l] == taken[l] + On(plan.rows, l))
            && (!offline ==> forall l: nat :: l < |lots| && On(plan.rows, l) > 0 ==>
                  lots[l].status.Active? && plan.taken[l] <= lots[l].remaining - lots[l].reserved)
  {
    var order := ActiveFefo(lots, p);
    var plan := PlanLine(lots, order, taken, q, offline).value;
    ActiveFefoSpec(lots, p);
    PlanLineExact(lots, order, taken, q, offline);
    forall k | 0 <= k < |plan.rows| ensures plan.rows[k].lot in order {
      assert plan.rows[k] in plan.rows;
    }
    forall l: nat | l < |lots| && On(plan.rows, l) > 0 && !offline
      ensures lots[l].status.Active? && plan.taken[l] <= lots[l].remaining - lots[l].reserved
    {
      OnBounds(plan.rows, l);
      var k :| 0 <= k < |plan.rows| && plan.rows[k].lot == l;
      var i :| 0 <= i < |order| && order[i] == l;
      assert On(plan.rows, order[i]) <= Free(lots, taken, order[i]);
    }
  }

  lemma {:induction false} PlanCartFits(lots: seq<Lot>, cart: seq<CartLine>, taken: seq<int>, offline: bool)
    requires |taken| == |lots| && CartOk(cart) && PlanCart(lots, cart, taken, offline).Ok?
    ensures var plans := PlanCart(lots, cart, taken, offline).value;
            && PlansFit(lots, cart, plans)
            && (forall l: nat :: l < |lots| ==> PlansOn(plans, l) >= 0)
            && (!offline ==> forall l: nat :: l < |lots| && PlansOn(plans, l) > 0 ==>
                  lots[l].status.Active? && taken[l] + PlansOn(plans, l) <= lots[l].remaining - lots[l].reserved)
    decreases |cart|
  {
    if cart != [] {
      var p, q := cart[0].product, cart[0].quantity;
      assert LineOk(cart[0]);
      var plan := PlanLine(lots, ActiveFefo(lots, p), taken, q, offline).value;
      PlanLineFits(lots, p, taken, q, offline);
      PlanCartFits(lots, cart[1..], plan.taken, offline);
      var plans := PlanCart(lots, cart, taken, offline).value;
      assert plans[0] == plan.rows && plans[1..] == PlanCart(lots, cart[1..], plan.taken, offline).value;
      forall l: nat | l < |lots| ensures On(plan.rows, l) >= 0 { OnBounds(plan.rows, l); }
      forall i | 0 <= i < |cart|
        ensures InRange(lots, plans[i]) && Positive(plans[i]) && plans[i] != [] && Total(plans[i]) == cart[i].quantity
        ensures forall k :: 0 <= k < |plans[i]| ==>
                  lots[plans[i][k].lot].product == cart[i].product && lots[plans[i][k].lot].status.Active?
      {
        if i > 0 { assert plans[i] == plans[1..][i - 1] && cart[i] == cart[1..][i - 1]; }
      }
    }
  }

  lemma {:induction false} ItemsUnits(cart: seq<CartLine>, plans: seq<seq<Alloc>>, taxRate: nat, l: nat)
    requires |cart| == |plans|
    ensures Units(ItemsOf(cart, plans, taxRate), l) == PlansOn(plans, l)
    decreases |cart|
  {
    var items := ItemsOf(cart, plans, taxRate);
    if cart != [] {
      ItemsUnits(cart[1..], plans[1..], taxRate, l);
      assert items[1..] == ItemsOf(cart[1..], plans[1..], taxRate);
      ItemsCons(items, l);
    }
  }

  lemma NewItemsOk(shelf: Shelf, cart: seq<CartLine>, plans: seq<seq<Alloc>>, terms: StoreTerms)
    requires CartOk(cart) && |plans| == |cart| && PlansFit(shelf.lots, cart, plans) && cart != []
    requires forall i :: 0 <= i < |cart| ==> cart[i].product < |shelf.products| && LineAccepted(cart[i])
    ensures var items := ItemsOf(cart, plans, terms.taxRate);
            && ItemsOk(shelf, items) && AllSupplied(shelf, items) && !FullyRefunded(items)
            && forall i :: 0 <= i < |items| ==> items[i].parts == []
  {
    var items := ItemsOf(cart, plans, terms.taxRate);
    forall i | 0 <= i < |items|
      ensures ItemOk(shelf, items[i]) && Supplies(shelf, items[i].product, items[i].allocs)
    {
      assert LineOk(cart[i]);
      LineMoney(cart[i], terms.taxRate);
    }
    assert items[0].refundedQuantity < items[0].quantity by { assert ItemOk(shelf, items[0]); }
  }

  /** The cart can be served from free units alone: no line has to overdraw a lot. */
  predicate Servable(s: State, cart: seq<CartLine>) {
    PlanCart(s.shelf.lots, cart, ZeroTaken(|s.shelf.lots|), false).Ok?
  }

  /** An offline sale that needs no overdraft is planned like any other. */
  lemma {:induction false} OfflineSame(lots: seq<Lot>, cart: seq<CartLine>, taken: seq<int>)
    requires |taken| == |lots| && PlanCart(lots, cart, taken, false).Ok?
    ensures PlanCart(lots, cart, taken, true) == PlanCart(lots, cart, taken, false)
    decreases |cart|
  {
    if cart != [] {
      var order := ActiveFefo(lots, cart[0].product);
      OfflineSame(lots, cart[1..], PlanLine(lots, order, taken, cart[0].quantity, false).value.taken);
    }
  }

  lemma FreeForPlans(s: State, cart: seq<CartLine>, taxRate: nat)
    requires ShelfOk(s.shelf) && CartOk(cart) && Servable(s, cart)
    ensures var plans := PlanCart(s.shelf.lots, cart, ZeroTaken(|s.shelf.lots|), false).value;
            FreeFor(s.shelf, ItemsOf(cart, plans, taxRate))
  {
    var lots := s.shelf.lots;
    var plans := PlanCart(lots, cart, ZeroTaken(|lots|), false).value;
    PlanCartFits(lots, cart, ZeroTaken(|lots|), false);
    forall l: nat | l < |lots|
      ensures Units(ItemsOf(cart, plans, taxRate), l) == PlansOn(plans, l)
    {
      ItemsUnits(cart, plans, taxRate, l);
    }
  }

  /** The lines of the new sale and what taking them does to the shelf. */
  lemma NewItemsTake(s: State, cart: seq<CartLine>, plans: seq<seq<Alloc>>, terms: StoreTerms, cash: bool)
    requires ShelfOk(s.shelf) && cart != [] && CartOk(cart) && Servable(s, cart) && Price(cart, terms).Ok?
    requires plans == PlanCart(s.shelf.lots, cart, ZeroTaken(|s.shelf.lots|), false).value
    requires forall i :: 0 <= i < |cart| ==> cart[i].product < |s.shelf.products|
    ensures var items := ItemsOf(cart, plans, terms.taxRate);
            && TakeItems(s.shelf, items, cash).Ok?
            && ShelfOk(TakeItems(s.shelf, items, cash).value)
               && SaleMoved(s.shelf, TakeItems(s.shelf, items, cash).value)
            && ItemsOk(s.shelf, items) && !FullyRefunded(items)
            && (forall i :: 0 <= i < |items| ==> items[i].parts == [])
            && forall l: nat :: l < |s.shelf.lots| ==>
                 TakeItems(s.shelf, items, cash).value.lots[l] == Effect(s.shelf.lots[l], Units(items, l), cash)
  {
    var items := ItemsOf(cart, plans, terms.taxRate);
    PlanCartFits(s.shelf.lots, cart, ZeroTaken(|s.shelf.lots|), false);
    NewItemsOk(s.shelf, cart, plans, terms);
    FreeForPlans(s, cart, terms.taxRate);
    TakeItemsKeeps(s.shelf, items, cash);
  }

  /** A checkout that is neither a replay nor refused. */
  lemma CreateGranted(s: State, cart: seq<CartLine>, terms: StoreTerms, cash: bool, offline: bool,
                      key: Option<string>, now: int)
    requires CreateSale(s, cart, terms, cash, offline, key, now).Ok? && !(key.Some? && HasKey(s.sales, key.value))
    ensures cart != [] && CartOk(cart) && Price(cart, terms).Ok?
    ensures forall i :: 0 <= i < |cart| ==> cart[i].product < |s.shelf.products|
    ensures PlanCart(s.shelf.lots, cart, ZeroTaken(|s.shelf.lots|), offline).Ok?
    ensures var plans := PlanCart(s.shelf.lots, cart, ZeroTaken(|s.shelf.lots|), offline).value;
            var items := ItemsOf(cart, plans, terms.taxRate);
            TakeItems(s.shelf, items, cash).Ok?
            && CreateSale(s, cart, terms, cash, offline, key, now)
               == Ok(s.(shelf := TakeItems(s.shelf, items, cash).value,
                        sales := s.sales + [NewSale(Price(cart, terms).value, terms, items, cash, key, now)]))
  {
    hide PlanCart, Price, TakeItems, ItemsOf;
  }
}
