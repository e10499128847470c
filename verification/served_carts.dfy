/** Which carts are served, told from the lots and the quantities alone. */
module ServedCarts {
  import opened Outcome
  import opened Sums
  import opened Allocation
  import opened Lots
  import opened Fefo
  import opened Checkout
  import opened Ledger
  import opened CartPlans
  import opened Holds
  import opened OfflinePlan

  /** Units of the product on sale that nobody holds. */
  function UnheldFn(p: nat): Lot -> int {
    (lot: Lot) =>
      if lot.product == p && lot.status.Active? && lot.remaining > lot.reserved then lot.remaining - lot.reserved else 0
  }

  lemma {:induction false} FrontFree(lots: seq<Lot>, order: seq<nat>, taken: seq<int>)
    requires Ids(lots, order) && |taken| == |lots| && order != []
    ensures UpTo(Avails(lots, order, taken), |order|)
         == Free(lots, taken, order[0]) + UpTo(Avails(lots, order[1..], taken), |order| - 1)
  {
    hide Free, UpTo, Avails;
    var k := |order| - 1;
    var init := order[..k];
    UpToLast(lots, order, taken);
    if k > 0 {
      FrontFree(lots, init, taken);
      UpToLast(lots, order[1..], taken);
      assert order[1..][..k - 1] == init[1..];
    } else {
      NoneFree(lots, taken);
      assert order[1..] == [] && init == [];
    }
  }

  lemma NoneFree(lots: seq<Lot>, taken: seq<int>)
    requires |taken| == |lots|
    ensures UpTo(Avails(lots, [], taken), 0) == 0
  {
  }

  lemma UpToLast(lots: seq<Lot>, order: seq<nat>, taken: seq<int>)
    requires Ids(lots, order) && |taken| == |lots| && order != []
    ensures var k := |order| - 1;
            UpTo(Avails(lots, order, taken), k + 1)
            == UpTo(Avails(lots, order[..k], taken), k) + Free(lots, taken, order[k])
  {
    hide *;
    LastAvail(lots, order, taken);
    UpToAppend(Avails(lots, order, taken), Avails(lots, order[..|order| - 1], taken),
               Free(lots, taken, order[|order| - 1]));
  }

  lemma LastAvail(lots: seq<Lot>, order: seq<nat>, taken: seq<int>)
    requires Ids(lots, order) && |taken| == |lots| && order != []
    ensures Ids(lots, order[..|order| - 1]) && order[|order| - 1] < |lots|
    ensures var k := |order| - 1;
            Avails(lots, order, taken) == Avails(lots, order[..k], taken) + [Free(lots, taken, order[k])]
  {
    hide Free;
  }

  lemma UpToAppend(all: seq<int>, init: seq<int>, x: int)
    requires all == init + [x]
    ensures UpTo(all, |init| + 1) == UpTo(init, |init|) + x
  {
    SamePrefix(all, init, |init|);
  }

  lemma {:induction false} InsertFree(lots: seq<Lot>, order: seq<nat>, l: nat, taken: seq<int>)
    requires Ids(lots, order) && l < |lots| == |taken|
    ensures |Insert(lots, order, l)| == |order| + 1
    ensures UpTo(Avails(lots, Insert(lots, order, l), taken), |order| + 1)
         == Free(lots, taken, l) + UpTo(Avails(lots, order, taken), |order|)
  {
    hide Avails, UpTo, Free, Before;
    if order == [] || Before(lots, l, order[0]) {
      assert ([l] + order)[1..] == order;
      FrontFree(lots, [l] + order, taken);
    } else {
      var rest := Insert(lots, order[1..], l);
      InsertFree(lots, order[1..], l, taken);
      FrontFree(lots, order, taken);
      assert ([order[0]] + rest)[1..] == rest;
      FrontFree(lots, [order[0]] + rest, taken);
    }
  }

  lemma {:induction false} FreeUpTo(lots: seq<Lot>, p: nat, n: nat)
    requires n <= |lots|
    ensures var order := ActiveUpTo(lots, p, n);
            UpTo(Avails(lots, order, ZeroTaken(|lots|)), |order|) == Sum(lots[..n], UnheldFn(p))
  {
    if n > 0 {
      FreeUpTo(lots, p, n - 1);
      assert lots[..n][..n - 1] == lots[..n - 1];
      hide Avails, UpTo, Insert;
      if lots[n - 1].status.Active? && lots[n - 1].product == p {
        InsertFree(lots, ActiveUpTo(lots, p, n - 1), n - 1, ZeroTaken(|lots|));
      }
    }
  }

  /** What the planner finds free at the start. */
  lemma FreeIsUnheld(lots: seq<Lot>, p: nat)
    ensures FreeUnits(lots, p, ZeroTaken(|lots|)) == Sum(lots, UnheldFn(p))
  {
    FreeUpTo(lots, p, |lots|);
    assert lots[..|lots|] == lots;
  }

  // ---- Sales that may not overdraw ----

  /** The lines of each product between them ask for no more than is free of it. */
  predicate Covered(lots: seq<Lot>, cart: seq<CartLine>, taken: seq<int>)
    requires |taken| == |lots|
  {
    forall i :: 0 <= i < |cart| ==>
      Ahead(cart, i, cart[i].product) + cart[i].quantity <= FreeUnits(lots, cart[i].product, taken)
  }

  lemma FreeAfterSale(lots: seq<Lot>, p: nat, taken: seq<int>, q: int, r: nat)
    requires |taken| == |lots| && q > 0 && PlanLine(lots, ActiveFefo(lots, p), taken, q, false).Ok?
    ensures var next := PlanLine(lots, ActiveFefo(lots, p), taken, q, false).value.taken;
            && |next| == |lots|
            && FreeUnits(lots, r, next) == FreeUnits(lots, r, taken) - (if r == p then q else 0)
  {
    var order := ActiveFefo(lots, p);
    assert PlanLine(lots, order, taken, q, true) == PlanLine(lots, order, taken, q, false);
    FreeAfterLine(lots, p, taken, q, r);
    hide ActiveFefo, Avails, TakesOverdrawn, RowsTo, TakenAfter;
  }

  lemma RestCovered(lots: seq<Lot>, cart: seq<CartLine>, taken: seq<int>, next: seq<int>)
    requires |taken| == |lots| == |next| && CartOk(cart) && cart != []
    requires forall r: nat :: FreeUnits(lots, r, next)
               == FreeUnits(lots, r, taken) - (if r == cart[0].product then cart[0].quantity else 0)
    requires cart[0].quantity <= FreeUnits(lots, cart[0].product, taken)
    ensures Covered(lots, cart[1..], next) <==> Covered(lots, cart, taken)
  {
    hide FreeUnits, Ahead;
    assert Ahead(cart, 0, cart[0].product) == 0 by { NothingAhead(cart, cart[0].product); }
    forall i: nat | i < |cart[1..]|
      ensures Ahead(cart, i + 1, cart[i + 1].product)
           == Ahead(cart[1..], i, cart[1..][i].product) + QuantityFn(cart[i + 1].product)(cart[0])
    {
      AheadCons(cart, i + 1, cart[i + 1].product);
    }
    if Covered(lots, cart[1..], next) {
      forall i | 0 <= i < |cart|
        ensures Ahead(cart, i, cart[i].product) + cart[i].quantity <= FreeUnits(lots, cart[i].product, taken)
      {
        if i > 0 { assert cart[1..][i - 1] == cart[i]; }
      }
    }
    if Covered(lots, cart, taken) {
      forall i | 0 <= i < |cart[1..]|
        ensures Ahead(cart[1..], i, cart[1..][i].product) + cart[1..][i].quantity
                  <= FreeUnits(lots, cart[1..][i].product, next)
      {
        assert cart[1..][i] == cart[i + 1];
      }
    }
  }

  lemma NothingAhead(cart: seq<CartLine>, p: nat)
    ensures Ahead(cart, 0, p) == 0
  {
    assert cart[..0] == [];
  }

  lemma FirstPlanned(lots: seq<Lot>, cart: seq<CartLine>, taken: seq<int>)
    requires |taken| == |lots| && cart != [] && cart[0].quantity > 0
    ensures var line := PlanLine(lots, ActiveFefo(lots, cart[0].product), taken, cart[0].quantity, false);
            && (line.Ok? <==> cart[0].quantity <= FreeUnits(lots, cart[0].product, taken))
            && (line.Err? ==> PlanCart(lots, cart, taken, false) == Err(409))
            && (line.Ok? ==>
                  && |line.value.taken| == |lots|
                  && var rest := PlanCart(lots, cart[1..], line.value.taken, false);
                     && (PlanCart(lots, cart, taken, false).Ok? <==> rest.Ok?)
                     && (PlanCart(lots, cart, taken, false).Err? ==> PlanCart(lots, cart, taken, false) == rest))
  {
    var order := ActiveFefo(lots, cart[0].product);
    assert order == [] ==> UpTo(Avails(lots, order, taken), |order|) == 0;
    hide ActiveFefo, Blocked, Avails, UpTo, TakesOverdrawn, RowsTo, TakenAfter;
  }

  lemma {:induction false} PlannedIfCovered(lots: seq<Lot>, cart: seq<CartLine>, taken: seq<int>)
    requires |taken| == |lots| && CartOk(cart)
    ensures PlanCart(lots, cart, taken, false).Ok? <==> Covered(lots, cart, taken)
    ensures PlanCart(lots, cart, taken, false).Err? ==> PlanCart(lots, cart, taken, false) == Err(409)
    decreases |cart|
  {
    if cart != [] {
      assert LineOk(cart[0]);
      var p, q := cart[0].product, cart[0].quantity;
      NothingAhead(cart, p);
      FirstPlanned(lots, cart, taken);
      hide PlanCart, PlanLine, FreeUnits, Ahead, ActiveFefo;
      if q <= FreeUnits(lots, p, taken) {
        var next := PlanLine(lots, ActiveFefo(lots, p), taken, q, false).value.taken;
        forall r: nat
          ensures FreeUnits(lots, r, next) == FreeUnits(lots, r, taken) - (if r == p then q else 0)
        {
          FreeAfterSale(lots, p, taken, q, r);
        }
        PlannedIfCovered(lots, cart[1..], next);
        RestCovered(lots, cart, taken, next);
      }
    }
  }

  lemma AheadNext(cart: seq<CartLine>, i: nat, p: nat)
    requires i < |cart|
    ensures Ahead(cart, i + 1, p) == Ahead(cart, i, p) + (if cart[i].product == p then cart[i].quantity else 0)
  {
    assert cart[..i + 1][..i] == cart[..i];
  }

  lemma {:induction false} AheadGrows(cart: seq<CartLine>, i: nat, j: nat, p: nat)
    requires CartOk(cart) && i <= j <= |cart|
    ensures Ahead(cart, i, p) <= Ahead(cart, j, p)
    decreases j
  {
    if i < j {
      AheadGrows(cart, i, j - 1, p);
      AheadNext(cart, j - 1, p);
      assert LineOk(cart[j - 1]);
    }
  }

  /** The last line of the product carries its whole demand. */
  lemma {:induction false} LastLineOf(cart: seq<CartLine>, p: nat, n: nat) returns (i: nat)
    requires n <= |cart| && exists k :: 0 <= k < n && cart[k].product == p
    ensures i < n && cart[i].product == p && Ahead(cart, n, p) == Ahead(cart, i, p) + cart[i].quantity
  {
    AheadNext(cart, n - 1, p);
    if cart[n - 1].product == p { i := n - 1; } else { i := LastLineOf(cart, p, n - 1); }
  }

  lemma DemandOf(cart: seq<CartLine>, i: nat)
    requires CartOk(cart) && i < |cart|
    ensures Ahead(cart, i, cart[i].product) + cart[i].quantity <= Sum(cart, QuantityFn(cart[i].product))
  {
    AheadNext(cart, i, cart[i].product);
    AheadGrows(cart, i + 1, |cart|, cart[i].product);
    assert cart[..|cart|] == cart;
  }

  lemma CoversDemand(lots: seq<Lot>, cart: seq<CartLine>, i: nat)
    requires Covered(lots, cart, ZeroTaken(|lots|)) && i < |cart|
    ensures Sum(cart, QuantityFn(cart[i].product)) <= Sum(lots, UnheldFn(cart[i].product))
  {
    var p := cart[i].product;
    var k := LastLineOf(cart, p, |cart|);
    FreeIsUnheld(lots, p);
    assert cart[..|cart|] == cart;
    hide FreeUnits, UnheldFn, QuantityFn, Sum;
  }

  /** The lines of each product together ask for no more than its ACTIVE lots have beyond what customers hold. */
  predicate Served(lots: seq<Lot>, cart: seq<CartLine>) {
    forall i :: 0 <= i < |cart| ==>
      Sum(cart, QuantityFn(cart[i].product)) <= Sum(lots, UnheldFn(cart[i].product))
  }

  lemma CoveredIsServed(lots: seq<Lot>, cart: seq<CartLine>)
    requires Covered(lots, cart, ZeroTaken(|lots|))
    ensures Served(lots, cart)
  {
    forall i | 0 <= i < |cart|
      ensures Sum(cart, QuantityFn(cart[i].product)) <= Sum(lots, UnheldFn(cart[i].product))
    {
      hide *;
      CoversDemand(lots, cart, i);
    }
  }

  lemma LineFits(lots: seq<Lot>, cart: seq<CartLine>, i: nat)
    requires CartOk(cart) && i < |cart|
    requires Sum(cart, QuantityFn(cart[i].product)) <= Sum(lots, UnheldFn(cart[i].product))
    ensures Ahead(cart, i, cart[i].product) + cart[i].quantity
            <= FreeUnits(lots, cart[i].product, ZeroTaken(|lots|))
  {
    hide *;
    DemandOf(cart, i);
    FreeIsUnheld(lots, cart[i].product);
  }

  lemma ServedIsCovered(lots: seq<Lot>, cart: seq<CartLine>)
    requires CartOk(cart) && Served(lots, cart)
    ensures Covered(lots, cart, ZeroTaken(|lots|))
  {
    forall i | 0 <= i < |cart|
      ensures Ahead(cart, i, cart[i].product) + cart[i].quantity
              <= FreeUnits(lots, cart[i].product, ZeroTaken(|lots|))
    {
      assert Sum(cart, QuantityFn(cart[i].product)) <= Sum(lots, UnheldFn(cart[i].product));
      hide *;
      LineFits(lots, cart, i);
    }
  }

  /** A cart that may not overdraw is planned exactly when the shelf can serve it. Else it is refused with 409. */
  lemma OnlineServed(lots: seq<Lot>, cart: seq<CartLine>)
    requires CartOk(cart)
    ensures var r := PlanCart(lots, cart, ZeroTaken(|lots|), false);
            (r.Ok? <==> Served(lots, cart)) && (r.Err? ==> r == Err(409))
  {
    hide *;
    PlannedIfCovered(lots, cart, ZeroTaken(|lots|));
    if Covered(lots, cart, ZeroTaken(|lots|)) { CoveredIsServed(lots, cart); }
    if Served(lots, cart) { ServedIsCovered(lots, cart); }
  }

  // ---- Sales that may ----

  lemma ServedOnLots(lots: seq<Lot>, cart: seq<CartLine>, i: nat)
    requires i < |cart|
    ensures var p := cart[i].product;
            LineServed(lots, cart, ZeroTaken(|lots|), i) <==>
              && (exists l :: 0 <= l < |lots| && lots[l].product == p && lots[l].status.Active?)
              && ((exists l :: 0 <= l < |lots| && lots[l].product == p && lots[l].remaining > 0
                        && (lots[l].status.Quarantined? || lots[l].status.Recalled?)) ==>
                    Ahead(cart, i, p) < Sum(lots, UnheldFn(p)))
  {
    hide FreeUnits, UnheldFn, Ahead, Overdrawable;
    FreeIsUnheld(lots, cart[i].product);
    OverdrawableOnLots(lots, cart[i].product);
  }

  /** An offline cart is planned exactly when every product of it has an ACTIVE lot, and, where units of the
      product are in quarantine or recalled, the lines before have not used up what nobody holds. */
  lemma OfflineServedOnLots(lots: seq<Lot>, cart: seq<CartLine>)
    requires CartOk(cart)
    ensures PlanCart(lots, cart, ZeroTaken(|lots|), true).Ok? <==>
              forall i: nat :: i < |cart| ==>
                var p := cart[i].product;
                && (exists l :: 0 <= l < |lots| && lots[l].product == p && lots[l].status.Active?)
                && ((exists l :: 0 <= l < |lots| && lots[l].product == p && lots[l].remaining > 0
                          && (lots[l].status.Quarantined? || lots[l].status.Recalled?)) ==>
                      Ahead(cart, i, p) < Sum(lots, UnheldFn(p)))
  {
    hide *;
    OfflineServed(lots, cart, ZeroTaken(|lots|));
    forall i: nat | i < |cart|
      ensures LineServed(lots, cart, ZeroTaken(|lots|), i) <==>
                var p := cart[i].product;
                && (exists l :: 0 <= l < |lots| && lots[l].product == p && lots[l].status.Active?)
                && ((exists l :: 0 <= l < |lots| && lots[l].product == p && lots[l].remaining > 0
                          && (lots[l].status.Quarantined? || lots[l].status.Recalled?)) ==>
                      Ahead(cart, i, p) < Sum(lots, UnheldFn(p)))
    {
      ServedOnLots(lots, cart, i);
    }
  }

  lemma OverdrawableOnLots(lots: seq<Lot>, p: nat)
    ensures Overdrawable(lots, p) <==> exists l :: 0 <= l < |lots| && lots[l].product == p && lots[l].status.Active?
  {
    ActiveFefoSpec(lots, p);
    if Overdrawable(lots, p) {
      assert ActiveFefo(lots, p)[0] in ActiveFefo(lots, p);
    }
    if l :| 0 <= l < |lots| && lots[l].product == p && lots[l].status.Active? {
      assert l in ActiveFefo(lots, p);
    }
  }

  // ---- The answer ----

  /** The whole answer to a checkout that is not synced from an outage: 400 for no lines or unfit ones, the
      sale itself for a key that has one, 404 for a product that is not there, 409 for units that are not
      free, 400 for money that does not add up, and else a sale. */
  lemma CheckoutAnswer(s: State, cart: seq<CartLine>, terms: StoreTerms, cash: bool, key: Option<string>, now: int)
    ensures var r := CreateSale(s, cart, terms, cash, false, key, now);
            if cart == [] then r == Err(400)
            else if key.Some? && exists i :: 0 <= i < |s.sales| && s.sales[i].key == key then r == Ok(s)
            else if exists i :: 0 <= i < |cart| && (cart[i].quantity <= 0 || cart[i].price < 0 || cart[i].benefit < 0
                        || cart[i].manual < 0)
            then r == Err(400)
            else if exists i :: 0 <= i < |cart| && cart[i].product >= |s.shelf.products| then r == Err(404)
            else if !Served(s.shelf.lots, cart) then r == Err(409)
            else if Price(cart, terms).Err? then r == Err(400)
            else r.Ok? && |r.value.sales| == |s.sales| + 1
  {
    Guards(s, cart, terms, cash, key, now);
    hide Served, CreateSale, PlanCart, Price;
    if CartOk(cart) {
      OnlineServed(s.shelf.lots, cart);
      if cart != [] && !(key.Some? && HasKey(s.sales, key.value))
         && (forall i :: 0 <= i < |cart| ==> cart[i].product < |s.shelf.products|)
         && Served(s.shelf.lots, cart) && Price(cart, terms).Ok?
      {
        CheckoutGoes(s, cart, terms, cash, false, key, now);
        CreateGranted(s, cart, terms, cash, false, key, now);
      }
    }
  }

  /** One synced from an outage must be cash and carry a key; then only the plan differs. */
  lemma OutageAnswer(s: State, cart: seq<CartLine>, terms: StoreTerms, cash: bool, key: Option<string>, now: int)
    ensures var r := CreateSale(s, cart, terms, cash, true, key, now);
            if cart == [] || !cash || key.None? then r == Err(400)
            else if exists i :: 0 <= i < |s.sales| && s.sales[i].key == key then r == Ok(s)
            else if exists i :: 0 <= i < |cart| && (cart[i].quantity <= 0 || cart[i].price < 0 || cart[i].benefit < 0
                        || cart[i].manual < 0)
            then r == Err(400)
            else if exists i :: 0 <= i < |cart| && cart[i].product >= |s.shelf.products| then r == Err(404)
            else match PlanCart(s.shelf.lots, cart, ZeroTaken(|s.shelf.lots|), true)
                 case Err(e) => r == Err(e)
                 case Ok(_) =>
                   if Price(cart, terms).Err? then r == Err(400) else r.Ok? && |r.value.sales| == |s.sales| + 1
  {
    hide PlanCart, Price, TakeItems;
    if cart != [] && cash && key.Some? && !HasKey(s.sales, key.value) && CartOk(cart)
       && (forall i :: 0 <= i < |cart| ==> cart[i].product < |s.shelf.products|)
       && PlanCart(s.shelf.lots, cart, ZeroTaken(|s.shelf.lots|), true).Ok? && Price(cart, terms).Ok?
    {
      CheckoutGoes(s, cart, terms, cash, true, key, now);
      CreateGranted(s, cart, terms, cash, true, key, now);
    }
    PriceRefused(cart, terms);
  }

  lemma PriceRefused(cart: seq<CartLine>, terms: StoreTerms)
    ensures Price(cart, terms).Err? ==> Price(cart, terms) == Err(400)
  {
  }

  lemma Guards(s: State, cart: seq<CartLine>, terms: StoreTerms, cash: bool, key: Option<string>, now: int)
    ensures var r := CreateSale(s, cart, terms, cash, false, key, now);
            if cart == [] then r == Err(400)
            else if key.Some? && HasKey(s.sales, key.value) then r == Ok(s)
            else if !CartOk(cart) then r == Err(400)
            else if exists i :: 0 <= i < |cart| && cart[i].product >= |s.shelf.products| then r == Err(404)
            else match PlanCart(s.shelf.lots, cart, ZeroTaken(|s.shelf.lots|), false)
                 case Err(e) => r == Err(e)
                 case Ok(_) => Price(cart, terms).Err? ==> r == Err(400)
  {
  }
}
