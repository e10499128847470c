/** How the server plans the lines of an offline cart, however short the shelf: which carts it plans at all,
    and how many units each lot gives. Neither depends on how the demand is spread over lines. */
module OfflinePlan {
  import opened Outcome
  import opened Sums
  import opened Allocation
  import opened Lots
  import opened Fefo
  import opened Checkout
  import opened Ledger
  import opened CartPlans

  // ---- Which carts are planned ----

  predicate Overdrawable(lots: seq<Lot>, p: nat) { ActiveFefo(lots, p) != [] }

  /** Units of the product still free once what is `taken` for earlier lines is set aside. */
  function FreeUnits(lots: seq<Lot>, p: nat, taken: seq<int>): int
    requires |taken| == |lots|
  {
    UpTo(Avails(lots, ActiveFefo(lots, p), taken), |ActiveFefo(lots, p)|)
  }

  lemma {:induction false} AvailsSame(lots: seq<Lot>, order: seq<nat>, a: seq<int>, b: seq<int>)
    requires Ids(lots, order) && |a| == |b| == |lots|
    requires forall i :: 0 <= i < |order| ==> a[order[i]] == b[order[i]]
    ensures Avails(lots, order, a) == Avails(lots, order, b)
  {
    if order != [] { AvailsSame(lots, order[..|order| - 1], a, b); }
  }

  /** An offline line leaves what was free of its product less its quantity, and other products alone. */
  lemma FreeAfterLine(lots: seq<Lot>, p: nat, taken: seq<int>, q: int, r: nat)
    requires |taken| == |lots| && q > 0 && Overdrawable(lots, p)
    ensures var plan := PlanLine(lots, ActiveFefo(lots, p), taken, q, true);
            && plan.Ok? && |plan.value.taken| == |lots| && FreeUnits(lots, r, taken) >= 0
            && FreeUnits(lots, r, plan.value.taken)
               == if r == p then Max0(FreeUnits(lots, p, taken) - q) else FreeUnits(lots, r, taken)
  {
    var order, other := ActiveFefo(lots, p), ActiveFefo(lots, r);
    ActiveFefoSpec(lots, p);
    ActiveFefoSpec(lots, r);
    var plan := PlanLine(lots, order, taken, q, true).value;
    var avail := Avails(lots, order, taken);
    UpToMono(Avails(lots, other, taken), 0, |other|);
    hide ActiveFefo, InOrder, TakesOverdrawn, Takes, Minus;
    if r == p {
      AvailsAfter(lots, order, taken, q, true);
      OverdrawnLeaves(avail, q);
      MinusPrefix(avail, q, |order|);
    } else {
      forall i | 0 <= i < |other| ensures plan.taken[other[i]] == taken[other[i]] {
        assert other[i] in other;
        PlanTakes(lots, order, taken, q, true, other[i]);
      }
      AvailsSame(lots, other, plan.taken, taken);
    }
  }

  function QuantityFn(p: nat): CartLine -> int { (line: CartLine) => if line.product == p then line.quantity else 0 }

  /** Units of the product on the lines before line `i`. */
  function Ahead(cart: seq<CartLine>, i: nat, p: nat): int
    requires i <= |cart|
  {
    Sum(cart[..i], QuantityFn(p))
  }

  lemma AheadCons(cart: seq<CartLine>, i: nat, p: nat)
    requires 0 < i <= |cart| && CartOk(cart)
    ensures Ahead(cart, i, p) == QuantityFn(p)(cart[0]) + Ahead(cart[1..], i - 1, p)
    ensures Ahead(cart[1..], i - 1, p) >= 0
  {
    var front := cart[1..][..i - 1];
    assert cart[..i] == [cart[0]] + front;
    SumConcat([cart[0]], front, QuantityFn(p));
    SumSingleton(cart[0], QuantityFn(p));
    forall k | 0 <= k < |front| ensures QuantityFn(p)(front[k]) >= 0 {
      assert front[k] == cart[k + 1] && LineOk(cart[k + 1]);
    }
    SumNonNeg(front, QuantityFn(p));
  }

  /** A line is served when its product has an ACTIVE lot to overdraw, and, while stock of the product
      is quarantined or recalled, when the lines before it have left at least one unit free. */
  predicate LineServed(lots: seq<Lot>, cart: seq<CartLine>, taken: seq<int>, i: nat)
    requires i < |cart| && |taken| == |lots|
  {
    var p := cart[i].product;
    Overdrawable(lots, p) && (Blocked(lots, p) ==> Ahead(cart, i, p) < FreeUnits(lots, p, taken))
  }

  lemma FirstServed(lots: seq<Lot>, cart: seq<CartLine>, taken: seq<int>)
    requires |taken| == |lots| && cart != [] && cart[0].quantity > 0
    ensures !LineServed(lots, cart, taken, 0) ==> PlanCart(lots, cart, taken, true) == Err(409)
    ensures LineServed(lots, cart, taken, 0) ==>
              var plan := PlanLine(lots, ActiveFefo(lots, cart[0].product), taken, cart[0].quantity, true);
              plan.Ok? && |plan.value.taken| == |lots|
              && match PlanCart(lots, cart[1..], plan.value.taken, true)
                 case Ok(_) => PlanCart(lots, cart, taken, true).Ok?
                 case Err(e) => PlanCart(lots, cart, taken, true) == Err(e)
  {
    var p := cart[0].product;
    assert Ahead(cart, 0, p) == 0;
    if Overdrawable(lots, p) { FreeAfterLine(lots, p, taken, cart[0].quantity, p); }
    hide ActiveFefo, Blocked, Avails, UpTo, TakesOverdrawn, RowsTo, TakenAfter;
  }

  lemma RestServed(lots: seq<Lot>, cart: seq<CartLine>, taken: seq<int>, next: seq<int>, i: nat)
    requires |taken| == |lots| == |next| && CartOk(cart) && i + 1 < |cart|
    requires forall r: nat :: FreeUnits(lots, r, next)
               == if r == cart[0].product then Max0(FreeUnits(lots, r, taken) - cart[0].quantity)
                 else FreeUnits(lots, r, taken)
    ensures LineServed(lots, cart[1..], next, i) <==> LineServed(lots, cart, taken, i + 1)
  {
    AheadCons(cart, i + 1, cart[i + 1].product);
    assert cart[1..][i] == cart[i + 1];
    hide FreeUnits, Blocked, Overdrawable, Ahead;
  }

  /** When a queued sale can be planned, however short the shelf: exactly when each of its lines is
      served. The service's own account says a queued sale is never turned away. */
  lemma {:induction false} OfflineServed(lots: seq<Lot>, cart: seq<CartLine>, taken: seq<int>)
    requires |taken| == |lots| && CartOk(cart)
    ensures PlanCart(lots, cart, taken, true).Ok? <==> forall i: nat :: i < |cart| ==> LineServed(lots, cart, taken, i)
    ensures PlanCart(lots, cart, taken, true).Err? ==> PlanCart(lots, cart, taken, true).status == 409
    decreases |cart|
  {
    if cart != [] {
      var p, q, rest := cart[0].product, cart[0].quantity, cart[1..];
      assert LineOk(cart[0]);
      FirstServed(lots, cart, taken);
      if LineServed(lots, cart, taken, 0) {
        var next := PlanLine(lots, ActiveFefo(lots, p), taken, q, true).value.taken;
        forall r: nat
          ensures FreeUnits(lots, r, next)
               == if r == p then Max0(FreeUnits(lots, r, taken) - q) else FreeUnits(lots, r, taken)
        {
          FreeAfterLine(lots, p, taken, q, r);
        }
        hide PlanCart, PlanLine, LineServed, FreeUnits;
        forall i: nat | i < |rest| ensures LineServed(lots, rest, next, i) <==> LineServed(lots, cart, taken, i + 1) {
          RestServed(lots, cart, taken, next, i);
        }
        OfflineServed(lots, rest, next);
        assert forall i: nat :: 0 < i < |cart| ==>
               (LineServed(lots, rest, next, i - 1) <==> LineServed(lots, cart, taken, i));
      }
    }
  }

  /** A lot to overdraw is not enough: two units on the shelf, both held, and five in quarantine turn a
      queued sale of one unit away. */
  lemma QuarantineTurnsAway(price: nat, expiry: Option<int>)
    ensures var lots := [Lot(0, 2, 2, Active, expiry, 0), Lot(0, 5, 0, Quarantined, expiry, 0)];
            && Overdrawable(lots, 0)
            && PlanCart(lots, [CartLine(0, 1, price, false, 0, 0)], ZeroTaken(2), true) == Err(409)
  {
    var held, kept := Lot(0, 2, 2, Active, expiry, 0), Lot(0, 5, 0, Quarantined, expiry, 0);
    var lots, cart := [held, kept], [CartLine(0, 1, price, false, 0, 0)];
    assert ActiveUpTo(lots, 0, 0) == [] && ActiveUpTo(lots, 0, 1) == [0];
    assert ActiveFefo(lots, 0) == ActiveUpTo(lots, 0, 1);
    AvailsAt(lots, [0], ZeroTaken(2), 0);
    var avail := Avails(lots, [0], ZeroTaken(2));
    assert UpTo(avail, 1) == UpTo(avail, 0) + avail[0] == 0;
    assert Blocked(lots, 0) by { assert lots[1] == kept; }
    assert cart[..0] == [];
    FirstServed(lots, cart, ZeroTaken(2));
  }

  // ---- How much each lot gives ----

  lemma NothingTaken(avail: seq<int>, i: nat)
    requires NonNeg(avail) && i < |avail|
    ensures TakesOverdrawn(avail, 0)[i] == 0
  {
    TakesAt(avail, 0, i);
    UpToMono(avail, i, i + 1);
    UpToMono(avail, 0, |avail|);
  }

  /** What one line takes of a lot in the order of product `r`, and what it leaves free there. */
  lemma LineTakes(lots: seq<Lot>, p: nat, taken: seq<int>, q: int, r: nat, i: nat)
    requires |taken| == |lots| && q > 0 && Overdrawable(lots, p) && i < |ActiveFefo(lots, r)|
    ensures var plan := PlanLine(lots, ActiveFefo(lots, p), taken, q, true);
            var order := ActiveFefo(lots, r);
            var avail := Avails(lots, order, taken);
            && plan.Ok? && |plan.value.taken| == |lots|
            && (r == p ==>
                  && On(plan.value.rows, order[i]) == TakesOverdrawn(avail, q)[i]
                  && Avails(lots, order, plan.value.taken) == Minus(avail, TakesOverdrawn(avail, q)))
            && (r != p ==>
                  On(plan.value.rows, order[i]) == 0 && Avails(lots, order, plan.value.taken) == avail)
  {
    var order, other := ActiveFefo(lots, p), ActiveFefo(lots, r);
    ActiveFefoSpec(lots, p);
    ActiveFefoSpec(lots, r);
    PlanLineExact(lots, order, taken, q, true);
    var plan := PlanLine(lots, order, taken, q, true).value;
    hide ActiveFefo, InOrder, TakesOverdrawn, Takes, Minus, PlanLine;
    assert other[i] in other;
    PlanTakes(lots, order, taken, q, true, other[i]);
    if r == p {
      AvailsAfter(lots, order, taken, q, true);
    } else {
      forall k | 0 <= k < |other| ensures plan.taken[other[k]] == taken[other[k]] {
        assert other[k] in other;
        PlanTakes(lots, order, taken, q, true, other[k]);
      }
      AvailsSame(lots, other, plan.taken, taken);
    }
  }

  lemma FirstThenRest(lots: seq<Lot>, cart: seq<CartLine>, taken: seq<int>, j: nat, l: nat)
    requires |taken| == |lots| && CartOk(cart) && PlanCart(lots, cart, taken, true).Ok? && 0 < j <= |cart|
    ensures cart[0].quantity > 0 && Overdrawable(lots, cart[0].product) && CartOk(cart[1..])
    ensures var plan := PlanLine(lots, ActiveFefo(lots, cart[0].product), taken, cart[0].quantity, true);
            && plan.Ok? && |plan.value.taken| == |lots| && PlanCart(lots, cart[1..], plan.value.taken, true).Ok?
            && PlansOn(PlanCart(lots, cart, taken, true).value[..j], l)
               == On(plan.value.rows, l)
                  + PlansOn(PlanCart(lots, cart[1..], plan.value.taken, true).value[..j - 1], l)
  {
    assert LineOk(cart[0]);
    FirstServed(lots, cart, taken);
    var plans := PlanCart(lots, cart, taken, true).value;
    var plan := PlanLine(lots, ActiveFefo(lots, cart[0].product), taken, cart[0].quantity, true).value;
    assert plans[0] == plan.rows && plans[1..] == PlanCart(lots, cart[1..], plan.taken, true).value;
    assert plans[..j][0] == plan.rows && plans[..j][1..] == plans[1..][..j - 1];
    hide PlanCart, PlanLine, ActiveFefo;
  }

  lemma NoLinesTake(lots: seq<Lot>, cart: seq<CartLine>, taken: seq<int>, p: nat, i: nat)
    requires |taken| == |lots| && PlanCart(lots, cart, taken, true).Ok? && i < |ActiveFefo(lots, p)|
    ensures Ahead(cart, 0, p) == 0 && PlansOn(PlanCart(lots, cart, taken, true).value[..0], ActiveFefo(lots, p)[i]) == 0
    ensures TakesOverdrawn(Avails(lots, ActiveFefo(lots, p), taken), 0)[i] == 0
  {
    NothingTaken(Avails(lots, ActiveFefo(lots, p), taken), i);
    hide PlanCart, ActiveFefo, TakesOverdrawn;
    assert cart[..0] == [] && PlanCart(lots, cart, taken, true).value[..0] == [];
  }

  /** One line, and then lines that take `more` in all. */
  lemma LineAndMore(lots: seq<Lot>, line: CartLine, taken: seq<int>, more: int, p: nat, i: nat)
    requires |taken| == |lots| && line.quantity > 0 && Overdrawable(lots, line.product) && more >= 0
    requires i < |ActiveFefo(lots, p)|
    ensures var plan := PlanLine(lots, ActiveFefo(lots, line.product), taken, line.quantity, true);
            var order := ActiveFefo(lots, p);
            && plan.Ok? && |plan.value.taken| == |lots|
            && On(plan.value.rows, order[i]) + TakesOverdrawn(Avails(lots, order, plan.value.taken), more)[i]
               == TakesOverdrawn(Avails(lots, order, taken), QuantityFn(p)(line) + more)[i]
  {
    LineTakes(lots, line.product, taken, line.quantity, p, i);
    hide PlanLine, Avails, ActiveFefo, TakesOverdrawn, Minus;
    if line.product == p {
      TwoOverdrawnLinesAreOne(Avails(lots, ActiveFefo(lots, p), taken), line.quantity, more, i);
    }
  }

  /** The first lines of a planned cart take of each lot what one line for their whole demand would. */
  lemma {:induction false} CartTakes(lots: seq<Lot>, cart: seq<CartLine>, taken: seq<int>, j: nat, p: nat, i: nat)
    requires |taken| == |lots| && CartOk(cart) && PlanCart(lots, cart, taken, true).Ok?
    requires j <= |cart| && i < |ActiveFefo(lots, p)|
    ensures Ahead(cart, j, p) >= 0
    ensures PlansOn(PlanCart(lots, cart, taken, true).value[..j], ActiveFefo(lots, p)[i])
         == TakesOverdrawn(Avails(lots, ActiveFefo(lots, p), taken), Ahead(cart, j, p))[i]
    decreases |cart|
  {
    hide *;
    if j == 0 {
      NoLinesTake(lots, cart, taken, p, i);
    } else {
      FirstThenRest(lots, cart, taken, j, ActiveFefo(lots, p)[i]);
      var plan := PlanLine(lots, ActiveFefo(lots, cart[0].product), taken, cart[0].quantity, true).value;
      CartTakes(lots, cart[1..], plan.taken, j - 1, p, i);
      AheadCons(cart, j, p);
      QuantityIs(cart[0], p);
      LineAndMore(lots, cart[0], taken, Ahead(cart[1..], j - 1, p), p, i);
    }
  }

  lemma QuantityIs(line: CartLine, p: nat)
    ensures QuantityFn(p)(line) == if line.product == p then line.quantity else 0
  {
  }

  /** Demand reaches the last lot when the others have given all that is free on them, and then stays
      with it; no other lot gives more than that. */
  lemma LotShare(avail: seq<int>, d: int, i: nat)
    requires NonNeg(avail) && d >= 0 && i < |avail|
    ensures i < |avail| - 1 ==> 0 <= TakesOverdrawn(avail, d)[i] <= avail[i]
    ensures i == |avail| - 1 ==> TakesOverdrawn(avail, d)[i] == Max0(d - UpTo(avail, i))
  {
    TakesBounds(avail, d, i);
    TakesAt(avail, d, i);
    UpToMono(avail, i, i + 1);
  }
}
