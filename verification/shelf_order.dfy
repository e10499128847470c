/** What first expired, first out means for the lots of a sale, told from the dates on the lots. */
module ShelfOrder {
  import opened Outcome
  import opened Sums
  import opened Allocation
  import opened Lots
  import opened Fefo
  import opened Checkout
  import opened Ledger
  import opened LedgerInvariant
  import opened SaleSteps
  import opened CartPlans
  import Locks

  /** A lot that gives anything leaves nothing free on the lots before it. */
  lemma EarlierDrained(avail: seq<int>, q: int, x: nat, y: nat)
    requires NonNeg(avail) && q > 0 && x < y < |avail| && TakesOverdrawn(avail, q)[y] > 0
    ensures TakesOverdrawn(avail, q)[x] == avail[x]
  {
    TakesAt(avail, q, x);
    TakesAt(avail, q, y);
    UpToMono(avail, x, x + 1);
    UpToMono(avail, x + 1, y);
    UpToMono(avail, y, y + 1);
    UpToMono(avail, y + 1, |avail|);
  }

  /** The lots of one line, by their place in the order. */
  lemma LineDrains(lots: seq<Lot>, order: seq<nat>, taken: seq<int>, q: int, offline: bool, x: nat, y: nat)
    requires Ids(lots, order) && Distinct(order) && |taken| == |lots| && q > 0 && x < y < |order|
    requires PlanLine(lots, order, taken, q, offline).Ok?
    requires On(PlanLine(lots, order, taken, q, offline).value.rows, order[y]) > 0
    ensures On(PlanLine(lots, order, taken, q, offline).value.rows, order[x]) == Free(lots, taken, order[x])
  {
    var avail := Avails(lots, order, taken);
    var takes := TakesOverdrawn(avail, q);
    OverdrawnNonNeg(avail, q);
    RowsOn(order, takes, |order|, order[x]);
    RowsOn(order, takes, |order|, order[y]);
    EarlierDrained(avail, q, x, y);
    AvailsAt(lots, order, taken, x);
  }

  lemma LineTakesOldest(lots: seq<Lot>, p: nat, taken: seq<int>, q: int, offline: bool, i: nat, j: nat)
    requires |taken| == |lots| && q > 0 && PlanLine(lots, ActiveFefo(lots, p), taken, q, offline).Ok?
    requires i < |lots| && j < |lots| && lots[i].product == p && lots[i].status.Active?
    requires var a, b := lots[i], lots[j];
             if a.expiry != b.expiry then a.expiry.Some? && (b.expiry.Some? ==> a.expiry.value < b.expiry.value)
             else if a.receivedAt != b.receivedAt then a.receivedAt < b.receivedAt
             else i < j
    requires On(PlanLine(lots, ActiveFefo(lots, p), taken, q, offline).value.rows, j) > 0
    ensures On(PlanLine(lots, ActiveFefo(lots, p), taken, q, offline).value.rows, i) == Free(lots, taken, i)
  {
    var order := ActiveFefo(lots, p);
    var rows := PlanLine(lots, order, taken, q, offline).value.rows;
    ActiveFefoSpec(lots, p);
    ActiveFefoOrder(lots, p);
    PlanLineExact(lots, order, taken, q, offline);
    OnBounds(rows, j);
    var k :| 0 <= k < |rows| && rows[k].lot == j;
    assert rows[k] in rows;
    var x :| 0 <= x < |order| && order[x] == i;
    var y :| 0 <= y < |order| && order[y] == j;
    LineDrains(lots, order, taken, q, offline, x, y);
  }

  /** First expired, first out: whatever line of a cart takes a unit from lot `j` takes all that the lines
      before it left free on lot `i`, if `i` is on sale, of the same product, and goes first. The lot that
      expires goes before one that expires later or whose expiry is not known; of two with the same expiry
      the one received earlier; of two received together the one with the lower id. */
  lemma {:induction false} OldestFirst(lots: seq<Lot>, cart: seq<CartLine>, taken: seq<int>, offline: bool,
                                       k: nat, i: nat, j: nat)
    requires |taken| == |lots| && CartOk(cart) && PlanCart(lots, cart, taken, offline).Ok? && k < |cart|
    requires i < |lots| && j < |lots| && lots[i].product == cart[k].product && lots[i].status.Active?
    requires var a, b := lots[i], lots[j];
             if a.expiry != b.expiry then a.expiry.Some? && (b.expiry.Some? ==> a.expiry.value < b.expiry.value)
             else if a.receivedAt != b.receivedAt then a.receivedAt < b.receivedAt
             else i < j
    requires On(PlanCart(lots, cart, taken, offline).value[k], j) > 0
    ensures var plans := PlanCart(lots, cart, taken, offline).value;
            var free := lots[i].remaining - lots[i].reserved - taken[i] - PlansOn(plans[..k], i);
            On(plans[k], i) == if free > 0 then free else 0
    decreases |cart|
  {
    hide *;
    FirstLine(lots, cart, taken, offline);
    var plan := PlanLine(lots, ActiveFefo(lots, cart[0].product), taken, cart[0].quantity, offline).value;
    var plans := PlanCart(lots, cart, taken, offline).value;
    if k == 0 {
      LineTakesOldest(lots, cart[0].product, taken, cart[0].quantity, offline, i, j);
      NoneBefore(lots, taken, plans, i);
    } else {
      OldestFirst(lots, cart[1..], plan.taken, offline, k - 1, i, j);
      MoreBefore(plans, k, i);
    }
  }

  lemma NoneBefore(lots: seq<Lot>, taken: seq<int>, plans: seq<seq<Alloc>>, i: nat)
    requires i < |lots| == |taken|
    ensures PlansOn(plans[..0], i) == 0
    ensures var free := lots[i].remaining - lots[i].reserved - taken[i];
            Free(lots, taken, i) == if free > 0 then free else 0
  {
  }

  lemma MoreBefore(plans: seq<seq<Alloc>>, k: nat, i: nat)
    requires 0 < k <= |plans|
    ensures PlansOn(plans[..k], i) == On(plans[0], i) + PlansOn(plans[1..][..k - 1], i)
  {
    assert plans[..k][0] == plans[0] && plans[..k][1..] == plans[1..][..k - 1];
  }

  lemma FirstLine(lots: seq<Lot>, cart: seq<CartLine>, taken: seq<int>, offline: bool)
    requires |taken| == |lots| && cart != [] && CartOk(cart) && PlanCart(lots, cart, taken, offline).Ok?
    ensures cart[0].quantity > 0 && CartOk(cart[1..])
    ensures var line := PlanLine(lots, ActiveFefo(lots, cart[0].product), taken, cart[0].quantity, offline);
            var plans := PlanCart(lots, cart, taken, offline).value;
            && line.Ok? && |line.value.taken| == |lots| && PlanCart(lots, cart[1..], line.value.taken, offline).Ok?
            && |plans| == |cart| && plans[0] == line.value.rows
            && plans[1..] == PlanCart(lots, cart[1..], line.value.taken, offline).value
            && (forall l: nat :: l < |lots| ==> line.value.taken[l] == taken[l] + On(line.value.rows, l))
  {
    assert LineOk(cart[0]);
    PlanLineFits(lots, cart[0].product, taken, cart[0].quantity, offline);
    hide PlanLine, ActiveFefo, Blocked, On, InRange, Positive, Total;
  }

  /** So for the lots booked on the lines of a sale, whichever way it was paid. */
  lemma SaleTakesOldest(s: State, cart: seq<CartLine>, terms: StoreTerms, cash: bool, offline: bool,
                        key: Option<string>, now: int, k: nat, i: nat, j: nat)
    requires CreateSale(s, cart, terms, cash, offline, key, now).Ok? && !(key.Some? && HasKey(s.sales, key.value))
    requires k < |cart| && i < |s.shelf.lots| && j < |s.shelf.lots|
    requires s.shelf.lots[i].product == cart[k].product && s.shelf.lots[i].status.Active?
    requires var a, b := s.shelf.lots[i], s.shelf.lots[j];
             if a.expiry != b.expiry then a.expiry.Some? && (b.expiry.Some? ==> a.expiry.value < b.expiry.value)
             else if a.receivedAt != b.receivedAt then a.receivedAt < b.receivedAt
             else i < j
    ensures var t := CreateSale(s, cart, terms, cash, offline, key, now).value;
            && |t.sales| == |s.sales| + 1 && |t.sales[|s.sales|].items| == |cart|
            && var items := t.sales[|s.sales|].items;
               var free := s.shelf.lots[i].remaining - s.shelf.lots[i].reserved - Units(items[..k], i);
               On(items[k].allocs, j) > 0 ==> On(items[k].allocs, i) == if free > 0 then free else 0
  {
    hide *;
    CreateGranted(s, cart, terms, cash, offline, key, now);
    var none := ZeroTaken(|s.shelf.lots|);
    var plans := PlanCart(s.shelf.lots, cart, none, offline).value;
    var items := ItemsOf(cart, plans, terms.taxRate);
    FirstItems(cart, plans, terms.taxRate, k);
    ItemsUnits(cart[..k], plans[..k], terms.taxRate, i);
    ItemAllocs(cart[k], plans[k], terms.taxRate);
    NewItems(s, cart, terms, cash, offline, key, now);
    if On(plans[k], j) > 0 {
      OldestFirst(s.shelf.lots, cart, none, offline, k, i, j);
    }
  }

  lemma NewItems(s: State, cart: seq<CartLine>, terms: StoreTerms, cash: bool, offline: bool, key: Option<string>,
                 now: int)
    requires CreateSale(s, cart, terms, cash, offline, key, now).Ok? && !(key.Some? && HasKey(s.sales, key.value))
    ensures PlanCart(s.shelf.lots, cart, ZeroTaken(|s.shelf.lots|), offline).Ok?
    ensures var t := CreateSale(s, cart, terms, cash, offline, key, now).value;
            var plans := PlanCart(s.shelf.lots, cart, ZeroTaken(|s.shelf.lots|), offline).value;
            |t.sales| == |s.sales| + 1 && t.sales[|s.sales|].items == ItemsOf(cart, plans, terms.taxRate)
  {
    CreateGranted(s, cart, terms, cash, offline, key, now);
  }

  lemma ItemAllocs(line: CartLine, rows: seq<Alloc>, taxRate: nat)
    ensures ItemOf(line, rows, taxRate).allocs == rows
  {
  }

  lemma FirstItems(cart: seq<CartLine>, plans: seq<seq<Alloc>>, taxRate: nat, k: nat)
    requires |cart| == |plans| && k <= |cart|
    ensures ItemsOf(cart, plans, taxRate)[..k] == ItemsOf(cart[..k], plans[..k], taxRate)
  {
  }

  // ---- Locks ----

  function RowsOf(lots: seq<Lot>, order: seq<nat>): (r: seq<Locks.Row>)
    requires Ids(lots, order)
    ensures |r| == |order|
    ensures forall k :: 0 <= k < |r| ==>
              r[k] == Locks.LotRow(lots[order[k]].product, lots[order[k]].expiry, lots[order[k]].receivedAt, order[k])
  {
    if order == [] then []
    else
      var l := order[|order| - 1];
      RowsOf(lots, order[..|order| - 1]) + [Locks.LotRow(lots[l].product, lots[l].expiry, lots[l].receivedAt, l)]
  }

  /** The lots of a product are offered in the order in which they are locked, so the walk over them is in
      the lock order. */
  lemma LockedAsOffered(lots: seq<Lot>, p: nat)
    ensures Locks.Ascending(RowsOf(lots, ActiveFefo(lots, p)))
  {
    var order := ActiveFefo(lots, p);
    ActiveFefoOrder(lots, p);
    forall i, j | 0 <= i < j < |order| ensures Locks.Less(RowsOf(lots, order)[i], RowsOf(lots, order)[j]) {
      assert order[i] in order && order[j] in order;
      Locks.LockOrder(RowsOf(lots, order)[i], RowsOf(lots, order)[j]);
    }
  }
}
