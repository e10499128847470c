/** Every run from every state the service can reach, with no condition on what happens: offline sales may
    overdraw the shelf and recalls may share a lot. Reservations, the refund ledger and the conservation
    of stock survive all of it. */
module EveryRun {
  import opened Outcome
  import opened Sums
  import opened Allocation
  import opened Lots
  import opened StockEngine
  import opened Fefo
  import opened Checkout
  import opened Ledger
  import opened LedgerInvariant
  import opened SaleSteps
  import opened CartPlans
  import opened PaymentSteps
  import opened Holds
  import opened RefundSteps
  import opened RefundProtocol
  import opened RefundMoney

  // ---- Steps that move lots, not sales ----

  /** No reservation and no quantity moves. */
  predicate Still(a: Shelf, b: Shelf) {
    Quiet(a, b) && forall l :: 0 <= l < |a.lots| ==> b.lots[l].remaining == a.lots[l].remaining
  }

  lemma QuietHolds(s: State, shelf: Shelf, recalls: seq<Recall>)
    requires HoldsOk(s) && Quiet(s.shelf, shelf)
    ensures var t := s.(shelf := shelf, recalls := recalls);
            HoldsOk(t) && (Still(s.shelf, shelf) ==> SameTally(s, t))
  {
    QuietWf(s.shelf, shelf);
    SalesFrame(s.shelf, shelf, s.sales);
  }

  lemma {:induction false} VariancesQuiet(s: Shelf, lines: seq<Variance>)
    requires ApplyVariances(s, lines).Ok?
    ensures Quiet(s, ApplyVariances(s, lines).value)
    decreases |lines|
  {
    if lines != [] {
      if lines[0].delta == 0 {
        VariancesQuiet(s, lines[1..]);
      } else {
        var next := SetLotRemaining(s, lines[0].lot, Max0(s.lots[lines[0].lot].remaining + lines[0].delta)).value;
        VariancesQuiet(next, lines[1..]);
        QuietTrans(s, next, ApplyVariances(next, lines[1..]).value);
      }
    }
  }

  lemma {:induction false} QuarantineStill(s: Shelf, lots: seq<nat>)
    ensures Still(s, QuarantineAll(s, lots))
    decreases |lots|
  {
    if lots != [] {
      if lots[0] < |s.lots| && s.lots[lots[0]].status.Active? && s.lots[lots[0]].product < |s.products| {
        var next := LeaveSellableRollup(s, lots[0], Quarantined);
        QuarantineStill(next, lots[1..]);
        QuietTrans(s, next, QuarantineAll(next, lots[1..]));
      } else {
        QuarantineStill(s, lots[1..]);
      }
    }
  }

  lemma {:induction false} DepleteQuiet(s: Shelf, lots: seq<nat>)
    ensures Quiet(s, DepleteLots(s, lots))
    decreases |lots|
  {
    if lots != [] {
      var next := if lots[0] < |s.lots| then RecallDepleteLot(s, lots[0]) else s;
      DepleteQuiet(next, lots[1..]);
      QuietTrans(s, next, DepleteLots(next, lots[1..]));
    }
  }

  lemma {:induction false} ReturnStill(s: Shelf, lots: seq<nat>)
    ensures Still(s, ReturnLots(s, lots))
    decreases |lots|
  {
    if lots != [] {
      var next := if lots[0] < |s.lots| && s.lots[lots[0]].product < |s.products|
                  then ReturnToSellableRollup(s, lots[0]) else s;
      ReturnStill(next, lots[1..]);
      QuietTrans(s, next, ReturnLots(next, lots[1..]));
    }
  }

  lemma {:induction false} NoneHeld(lots: seq<Lot>, p: nat)
    requires forall l :: 0 <= l < |lots| ==> lots[l].product != p
    ensures HeldUnits(lots, p) == 0
  {
    if lots != [] { NoneHeld(lots[..|lots| - 1], p); }
  }

  lemma CreateProductHolds(s: State)
    requires HoldsOk(s)
    ensures HoldsOk(CreateProduct(s)) && SameTally(s, CreateProduct(s))
  {
    NoneHeld(s.shelf.lots, |s.shelf.products|);
    SalesFrame(s.shelf, CreateProduct(s).shelf, s.sales);
  }

  /** No sale so far has anything to do with a lot that is yet to come. */
  lemma {:induction false} NoneOnNewLot(shelf: Shelf, sales: seq<Sale>, l: nat)
    requires SalesOk(shelf, sales) && l >= |shelf.lots|
    ensures Held(sales, l) == 0 && Sum(sales, NetTakeFn(l)) == 0
  {
    if sales != [] {
      var k := |sales| - 1;
      assert SaleOk(shelf, sales[k]);
      NoneOnNewLot(shelf, sales[..k], l);
      forall i | 0 <= i < |sales[k].items|
        ensures ItemOnFn(l)(sales[k].items[i]) == 0 && ItemNetFn(l)(sales[k].items[i]) == 0
      {
        assert ItemOk(shelf, sales[k].items[i]);
        NoneOn(sales[k].items[i].allocs, l);
        RefundSlicing(shelf, sales[k].items[i], l);
      }
      SumSame(sales[k].items, ItemOnFn(l), sales[k].items, ItemNetFn(l));
      AllZero(sales[k].items, ItemOnFn(l));
    }
  }

  lemma ReceiveHolds(s: State, p: nat, qty: int, expiry: Option<int>, at: int)
    requires HoldsOk(s) && Receive(s, p, qty, expiry, at).Ok?
    ensures HoldsOk(Receive(s, p, qty, expiry, at).value) && SameTally(s, Receive(s, p, qty, expiry, at).value)
  {
    if qty > 0 {
      var lot := Lot(p, qty, 0, Active, expiry, at);
      var t := Receive(s, p, qty, expiry, at).value;
      forall r: nat | r < |s.shelf.products| ensures HeldUnits(t.shelf.lots, r) == HeldUnits(s.shelf.lots, r) {
        SumAppend(s.shelf.lots, lot, HoldFn(r));
      }
      SalesFrame(s.shelf, t.shelf, s.sales);
      NoneOnNewLot(s.shelf, s.sales, |s.shelf.lots|);
    }
  }

  lemma LotStepQuiet(s: State, e: Event)
    requires Step(s, e).Ok? && !SaleEvent(e) && !e.EvProduct? && !e.EvReceive?
    ensures var t := Step(s, e).value;
            && t == s.(shelf := t.shelf, recalls := t.recalls) && |t.shelf.lots| == |s.shelf.lots|
            && Quiet(s.shelf, t.shelf) && (!Correction(e) ==> Still(s.shelf, t.shelf))
  {
    match e {
      case EvAdjust(l, q) =>
      case EvCount(lines, overrideBlocked) => VariancesQuiet(s.shelf, lines);
      case EvQuarantine(l) =>
      case EvExpire(l, now) =>
      case EvRecall(lots) => QuarantineStill(s.shelf, lots);
      case EvActivate(r) => DepleteQuiet(s.shelf, s.recalls[r].lots);
      case EvCancel(r) => ReturnStill(s.shelf, s.recalls[r].lots);
    }
  }

  lemma LotStepHolds(s: State, e: Event)
    requires HoldsOk(s) && Step(s, e).Ok? && !SaleEvent(e) && !e.EvProduct? && !e.EvReceive?
    ensures HoldsOk(Step(s, e).value) && |Step(s, e).value.shelf.lots| == |s.shelf.lots|
    ensures !Correction(e) ==> SameTally(s, Step(s, e).value)
  {
    hide *;
    LotStepQuiet(s, e);
    QuietHolds(s, Step(s, e).value.shelf, Step(s, e).value.recalls);
  }

  lemma StockKeepsSales(s: State, e: Event)
    requires !SaleEvent(e)
    ensures Exec(s, e).sales == s.sales && Exec(s, e).refunds == s.refunds
  {
    hide ApplyVariances, QuarantineAll, DepleteLots, ReturnLots, SetLotRemaining;
  }

  // ---- Every step ----

  lemma SaleStepHolds(s: State, e: Event)
    requires HoldsOk(s) && Step(s, e).Ok? && SaleEvent(e)
    ensures HoldsOk(Step(s, e).value) && SameTally(s, Step(s, e).value)
  {
    hide HoldsOk, SameTally, CreateSale, FinalizePaidSale, SettleUnpaidSale, ClaimRefund, AbortRefund, ReconcileRefund;
    match e
    case EvSale(cart, terms, cash, offline, key, now) => CreateHolds(s, cart, terms, cash, offline, key, now);
    case EvPaid(id, now) => PayHolds(s, id, now);
    case EvUnpaid(id, timedOut) => UnpaidHolds(s, id, timedOut);
    case EvClaim(id, restock, requested) => ClaimKeeps(s, id, restock, requested);
    case EvFinalizeRefund(rid) =>
      if s.refunds[rid].status.RefundPending? { FinalizeKeeps(s, rid); } else { NothingTold(s); }
    case EvAbortRefund(rid) => AbortKeeps(s, rid);
    case EvReconcile(id, answer) => ReconcileKeeps(s, id, answer);
  }

  lemma NothingTold(s: State)
    ensures SameTally(s, s)
  {
  }

  lemma StepHolds(s: State, e: Event)
    requires HoldsOk(s)
    ensures HoldsOk(Exec(s, e)) && |s.shelf.lots| <= |Exec(s, e).shelf.lots|
    ensures !Correction(e) ==> SameTally(s, Exec(s, e))
  {
    hide HoldsOk;
    if Step(s, e).Ok? {
      if SaleEvent(e) {
        SaleStepHolds(s, e);
      } else if e.EvProduct? {
        CreateProductHolds(s);
      } else if e.EvReceive? {
        ReceiveHolds(s, e.product, e.qty, e.expiry, e.at);
      } else {
        LotStepHolds(s, e);
      }
    }
  }

  lemma StepMoney(s: State, e: Event)
    requires HoldsOk(s) && MoneyOk(s.sales, s.refunds)
    ensures MoneyOk(Exec(s, e).sales, Exec(s, e).refunds)
  {
    if Step(s, e).Ok? && SaleEvent(e) {
      if e.EvSale? || e.EvPaid? || e.EvUnpaid? { PaymentMoney(s, e); } else { RefundStepMoney(s, e); }
    } else if Step(s, e).Ok? {
      StockKeepsSales(s, e);
    }
  }

  lemma PaymentMoney(s: State, e: Event)
    requires MoneyOk(s.sales, s.refunds) && Step(s, e).Ok? && (e.EvSale? || e.EvPaid? || e.EvUnpaid?)
    ensures MoneyOk(Exec(s, e).sales, Exec(s, e).refunds)
  {
    match e
    case EvSale(cart, terms, cash, offline, key, now) => CreateMoney(s, cart, terms, cash, offline, key, now);
    case EvPaid(id, now) =>
      if s.sales[id].status.Pending? { StatusOnly(s.sales, s.refunds, id, Exec(s, e).sales[id]); }
    case EvUnpaid(id, timedOut) =>
      if s.sales[id].status.Pending? { StatusOnly(s.sales, s.refunds, id, Exec(s, e).sales[id]); }
  }

  lemma RefundStepMoney(s: State, e: Event)
    requires HoldsOk(s) && MoneyOk(s.sales, s.refunds) && Step(s, e).Ok?
    requires e.EvClaim? || e.EvFinalizeRefund? || e.EvAbortRefund? || e.EvReconcile?
    ensures MoneyOk(Exec(s, e).sales, Exec(s, e).refunds)
  {
    match e {
      case EvClaim(id, restock, requested) => ClaimMoney(s, id, restock, requested);
      case EvFinalizeRefund(rid) => if s.refunds[rid].status.RefundPending? { FinalizeMoney(s, rid); }
      case EvAbortRefund(rid) => AbortMoney(s, rid);
      case EvReconcile(id, answer) => ReconcileMoney(s, id, answer);
    }
  }

  // ---- Every run ----

  /** Any run whatever, overdrafts and shared recalls included, keeps reservations and PENDING sales
      in step. */
  lemma {:induction false} RunHolds(s: State, es: seq<Event>)
    requires HoldsOk(s)
    ensures HoldsOk(Run(s, es)) && |s.shelf.lots| <= |Run(s, es).shelf.lots|
  {
    if es != [] {
      hide HoldsOk, Exec, SameTally;
      RunHolds(s, es[..|es| - 1]);
      StepHolds(Run(s, es[..|es| - 1]), es[|es| - 1]);
    }
  }

  /** ... and the refund ledger balanced to the cent. */
  lemma {:induction false} RunMoney(s: State, es: seq<Event>)
    requires HoldsOk(s) && MoneyOk(s.sales, s.refunds)
    ensures MoneyOk(Run(s, es).sales, Run(s, es).refunds)
  {
    if es != [] {
      hide HoldsOk, MoneyOk, Exec;
      RunHolds(s, es[..|es| - 1]);
      RunMoney(s, es[..|es| - 1]);
      StepMoney(Run(s, es[..|es| - 1]), es[|es| - 1]);
    }
  }

  /** From an empty store, whatever happened in whatever order and however often: every reservation
      belongs to a PENDING sale, every REFUNDING sale has its one open refund, and what was paid back and
      clawed back on each sale is the sum of its succeeded refunds. */
  lemma RefundsBalanceAlways(es: seq<Event>)
    ensures var s := Run(EMPTY, es);
            HoldsOk(s) && MoneyOk(s.sales, s.refunds)
  {
    RunHolds(EMPTY, es);
    RunMoney(EMPTY, es);
  }

  /** In every state the service can reach, however it got there, exactly this decides whether a paying
      customer is served. */
  lemma PaidExactAlways(es: seq<Event>, id: nat, now: int)
    requires id < |Run(EMPTY, es).sales| && Run(EMPTY, es).sales[id].status.Pending?
    ensures var s := Run(EMPTY, es);
            HoldsOk(s) && (FinalizePaidSale(s, id, now).Ok? <==> CanGive(s, id))
  {
    RunHolds(EMPTY, es);
    PaidExact(Run(EMPTY, es), id, now);
  }

  /** And in every such state a customer who does not pay is let go: failure and expiry never meet a
      guard, and each lot gets back exactly what the sale held on it. */
  lemma UnpaidAlways(es: seq<Event>, id: nat, timedOut: bool)
    requires id < |Run(EMPTY, es).sales| && Run(EMPTY, es).sales[id].status.Pending?
    ensures var s := Run(EMPTY, es);
            SettleUnpaidSale(s, id, timedOut).Ok?
            && var t := SettleUnpaidSale(s, id, timedOut).value;
               && HoldsOk(t) && StockStays(s.shelf, t.shelf)
               && t.sales == s.sales[id := s.sales[id].(status := if timedOut then TimedOut else Failed)]
               && (forall l: nat :: l < |s.shelf.lots| ==>
                     t.shelf.lots[l]
                     == s.shelf.lots[l].(reserved := s.shelf.lots[l].reserved - SaleOn(s.sales[id], l)))
  {
    RunHolds(EMPTY, es);
    hide HoldsOk, Run;
    UnpaidGoes(Run(EMPTY, es), id, timedOut);
  }

  // ---- Conservation ----

  /** What corrections added to lot `l` over the run. */
  function Corrections(s: State, es: seq<Event>, l: nat): int {
    if es == [] then 0
    else
      var before, e := Run(s, es[..|es| - 1]), es[|es| - 1];
      var after := Exec(before, e);
      Corrections(s, es[..|es| - 1], l)
      + (if Correction(e) && l < |before.shelf.lots| && l < |after.shelf.lots|
         then after.shelf.lots[l].remaining - before.shelf.lots[l].remaining else 0)
  }

  /** A correction moves the lot and no sale. */
  lemma CorrectionTally(s: State, e: Event, l: nat)
    requires Correction(e) && l < |s.shelf.lots| && l < |Exec(s, e).shelf.lots|
    ensures Tally(Exec(s, e), l) == Tally(s, l) + Exec(s, e).shelf.lots[l].remaining - s.shelf.lots[l].remaining
  {
    StockKeepsSales(s, e);
  }

  /** Exactly once: whatever the order and repetition of sales, webhooks, failures, expiries, claims,
      finalizes, aborts and reconciliations, overdrafts and recalls, what a lot holds is what it held, plus
      what was corrected by hand, less exactly what the sales have taken, each sale counted once. */
  lemma {:induction false} StockIsConserved(s: State, es: seq<Event>, l: nat)
    requires HoldsOk(s) && l < |s.shelf.lots|
    ensures l < |Run(s, es).shelf.lots|
    ensures Tally(Run(s, es), l) == Tally(s, l) + Corrections(s, es, l)
  {
    hide HoldsOk, Exec, Tally;
    if es != [] {
      var init, e := es[..|es| - 1], es[|es| - 1];
      RunHolds(s, init);
      StockIsConserved(s, init, l);
      StepHolds(Run(s, init), e);
      if Correction(e) { CorrectionTally(Run(s, init), e, l); }
    }
  }
}
