/** The full invariant over runs. Beside what holds in every run, the rollups equal the lots as long as new
    offline sales are served from free units and no recall shares a lot. */
module LedgerRuns {
  import opened Outcome
  import opened Sums
  import opened Allocation
  import opened Lots
  import opened StockEngine
  import opened Fefo
  import opened Checkout
  import opened Ledger
  import opened LedgerInvariant
  import opened LotSteps
  import opened SaleSteps
  import opened CartPlans
  import opened PaymentSteps
  import opened Holds
  import opened RefundSteps
  import opened RefundProtocol
  import opened RefundMoney
  import opened EveryRun
  import opened RecallRuns

  /** Outside these two the service does not keep its rollups: an offline sale that overdraws a lot, and
      a recall of a lot that another DRAFT recall already holds. A request that is refused, and a repeat
      of a checkout key, change nothing and are always in scope. */
  predicate InScope(s: State, e: Event) {
    && (Exec(s, e) != s && e.EvSale? && e.offline ==> Servable(s, e.cart))
    && RecallApart(s, e)
  }

  lemma PaymentStep(s: State, e: Event)
    requires Inv(s) && InScope(s, e) && Step(s, e).Ok? && Exec(s, e) != s
    requires e.EvSale? || e.EvPaid? || e.EvUnpaid?
    ensures Inv(Exec(s, e))
  {
    match e
    case EvSale(cart, terms, cash, offline, key, now) => CreateKeeps(s, cart, terms, cash, offline, key, now);
    case EvPaid(id, now) => if s.sales[id].status.Pending? { PaidIsNeverRefused(s, id, now); }
    case EvUnpaid(id, timedOut) =>
      if s.sales[id].status.Pending? {
        InvHolds(s);
        UnpaidReleasesAll(s, id, timedOut);
      }
  }

  lemma RefundStep(s: State, e: Event)
    requires Inv(s) && Step(s, e).Ok?
    requires e.EvClaim? || e.EvFinalizeRefund? || e.EvAbortRefund? || e.EvReconcile?
    ensures Inv(Exec(s, e))
  {
    InvHolds(s);
    hide Inv, HoldsOk;
    match e
    case EvClaim(id, restock, requested) => ClaimKeeps(s, id, restock, requested);
    case EvFinalizeRefund(rid) => if s.refunds[rid].status.RefundPending? { FinalizeKeeps(s, rid); }
    case EvAbortRefund(rid) => AbortKeeps(s, rid);
    case EvReconcile(id, answer) => ReconcileKeeps(s, id, answer);
  }

  lemma ShelfStep(s: State, e: Event)
    requires SealedOk(s) && ShelfOk(s.shelf) && RecallApart(s, e) && Step(s, e).Ok? && !SaleEvent(e)
    ensures ShelfOk(Exec(s, e).shelf)
  {
    if e.EvProduct? {
      AddProductKeeps(s.shelf);
    } else if e.EvReceive? {
      if e.qty > 0 { AddLotKeeps(s.shelf, e.product, e.qty, e.expiry, e.at); }
    } else if Exec(s, e) != s {
      LotEventMoves(s, e);
    }
  }

  /** One step, whichever it is and whether or not it is refused. */
  lemma StepKeeps(s: State, e: Event)
    requires Inv(s) && InScope(s, e)
    ensures Inv(Exec(s, e)) && TerminalKept(s.shelf, Exec(s, e).shelf)
    ensures SaleEvent(e) ==> SaleMoved(s.shelf, Exec(s, e).shelf)
    ensures !Correction(e) ==> SameTally(s, Exec(s, e))
    ensures !SaleEvent(e) ==> Exec(s, e).sales == s.sales && Exec(s, e).refunds == s.refunds
  {
    InvSeals(s);
    InvIs(s);
    InvIs(Exec(s, e));
    StepHolds(s, e);
    StepSeals(s, e);
    hide HoldsOk, RecallsOk, Sealed, ShelfOk, SaleMoved, SameTally, TerminalKept, Step, Inv;
    if Step(s, e).Ok? && Exec(s, e) != s {
      if e.EvSale? || e.EvPaid? || e.EvUnpaid? {
        PaymentStep(s, e);
      } else if SaleEvent(e) {
        RefundStep(s, e);
      } else {
        ShelfStep(s, e);
      }
    }
    if !SaleEvent(e) { StockKeepsSales(s, e); }
  }

  // ---- Runs ----

  predicate Scoped(s: State, es: seq<Event>) {
    forall k :: 0 <= k < |es| ==> InScope(Run(s, es[..k]), es[k])
  }

  lemma ScopedInit(s: State, es: seq<Event>)
    requires Scoped(s, es) && es != []
    ensures Scoped(s, es[..|es| - 1]) && InScope(Run(s, es[..|es| - 1]), es[|es| - 1])
  {
    var init := es[..|es| - 1];
    forall k | 0 <= k < |init| ensures InScope(Run(s, init[..k]), init[k]) {
      assert init[..k] == es[..k];
    }
  }

  lemma {:induction false} RunKeeps(s: State, es: seq<Event>)
    requires Inv(s) && Scoped(s, es)
    ensures Inv(Run(s, es))
  {
    if es != [] {
      hide Inv, InScope, Exec;
      ScopedInit(s, es);
      RunKeeps(s, es[..|es| - 1]);
      StepKeeps(Run(s, es[..|es| - 1]), es[|es| - 1]);
    }
  }

  /** Safety: from the empty store, whatever happens in scope in whatever order and however often it is
      repeated, the rollups equal the lots and every lot is in order; the refund ledger balances too. */
  lemma EveryReachableState(es: seq<Event>)
    requires Scoped(EMPTY, es)
    ensures Inv(Run(EMPTY, es)) && MoneyOk(Run(EMPTY, es).sales, Run(EMPTY, es).refunds)
  {
    RunKeeps(EMPTY, es);
    RefundsBalanceAlways(es);
  }
}
