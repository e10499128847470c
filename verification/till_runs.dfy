/** Whole runs of the service: every request there is, in any order, with the tables ending as the ledger
    says, so that what is proved of runs of the ledger is proved of the service. */
module TillRuns {
  import opened Outcome
  import opened Allocation
  import opened StockEngine
  import opened Ledger
  import opened LedgerInvariant
  import opened RefundMoney
  import opened Holds
  import opened EveryRun
  import opened LedgerRuns
  import opened TillService

  /** What the refund walk relies on holds in every state, overdrawn or not. */
  lemma HoldsWalkable(s: State)
    requires HoldsOk(s)
    ensures Walkable(s)
  {
    forall rid | 0 <= rid < |s.refunds| && s.refunds[rid].status.RefundPending? && s.refunds[rid].sale < |s.sales|
      ensures WalkReady(s.sales[s.refunds[rid].sale].items, s.refunds[rid].lines)
    {
      var sale := s.sales[s.refunds[rid].sale];
      assert SaleOk(s.shelf, sale);
      forall i | 0 <= i < |sale.items| ensures Positive(sale.items[i].allocs) && sale.items[i].refundedQuantity >= 0 {
        assert ItemOk(s.shelf, sale.items[i]);
      }
    }
  }

  /** A request of the sale protocol. */
  method HandleSale(till: Till, e: Event) returns (refusal: Option<nat>)
    requires SaleEvent(e) && Walkable(till.Books())
    modifies till
    ensures Commits(old(till.Books()), Step(old(till.Books()), e), till.Books(), refusal)
  {
    match e {
      case EvSale(cart, terms, cash, offline, key, now) =>
        refusal := till.CreateSale(cart, terms, cash, offline, key, now);
      case EvPaid(id, now) => refusal := till.FinalizePaidSale(id, now);
      case EvUnpaid(id, timedOut) => refusal := till.SettleUnpaidSale(id, timedOut);
      case EvClaim(id, restock, requested) => refusal := till.ClaimRefund(id, restock, requested);
      case EvFinalizeRefund(rid) => refusal := till.FinalizeRefund(rid);
      case EvAbortRefund(rid) => refusal := till.AbortRefund(rid);
      case EvReconcile(id, answer) => refusal := till.ReconcileRefund(id, answer);
    }
  }

  /** A request that receives, corrects or withdraws stock. */
  method HandleStock(till: Till, e: Event) returns (refusal: Option<nat>)
    requires !SaleEvent(e)
    modifies till
    ensures Commits(old(till.Books()), Step(old(till.Books()), e), till.Books(), refusal)
  {
    refusal := None;
    match e {
      case EvProduct => till.CreateProduct();
      case EvReceive(p, qty, expiry, at) => refusal := till.Receive(p, qty, expiry, at);
      case EvAdjust(l, q) => refusal := till.AdjustLot(l, q);
      case EvCount(lines, overrideBlocked) => refusal := till.ApproveVariances(lines, overrideBlocked);
      case EvQuarantine(l) => refusal := till.QuarantineLot(l);
      case EvExpire(l, now) => till.ExpireLot(l, now);
      case EvRecall(lots) => refusal := till.InitiateRecall(lots);
      case EvActivate(r) => refusal := till.ActivateRecall(r);
      case EvCancel(r) => refusal := till.CancelRecall(r);
    }
  }

  /** Any requests in any order, refused or not, from any state the service can be in: the tables end as
      the run of the ledger says, and every request finds what it relies on. */
  method Serve(till: Till, es: seq<Event>)
    requires HoldsOk(till.Books())
    modifies till
    ensures till.Books() == Run(old(till.Books()), es) && HoldsOk(till.Books())
  {
    hide HoldsOk, Step;
    var i := 0;
    assert es[..0] == [];
    while i < |es|
      invariant 0 <= i <= |es|
      invariant till.Books() == Run(old(till.Books()), es[..i]) && HoldsOk(till.Books())
    {
      HoldsWalkable(till.Books());
      StepHolds(till.Books(), es[i]);
      RunAppend(old(till.Books()), es[..i], es[i]);
      assert es[..i + 1] == es[..i] + [es[i]];
      if SaleEvent(es[i]) {
        var refusal := HandleSale(till, es[i]);
      } else {
        var refusal := HandleStock(till, es[i]);
      }
      i := i + 1;
    }
    assert es[..|es|] == es;
  }

  /** A store served from its first day: after any requests at all the refund ledger balances, and after
      any requests in scope the service's own check of its rollups finds nothing. */
  method ServeAndCheck(es: seq<Event>) returns (till: Till, mismatches: seq<nat>)
    ensures fresh(till) && till.Books() == Run(EMPTY, es)
    ensures HoldsOk(till.Books()) && MoneyOk(till.sales, till.refunds)
    ensures Scoped(EMPTY, es) ==> mismatches == [] && Inv(till.Books())
  {
    till := new Till();
    Serve(till, es);
    mismatches := till.FindStockRollupMismatches();
    RefundsBalanceAlways(es);
    if Scoped(EMPTY, es) { EveryReachableState(es); }
  }
}
