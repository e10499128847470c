/** What can happen to one sale row over a run, and to stock if the same message arrives again. */
module SaleHistory {
  import opened Outcome
  import opened Sums
  import opened Allocation
  import opened Lots
  import opened StockEngine
  import opened Fefo
  import opened Checkout
  import opened Ledger
  import opened LedgerInvariant
  import opened LotSteps
  import opened SaleSteps
  import opened CartPlans
  import opened PaymentSteps
  import opened RefundSteps
  import opened RefundProtocol
  import opened RefundMoney
  import opened Holds
  import opened EveryRun

  predicate Final(status: PaymentStatus) { status.Failed? || status.TimedOut? || status.Refunded? }

  /** A line keeps its product, units and prices; refunds are only ever appended to it. */
  predicate ItemEvolves(a: SaleItem, b: SaleItem) {
    b == a.(refundedQuantity := b.refundedQuantity, parts := b.parts) && a.parts <= b.parts
  }

  /** A sale keeps its identity, money and allocations; once paid it never becomes unpaid; a failed,
      expired or fully refunded sale never changes again. */
  predicate Evolves(a: Sale, b: Sale) {
    && b == a.(status := b.status, items := b.items, refundedAmount := b.refundedAmount, paidAt := b.paidAt,
               refundedOperatorAmount := b.refundedOperatorAmount, pendingRefund := b.pendingRefund)
    && |a.items| == |b.items| && (forall i :: 0 <= i < |a.items| ==> ItemEvolves(a.items[i], b.items[i]))
    && (Took(a.status) ==> Took(b.status) && b.paidAt == a.paidAt)
    && (Final(a.status) ==> b == a)
  }

  lemma EvolvesTrans(a: Sale, b: Sale, c: Sale)
    requires Evolves(a, b) && Evolves(b, c)
    ensures Evolves(a, c)
  {
    forall i | 0 <= i < |a.items| ensures ItemEvolves(a.items[i], c.items[i]) {
      assert ItemEvolves(a.items[i], b.items[i]) && ItemEvolves(b.items[i], c.items[i]);
    }
  }

  predicate SalesEvolve(a: seq<Sale>, b: seq<Sale>) {
    |a| <= |b| && forall id :: 0 <= id < |a| ==> Evolves(a[id], b[id])
  }

  /** One row changes by a step of its own protocol, the others not at all. */
  lemma RowEvolves(sales: seq<Sale>, id: nat, sale: Sale)
    requires id < |sales| && Evolves(sales[id], sale)
    ensures SalesEvolve(sales, sales[id := sale])
  {
  }

  lemma {:induction false} LinesEvolve(shelf: Shelf, locked: seq<Lot>, items: seq<SaleItem>, lines: seq<RefundLine>,
                                       restock: bool)
    requires FinalizeLines(shelf, locked, items, lines, restock).Ok?
    ensures var after := FinalizeLines(shelf, locked, items, lines, restock).value.items;
            |after| == |items| && forall i :: 0 <= i < |items| ==> ItemEvolves(items[i], after[i])
    decreases |lines|
  {
    if lines != [] {
      var i, q := lines[0].item, lines[0].quantity;
      var next := items[i := RefundItem(items[i], q, restock)];
      var mid := FinalizeLine(shelf, locked, items[i], q, restock).value;
      LinesEvolve(mid, locked, next, lines[1..], restock);
      var after := FinalizeLines(mid, locked, next, lines[1..], restock).value.items;
      forall k | 0 <= k < |items| ensures ItemEvolves(items[k], after[k]) {
        assert ItemEvolves(next[k], after[k]);
        assert items[k].parts <= next[k].parts;
      }
    }
  }

  lemma SameRows(sales: seq<Sale>)
    ensures SalesEvolve(sales, sales)
  {
  }

  lemma FinalizeEvolves(s: State, rid: nat)
    requires HoldsOk(s) && FinalizeRefund(s, rid).Ok?
    ensures SalesEvolve(s.sales, FinalizeRefund(s, rid).value.sales)
  {
    SameRows(s.sales);
    var refund := s.refunds[rid];
    if refund.status.RefundPending? {
      OpenSale(s, rid);
      LinesEvolve(s.shelf, s.shelf.lots, s.sales[refund.sale].items, refund.lines, refund.restock);
      RowEvolves(s.sales, refund.sale, FinalizeRefund(s, rid).value.sales[refund.sale]);
    }
  }

  lemma AbortEvolves(s: State, rid: nat)
    requires HoldsOk(s) && AbortRefund(s, rid).Ok?
    ensures SalesEvolve(s.sales, AbortRefund(s, rid).value.sales)
  {
    SameRows(s.sales);
    var id := s.refunds[rid].sale;
    if s.sales[id].status.Refunding? {
      assert SaleOk(s.shelf, s.sales[id]);
      RowEvolves(s.sales, id, AbortRefund(s, rid).value.sales[id]);
    }
  }

  lemma ReconcileEvolves(s: State, id: nat, answer: StripeAnswer)
    requires HoldsOk(s) && ReconcileRefund(s, id, answer).Ok?
    ensures SalesEvolve(s.sales, ReconcileRefund(s, id, answer).value.sales)
  {
    SameRows(s.sales);
    if id < |s.sales| && s.sales[id].status.Refunding? {
      assert RefundOpen(s.sales, s.refunds, id);
      var rid := s.sales[id].pendingRefund.value;
      if ReconcileRefund(s, id, answer) == FinalizeRefund(s, rid) {
        FinalizeEvolves(s, rid);
      } else if ReconcileRefund(s, id, answer) == AbortRefund(s, rid) {
        AbortEvolves(s, rid);
      }
    }
  }

  lemma PaidEvolves(s: State, id: nat, now: int)
    requires HoldsOk(s) && FinalizePaidSale(s, id, now).Ok?
    ensures SalesEvolve(s.sales, FinalizePaidSale(s, id, now).value.sales)
  {
    SameRows(s.sales);
    assert SaleOk(s.shelf, s.sales[id]);
    if s.sales[id].status.Pending? {
      RowEvolves(s.sales, id, s.sales[id].(status := Paid, paidAt := Some(now)));
    }
  }

  lemma UnpaidEvolves(s: State, id: nat, timedOut: bool)
    requires HoldsOk(s) && SettleUnpaidSale(s, id, timedOut).Ok?
    ensures SalesEvolve(s.sales, SettleUnpaidSale(s, id, timedOut).value.sales)
  {
    SameRows(s.sales);
    if s.sales[id].status.Pending? {
      RowEvolves(s.sales, id, s.sales[id].(status := if timedOut then TimedOut else Failed));
    }
  }

  lemma ClaimEvolves(s: State, id: nat, restock: bool, requested: seq<RefundLine>)
    requires ClaimRefund(s, id, restock, requested).Ok?
    ensures SalesEvolve(s.sales, ClaimRefund(s, id, restock, requested).value.sales)
  {
    RowEvolves(s.sales, id, s.sales[id].(status := Refunding, pendingRefund := Some(|s.refunds|)));
  }

  lemma CreateEvolves(s: State, cart: seq<CartLine>, terms: StoreTerms, cash: bool, offline: bool,
                      key: Option<string>, now: int)
    requires CreateSale(s, cart, terms, cash, offline, key, now).Ok?
    ensures SalesEvolve(s.sales, CreateSale(s, cart, terms, cash, offline, key, now).value.sales)
  {
    SameRows(s.sales);
  }

  lemma StepEvolves(s: State, e: Event)
    requires HoldsOk(s)
    ensures SalesEvolve(s.sales, Exec(s, e).sales)
  {
    SameRows(s.sales);
    hide HoldsOk, SalesEvolve, CreateSale, FinalizePaidSale, SettleUnpaidSale, ClaimRefund, FinalizeRefund, AbortRefund,
         ReconcileRefund, ApproveVariances, AdjustLot, ActivateRecall, CancelRecall, InitiateRecall,
         QuarantineLot, ExpireLot;
    if Step(s, e).Ok? {
      match e
      case EvSale(cart, terms, cash, offline, key, now) => CreateEvolves(s, cart, terms, cash, offline, key, now);
      case EvPaid(id, now) => PaidEvolves(s, id, now);
      case EvUnpaid(id, timedOut) => UnpaidEvolves(s, id, timedOut);
      case EvClaim(id, restock, requested) => ClaimEvolves(s, id, restock, requested);
      case EvFinalizeRefund(rid) => FinalizeEvolves(s, rid);
      case EvAbortRefund(rid) => AbortEvolves(s, rid);
      case EvReconcile(id, answer) => ReconcileEvolves(s, id, answer);
      case _ => StockKeepsSales(s, e);
    }
  }

  lemma {:induction false} RunEvolves(s: State, es: seq<Event>)
    requires HoldsOk(s)
    ensures SalesEvolve(s.sales, Run(s, es).sales)
  {
    if es != [] {
      hide HoldsOk, Exec, Evolves;
      var init := es[..|es| - 1];
      RunHolds(s, init);
      RunEvolves(s, init);
      StepEvolves(Run(s, init), es[|es| - 1]);
      forall id | 0 <= id < |s.sales| ensures Evolves(s.sales[id], Run(s, es).sales[id]) {
        assert Evolves(s.sales[id], Run(s, init).sales[id]);
        EvolvesTrans(s.sales[id], Run(s, init).sales[id], Run(s, es).sales[id]);
      }
    }
  }

  /** A payment webhook that arrives after the checkout failed or expired, however much later and
      whatever happened to the shelf meanwhile, is
      refused and moves nothing; one that arrives again after the sale was paid moves nothing either. */
  lemma LateOrRepeatedWebhook(s: State, es: seq<Event>, id: nat, now: int)
    requires HoldsOk(s) && id < |s.sales| && !s.sales[id].status.Pending?
    ensures Exec(Run(s, es), EvPaid(id, now)) == Run(s, es)
    ensures s.sales[id].status.Failed? || s.sales[id].status.TimedOut? ==>
            FinalizePaidSale(Run(s, es), id, now) == Err(409)
  {
    hide HoldsOk, Run;
    RunEvolves(s, es);
    assert Evolves(s.sales[id], Run(s, es).sales[id]);
  }

  /** Nor can a late failure or expiry release anything of a sale that was paid. */
  lemma LateFailure(s: State, es: seq<Event>, id: nat, timedOut: bool)
    requires HoldsOk(s) && id < |s.sales| && !s.sales[id].status.Pending?
    ensures Exec(Run(s, es), EvUnpaid(id, timedOut)) == Run(s, es)
    ensures Took(s.sales[id].status) ==> SettleUnpaidSale(Run(s, es), id, timedOut) == Err(409)
  {
    hide HoldsOk, Run;
    RunEvolves(s, es);
    assert Evolves(s.sales[id], Run(s, es).sales[id]);
  }

  /** A checkout request repeated with the same key, at any later time and with whatever cart, never
      creates a second sale: the key names the first one for ever. */
  lemma KeyUsedOnce(s: State, es: seq<Event>, id: nat, cart: seq<CartLine>, terms: StoreTerms, cash: bool,
                    offline: bool, now: int)
    requires HoldsOk(s) && id < |s.sales| && s.sales[id].key.Some?
    ensures Exec(Run(s, es), EvSale(cart, terms, cash, offline, s.sales[id].key, now)) == Run(s, es)
    ensures forall k :: 0 <= k < |Run(s, es).sales| && k != id ==> Run(s, es).sales[k].key != s.sales[id].key
  {
    hide Run, HoldsWf, SalesOk, HeldOk, RefundsOk;
    RunEvolves(s, es);
    RunHolds(s, es);
    assert Evolves(s.sales[id], Run(s, es).sales[id]);
    assert HasKey(Run(s, es).sales, s.sales[id].key.value);
  }

  // ---- Refunds settle once ----

  /** A refund keeps its lines and its money; once it succeeded or failed it never changes again. */
  predicate RefundEvolves(a: Refund, b: Refund) {
    b == a.(status := b.status) && (!a.status.RefundPending? ==> b == a)
  }

  predicate RefundsEvolve(a: seq<Refund>, b: seq<Refund>) {
    |a| <= |b| && forall rid :: 0 <= rid < |a| ==> RefundEvolves(a[rid], b[rid])
  }

  lemma StepRefunds(s: State, e: Event)
    ensures RefundsEvolve(s.refunds, Exec(s, e).refunds) && |s.sales| <= |Exec(s, e).sales|
  {
    hide FinalizeLines, SettleRefund, LinesValid, QuoteRefund, PlanCart, TakeItems, FinalizeItems, ReleaseItems;
  }

  lemma {:induction false} RunRefunds(s: State, es: seq<Event>)
    ensures RefundsEvolve(s.refunds, Run(s, es).refunds) && |s.sales| <= |Run(s, es).sales|
  {
    if es != [] {
      hide Exec;
      var init := es[..|es| - 1];
      RunRefunds(s, init);
      StepRefunds(Run(s, init), es[|es| - 1]);
      forall rid | 0 <= rid < |s.refunds| ensures RefundEvolves(s.refunds[rid], Run(s, es).refunds[rid]) {
        assert RefundEvolves(s.refunds[rid], Run(s, init).refunds[rid]);
      }
    }
  }

  /** A refund that succeeded or failed is settled for good: in any run whatever, finalizing or aborting
      it again, at any later time, changes nothing; what succeeded cannot be aborted, nor what failed
      finalized. */
  lemma RefundSettledOnce(s: State, es: seq<Event>, rid: nat)
    requires HoldsOk(s) && rid < |s.refunds| && !s.refunds[rid].status.RefundPending?
    ensures var t := Run(s, es);
            && Exec(t, EvFinalizeRefund(rid)) == t && Exec(t, EvAbortRefund(rid)) == t
            && (s.refunds[rid].status.RefundSucceeded? ==>
                  FinalizeRefund(t, rid) == Ok(t) && AbortRefund(t, rid) == Err(409))
            && (s.refunds[rid].status.RefundFailed? ==>
                  FinalizeRefund(t, rid) == Err(409) && AbortRefund(t, rid) == Ok(t))
  {
    RunHolds(s, es);
    RunRefunds(s, es);
    var t := Run(s, es);
    hide Run;
    assert RefundEvolves(s.refunds[rid], t.refunds[rid]);
    assert t.refunds[rid].sale < |t.sales|;
    if s.refunds[rid].status.RefundFailed? { AbortKeeps(t, rid); }
  }

  // ---- The one recall the books do not survive ----

  /** A recall of a lot already in quarantine is accepted, however many DRAFT recalls hold it. */
  lemma SharedRecallAccepted(s: State, l: nat)
    requires LotKnown(s, l) && s.shelf.lots[l].status.Quarantined? && s.shelf.lots[l].reserved == 0
    ensures Exec(s, EvRecall([l])) == s.(recalls := s.recalls + [Recall(Draft, [l])])
  {
    assert Recallable(s, l);
    assert [l][0] == l && [l][1..] == [];
    assert QuarantineAll(s.shelf, [l]) == QuarantineAll(s.shelf, []) == s.shelf;
    assert s.(shelf := s.shelf) == s;
  }

  lemma CancelOne(s: State, a: nat, l: nat)
    requires a < |s.recalls| && s.recalls[a] == Recall(Draft, [l])
    requires l < |s.shelf.lots| && s.shelf.lots[l].product < |s.shelf.products|
    ensures var t := Exec(s, EvCancel(a));
            t.shelf == ReturnToSellableRollup(s.shelf, l)
            && |t.recalls| == |s.recalls| && forall r :: 0 <= r < |s.recalls| && r != a ==> t.recalls[r] == s.recalls[r]
  {
    assert [l][0] == l && [l][1..] == [];
    var back := ReturnToSellableRollup(s.shelf, l);
    assert ReturnLots(back, []) == back;
  }

  lemma TwoDrafts(s: State, a: nat, b: nat, l: nat)
    requires ShelfOk(s.shelf) && a < |s.recalls| && b < |s.recalls| && a != b
    requires s.recalls[a] == s.recalls[b] == Recall(Draft, [l])
    requires l < |s.shelf.lots| && s.shelf.lots[l].status.Quarantined? && s.shelf.lots[l].remaining > 0
    ensures !ShelfOk(Exec(Exec(s, EvCancel(a)), EvActivate(b)).shelf)
  {
    var mid := Exec(s, EvCancel(a));
    CancelOne(s, a, l);
    ReturnKeeps(s.shelf, l);
    hide Exec, ShelfOk, CancelRecall, ReturnLots, DepleteLots;
    assert mid.shelf.lots[[l][0]].status.Active? && mid.shelf.lots[[l][0]].remaining > 0;
    ActivationExact(mid, b);
  }

  lemma FourSteps(s: State, e: Event, f: Event, g: Event, h: Event)
    ensures Run(s, [e, f, g, h]) == Exec(Exec(Exec(Exec(s, e), f), g), h)
  {
    hide Exec;
    assert [e, f, g, h][..3] == [e, f, g] && [e, f, g][..2] == [e, f] && [e, f][..1] == [e] && [e][..0] == [];
    assert Run(s, [e]) == Exec(Run(s, []), e) == Exec(s, e);
    assert Run(s, [e, f]) == Exec(Run(s, [e]), f);
    assert Run(s, [e, f, g]) == Exec(Run(s, [e, f]), g);
  }

  /** Any lot in quarantine with units on it: recalled twice, the first recall cancelled and the second
      activated, it is zeroed while it is back on sale, and the product row is not told. */
  lemma SharedRecallBreaks(s: State, l: nat)
    requires Inv(s) && l < |s.shelf.lots| && s.shelf.lots[l].status.Quarantined? && s.shelf.lots[l].remaining > 0
    ensures var a := |s.recalls|;
            !ShelfOk(Run(s, [EvRecall([l]), EvRecall([l]), EvCancel(a), EvActivate(a + 1)]).shelf)
  {
    var a := |s.recalls|;
    assert LotOk(s.shelf.lots[l]);
    SharedRecallAccepted(s, l);
    var once := Exec(s, EvRecall([l]));
    SharedRecallAccepted(once, l);
    hide Exec;
    FourSteps(s, EvRecall([l]), EvRecall([l]), EvCancel(a), EvActivate(a + 1));
    TwoDrafts(Exec(once, EvRecall([l])), a, a + 1, l);
  }

  /** In general, activating a recall keeps the books exactly when none of its lots has been put back
      on sale with units or holds in the meantime. */
  lemma ActivationExact(s: State, r: nat)
    requires ShelfOk(s.shelf) && r < |s.recalls| && s.recalls[r].status.Draft?
    ensures ShelfOk(Exec(s, EvActivate(r)).shelf) <==>
              forall i :: 0 <= i < |s.recalls[r].lots| && s.recalls[r].lots[i] < |s.shelf.lots|
                          && s.shelf.lots[s.recalls[r].lots[i]].status.Active? ==>
                s.shelf.lots[s.recalls[r].lots[i]].remaining == 0 && s.shelf.lots[s.recalls[r].lots[i]].reserved == 0
  {
    DepleteLotsExact(s.shelf, s.recalls[r].lots);
  }
}
