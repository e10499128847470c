/** The three phases of a refund and the reconciliation of stuck ones, as whole transactions. All of it
    holds in any state a store can reach; where the books are in order, they stay so. */
module RefundProtocol {
  import opened Outcome
  import opened Sums
  import opened Allocation
  import opened Lots
  import opened StockEngine
  import opened Ledger
  import opened LedgerInvariant
  import opened SaleSteps
  import opened CartPlans
  import opened PaymentSteps
  import opened Holds
  import opened RefundSteps

  /** No stock moves: the sale row changes status between PAID and REFUNDING. */
  lemma Reopen(s: State, id: nat, sale: Sale)
    requires HoldsOk(s) && id < |s.sales| && Took(s.sales[id].status) && !s.sales[id].status.Refunded?
    requires sale == s.sales[id].(status := sale.status, pendingRefund := sale.pendingRefund)
    requires sale.status.Paid? || sale.status.Refunding?
    ensures var t := s.(sales := s.sales[id := sale]);
            SalesOk(s.shelf, t.sales) && HeldOk(t) && KeysOk(t.sales) && SameTally(s, t)
  {
    assert SaleOk(s.shelf, s.sales[id]);
    RowHolds(s, id, s.shelf, sale);
    assert s.(shelf := s.shelf, sales := s.sales[id := sale]) == s.(sales := s.sales[id := sale]);
  }

  lemma ClaimRow(sales: seq<Sale>, refunds: seq<Refund>, id: nat, refund: Refund)
    requires RefundsOk(sales, refunds) && id < |sales| && !sales[id].status.Refunding?
    requires refund.sale == id && refund.status.RefundPending? && refund.lines != []
    requires LinesValid(sales[id].items, refund.lines)
    ensures RefundsOk(sales[id := sales[id].(status := Refunding, pendingRefund := Some(|refunds|))],
                      refunds + [refund])
  {
    var next := sales[id := sales[id].(status := Refunding, pendingRefund := Some(|refunds|))];
    var rows := refunds + [refund];
    forall k: nat | k < |next| && next[k].status.Refunding? ensures RefundOpen(next, rows, k) {
      if k != id { assert RefundOpen(sales, refunds, k); }
    }
  }

  /** Refund rows are no part of reservations or of the tally. */
  lemma OtherRefunds(s: State, refunds: seq<Refund>)
    ensures SameTally(s, s.(refunds := refunds)) && (HeldOk(s) <==> HeldOk(s.(refunds := refunds)))
  {
  }

  /** Claiming moves nothing but the sale into REFUNDING, with one PENDING refund that fits it. */
  lemma ClaimKeeps(s: State, id: nat, restock: bool, requested: seq<RefundLine>)
    requires HoldsOk(s) && ClaimRefund(s, id, restock, requested).Ok?
    ensures var t := ClaimRefund(s, id, restock, requested).value;
            && HoldsOk(t) && t.shelf == s.shelf && t.recalls == s.recalls && t.sales[id].status.Refunding?
            && t.sales[id].pendingRefund == Some(|s.refunds|) && |t.refunds| == |s.refunds| + 1
            && SameTally(s, t) && (Inv(s) ==> Inv(t))
  {
    var t := ClaimRefund(s, id, restock, requested).value;
    var refund := t.refunds[|s.refunds|];
    Reopen(s, id, t.sales[id]);
    ClaimRow(s.sales, s.refunds, id, refund);
    assert t == s.(sales := t.sales).(refunds := t.refunds);
    OtherRefunds(s.(sales := t.sales), t.refunds);
    InvIs(s);
    InvIs(t);
  }

  /** Closing the sale's open refund: nobody else's refund is touched. */
  lemma CloseRefund(sales: seq<Sale>, refunds: seq<Refund>, rid: nat, sale: Sale, status: RefundStatus)
    requires RefundsOk(sales, refunds) && rid < |refunds| && refunds[rid].status.RefundPending?
    requires !sale.status.Refunding? && !status.RefundPending?
    ensures RefundsOk(sales[refunds[rid].sale := sale], refunds[rid := refunds[rid].(status := status)])
  {
    var id := refunds[rid].sale;
    var next, rows := sales[id := sale], refunds[rid := refunds[rid].(status := status)];
    forall k: nat | k < |next| && next[k].status.Refunding? ensures RefundOpen(next, rows, k) {
      assert RefundOpen(sales, refunds, k);
    }
  }

  /** The sale a PENDING refund belongs to. */
  lemma OpenSale(s: State, rid: nat)
    requires HoldsOk(s) && rid < |s.refunds| && s.refunds[rid].status.RefundPending?
    ensures var id := s.refunds[rid].sale;
            && id < |s.sales| && s.sales[id].status.Refunding? && s.sales[id].pendingRefund == Some(rid)
            && SaleOk(s.shelf, s.sales[id]) && LinesValid(s.sales[id].items, s.refunds[rid].lines)
            && ItemsOk(s.shelf, s.sales[id].items) && LockedCopy(s.shelf.lots, s.shelf.lots)
  {
    assert SaleOk(s.shelf, s.sales[s.refunds[rid].sale]);
  }

  /** A PENDING refund can always be finalized unless it restocks goods of a recalled or expired lot,
      and then it is refused with 409 and stays open: no unit of it is ever impossible to map to a lot. */
  lemma FinalizeRefused(s: State, rid: nat)
    requires HoldsOk(s) && rid < |s.refunds| && s.refunds[rid].status.RefundPending?
    ensures var refund := s.refunds[rid];
            FinalizeRefund(s, rid).Err? <==>
              refund.restock && TaintedLines(s.shelf.lots, s.sales[refund.sale].items, refund.lines)
    ensures FinalizeRefund(s, rid).Err? ==> FinalizeRefund(s, rid).status == 409
  {
    OpenSale(s, rid);
    var refund := s.refunds[rid];
    FinalizeLinesKeep(s.shelf, s.shelf.lots, s.sales[refund.sale].items, refund.lines, refund.restock);
  }

  lemma FinalizeGranted(s: State, rid: nat)
    requires rid < |s.refunds| && s.refunds[rid].sale < |s.sales| && s.refunds[rid].status.RefundPending?
    requires FinalizeRefund(s, rid).Ok?
    ensures var refund := s.refunds[rid];
            var done := FinalizeLines(s.shelf, s.shelf.lots, s.sales[refund.sale].items, refund.lines, refund.restock);
            done.Ok?
            && FinalizeRefund(s, rid)
               == Ok(s.(shelf := done.value.shelf, refunds := s.refunds[rid := refund.(status := RefundSucceeded)],
                        sales := s.sales[refund.sale := SettleRefund(s.sales[refund.sale], refund, done.value.items)]))
  {
    hide FinalizeLines, SettleRefund;
  }

  /** The sale row after its refund, beside the shelf after the goods came back. */
  lemma SettledRefund(s: State, rid: nat, done: Restocked)
    requires HoldsOk(s) && rid < |s.refunds| && s.refunds[rid].status.RefundPending?
    requires s.refunds[rid].sale < |s.sales|
             && LinesSettled(s.shelf, s.shelf.lots, s.sales[s.refunds[rid].sale].items, s.refunds[rid].lines, done)
    ensures var id := s.refunds[rid].sale;
            var t := s.(shelf := done.shelf,
                sales := s.sales[id := SettleRefund(s.sales[id], s.refunds[rid], done.items)]);
            HoldsWf(t.shelf) && SalesOk(t.shelf, t.sales) && HeldOk(t) && KeysOk(t.sales) && SameTally(s, t)
  {
    OpenSale(s, rid);
    QuietWf(s.shelf, done.shelf);
    var id := s.refunds[rid].sale;
    var next := SettleRefund(s.sales[id], s.refunds[rid], done.items);
    assert SaleOk(done.shelf, next);
    RowHolds(s, id, done.shelf, next);
  }

  /** Finalizing a PENDING refund: the lines it covers move on by what it refunds, the goods it
      restocks are back on their lots, and shelf plus customers hold what they held. */
  lemma FinalizeKeeps(s: State, rid: nat)
    requires HoldsOk(s) && rid < |s.refunds| && s.refunds[rid].status.RefundPending? && FinalizeRefund(s, rid).Ok?
    ensures var t, refund := FinalizeRefund(s, rid).value, s.refunds[rid];
            var id := refund.sale;
            && HoldsOk(t) && SaleMoved(s.shelf, t.shelf) && t.recalls == s.recalls && (Inv(s) ==> Inv(t))
            && Advanced(s.sales[id].items, t.sales[id].items, refund.lines)
            && (t.sales[id].status == if FullyRefunded(t.sales[id].items) then Refunded else Paid)
            && SameTally(s, t)
  {
    hide Inv, RefundsOk, SaleMoved, ItemsOk, LinesValid, SaleOk, FinalizeLines, SameTally, Advanced;
    OpenSale(s, rid);
    FinalizeGranted(s, rid);
    hide FinalizeRefund;
    var refund := s.refunds[rid];
    var id := refund.sale;
    FinalizeLinesKeep(s.shelf, s.shelf.lots, s.sales[id].items, refund.lines, refund.restock);
    var done := FinalizeLines(s.shelf, s.shelf.lots, s.sales[id].items, refund.lines, refund.restock).value;
    var sale := SettleRefund(s.sales[id], refund, done.items);
    SettledRefund(s, rid, done);
    CloseRefund(s.sales, s.refunds, rid, sale, RefundSucceeded);
    var mid := s.(shelf := done.shelf, sales := s.sales[id := sale]);
    OtherRefunds(mid, s.refunds[rid := refund.(status := RefundSucceeded)]);
    TallyOn(s, mid, FinalizeRefund(s, rid).value);
    if Inv(s) {
      InvIs(s);
      StaysInOrder(s, FinalizeRefund(s, rid).value);
    }
  }

  lemma TallyOn(s: State, mid: State, t: State)
    requires SameTally(s, mid) && SameTally(mid, t)
    ensures SameTally(s, t)
  {
  }

  /** A refund that failed or never reached the processor gives the sale back, untouched. */
  lemma AbortKeeps(s: State, rid: nat)
    requires HoldsOk(s) && AbortRefund(s, rid).Ok?
    ensures var t := AbortRefund(s, rid).value;
            && HoldsOk(t) && t.shelf == s.shelf && t.recalls == s.recalls && SameTally(s, t) && (Inv(s) ==> Inv(t))
            && (s.refunds[rid].status.RefundPending? ==> t.sales[s.refunds[rid].sale].status.Paid?)
            && (!s.refunds[rid].status.RefundPending? ==> t == s)
  {
    var id := s.refunds[rid].sale;
    var t := AbortRefund(s, rid).value;
    if s.refunds[rid].status.RefundPending? {
      OpenSale(s, rid);
      Reopen(s, id, t.sales[id]);
      CloseRefund(s.sales, s.refunds, rid, t.sales[id], RefundFailed);
      assert t == s.(sales := t.sales).(refunds := t.refunds);
      OtherRefunds(s.(sales := t.sales), t.refunds);
      InvIs(s);
      InvIs(t);
    } else {
      if s.sales[id].status.Refunding? { assert RefundOpen(s.sales, s.refunds, id); }
      assert t.refunds == s.refunds;
      assert t == s;
    }
  }

  /** The reconciliation job, whatever the processor answers. */
  lemma ReconcileKeeps(s: State, id: nat, answer: StripeAnswer)
    requires HoldsOk(s) && ReconcileRefund(s, id, answer).Ok?
    ensures var t := ReconcileRefund(s, id, answer).value;
            && HoldsOk(t) && SaleMoved(s.shelf, t.shelf) && t.recalls == s.recalls && SameTally(s, t)
            && (Inv(s) ==> Inv(t))
  {
    if id < |s.sales| && s.sales[id].status.Refunding? {
      assert RefundOpen(s.sales, s.refunds, id);
      var rid := s.sales[id].pendingRefund.value;
      hide HoldsOk;
      if ReconcileRefund(s, id, answer) == FinalizeRefund(s, rid) {
        FinalizeKeeps(s, rid);
      } else if ReconcileRefund(s, id, answer) == AbortRefund(s, rid) {
        AbortKeeps(s, rid);
      }
    }
  }

  /** The refunded lines are all the sale has left exactly when the sale ends up refunded in full. */
  lemma ClosesExactly(before: seq<SaleItem>, after: seq<SaleItem>, lines: seq<RefundLine>)
    requires Advanced(before, after, lines)
    ensures RefundsAll(before, lines) <==> FullyRefunded(after)
  {
    if FullyRefunded(after) {
      forall i | 0 <= i < |before| ensures before[i].refundedQuantity + Planned(lines, i) >= before[i].quantity {
        assert after[i].refundedQuantity >= after[i].quantity;
      }
    }
    if RefundsAll(before, lines) {
      forall i | 0 <= i < |after| ensures after[i].refundedQuantity >= after[i].quantity {
        assert before[i].refundedQuantity + Planned(lines, i) >= before[i].quantity;
      }
    }
  }

  /** The rows once refund `rid` is booked: it SUCCEEDED, its amounts are on the sale, its lines have moved
      on, and the sale is REFUNDED if no unit of it is left and PAID if one is. */
  predicate Booked(s: State, t: State, rid: nat) {
    && rid < |s.refunds| && s.refunds[rid].sale < |s.sales| && |t.sales| == |s.sales|
    && var refund, id := s.refunds[rid], s.refunds[rid].sale;
       var sale, after := s.sales[id], t.sales[id];
       && t.refunds == s.refunds[rid := refund.(status := RefundSucceeded)] && t.sales == s.sales[id := after]
       && after == sale.(status := after.status, items := after.items, pendingRefund := None,
                         refundedAmount := sale.refundedAmount + refund.amount,
                         refundedOperatorAmount := sale.refundedOperatorAmount + refund.operatorAmount)
       && Advanced(sale.items, after.items, refund.lines)
       && after.status == if forall i :: 0 <= i < |sale.items| ==>
                               sale.items[i].refundedQuantity + Planned(refund.lines, i) >= sale.items[i].quantity
                          then Refunded else Paid
  }

  lemma FinalizeBooks(s: State, rid: nat)
    requires HoldsOk(s) && rid < |s.refunds| && s.refunds[rid].status.RefundPending? && FinalizeRefund(s, rid).Ok?
    ensures Booked(s, FinalizeRefund(s, rid).value, rid)
  {
    hide *;
    OpenSale(s, rid);
    FinalizeKeeps(s, rid);
    FinalizeGranted(s, rid);
    var refund := s.refunds[rid];
    var done := FinalizeLines(s.shelf, s.shelf.lots, s.sales[refund.sale].items, refund.lines, refund.restock).value;
    SettledBooks(s, rid, done);
  }

  lemma SettledBooks(s: State, rid: nat, done: Restocked)
    requires rid < |s.refunds| && s.refunds[rid].sale < |s.sales|
    ensures var refund, id := s.refunds[rid], s.refunds[rid].sale;
            var t := s.(shelf := done.shelf, refunds := s.refunds[rid := refund.(status := RefundSucceeded)],
                        sales := s.sales[id := SettleRefund(s.sales[id], refund, done.items)]);
            && t.sales[id].items == done.items
            && (Advanced(s.sales[id].items, done.items, refund.lines) ==> Booked(s, t, rid))
  {
    hide Planned;
    var before, lines := s.sales[s.refunds[rid].sale].items, s.refunds[rid].lines;
    if Advanced(before, done.items, lines) { ClosesExactly(before, done.items, lines); }
  }

  /** The whole answer to finalizing and to aborting a refund. */
  lemma RefundAnswers(s: State, rid: nat)
    requires HoldsOk(s)
    ensures var done, undone := FinalizeRefund(s, rid), AbortRefund(s, rid);
            if rid >= |s.refunds| then done == undone == Err(404)
            else
              var refund := s.refunds[rid];
              && refund.sale < |s.sales|
              && (refund.status.RefundSucceeded? ==> done == Ok(s) && undone == Err(409))
              && (refund.status.RefundFailed? ==> done == Err(409) && undone == Ok(s))
              && (refund.status.RefundPending? ==>
                    && (if refund.restock && TaintedLines(s.shelf.lots, s.sales[refund.sale].items, refund.lines)
                        then done == Err(409) else done.Ok? && Booked(s, done.value, rid))
                    && undone == Ok(s.(refunds := s.refunds[rid := refund.(status := RefundFailed)],
                                       sales := s.sales[refund.sale := s.sales[refund.sale].(
                                         status := Paid, pendingRefund := None)])))
  {
    if rid < |s.refunds| {
      if s.refunds[rid].status.RefundPending? {
        OpenSale(s, rid);
        FinalizeRefused(s, rid);
        hide TaintedLines, Booked, FinalizeRefund, HoldsOk;
        if FinalizeRefund(s, rid).Ok? { FinalizeBooks(s, rid); }
      } else {
        if s.refunds[rid].status.RefundFailed? { AbortKeeps(s, rid); }
        hide TaintedLines, Booked;
      }
    }
  }

  /** The whole answer of the reconciliation job. A sale that is not REFUNDING is left alone. Money that left
      is booked, unless the refund restocks goods of a recalled or expired lot. Money that did not leave is
      not: the refund FAILED and the sale is PAID as before. While the processor cannot tell, nothing moves. */
  lemma ReconcileExact(s: State, id: nat, answer: StripeAnswer)
    requires HoldsOk(s)
    ensures id >= |s.sales| || !s.sales[id].status.Refunding? ==> ReconcileRefund(s, id, answer) == Ok(s)
    ensures id < |s.sales| && s.sales[id].status.Refunding? ==>
            var r, sale := ReconcileRefund(s, id, answer), s.sales[id];
            && sale.pendingRefund.Some? && sale.pendingRefund.value < |s.refunds|
            && var rid := sale.pendingRefund.value;
               var refund := s.refunds[rid];
               && refund.sale == id && refund.status.RefundPending?
               && (answer.StripeSucceeded? ==>
                     if refund.restock && TaintedLines(s.shelf.lots, sale.items, refund.lines) then r == Err(409)
                     else r.Ok? && Booked(s, r.value, rid))
               && (answer.StripeFailed? || answer == StripeUnknown(true) ==>
                     r == Ok(s.(refunds := s.refunds[rid := refund.(status := RefundFailed)],
                                sales := s.sales[id := sale.(status := Paid, pendingRefund := None)])))
               && (answer.StripePending? || answer == StripeUnknown(false) ==> r == Ok(s))
               && (answer.StripeUnreachable? ==> r.Err?)
  {
    if id < |s.sales| && s.sales[id].status.Refunding? {
      assert RefundOpen(s.sales, s.refunds, id);
      hide HoldsOk, TaintedLines, Booked, FinalizeRefund, AbortRefund;
      RefundAnswers(s, s.sales[id].pendingRefund.value);
    }
  }

  /** Every step of the protocol is harmless when repeated: finalizing or aborting a refund a second
      time, now or later, changes nothing. */
  lemma FinalizeOnce(s: State, rid: nat)
    requires FinalizeRefund(s, rid).Ok?
    ensures FinalizeRefund(FinalizeRefund(s, rid).value, rid) == Ok(FinalizeRefund(s, rid).value)
    ensures AbortRefund(FinalizeRefund(s, rid).value, rid) == Err(409)
  {
  }

  lemma AbortOnce(s: State, rid: nat)
    requires HoldsOk(s) && AbortRefund(s, rid).Ok?
    ensures AbortRefund(AbortRefund(s, rid).value, rid) == Ok(AbortRefund(s, rid).value)
    ensures FinalizeRefund(AbortRefund(s, rid).value, rid) == Err(409)
  {
    AbortKeeps(s, rid);
    var t := AbortRefund(s, rid).value;
    assert t.refunds[rid := t.refunds[rid].(status := RefundFailed)] == t.refunds;
  }

  // ---- What refunds have put back, lot by lot ----

  /** All parts of a line between them cover the units 0 .. n once. */
  lemma {:induction false} RestoredWithin(allocs: seq<Alloc>, parts: seq<Part>, n: int, l: nat)
    requires Positive(allocs) && Tiled(parts, n) && n <= Total(allocs)
    ensures 0 <= n
    ensures 0 <= Sum(parts, PartFn(allocs, l)) <= UnitsOn(allocs, l, 0, n)
    ensures (forall i :: 0 <= i < |parts| ==> parts[i].restock) ==>
            Sum(parts, PartFn(allocs, l)) == UnitsOn(allocs, l, 0, n)
    ensures (forall i :: 0 <= i < |parts| ==> !parts[i].restock) ==> Sum(parts, PartFn(allocs, l)) == 0
  {
    if parts != [] {
      var k := |parts| - 1;
      var last := parts[k];
      RestoredWithin(allocs, parts[..k], last.from, l);
      UnitsSplit(allocs, l, 0, last.from, n);
      UnitsNonNeg(allocs, l, last.from, n);
    }
  }

  /** Whatever mix of restocking and no-restock refunds a line has seen: the parts are disjoint unit
      intervals from the first unit on, no lot got back more than it supplied, and a line refunded in
      full with everything restocked has every lot exactly back. */
  lemma RefundSlicing(shelf: Shelf, item: SaleItem, l: nat)
    requires ItemOk(shelf, item)
    ensures forall i, j :: 0 <= i < j < |item.parts| ==>
              item.parts[i].from + item.parts[i].qty <= item.parts[j].from
    ensures 0 <= Restored(item, l) <= On(item.allocs, l)
    ensures Remaining(item) == 0 && (forall i :: 0 <= i < |item.parts| ==> item.parts[i].restock) ==>
              Restored(item, l) == On(item.allocs, l)
  {
    PartsApart(item.parts, item.refundedQuantity);
    RestoredWithin(item.allocs, item.parts, item.refundedQuantity, l);
    UnitsAtMost(item.allocs, l, 0, item.refundedQuantity);
    UnitsAll(item.allocs, l);
  }

  lemma {:induction false} PartsApart(parts: seq<Part>, n: int)
    requires Tiled(parts, n)
    ensures forall i :: 0 <= i < |parts| ==> parts[i].from + parts[i].qty <= n
    ensures forall i, j :: 0 <= i < j < |parts| ==> parts[i].from + parts[i].qty <= parts[j].from
  {
    if parts != [] {
      var k := |parts| - 1;
      PartsApart(parts[..k], parts[k].from);
      forall i | 0 <= i < k ensures parts[i].from + parts[i].qty <= parts[k].from { assert parts[i] == parts[..k][i]; }
      forall i, j | 0 <= i < j < |parts| ensures parts[i].from + parts[i].qty <= parts[j].from {
        if j < k { assert parts[i] == parts[..k][i] && parts[j] == parts[..k][j]; }
      }
    }
  }

  /** What a customer still holds of a lot is never negative: no sale gives back more than it took. */
  lemma NetTakeNonNeg(shelf: Shelf, sale: Sale, l: nat)
    requires SaleOk(shelf, sale)
    ensures 0 <= NetTake(sale, l) <= SaleOn(sale, l)
    ensures !Took(sale.status) ==> NetTake(sale, l) == 0
  {
    forall i | 0 <= i < |sale.items|
      ensures ItemNetFn(l)(sale.items[i]) >= 0 && Restored(sale.items[i], l) >= 0 && On(sale.items[i].allocs, l) >= 0
    {
      assert ItemOk(shelf, sale.items[i]);
      RefundSlicing(shelf, sale.items[i], l);
    }
    var back := (item: SaleItem) => Restored(item, l);
    SumNonNeg(sale.items, ItemNetFn(l));
    SumNonNeg(sale.items, ItemOnFn(l));
    SumNonNeg(sale.items, back);
    SumAdd(sale.items, ItemNetFn(l), back, ItemOnFn(l));
  }
}
