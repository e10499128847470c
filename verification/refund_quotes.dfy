/** What a customer who asks for everything back is quoted. */
module RefundQuotes {
  import opened Outcome
  import opened Sums
  import opened Money
  import opened Allocation
  import opened Checkout
  import opened Lots
  import opened Ledger
  import opened LedgerInvariant
  import opened RefundMoney

  lemma {:induction false} PlannedAppend(lines: seq<RefundLine>, r: RefundLine, i: nat)
    requires forall k :: 0 <= k < |lines| ==> lines[k].item != r.item
    ensures Planned(lines + [r], i) == if r.item == i then r.quantity else Planned(lines, i)
    decreases |lines|
  {
    if lines != [] {
      assert (lines + [r])[1..] == lines[1..] + [r];
      PlannedAppend(lines[1..], r, i);
    }
  }

  /** `lines` is what is left of the first `n` lines of the sale. */
  predicate IsRest(items: seq<SaleItem>, n: nat, lines: seq<RefundLine>)
    requires n <= |items|
  {
    && LinesValid(items, lines)
    && (forall k :: 0 <= k < |lines| ==> lines[k].item < n)
    && (forall i :: 0 <= i < n ==> Planned(lines, i) == Remaining(items[i]))
    && (lines == [] ==> forall i :: 0 <= i < n ==> Remaining(items[i]) == 0)
  }

  lemma NotYetPlanned(lines: seq<RefundLine>, i: nat)
    requires forall k :: 0 <= k < |lines| ==> lines[k].item < i
    ensures Planned(lines, i) == 0
    decreases |lines|
  {
    if lines != [] { NotYetPlanned(lines[1..], i); }
  }

  lemma OneMoreLine(items: seq<SaleItem>, k: nat, before: seq<RefundLine>)
    requires k < |items| && IsRest(items, k, before) && Remaining(items[k]) > 0
    ensures IsRest(items, k + 1, before + [RefundLine(k, Remaining(items[k]))])
  {
    var lines := before + [RefundLine(k, Remaining(items[k]))];
    forall i | 0 <= i < k + 1 ensures Planned(lines, i) == Remaining(items[i]) {
      PlannedAppend(before, RefundLine(k, Remaining(items[k])), i);
    }
  }

  lemma NoMoreLine(items: seq<SaleItem>, k: nat, before: seq<RefundLine>)
    requires k < |items| && IsRest(items, k, before) && Remaining(items[k]) == 0
    ensures IsRest(items, k + 1, before)
  {
    NotYetPlanned(before, k);
  }

  lemma RestStep(items: seq<SaleItem>, k: nat)
    requires k < |items|
    ensures RemainingLines(items[..k + 1])
         == RemainingLines(items[..k]) + (if Remaining(items[k]) > 0 then [RefundLine(k, Remaining(items[k]))] else [])
  {
    assert items[..k + 1][..k] == items[..k] && items[..k + 1][k] == items[k];
  }

  /** Each line with units left appears once, with all of them. */
  lemma {:induction false} RestOfSale(items: seq<SaleItem>, n: nat)
    requires n <= |items| && forall i :: 0 <= i < n ==> Remaining(items[i]) >= 0
    ensures IsRest(items, n, RemainingLines(items[..n]))
  {
    if n > 0 {
      hide *;
      RestOfSale(items, n - 1);
      RestStep(items, n - 1);
      var before := RemainingLines(items[..n - 1]);
      assert before + [] == before;
      if Remaining(items[n - 1]) > 0 { OneMoreLine(items, n - 1, before); } else { NoMoreLine(items, n - 1, before); }
    }
  }

  function RestAmount(sale: Sale): int { Sum(RemainingLines(sale.items), LineAmountFn(sale.items)) }

  lemma RestLines(items: seq<SaleItem>)
    requires forall i :: 0 <= i < |items| ==> Remaining(items[i]) >= 0
    requires !FullyRefunded(items)
    ensures LinesValid(items, RemainingLines(items)) && RemainingLines(items) != []
    ensures RefundsAll(items, RemainingLines(items))
  {
    RestOfSale(items, |items|);
    assert items[..|items|] == items;
    var lines := RemainingLines(items);
    var i :| 0 <= i < |items| && items[i].refundedQuantity < items[i].quantity;
    assert Remaining(items[i]) > 0;
    forall i | 0 <= i < |items| ensures items[i].refundedQuantity + Planned(lines, i) >= items[i].quantity {
      assert Planned(lines, i) == Remaining(items[i]);
    }
  }

  lemma RestQuote(sale: Sale)
    requires RefundsAll(sale.items, RemainingLines(sale.items))
    ensures var left := sale.total - sale.refundedAmount;
            QuoteRefund(sale, RemainingLines(sale.items))
            == if RestAmount(sale) > 0 && left > 0
               then Ok(Quote(left, sale.operatorAmount - sale.refundedOperatorAmount))
               else Err(409)
  {
  }

  /** Asking for everything that is left of a paid sale: granted exactly when the lines left are still
      worth a cent and a cent is left to give; then the customer gets all that is left, to the cent, and
      the operator is charged all that is left, whatever earlier refunds rounded to. */
  lemma RefundTheRest(s: State, id: nat, restock: bool)
    requires SalesOk(s.shelf, s.sales) && id < |s.sales| && s.sales[id].status.Paid?
    ensures var sale := s.sales[id];
            var left := sale.total - sale.refundedAmount;
            var claim := ClaimRefund(s, id, restock, []);
            if RestAmount(sale) > 0 && left > 0 then
              claim.Ok? && claim.value.refunds[|s.refunds|..]
                == [Refund(id, RefundPending, restock, RemainingLines(sale.items), left,
                           sale.operatorAmount - sale.refundedOperatorAmount)]
            else claim == Err(409)
  {
    var sale := s.sales[id];
    assert SaleOk(s.shelf, sale);
    forall i | 0 <= i < |sale.items| ensures Remaining(sale.items[i]) >= 0 { assert ItemOk(s.shelf, sale.items[i]); }
    RestLines(sale.items);
    RestQuote(sale);
  }

  lemma WholeLine(item: SaleItem)
    requires item.quantity > 0
    ensures LineNet(item, item.quantity) == NetTotal(item) && LineTax(item, item.quantity) == item.tax
  {
    HalfUpExact(NetTotal(item), item.quantity);
    HalfUpExact(item.tax, item.quantity);
  }

  lemma {:induction false} WholeLines(items: seq<SaleItem>, n: nat)
    requires n <= |items| && forall i :: 0 <= i < n ==> items[i].quantity > 0 && items[i].refundedQuantity == 0
    ensures Sum(RemainingLines(items[..n]), LineAmountFn(items)) == Sum(items[..n], ChargeFn())
  {
    if n > 0 {
      var k := n - 1;
      WholeLines(items, k);
      assert items[..n][..k] == items[..k] && items[..n][k] == items[k];
      WholeLine(items[k]);
      SumAppend(RemainingLines(items[..k]), RefundLine(k, items[k].quantity), LineAmountFn(items));
    }
  }

  /** A sale nothing of which was refunded yet can be refunded in full, for exactly what was paid, if
      and only if something was paid. */
  lemma WholeRefund(s: State, id: nat, restock: bool)
    requires SalesOk(s.shelf, s.sales) && MoneyOk(s.sales, s.refunds) && id < |s.sales| && s.sales[id].status.Paid?
    requires forall i :: 0 <= i < |s.sales[id].items| ==> s.sales[id].items[i].refundedQuantity == 0
    requires s.sales[id].refundedAmount == 0
    ensures RestAmount(s.sales[id]) == s.sales[id].total
    ensures ClaimRefund(s, id, restock, []).Ok? <==> s.sales[id].total > 0
  {
    var items := s.sales[id].items;
    assert SaleOk(s.shelf, s.sales[id]) && SaleMoney(s.sales[id], id, s.refunds);
    forall i | 0 <= i < |items| ensures items[i].quantity > 0 { assert ItemOk(s.shelf, items[i]); }
    WholeLines(items, |items|);
    assert items[..|items|] == items;
    RefundTheRest(s, id, restock);
  }

  // ---- Piecemeal refunds that go wrong ----

  /** A sale after a refund of one line, nothing restocked, at the money it was quoted. */
  function AfterRefund(sale: Sale, line: RefundLine, q: Quote): Sale
    requires line.item < |sale.items|
  {
    var items := sale.items[line.item := RefundItem(sale.items[line.item], line.quantity, false)];
    sale.(status := if FullyRefunded(items) then Refunded else Paid, items := items, pendingRefund := None,
          refundedAmount := sale.refundedAmount + q.amount,
          refundedOperatorAmount := sale.refundedOperatorAmount + q.operatorAmount)
  }

  /** The two steps of such a refund: claimed, then finalized. */
  function StepsOf(s: State, id: nat, line: RefundLine): seq<Event> {
    [EvClaim(id, false, [line]), EvFinalizeRefund(|s.refunds|)]
  }

  predicate Granted(s: State, id: nat, line: RefundLine, q: Quote) {
    && id < |s.sales| && s.sales[id].status.Paid?
    && LinesValid(s.sales[id].items, [line]) && QuoteRefund(s.sales[id], [line]) == Ok(q)
  }

  lemma OneRefund(s: State, id: nat, line: RefundLine, q: Quote)
    requires Granted(s, id, line, q)
    ensures [line][0].item < |s.sales[id].items|
    ensures var t := Run(s, StepsOf(s, id, line));
            && |t.refunds| == |s.refunds| + 1 && t.shelf == s.shelf
            && t.sales == s.sales[id := AfterRefund(s.sales[id], line, q)]
  {
    TwoSteps(s, EvClaim(id, false, [line]), EvFinalizeRefund(|s.refunds|));
    Claimed(s, id, line, q);
    var mid, sale := Exec(s, EvClaim(id, false, [line])), s.sales[id];
    Finalized(mid, |s.refunds|, line);
    hide *;
    SettledAsQuoted(sale, line, q, Some(|s.refunds|), mid.refunds[|s.refunds|]);
    var t := Exec(mid, EvFinalizeRefund(|s.refunds|));
    assert t.sales == s.sales[id := t.sales[id]];
  }

  lemma SettledAsQuoted(sale: Sale, line: RefundLine, q: Quote, pending: Option<nat>, refund: Refund)
    requires line.item < |sale.items| && refund.amount == q.amount && refund.operatorAmount == q.operatorAmount
    ensures SettleRefund(sale.(status := Refunding, pendingRefund := pending), refund,
                         sale.items[line.item := RefundItem(sale.items[line.item], line.quantity, false)])
         == AfterRefund(sale, line, q)
  {
    hide FullyRefunded, RefundItem;
  }

  lemma TwoSteps(s: State, e: Event, f: Event)
    ensures Run(s, [e, f]) == Exec(Exec(s, e), f)
  {
    hide Exec;
    assert [e, f][..1] == [e] && [e][..0] == [];
    assert Run(s, [e]) == Exec(Run(s, []), e);
  }

  lemma Finalized(s: State, rid: nat, line: RefundLine)
    requires rid < |s.refunds| && s.refunds[rid].status.RefundPending? && s.refunds[rid].sale < |s.sales|
    requires s.refunds[rid].lines == [line] && !s.refunds[rid].restock
             && LinesValid(s.sales[s.refunds[rid].sale].items, [line])
    ensures var refund, sale := s.refunds[rid], s.sales[s.refunds[rid].sale];
            && [line][0].item < |sale.items|
            && Exec(s, EvFinalizeRefund(rid))
               == s.(refunds := s.refunds[rid := refund.(status := RefundSucceeded)],
                     sales := s.sales[refund.sale := SettleRefund(sale, refund,
                                sale.items[line.item := RefundItem(sale.items[line.item], line.quantity, false)])])
  {
    Moved(s, s.shelf.lots, s.sales[s.refunds[rid].sale].items, line);
    hide LinesValid, FinalizeLines, RefundItem, SettleRefund;
  }

  lemma Claimed(s: State, id: nat, line: RefundLine, q: Quote)
    requires Granted(s, id, line, q)
    ensures Exec(s, EvClaim(id, false, [line]))
         == s.(refunds := s.refunds + [Refund(id, RefundPending, false, [line], q.amount, q.operatorAmount)],
               sales := s.sales[id := s.sales[id].(status := Refunding, pendingRefund := Some(|s.refunds|))])
  {
    hide LinesValid, QuoteRefund;
  }

  lemma Moved(s: State, locked: seq<Lot>, items: seq<SaleItem>, line: RefundLine)
    requires LinesValid(items, [line])
    ensures [line][0].item < |items|
    ensures FinalizeLines(s.shelf, locked, items, [line], false)
         == Ok(Restocked(s.shelf, items[line.item := RefundItem(items[line.item], line.quantity, false)]))
  {
    assert [line][0] == line && [line][1..] == [];
    var next := items[line.item := RefundItem(items[line.item], line.quantity, false)];
    assert FinalizeLines(s.shelf, locked, next, [], false) == Ok(Restocked(s.shelf, next));
  }

  /** A sale with no cent left has no refund left, whatever is asked for. */
  lemma NothingLeft(s: State, id: nat, restock: bool, requested: seq<RefundLine>)
    requires id < |s.sales| && s.sales[id].status.Paid? && s.sales[id].refundedAmount == s.sales[id].total
    ensures ClaimRefund(s, id, restock, requested).Err?
    ensures requested != [] && LinesValid(s.sales[id].items, requested) ==>
            ClaimRefund(s, id, restock, requested).status == 409
  {
    hide LinesValid, RemainingLines, RefundsAll;
  }

  /** Three units for one cent: two of them are worth the whole cent, and the customer who then returns
      the third is told there is nothing left to refund, as for anything else he may ask. The sale never
      becomes REFUNDED. */
  lemma LastUnitRefused(s: State, id: nat, item: SaleItem, restock: bool)
    requires id < |s.sales| && s.sales[id].status.Paid? && s.sales[id].items == [item]
    requires item.quantity == 3 && NetTotal(item) == 1 && item.tax == 0 && item.refundedQuantity == 0
    requires s.sales[id].total == 1 && s.sales[id].refundedAmount == 0
    ensures var t := Run(s, StepsOf(s, id, RefundLine(0, 2)));
            && id < |t.sales| && t.sales[id].status.Paid? && |t.sales[id].items| == 1
            && Remaining(t.sales[id].items[0]) == 1
            && ClaimRefund(t, id, restock, [RefundLine(0, 1)]) == Err(409)
            && forall requested :: ClaimRefund(t, id, restock, requested).Err?
  {
    var two := RefundLine(0, 2);
    TwoUnits(s.sales[id], item);
    var q := QuoteRefund(s.sales[id], [two]).value;
    assert Granted(s, id, two, q);
    TwoOfThree(s.sales[id], item, q);
    hide *;
    OneRefund(s, id, two, q);
    NoThird(Run(s, StepsOf(s, id, two)), id, restock);
  }

  /** The sale once the cent is gone: one unit left, and nothing to give for it. */
  predicate CentGone(sale: Sale) {
    && sale.status.Paid? && |sale.items| == 1 && Remaining(sale.items[0]) == 1
    && sale.refundedAmount == sale.total
  }

  lemma TwoOfThree(sale: Sale, item: SaleItem, q: Quote)
    requires sale.items == [item] && item.quantity == 3 && item.refundedQuantity == 0
    requires sale.total == 1 && sale.refundedAmount == 0 && q.amount == 1
    ensures CentGone(AfterRefund(sale, RefundLine(0, 2), q))
  {
    var after := AfterRefund(sale, RefundLine(0, 2), q);
    assert after.items[0].refundedQuantity < after.items[0].quantity;
  }

  lemma NoThird(t: State, id: nat, restock: bool)
    requires id < |t.sales| && CentGone(t.sales[id])
    ensures |t.sales[id].items| == 1 && t.sales[id].status.Paid? && Remaining(t.sales[id].items[0]) == 1
    ensures ClaimRefund(t, id, restock, [RefundLine(0, 1)]) == Err(409)
    ensures forall requested :: ClaimRefund(t, id, restock, requested).Err?
  {
    assert [RefundLine(0, 1)][0] == RefundLine(0, 1) && LinesValid(t.sales[id].items, [RefundLine(0, 1)]);
    hide LinesValid, ClaimRefund;
    forall requested ensures ClaimRefund(t, id, restock, requested).Err? { NothingLeft(t, id, restock, requested); }
    NothingLeft(t, id, restock, [RefundLine(0, 1)]);
  }

  lemma TwoUnits(sale: Sale, item: SaleItem)
    requires sale.items == [item] && sale.total == 1 && sale.refundedAmount == 0
    requires item.quantity == 3 && NetTotal(item) == 1 && item.tax == 0 && item.refundedQuantity == 0
    ensures LinesValid(sale.items, [RefundLine(0, 2)])
    ensures QuoteRefund(sale, [RefundLine(0, 2)]).Ok? && QuoteRefund(sale, [RefundLine(0, 2)]).value.amount == 1
  {
    var two := RefundLine(0, 2);
    NearestUnique(2, 3, 1);
    NearestUnique(0, 3, 0);
    assert [two][0] == two && Planned([two], 0) == 2;
    assert LineNet(item, 2) == 1 && LineTax(item, 2) == 0;
    SumSingleton(two, LineAmountFn(sale.items));
    assert !RefundsAll(sale.items, [two]) by { assert sale.items[0].refundedQuantity + Planned([two], 0) < 3; }
  }

  /** Four one-cent units at list price, of which the operator earned 2 cents, `k` of them refunded. */
  predicate FourUnits(sale: Sale, k: int) {
    && |sale.items| == 1 && sale.bearer.CoopBears? && sale.operatorBase == 4 && sale.operatorAmount == 2
       && sale.total == 4
    && sale.items[0].quantity == 4 && sale.items[0].price == 1 && sale.items[0].discount == 0 && sale.items[0].tax == 0
    && sale.items[0].refundedQuantity == k && sale.refundedAmount == k && sale.refundedOperatorAmount == k
  }

  lemma OneUnit(sale: Sale, k: int)
    requires FourUnits(sale, k) && 0 <= k <= 2
    ensures LinesValid(sale.items, [RefundLine(0, 1)]) && QuoteRefund(sale, [RefundLine(0, 1)]) == Ok(Quote(1, 1))
    ensures FourUnits(AfterRefund(sale, RefundLine(0, 1), Quote(1, 1)), k + 1)
    ensures AfterRefund(sale, RefundLine(0, 1), Quote(1, 1)).status.Paid?
  {
    var one, items := RefundLine(0, 1), sale.items;
    assert [one][0] == one && Planned([one], 0) == 1;
    assert NetTotal(items[0]) == 4;
    NearestUnique(4, 4, 1);
    NearestUnique(0, 4, 0);
    NearestUnique(2, 4, 1);
    assert LineNet(items[0], 1) == 1 && LineTax(items[0], 1) == 0;
    SumSingleton(one, LineAmountFn(items));
    SumSingleton(one, LineOnBaseFn(items, sale.bearer));
    assert !RefundsAll(items, [one]) by { assert items[0].refundedQuantity + Planned([one], 0) < 4; }
    var after := AfterRefund(sale, one, Quote(1, 1));
    assert after.items[0].refundedQuantity < after.items[0].quantity;
  }

  /** Three refunds of one such unit, each claimed and finalized, charge the operator 3 cents of the 2 he
      earned. Only the refund of the last unit sets it right. */
  lemma ClawbackOvershoots(s: State, id: nat)
    requires id < |s.sales| && s.sales[id].status.Paid? && FourUnits(s.sales[id], 0)
    ensures var one := RefundLine(0, 1);
            var a := Run(s, StepsOf(s, id, one));
            var b := Run(a, StepsOf(a, id, one));
            var c := Run(b, StepsOf(b, id, one));
            && id < |c.sales| && c.sales[id].status.Paid? && |c.refunds| == |s.refunds| + 3
            && c.sales[id].refundedOperatorAmount == 3 > c.sales[id].operatorAmount
  {
    var one := RefundLine(0, 1);
    var a := Run(s, StepsOf(s, id, one));
    var b := Run(a, StepsOf(a, id, one));
    hide Run, QuoteRefund, LinesValid, AfterRefund;
    OneUnit(s.sales[id], 0);
    OneRefund(s, id, one, Quote(1, 1));
    OneUnit(a.sales[id], 1);
    OneRefund(a, id, one, Quote(1, 1));
    OneUnit(b.sales[id], 2);
    OneRefund(b, id, one, Quote(1, 1));
  }
}
