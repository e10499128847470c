/** The money side of refunds: what is owed back on a sale, what is clawed back from the operator, and
    what the settlement summary makes of both. */
module RefundMoney {
  import opened Outcome
  import opened Sums
  import opened Money
  import opened Allocation
  import opened Lots
  import opened StockEngine
  import opened Checkout
  import opened Ledger
  import opened LedgerInvariant
  import opened SaleSteps
  import opened CartPlans
  import opened PaymentSteps
  import opened Holds
  import opened RefundSteps
  import opened RefundProtocol

  // ---- The invariant of the refund ledger ----

  function AmountFn(id: nat): Refund -> int {
    (r: Refund) => if r.sale == id && r.status.RefundSucceeded? then r.amount else 0
  }

  function ClawFn(id: nat): Refund -> int {
    (r: Refund) => if r.sale == id && r.status.RefundSucceeded? then r.operatorAmount else 0
  }

  function ChargeFn(): SaleItem -> int { (item: SaleItem) => NetTotal(item) + item.tax }

  function PartWorthFn(item: SaleItem): Part -> int {
    (part: Part) => LineNet(item, part.qty) + LineTax(item, part.qty)
  }

  /** What the refunds of a line were worth. */
  function PaidBackFn(): SaleItem -> int { (item: SaleItem) => Sum(item.parts, PartWorthFn(item)) }

  /** refundedAmount and refundedOperatorAmount are the succeeded refunds, never more than was paid; while
      a cent is left, what was paid back is what the refunded lines were worth; and a REFUNDED sale has
      given back exactly what came in, to the customer and from the operator. */
  predicate SaleMoney(sale: Sale, id: nat, refunds: seq<Refund>) {
    && sale.total == Sum(sale.items, ChargeFn())
    && 0 <= sale.refundedAmount <= sale.total
    && sale.refundedAmount == Sum(refunds, AmountFn(id))
    && sale.refundedOperatorAmount == Sum(refunds, ClawFn(id))
    && (sale.refundedAmount < sale.total ==> sale.refundedAmount == Sum(sale.items, PaidBackFn()))
    && (sale.status.Refunded? ==>
          sale.refundedAmount == sale.total && sale.refundedOperatorAmount == sale.operatorAmount)
  }

  /** A PENDING refund is for what the sale would be quoted now; one that went through before the sale
      was refunded in full clawed back the operator's share of its own lines. */
  predicate RefundMoneyOk(sale: Sale, refund: Refund) {
    && (refund.status.RefundPending? ==>
          QuoteRefund(sale, refund.lines) == Ok(Quote(refund.amount, refund.operatorAmount)))
    && (refund.status.RefundSucceeded? ==> Took(sale.status))
    && (refund.status.RefundSucceeded? && !sale.status.Refunded? ==>
          refund.operatorAmount == Clawback(sale, refund.lines))
  }

  predicate MoneyOk(sales: seq<Sale>, refunds: seq<Refund>) {
    && (forall id: nat :: id < |sales| ==> SaleMoney(sales[id], id, refunds))
    && (forall rid: nat :: rid < |refunds| ==>
          refunds[rid].sale < |sales| && RefundMoneyOk(sales[refunds[rid].sale], refunds[rid]))
  }

  // ---- Steps that move no refund money ----

  /** Only the status of a sale changes, and not from or to REFUNDED. */
  lemma StatusOnly(sales: seq<Sale>, refunds: seq<Refund>, id: nat, sale: Sale)
    requires MoneyOk(sales, refunds) && id < |sales|
    requires sale == sales[id].(status := sale.status, paidAt := sale.paidAt, pendingRefund := sale.pendingRefund)
    requires !sale.status.Refunded? && !sales[id].status.Refunded?
    requires Took(sales[id].status) ==> Took(sale.status)
    ensures MoneyOk(sales[id := sale], refunds)
  {
    var next := sales[id := sale];
    forall rid: nat | rid < |refunds|
      ensures refunds[rid].sale < |next| && RefundMoneyOk(next[refunds[rid].sale], refunds[rid])
    {
      var refund := refunds[rid];
      assert RefundMoneyOk(sales[refund.sale], refund);
      if refund.sale == id {
        assert QuoteRefund(sale, refund.lines) == QuoteRefund(sales[id], refund.lines);
        assert Clawback(sale, refund.lines) == Clawback(sales[id], refund.lines);
      }
    }
  }

  lemma {:induction false} NoneFor(refunds: seq<Refund>, id: nat)
    requires forall rid :: 0 <= rid < |refunds| ==> refunds[rid].sale != id || !refunds[rid].status.RefundSucceeded?
    ensures Sum(refunds, AmountFn(id)) == 0 && Sum(refunds, ClawFn(id)) == 0
  {
    if refunds != [] { NoneFor(refunds[..|refunds| - 1], id); }
  }

  lemma NewSaleMoney(sales: seq<Sale>, refunds: seq<Refund>, sale: Sale)
    requires MoneyOk(sales, refunds)
    requires sale.refundedAmount == 0 && sale.refundedOperatorAmount == 0 && !sale.status.Refunded?
    requires sale.total == Sum(sale.items, ChargeFn()) && sale.total >= 0
    requires forall i :: 0 <= i < |sale.items| ==> sale.items[i].parts == []
    ensures MoneyOk(sales + [sale], refunds)
  {
    NoneFor(refunds, |sales|);
    AllZero(sale.items, PaidBackFn());
    var next := sales + [sale];
    forall rid: nat | rid < |refunds|
      ensures refunds[rid].sale < |next| && RefundMoneyOk(next[refunds[rid].sale], refunds[rid])
    {
      assert next[refunds[rid].sale] == sales[refunds[rid].sale];
    }
  }

  /** The lines of a new sale charge, in sum, the total the customer pays. */
  lemma CartCharge(cart: seq<CartLine>, plans: seq<seq<Alloc>>, terms: StoreTerms)
    requires |cart| == |plans| && CartOk(cart) && Price(cart, terms).Ok?
    ensures Price(cart, terms).value.total == Sum(ItemsOf(cart, plans, terms.taxRate), ChargeFn())
    ensures Price(cart, terms).value.total >= 0
  {
    var items := ItemsOf(cart, plans, terms.taxRate);
    var charge := (line: CartLine) => Net(line) + Tax(line, terms.taxRate);
    SumSame(items, ChargeFn(), cart, charge);
    SumAdd(cart, NetFn(), TaxFn(terms.taxRate), charge);
    forall i | 0 <= i < |cart| ensures charge(cart[i]) >= 0 {
      assert LineOk(cart[i]);
      LineMoney(cart[i], terms.taxRate);
    }
    SumNonNeg(cart, charge);
  }

  lemma CreateMoney(s: State, cart: seq<CartLine>, terms: StoreTerms, cash: bool, offline: bool, key: Option<string>,
                    now: int)
    requires MoneyOk(s.sales, s.refunds) && CreateSale(s, cart, terms, cash, offline, key, now).Ok?
    ensures var t := CreateSale(s, cart, terms, cash, offline, key, now).value;
            MoneyOk(t.sales, t.refunds)
  {
    if !(key.Some? && HasKey(s.sales, key.value)) {
      var plans := PlanCart(s.shelf.lots, cart, ZeroTaken(|s.shelf.lots|), offline).value;
      CartCharge(cart, plans, terms);
      NewSaleMoney(s.sales, s.refunds,
                   NewSale(Price(cart, terms).value, terms, ItemsOf(cart, plans, terms.taxRate), cash, key, now));
    }
  }

  // ---- Claim, finalize, abort ----

  /** A PENDING refund more, for what its sale is quoted. */
  lemma PendingRow(sales: seq<Sale>, refunds: seq<Refund>, refund: Refund)
    requires MoneyOk(sales, refunds) && refund.sale < |sales| && refund.status.RefundPending?
    requires QuoteRefund(sales[refund.sale], refund.lines) == Ok(Quote(refund.amount, refund.operatorAmount))
    ensures MoneyOk(sales, refunds + [refund])
  {
    hide QuoteRefund, Clawback;
    var rows := refunds + [refund];
    forall k: nat | k < |sales| ensures SaleMoney(sales[k], k, rows) {
      SumAppend(refunds, refund, AmountFn(k));
      SumAppend(refunds, refund, ClawFn(k));
      assert SaleMoney(sales[k], k, refunds);
    }
    forall rid: nat | rid < |rows| ensures rows[rid].sale < |sales| && RefundMoneyOk(sales[rows[rid].sale], rows[rid]) {
      if rid < |refunds| { assert RefundMoneyOk(sales[refunds[rid].sale], refunds[rid]); }
    }
  }

  /** A claim that is granted is for the quote of its lines, which the change of status does not touch. */
  lemma ClaimedQuote(s: State, id: nat, restock: bool, requested: seq<RefundLine>)
    requires ClaimRefund(s, id, restock, requested).Ok?
    ensures var t := ClaimRefund(s, id, restock, requested).value;
            && id < |s.sales| && s.sales[id].status.Paid? && |t.refunds| == |s.refunds| + 1
            && t.sales == s.sales[id := s.sales[id].(status := Refunding, pendingRefund := Some(|s.refunds|))]
            && var refund := t.refunds[|s.refunds|];
               t.refunds == s.refunds + [refund] && refund.sale == id && refund.status.RefundPending?
               && QuoteRefund(t.sales[id], refund.lines) == Ok(Quote(refund.amount, refund.operatorAmount))
  {
    hide LinesValid, RemainingLines, RefundsAll;
  }

  lemma ClaimMoney(s: State, id: nat, restock: bool, requested: seq<RefundLine>)
    requires MoneyOk(s.sales, s.refunds) && ClaimRefund(s, id, restock, requested).Ok?
    ensures var t := ClaimRefund(s, id, restock, requested).value;
            MoneyOk(t.sales, t.refunds)
  {
    hide MoneyOk, QuoteRefund, ClaimRefund;
    var t := ClaimRefund(s, id, restock, requested).value;
    ClaimedQuote(s, id, restock, requested);
    StatusOnly(s.sales, s.refunds, id, t.sales[id]);
    PendingRow(t.sales, s.refunds, t.refunds[|s.refunds|]);
  }

  /** A refund row that goes from PENDING to SUCCEEDED or FAILED moves its own sale's ledger only. */
  lemma LedgerMoves(refunds: seq<Refund>, rid: nat, status: RefundStatus, id: nat)
    requires rid < |refunds| && !refunds[rid].status.RefundSucceeded?
    ensures var next := refunds[rid := refunds[rid].(status := status)];
            var on := refunds[rid].sale == id && status.RefundSucceeded?;
            && Sum(next, AmountFn(id)) == Sum(refunds, AmountFn(id)) + (if on then refunds[rid].amount else 0)
            && Sum(next, ClawFn(id)) == Sum(refunds, ClawFn(id)) + (if on then refunds[rid].operatorAmount else 0)
  {
    SumUpdate(refunds, rid, refunds[rid].(status := status), AmountFn(id));
    SumUpdate(refunds, rid, refunds[rid].(status := status), ClawFn(id));
  }

  lemma AbortMoney(s: State, rid: nat)
    requires HoldsOk(s) && MoneyOk(s.sales, s.refunds) && AbortRefund(s, rid).Ok?
    ensures var t := AbortRefund(s, rid).value;
            MoneyOk(t.sales, t.refunds)
  {
    var t := AbortRefund(s, rid).value;
    var id := s.refunds[rid].sale;
    if t.sales != s.sales {
      StatusOnly(s.sales, s.refunds, id, t.sales[id]);
    }
    forall k: nat | k < |t.sales| ensures SaleMoney(t.sales[k], k, t.refunds) {
      LedgerMoves(s.refunds, rid, RefundFailed, k);
      assert SaleMoney(t.sales[k], k, s.refunds);
    }
  }

  /** What a refund claws back depends on the lines sold, not on what was refunded before. */
  lemma ClawbackStable(a: Sale, b: Sale, lines: seq<RefundLine>, done: seq<RefundLine>)
    requires b == a.(status := b.status, items := b.items, refundedAmount := b.refundedAmount,
                     refundedOperatorAmount := b.refundedOperatorAmount, pendingRefund := b.pendingRefund)
    requires Advanced(a.items, b.items, done)
    ensures Clawback(b, lines) == Clawback(a, lines)
    ensures Sum(lines, LineOnBaseFn(b.items, b.bearer)) == Sum(lines, LineOnBaseFn(a.items, a.bearer))
    ensures Sum(b.items, ChargeFn()) == Sum(a.items, ChargeFn())
  {
    SumSame(lines, LineOnBaseFn(b.items, b.bearer), lines, LineOnBaseFn(a.items, a.bearer));
    SumSame(b.items, ChargeFn(), a.items, ChargeFn());
  }

  lemma LinePaidBack(item: SaleItem, q: int, restock: bool)
    ensures PaidBackFn()(RefundItem(item, q, restock)) == PaidBackFn()(item) + LineNet(item, q) + LineTax(item, q)
  {
    var next, part := RefundItem(item, q, restock), Part(item.refundedQuantity, q, restock);
    hide HalfUp;
    SumSame(item.parts, PartWorthFn(next), item.parts, PartWorthFn(item));
    SumAppend(item.parts, part, PartWorthFn(next));
  }

  lemma SameWorth(items: seq<SaleItem>, i: nat, item: SaleItem, lines: seq<RefundLine>)
    requires i < |items| && item == items[i].(refundedQuantity := item.refundedQuantity, parts := item.parts)
    ensures Sum(lines, LineAmountFn(items[i := item])) == Sum(lines, LineAmountFn(items))
  {
    hide HalfUp;
    SumSame(lines, LineAmountFn(items[i := item]), lines, LineAmountFn(items));
  }

  lemma FirstOfSum(lines: seq<RefundLine>, f: RefundLine -> int)
    requires lines != []
    ensures Sum(lines, f) == f(lines[0]) + Sum(lines[1..], f)
  {
    assert lines == [lines[0]] + lines[1..];
    SumConcat([lines[0]], lines[1..], f);
    SumSingleton(lines[0], f);
  }

  /** One line paid back what it is worth, and what the other lines are worth is as it was. */
  lemma FirstPaidBack(items: seq<SaleItem>, lines: seq<RefundLine>, restock: bool)
    requires lines != [] && lines[0].item < |items|
    ensures var next := items[lines[0].item := RefundItem(items[lines[0].item], lines[0].quantity, restock)];
            Sum(next, PaidBackFn()) + Sum(lines[1..], LineAmountFn(next))
            == Sum(items, PaidBackFn()) + Sum(lines, LineAmountFn(items))
  {
    var i, q := lines[0].item, lines[0].quantity;
    var item := RefundItem(items[i], q, restock);
    assert LineAmountFn(items)(lines[0]) == LineNet(items[i], q) + LineTax(items[i], q);
    LinePaidBack(items[i], q, restock);
    SameWorth(items, i, item, lines[1..]);
    hide *;
    SumUpdate(items, i, item, PaidBackFn());
    FirstOfSum(lines, LineAmountFn(items));
  }

  /** Finalized lines have been paid back what they are worth, whatever was refunded before. */
  lemma {:induction false} LinesPaidBack(shelf: Shelf, locked: seq<Lot>, items: seq<SaleItem>, lines: seq<RefundLine>,
                                         restock: bool)
    requires FinalizeLines(shelf, locked, items, lines, restock).Ok?
    ensures Sum(FinalizeLines(shelf, locked, items, lines, restock).value.items, PaidBackFn())
         == Sum(items, PaidBackFn()) + Sum(lines, LineAmountFn(items))
    decreases |lines|
  {
    hide FinalizeLine, PaidBackFn, LineAmountFn, RefundItem;
    if lines != [] {
      var i, q := lines[0].item, lines[0].quantity;
      FirstPaidBack(items, lines, restock);
      LinesPaidBack(FinalizeLine(shelf, locked, items[i], q, restock).value, locked,
                    items[i := RefundItem(items[i], q, restock)], lines[1..], restock);
    }
  }

  /** What a quote pays: all that is left, or what its lines are worth. */
  lemma QuotePays(sale: Sale, lines: seq<RefundLine>, q: Quote)
    requires QuoteRefund(sale, lines) == Ok(q)
    ensures var left := sale.total - sale.refundedAmount;
            && 0 < q.amount <= left && (q.amount == left || q.amount == Sum(lines, LineAmountFn(sale.items)))
            && if RefundsAll(sale.items, lines) then q == Quote(left, sale.operatorAmount - sale.refundedOperatorAmount)
               else q.operatorAmount == Clawback(sale, lines)
  {
    hide RefundsAll, Clawback;
  }

  /** A refund that leaves a cent has paid back what its lines are worth. */
  lemma SettledPaidBack(s: State, rid: nat)
    requires HoldsOk(s) && MoneyOk(s.sales, s.refunds)
    requires rid < |s.refunds| && s.refunds[rid].status.RefundPending? && FinalizeRefund(s, rid).Ok?
    ensures s.refunds[rid].sale < |s.sales| == |FinalizeRefund(s, rid).value.sales|
    ensures var sale := FinalizeRefund(s, rid).value.sales[s.refunds[rid].sale];
            sale.refundedAmount < sale.total ==> sale.refundedAmount == Sum(sale.items, PaidBackFn())
  {
    OpenSale(s, rid);
    FinalizeGranted(s, rid);
    var refund := s.refunds[rid];
    var sale := s.sales[refund.sale];
    assert SaleMoney(sale, refund.sale, s.refunds) && RefundMoneyOk(sale, refund);
    hide MoneyOk, HoldsOk, FinalizeRefund, FinalizeLines, PaidBackFn, LineAmountFn, QuoteRefund, Clawback;
    LinesPaidBack(s.shelf, s.shelf.lots, sale.items, refund.lines, refund.restock);
    QuotePays(sale, refund.lines, Quote(refund.amount, refund.operatorAmount));
  }

  lemma SettledMoney(s: State, rid: nat)
    requires HoldsOk(s) && MoneyOk(s.sales, s.refunds)
    requires rid < |s.refunds| && s.refunds[rid].status.RefundPending? && FinalizeRefund(s, rid).Ok?
    ensures var t, id := FinalizeRefund(s, rid).value, s.refunds[rid].sale;
            id < |t.sales| && SaleMoney(t.sales[id], id, t.refunds)
    ensures var t, id := FinalizeRefund(s, rid).value, s.refunds[rid].sale;
            !t.sales[id].status.Refunded? ==>
              s.refunds[rid].operatorAmount == Clawback(t.sales[id], s.refunds[rid].lines)
  {
    hide *;
    FinalizeBooks(s, rid);
    BookedRow(s, FinalizeRefund(s, rid).value, rid);
    SettledPaidBack(s, rid);
    var t, refund := FinalizeRefund(s, rid).value, s.refunds[rid];
    var id := refund.sale;
    SaleAndRefund(s.sales, s.refunds, rid);
    LedgerMoves(s.refunds, rid, RefundSucceeded, id);
    ClawbackStable(s.sales[id], t.sales[id], refund.lines, refund.lines);
    QuotePays(s.sales[id], refund.lines, Quote(refund.amount, refund.operatorAmount));
    RowSettles(s.sales[id], t.sales[id], id, s.refunds, t.refunds, refund);
  }

  lemma SaleAndRefund(sales: seq<Sale>, refunds: seq<Refund>, rid: nat)
    requires MoneyOk(sales, refunds) && rid < |refunds| && refunds[rid].status.RefundPending?
    ensures var refund, id := refunds[rid], refunds[rid].sale;
            id < |sales| && SaleMoney(sales[id], id, refunds)
            && QuoteRefund(sales[id], refund.lines) == Ok(Quote(refund.amount, refund.operatorAmount))
  {
    hide QuoteRefund, SaleMoney;
    assert RefundMoneyOk(sales[refunds[rid].sale], refunds[rid]);
  }

  lemma BookedRow(s: State, t: State, rid: nat)
    requires Booked(s, t, rid)
    ensures var refund, id := s.refunds[rid], s.refunds[rid].sale;
            && id < |s.sales| == |t.sales| && t.refunds == s.refunds[rid := refund.(status := RefundSucceeded)]
            && t.sales == s.sales[id := t.sales[id]]
            && var sale, after := s.sales[id], t.sales[id];
               && after == sale.(status := after.status, items := after.items, pendingRefund := None,
                                 refundedAmount := sale.refundedAmount + refund.amount,
                                 refundedOperatorAmount := sale.refundedOperatorAmount + refund.operatorAmount)
               && Advanced(sale.items, after.items, refund.lines)
               && (after.status.Refunded? <==> RefundsAll(sale.items, refund.lines))
  {
    hide Planned, Advanced;
  }

  lemma RowSettles(sale: Sale, after: Sale, id: nat, refunds: seq<Refund>, rows: seq<Refund>, refund: Refund)
    requires SaleMoney(sale, id, refunds) && 0 < refund.amount <= sale.total - sale.refundedAmount
    requires after == sale.(status := after.status, items := after.items, pendingRefund := None,
                            refundedAmount := sale.refundedAmount + refund.amount,
                            refundedOperatorAmount := sale.refundedOperatorAmount + refund.operatorAmount)
    requires Sum(after.items, ChargeFn()) == Sum(sale.items, ChargeFn())
    requires Sum(rows, AmountFn(id)) == Sum(refunds, AmountFn(id)) + refund.amount
    requires Sum(rows, ClawFn(id)) == Sum(refunds, ClawFn(id)) + refund.operatorAmount
    requires after.refundedAmount < after.total ==> after.refundedAmount == Sum(after.items, PaidBackFn())
    requires after.status.Refunded? ==>
               refund.amount == sale.total - sale.refundedAmount
               && refund.operatorAmount == sale.operatorAmount - sale.refundedOperatorAmount
    ensures SaleMoney(after, id, rows)
  {
  }

  /** Finalizing adds exactly the refund's amounts to its sale, and the refund that takes the last
      units takes the last cents with them. */
  lemma FinalizeMoney(s: State, rid: nat)
    requires HoldsOk(s) && MoneyOk(s.sales, s.refunds)
    requires rid < |s.refunds| && s.refunds[rid].status.RefundPending? && FinalizeRefund(s, rid).Ok?
    ensures var t := FinalizeRefund(s, rid).value;
            MoneyOk(t.sales, t.refunds)
  {
    var t, refund := FinalizeRefund(s, rid).value, s.refunds[rid];
    var id := refund.sale;
    FinalizeKeeps(s, rid);
    SettledMoney(s, rid);
    forall k: nat | k < |t.sales| ensures SaleMoney(t.sales[k], k, t.refunds) {
      if k != id {
        LedgerMoves(s.refunds, rid, RefundSucceeded, k);
        assert SaleMoney(s.sales[k], k, s.refunds);
      }
    }
    forall q: nat | q < |t.refunds|
      ensures t.refunds[q].sale < |t.sales| && RefundMoneyOk(t.sales[t.refunds[q].sale], t.refunds[q])
    {
      assert RefundMoneyOk(s.sales[s.refunds[q].sale], s.refunds[q]);
      if q != rid && s.refunds[q].sale == id {
        ClawbackStable(s.sales[id], t.sales[id], s.refunds[q].lines, refund.lines);
      }
    }
  }

  lemma ReconcileMoney(s: State, id: nat, answer: StripeAnswer)
    requires HoldsOk(s) && MoneyOk(s.sales, s.refunds) && ReconcileRefund(s, id, answer).Ok?
    ensures var t := ReconcileRefund(s, id, answer).value;
            MoneyOk(t.sales, t.refunds)
  {
    if id < |s.sales| && s.sales[id].status.Refunding? {
      assert RefundOpen(s.sales, s.refunds, id);
      var rid := s.sales[id].pendingRefund.value;
      if ReconcileRefund(s, id, answer) == FinalizeRefund(s, rid) {
        FinalizeMoney(s, rid);
      } else if ReconcileRefund(s, id, answer) == AbortRefund(s, rid) {
        AbortMoney(s, rid);
      }
    }
  }

  // ---- How far the clawback may drift ----

  function OnBaseFn(sale: Sale, id: nat): Refund -> int {
    (r: Refund) =>
      if r.sale == id && r.status.RefundSucceeded? then Sum(r.lines, LineOnBaseFn(sale.items, sale.bearer)) else 0
  }

  function CountFn(id: nat): Refund -> int {
    (r: Refund) => if r.sale == id && r.status.RefundSucceeded? then 1 else 0
  }

  lemma DriftStep(op: int, base: int, claw: int, on: int, c: int, o: int, k: int)
    requires base > 0
    requires -k * base <= 2 * (base * c - op * o) <= k * base
    requires -base <= 2 * (base * claw - op * on) <= base
    ensures -(k + 1) * base <= 2 * (base * (c + claw) - op * (o + on)) <= (k + 1) * base
  {
    assert base * (c + claw) == base * c + base * claw;
    assert op * (o + on) == op * o + op * on;
    assert (k + 1) * base == k * base + base;
  }

  lemma {:induction false} DriftOver(sale: Sale, id: nat, refunds: seq<Refund>)
    requires sale.operatorBase > 0
    requires forall i :: 0 <= i < |refunds| && refunds[i].sale == id && refunds[i].status.RefundSucceeded? ==>
               refunds[i].operatorAmount == Clawback(sale, refunds[i].lines)
    ensures var k, base := Sum(refunds, CountFn(id)), sale.operatorBase;
            -k * base
            <= 2 * (base * Sum(refunds, ClawFn(id)) - sale.operatorAmount * Sum(refunds, OnBaseFn(sale, id)))
            <= k * base
  {
    if refunds != [] {
      var n := |refunds| - 1;
      var init, last := refunds[..n], refunds[n];
      DriftOver(sale, id, init);
      if last.sale == id && last.status.RefundSucceeded? {
        var on := Sum(last.lines, LineOnBaseFn(sale.items, sale.bearer));
        HalfUpNearest(sale.operatorAmount * on, sale.operatorBase);
        DriftStep(sale.operatorAmount, sale.operatorBase, last.operatorAmount, on,
                  Sum(init, ClawFn(id)), Sum(init, OnBaseFn(sale, id)), Sum(init, CountFn(id)));
      }
    }
  }

  /** After k partial refunds the operator has been charged the proportional share of what was
      refunded, to within k half-cents: |2 (base * clawed - operatorAmount * refundedOnBase)| <= k * base. */
  lemma ClawbackDrift(s: State, id: nat)
    requires MoneyOk(s.sales, s.refunds) && id < |s.sales| && !s.sales[id].status.Refunded?
    requires s.sales[id].operatorBase > 0
    ensures var sale, k := s.sales[id], Sum(s.refunds, CountFn(id));
            -k * sale.operatorBase
            <= 2 * (sale.operatorBase * sale.refundedOperatorAmount
                    - sale.operatorAmount * Sum(s.refunds, OnBaseFn(sale, id)))
            <= k * sale.operatorBase
  {
    assert SaleMoney(s.sales[id], id, s.refunds);
    forall i | 0 <= i < |s.refunds| && s.refunds[i].sale == id && s.refunds[i].status.RefundSucceeded?
      ensures s.refunds[i].operatorAmount == Clawback(s.sales[id], s.refunds[i].lines)
    {
      assert RefundMoneyOk(s.sales[id], s.refunds[i]);
    }
    DriftOver(s.sales[id], id, s.refunds);
  }

  /** The exact share of these lines is within what the operator has left, but for half a cent. */
  predicate ShareFits(sale: Sale, lines: seq<RefundLine>) {
    var on := Sum(lines, LineOnBaseFn(sale.items, sale.bearer));
    var left := sale.operatorAmount - sale.refundedOperatorAmount;
    if sale.operatorBase <= 0 then left >= 0 else Within(sale.operatorAmount * on, sale.operatorBase, left)
  }

  lemma ShareIsExact(before: Sale, after: Sale, lines: seq<RefundLine>)
    requires after.operatorAmount == before.operatorAmount
    requires RefundsAll(before.items, lines) ==> after.refundedOperatorAmount == after.operatorAmount
    requires !RefundsAll(before.items, lines) ==>
               after.refundedOperatorAmount == before.refundedOperatorAmount + Clawback(before, lines)
    ensures after.refundedOperatorAmount <= after.operatorAmount <==>
              RefundsAll(before.items, lines) || ShareFits(before, lines)
  {
    hide RefundsAll, HalfUp, Within;
    if before.operatorBase > 0 {
      RoundsWithin(before.operatorAmount * Sum(lines, LineOnBaseFn(before.items, before.bearer)), before.operatorBase,
                   before.operatorAmount - before.refundedOperatorAmount);
    }
  }

  /** What finalizing a refund makes of the operator's charge. */
  lemma SettledCharge(s: State, rid: nat)
    requires HoldsOk(s) && MoneyOk(s.sales, s.refunds)
    requires rid < |s.refunds| && s.refunds[rid].status.RefundPending? && FinalizeRefund(s, rid).Ok?
    ensures var t, id, lines := FinalizeRefund(s, rid).value, s.refunds[rid].sale, s.refunds[rid].lines;
            && id < |s.sales| && |t.sales| == |s.sales|
            && t.sales[id].operatorAmount == s.sales[id].operatorAmount
            && (RefundsAll(s.sales[id].items, lines) ==>
                  t.sales[id].refundedOperatorAmount == t.sales[id].operatorAmount)
            && (!RefundsAll(s.sales[id].items, lines) ==>
                  t.sales[id].refundedOperatorAmount
                  == s.sales[id].refundedOperatorAmount + Clawback(s.sales[id], lines))
  {
    var t, refund := FinalizeRefund(s, rid).value, s.refunds[rid];
    var id := refund.sale;
    SettledMoney(s, rid);
    FinalizeKeeps(s, rid);
    hide HoldsOk, MoneyOk, FinalizeLines, Clawback, Advanced;
    ClosesExactly(s.sales[id].items, t.sales[id].items, refund.lines);
    ClawbackStable(s.sales[id], t.sales[id], refund.lines, refund.lines);
  }

  /** When a refund that goes through leaves the operator charged no more than he earned: when it takes
      all that is left of the sale, or else the share of its lines fits. */
  lemma ClawbackFits(s: State, rid: nat)
    requires HoldsOk(s) && MoneyOk(s.sales, s.refunds)
    requires rid < |s.refunds| && s.refunds[rid].status.RefundPending? && FinalizeRefund(s, rid).Ok?
    ensures var t, id, lines := FinalizeRefund(s, rid).value, s.refunds[rid].sale, s.refunds[rid].lines;
            && id < |s.sales| && id < |t.sales|
            && (t.sales[id].refundedOperatorAmount <= t.sales[id].operatorAmount <==>
                  RefundsAll(s.sales[id].items, lines) || ShareFits(s.sales[id], lines))
  {
    hide *;
    SettledCharge(s, rid);
    var id := s.refunds[rid].sale;
    ShareIsExact(s.sales[id], FinalizeRefund(s, rid).value.sales[id], s.refunds[rid].lines);
  }

  lemma ShareOfRow(a: Sale, b: Sale, lines: seq<RefundLine>)
    requires b == a.(status := b.status, pendingRefund := b.pendingRefund)
    ensures ShareFits(a, lines) <==> ShareFits(b, lines)
  {
    hide Within;
  }

  /** So a caller can tell before the claim: a refund claimed and then finalized keeps the operator's
      charge within what he earned exactly when it is for all that is left, or the share fits. */
  lemma ClaimedClawbackFits(s: State, id: nat, restock: bool, requested: seq<RefundLine>)
    requires HoldsOk(s) && MoneyOk(s.sales, s.refunds) && ClaimRefund(s, id, restock, requested).Ok?
    requires FinalizeRefund(ClaimRefund(s, id, restock, requested).value, |s.refunds|).Ok?
    ensures var t := FinalizeRefund(ClaimRefund(s, id, restock, requested).value, |s.refunds|).value;
            var lines := if requested == [] then RemainingLines(s.sales[id].items) else requested;
            && id < |s.sales| && id < |t.sales|
            && (t.sales[id].refundedOperatorAmount <= t.sales[id].operatorAmount <==>
                  RefundsAll(s.sales[id].items, lines) || ShareFits(s.sales[id], lines))
  {
    hide *;
    ClaimedLines(s, id, restock, requested);
    var mid := ClaimRefund(s, id, restock, requested).value;
    ClaimKeeps(s, id, restock, requested);
    ClaimMoney(s, id, restock, requested);
    ShareOfRow(s.sales[id], mid.sales[id], mid.refunds[|s.refunds|].lines);
    ClawbackFits(mid, |s.refunds|);
  }

  lemma ClaimedLines(s: State, id: nat, restock: bool, requested: seq<RefundLine>)
    requires ClaimRefund(s, id, restock, requested).Ok?
    ensures var t := ClaimRefund(s, id, restock, requested).value;
            && |t.refunds| == |s.refunds| + 1 && id < |s.sales|
            && t.refunds[|s.refunds|].sale == id && t.refunds[|s.refunds|].status.RefundPending?
            && t.refunds[|s.refunds|].lines
               == (if requested == [] then RemainingLines(s.sales[id].items) else requested)
            && t.sales == s.sales[id := s.sales[id].(status := Refunding, pendingRefund := Some(|s.refunds|))]
  {
    hide LinesValid, RemainingLines, QuoteRefund;
  }
}
