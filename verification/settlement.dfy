/** The settlement summary: sums over the sales that were paid, net of what was refunded on them. */
module Settlement {
  import opened Outcome
  import opened Sums
  import opened Checkout
  import opened Lots
  import opened Ledger
  import opened LedgerInvariant
  import opened RefundMoney
  import opened EveryRun

  /** The rows the summary adds up: PAID, REFUNDING and REFUNDED, of one payment channel or of both. */
  predicate Counts(sale: Sale, channel: Option<bool>) {
    Took(sale.status) && (channel.None? || sale.cash == channel.value)
  }

  function ChannelGrossFn(channel: Option<bool>): Sale -> int {
    (sale: Sale) => if Counts(sale, channel) then sale.total - sale.refundedAmount else 0
  }

  function AccruedFn(channel: Option<bool>): Sale -> int {
    (sale: Sale) => if Counts(sale, channel) then sale.operatorAmount - sale.refundedOperatorAmount else 0
  }

  function Gross(s: State, channel: Option<bool>): int { Sum(s.sales, ChannelGrossFn(channel)) }
  function Accrued(s: State, channel: Option<bool>): int { Sum(s.sales, AccruedFn(channel)) }

  datatype Summary = Summary(grossSales: int, operatorAccrued: int, currentlyOwed: int,
                             grossCard: int, grossCash: int, coopCard: int, coopCash: int)

  /** getStoreSettlementSummary: the card figures are what is left when the cash rows are taken out. */
  function Summarize(s: State, totalPaidOut: int): Summary {
    var gross, accrued := Gross(s, None), Accrued(s, None);
    var grossCash, accruedCash := Gross(s, Some(true)), Accrued(s, Some(true));
    Summary(gross, accrued, accrued - totalPaidOut, gross - grossCash, grossCash,
            (gross - grossCash) - (accrued - accruedCash), grossCash - accruedCash)
  }

  /** The card figures, computed by subtraction, are the sums over the card sales, and the channels
      between them hold every cent the operator did not accrue. */
  lemma ChannelsSplit(s: State, paidOut: int)
    ensures var m := Summarize(s, paidOut);
            && m.grossCard == Gross(s, Some(false))
            && m.coopCard == Gross(s, Some(false)) - Accrued(s, Some(false))
            && m.grossSales == m.operatorAccrued + m.coopCard + m.coopCash
  {
    SumAdd(s.sales, ChannelGrossFn(Some(true)), ChannelGrossFn(Some(false)), ChannelGrossFn(None));
    SumAdd(s.sales, AccruedFn(Some(true)), AccruedFn(Some(false)), AccruedFn(None));
  }

  /** The same on the rows of the sales: every sale that was paid counts at what is left of it after refunds,
      on cash if it was paid in cash and on card if not; the co-op has what the operator did not accrue. */
  lemma SummaryOfRows(s: State, paidOut: int)
    ensures var m := Summarize(s, paidOut);
            var left := (x: Sale, cash: bool) =>
              if (x.status.Paid? || x.status.Refunding? || x.status.Refunded?) && x.cash == cash
              then x.total - x.refundedAmount else 0;
            var earned := (x: Sale, cash: bool) =>
              if (x.status.Paid? || x.status.Refunding? || x.status.Refunded?) && x.cash == cash
              then x.operatorAmount - x.refundedOperatorAmount else 0;
            && m.grossCash == Sum(s.sales, (x: Sale) => left(x, true))
            && m.grossCard == Sum(s.sales, (x: Sale) => left(x, false))
            && m.coopCash == m.grossCash - Sum(s.sales, (x: Sale) => earned(x, true))
            && m.coopCard == m.grossCard - Sum(s.sales, (x: Sale) => earned(x, false))
            && m.grossSales == m.grossCash + m.grossCard
            && m.operatorAccrued == m.grossSales - m.coopCash - m.coopCard
            && m.currentlyOwed == m.operatorAccrued - paidOut
  {
    ChannelsSplit(s, paidOut);
    var left := (x: Sale, cash: bool) =>
      if (x.status.Paid? || x.status.Refunding? || x.status.Refunded?) && x.cash == cash
      then x.total - x.refundedAmount else 0;
    var earned := (x: Sale, cash: bool) =>
      if (x.status.Paid? || x.status.Refunding? || x.status.Refunded?) && x.cash == cash
      then x.operatorAmount - x.refundedOperatorAmount else 0;
    SumSame(s.sales, ChannelGrossFn(Some(true)), s.sales, (x: Sale) => left(x, true));
    SumSame(s.sales, ChannelGrossFn(Some(false)), s.sales, (x: Sale) => left(x, false));
    SumSame(s.sales, AccruedFn(Some(true)), s.sales, (x: Sale) => earned(x, true));
    SumSame(s.sales, AccruedFn(Some(false)), s.sales, (x: Sale) => earned(x, false));
  }

  // ---- The summary against the money that moved ----

  function PaidInFn(): Sale -> int { (sale: Sale) => if Took(sale.status) then sale.total else 0 }
  function EarnedFn(): Sale -> int { (sale: Sale) => if Took(sale.status) then sale.operatorAmount else 0 }
  function PaidBackFn(n: nat): Refund -> int {
    (r: Refund) => if r.sale < n && r.status.RefundSucceeded? then r.amount else 0
  }
  function ClawedFn(n: nat): Refund -> int {
    (r: Refund) => if r.sale < n && r.status.RefundSucceeded? then r.operatorAmount else 0
  }

  lemma {:induction false} NoneBelowZero(refunds: seq<Refund>)
    ensures Sum(refunds, PaidBackFn(0)) == 0 && Sum(refunds, ClawedFn(0)) == 0
  {
    if refunds != [] { NoneBelowZero(refunds[..|refunds| - 1]); }
  }

  lemma {:induction false} SumsUpTo(sales: seq<Sale>, refunds: seq<Refund>, n: nat)
    requires MoneyOk(sales, refunds) && n <= |sales|
    ensures Sum(sales[..n], ChannelGrossFn(None)) == Sum(sales[..n], PaidInFn()) - Sum(refunds, PaidBackFn(n))
    ensures Sum(sales[..n], AccruedFn(None)) == Sum(sales[..n], EarnedFn()) - Sum(refunds, ClawedFn(n))
  {
    if n == 0 {
      NoneBelowZero(refunds);
    } else {
      var k := n - 1;
      SumsUpTo(sales, refunds, k);
      assert sales[..n][..k] == sales[..k];
      SumAdd(refunds, PaidBackFn(k), AmountFn(k), PaidBackFn(n));
      SumAdd(refunds, ClawedFn(k), ClawFn(k), ClawedFn(n));
      assert SaleMoney(sales[k], k, refunds);
      if !Took(sales[k].status) {
        forall rid | 0 <= rid < |refunds| ensures refunds[rid].sale != k || !refunds[rid].status.RefundSucceeded? {
          assert RefundMoneyOk(sales[refunds[rid].sale], refunds[rid]);
        }
        NoneFor(refunds, k);
      }
    }
  }

  /** The summary is the money that moved: all that customers paid less all that was paid back, and all
      that the operator earned less all that was clawed back ... */
  lemma SummaryIsMoneyMoved(s: State, paidOut: int)
    requires MoneyOk(s.sales, s.refunds)
    ensures var m, n := Summarize(s, paidOut), |s.sales|;
            && m.grossSales == Sum(s.sales, PaidInFn()) - Sum(s.refunds, PaidBackFn(n))
            && m.currentlyOwed == Sum(s.sales, EarnedFn()) - Sum(s.refunds, ClawedFn(n)) - paidOut
  {
    SumsUpTo(s.sales, s.refunds, |s.sales|);
    assert s.sales[..|s.sales|] == s.sales;
  }

  /** ... in every state any run can reach, overdrafts and shared recalls included. */
  lemma SummaryAlways(es: seq<Event>, paidOut: int)
    ensures var s := Run(EMPTY, es);
            var m, n := Summarize(s, paidOut), |s.sales|;
            && m.grossSales == Sum(s.sales, PaidInFn()) - Sum(s.refunds, PaidBackFn(n))
            && m.currentlyOwed == Sum(s.sales, EarnedFn()) - Sum(s.refunds, ClawedFn(n)) - paidOut
  {
    RefundsBalanceAlways(es);
    SummaryIsMoneyMoved(Run(EMPTY, es), paidOut);
  }

  /** A REFUNDED sale drops out of every figure. */
  lemma RefundedNetsToZero(s: State, id: nat, channel: Option<bool>)
    requires MoneyOk(s.sales, s.refunds) && id < |s.sales| && s.sales[id].status.Refunded?
    ensures ChannelGrossFn(channel)(s.sales[id]) == 0 && AccruedFn(channel)(s.sales[id]) == 0
  {
    assert SaleMoney(s.sales[id], id, s.refunds);
  }

  /** What a checkout puts on the sale row is what the till worked out: the customer's total is the
      operator's share, a co-op share that is not negative, and the tax; and the base kept for later
      clawbacks lies between what was paid and the list price. */
  lemma NewSaleSplits(s: State, cart: seq<CartLine>, terms: StoreTerms, cash: bool, offline: bool,
                      key: Option<string>, now: int)
    requires TermsOk(terms) && CreateSale(s, cart, terms, cash, offline, key, now).Ok?
    requires CreateSale(s, cart, terms, cash, offline, key, now).value.sales != s.sales
    ensures var t := CreateSale(s, cart, terms, cash, offline, key, now).value;
            && |t.sales| == |s.sales| + 1 && t.sales[..|s.sales|] == s.sales
            && var sale := t.sales[|s.sales|];
               var tax, before := Sum(cart, TaxFn(terms.taxRate)), Sum(cart, GrossFn());
               && 0 <= sale.operatorAmount <= sale.total - tax <= sale.operatorBase <= before
               && tax >= 0 && sale.cash == cash && sale.bearer == terms.bearer && sale.key == key
  {
    CheckoutBalances(cart, terms);
    var priced := Price(cart, terms).value;
    BasesOrdered(terms, priced.subtotalBeforeDiscount, priced.subtotal, priced.memberDiscount);
  }
}
