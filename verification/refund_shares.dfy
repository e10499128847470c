/** What a partial refund pays, told from the lines of the sale, and how near all of them together stay to
    the customer's share. */
module RefundShares {
  import opened Outcome
  import opened Sums
  import opened Money
  import opened Checkout
  import opened Lots
  import opened StockEngine
  import opened Ledger
  import opened LedgerInvariant
  import opened Holds
  import opened RefundMoney
  import opened RefundQuotes
  import opened EveryRun

  // ---- One refund ----

  /** For each line to be refunded, the nearest cents to its part of the line's net price and of its tax. */
  predicate NearestShares(items: seq<SaleItem>, lines: seq<RefundLine>, nets: seq<int>, taxes: seq<int>) {
    && |nets| == |taxes| == |lines|
    && forall k :: 0 <= k < |lines| ==>
         && lines[k].item < |items| && items[lines[k].item].quantity > 0
         && var item, q := items[lines[k].item], lines[k].quantity;
            && IsNearest((item.price * item.quantity - item.discount) * q, item.quantity, nets[k])
            && IsNearest(item.tax * q, item.quantity, taxes[k])
  }

  function Cents(xs: seq<int>): int { Sum(xs, (x: int) => x) }

  /** The refund of these lines at these shares: refused if they or the sale are worth nothing any more; all
      that is left, if they are all that is left; else what they are worth, as far as the sale has it,
      and of the operator the nearest cent to his part of what he was paid on. */
  predicate QuotedAt(sale: Sale, lines: seq<RefundLine>, nets: seq<int>, taxes: seq<int>, r: Result<Quote>) {
    var left, worth := sale.total - sale.refundedAmount, Cents(nets) + Cents(taxes);
    if worth <= 0 || left <= 0 then r == Err(409)
    else if forall i :: 0 <= i < |sale.items| ==>
              sale.items[i].refundedQuantity + Planned(lines, i) >= sale.items[i].quantity
    then r == Ok(Quote(left, sale.operatorAmount - sale.refundedOperatorAmount))
    else
      && r.Ok? && r.value.amount == (if worth <= left then worth else left)
      && (sale.operatorBase <= 0 ==> r.value.operatorAmount == 0)
      && (sale.operatorBase > 0 ==>
            var list := (l: RefundLine) => if l.item < |sale.items| then sale.items[l.item].price * l.quantity else 0;
            var onBase := if sale.bearer.CoopBears? then Sum(lines, list) else Cents(nets);
            IsNearest(sale.operatorAmount * onBase, sale.operatorBase, r.value.operatorAmount))
  }

  function NetsOf(items: seq<SaleItem>, lines: seq<RefundLine>): (r: seq<int>)
    requires forall k :: 0 <= k < |lines| ==> lines[k].item < |items|
    ensures |r| == |lines|
    ensures forall k :: 0 <= k < |lines| ==> r[k] == LineNet(items[lines[k].item], lines[k].quantity)
  {
    if lines == [] then []
    else
      var last := lines[|lines| - 1];
      NetsOf(items, lines[..|lines| - 1]) + [LineNet(items[last.item], last.quantity)]
  }

  function TaxesOn(items: seq<SaleItem>, lines: seq<RefundLine>): (r: seq<int>)
    requires forall k :: 0 <= k < |lines| ==> lines[k].item < |items|
    ensures |r| == |lines|
    ensures forall k :: 0 <= k < |lines| ==> r[k] == LineTax(items[lines[k].item], lines[k].quantity)
  {
    if lines == [] then []
    else
      var last := lines[|lines| - 1];
      TaxesOn(items, lines[..|lines| - 1]) + [LineTax(items[last.item], last.quantity)]
  }

  lemma SharesNearest(items: seq<SaleItem>, lines: seq<RefundLine>)
    requires LinesValid(items, lines) && forall i :: 0 <= i < |items| ==> items[i].quantity > 0
    ensures NearestShares(items, lines, NetsOf(items, lines), TaxesOn(items, lines))
  {
    hide HalfUp, IsNearest;
    forall k | 0 <= k < |lines|
      ensures var item, q := items[lines[k].item], lines[k].quantity;
              && IsNearest((item.price * item.quantity - item.discount) * q, item.quantity, LineNet(item, q))
              && IsNearest(item.tax * q, item.quantity, LineTax(item, q))
    {
      var item, q := items[lines[k].item], lines[k].quantity;
      HalfUpNearest(NetTotal(item) * q, item.quantity);
      HalfUpNearest(item.tax * q, item.quantity);
    }
  }

  lemma SharesSum(items: seq<SaleItem>, lines: seq<RefundLine>)
    requires forall k :: 0 <= k < |lines| ==> lines[k].item < |items|
    ensures Cents(NetsOf(items, lines)) + Cents(TaxesOn(items, lines)) == Sum(lines, LineAmountFn(items))
    ensures forall bearer: Bearer :: !bearer.CoopBears? ==>
              Cents(NetsOf(items, lines)) == Sum(lines, LineOnBaseFn(items, bearer))
  {
    hide HalfUp, NetsOf, TaxesOn;
    var net := (l: RefundLine) => if l.item < |items| then LineNet(items[l.item], l.quantity) else 0;
    var tax := (l: RefundLine) => if l.item < |items| then LineTax(items[l.item], l.quantity) else 0;
    SumSame(NetsOf(items, lines), (x: int) => x, lines, net);
    SumSame(TaxesOn(items, lines), (x: int) => x, lines, tax);
    SumAdd(lines, net, tax, LineAmountFn(items));
    forall bearer: Bearer | !bearer.CoopBears? ensures Sum(lines, net) == Sum(lines, LineOnBaseFn(items, bearer)) {
      SumSame(lines, net, lines, LineOnBaseFn(items, bearer));
    }
  }

  lemma ListSum(items: seq<SaleItem>, lines: seq<RefundLine>)
    ensures Sum(lines, (l: RefundLine) => if l.item < |items| then items[l.item].price * l.quantity else 0)
         == Sum(lines, LineOnBaseFn(items, CoopBears))
  {
    SumSame(lines, (l: RefundLine) => if l.item < |items| then items[l.item].price * l.quantity else 0,
            lines, LineOnBaseFn(items, CoopBears));
  }

  lemma QuotedShares(sale: Sale, lines: seq<RefundLine>)
    requires LinesValid(sale.items, lines)
    ensures QuotedAt(sale, lines, NetsOf(sale.items, lines), TaxesOn(sale.items, lines), QuoteRefund(sale, lines))
  {
    SharesSum(sale.items, lines);
    ListSum(sale.items, lines);
    var onBase := Sum(lines, LineOnBaseFn(sale.items, sale.bearer));
    if sale.operatorBase > 0 { HalfUpNearest(sale.operatorAmount * onBase, sale.operatorBase); }
    hide HalfUp, IsNearest, LineOnBaseFn, LineAmountFn, Planned, NetsOf, TaxesOn;
  }

  /** What a refund of these lines is quoted, whatever was refunded before. */
  lemma QuoteExact(sale: Sale, lines: seq<RefundLine>)
    requires LinesValid(sale.items, lines) && forall i :: 0 <= i < |sale.items| ==> sale.items[i].quantity > 0
    ensures exists nets, taxes ::
              && NearestShares(sale.items, lines, nets, taxes)
              && QuotedAt(sale, lines, nets, taxes, QuoteRefund(sale, lines))
  {
    SharesNearest(sale.items, lines);
    QuotedShares(sale, lines);
  }

  // ---- Claiming it ----

  /** What a claim for these lines answers, at these shares and this quote. */
  predicate ClaimedAt(s: State, id: nat, restock: bool, lines: seq<RefundLine>, nets: seq<int>, taxes: seq<int>,
                      quote: Result<Quote>, r: Result<State>) {
    && id < |s.sales| && NearestShares(s.sales[id].items, lines, nets, taxes)
    && QuotedAt(s.sales[id], lines, nets, taxes, quote)
    && match quote
       case Err(e) => r == Err(e)
       case Ok(q) =>
         r == Ok(s.(refunds := s.refunds + [Refund(id, RefundPending, restock, lines, q.amount, q.operatorAmount)],
                    sales := s.sales[id := s.sales[id].(status := Refunding, pendingRefund := Some(|s.refunds|))]))
  }

  predicate BadLines(items: seq<SaleItem>, lines: seq<RefundLine>) {
    || (exists k :: 0 <= k < |lines|
                    && (lines[k].item >= |items| || lines[k].quantity <= 0
                        || lines[k].quantity > items[lines[k].item].quantity - items[lines[k].item].refundedQuantity))
    || (exists j, k :: 0 <= j < k < |lines| && lines[j].item == lines[k].item)
  }

  lemma BadAreInvalid(items: seq<SaleItem>, lines: seq<RefundLine>)
    ensures BadLines(items, lines) <==> !LinesValid(items, lines)
  {
  }

  lemma QuoteClaimed(s: State, id: nat, restock: bool, lines: seq<RefundLine>)
    requires SalesOk(s.shelf, s.sales) && id < |s.sales| && s.sales[id].status.Paid?
    requires lines != [] && LinesValid(s.sales[id].items, lines)
    ensures exists nets, taxes, quote :: ClaimedAt(s, id, restock, lines, nets, taxes, quote,
                                                   ClaimRefund(s, id, restock, lines))
  {
    var sale := s.sales[id];
    assert SaleOk(s.shelf, sale);
    forall i | 0 <= i < |sale.items| ensures sale.items[i].quantity > 0 { assert ItemOk(s.shelf, sale.items[i]); }
    hide QuoteRefund, NearestShares, QuotedAt, LinesValid;
    QuoteExact(sale, lines);
    var nets, taxes :| NearestShares(sale.items, lines, nets, taxes)
                       && QuotedAt(sale, lines, nets, taxes, QuoteRefund(sale, lines));
    assert ClaimedAt(s, id, restock, lines, nets, taxes, QuoteRefund(sale, lines),
                     ClaimRefund(s, id, restock, lines));
  }

  lemma ClaimAnswers(s: State, id: nat, restock: bool, requested: seq<RefundLine>)
    ensures var r := ClaimRefund(s, id, restock, requested);
            && (id >= |s.sales| ==> r == Err(404))
            && (id < |s.sales| && !s.sales[id].status.Paid? ==> r == Err(409))
            && (id < |s.sales| && s.sales[id].status.Paid? ==>
                  && (!LinesValid(s.sales[id].items, requested) ==> r == Err(400))
                  && (requested == [] ==>
                        var lines := RemainingLines(s.sales[id].items);
                        lines != [] ==> r == ClaimRefund(s, id, restock, lines)))
  {
    hide QuoteRefund, RemainingLines, LinesValid;
    NoLinesValid(s, id);
  }

  lemma NoLinesValid(s: State, id: nat)
    ensures id < |s.sales| ==> LinesValid(s.sales[id].items, [])
  {
  }

  /** The whole answer to a claim: 404 for a sale that is not there, 409 for one that is not PAID, 400 for
      lines it does not have or units it has not left, and else the quote, with the sale REFUNDING and one
      PENDING refund more. To ask for no lines is to ask for all that is left. */
  lemma ClaimExact(s: State, id: nat, restock: bool, requested: seq<RefundLine>)
    requires SalesOk(s.shelf, s.sales)
    ensures var r := ClaimRefund(s, id, restock, requested);
            if id >= |s.sales| then r == Err(404)
            else if !s.sales[id].status.Paid? then r == Err(409)
            else if BadLines(s.sales[id].items, requested) then r == Err(400)
            else exists lines, nets, taxes, quote ::
                   && ClaimedAt(s, id, restock, lines, nets, taxes, quote, r)
                   && if requested == [] then IsRest(s.sales[id].items, |s.sales[id].items|, lines)
                      else lines == requested
  {
    hide *;
    ClaimAnswers(s, id, restock, requested);
    if id < |s.sales| && s.sales[id].status.Paid? {
      BadAreInvalid(s.sales[id].items, requested);
      if requested == [] {
        RestOf(s, id);
        QuoteClaimed(s, id, restock, RemainingLines(s.sales[id].items));
      } else if LinesValid(s.sales[id].items, requested) {
        QuoteClaimed(s, id, restock, requested);
      }
    }
  }

  /** Something is always left of a PAID sale. */
  lemma RestOf(s: State, id: nat)
    requires SalesOk(s.shelf, s.sales) && id < |s.sales| && s.sales[id].status.Paid?
    ensures var items := s.sales[id].items;
            && RemainingLines(items) != [] && LinesValid(items, RemainingLines(items))
            && IsRest(items, |items|, RemainingLines(items))
  {
    var items := s.sales[id].items;
    assert SaleOk(s.shelf, s.sales[id]);
    forall i | 0 <= i < |items| ensures Remaining(items[i]) >= 0 { assert ItemOk(s.shelf, items[i]); }
    RestLines(items);
    RestOfSale(items, |items|);
    assert items[..|items|] == items;
  }

  // ---- All the refunds of a sale ----

  function ShareFn(whole: int, units: int): Part -> int {
    (part: Part) => if units > 0 then HalfUp(whole * part.qty, units) else 0
  }

  /** After k refunds of a line, rounded one by one, no more than k half-cents have been lost or gained. */
  lemma {:induction false} SharesDrift(parts: seq<Part>, n: int, whole: int, units: int)
    requires Tiled(parts, n) && units > 0
    ensures -|parts| * units <= 2 * (units * Sum(parts, ShareFn(whole, units)) - whole * n) <= |parts| * units
  {
    if parts != [] {
      var init, last := parts[..|parts| - 1], parts[|parts| - 1];
      SharesDrift(init, last.from, whole, units);
      HalfUpNearest(whole * last.qty, units);
      DriftStep(whole, units, HalfUp(whole * last.qty, units), last.qty, Sum(init, ShareFn(whole, units)), last.from,
                |init|);
    }
  }

  /** What was paid back on a sale, line by line: of the net price and of the tax of a line that was
      refunded k times, the part of the units that came back, to within k half-cents each. */
  predicate PaidInProportion(sale: Sale, nets: seq<int>, taxes: seq<int>) {
    && |nets| == |taxes| == |sale.items| && sale.refundedAmount == Cents(nets) + Cents(taxes)
    && forall i :: 0 <= i < |sale.items| ==>
         var item := sale.items[i];
         var k, back, net := |item.parts|, item.refundedQuantity, item.price * item.quantity - item.discount;
         && -k * item.quantity <= 2 * (item.quantity * nets[i] - net * back) <= k * item.quantity
         && -k * item.quantity <= 2 * (item.quantity * taxes[i] - item.tax * back) <= k * item.quantity
  }

  function NetBackFn(): SaleItem -> int {
    (item: SaleItem) => Sum(item.parts, ShareFn(NetTotal(item), item.quantity))
  }

  function TaxBackFn(): SaleItem -> int { (item: SaleItem) => Sum(item.parts, ShareFn(item.tax, item.quantity)) }

  function Weights(items: seq<SaleItem>, f: SaleItem -> int): (r: seq<int>)
    ensures |r| == |items| && forall i :: 0 <= i < |items| ==> r[i] == f(items[i])
  {
    if items == [] then [] else Weights(items[..|items| - 1], f) + [f(items[|items| - 1])]
  }

  lemma WorthSplits(items: seq<SaleItem>)
    ensures Sum(items, PaidBackFn()) == Cents(Weights(items, NetBackFn())) + Cents(Weights(items, TaxBackFn()))
  {
    hide HalfUp, Weights;
    forall i | 0 <= i < |items| ensures PaidBackFn()(items[i]) == NetBackFn()(items[i]) + TaxBackFn()(items[i]) {
      var item := items[i];
      SumAdd(item.parts, ShareFn(NetTotal(item), item.quantity), ShareFn(item.tax, item.quantity), PartWorthFn(item));
    }
    SumAdd(items, NetBackFn(), TaxBackFn(), PaidBackFn());
    SumSame(Weights(items, NetBackFn()), (x: int) => x, items, NetBackFn());
    SumSame(Weights(items, TaxBackFn()), (x: int) => x, items, TaxBackFn());
  }

  lemma BackInProportion(shelf: Shelf, sale: Sale)
    requires ItemsOk(shelf, sale.items) && sale.refundedAmount == Sum(sale.items, PaidBackFn())
    ensures PaidInProportion(sale, Weights(sale.items, NetBackFn()), Weights(sale.items, TaxBackFn()))
  {
    WorthSplits(sale.items);
    hide Cents, PaidBackFn, Weights;
    forall i | 0 <= i < |sale.items|
      ensures var item := sale.items[i];
              var k, back, net := |item.parts|, item.refundedQuantity, item.price * item.quantity - item.discount;
              && -k * item.quantity <= 2 * (item.quantity * NetBackFn()(item) - net * back) <= k * item.quantity
              && -k * item.quantity <= 2 * (item.quantity * TaxBackFn()(item) - item.tax * back) <= k * item.quantity
    {
      var item := sale.items[i];
      assert ItemOk(shelf, item);
      SharesDrift(item.parts, item.refundedQuantity, NetTotal(item), item.quantity);
      SharesDrift(item.parts, item.refundedQuantity, item.tax, item.quantity);
    }
  }

  /** After anything at all, as long as a sale has a cent left: what its refunds paid back is, line by line,
      the customer's share of net and of tax to within half a cent for each refund of the line. */
  lemma PaidBackInProportion(es: seq<Event>, id: nat)
    requires id < |Run(EMPTY, es).sales|
    ensures var sale := Run(EMPTY, es).sales[id];
            && sale.refundedAmount <= sale.total
            && (sale.refundedAmount < sale.total ==> exists nets, taxes :: PaidInProportion(sale, nets, taxes))
  {
    RefundsBalanceAlways(es);
    var s := Run(EMPTY, es);
    hide Run, PaidInProportion, PaidBackFn;
    assert SaleOk(s.shelf, s.sales[id]) && SaleMoney(s.sales[id], id, s.refunds);
    if s.sales[id].refundedAmount < s.sales[id].total { BackInProportion(s.shelf, s.sales[id]); }
  }
}
