/** The sales ledger of one store: the tables behind the till and what each transaction does to them.
    Rows are never deleted, so a row's id is its position. Every function here is one database
    transaction: it yields the next state, or a refusal that leaves the state as it was. */
module Ledger {
  import opened Outcome
  import opened Sums
  import opened Money
  import opened Allocation
  import opened Lots
  import opened StockEngine
  import opened Fefo
  import opened Checkout

  /** TimedOut is the payment status EXPIRED of the service. */
  datatype PaymentStatus = Pending | Paid | Failed | TimedOut | Refunding | Refunded

  datatype RefundStatus = RefundPending | RefundSucceeded | RefundFailed

  /** A finalized refund line of a sale line: units from .. from + qty. The parts of a line are its
      succeeded SaleRefundLine rows in the order they were finalized. */
  datatype Part = Part(from: int, qty: int, restock: bool)

  datatype SaleItem = SaleItem(product: nat, quantity: int, allocs: seq<Alloc>, price: int, discount: int,
                               tax: int, refundedQuantity: int, parts: seq<Part>)

  datatype Sale = Sale(status: PaymentStatus, cash: bool, items: seq<SaleItem>, bearer: Bearer,
                       total: int, operatorBase: int, operatorAmount: int,
                       refundedAmount: int, refundedOperatorAmount: int,
                       pendingRefund: Option<nat>, paidAt: Option<int>, key: Option<string>)

  datatype RefundLine = RefundLine(item: nat, quantity: int)

  datatype Refund = Refund(sale: nat, status: RefundStatus, restock: bool, lines: seq<RefundLine>,
                           amount: int, operatorAmount: int)

  datatype RecallStatus = Draft | Live | Cancelled

  datatype Recall = Recall(status: RecallStatus, lots: seq<nat>)

  datatype State = State(shelf: Shelf, sales: seq<Sale>, refunds: seq<Refund>, recalls: seq<Recall>)

  const EMPTY: State := State(Shelf([], []), [], [], [])

  // ---- Checkout ----

  function ZeroTaken(n: nat): (r: seq<int>)
    ensures |r| == n && forall i :: 0 <= i < n ==> r[i] == 0
  {
    if n == 0 then [] else ZeroTaken(n - 1) + [0]
  }

  /** Quarantined or recalled units of the product still on hand. */
  predicate Blocked(lots: seq<Lot>, p: nat) {
    exists l :: 0 <= l < |lots| && lots[l].product == p && lots[l].remaining > 0
                && (lots[l].status.Quarantined? || lots[l].status.Recalled?)
  }

  /** FEFO allocation line by line; units planned for one line are gone for the next. */
  function PlanCart(lots: seq<Lot>, cart: seq<CartLine>, taken: seq<int>, offline: bool): (r: Result<seq<seq<Alloc>>>)
    requires |taken| == |lots|
    ensures r.Ok? ==> |r.value| == |cart|
    decreases |cart|
  {
    if cart == [] then Ok([])
    else
      var order := ActiveFefo(lots, cart[0].product);
      var free := UpTo(Avails(lots, order, taken), |order|);
      if free < cart[0].quantity && free == 0 && Blocked(lots, cart[0].product) then Err(409)
      else match PlanLine(lots, order, taken, cart[0].quantity, offline)
        case Err(e) => Err(e)
        case Ok(plan) =>
          match PlanCart(lots, cart[1..], plan.taken, offline)
          case Err(e) => Err(e)
          case Ok(rest) => Ok([plan.rows] + rest)
  }

  function ItemOf(line: CartLine, rows: seq<Alloc>, taxRate: nat): SaleItem {
    SaleItem(line.product, line.quantity, rows, line.price, Discount(line), Tax(line, taxRate), 0, [])
  }

  function ItemsOf(cart: seq<CartLine>, plans: seq<seq<Alloc>>, taxRate: nat): (r: seq<SaleItem>)
    requires |cart| == |plans|
    ensures |r| == |cart|
    ensures forall i :: 0 <= i < |r| ==> r[i] == ItemOf(cart[i], plans[i], taxRate)
  {
    if cart == [] then []
    else ItemsOf(cart[..|cart| - 1], plans[..|cart| - 1], taxRate)
         + [ItemOf(cart[|cart| - 1], plans[|cart| - 1], taxRate)]
  }

  /** Takes (cash) or holds (card) the units of each line. An allocation outside its product is the
      engine's own assertion and aborts the transaction. */
  function TakeItems(shelf: Shelf, items: seq<SaleItem>, cash: bool): Result<Shelf>
    decreases |items|
  {
    if items == [] then Ok(shelf)
    else if !Supplies(shelf, items[0].product, items[0].allocs) then Err(500)
    else TakeItems(if cash then ConsumeDirect(shelf, items[0].product, items[0].allocs)
                   else Reserve(shelf, items[0].product, items[0].allocs), items[1..], cash)
  }

  predicate HasKey(sales: seq<Sale>, key: string) { exists i :: 0 <= i < |sales| && sales[i].key == Some(key) }

  function NewSale(priced: Priced, terms: StoreTerms, items: seq<SaleItem>, cash: bool, key: Option<string>,
                   now: int): Sale {
    Sale(if cash then Paid else Pending, cash, items, terms.bearer, priced.total, priced.operatorBase,
         priced.operatorAmount, 0, 0, None, if cash then Some(now) else None, key)
  }

  function CreateSale(s: State, cart: seq<CartLine>, terms: StoreTerms, cash: bool, offline: bool,
                      key: Option<string>, now: int): Result<State>
  {
    if cart == [] then Err(400)
    else if offline && (!cash || key.None?) then Err(400)
    else if key.Some? && HasKey(s.sales, key.value) then Ok(s)
    else if !CartOk(cart) then Err(400)
    else if exists i :: 0 <= i < |cart| && cart[i].product >= |s.shelf.products| then Err(404)
    else match PlanCart(s.shelf.lots, cart, ZeroTaken(|s.shelf.lots|), offline)
      case Err(e) => Err(e)
      case Ok(plans) =>
        match Price(cart, terms)
        case Err(e) => Err(e)
        case Ok(priced) =>
          var items := ItemsOf(cart, plans, terms.taxRate);
          match TakeItems(s.shelf, items, cash)
          case Err(e) => Err(e)
          case Ok(shelf) => Ok(s.(shelf := shelf, sales := s.sales + [NewSale(priced, terms, items, cash, key, now)]))
  }

  // ---- Settling a card payment ----

  /** Every allocation of the line is still covered by the lot as it was locked. */
  predicate Intact(locked: seq<Lot>, allocs: seq<Alloc>) {
    forall i :: 0 <= i < |allocs| ==>
      && allocs[i].lot < |locked|
      && locked[allocs[i].lot].reserved >= allocs[i].qty
      && locked[allocs[i].lot].remaining >= allocs[i].qty
  }

  function FinalizeItem(shelf: Shelf, locked: seq<Lot>, item: SaleItem): Result<Shelf> {
    if item.allocs == [] || !Supplies(shelf, item.product, item.allocs) then Err(500)
    else if Intact(locked, item.allocs) then ConsumeReserved(shelf, item.product, item.allocs)
    else ConsumeFree(shelf, item.product, item.allocs)
  }

  function FinalizeItems(shelf: Shelf, locked: seq<Lot>, items: seq<SaleItem>): Result<Shelf>
    decreases |items|
  {
    if items == [] then Ok(shelf)
    else match FinalizeItem(shelf, locked, items[0])
      case Err(e) => Err(e)
      case Ok(next) => FinalizeItems(next, locked, items[1..])
  }

  function FinalizePaidSale(s: State, id: nat, now: int): Result<State> {
    if id >= |s.sales| then Err(404)
    else match s.sales[id].status
      case Paid => Ok(s)
      case Pending =>
        if s.sales[id].items == [] then Err(500)
        else (match FinalizeItems(s.shelf, s.shelf.lots, s.sales[id].items)
          case Err(e) => Err(e)
          case Ok(shelf) => Ok(s.(shelf := shelf,
                                  sales := s.sales[id := s.sales[id].(status := Paid, paidAt := Some(now))])))
      case _ => Err(409)
  }

  function ReleaseItems(shelf: Shelf, items: seq<SaleItem>): Result<Shelf>
    decreases |items|
  {
    if items == [] then Ok(shelf)
    else if !Supplies(shelf, items[0].product, items[0].allocs) then Err(500)
    else match Release(shelf, items[0].product, items[0].allocs)
      case Err(e) => Err(e)
      case Ok(next) => ReleaseItems(next, items[1..])
  }

  /** Payment failure, or an abandoned checkout that timed out. */
  function SettleUnpaidSale(s: State, id: nat, timedOut: bool): Result<State> {
    if id >= |s.sales| then Err(404)
    else match s.sales[id].status
      case Failed => Ok(s)
      case TimedOut => Ok(s)
      case Pending =>
        (match ReleaseItems(s.shelf, s.sales[id].items)
          case Err(e) => Err(e)
          case Ok(shelf) =>
            Ok(s.(shelf := shelf,
                  sales := s.sales[id := s.sales[id].(status := if timedOut then TimedOut else Failed)])))
      case _ => Err(409)
  }

  // ---- Refunds ----

  function NetTotal(item: SaleItem): int { item.price * item.quantity - item.discount }

  /** Refund of `q` of the line's units: the customer's share of net and of tax, each rounded once. */
  function LineNet(item: SaleItem, q: int): int {
    if item.quantity > 0 then HalfUp(NetTotal(item) * q, item.quantity) else 0
  }

  function LineTax(item: SaleItem, q: int): int {
    if item.quantity > 0 then HalfUp(item.tax * q, item.quantity) else 0
  }

  function LineAmountFn(items: seq<SaleItem>): RefundLine -> int {
    (r: RefundLine) =>
      if r.item < |items| then LineNet(items[r.item], r.quantity) + LineTax(items[r.item], r.quantity) else 0
  }

  /** The refunded part of the base the operator was paid on: list price when the co-op bears the
      discount, net otherwise. */
  function LineOnBaseFn(items: seq<SaleItem>, bearer: Bearer): RefundLine -> int {
    (r: RefundLine) =>
      if r.item >= |items| then 0
      else if bearer.CoopBears? then items[r.item].price * r.quantity
      else LineNet(items[r.item], r.quantity)
  }

  function Remaining(item: SaleItem): int { item.quantity - item.refundedQuantity }

  /** All that is left of the sale, line by line. */
  function RemainingLines(items: seq<SaleItem>): seq<RefundLine> {
    if items == [] then []
    else
      var k := |items| - 1;
      RemainingLines(items[..k]) + (if Remaining(items[k]) > 0 then [RefundLine(k, Remaining(items[k]))] else [])
  }

  predicate LinesValid(items: seq<SaleItem>, lines: seq<RefundLine>) {
    && (forall i :: 0 <= i < |lines| ==>
          lines[i].item < |items| && 0 < lines[i].quantity <= Remaining(items[lines[i].item]))
    && (forall i, j :: 0 <= i < j < |lines| ==> lines[i].item != lines[j].item)
  }

  function Planned(lines: seq<RefundLine>, i: nat): int {
    if lines == [] then 0
    else if lines[0].item == i then lines[0].quantity else Planned(lines[1..], i)
  }

  predicate RefundsAll(items: seq<SaleItem>, lines: seq<RefundLine>) {
    forall i :: 0 <= i < |items| ==> items[i].refundedQuantity + Planned(lines, i) >= items[i].quantity
  }

  /** What one partial refund claws back from the operator. */
  function Clawback(sale: Sale, lines: seq<RefundLine>): int {
    if sale.operatorBase <= 0 then 0
    else HalfUp(sale.operatorAmount * Sum(lines, LineOnBaseFn(sale.items, sale.bearer)), sale.operatorBase)
  }

  datatype Quote = Quote(amount: int, operatorAmount: int)

  /** The money of a refund of these lines, as the sale stands. */
  function QuoteRefund(sale: Sale, lines: seq<RefundLine>): Result<Quote> {
    var left := sale.total - sale.refundedAmount;
    var amount := Min(Sum(lines, LineAmountFn(sale.items)), left);
    if amount <= 0 then Err(409)
    else if RefundsAll(sale.items, lines)
    then Ok(Quote(left, sale.operatorAmount - sale.refundedOperatorAmount))
    else Ok(Quote(amount, Clawback(sale, lines)))
  }

  /** Phase 1: claim the refund before any money moves. No `requested` lines means all that is left. */
  function ClaimRefund(s: State, id: nat, restock: bool, requested: seq<RefundLine>): Result<State> {
    if id >= |s.sales| then Err(404)
    else if !s.sales[id].status.Paid? then Err(409)
    else
      var sale := s.sales[id];
      var lines := if requested == [] then RemainingLines(sale.items) else requested;
      if !LinesValid(sale.items, lines) then Err(400)
      else if lines == [] then Err(409)
      else match QuoteRefund(sale, lines)
        case Err(e) => Err(e)
        case Ok(q) =>
          Ok(s.(refunds := s.refunds + [Refund(id, RefundPending, restock, lines, q.amount, q.operatorAmount)],
                sales := s.sales[id := sale.(status := Refunding, pendingRefund := Some(|s.refunds|))]))
  }

  function RefundItem(item: SaleItem, q: int, restock: bool): SaleItem {
    item.(refundedQuantity := item.refundedQuantity + q,
          parts := item.parts + [Part(item.refundedQuantity, q, restock)])
  }

  /** One line of phase 3: the line's counter moves on, and with restock its next units go back. */
  function FinalizeLine(shelf: Shelf, locked: seq<Lot>, item: SaleItem, q: int, restock: bool): Result<Shelf> {
    if q > Remaining(item) then Err(409)
    else if !restock then Ok(shelf)
    else if item.allocs == [] then Err(500)
    else
      var back := Slice(item.allocs, item.refundedQuantity, q);
      if Total(back) < q then Err(500)
      else if !Supplies(shelf, item.product, back) || |locked| != |shelf.lots| then Err(500)
      else Restock(shelf, item.product, locked, back)
  }

  datatype Restocked = Restocked(shelf: Shelf, items: seq<SaleItem>)

  /** The lines of one refund, in order. `locked` is the lots as locked before the first line. */
  function FinalizeLines(shelf: Shelf, locked: seq<Lot>, items: seq<SaleItem>, lines: seq<RefundLine>,
                         restock: bool): Result<Restocked>
    decreases |lines|
  {
    if lines == [] then Ok(Restocked(shelf, items))
    else
      var i, q := lines[0].item, lines[0].quantity;
      if i >= |items| then Err(500)
      else match FinalizeLine(shelf, locked, items[i], q, restock)
        case Err(e) => Err(e)
        case Ok(next) => FinalizeLines(next, locked, items[i := RefundItem(items[i], q, restock)], lines[1..], restock)
  }

  predicate FullyRefunded(items: seq<SaleItem>) {
    forall i :: 0 <= i < |items| ==> items[i].refundedQuantity >= items[i].quantity
  }

  function SettleRefund(sale: Sale, refund: Refund, items: seq<SaleItem>): Sale {
    sale.(status := if FullyRefunded(items) then Refunded else Paid,
          items := items,
          refundedAmount := sale.refundedAmount + refund.amount,
          refundedOperatorAmount := sale.refundedOperatorAmount + refund.operatorAmount,
          pendingRefund := None)
  }

  /** Phase 3: stock and ledger after the processor confirmed. Idempotent on a SUCCEEDED refund. */
  function FinalizeRefund(s: State, rid: nat): Result<State> {
    if rid >= |s.refunds| || s.refunds[rid].sale >= |s.sales| then Err(404)
    else match s.refunds[rid].status
      case RefundSucceeded => Ok(s)
      case RefundFailed => Err(409)
      case RefundPending =>
        var refund, id := s.refunds[rid], s.refunds[rid].sale;
        (match FinalizeLines(s.shelf, s.shelf.lots, s.sales[id].items, refund.lines, refund.restock)
          case Err(e) => Err(e)
          case Ok(done) =>
            Ok(s.(shelf := done.shelf,
                  refunds := s.refunds[rid := refund.(status := RefundSucceeded)],
                  sales := s.sales[id := SettleRefund(s.sales[id], refund, done.items)])))
  }

  function AbortRefund(s: State, rid: nat): Result<State> {
    if rid >= |s.refunds| || s.refunds[rid].sale >= |s.sales| then Err(404)
    else if s.refunds[rid].status.RefundSucceeded? then Err(409)
    else
      var id := s.refunds[rid].sale;
      var sale := s.sales[id];
      Ok(s.(refunds := s.refunds[rid := s.refunds[rid].(status := RefundFailed)],
            sales := if sale.status.Refunding? && sale.pendingRefund == Some(rid)
                     then s.sales[id := sale.(status := Paid, pendingRefund := None)] else s.sales))
  }

  /** What the processor knows of a refund when the reconciliation job asks. */
  datatype StripeAnswer =
    | StripeSucceeded | StripeFailed | StripePending | StripeUnknown(graceOver: bool) | StripeUnreachable

  /** The reconciliation job on one sale. */
  function ReconcileRefund(s: State, id: nat, answer: StripeAnswer): Result<State> {
    if id >= |s.sales| || !s.sales[id].status.Refunding? then Ok(s)
    else match s.sales[id].pendingRefund
      case None => Ok(s.(sales := s.sales[id := s.sales[id].(status := Paid)]))
      case Some(rid) =>
        match answer
        case StripeUnreachable => Err(409)
        case StripeSucceeded => FinalizeRefund(s, rid)
        case StripeFailed => AbortRefund(s, rid)
        case StripePending => Ok(s)
        case StripeUnknown(graceOver) => if graceOver then AbortRefund(s, rid) else Ok(s)
  }

  // ---- Goods in, adjustments, quarantine, expiry, recalls ----

  function CreateProduct(s: State): State {
    s.(shelf := s.shelf.(products := s.shelf.products + [Product(0, 0)]))
  }

  function OnShelf(s: State, shelf: Result<Shelf>): Result<State> {
    match shelf case Ok(x) => Ok(s.(shelf := x)) case Err(e) => Err(e)
  }

  /** Accepted units become a new ACTIVE lot; a receipt of nothing creates none. */
  function Receive(s: State, p: nat, qty: int, expiry: Option<int>, at: int): Result<State> {
    if p >= |s.shelf.products| then Err(404)
    else if qty < 0 then Err(400)
    else if qty == 0 then Ok(s)
    else OnShelf(s, AddLot(s.shelf, p, qty, expiry, at))
  }

  predicate LotKnown(s: State, l: nat) {
    l < |s.shelf.lots| && s.shelf.lots[l].product < |s.shelf.products|
  }

  /** Manual adjustment; setting a lot to what it already holds is refused. */
  function AdjustLot(s: State, l: nat, quantity: int): Result<State> {
    if quantity < 0 then Err(400)
    else if !LotKnown(s, l) then Err(404)
    else match SetLotRemaining(s.shelf, l, quantity)
      case Err(e) => Err(e)
      case Ok(shelf) => if quantity == s.shelf.lots[l].remaining then Err(400) else Ok(s.(shelf := shelf))
  }

  /** One variance line of a count being approved: the variance is a delta on the current quantity. */
  datatype Variance = Variance(lot: nat, delta: int)

  function ApplyVariances(shelf: Shelf, lines: seq<Variance>): Result<Shelf>
    decreases |lines|
  {
    if lines == [] then Ok(shelf)
    else if lines[0].delta == 0 then ApplyVariances(shelf, lines[1..])
    else if lines[0].lot >= |shelf.lots| || shelf.lots[lines[0].lot].product >= |shelf.products| then Err(500)
    else match SetLotRemaining(shelf, lines[0].lot, Max0(shelf.lots[lines[0].lot].remaining + lines[0].delta))
      case Err(e) => Err(e)
      case Ok(next) => ApplyVariances(next, lines[1..])
  }

  predicate CountBlocked(lots: seq<Lot>, lines: seq<Variance>) {
    exists i :: 0 <= i < |lines| && lines[i].delta != 0 && lines[i].lot < |lots|
                && (lots[lines[i].lot].status.Quarantined? || lots[lines[i].lot].status.Recalled?)
  }

  function ApproveVariances(s: State, lines: seq<Variance>, overrideBlocked: bool): Result<State> {
    if CountBlocked(s.shelf.lots, lines) && !overrideBlocked then Err(409)
    else OnShelf(s, ApplyVariances(s.shelf, lines))
  }

  function QuarantineLot(s: State, l: nat): Result<State> {
    if !LotKnown(s, l) then Err(404)
    else
      var lot := s.shelf.lots[l];
      if lot.status.Quarantined? then Ok(s)
      else if !lot.status.Active? || lot.reserved > 0 then Err(409)
      else Ok(s.(shelf := LeaveSellableRollup(s.shelf, l, Quarantined)))
  }

  /** One lot of the expiry job: past-due ACTIVE lots with nothing reserved; any other lot is skipped. */
  function ExpireLot(s: State, l: nat, now: int): Result<State> {
    if !LotKnown(s, l) then Ok(s)
    else
      var lot := s.shelf.lots[l];
      if lot.expiry.Some? && lot.expiry.value < now && lot.status.Active? && lot.reserved <= 0
      then Ok(s.(shelf := LeaveSellableRollup(s.shelf, l, LotStatus.Expired)))
      else Ok(s)
  }

  function QuarantineAll(shelf: Shelf, lots: seq<nat>): Shelf
    decreases |lots|
  {
    if lots == [] then shelf
    else if lots[0] < |shelf.lots| && shelf.lots[lots[0]].status.Active?
            && shelf.lots[lots[0]].product < |shelf.products|
    then QuarantineAll(LeaveSellableRollup(shelf, lots[0], Quarantined), lots[1..])
    else QuarantineAll(shelf, lots[1..])
  }

  /** Recallable: on the shelf or in quarantine, with no open reservation. */
  predicate Recallable(s: State, l: nat) {
    && LotKnown(s, l)
    && (s.shelf.lots[l].status.Active? || s.shelf.lots[l].status.Quarantined?)
    && s.shelf.lots[l].reserved <= 0
  }

  function InitiateRecall(s: State, lots: seq<nat>): Result<State> {
    if lots == [] then Err(400)
    else if exists i :: 0 <= i < |lots| && lots[i] >= |s.shelf.lots| then Err(404)
    else if exists i :: 0 <= i < |lots| && !Recallable(s, lots[i]) then Err(409)
    else Ok(s.(shelf := QuarantineAll(s.shelf, lots), recalls := s.recalls + [Recall(Draft, lots)]))
  }

  function DepleteLots(shelf: Shelf, lots: seq<nat>): Shelf
    decreases |lots|
  {
    if lots == [] then shelf
    else if lots[0] < |shelf.lots| then DepleteLots(RecallDepleteLot(shelf, lots[0]), lots[1..])
    else DepleteLots(shelf, lots[1..])
  }

  function ActivateRecall(s: State, r: nat): Result<State> {
    if r >= |s.recalls| then Err(404)
    else if !s.recalls[r].status.Draft? then Err(409)
    else Ok(s.(shelf := DepleteLots(s.shelf, s.recalls[r].lots),
               recalls := s.recalls[r := s.recalls[r].(status := Live)]))
  }

  function ReturnLots(shelf: Shelf, lots: seq<nat>): Shelf
    decreases |lots|
  {
    if lots == [] then shelf
    else if lots[0] < |shelf.lots| && shelf.lots[lots[0]].product < |shelf.products|
    then ReturnLots(ReturnToSellableRollup(shelf, lots[0]), lots[1..])
    else ReturnLots(shelf, lots[1..])
  }

  function CancelRecall(s: State, r: nat): Result<State> {
    if r >= |s.recalls| then Err(404)
    else if !s.recalls[r].status.Draft? then Err(409)
    else Ok(s.(shelf := ReturnLots(s.shelf, s.recalls[r].lots),
               recalls := s.recalls[r := s.recalls[r].(status := Cancelled)]))
  }

  // ---- One step of a run ----

  datatype Event =
    | EvProduct
    | EvReceive(product: nat, qty: int, expiry: Option<int>, at: int)
    | EvSale(cart: seq<CartLine>, terms: StoreTerms, cash: bool, offline: bool, key: Option<string>, now: int)
    | EvPaid(sale: nat, now: int)
    | EvUnpaid(sale: nat, timedOut: bool)
    | EvClaim(sale: nat, restock: bool, requested: seq<RefundLine>)
    | EvFinalizeRefund(refund: nat)
    | EvAbortRefund(refund: nat)
    | EvReconcile(sale: nat, answer: StripeAnswer)
    | EvAdjust(lot: nat, quantity: int)
    | EvCount(lines: seq<Variance>, overrideBlocked: bool)
    | EvQuarantine(lot: nat)
    | EvExpire(lot: nat, now: int)
    | EvRecall(lots: seq<nat>)
    | EvActivate(recall: nat)
    | EvCancel(recall: nat)

  /** Steps of the sale protocol, as opposed to steps that correct, receive or withdraw stock. */
  predicate SaleEvent(e: Event) {
    e.EvSale? || e.EvPaid? || e.EvUnpaid? || e.EvClaim? || e.EvFinalizeRefund? || e.EvAbortRefund? || e.EvReconcile?
  }

  /** Events that may change how much of a lot there is, apart from selling and taking back. */
  predicate Correction(e: Event) { e.EvAdjust? || e.EvCount? || e.EvActivate? }

  function Step(s: State, e: Event): Result<State> {
    match e
    case EvProduct => Ok(CreateProduct(s))
    case EvReceive(p, qty, expiry, at) => Receive(s, p, qty, expiry, at)
    case EvSale(cart, terms, cash, offline, key, now) => CreateSale(s, cart, terms, cash, offline, key, now)
    case EvPaid(id, now) => FinalizePaidSale(s, id, now)
    case EvUnpaid(id, timedOut) => SettleUnpaidSale(s, id, timedOut)
    case EvClaim(id, restock, requested) => ClaimRefund(s, id, restock, requested)
    case EvFinalizeRefund(rid) => FinalizeRefund(s, rid)
    case EvAbortRefund(rid) => AbortRefund(s, rid)
    case EvReconcile(id, answer) => ReconcileRefund(s, id, answer)
    case EvAdjust(l, q) => AdjustLot(s, l, q)
    case EvCount(lines, overrideBlocked) => ApproveVariances(s, lines, overrideBlocked)
    case EvQuarantine(l) => QuarantineLot(s, l)
    case EvExpire(l, now) => ExpireLot(s, l, now)
    case EvRecall(lots) => InitiateRecall(s, lots)
    case EvActivate(r) => ActivateRecall(s, r)
    case EvCancel(r) => CancelRecall(s, r)
  }

  /** A refused transaction rolls back. */
  function Exec(s: State, e: Event): State {
    match Step(s, e) case Ok(t) => t case Err(_) => s
  }

  function Run(s: State, es: seq<Event>): State {
    if es == [] then s else Exec(Run(s, es[..|es| - 1]), es[|es| - 1])
  }
}
