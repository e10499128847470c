/** The payment processor's webhook: events arrive at least once, in any order. */
module Webhook {
  import opened Outcome
  import opened Lots
  import opened StockEngine
  import opened Ledger
  import opened LedgerInvariant
  import opened CartPlans
  import opened PaymentSteps
  import opened Holds
  import opened TillService

  datatype Kind = CheckoutCompleted(paid: bool) | IntentSucceeded | IntentFailed | OtherKind

  datatype Delivery = Delivery(event: string, kind: Kind, sale: Option<nat>, now: int)

  /** The books and the claimed event ids. Everything else that moves the books leaves the ids alone. */
  datatype Mailbox = Mailbox(books: State, processed: set<string>)

  function Act(s: State, d: Delivery): Result<State> {
    if d.sale.None? then Ok(s)
    else match d.kind
      case CheckoutCompleted(paid) => if paid then FinalizePaidSale(s, d.sale.value, d.now) else Ok(s)
      case IntentSucceeded => FinalizePaidSale(s, d.sale.value, d.now)
      case IntentFailed => SettleUnpaidSale(s, d.sale.value, false)
      case OtherKind => Ok(s)
  }

  datatype Reply = Reply(box: Mailbox, code: nat)

  /** An event id is claimed before it is acted on. A conflict is acknowledged so that it is not sent
      again; any other refusal drops the claim so that it is. */
  function Deliver(box: Mailbox, d: Delivery): Reply {
    if d.event in box.processed then Reply(box, 200)
    else match Act(box.books, d)
      case Ok(next) => Reply(Mailbox(next, box.processed + {d.event}), 200)
      case Err(e) => if e == 409 then Reply(box.(processed := box.processed + {d.event}), 200) else Reply(box, 500)
  }

  /** What happens to a store: a delivery, or anything else that moves its books. */
  datatype Happening = Delivered(delivery: Delivery) | Elsewhere(event: Event)

  function Happen(box: Mailbox, h: Happening): Mailbox {
    match h
    case Delivered(d) => Deliver(box, d).box
    case Elsewhere(e) => box.(books := Exec(box.books, e))
  }

  function HappenAll(box: Mailbox, hs: seq<Happening>): Mailbox {
    if hs == [] then box else Happen(HappenAll(box, hs[..|hs| - 1]), hs[|hs| - 1])
  }

  lemma {:induction false} ClaimsStay(box: Mailbox, hs: seq<Happening>)
    ensures box.processed <= HappenAll(box, hs).processed
  {
    if hs != [] { ClaimsStay(box, hs[..|hs| - 1]); }
  }

  /** At-least-once delivery becomes exactly-once processing: an event that was acknowledged changes
      nothing when it comes again, whatever the till, the jobs, refunds and other deliveries did in
      between; one that was not is as if never sent. */
  lemma {:induction false} AcknowledgedOnce(box: Mailbox, d: Delivery, between: seq<Happening>)
    ensures Deliver(box, d).code == 200 || Deliver(box, d) == Reply(box, 500)
    ensures Deliver(box, d).code == 200 ==>
              var later := HappenAll(Deliver(box, d).box, between);
              Deliver(later, d) == Reply(later, 200)
  {
    if Deliver(box, d).code == 200 { ClaimsStay(Deliver(box, d).box, between); }
  }

  lemma {:induction false} HappenConcat(box: Mailbox, xs: seq<Happening>, ys: seq<Happening>)
    ensures HappenAll(box, xs + ys) == HappenAll(HappenAll(box, xs), ys)
  {
    if ys == [] {
      assert xs + ys == xs;
    } else {
      var k := |ys| - 1;
      assert (xs + ys)[..|xs + ys| - 1] == xs + ys[..k];
      HappenConcat(box, xs, ys[..k]);
    }
  }

  lemma HappenOnce(box: Mailbox, h: Happening)
    ensures HappenAll(box, [h]) == Happen(box, h)
  {
    assert [h][..0] == [];
    assert HappenAll(box, [h]) == Happen(HappenAll(box, [h][..0]), [h][0]);
  }

  /** Repeating an acknowledged event anywhere in the life of a store leaves it the same ever after. */
  lemma RepeatsDropOut(box: Mailbox, d: Delivery, between: seq<Happening>, after: seq<Happening>)
    requires Deliver(box, d).code == 200
    ensures HappenAll(box, [Delivered(d)] + between + [Delivered(d)] + after)
         == HappenAll(box, [Delivered(d)] + between + after)
  {
    var first := [Delivered(d)] + between;
    HappenConcat(box, [Delivered(d)], between);
    HappenOnce(box, Delivered(d));
    AcknowledgedOnce(box, d, between);
    HappenConcat(box, first, [Delivered(d)]);
    HappenOnce(HappenAll(box, first), Delivered(d));
    HappenConcat(box, first + [Delivered(d)], after);
    HappenConcat(box, first, after);
  }

  predicate SuccessEvent(box: Mailbox, d: Delivery) {
    && d.sale.Some? && d.sale.value < |box.books.sales| && box.books.sales[d.sale.value].status.Pending?
    && d.event !in box.processed && (d.kind.IntentSucceeded? || d.kind == CheckoutCompleted(true))
  }

  /** The whole answer to a success reported for a PENDING sale by a first-time event, in any state the
      store can reach. It is processed exactly when the goods are there. Otherwise the first line that
      cannot be given decides: if a lot of it is short the event is acknowledged all the same, so the
      processor never sends it again and the sale stays PENDING though the customer has paid; if only
      stock is short the claim is dropped and it will be sent again. */
  lemma SuccessExact(box: Mailbox, d: Delivery)
    requires HoldsOk(box.books) && SuccessEvent(box, d)
    ensures var r, id, items := Deliver(box, d), d.sale.value, box.books.sales[d.sale.value].items;
            && items != []
            && (CanGive(box.books, id) ==>
                  r.code == 200 && HoldsOk(r.box.books) && |r.box.books.sales| == |box.books.sales|
                  && r.box.books.sales[id].status.Paid?)
            && (!CanGive(box.books, id) ==>
                  exists n: nat :: ShortAt(box.books.shelf.products, box.books.shelf.lots, items, n))
            && (forall n: nat :: ShortAt(box.books.shelf.products, box.books.shelf.lots, items, n) ==>
                  r == if RowsCovered(box.books.shelf.lots, [items[n]]) then Reply(box, 500)
                       else Reply(box.(processed := box.processed + {d.event}), 200))
            && (!RowsCovered(box.books.shelf.lots, [items[0]]) ==> r.code == 200 && r.box.books == box.books)
            && (!CanGive(box.books, id) && StockCovered(box.books.shelf.products, items) ==> r.code == 200)
            && (!CanGive(box.books, id) && RowsCovered(box.books.shelf.lots, items) ==> r == Reply(box, 500))
  {
    var id := d.sale.value;
    PaidExact(box.books, id, d.now);
    hide HoldsOk, RowsCovered, StockCovered, ShortAt, FinalizePaidSale, CanGive;
    if CanGive(box.books, id) {
      PayHolds(box.books, id, d.now);
    }
  }

  /** Whoever was turned away with an acknowledgement is not served by any later delivery of the event,
      whatever happens to the store in between. */
  lemma AcknowledgedUnserved(box: Mailbox, d: Delivery, between: seq<Happening>)
    requires HoldsOk(box.books) && SuccessEvent(box, d) && !CanGive(box.books, d.sale.value)
    requires Deliver(box, d).code == 200
    ensures Deliver(box, d).box.books == box.books
    ensures var later := HappenAll(box.(processed := box.processed + {d.event}), between);
            Deliver(later, d) == Reply(later, 200)
  {
    SuccessExact(box, d);
    hide HoldsOk, ShortAt;
    AcknowledgedOnce(box, d, between);
  }

  /** The whole answer to a failure reported for a PENDING sale by a first-time event, in any state the store
      can reach: the sale is FAILED, each lot gets back exactly what the sale held on it, no unit moves,
      and the event is never acted on again. */
  lemma FailureExact(box: Mailbox, d: Delivery)
    requires HoldsOk(box.books) && d.kind.IntentFailed? && d.event !in box.processed
    requires d.sale.Some? && d.sale.value < |box.books.sales| && box.books.sales[d.sale.value].status.Pending?
    ensures var r, s, id := Deliver(box, d), box.books, d.sale.value;
            var t := r.box.books;
            && r.code == 200 && r.box.processed == box.processed + {d.event}
            && t.sales == s.sales[id := s.sales[id].(status := Failed)]
            && t.refunds == s.refunds && t.recalls == s.recalls && StockStays(s.shelf, t.shelf)
            && (forall l: nat :: l < |s.shelf.lots| ==>
                  t.shelf.lots[l] == s.shelf.lots[l].(reserved := s.shelf.lots[l].reserved - SaleOn(s.sales[id], l)))
  {
    hide HoldsOk, SettleUnpaidSale, StockStays;
    UnpaidGoes(box.books, d.sale.value, false);
  }

  /** Nobody is taken to have paid who did not: a delivery makes a sale PAID that was not only if it reports
      success, for that sale, for the first time. */
  lemma PaidOnlyOnSuccess(box: Mailbox, d: Delivery, id: nat)
    requires id < |box.books.sales| && !box.books.sales[id].status.Paid?
    ensures id < |Deliver(box, d).box.books.sales|
    ensures Deliver(box, d).box.books.sales[id].status.Paid? ==>
              && d.sale == Some(id) && d.event !in box.processed && box.books.sales[id].status.Pending?
              && (d.kind.IntentSucceeded? || d.kind == CheckoutCompleted(true))
  {
    hide FinalizeItems, ReleaseItems;
  }

  /** What there is nothing to do about is acknowledged: an event without a sale, a checkout that ended
      unpaid, any other kind, a success of a sale that is past payment, a failure of one that was settled.
      A sale the store does not have is not. */
  lemma NothingToDo(box: Mailbox, d: Delivery)
    requires d.event !in box.processed
    ensures var acknowledged := Reply(box.(processed := box.processed + {d.event}), 200);
            var success := d.kind.IntentSucceeded? || d.kind == CheckoutCompleted(true);
            && (d.sale.None? || !(success || d.kind.IntentFailed?) ==> Deliver(box, d) == acknowledged)
            && (d.sale.Some? && (success || d.kind.IntentFailed?) ==>
                  if d.sale.value >= |box.books.sales| then Deliver(box, d) == Reply(box, 500)
                  else !box.books.sales[d.sale.value].status.Pending? ==> Deliver(box, d) == acknowledged)
  {
    hide FinalizeItems, ReleaseItems;
  }

  /** In a store whose books are in order a success is never bounced. */
  lemma SuccessAccepted(box: Mailbox, d: Delivery)
    requires Inv(box.books) && d.sale.Some? && d.sale.value < |box.books.sales|
    requires box.books.sales[d.sale.value].status.Pending? && d.event !in box.processed
    requires d.kind.IntentSucceeded? || d.kind == CheckoutCompleted(true)
    ensures Deliver(box, d).code == 200 && Inv(Deliver(box, d).box.books)
    ensures Deliver(box, d).box.books.sales[d.sale.value].status.Paid?
  {
    PaidIsNeverRefused(box.books, d.sale.value, d.now);
  }

  class Handler {
    const till: Till
    var processed: set<string>

    constructor (till: Till)
      ensures this.till == till && processed == {}
    {
      this.till := till;
      processed := {};
    }

    ghost function Box(): Mailbox
      reads this, till
    {
      Mailbox(till.Books(), processed)
    }

    method Handle(d: Delivery) returns (code: nat)
      modifies this, till
      ensures Reply(Box(), code) == Deliver(old(Box()), d)
    {
      if d.event in processed { return 200; }
      processed := processed + {d.event};
      var refusal: Option<nat> := None;
      if d.sale.Some? {
        match d.kind
        case CheckoutCompleted(paid) =>
          if paid { refusal := till.FinalizePaidSale(d.sale.value, d.now); }
        case IntentSucceeded =>
          refusal := till.FinalizePaidSale(d.sale.value, d.now);
        case IntentFailed =>
          refusal := till.SettleUnpaidSale(d.sale.value, false);
        case OtherKind =>
      }
      if refusal.None? { return 200; }
      processed := processed - {d.event};
      if refusal.value == 409 {
        processed := processed + {d.event};
        return 200;
      }
      return 500;
    }
  }
}
