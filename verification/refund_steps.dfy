/** The lines of a finalized refund put back exactly the units they refund, and are refused only for goods
    of a recalled or expired lot. Nothing here asks that the rollup be right; where it is, it stays so. */
module RefundSteps {
  import opened Outcome
  import opened Sums
  import opened Allocation
  import opened Lots
  import opened StockEngine
  import opened Checkout
  import opened Ledger
  import opened LedgerInvariant
  import opened SaleSteps
  import opened CartPlans
  import opened PaymentSteps
  import opened Holds

  // ---- One refund line ----

  lemma RefundItemOk(shelf: Shelf, item: SaleItem, q: int, restock: bool)
    requires ItemOk(shelf, item) && 0 < q <= Remaining(item)
    ensures ItemOk(shelf, RefundItem(item, q, restock))
  {
    var part := Part(item.refundedQuantity, q, restock);
    assert (item.parts + [part])[..|item.parts|] == item.parts;
  }

  /** The walk for the next q units of a line, and what it does to the line's net take. */
  lemma NextUnits(shelf: Shelf, item: SaleItem, q: int)
    requires ItemOk(shelf, item) && 0 < q <= Remaining(item)
    ensures var back := Slice(item.allocs, item.refundedQuantity, q);
            && Total(back) == q && Supplies(shelf, item.product, back)
            && forall l: nat :: On(back, l) == UnitsIn(item.allocs, l, item.refundedQuantity, item.refundedQuantity + q)
  {
    var from := item.refundedQuantity;
    var back := Slice(item.allocs, from, q);
    forall l: nat ensures On(back, l) == UnitsIn(item.allocs, l, from, from + q) {
      SliceIsInterval(item.allocs, from, q, l);
    }
    SliceIsInterval(item.allocs, from, q, 0);
    SliceLots(item.allocs, from, q);
    forall i | 0 <= i < |back|
      ensures back[i].lot < |shelf.lots| && shelf.lots[back[i].lot].product == item.product
    {
      assert back[i] in back;
      var a :| a in item.allocs && a.lot == back[i].lot;
      var k :| 0 <= k < |item.allocs| && item.allocs[k] == a;
    }
  }

  lemma RestoredBy(item: SaleItem, q: int, restock: bool, l: nat)
    ensures Restored(RefundItem(item, q, restock), l)
         == Restored(item, l)
            + (if restock then UnitsIn(item.allocs, l, item.refundedQuantity, item.refundedQuantity + q) else 0)
  {
    SumAppend(item.parts, Part(item.refundedQuantity, q, restock), PartFn(item.allocs, l));
  }

  /** Some unit to go back belongs to a lot that is past returning to the shelf. */
  predicate Tainted(locked: seq<Lot>, item: SaleItem, q: int) {
    var back := Slice(item.allocs, item.refundedQuantity, q);
    exists i :: 0 <= i < |back| && back[i].lot < |locked| && Terminal(locked[back[i].lot].status)
  }

  /** One lot as goods come back to it. */
  lemma {:induction false} RestockedAt(lots: seq<Lot>, back: seq<Alloc>, l: nat)
    requires InRange(lots, back) && l < |lots|
    ensures var a, b := lots[l], ApplyAll(lots, back, RestockOp)[l];
            && b.product == a.product && b.reserved == a.reserved && b.remaining == a.remaining + On(back, l)
            && (b.status == a.status || (a.status.Depleted? && b.status.Active?))
  {
    if back != [] { RestockedAt(lots, back[..|back| - 1], l); }
  }

  /** `b` is `a` after goods came back: nothing terminal or reserved moved, the snapshot still fits, and a
      shelf whose books are right keeps them right. */
  predicate GoodsBack(a: Shelf, b: Shelf, locked: seq<Lot>) {
    && SaleMoved(a, b) && Quiet(a, b) && LockedCopy(locked, b.lots)
    && (ShelfOk(a) ==> ShelfOk(b))
  }

  lemma GoodsBackTwice(a: Shelf, b: Shelf, c: Shelf, locked: seq<Lot>)
    requires GoodsBack(a, b, locked) && GoodsBack(b, c, locked)
    ensures GoodsBack(a, c, locked)
  {
    MovedStep(a, b, c);
    QuietTrans(a, b, c);
  }

  /** The goods of one line put back: every lot has what it was given. */
  lemma PutBack(shelf: Shelf, locked: seq<Lot>, p: nat, back: seq<Alloc>)
    requires Supplies(shelf, p, back) && LockedCopy(locked, shelf.lots) && Restock(shelf, p, locked, back).Ok?
    ensures var next := Restock(shelf, p, locked, back).value;
            GoodsBack(shelf, next, locked)
            && forall l: nat :: l < |shelf.lots| ==> next.lots[l].remaining - shelf.lots[l].remaining == On(back, l)
  {
    var next := Restock(shelf, p, locked, back).value;
    forall l: nat | l < |shelf.lots|
      ensures next.lots[l] == ApplyAll(shelf.lots, back, RestockOp)[l]
      ensures Terminal(shelf.lots[l].status) ==> next.lots[l] == shelf.lots[l]
    {
      OnBounds(back, l);
      ApplyFrame(shelf.lots, back, RestockOp, l);
    }
    forall l: nat | l < |shelf.lots|
      ensures next.lots[l].product == shelf.lots[l].product && next.lots[l].reserved == shelf.lots[l].reserved
      ensures next.lots[l].remaining - shelf.lots[l].remaining == On(back, l)
      ensures next.lots[l].status == shelf.lots[l].status
              || (shelf.lots[l].status.Depleted? && next.lots[l].status.Active?)
    {
      RestockedAt(shelf.lots, back, l);
    }
    if ShelfOk(shelf) { RestockKeeps(shelf, p, locked, back); }
  }

  lemma WhatComesBack(item: SaleItem, q: int, restock: bool)
    ensures forall l: nat ::
              Restored(RefundItem(item, q, restock), l) - Restored(item, l)
              == (if restock then UnitsIn(item.allocs, l, item.refundedQuantity, item.refundedQuantity + q) else 0)
  {
    forall l: nat
      ensures Restored(RefundItem(item, q, restock), l) - Restored(item, l)
           == (if restock then UnitsIn(item.allocs, l, item.refundedQuantity, item.refundedQuantity + q) else 0)
    {
      RestoredBy(item, q, restock, l);
    }
  }

  /** One line: refused exactly when it restocks tainted goods; otherwise every unit goes back to the
      lot it came from, and shelf plus customers still hold what they held. */
  lemma FinalizeLineKeeps(shelf: Shelf, locked: seq<Lot>, item: SaleItem, q: int, restock: bool)
    requires ItemOk(shelf, item) && 0 < q <= Remaining(item) && LockedCopy(locked, shelf.lots)
    ensures var r := FinalizeLine(shelf, locked, item, q, restock);
            (r.Err? <==> restock && Tainted(locked, item, q)) && (r.Err? ==> r.status == 409)
    ensures FinalizeLine(shelf, locked, item, q, restock).Ok? ==>
              var next := FinalizeLine(shelf, locked, item, q, restock).value;
              GoodsBack(shelf, next, locked)
              && forall l: nat :: l < |shelf.lots| ==>
                   next.lots[l].remaining - shelf.lots[l].remaining
                   == Restored(RefundItem(item, q, restock), l) - Restored(item, l)
  {
    NextUnits(shelf, item, q);
    WhatComesBack(item, q, restock);
    hide Slice, Restored, UnitsIn, ShelfOk, ItemOk, Supplies;
    if restock && !Tainted(locked, item, q) {
      PutBack(shelf, locked, item.product, Slice(item.allocs, item.refundedQuantity, q));
    }
  }

  // ---- All the lines of a refund ----

  predicate TaintedLines(locked: seq<Lot>, items: seq<SaleItem>, lines: seq<RefundLine>) {
    exists i :: 0 <= i < |lines| && lines[i].item < |items|
                && Tainted(locked, items[lines[i].item], lines[i].quantity)
  }

  /** Same rows, each further refunded by what the refund planned for it. */
  predicate Advanced(before: seq<SaleItem>, after: seq<SaleItem>, lines: seq<RefundLine>) {
    && |after| == |before|
    && forall i :: 0 <= i < |before| ==>
         && after[i] == before[i].(refundedQuantity := after[i].refundedQuantity, parts := after[i].parts)
         && after[i].refundedQuantity == before[i].refundedQuantity + Planned(lines, i)
  }

  lemma RestValid(items: seq<SaleItem>, lines: seq<RefundLine>, item: SaleItem)
    requires lines != [] && LinesValid(items, lines)
    ensures LinesValid(items[lines[0].item := item], lines[1..])
    ensures Planned(lines[1..], lines[0].item) == 0
  {
    forall i | 0 <= i < |lines[1..]|
      ensures lines[1..][i].item < |items|
      ensures 0 < lines[1..][i].quantity <= Remaining(items[lines[0].item := item][lines[1..][i].item])
    {
      assert lines[1..][i] == lines[i + 1];
    }
    NotPlanned(lines[1..], lines[0].item);
  }

  lemma {:induction false} NotPlanned(lines: seq<RefundLine>, i: nat)
    requires forall k :: 0 <= k < |lines| ==> lines[k].item != i
    ensures Planned(lines, i) == 0
    decreases |lines|
  {
    if lines != [] { NotPlanned(lines[1..], i); }
  }

  lemma TaintedRest(locked: seq<Lot>, items: seq<SaleItem>, lines: seq<RefundLine>, item: SaleItem)
    requires lines != [] && LinesValid(items, lines)
    ensures TaintedLines(locked, items, lines)
       <==> Tainted(locked, items[lines[0].item], lines[0].quantity)
            || TaintedLines(locked, items[lines[0].item := item], lines[1..])
  {
    var next, rest := items[lines[0].item := item], lines[1..];
    if i :| 0 <= i < |lines| && lines[i].item < |items| && Tainted(locked, items[lines[i].item], lines[i].quantity) {
      if i > 0 {
        assert rest[i - 1] == lines[i] && next[rest[i - 1].item] == items[lines[i].item];
      }
    }
    if i :| 0 <= i < |rest| && rest[i].item < |next| && Tainted(locked, next[rest[i].item], rest[i].quantity) {
      assert rest[i] == lines[i + 1] && items[lines[i + 1].item] == next[rest[i].item];
    }
  }

  function NetOfItems(items: seq<SaleItem>, l: nat): int { Sum(items, ItemNetFn(l)) }

  /** The shelf and the lines of the sale after the refund. */
  predicate LinesSettled(shelf: Shelf, locked: seq<Lot>, items: seq<SaleItem>, lines: seq<RefundLine>,
                         done: Restocked) {
    && GoodsBack(shelf, done.shelf, locked)
    && ItemsOk(done.shelf, done.items) && Advanced(items, done.items, lines)
    && forall l: nat :: l < |shelf.lots| ==>
         done.shelf.lots[l].remaining + NetOfItems(done.items, l) == shelf.lots[l].remaining + NetOfItems(items, l)
  }

  lemma {:induction false} FinalizeLinesKeep(shelf: Shelf, locked: seq<Lot>, items: seq<SaleItem>,
                                             lines: seq<RefundLine>, restock: bool)
    requires ItemsOk(shelf, items) && LinesValid(items, lines) && LockedCopy(locked, shelf.lots)
    ensures var r := FinalizeLines(shelf, locked, items, lines, restock);
            && (r.Err? <==> restock && TaintedLines(locked, items, lines))
            && (r.Err? ==> r.status == 409)
            && (r.Ok? ==> LinesSettled(shelf, locked, items, lines, r.value))
    decreases |lines|
  {
    if lines != [] {
      var i, q := lines[0].item, lines[0].quantity;
      var item := RefundItem(items[i], q, restock);
      FinalizeLineKeeps(shelf, locked, items[i], q, restock);
      TaintedRest(locked, items, lines, item);
      var step := FinalizeLine(shelf, locked, items[i], q, restock);
      hide GoodsBack;
      if step.Ok? {
        LineThenRest(shelf, locked, items, lines, restock);
      }
    }
  }

  lemma {:induction false} LineThenRest(shelf: Shelf, locked: seq<Lot>, items: seq<SaleItem>,
                                        lines: seq<RefundLine>, restock: bool)
    requires ItemsOk(shelf, items) && LinesValid(items, lines) && LockedCopy(locked, shelf.lots)
    requires lines != [] && FinalizeLine(shelf, locked, items[lines[0].item], lines[0].quantity, restock).Ok?
    ensures var i, q := lines[0].item, lines[0].quantity;
            var next := items[i := RefundItem(items[i], q, restock)];
            var r := FinalizeLines(shelf, locked, items, lines, restock);
            && (r.Err? <==> restock && TaintedLines(locked, next, lines[1..]))
            && (r.Err? ==> r.status == 409)
            && (r.Ok? ==> LinesSettled(shelf, locked, items, lines, r.value))
    decreases |lines|, 0
  {
    var i, q := lines[0].item, lines[0].quantity;
    var item := RefundItem(items[i], q, restock);
    var next := items[i := item];
    FinalizeLineKeeps(shelf, locked, items[i], q, restock);
    var mid := FinalizeLine(shelf, locked, items[i], q, restock).value;
    RefundItemOk(shelf, items[i], q, restock);
    assert ItemsOk(shelf, next);
    ItemsFrame(shelf, mid, next) by { SaleMovedFrame(shelf, mid); }
    RestValid(items, lines, item);
    hide GoodsBack, ItemsOk, ItemOk, LinesSettled, Restored, LinesValid, TaintedLines;
    FinalizeLinesKeep(mid, locked, next, lines[1..], restock);
    var r := FinalizeLines(shelf, locked, items, lines, restock);
    if r.Ok? { SettledOn(shelf, mid, locked, items, lines, restock, r.value); }
  }

  lemma AdvancedOn(items: seq<SaleItem>, lines: seq<RefundLine>, restock: bool, after: seq<SaleItem>)
    requires lines != [] && LinesValid(items, lines)
    requires Advanced(items[lines[0].item := RefundItem(items[lines[0].item], lines[0].quantity, restock)], after,
                      lines[1..])
    ensures Advanced(items, after, lines)
  {
    var i := lines[0].item;
    RestValid(items, lines, RefundItem(items[i], lines[0].quantity, restock));
    hide LinesValid;
  }

  /** One line settled, and then the others. */
  lemma SettledOn(shelf: Shelf, mid: Shelf, locked: seq<Lot>, items: seq<SaleItem>, lines: seq<RefundLine>,
                  restock: bool, done: Restocked)
    requires lines != [] && LinesValid(items, lines) && GoodsBack(shelf, mid, locked)
    requires var i, item := lines[0].item, RefundItem(items[lines[0].item], lines[0].quantity, restock);
             && LinesSettled(mid, locked, items[i := item], lines[1..], done)
             && forall l: nat :: l < |shelf.lots| ==>
                  mid.lots[l].remaining - shelf.lots[l].remaining == Restored(item, l) - Restored(items[i], l)
    ensures LinesSettled(shelf, locked, items, lines, done)
  {
    var i := lines[0].item;
    var item := RefundItem(items[i], lines[0].quantity, restock);
    GoodsBackTwice(shelf, mid, done.shelf, locked);
    assert |mid.lots| == |shelf.lots|;
    hide GoodsBack, ItemsOk, LinesValid, Restored, Advanced, RefundItem;
    AdvancedOn(items, lines, restock, done.items);
    forall l: nat
      ensures NetOfItems(items[i := item], l) == NetOfItems(items, l) - (Restored(item, l) - Restored(items[i], l))
    {
      SumUpdate(items, i, item, ItemNetFn(l));
    }
  }
}
