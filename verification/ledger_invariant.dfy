/** What holds of the ledger in every reachable state, and the quantities its conservation laws speak of. */
module LedgerInvariant {
  import opened Outcome
  import opened Sums
  import opened Allocation
  import opened Lots
  import opened StockEngine
  import opened Checkout
  import opened Ledger

  // ---- Units of a sale on a lot ----

  predicate Took(status: PaymentStatus) { status.Paid? || status.Refunding? || status.Refunded? }

  function ItemOnFn(l: nat): SaleItem -> int { (item: SaleItem) => On(item.allocs, l) }

  /** Units the sale's lines are allocated on lot `l`. */
  function SaleOn(sale: Sale, l: nat): int { Sum(sale.items, ItemOnFn(l)) }

  /** Units of lot `l` among the units lo .. hi of a line. */
  function UnitsIn(allocs: seq<Alloc>, l: nat, lo: int, hi: int): int {
    if Positive(allocs) && 0 <= lo <= hi <= Total(allocs) then UnitsOn(allocs, l, lo, hi) else 0
  }

  function PartFn(allocs: seq<Alloc>, l: nat): Part -> int {
    (part: Part) => if part.restock then UnitsIn(allocs, l, part.from, part.from + part.qty) else 0
  }

  /** Units the line's restocking refunds put back on lot `l`. */
  function Restored(item: SaleItem, l: nat): int { Sum(item.parts, PartFn(item.allocs, l)) }

  function ItemNetFn(l: nat): SaleItem -> int { (item: SaleItem) => On(item.allocs, l) - Restored(item, l) }

  /** What the sale has physically taken from lot `l`: nothing before payment or if payment never came,
      afterwards its allocation less what was restored. */
  function NetTake(sale: Sale, l: nat): int {
    if Took(sale.status) then Sum(sale.items, ItemNetFn(l)) else 0
  }

  function NetTakeFn(l: nat): Sale -> int { (sale: Sale) => NetTake(sale, l) }

  function HeldFn(l: nat): Sale -> int { (sale: Sale) => if sale.status.Pending? then SaleOn(sale, l) else 0 }

  /** Units of lot `l` spoken for by PENDING sales. */
  function Held(sales: seq<Sale>, l: nat): int { Sum(sales, HeldFn(l)) }

  /** Units of lot `l` on the shelf plus units out with customers: the conserved quantity. */
  function Tally(s: State, l: nat): int
    requires l < |s.shelf.lots|
  {
    s.shelf.lots[l].remaining + Sum(s.sales, NetTakeFn(l))
  }

  // ---- The invariant ----

  /** The refunded parts of a line lie end to end from its first unit. */
  predicate Tiled(parts: seq<Part>, n: int) {
    if parts == [] then n == 0
    else
      var last := parts[|parts| - 1];
      last.qty > 0 && last.from + last.qty == n && Tiled(parts[..|parts| - 1], last.from)
  }

  predicate ItemOk(shelf: Shelf, item: SaleItem) {
    && Supplies(shelf, item.product, item.allocs)
    && item.quantity > 0 && Total(item.allocs) == item.quantity && item.allocs != []
    && 0 <= item.refundedQuantity <= item.quantity
    && Tiled(item.parts, item.refundedQuantity)
    && NetTotal(item) >= 0 && item.tax >= 0 && item.price >= 0
  }

  predicate ItemsOk(shelf: Shelf, items: seq<SaleItem>) {
    forall i :: 0 <= i < |items| ==> ItemOk(shelf, items[i])
  }

  predicate SaleOk(shelf: Shelf, sale: Sale) {
    && sale.items != [] && ItemsOk(shelf, sale.items)
    && (!Took(sale.status) ==> forall i :: 0 <= i < |sale.items| ==> sale.items[i].parts == [])
    && (sale.status.Refunded? <==> FullyRefunded(sale.items))
    && (sale.paidAt.Some? <==> Took(sale.status))
  }

  predicate SalesOk(shelf: Shelf, sales: seq<Sale>) {
    forall i :: 0 <= i < |sales| ==> SaleOk(shelf, sales[i])
  }

  /** Every reserved unit is held by a PENDING sale and every held unit is reserved. */
  predicate HeldOk(s: State) {
    forall l: nat :: l < |s.shelf.lots| ==> s.shelf.lots[l].reserved == Held(s.sales, l)
  }

  /** A REFUNDING sale points at its one PENDING refund, whose lines still fit the sale. */
  predicate RefundOpen(sales: seq<Sale>, refunds: seq<Refund>, id: nat)
    requires id < |sales|
  {
    && sales[id].pendingRefund.Some? && sales[id].pendingRefund.value < |refunds|
    && var refund := refunds[sales[id].pendingRefund.value];
       refund.sale == id && refund.status.RefundPending?
  }

  predicate RefundsOk(sales: seq<Sale>, refunds: seq<Refund>) {
    && (forall id: nat :: id < |sales| && sales[id].status.Refunding? ==> RefundOpen(sales, refunds, id))
    && (forall rid: nat :: rid < |refunds| ==> refunds[rid].sale < |sales| && refunds[rid].lines != [])
    && (forall rid: nat :: rid < |refunds| && refunds[rid].status.RefundPending? ==>
          && sales[refunds[rid].sale].status.Refunding?
          && sales[refunds[rid].sale].pendingRefund == Some(rid)
          && LinesValid(sales[refunds[rid].sale].items, refunds[rid].lines))
  }

  /** The lots of a DRAFT recall are in quarantine, and on no other DRAFT recall. */
  predicate RecallsOk(s: State) {
    && (forall r, i :: 0 <= r < |s.recalls| && s.recalls[r].status.Draft? && 0 <= i < |s.recalls[r].lots| ==>
          && s.recalls[r].lots[i] < |s.shelf.lots|
          && s.shelf.lots[s.recalls[r].lots[i]].status.Quarantined?)
    && (forall r, q :: 0 <= r < q < |s.recalls| && s.recalls[r].status.Draft? && s.recalls[q].status.Draft? ==>
          forall l :: l in s.recalls[r].lots ==> l !in s.recalls[q].lots)
  }

  predicate KeysOk(sales: seq<Sale>) {
    forall i, j :: 0 <= i < j < |sales| && sales[i].key.Some? ==> sales[i].key != sales[j].key
  }

  predicate Core(s: State) {
    && ShelfOk(s.shelf) && SalesOk(s.shelf, s.sales) && HeldOk(s) && RecallsOk(s) && KeysOk(s.sales)
  }

  predicate Inv(s: State) { Core(s) && RefundsOk(s.sales, s.refunds) }

  // ---- Frames ----

  /** Lots may change quantities and status and new ones may appear; none changes product. */
  predicate SameProducts(a: Shelf, b: Shelf) {
    && |a.products| <= |b.products| && |a.lots| <= |b.lots|
    && forall l :: 0 <= l < |a.lots| ==> a.lots[l].product == b.lots[l].product
  }

  lemma SalesFrame(a: Shelf, b: Shelf, sales: seq<Sale>)
    requires SalesOk(a, sales) && SameProducts(a, b)
    ensures SalesOk(b, sales)
  {
    forall i | 0 <= i < |sales| ensures SaleOk(b, sales[i]) {
      ItemsFrame(a, b, sales[i].items);
    }
  }

  lemma ItemsFrame(a: Shelf, b: Shelf, items: seq<SaleItem>)
    requires ItemsOk(a, items) && SameProducts(a, b)
    ensures ItemsOk(b, items)
  {
    forall i | 0 <= i < |items| ensures ItemOk(b, items[i]) {
      assert ItemOk(a, items[i]);
    }
  }

  // ---- Sums over the lines of a sale ----

  lemma ItemsCons(items: seq<SaleItem>, l: nat)
    requires items != []
    ensures Sum(items, ItemOnFn(l)) == On(items[0].allocs, l) + Sum(items[1..], ItemOnFn(l))
  {
    assert items == [items[0]] + items[1..];
    SumConcat([items[0]], items[1..], ItemOnFn(l));
    SumSingleton(items[0], ItemOnFn(l));
  }

  lemma ItemsNonNeg(shelf: Shelf, items: seq<SaleItem>, l: nat)
    requires forall i :: 0 <= i < |items| ==> Supplies(shelf, items[i].product, items[i].allocs)
    ensures Sum(items, ItemOnFn(l)) >= 0
    ensures forall i :: 0 <= i < |items| ==> 0 <= On(items[i].allocs, l) <= Sum(items, ItemOnFn(l))
  {
    forall i | 0 <= i < |items| ensures On(items[i].allocs, l) >= 0 { OnBounds(items[i].allocs, l); }
    SumNonNeg(items, ItemOnFn(l));
    forall i | 0 <= i < |items| ensures On(items[i].allocs, l) <= Sum(items, ItemOnFn(l)) {
      SumPart(items, i, ItemOnFn(l));
    }
  }

  lemma HeldNonNeg(shelf: Shelf, sales: seq<Sale>, l: nat)
    requires SalesOk(shelf, sales)
    ensures Held(sales, l) >= 0
    ensures forall i :: 0 <= i < |sales| ==> 0 <= HeldFn(l)(sales[i]) <= Held(sales, l)
  {
    forall i | 0 <= i < |sales| ensures SaleOn(sales[i], l) >= 0 {
      assert SaleOk(shelf, sales[i]);
      assert forall k :: 0 <= k < |sales[i].items| ==> ItemOk(shelf, sales[i].items[k]);
      ItemsNonNeg(shelf, sales[i].items, l);
    }
    SumNonNeg(sales, HeldFn(l));
    forall i | 0 <= i < |sales| ensures HeldFn(l)(sales[i]) <= Held(sales, l) { SumPart(sales, i, HeldFn(l)); }
  }

  /** A sale no unit of which was refunded has taken exactly its allocation. */
  lemma UnrefundedTake(sale: Sale, l: nat)
    requires forall i :: 0 <= i < |sale.items| ==> sale.items[i].parts == []
    ensures Sum(sale.items, ItemNetFn(l)) == SaleOn(sale, l)
  {
    SumSame(sale.items, ItemNetFn(l), sale.items, ItemOnFn(l));
  }
}
