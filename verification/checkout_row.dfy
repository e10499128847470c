/** What one checkout writes: the row of the new sale and the lots it takes from or holds. */
module CheckoutRow {
  import opened Outcome
  import opened Sums
  import opened Allocation
  import opened Lots
  import opened StockEngine
  import opened Checkout
  import opened Ledger
  import opened LedgerInvariant
  import opened SaleSteps
  import opened CartPlans
  import opened Holds

  /** One line per line of the cart, at its price, discounts and tax; its units come from the lots it lists. */
  predicate LinesBooked(cart: seq<CartLine>, taxes: seq<int>, items: seq<SaleItem>) {
    && |items| == |cart| == |taxes|
    && forall i :: 0 <= i < |cart| ==>
         && items[i] == SaleItem(cart[i].product, cart[i].quantity, items[i].allocs, cart[i].price,
                                 cart[i].benefit + cart[i].manual, taxes[i], 0, [])
         && Total(items[i].allocs) == cart[i].quantity
  }

  /** A cash sale is PAID at once, a card sale waits for the processor; nothing of either is refunded. */
  predicate RowBooked(terms: StoreTerms, cash: bool, key: Option<string>, now: int, total: int, base: int, paid: int,
                      sale: Sale) {
    sale == Sale(if cash then Paid else Pending, cash, sale.items, terms.bearer, total, base, paid, 0, 0, None,
                 if cash then Some(now) else None, key)
  }

  lemma LinesAre(cart: seq<CartLine>, plans: seq<seq<Alloc>>, taxRate: nat)
    requires |cart| == |plans| && forall i :: 0 <= i < |cart| ==> Total(plans[i]) == cart[i].quantity
    ensures LinesBooked(cart, TaxesOf(cart, taxRate), ItemsOf(cart, plans, taxRate))
  {
  }

  lemma RowIs(priced: Priced, terms: StoreTerms, items: seq<SaleItem>, cash: bool, key: Option<string>, now: int)
    ensures RowBooked(terms, cash, key, now, priced.total, priced.operatorBase, priced.operatorAmount,
                      NewSale(priced, terms, items, cash, key, now))
  {
  }

  /** A cart that goes through was charged its totals. */
  lemma ChargedTotals(cart: seq<CartLine>, terms: StoreTerms)
    requires Price(cart, terms).Ok?
    ensures var t := Price(cart, terms).value;
            Charged(cart, terms, TaxesOf(cart, terms.taxRate), t.operatorBase, t.operatorAmount, Price(cart, terms))
  {
    PriceCharged(cart, terms);
    hide Charged, TaxesOf;
  }

  lemma PlansTotal(lots: seq<Lot>, cart: seq<CartLine>, plans: seq<seq<Alloc>>)
    requires |cart| == |plans| && PlansFit(lots, cart, plans)
    ensures forall i :: 0 <= i < |cart| ==> Total(plans[i]) == cart[i].quantity
  {
  }

  lemma LotsMoved(a: Shelf, b: Shelf, items: seq<SaleItem>, cash: bool)
    requires ItemsMoved(a, b, items, if cash then 0 else 1, if cash then -1 else 0)
    ensures |b.lots| == |a.lots|
    ensures forall l: nat :: l < |a.lots| ==>
              && b.lots[l].reserved == a.lots[l].reserved + (if cash then 0 else Units(items, l))
              && b.lots[l].remaining == a.lots[l].remaining - (if cash then Units(items, l) else 0)
  {
    forall l: nat | l < |a.lots|
      ensures b.lots[l].reserved == a.lots[l].reserved + (if cash then 0 else Units(items, l))
              && b.lots[l].remaining == a.lots[l].remaining - (if cash then Units(items, l) else 0)
    {
      assert LotShifted(a.lots[l], b.lots[l], Units(items, l), if cash then 0 else 1, if cash then -1 else 0);
    }
  }

  /** The whole effect of a checkout that goes through: one row more, PAID if cash and PENDING if not, with
      the cart's lines at the money of the cart; a cash sale takes the units of its lines from their lots
      and reserves nothing, a card sale reserves them and takes nothing. No other table is touched. */
  lemma CheckoutBooks(s: State, cart: seq<CartLine>, terms: StoreTerms, cash: bool, offline: bool,
                      key: Option<string>, now: int)
    requires HoldsWf(s.shelf) && CreateSale(s, cart, terms, cash, offline, key, now).Ok?
    requires !(key.Some? && HasKey(s.sales, key.value))
    ensures var t := CreateSale(s, cart, terms, cash, offline, key, now).value;
            && |t.sales| == |s.sales| + 1 && t.sales[..|s.sales|] == s.sales
            && t.refunds == s.refunds && t.recalls == s.recalls && |t.shelf.lots| == |s.shelf.lots|
            && var sale := t.sales[|s.sales|];
               && (exists taxes ::
                     && Charged(cart, terms, taxes, sale.operatorBase, sale.operatorAmount, Price(cart, terms))
                     && Price(cart, terms).Ok? && LinesBooked(cart, taxes, sale.items)
                     && RowBooked(terms, cash, key, now, Price(cart, terms).value.total, sale.operatorBase,
                                  sale.operatorAmount, sale))
               && (forall l: nat :: l < |s.shelf.lots| ==>
                     && t.shelf.lots[l].reserved
                        == s.shelf.lots[l].reserved + (if cash then 0 else Units(sale.items, l))
                     && t.shelf.lots[l].remaining
                        == s.shelf.lots[l].remaining - (if cash then Units(sale.items, l) else 0))
  {
    hide *;
    CreateGranted(s, cart, terms, cash, offline, key, now);
    var plans := PlanCart(s.shelf.lots, cart, ZeroTaken(|s.shelf.lots|), offline).value;
    var items, taxes := ItemsOf(cart, plans, terms.taxRate), TaxesOf(cart, terms.taxRate);
    PlanCartFits(s.shelf.lots, cart, ZeroTaken(|s.shelf.lots|), offline);
    PlansTotal(s.shelf.lots, cart, plans);
    LinesAre(cart, plans, terms.taxRate);
    ChargedTotals(cart, terms);
    var priced := Price(cart, terms).value;
    RowIs(priced, terms, items, cash, key, now);
    NewSaleItems(priced, terms, items, cash, key, now);
    TakeHolds(s.shelf, items, cash);
    LotsMoved(s.shelf, TakeItems(s.shelf, items, cash).value, items, cash);
    assert CreateSale(s, cart, terms, cash, offline, key, now).value.sales[|s.sales|]
        == NewSale(priced, terms, items, cash, key, now);
  }

  lemma NewSaleItems(priced: Priced, terms: StoreTerms, items: seq<SaleItem>, cash: bool, key: Option<string>,
                     now: int)
    ensures var sale := NewSale(priced, terms, items, cash, key, now);
            sale.items == items && sale.operatorBase == priced.operatorBase
            && sale.operatorAmount == priced.operatorAmount
  {
  }
}
