/** The money of one checkout: line discounts, sales tax, and the split between operator and co-op.
    Amounts are cents; percentages are hundredths of a percent, as the store row keeps them. */
module Checkout {
  import opened Outcome
  import opened Sums
  import opened Money

  datatype Bearer = CoopBears | OperatorBears | SharedBears

  datatype StoreTerms = StoreTerms(taxRate: nat, operatorPercent: nat, bearer: Bearer, sharedPercent: nat)

  /** `benefit` is what resolveBenefits granted on the line, `manual` the discount typed by an admin. */
  datatype CartLine = CartLine(product: nat, quantity: int, price: int, exempt: bool, benefit: int, manual: int)

  datatype Priced = Priced(subtotalBeforeDiscount: int, subtotal: int, discount: int, memberDiscount: int,
                           tax: int, total: int, operatorBase: int, operatorAmount: int, coopAmount: int)

  predicate TermsOk(terms: StoreTerms) { terms.sharedPercent <= 10000 }

  /** What reaches the money loop: whole positive quantities, prices and discounts that are not negative. */
  predicate LineOk(line: CartLine) {
    line.quantity > 0 && line.price >= 0 && line.benefit >= 0 && line.manual >= 0
  }

  predicate CartOk(cart: seq<CartLine>) { forall i :: 0 <= i < |cart| ==> LineOk(cart[i]) }

  function Gross(line: CartLine): int { line.price * line.quantity }

  function Discount(line: CartLine): int { line.benefit + line.manual }

  function Net(line: CartLine): int { Gross(line) - Discount(line) }

  function Tax(line: CartLine, taxRate: nat): int {
    if line.exempt then 0 else HalfUp(Net(line) * taxRate, 10000)
  }

  /** The loop refuses a manual discount larger than what the benefit left of the line. */
  predicate LineAccepted(line: CartLine) { line.manual <= Gross(line) - line.benefit }

  function GrossFn(): CartLine -> int { (l: CartLine) => Gross(l) }
  function NetFn(): CartLine -> int { (l: CartLine) => Net(l) }
  function DiscountFn(): CartLine -> int { (l: CartLine) => Discount(l) }
  function BenefitFn(): CartLine -> int { (l: CartLine) => l.benefit }
  function TaxFn(taxRate: nat): CartLine -> int { (l: CartLine) => Tax(l, taxRate) }

  /** The pre-tax base the operator is paid on. */
  function OperatorBase(terms: StoreTerms, before: int, subtotal: int, member: int): int {
    match terms.bearer
    case CoopBears => before
    case OperatorBears => subtotal
    case SharedBears => HalfUp(subtotal * 10000 + member * (10000 - terms.sharedPercent), 10000)
  }

  function Split(terms: StoreTerms, before: int, subtotal: int, discount: int, member: int, tax: int): Priced {
    var base := OperatorBase(terms, before, subtotal, member);
    var operatorAmount := HalfUp(base * terms.operatorPercent, 10000);
    Priced(before, subtotal, discount, member, tax, subtotal + tax, base, operatorAmount, subtotal - operatorAmount)
  }

  function Totals(cart: seq<CartLine>, terms: StoreTerms): Priced {
    Split(terms, Sum(cart, GrossFn()), Sum(cart, NetFn()), Sum(cart, DiscountFn()), Sum(cart, BenefitFn()),
          Sum(cart, TaxFn(terms.taxRate)))
  }

  /** A cart is accepted when every line is and the co-op does not pay the operator more than it took. */
  predicate Accepted(cart: seq<CartLine>, terms: StoreTerms) {
    && (forall i :: 0 <= i < |cart| ==> LineAccepted(cart[i]))
    && Totals(cart, terms).coopAmount >= 0
  }

  function Price(cart: seq<CartLine>, terms: StoreTerms): Result<Priced> {
    if Accepted(cart, terms) then Ok(Totals(cart, terms)) else Err(400)
  }

  /** The money loop of createSale. */
  method PriceCart(cart: seq<CartLine>, terms: StoreTerms) returns (r: Result<Priced>)
    ensures r == Price(cart, terms)
  {
    var before, subtotal, discount, member, tax := 0, 0, 0, 0, 0;
    var i := 0;
    assert cart[..0] == [];
    while i < |cart|
      invariant 0 <= i <= |cart|
      invariant forall k :: 0 <= k < i ==> LineAccepted(cart[k])
      invariant before == Sum(cart[..i], GrossFn()) && subtotal == Sum(cart[..i], NetFn())
      invariant discount == Sum(cart[..i], DiscountFn()) && member == Sum(cart[..i], BenefitFn())
      invariant tax == Sum(cart[..i], TaxFn(terms.taxRate))
    {
      var item := cart[i];
      var lineGross := item.price * item.quantity;
      if item.manual > lineGross - item.benefit {
        return Err(400);
      }
      var lineDiscount := item.benefit + item.manual;
      var lineNet := lineGross - lineDiscount;
      var lineTax := if item.exempt then 0 else HalfUp(lineNet * terms.taxRate, 10000);
      before := before + lineGross;
      subtotal := subtotal + lineNet;
      discount := discount + lineDiscount;
      member := member + item.benefit;
      tax := tax + lineTax;
      assert cart[..i + 1][..i] == cart[..i];
      i := i + 1;
    }
    assert cart[..|cart|] == cart;
    var priced := Split(terms, before, subtotal, discount, member, tax);
    return if priced.coopAmount < 0 then Err(400) else Ok(priced);
  }

  // ---- The same money, told from the cart ----

  /** Sales tax line by line: nothing on an exempt line, else the nearest cent of the rate on what is left
      of the line after both discounts. */
  predicate LineTaxes(cart: seq<CartLine>, taxRate: nat, taxes: seq<int>) {
    && |taxes| == |cart|
    && forall i :: 0 <= i < |cart| ==>
         var net := cart[i].price * cart[i].quantity - cart[i].benefit - cart[i].manual;
         if cart[i].exempt then taxes[i] == 0 else IsNearest(net * taxRate, 10000, taxes[i])
  }

  /** What the operator is paid on, and paid: the list price if the co-op bears the members' discounts,
      the net if he does, and the net with the co-op's part of those discounts if they share them. */
  predicate OperatorPaid(terms: StoreTerms, list: int, net: int, member: int, base: int, paid: int) {
    && (terms.bearer.CoopBears? ==> base == list)
    && (terms.bearer.OperatorBears? ==> base == net)
    && (terms.bearer.SharedBears? ==> IsNearest(net * 10000 + member * (10000 - terms.sharedPercent), 10000, base))
    && IsNearest(base * terms.operatorPercent, 10000, paid)
  }

  predicate Charged(cart: seq<CartLine>, terms: StoreTerms, taxes: seq<int>, base: int, paid: int, r: Result<Priced>) {
    var list := Sum(cart, (line: CartLine) => line.price * line.quantity);
    var discount := Sum(cart, (line: CartLine) => line.benefit + line.manual);
    var member := Sum(cart, (line: CartLine) => line.benefit);
    var tax := Sum(taxes, (cents: int) => cents);
    && LineTaxes(cart, terms.taxRate, taxes) && OperatorPaid(terms, list, list - discount, member, base, paid)
    && r == if (exists i :: 0 <= i < |cart| && cart[i].benefit + cart[i].manual > cart[i].price * cart[i].quantity)
               || paid > list - discount
            then Err(400)
            else Ok(Priced(list, list - discount, discount, member, tax, list - discount + tax, base, paid,
                           list - discount - paid))
  }

  function TaxesOf(cart: seq<CartLine>, taxRate: nat): (r: seq<int>)
    ensures |r| == |cart| && forall i :: 0 <= i < |cart| ==> r[i] == Tax(cart[i], taxRate)
  {
    if cart == [] then [] else TaxesOf(cart[..|cart| - 1], taxRate) + [Tax(cart[|cart| - 1], taxRate)]
  }

  lemma TaxesNearest(cart: seq<CartLine>, taxRate: nat)
    ensures LineTaxes(cart, taxRate, TaxesOf(cart, taxRate))
    ensures Sum(TaxesOf(cart, taxRate), (cents: int) => cents) == Sum(cart, TaxFn(taxRate))
  {
    var taxes := TaxesOf(cart, taxRate);
    SumSame(taxes, (cents: int) => cents, cart, TaxFn(taxRate));
    hide HalfUp, IsNearest;
    forall i | 0 <= i < |cart| && !cart[i].exempt ensures IsNearest(Net(cart[i]) * taxRate, 10000, taxes[i]) {
      HalfUpNearest(Net(cart[i]) * taxRate, 10000);
    }
  }

  lemma OperatorNearest(terms: StoreTerms, before: int, subtotal: int, discount: int, member: int, tax: int)
    ensures var t := Split(terms, before, subtotal, discount, member, tax);
            OperatorPaid(terms, before, subtotal, member, t.operatorBase, t.operatorAmount)
  {
    var t := Split(terms, before, subtotal, discount, member, tax);
    hide HalfUp, IsNearest;
    HalfUpNearest(subtotal * 10000 + member * (10000 - terms.sharedPercent), 10000);
    HalfUpNearest(t.operatorBase * terms.operatorPercent, 10000);
  }

  lemma PriceCharged(cart: seq<CartLine>, terms: StoreTerms)
    ensures var t := Totals(cart, terms);
            Charged(cart, terms, TaxesOf(cart, terms.taxRate), t.operatorBase, t.operatorAmount, Price(cart, terms))
  {
    var list := (line: CartLine) => line.price * line.quantity;
    var discount := (line: CartLine) => line.benefit + line.manual;
    var member := (line: CartLine) => line.benefit;
    SumSame(cart, list, cart, GrossFn());
    SumSame(cart, discount, cart, DiscountFn());
    SumSame(cart, member, cart, BenefitFn());
    SumAdd(cart, NetFn(), DiscountFn(), GrossFn());
    TaxesNearest(cart, terms.taxRate);
    var t := Totals(cart, terms);
    OperatorNearest(terms, t.subtotalBeforeDiscount, t.subtotal, t.discount, t.memberDiscount, t.tax);
    hide OperatorBase, HalfUp, IsNearest, LineTaxes, OperatorPaid, Sum;
  }

  /** The money of any cart: tax is taken on what is left after discounts, the total is list less discounts
      plus tax, the operator gets the nearest cent of his percentage of his base, and the cart is refused
      if a line's discounts exceed it or the co-op would pay the operator more than it took. */
  lemma PriceExact(cart: seq<CartLine>, terms: StoreTerms)
    ensures exists taxes, base, paid :: Charged(cart, terms, taxes, base, paid, Price(cart, terms))
  {
    PriceCharged(cart, terms);
  }

  lemma LineMoney(line: CartLine, taxRate: nat)
    requires LineOk(line) && LineAccepted(line)
    ensures Net(line) >= 0 && Tax(line, taxRate) >= 0
    ensures Gross(line) == Net(line) + Discount(line) && Gross(line) >= 0
  {
    HalfUpSign(Net(line) * taxRate, 10000);
  }

  /** For every accepted cart the books balance to the cent: nothing is negative, discounts account
      for the difference between list and net, and what the customer pays is operator + co-op + tax. */
  lemma CheckoutBalances(cart: seq<CartLine>, terms: StoreTerms)
    requires CartOk(cart) && TermsOk(terms) && Price(cart, terms).Ok?
    ensures forall i :: 0 <= i < |cart| ==> Net(cart[i]) >= 0 && Tax(cart[i], terms.taxRate) >= 0
    ensures var t := Price(cart, terms).value;
            && t.subtotalBeforeDiscount == t.subtotal + t.discount
            && 0 <= t.memberDiscount <= t.discount
            && t.total == t.operatorAmount + t.coopAmount + t.tax
            && t.coopAmount >= 0 && t.operatorAmount >= 0 && t.tax >= 0 && t.subtotal >= 0
  {
    hide HalfUp;
    var t := Price(cart, terms).value;
    forall i | 0 <= i < |cart| ensures Net(cart[i]) >= 0 && Tax(cart[i], terms.taxRate) >= 0 {
      LineMoney(cart[i], terms.taxRate);
    }
    SumAdd(cart, NetFn(), DiscountFn(), GrossFn());
    SumNonNeg(cart, NetFn());
    SumNonNeg(cart, TaxFn(terms.taxRate));
    SumNonNeg(cart, BenefitFn());
    var manualFn := (l: CartLine) => l.manual;
    SumAdd(cart, BenefitFn(), manualFn, DiscountFn());
    SumNonNeg(cart, manualFn);
    BasesOrdered(terms, t.subtotalBeforeDiscount, t.subtotal, t.memberDiscount);
    HalfUpSign(t.operatorBase * terms.operatorPercent, 10000) by {
      assert t.operatorBase * terms.operatorPercent >= 0;
    }
  }

  /** Whoever bears the discount, the base lies between what was paid and the list price, and moving
      the burden from operator to shared to co-op never lowers it, rounding included. */
  lemma BasesOrdered(terms: StoreTerms, before: int, subtotal: int, member: int)
    requires TermsOk(terms) && 0 <= member && 0 <= subtotal && subtotal + member <= before
    ensures 0 <= subtotal <= OperatorBase(terms, before, subtotal, member) <= before
    ensures OperatorBase(terms.(bearer := OperatorBears), before, subtotal, member)
         <= OperatorBase(terms.(bearer := SharedBears), before, subtotal, member)
         <= OperatorBase(terms.(bearer := CoopBears), before, subtotal, member)
  {
    var kept := member * (10000 - terms.sharedPercent);
    assert 0 <= kept <= member * 10000;
    HalfUpExact(subtotal, 10000);
    HalfUpExact(subtotal + member, 10000);
    HalfUpMonotone(subtotal * 10000, subtotal * 10000 + kept, 10000);
    HalfUpMonotone(subtotal * 10000 + kept, (subtotal + member) * 10000, 10000);
  }

  /** ... and neither does it lower what the operator earns. */
  lemma OperatorShareOrdered(terms: StoreTerms, before: int, subtotal: int, discount: int, member: int, tax: int)
    requires TermsOk(terms) && 0 <= member && 0 <= subtotal && subtotal + member <= before
    ensures Split(terms.(bearer := OperatorBears), before, subtotal, discount, member, tax).operatorAmount
         <= Split(terms.(bearer := SharedBears), before, subtotal, discount, member, tax).operatorAmount
         <= Split(terms.(bearer := CoopBears), before, subtotal, discount, member, tax).operatorAmount
  {
    BasesOrdered(terms, before, subtotal, member);
    var a := OperatorBase(terms.(bearer := OperatorBears), before, subtotal, member);
    var b := OperatorBase(terms.(bearer := SharedBears), before, subtotal, member);
    var c := OperatorBase(terms.(bearer := CoopBears), before, subtotal, member);
    ScaleMonotone(a, b, terms.operatorPercent);
    ScaleMonotone(b, c, terms.operatorPercent);
    HalfUpMonotone(a * terms.operatorPercent, b * terms.operatorPercent, 10000);
    HalfUpMonotone(b * terms.operatorPercent, c * terms.operatorPercent, 10000);
  }

  lemma ScaleMonotone(a: int, b: int, k: nat)
    requires a <= b
    ensures a * k <= b * k
  {
    assert b * k == a * k + (b - a) * k;
  }
}
