/** Which member benefit applies to each line of a cart. */
module Benefits {
  import opened Outcome
  import opened Sums
  import opened Money
  import opened Allocation

  /** PERCENT_DISCOUNT and BULK_PRICING are percentages (hundredths of a percent); FIXED, FREE_ITEM,
      BIRTHDAY and STORE_CREDIT are amounts (cents); the other types do not touch line prices. */
  datatype Kind = PercentOff | AmountOff | NotAtCheckout

  datatype Scope = AllProducts | NetworkWide | Category | OneProduct | OneStore

  /** A loaded MemberBenefit. `prior` is how often the member used it in the current period. Its id is
      its position in the list. */
  datatype Benefit = Benefit(kind: Kind, value: int, scope: Scope, ref: Option<string>, priority: int, createdAt: int,
                             minimum: int, cap: Option<nat>, perTransaction: bool, prior: nat)

  datatype Line = Line(product: string, category: string, quantity: int, price: int)

  datatype Cart = Cart(store: string, lines: seq<Line>)

  datatype Application = Application(benefit: Option<nat>, discount: int)

  datatype Reason = BelowMinimum | WrongType | CapReached | NoLineMatches | Outbid

  datatype Skip = Skip(benefit: nat, reason: Reason)

  datatype Resolution = Resolution(lines: seq<Application>, total: int, applied: set<nat>, skipped: seq<Skip>)

  function LineGross(line: Line): int { line.price * line.quantity }

  function GrossFn(): Line -> int { (line: Line) => LineGross(line) }

  function CartGross(cart: Cart): int { Sum(cart.lines, GrossFn()) }

  function ComputeLineDiscount(b: Benefit, gross: int): int {
    if gross <= 0 then 0
    else match b.kind
      case PercentOff => HalfUp(gross * b.value, 10000)
      case AmountOff => Min(b.value, gross)
      case NotAtCheckout => 0
  }

  predicate ScopeMatchesLine(b: Benefit, store: string, line: Line) {
    match b.scope
    case AllProducts => true
    case NetworkWide => true
    case Category => b.ref == Some(line.category)
    case OneProduct => b.ref == Some(line.product)
    case OneStore => b.ref == Some(store)
  }

  /** PER_TRANSACTION caps count this cart only. */
  function Prior(b: Benefit): nat { if b.cap.None? || b.perTransaction then 0 else b.prior }

  /** Why a benefit is out before any line is looked at. */
  function Barred(b: Benefit, cartGross: int): Option<Reason> {
    if cartGross < b.minimum then Some(BelowMinimum)
    else if b.kind.NotAtCheckout? then Some(WrongType)
    else if b.cap.Some? && Prior(b) >= b.cap.value then Some(CapReached)
    else None
  }

  predicate HasCapacity(b: Benefit, inCart: nat) { b.cap.Some? ==> Prior(b) + inCart < b.cap.value }

  predicate Candidate(b: Benefit, cart: Cart, line: Line, inCart: nat) {
    && Barred(b, CartGross(cart)).None?
    && ScopeMatchesLine(b, cart.store, line)
    && HasCapacity(b, inCart)
    && ComputeLineDiscount(b, LineGross(line)) > 0
  }

  /** Lines of the cart that a benefit has won. */
  function Uses(apps: seq<Application>, b: nat): nat {
    if apps == [] then 0 else Uses(apps[..|apps| - 1], b) + (if apps[|apps| - 1].benefit == Some(b) then 1 else 0)
  }

  function SkipsOf(skipped: seq<Skip>, b: nat): nat {
    if skipped == [] then 0
    else SkipsOf(skipped[..|skipped| - 1], b) + (if skipped[|skipped| - 1].benefit == b then 1 else 0)
  }

  function DiscountFn(): Application -> int { (app: Application) => app.discount }

  /** The order the benefits are loaded in. */
  predicate InPriorityOrder(benefits: seq<Benefit>) {
    forall i, j :: 0 <= i < j < |benefits| ==>
      benefits[i].priority < benefits[j].priority
      || (benefits[i].priority == benefits[j].priority && benefits[i].createdAt <= benefits[j].createdAt)
  }

  /** `w` beats `b` on this line: better tier; in the same tier more money off; for the same money, older. */
  predicate Beats(benefits: seq<Benefit>, line: Line, w: nat, b: nat)
    requires w < |benefits| && b < |benefits|
  {
    var x, y := ComputeLineDiscount(benefits[w], LineGross(line)), ComputeLineDiscount(benefits[b], LineGross(line));
    benefits[w].priority < benefits[b].priority
    || (benefits[w].priority == benefits[b].priority && (x > y || (x == y && w <= b)))
  }

  /** The line's outcome, given what earlier lines used up: the winner is a candidate no other candidate
      beats; there is none only when there is no candidate. */
  predicate BestForLine(benefits: seq<Benefit>, cart: Cart, line: Line, before: seq<Application>, app: Application) {
    match app.benefit
    case None =>
      && app.discount == 0
      && forall b :: 0 <= b < |benefits| ==> !Candidate(benefits[b], cart, line, Uses(before, b))
    case Some(w) =>
      && w < |benefits| && Candidate(benefits[w], cart, line, Uses(before, w))
      && app.discount == ComputeLineDiscount(benefits[w], LineGross(line))
      && forall b :: 0 <= b < |benefits| && Candidate(benefits[b], cart, line, Uses(before, b)) ==>
         Beats(benefits, line, w, b)
  }

  /** The eligible benefits, each once, in their order. */
  predicate Screened(benefits: seq<Benefit>, cartGross: int, eligible: seq<nat>, n: nat)
    requires n <= |benefits|
  {
    && (forall k :: 0 <= k < |eligible| ==> eligible[k] < n)
    && (forall i, j :: 0 <= i < j < |eligible| ==> eligible[i] < eligible[j])
    && (forall b :: 0 <= b < n ==> (b in eligible <==> Barred(benefits[b], cartGross).None?))
  }

  // ---- The loops ----

  /** The eligibility loop. */
  method Screen(benefits: seq<Benefit>, cart: Cart) returns (eligible: seq<nat>, skipped: seq<Skip>)
    ensures Screened(benefits, CartGross(cart), eligible, |benefits|)
    ensures forall b: nat :: SkipsOf(skipped, b) == if b < |benefits| && b !in eligible then 1 else 0
    ensures forall k :: 0 <= k < |skipped| ==>
              skipped[k].benefit < |benefits|
                && Barred(benefits[skipped[k].benefit], CartGross(cart)) == Some(skipped[k].reason)
  {
    eligible, skipped := [], [];
    var cartGross, i := 0, 0;
    assert cart.lines[..0] == [];
    while i < |cart.lines|
      invariant 0 <= i <= |cart.lines| && cartGross == Sum(cart.lines[..i], GrossFn())
    {
      cartGross := cartGross + LineGross(cart.lines[i]);
      assert cart.lines[..i + 1][..i] == cart.lines[..i];
      i := i + 1;
    }
    assert cart.lines[..|cart.lines|] == cart.lines;
    var b := 0;
    while b < |benefits|
      invariant 0 <= b <= |benefits|
      invariant Screened(benefits, cartGross, eligible, b)
      invariant forall x: nat :: SkipsOf(skipped, x) == if x < b && x !in eligible then 1 else 0
      invariant forall k :: 0 <= k < |skipped| ==>
                  skipped[k].benefit < b && Barred(benefits[skipped[k].benefit], cartGross) == Some(skipped[k].reason)
    {
      var bar := Barred(benefits[b], cartGross);
      if bar.Some? {
        SkipMore(skipped, Skip(b, bar.value));
        skipped := skipped + [Skip(b, bar.value)];
      } else {
        eligible := eligible + [b];
      }
      b := b + 1;
    }
  }

  lemma SkipMore(skipped: seq<Skip>, s: Skip)
    ensures forall b: nat :: SkipsOf(skipped + [s], b) == SkipsOf(skipped, b) + (if s.benefit == b then 1 else 0)
  {
    assert (skipped + [s])[..|skipped|] == skipped;
  }

  lemma UsesMore(apps: seq<Application>, a: Application)
    ensures forall b: nat :: Uses(apps + [a], b) == Uses(apps, b) + (if a.benefit == Some(b) then 1 else 0)
  {
    assert (apps + [a])[..|apps|] == apps;
  }

  function Tally(used: map<nat, nat>, b: nat): nat { if b in used then used[b] else 0 }

  /** One line: candidates in order, keeping the best so far. */
  method PickWinner(benefits: seq<Benefit>, cart: Cart, line: Line, eligible: seq<nat>, used: map<nat, nat>,
                    ghost before: seq<Application>) returns (app: Application)
    requires InPriorityOrder(benefits)
    requires Screened(benefits, CartGross(cart), eligible, |benefits|)
    requires forall b: nat :: Tally(used, b) == Uses(before, b)
    ensures BestForLine(benefits, cart, line, before, app)
  {
    app := Application(None, 0);
    var k := 0;
    while k < |eligible|
      invariant 0 <= k <= |eligible|
      invariant app.benefit.None? ==>
                  app.discount == 0 && forall j :: 0 <= j < k ==>
                    !Candidate(benefits[eligible[j]], cart, line, Uses(before, eligible[j]))
      invariant app.benefit.Some? ==>
                  && app.benefit.value in eligible[..k]
                  && Candidate(benefits[app.benefit.value], cart, line, Uses(before, app.benefit.value))
                  && app.discount == ComputeLineDiscount(benefits[app.benefit.value], LineGross(line))
                  && forall j ::
                       (0 <= j < k && Candidate(benefits[eligible[j]], cart, line, Uses(before, eligible[j]))) ==>
                         Beats(benefits, line, app.benefit.value, eligible[j])
    {
      var b := eligible[k];
      assert b in eligible;
      assert eligible[..k + 1] == eligible[..k] + [b];
      if ScopeMatchesLine(benefits[b], cart.store, line) && HasCapacity(benefits[b], Tally(used, b)) {
        var discount := ComputeLineDiscount(benefits[b], LineGross(line));
        if discount > 0
           && (app.benefit.None?
              || (benefits[b].priority == benefits[app.benefit.value].priority && discount > app.discount)) {
          app := Application(Some(b), discount);
        }
      }
      k := k + 1;
    }
    AllEligibleSeen(benefits, cart, line, eligible, before, app);
  }

  lemma AllEligibleSeen(benefits: seq<Benefit>, cart: Cart, line: Line, eligible: seq<nat>, before: seq<Application>,
                        app: Application)
    requires Screened(benefits, CartGross(cart), eligible, |benefits|)
    requires app.benefit.Some? ==> app.benefit.value < |benefits|
    ensures (forall j :: 0 <= j < |eligible| ==>
            !Candidate(benefits[eligible[j]], cart, line, Uses(before, eligible[j]))) ==>
              forall b :: 0 <= b < |benefits| ==> !Candidate(benefits[b], cart, line, Uses(before, b))
    ensures app.benefit.Some?
            && (forall j ::
                  (0 <= j < |eligible| && Candidate(benefits[eligible[j]], cart, line, Uses(before, eligible[j]))) ==>
                    Beats(benefits, line, app.benefit.value, eligible[j])) ==>
              forall b :: 0 <= b < |benefits| && Candidate(benefits[b], cart, line, Uses(before, b)) ==>
                Beats(benefits, line, app.benefit.value, b)
  {
    forall b | 0 <= b < |benefits| && Candidate(benefits[b], cart, line, Uses(before, b))
      ensures exists j :: 0 <= j < |eligible| && eligible[j] == b
    {
      assert b in eligible;
    }
  }

  /** resolveBenefits, for a member at a store that honours network benefits. Every line gets its best
      benefit; no cap is passed; every loaded benefit is reported exactly once, as applied or as skipped. */
  method ResolveBenefits(benefits: seq<Benefit>, cart: Cart) returns (r: Resolution)
    requires InPriorityOrder(benefits)
    ensures |r.lines| == |cart.lines|
    ensures forall i :: 0 <= i < |cart.lines| ==> BestForLine(benefits, cart, cart.lines[i], r.lines[..i], r.lines[i])
    ensures r.total == Sum(r.lines, DiscountFn())
    ensures forall b: nat :: b in r.applied <==> Uses(r.lines, b) > 0
    ensures forall b: nat :: SkipsOf(r.skipped, b) == if b < |benefits| && b !in r.applied then 1 else 0
  {
    var eligible, skipped := Screen(benefits, cart);
    var used: map<nat, nat> := map[];
    var applied: set<nat>, apps: seq<Application>, total, i := {}, [], 0, 0;
    while i < |cart.lines|
      invariant 0 <= i <= |cart.lines| && |apps| == i
      invariant forall k :: 0 <= k < i ==> BestForLine(benefits, cart, cart.lines[k], apps[..k], apps[k])
      invariant total == Sum(apps, DiscountFn())
      invariant forall b: nat :: Tally(used, b) == Uses(apps, b)
      invariant forall b: nat :: b in applied <==> Uses(apps, b) > 0
      invariant forall b :: b in applied ==> b in eligible
    {
      var app := PickWinner(benefits, cart, cart.lines[i], eligible, used, apps);
      if app.benefit.Some? {
        used := used[app.benefit.value := Tally(used, app.benefit.value) + 1];
        applied := applied + {app.benefit.value};
      }
      UsesMore(apps, app);
      SumAppend(apps, app, DiscountFn());
      EarlierLines(apps, app);
      apps := apps + [app];
      total := total + app.discount;
      i := i + 1;
    }
    skipped := ExplainUnused(benefits, cart, eligible, applied, skipped);
    r := Resolution(apps, total, applied, skipped);
  }

  lemma EarlierLines(apps: seq<Application>, a: Application)
    ensures forall k :: 0 <= k <= |apps| ==> (apps + [a])[..k] == apps[..k]
  {
  }

  /** The last loop: what was eligible but won nothing is explained too. */
  method ExplainUnused(benefits: seq<Benefit>, cart: Cart, eligible: seq<nat>, applied: set<nat>, start: seq<Skip>)
    returns (skipped: seq<Skip>)
    requires forall b :: b in eligible ==> b < |benefits|
    requires forall i, j :: 0 <= i < j < |eligible| ==> eligible[i] < eligible[j]
    requires forall b :: b in applied ==> b in eligible
    requires forall b: nat :: SkipsOf(start, b) == if b < |benefits| && b !in eligible then 1 else 0
    ensures forall b: nat :: SkipsOf(skipped, b) == if b < |benefits| && b !in applied then 1 else 0
  {
    skipped := start;
    var k := 0;
    while k < |eligible|
      invariant 0 <= k <= |eligible|
      invariant forall b: nat ::
                SkipsOf(skipped, b) == SkipsOf(start, b) + (if b in eligible[..k] && b !in applied then 1 else 0)
    {
      var b := eligible[k];
      assert eligible[..k + 1] == eligible[..k] + [b];
      assert b !in eligible[..k];
      assert b in eligible && b < |benefits|;
      if b !in applied {
        var reason := if exists i :: 0 <= i < |cart.lines| && ScopeMatchesLine(benefits[b], cart.store, cart.lines[i])
                      then Outbid else NoLineMatches;
        SkipMore(skipped, Skip(b, reason));
        skipped := skipped + [Skip(b, reason)];
      }
      k := k + 1;
    }
    assert eligible[..|eligible|] == eligible;
  }

  // ---- What follows ----

  /** Prior uses and uses in this cart together never pass a cap. */
  lemma {:induction false} CapsHold(benefits: seq<Benefit>, cart: Cart, apps: seq<Application>, n: nat, b: nat)
    requires n <= |apps| <= |cart.lines| && b < |benefits|
    requires forall i :: 0 <= i < |apps| ==> BestForLine(benefits, cart, cart.lines[i], apps[..i], apps[i])
    ensures benefits[b].cap.Some? && Uses(apps[..n], b) > 0 ==>
            Prior(benefits[b]) + Uses(apps[..n], b) <= benefits[b].cap.value
  {
    if n > 0 {
      CapsHold(benefits, cart, apps, n - 1, b);
      assert apps[..n][..n - 1] == apps[..n - 1];
      assert BestForLine(benefits, cart, cart.lines[n - 1], apps[..n - 1], apps[n - 1]);
    }
  }

  /** The outcome of a line is determined: the rule leaves no choice. */
  lemma BestIsUnique(benefits: seq<Benefit>, cart: Cart, line: Line, before: seq<Application>, a: Application,
                     b: Application)
    requires BestForLine(benefits, cart, line, before, a) && BestForLine(benefits, cart, line, before, b)
    ensures a == b
  {
  }

  /** A fixed amount never exceeds the line. A percentage rounds to more than the line exactly when
      it is over a hundred by half a cent's worth, since nothing caps it. */
  lemma DiscountWithinLine(b: Benefit, gross: int)
    requires gross > 0
    ensures b.kind.AmountOff? ==> ComputeLineDiscount(b, gross) <= gross
    ensures b.kind.PercentOff? ==>
              (ComputeLineDiscount(b, gross) <= gross <==> 2 * (gross * b.value) < 10000 * (2 * gross + 1))
  {
    RoundsWithin(gross * b.value, 10000, gross);
  }

  /** When a benefit takes money off a line, and how much: the cart is worth at least its minimum; it is one
      that applies at checkout; the line is in its scope; its cap, counted with earlier use unless it is per
      transaction, is not used up; and the nearest cent of its percentage, or its amount as far as the line
      goes, is more than nothing. */
  lemma CandidateExact(b: Benefit, cart: Cart, line: Line, inCart: nat)
    ensures Candidate(b, cart, line, inCart) <==>
              && Sum(cart.lines, (l: Line) => l.price * l.quantity) >= b.minimum
              && (b.kind.PercentOff? || b.kind.AmountOff?)
              && (b.scope.Category? ==> b.ref == Some(line.category))
              && (b.scope.OneProduct? ==> b.ref == Some(line.product))
              && (b.scope.OneStore? ==> b.ref == Some(cart.store))
              && (b.cap.Some? ==> (if b.perTransaction then 0 else b.prior) + inCart < b.cap.value)
              && ComputeLineDiscount(b, line.price * line.quantity) > 0
  {
    SumSame(cart.lines, (l: Line) => l.price * l.quantity, cart.lines, GrossFn());
  }

  lemma DiscountExact(b: Benefit, gross: int)
    ensures gross <= 0 || b.kind.NotAtCheckout? ==> ComputeLineDiscount(b, gross) == 0
    ensures gross > 0 && b.kind.PercentOff? ==> IsNearest(gross * b.value, 10000, ComputeLineDiscount(b, gross))
    ensures gross > 0 && b.kind.AmountOff? ==>
              ComputeLineDiscount(b, gross) == if b.value <= gross then b.value else gross
  {
    HalfUpNearest(gross * b.value, 10000);
  }
}
