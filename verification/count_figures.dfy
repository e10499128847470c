/** What a physical count is compared with. The shelf keeps trading while it is counted, and an entry
    may reach the server long after the counter looked; the variance must belong to that moment. */
module CountFigures {
  import opened Outcome
  import opened Sums
  import opened Money
  import opened Allocation
  import opened Lots
  import opened StockEngine
  import opened Fefo
  import opened Ledger
  import opened LedgerInvariant
  import opened LotSteps
  import opened Holds
  import opened RefundProtocol
  import opened EveryRun
  import opened SaleHistory

  // ---- When was it counted ----

  /** The device's stamps, both on the device's clock. */
  datatype Submission = Submission(key: Option<string>, countedAt: Option<int>, sentAt: Option<int>)

  function ResolveCountedAt(sub: Submission, startedAt: Option<int>, now: int): int {
    if sub.countedAt.None? then now
    else
      var t := sub.countedAt.value + (if sub.sentAt.Some? then now - sub.sentAt.value else 0);
      var capped := Min(t, now);
      if startedAt.Some? && capped < startedAt.value then startedAt.value else capped
  }

  /** How wrong the device's clock is does not matter, and the result lies within the count. */
  lemma SkewCancels(counted: int, sent: int, skew: int, key: Option<string>, startedAt: Option<int>, now: int)
    ensures ResolveCountedAt(Submission(key, Some(counted + skew), Some(sent + skew)), startedAt, now)
         == ResolveCountedAt(Submission(key, Some(counted), Some(sent)), startedAt, now)
    ensures startedAt.Some? && startedAt.value <= now ==>
              startedAt.value <= ResolveCountedAt(Submission(key, Some(counted), Some(sent)), startedAt, now) <= now
  {
  }

  /** For an entry counted during the count and sent before it arrived, the result is late by no more
      than the time the message took. */
  lemma LateByTransit(counted: int, sent: int, skew: int, key: Option<string>, startedAt: int, now: int)
    requires startedAt <= counted <= sent <= now
    ensures var t := ResolveCountedAt(Submission(key, Some(counted + skew), Some(sent + skew)), Some(startedAt), now);
            counted <= t <= counted + (now - sent)
  {
  }

  /** An entry with no stamp was counted as it arrived. One that does not say when it was sent is taken at
      its word, as far as the count had begun by then and the entry had not arrived yet. */
  lemma WithoutStamps(sub: Submission, startedAt: Option<int>, now: int)
    requires startedAt.Some? ==> startedAt.value <= now
    ensures sub.countedAt.None? ==> ResolveCountedAt(sub, startedAt, now) == now
    ensures sub.countedAt.Some? && sub.sentAt.None? ==>
              var counted, t := sub.countedAt.value, ResolveCountedAt(sub, startedAt, now);
              if counted > now then t == now
              else if startedAt.Some? && counted < startedAt.value then t == startedAt.value
              else t == counted
  {
  }

  // ---- Is the difference large enough to count again ----

  /** Percent in hundredths of a percent, value in cents, unit cost in hundredths of a cent. */
  datatype Thresholds = Thresholds(percent: nat, value: nat)

  function Abs(x: int): int { if x < 0 then -x else x }

  function VarianceValue(unitCost: int, variance: int): int { HalfUp(unitCost * variance, 100) }

  predicate ExceedsRecountThreshold(expected: int, variance: int, value: int, t: Thresholds) {
    variance != 0 && (Abs(value) > t.value || expected <= 0 || Abs(variance) * 10000 > t.percent * expected)
  }

  lemma HalfUpOdd(n: int, d: int)
    requires d > 0
    ensures HalfUp(-n, d) == -HalfUp(n, d)
  {
    assert 2 * (-(-n)) == 2 * n;
  }

  lemma ProductGrows(c: int, a: nat, b: nat)
    requires c >= 0 && a <= b
    ensures 0 <= c * a <= c * b
  {
    assert c * b - c * a == c * (b - a);
  }

  /** The value of a difference depends on its size alone, up to sign. */
  lemma ValueOfSize(unitCost: int, a: int)
    requires unitCost >= 0
    ensures VarianceValue(unitCost, -a) == -VarianceValue(unitCost, a)
    ensures Abs(VarianceValue(unitCost, a)) == VarianceValue(unitCost, Abs(a)) >= 0
  {
    assert unitCost * (-a) == -(unitCost * a);
    HalfUpOdd(unitCost * a, 100);
    ProductGrows(unitCost, 0, Abs(a));
    HalfUpSign(unitCost * Abs(a), 100);
  }

  lemma ValueGrows(unitCost: int, a: int, b: int)
    requires unitCost >= 0 && Abs(a) <= Abs(b)
    ensures Abs(VarianceValue(unitCost, a)) <= Abs(VarianceValue(unitCost, b))
    ensures VarianceValue(unitCost, -a) == -VarianceValue(unitCost, a)
  {
    ValueOfSize(unitCost, a);
    ValueOfSize(unitCost, b);
    ProductGrows(unitCost, Abs(a), Abs(b));
    HalfUpMonotone(unitCost * Abs(a), unitCost * Abs(b), 100);
  }

  /** What is counted again: nothing that agrees; of the rest whatever is worth more than the value threshold
      to the nearest cent, whatever the books said was not there, and whatever is more than the given
      percentage of what they said was. */
  lemma RecountExact(expected: int, variance: int, unitCost: int, t: Thresholds, value: int)
    requires IsNearest(unitCost * variance, 100, value)
    ensures var recount := ExceedsRecountThreshold(expected, variance, VarianceValue(unitCost, variance), t);
            var size := if variance < 0 then -variance else variance;
            && (variance == 0 ==> !recount)
            && (variance != 0 && (value > t.value || value < -(t.value as int)) ==> recount)
            && (variance != 0 && expected <= 0 ==> recount)
            && (variance != 0 && expected > 0 && -(t.value as int) <= value <= t.value ==>
                  (recount <==> (size * 10000) as real / expected as real > t.percent as real))
  {
    NearestUnique(unitCost * variance, 100, value);
    hide HalfUp, IsNearest;
    if expected > 0 { OverPercent((if variance < 0 then -variance else variance) * 10000, expected, t.percent); }
  }

  lemma OverPercent(a: int, b: int, percent: int)
    requires b > 0
    ensures a as real / b as real > percent as real <==> a > percent * b
  {
    var q := a as real / b as real;
    assert q * b as real == a as real;
    assert (percent * b) as real == percent as real * b as real;
    if q > percent as real {
      assert (q - percent as real) * b as real > 0.0;
    } else {
      assert (percent as real - q) * b as real >= 0.0;
    }
  }

  /** A surplus and a shortage of the same size are treated alike, and a larger difference never
      escapes a recount that a smaller one needs. */
  lemma RecountMonotone(expected: int, a: int, b: int, unitCost: int, t: Thresholds)
    requires unitCost >= 0 && Abs(a) <= Abs(b)
    ensures ExceedsRecountThreshold(expected, a, VarianceValue(unitCost, a), t) ==>
              ExceedsRecountThreshold(expected, b, VarianceValue(unitCost, b), t)
    ensures ExceedsRecountThreshold(expected, -a, VarianceValue(unitCost, -a), t)
       <==> ExceedsRecountThreshold(expected, a, VarianceValue(unitCost, a), t)
  {
    ValueGrows(unitCost, a, b);
  }

  // ---- What was on the lot when it was counted ----

  predicate PaidWithin(sale: Sale, after: int, until: int) {
    sale.paidAt.Some? && after < sale.paidAt.value <= until
  }

  function PaidFn(l: nat, after: int, until: int): Sale -> int {
    (sale: Sale) => if PaidWithin(sale, after, until) then SaleOn(sale, l) else 0
  }

  /** Units of the lot on sales paid after the shelf was counted, whatever became of those sales since. */
  function PaidSince(sales: seq<Sale>, l: nat, after: int, until: int): int { Sum(sales, PaidFn(l, after, until)) }

  /** The system's figure for the moment of counting: live quantity plus what was paid since. */
  function QuantityAtCount(s: State, l: nat, countedAt: int, now: int): int
    requires l < |s.shelf.lots|
  {
    s.shelf.lots[l].remaining + (if countedAt < now then PaidSince(s.sales, l, countedAt, now) else 0)
  }

  function ItemBackFn(l: nat): SaleItem -> int { (item: SaleItem) => Restored(item, l) }

  function BackFn(l: nat): Sale -> int { (sale: Sale) => Sum(sale.items, ItemBackFn(l)) }

  /** Units that refunds have put back on the lot. */
  function BackOn(sales: seq<Sale>, l: nat): int { Sum(sales, BackFn(l)) }

  /** Sales of `a` were paid by `t0`; whatever else is paid in `b` was paid after that, by `t1`. */
  predicate PaidApart(a: seq<Sale>, b: seq<Sale>, t0: int, t1: int) {
    && |a| <= |b|
    && (forall i :: 0 <= i < |a| && Took(a[i].status) ==> a[i].paidAt.Some? && a[i].paidAt.value <= t0)
    && (forall i :: 0 <= i < |b| && Took(b[i].status) && !(i < |a| && Took(a[i].status)) ==> PaidWithin(b[i], t0, t1))
  }

  lemma NetIsTakenLessBack(shelf: Shelf, sale: Sale, l: nat)
    requires SaleOk(shelf, sale)
    ensures NetTake(sale, l) == (if Took(sale.status) then SaleOn(sale, l) else 0) - BackFn(l)(sale)
  {
    if Took(sale.status) {
      SumAdd(sale.items, ItemNetFn(l), ItemBackFn(l), ItemOnFn(l));
    } else {
      forall i | 0 <= i < |sale.items| ensures ItemBackFn(l)(sale.items[i]) == 0 {}
      AllZero(sale.items, ItemBackFn(l));
    }
  }

  lemma SameAllocations(a: Sale, b: Sale, l: nat)
    requires Evolves(a, b)
    ensures SaleOn(b, l) == SaleOn(a, l)
  {
    forall i | 0 <= i < |a.items| ensures ItemOnFn(l)(b.items[i]) == ItemOnFn(l)(a.items[i]) {
      assert ItemEvolves(a.items[i], b.items[i]);
    }
    SumSame(b.items, ItemOnFn(l), a.items, ItemOnFn(l));
  }

  /** What a sale has taken grew by what was paid less what came back. */
  predicate Grew(before: Option<Sale>, b: Sale, l: nat, t0: int, t1: int) {
    NetTake(b, l) == (if before.Some? then NetTake(before.value, l) else 0) + PaidFn(l, t0, t1)(b)
                     - (BackFn(l)(b) - (if before.Some? then BackFn(l)(before.value) else 0))
  }

  function RowOf(a: seq<Sale>, k: nat): Option<Sale> { if k < |a| then Some(a[k]) else None }

  lemma RowBetween(sa: Shelf, a: Sale, sb: Shelf, b: Sale, l: nat, t0: int, t1: int)
    requires SaleOk(sa, a) && SaleOk(sb, b) && Evolves(a, b)
    requires Took(a.status) ==> a.paidAt.Some? && a.paidAt.value <= t0
    requires Took(b.status) && !Took(a.status) ==> PaidWithin(b, t0, t1)
    ensures Grew(Some(a), b, l, t0, t1)
  {
    NetIsTakenLessBack(sa, a, l);
    NetIsTakenLessBack(sb, b, l);
    SameAllocations(a, b, l);
  }

  lemma NewRow(sb: Shelf, b: Sale, l: nat, t0: int, t1: int)
    requires SaleOk(sb, b) && (Took(b.status) ==> PaidWithin(b, t0, t1))
    ensures Grew(None, b, l, t0, t1)
  {
    NetIsTakenLessBack(sb, b, l);
  }

  function Upto(n: nat, k: nat): nat { if n < k then n else k }

  lemma {:induction false} GrewInAll(a: seq<Sale>, b: seq<Sale>, l: nat, t0: int, t1: int, n: nat)
    requires |a| <= |b| && n <= |b| && forall k: nat :: k < |b| ==> Grew(RowOf(a, k), b[k], l, t0, t1)
    ensures Sum(b[..n], NetTakeFn(l))
         == Sum(a[..Upto(n, |a|)], NetTakeFn(l)) + Sum(b[..n], PaidFn(l, t0, t1))
            - (Sum(b[..n], BackFn(l)) - Sum(a[..Upto(n, |a|)], BackFn(l)))
  {
    if n > 0 {
      var k := n - 1;
      GrewInAll(a, b, l, t0, t1, k);
      assert Grew(RowOf(a, k), b[k], l, t0, t1);
      assert b[..n] == b[..k] + [b[k]];
      SumAppend(b[..k], b[k], NetTakeFn(l));
      SumAppend(b[..k], b[k], PaidFn(l, t0, t1));
      SumAppend(b[..k], b[k], BackFn(l));
      if k < |a| {
        assert a[..n] == a[..k] + [a[k]];
        SumAppend(a[..k], a[k], NetTakeFn(l));
        SumAppend(a[..k], a[k], BackFn(l));
      }
    }
  }

  /** Between two moments, what all sales have taken grew by what was paid less what came back. */
  lemma TakenBetween(sa: Shelf, a: seq<Sale>, sb: Shelf, b: seq<Sale>, l: nat, t0: int, t1: int)
    requires SalesOk(sa, a) && SalesOk(sb, b) && SalesEvolve(a, b) && PaidApart(a, b, t0, t1)
    ensures Sum(b, NetTakeFn(l))
         == Sum(a, NetTakeFn(l)) + PaidSince(b, l, t0, t1) - (BackOn(b, l) - BackOn(a, l))
  {
    forall k: nat | k < |b| ensures Grew(RowOf(a, k), b[k], l, t0, t1) {
      if k < |a| {
        assert SaleOk(sa, a[k]) && SaleOk(sb, b[k]) && Evolves(a[k], b[k]);
        RowBetween(sa, a[k], sb, b[k], l, t0, t1);
      } else {
        assert SaleOk(sb, b[k]);
        NewRow(sb, b[k], l, t0, t1);
      }
    }
    GrewInAll(a, b, l, t0, t1, |b|);
    assert b[..|b|] == b && a[..|a|] == a;
  }

  /** The live quantity plus the units paid since is the quantity at the moment of counting, corrected
      by exactly what refunds put back and what was adjusted by hand in between. */
  lemma Reconstruction(s: State, es: seq<Event>, l: nat, t0: int, t1: int)
    requires HoldsOk(s) && l < |s.shelf.lots| && t0 <= t1
    requires PaidApart(s.sales, Run(s, es).sales, t0, t1)
    ensures l < |Run(s, es).shelf.lots|
    ensures var t := Run(s, es);
            QuantityAtCount(t, l, t0, t1)
            == s.shelf.lots[l].remaining + (BackOn(t.sales, l) - BackOn(s.sales, l)) + Corrections(s, es, l)
  {
    var t := Run(s, es);
    RunHolds(s, es);
    RunEvolves(s, es);
    StockIsConserved(s, es, l);
    TakenBetween(s.shelf, s.sales, t.shelf, t.sales, l, t0, t1);
    NonePaid(t.sales, l, t0);
  }

  /** So an entry that arrives late is measured against the right figure exactly when refunds and hand
      corrections of that lot cancelled out in between; any amount of selling does not matter. */
  lemma RightFigure(s: State, es: seq<Event>, l: nat, t0: int, t1: int)
    requires HoldsOk(s) && l < |s.shelf.lots| && t0 <= t1
    requires PaidApart(s.sales, Run(s, es).sales, t0, t1)
    ensures l < |Run(s, es).shelf.lots|
    ensures QuantityAtCount(Run(s, es), l, t0, t1) == s.shelf.lots[l].remaining
       <==> BackOn(Run(s, es).sales, l) - BackOn(s.sales, l) == -Corrections(s, es, l)
  {
    Reconstruction(s, es, l, t0, t1);
  }

  // ---- Stamps along a run ----

  /** The payment stamp an event writes, if it writes one. */
  predicate StampedIn(e: Event, t0: int, t1: int) {
    && (e.EvSale? ==> t0 < e.now <= t1)
    && (e.EvPaid? ==> t0 < e.now <= t1)
  }

  predicate NewlyPaidWithin(a: seq<Sale>, b: seq<Sale>, t0: int, t1: int) {
    |a| <= |b|
    && forall i :: 0 <= i < |b| && Took(b[i].status) && !(i < |a| && Took(a[i].status)) ==> PaidWithin(b[i], t0, t1)
  }

  lemma FinalizeStamps(s: State, rid: nat, t0: int, t1: int)
    requires HoldsOk(s) && FinalizeRefund(s, rid).Ok?
    ensures NewlyPaidWithin(s.sales, FinalizeRefund(s, rid).value.sales, t0, t1)
  {
    if s.refunds[rid].status.RefundPending? { OpenSale(s, rid); }
  }

  lemma ReconcileStamps(s: State, id: nat, answer: StripeAnswer, t0: int, t1: int)
    requires HoldsOk(s) && ReconcileRefund(s, id, answer).Ok?
    ensures NewlyPaidWithin(s.sales, ReconcileRefund(s, id, answer).value.sales, t0, t1)
  {
    if id < |s.sales| && s.sales[id].status.Refunding? {
      assert RefundOpen(s.sales, s.refunds, id);
      var rid := s.sales[id].pendingRefund.value;
      if ReconcileRefund(s, id, answer) == FinalizeRefund(s, rid) { FinalizeStamps(s, rid, t0, t1); }
    }
  }

  lemma CreateStamps(s: State, e: Event, t0: int, t1: int)
    requires e.EvSale? && StampedIn(e, t0, t1)
    ensures NewlyPaidWithin(s.sales, Exec(s, e).sales, t0, t1)
  {
    hide PlanCart, TakeItems, ItemsOf;
  }

  lemma PayStamps(s: State, e: Event, t0: int, t1: int)
    requires (e.EvPaid? || e.EvUnpaid? || e.EvClaim? || e.EvAbortRefund?) && StampedIn(e, t0, t1)
    ensures NewlyPaidWithin(s.sales, Exec(s, e).sales, t0, t1)
  {
  }

  lemma StepStamps(s: State, e: Event, t0: int, t1: int)
    requires HoldsOk(s) && StampedIn(e, t0, t1)
    ensures NewlyPaidWithin(s.sales, Exec(s, e).sales, t0, t1)
  {
    if e.EvSale? {
      CreateStamps(s, e, t0, t1);
    } else if e.EvPaid? || e.EvUnpaid? || e.EvClaim? || e.EvAbortRefund? {
      PayStamps(s, e, t0, t1);
    } else if Step(s, e).Ok? {
      match e
      case EvFinalizeRefund(rid) => FinalizeStamps(s, rid, t0, t1);
      case EvReconcile(id, answer) => ReconcileStamps(s, id, answer, t0, t1);
      case _ => StockKeepsSales(s, e);
    }
  }

  lemma {:induction false} RunStamps(s: State, es: seq<Event>, t0: int, t1: int)
    requires HoldsOk(s)
    requires forall k :: 0 <= k < |es| ==> StampedIn(es[k], t0, t1)
    ensures NewlyPaidWithin(s.sales, Run(s, es).sales, t0, t1)
  {
    if es != [] {
      var init := es[..|es| - 1];
      RunHolds(s, init);
      RunStamps(s, init, t0, t1);
      RunEvolves(s, init);
      StepStamps(Run(s, init), es[|es| - 1], t0, t1);
      StepEvolves(Run(s, init), es[|es| - 1]);
      var a, b, c := s.sales, Run(s, init).sales, Run(s, es).sales;
      forall i | 0 <= i < |c| && Took(c[i].status) && !(i < |a| && Took(a[i].status)) ensures PaidWithin(c[i], t0, t1) {
        if i < |b| { assert Evolves(b[i], c[i]); }
      }
    }
  }

  // ---- Approval ----

  predicate DistinctVariances(lines: seq<Variance>) {
    forall i, j :: 0 <= i < j < |lines| ==> lines[i].lot != lines[j].lot
  }

  lemma {:induction false} OtherLotsStay(s: Shelf, lines: seq<Variance>, l: nat)
    requires Ledger.ApplyVariances(s, lines).Ok? && l < |s.lots|
    requires forall i :: 0 <= i < |lines| ==> lines[i].lot != l
    ensures var t := Ledger.ApplyVariances(s, lines).value;
            |t.lots| == |s.lots| && t.lots[l] == s.lots[l]
    decreases |lines|
  {
    if lines != [] {
      if lines[0].delta == 0 {
        OtherLotsStay(s, lines[1..], l);
      } else {
        var target := Max0(s.lots[lines[0].lot].remaining + lines[0].delta);
        SetLotKeeps(s, lines[0].lot, target);
        hide ShelfOk, SetLotRemaining, LotMoved, QuarantineKept;
        OtherLotsStay(SetLotRemaining(s, lines[0].lot, target).value, lines[1..], l);
      }
    }
  }

  /** A lot after its variance line: set to what it holds plus the difference, or nothing; a line
      without a difference leaves it alone. */
  function AfterLine(remaining: int, delta: int): int { if delta == 0 then remaining else Max0(remaining + delta) }

  /** Approval moves each lot of the count by its own variance, from where it stands by then. */
  lemma {:induction false} ApprovalMoves(s: Shelf, lines: seq<Variance>, k: nat)
    requires Ledger.ApplyVariances(s, lines).Ok? && DistinctVariances(lines)
    requires k < |lines| && lines[k].lot < |s.lots|
    ensures var t := Ledger.ApplyVariances(s, lines).value;
            |t.lots| == |s.lots|
              && t.lots[lines[k].lot].remaining == AfterLine(s.lots[lines[k].lot].remaining, lines[k].delta)
    decreases |lines|
  {
    var rest := lines[1..];
    assert forall i :: 0 <= i < |rest| ==> rest[i] == lines[i + 1];
    var next := s;
    if lines[0].delta != 0 {
      var target := Max0(s.lots[lines[0].lot].remaining + lines[0].delta);
      SetLotKeeps(s, lines[0].lot, target);
      next := SetLotRemaining(s, lines[0].lot, target).value;
    }
    hide ShelfOk, SetLotRemaining, LotMoved, QuarantineKept;
    if k == 0 { OtherLotsStay(next, rest, lines[0].lot); } else { ApprovalMoves(next, rest, k - 1); }
  }

  /** Nobody pays in no time. */
  lemma {:induction false} NonePaid(sales: seq<Sale>, l: nat, at: int)
    ensures PaidSince(sales, l, at, at) == 0
  {
    AllZero(sales, PaidFn(l, at, at));
  }

  /** An entry taken to be of a later moment misses the units paid in between. */
  lemma LateFigure(s: State, l: nat, t0: int, r: int, t1: int)
    requires l < |s.shelf.lots| && t0 <= r <= t1
    ensures QuantityAtCount(s, l, r, t1) == QuantityAtCount(s, l, t0, t1) - PaidSince(s.sales, l, t0, r)
  {
    SumAdd(s.sales, PaidFn(l, t0, r), PaidFn(l, r, t1), PaidFn(l, t0, t1));
    NonePaid(s.sales, l, t0);
    NonePaid(s.sales, l, t1);
  }

  /** Units sold and not brought back between two states. */
  function SoldBetween(a: seq<Sale>, b: seq<Sale>, l: nat): int { Sum(b, NetTakeFn(l)) - Sum(a, NetTakeFn(l)) }

  /** Units by which an approval leaves the lot above what is on the shelf: what was corrected by hand
      after the entry, plus what was paid between the count and the moment it was taken for, less what
      refunds restocked between the count and the entry. Corrections before the entry do not matter. */
  function CountError(s: State, gap: seq<Event>, later: seq<Event>, l: nat, t0: int, r: int): int {
    var mid := Run(s, gap);
    Corrections(mid, later, l) + PaidSince(mid.sales, l, t0, r) - (BackOn(mid.sales, l) - BackOn(s.sales, l))
  }

  /** Counting under trade. The shelf was counted in state `s` at `t0`; the entry reached the server at
      `t1`, after any run `gap`, and was taken to be of some moment `r` from then on; the count was
      approved after any further run. The shelf then holds the counted figure less what sold since the
      count, and the lot is left at that plus CountError, or at nothing if that is negative and the line
      moves the lot. So approval leaves the lot right exactly when CountError is nothing. */
  lemma CountIsRight(s: State, gap: seq<Event>, later: seq<Event>, l: nat, counted: nat, t0: int, r: int, t1: int,
                     lines: seq<Variance>, k: nat)
    requires HoldsOk(s) && l < |s.shelf.lots| && t0 <= r <= t1 && l < |Run(s, gap).shelf.lots|
    requires forall i :: 0 <= i < |s.sales| && Took(s.sales[i].status) ==>
             s.sales[i].paidAt.Some? && s.sales[i].paidAt.value <= t0
    requires forall i :: 0 <= i < |gap| ==> StampedIn(gap[i], t0, t1)
    requires k < |lines| && DistinctVariances(lines)
    requires lines[k] == Variance(l, counted - QuantityAtCount(Run(s, gap), l, r, t1))
    requires Ledger.ApplyVariances(Run(Run(s, gap), later).shelf, lines).Ok?
    ensures var before := Run(Run(s, gap), later);
            var after := Ledger.ApplyVariances(before.shelf, lines).value;
            var onShelf, off := counted - SoldBetween(s.sales, before.sales, l), CountError(s, gap, later, l, t0, r);
            && l < |before.shelf.lots| && l < |after.lots|
            && after.lots[l].remaining == (if lines[k].delta == 0 then onShelf + off else Max0(onShelf + off))
            && (onShelf + off >= 0 ==> (after.lots[l].remaining == onShelf <==> off == 0))
  {
    hide HoldsOk, Run, Corrections, Ledger.ApplyVariances, PaidSince, BackOn, StampedIn;
    var mid := Run(s, gap);
    var before := Run(mid, later);
    RunHolds(s, gap);
    RunHolds(mid, later);
    RunStamps(s, gap, t0, t1);
    Reconstruction(s, gap, l, t0, t1);
    LateFigure(mid, l, t0, r, t1);
    StockIsConserved(s, gap, l);
    StockIsConserved(mid, later, l);
    ApprovalMoves(before.shelf, lines, k);
  }
}
