/** First expired, first out: the order in which lots are offered, and the planner that spreads a
    requested quantity over them. */
module Fefo {
  import opened Outcome
  import opened Sums
  import opened Allocation
  import opened Lots

  // ---- The order of the lots ----

  /** expiry ascending with unknown expiry last, then date received, then id. */
  predicate Before(lots: seq<Lot>, i: nat, j: nat)
    requires i < |lots| && j < |lots|
  {
    var a, b := lots[i], lots[j];
    if a.expiry != b.expiry then
      a.expiry.Some? && (b.expiry.None? || a.expiry.value < b.expiry.value)
    else if a.receivedAt != b.receivedAt then a.receivedAt < b.receivedAt
    else i < j
  }

  lemma BeforeTotal(lots: seq<Lot>, i: nat, j: nat, k: nat)
    requires i < |lots| && j < |lots| && k < |lots|
    ensures i == j || Before(lots, i, j) || Before(lots, j, i)
    ensures !(Before(lots, i, j) && Before(lots, j, i))
    ensures Before(lots, i, j) && Before(lots, j, k) ==> Before(lots, i, k)
  {
  }

  predicate Ids(lots: seq<Lot>, order: seq<nat>) { forall i :: 0 <= i < |order| ==> order[i] < |lots| }

  predicate InOrder(lots: seq<Lot>, order: seq<nat>)
    requires Ids(lots, order)
  {
    forall i, j :: 0 <= i < j < |order| ==> Before(lots, order[i], order[j])
  }

  function Insert(lots: seq<Lot>, order: seq<nat>, l: nat): (r: seq<nat>)
    requires Ids(lots, order) && l < |lots|
    ensures Ids(lots, r)
  {
    if order == [] || Before(lots, l, order[0]) then [l] + order
    else [order[0]] + Insert(lots, order[1..], l)
  }

  lemma {:induction false} InsertKeeps(lots: seq<Lot>, order: seq<nat>, l: nat)
    requires Ids(lots, order) && l < |lots| && InOrder(lots, order) && l !in order
    ensures InOrder(lots, Insert(lots, order, l))
    ensures forall x :: x in Insert(lots, order, l) <==> x == l || x in order
  {
    if order == [] {
    } else if Before(lots, l, order[0]) {
      forall j | 0 <= j < |order| ensures Before(lots, l, order[j]) {
        BeforeTotal(lots, l, order[0], order[j]);
      }
    } else {
      var rest := order[1..];
      InsertKeeps(lots, rest, l);
      BeforeTotal(lots, l, order[0], l);
      var r := Insert(lots, rest, l);
      forall j | 0 <= j < |r| ensures Before(lots, order[0], r[j]) {
        assert r[j] in r;
        if r[j] != l {
          var i :| 0 <= i < |rest| && rest[i] == r[j];
          assert Before(lots, order[0], order[i + 1]);
        }
      }
    }
  }

  /** The ACTIVE lots of product `p` among the first `n` rows, in FEFO order. */
  function ActiveUpTo(lots: seq<Lot>, p: nat, n: nat): (r: seq<nat>)
    requires n <= |lots|
    ensures Ids(lots, r)
  {
    if n == 0 then []
    else if lots[n - 1].status.Active? && lots[n - 1].product == p
    then Insert(lots, ActiveUpTo(lots, p, n - 1), n - 1)
    else ActiveUpTo(lots, p, n - 1)
  }

  /** The query of lockActiveLotsForProducts, for one product. */
  function ActiveFefo(lots: seq<Lot>, p: nat): (r: seq<nat>)
    ensures Ids(lots, r)
  {
    ActiveUpTo(lots, p, |lots|)
  }

  lemma {:induction false} ActiveUpToSpec(lots: seq<Lot>, p: nat, n: nat)
    requires n <= |lots|
    ensures InOrder(lots, ActiveUpTo(lots, p, n))
    ensures forall l: nat :: l in ActiveUpTo(lots, p, n) <==> l < n && lots[l].status.Active? && lots[l].product == p
  {
    if n > 0 {
      ActiveUpToSpec(lots, p, n - 1);
      NextActive(lots, p, n);
      hide ActiveUpTo, Insert, Before, InOrder;
      if lots[n - 1].status.Active? && lots[n - 1].product == p {
        InsertKeeps(lots, ActiveUpTo(lots, p, n - 1), n - 1);
      }
    } else {
      NoneActive(lots, p);
    }
  }

  lemma NextActive(lots: seq<Lot>, p: nat, n: nat)
    requires 0 < n <= |lots|
    ensures var order := ActiveUpTo(lots, p, n - 1);
            ActiveUpTo(lots, p, n)
            == if lots[n - 1].status.Active? && lots[n - 1].product == p then Insert(lots, order, n - 1) else order
  {
  }

  lemma NoneActive(lots: seq<Lot>, p: nat)
    ensures ActiveUpTo(lots, p, 0) == [] && InOrder(lots, [])
  {
  }

  /** The query returns each ACTIVE lot of the product once, in an order that is total. */
  lemma ActiveFefoSpec(lots: seq<Lot>, p: nat)
    ensures InOrder(lots, ActiveFefo(lots, p)) && Distinct(ActiveFefo(lots, p))
    ensures forall l: nat :: l in ActiveFefo(lots, p) <==> l < |lots| && lots[l].status.Active? && lots[l].product == p
  {
    ActiveUpToSpec(lots, p, |lots|);
    var r := ActiveFefo(lots, p);
    forall i, j | 0 <= i < j < |r| ensures r[i] != r[j] {
      assert Before(lots, r[i], r[j]);
    }
  }

  /** The same on the dates of the lots: each ACTIVE lot of the product once, known expiry before unknown,
      earlier expiry before later, on a tie the lot received first, and then the lower id. */
  lemma ActiveFefoOrder(lots: seq<Lot>, p: nat)
    ensures forall l: nat :: l in ActiveFefo(lots, p) <==> l < |lots| && lots[l].status.Active? && lots[l].product == p
    ensures var r := ActiveFefo(lots, p);
            forall i, j :: 0 <= i < j < |r| ==>
              var a, b := lots[r[i]], lots[r[j]];
              && (b.expiry.Some? ==> a.expiry.Some? && a.expiry.value <= b.expiry.value)
              && (a.expiry == b.expiry ==> a.receivedAt < b.receivedAt || (a.receivedAt == b.receivedAt && r[i] < r[j]))
  {
    ActiveFefoSpec(lots, p);
    var r := ActiveFefo(lots, p);
    forall i, j | 0 <= i < j < |r| ensures Before(lots, r[i], r[j]) {}
  }

  predicate Distinct(order: seq<nat>) { forall i, j :: 0 <= i < j < |order| ==> order[i] != order[j] }

  // ---- How much each lot gives ----

  predicate NonNeg(xs: seq<int>) { forall i :: 0 <= i < |xs| ==> xs[i] >= 0 }

  /** Units available in the first `k` lots. */
  function UpTo(avail: seq<int>, k: nat): int
    requires k <= |avail|
  {
    if k == 0 then 0 else UpTo(avail, k - 1) + avail[k - 1]
  }

  /** What lot number `i` gives: the first k lots together give min(q, what they hold). */
  function Given(avail: seq<int>, q: int, i: nat): int
    requires i < |avail|
  {
    Min(q, UpTo(avail, i + 1)) - Min(q, UpTo(avail, i))
  }

  function TakesTo(avail: seq<int>, q: int, n: nat): (r: seq<int>)
    requires n <= |avail|
    ensures |r| == n
  {
    if n == 0 then [] else TakesTo(avail, q, n - 1) + [Given(avail, q, n - 1)]
  }

  /** FEFO in closed form. */
  function Takes(avail: seq<int>, q: int): (r: seq<int>)
    ensures |r| == |avail|
  {
    TakesTo(avail, q, |avail|)
  }

  lemma {:induction false} TakesToAt(avail: seq<int>, q: int, n: nat, i: nat)
    requires i < n <= |avail|
    ensures TakesTo(avail, q, n)[i] == Given(avail, q, i)
  {
    if i < n - 1 { TakesToAt(avail, q, n - 1, i); }
  }

  lemma TakesAt(avail: seq<int>, q: int, i: nat)
    requires i < |avail|
    ensures Takes(avail, q)[i] == Given(avail, q, i)
  {
    TakesToAt(avail, q, |avail|, i);
  }

  /** An offline cash sale puts what no lot can cover on the last lot. */
  function TakesOverdrawn(avail: seq<int>, q: int): (r: seq<int>)
    requires |avail| > 0
    ensures |r| == |avail|
  {
    var t, n := Takes(avail, q), |avail|;
    t[n - 1 := t[n - 1] + (q - Min(q, UpTo(avail, n)))]
  }

  lemma {:induction false} UpToMono(avail: seq<int>, j: nat, k: nat)
    requires j <= k <= |avail| && NonNeg(avail)
    ensures 0 <= UpTo(avail, j) <= UpTo(avail, k)
    decreases k
  {
    if k > 0 {
      if j < k { UpToMono(avail, j, k - 1); } else { UpToMono(avail, k - 1, k - 1); }
    }
  }

  /** A lot gives between nothing and all it has. */
  lemma TakesBounds(avail: seq<int>, q: int, i: nat)
    requires i < |avail| && NonNeg(avail) && q >= 0
    ensures 0 <= Takes(avail, q)[i] <= avail[i]
  {
    TakesAt(avail, q, i);
    UpToMono(avail, i, i + 1);
  }

  /** The first k lots give min(q, what they hold). */
  lemma {:induction false} TakesPrefix(avail: seq<int>, q: int, k: nat)
    requires k <= |avail| && NonNeg(avail) && q >= 0
    ensures UpTo(Takes(avail, q), k) == Min(q, UpTo(avail, k))
  {
    if k > 0 {
      TakesPrefix(avail, q, k - 1);
      TakesAt(avail, q, k - 1);
    }
  }

  /** Any way of serving `q` units within availability. */
  predicate Feasible(avail: seq<int>, q: int, give: seq<int>) {
    && |give| == |avail|
    && (forall i :: 0 <= i < |give| ==> 0 <= give[i] <= avail[i])
    && UpTo(give, |give|) == q
  }

  lemma {:induction false} PrefixLess(give: seq<int>, avail: seq<int>, k: nat)
    requires k <= |give| == |avail| && forall i :: 0 <= i < |give| ==> give[i] <= avail[i]
    ensures UpTo(give, k) <= UpTo(avail, k)
  {
    if k > 0 {
      PrefixLess(give, avail, k - 1);
    }
  }

  /** FEFO takes at least as much from every prefix of the order as any other feasible allocation,
      and is the only allocation that does. */
  lemma FefoDominates(avail: seq<int>, q: int, give: seq<int>, k: nat)
    requires NonNeg(avail) && q >= 0 && Feasible(avail, q, give) && k <= |avail|
    ensures Feasible(avail, q, Takes(avail, q))
    ensures UpTo(give, k) <= UpTo(Takes(avail, q), k)
  {
    PrefixLess(give, avail, |give|);
    PrefixLess(give, avail, k);
    UpToMono(give, k, |give|);
    TakesPrefix(avail, q, k);
    TakesPrefix(avail, q, |avail|);
    forall i | 0 <= i < |avail| ensures 0 <= Takes(avail, q)[i] <= avail[i] { TakesBounds(avail, q, i); }
  }

  lemma {:induction false} FefoUnique(avail: seq<int>, q: int, give: seq<int>)
    requires NonNeg(avail) && q >= 0 && Feasible(avail, q, give)
    requires forall k: nat :: k <= |avail| ==> UpTo(Takes(avail, q), k) <= UpTo(give, k)
    ensures give == Takes(avail, q)
  {
    forall i | 0 <= i < |avail| ensures give[i] == Takes(avail, q)[i] {
      FefoDominates(avail, q, give, i);
      FefoDominates(avail, q, give, i + 1);
      TakesPrefix(avail, q, i);
      TakesPrefix(avail, q, i + 1);
    }
  }

  function MinusTo(avail: seq<int>, takes: seq<int>, n: nat): (r: seq<int>)
    requires n <= |avail| == |takes|
    ensures |r| == n
  {
    if n == 0 then [] else MinusTo(avail, takes, n - 1) + [Max0(avail[n - 1] - takes[n - 1])]
  }

  /** What each lot has left after giving. */
  function Minus(avail: seq<int>, takes: seq<int>): (r: seq<int>)
    requires |avail| == |takes|
    ensures |r| == |avail|
  {
    MinusTo(avail, takes, |avail|)
  }

  lemma {:induction false} MinusToAt(avail: seq<int>, takes: seq<int>, n: nat, i: nat)
    requires i < n <= |avail| == |takes|
    ensures MinusTo(avail, takes, n)[i] == Max0(avail[i] - takes[i])
  {
    if i < n - 1 { MinusToAt(avail, takes, n - 1, i); }
  }

  lemma MinusAt(avail: seq<int>, takes: seq<int>, i: nat)
    requires i < |avail| == |takes|
    ensures Minus(avail, takes)[i] == Max0(avail[i] - takes[i])
  {
    MinusToAt(avail, takes, |avail|, i);
  }

  function Max0(x: int): int { if x < 0 then 0 else x }

  lemma LeftAfter(u: int, x: int, q: int)
    requires u >= 0 && x >= 0 && q >= 0
    ensures u - Min(q, u) + Max0(x - (Min(q, u + x) - Min(q, u))) == u + x - Min(q, u + x)
  {
  }

  /** What is left in the first k lots. */
  lemma {:induction false} MinusPrefix(avail: seq<int>, q: int, k: nat)
    requires k <= |avail| && NonNeg(avail) && q >= 0
    ensures UpTo(Minus(avail, Takes(avail, q)), k) == UpTo(avail, k) - Min(q, UpTo(avail, k))
  {
    if k > 0 {
      MinusPrefix(avail, q, k - 1);
      MinusAt(avail, Takes(avail, q), k - 1);
      TakesAt(avail, q, k - 1);
      UpToMono(avail, k - 1, k - 1);
      LeftAfter(UpTo(avail, k - 1), avail[k - 1], q);
    }
  }

  lemma SecondHelping(u: int, a: int, b: int)
    requires u >= 0 && a >= 0 && b >= 0
    ensures Min(a, u) + Min(b, u - Min(a, u)) == Min(a + b, u)
  {
  }

  /** Two cart lines of the same product take, lot by lot, what one combined line would take. */
  lemma TwoLinesAreOne(avail: seq<int>, a: int, b: int, i: nat)
    requires NonNeg(avail) && a >= 0 && b >= 0 && i < |avail|
    ensures Takes(avail, a)[i] + Takes(Minus(avail, Takes(avail, a)), b)[i] == Takes(avail, a + b)[i]
  {
    var rest := Minus(avail, Takes(avail, a));
    MinusPrefix(avail, a, i);
    MinusPrefix(avail, a, i + 1);
    UpToMono(avail, i, i + 1);
    SecondHelping(UpTo(avail, i), a, b);
    SecondHelping(UpTo(avail, i + 1), a, b);
    TakesAt(avail, a, i);
    TakesAt(rest, b, i);
    TakesAt(avail, a + b, i);
  }

  /** An overdrawn lot is as empty as a drained one. */
  lemma OverdrawnLeaves(avail: seq<int>, a: int)
    requires |avail| > 0 && NonNeg(avail) && a >= 0
    ensures Minus(avail, TakesOverdrawn(avail, a)) == Minus(avail, Takes(avail, a))
  {
    var n := |avail| - 1;
    var t, o := Takes(avail, a), TakesOverdrawn(avail, a);
    UpToMono(avail, n, n + 1);
    forall i | 0 <= i <= n ensures Minus(avail, o)[i] == Minus(avail, t)[i] {
      MinusAt(avail, t, i);
      MinusAt(avail, o, i);
      if i == n && a > UpTo(avail, n + 1) {
        TakesAt(avail, a, n);
      }
    }
  }

  /** ... and so do two offline lines, overdraft included. */
  lemma TwoOverdrawnLinesAreOne(avail: seq<int>, a: int, b: int, i: nat)
    requires NonNeg(avail) && a >= 0 && b >= 0 && i < |avail|
    ensures TakesOverdrawn(avail, a)[i] + TakesOverdrawn(Minus(avail, TakesOverdrawn(avail, a)), b)[i]
         == TakesOverdrawn(avail, a + b)[i]
  {
    OverdrawnLeaves(avail, a);
    TwoLinesAreOne(avail, a, b, i);
    MinusPrefix(avail, a, |avail|);
    UpToMono(avail, 0, |avail|);
    SecondHelping(UpTo(avail, |avail|), a, b);
  }

  // ---- Planning one cart line ----

  /** Free units of lot `l` once the units planned for earlier lines are set aside. */
  function Free(lots: seq<Lot>, taken: seq<int>, l: nat): int
    requires l < |lots| == |taken|
  {
    Max0(lots[l].remaining - lots[l].reserved - taken[l])
  }

  function Avails(lots: seq<Lot>, order: seq<nat>, taken: seq<int>): (r: seq<int>)
    requires Ids(lots, order) && |taken| == |lots|
    ensures |r| == |order| && NonNeg(r)
  {
    if order == [] then []
    else Avails(lots, order[..|order| - 1], taken) + [Free(lots, taken, order[|order| - 1])]
  }

  lemma {:induction false} AvailsAt(lots: seq<Lot>, order: seq<nat>, taken: seq<int>, i: nat)
    requires Ids(lots, order) && |taken| == |lots| && i < |order|
    ensures Avails(lots, order, taken)[i] == Free(lots, taken, order[i])
  {
    if i < |order| - 1 { AvailsAt(lots, order[..|order| - 1], taken, i); }
  }

  /** One allocation row per lot that gives something. */
  function RowsTo(order: seq<nat>, takes: seq<int>, k: nat): seq<Alloc>
    requires k <= |order| == |takes|
  {
    if k == 0 then []
    else RowsTo(order, takes, k - 1) + (if takes[k - 1] > 0 then [Alloc(order[k - 1], takes[k - 1])] else [])
  }

  function TakenAfter(taken: seq<int>, rows: seq<Alloc>): (r: seq<int>)
    requires forall i :: 0 <= i < |rows| ==> rows[i].lot < |taken|
    ensures |r| == |taken|
  {
    if rows == [] then taken
    else
      var t, a := TakenAfter(taken, rows[..|rows| - 1]), rows[|rows| - 1];
      t[a.lot := t[a.lot] + a.qty]
  }

  lemma {:induction false} TakenAfterAt(taken: seq<int>, rows: seq<Alloc>, l: nat)
    requires forall i :: 0 <= i < |rows| ==> rows[i].lot < |taken|
    requires l < |taken|
    ensures TakenAfter(taken, rows)[l] == taken[l] + On(rows, l)
  {
    if rows != [] { TakenAfterAt(taken, rows[..|rows| - 1], l); }
  }

  lemma {:induction false} RowsFrom(order: seq<nat>, takes: seq<int>, k: nat)
    requires k <= |order| == |takes|
    ensures Positive(RowsTo(order, takes, k))
    ensures forall a :: a in RowsTo(order, takes, k) ==> a.lot in order
  {
    if k > 0 { RowsFrom(order, takes, k - 1); }
  }

  /** The rows add up to the takes ... */
  lemma {:induction false} RowsTotal(order: seq<nat>, takes: seq<int>, k: nat)
    requires k <= |order| == |takes| && NonNeg(takes)
    ensures Total(RowsTo(order, takes, k)) == UpTo(takes, k)
  {
    if k > 0 {
      RowsTotal(order, takes, k - 1);
      assert RowsTo(order, takes, k - 1) + [] == RowsTo(order, takes, k - 1);
      hide Total;
      OnAppend(RowsTo(order, takes, k - 1), Alloc(order[k - 1], takes[k - 1]), 0);
    }
  }

  /** ... and each lot's row is its take. */
  lemma {:induction false} RowsOn(order: seq<nat>, takes: seq<int>, k: nat, l: nat)
    requires k <= |order| == |takes| && NonNeg(takes) && Distinct(order)
    ensures l !in order[..k] ==> On(RowsTo(order, takes, k), l) == 0
    ensures forall i :: 0 <= i < k && order[i] == l ==> On(RowsTo(order, takes, k), l) == takes[i]
  {
    if k > 0 {
      RowsOn(order, takes, k - 1, l);
      assert RowsTo(order, takes, k - 1) + [] == RowsTo(order, takes, k - 1);
      OnAppend(RowsTo(order, takes, k - 1), Alloc(order[k - 1], takes[k - 1]), l);
      assert order[..k] == order[..k - 1] + [order[k - 1]];
      assert order[k - 1] !in order[..k - 1];
    }
  }

  datatype LinePlan = LinePlan(rows: seq<Alloc>, taken: seq<int>)

  function PlanLine(lots: seq<Lot>, order: seq<nat>, taken: seq<int>, q: int, offline: bool): Result<LinePlan>
    requires Ids(lots, order) && |taken| == |lots|
  {
    var avail := Avails(lots, order, taken);
    if (UpTo(avail, |avail|) < q && !offline) || |order| == 0 then Err(409)
    else
      var rows := RowsTo(order, TakesOverdrawn(avail, q), |order|);
      RowsFrom(order, TakesOverdrawn(avail, q), |order|);
      assert forall i :: 0 <= i < |rows| ==> rows[i] in rows;
      Ok(LinePlan(rows, TakenAfter(taken, rows)))
  }

  lemma OverdrawnNonNeg(avail: seq<int>, q: int)
    requires |avail| > 0 && NonNeg(avail) && q >= 0
    ensures NonNeg(TakesOverdrawn(avail, q))
    ensures UpTo(TakesOverdrawn(avail, q), |avail|) == q
  {
    var n := |avail|;
    var t, o := Takes(avail, q), TakesOverdrawn(avail, q);
    forall i | 0 <= i < n ensures 0 <= o[i] { TakesBounds(avail, q, i); }
    TakesPrefix(avail, q, n);
    SamePrefix(t, o, n - 1);
    assert UpTo(t, n) == UpTo(t, n - 1) + t[n - 1];
    assert UpTo(o, n) == UpTo(o, n - 1) + o[n - 1];
  }

  lemma {:induction false} SamePrefix(xs: seq<int>, ys: seq<int>, k: nat)
    requires k <= |xs| && k <= |ys| && forall i :: 0 <= i < k ==> xs[i] == ys[i]
    ensures UpTo(xs, k) == UpTo(ys, k)
  {
    if k > 0 { SamePrefix(xs, ys, k - 1); }
  }

  /** The plan of a line: exactly the quantity asked for, from distinct ACTIVE lots of the order.
      When enough is free, nothing beyond what is free; an offline shortfall falls on the last lot only. */
  lemma PlanLineExact(lots: seq<Lot>, order: seq<nat>, taken: seq<int>, q: int, offline: bool)
    requires Ids(lots, order) && Distinct(order) && |taken| == |lots| && q > 0
    ensures var avail := Avails(lots, order, taken);
            PlanLine(lots, order, taken, q, offline).Ok? <==>
              |order| > 0 && (offline || UpTo(avail, |avail|) >= q)
    ensures var plan := PlanLine(lots, order, taken, q, offline);
            plan.Ok? ==>
              && Total(plan.value.rows) == q && Positive(plan.value.rows) && plan.value.rows != []
              && (forall a :: a in plan.value.rows ==> a.lot in order)
              && (forall l: nat :: l < |lots| ==> plan.value.taken[l] == taken[l] + On(plan.value.rows, l))
    ensures var avail := Avails(lots, order, taken);
            var plan := PlanLine(lots, order, taken, q, offline);
            plan.Ok? ==>
              forall i :: 0 <= i < |order| ==>
                0 <= On(plan.value.rows, order[i])
                  <= Free(lots, taken, order[i]) + (if i == |order| - 1 then Max0(q - UpTo(avail, |avail|)) else 0)
  {
    var avail := Avails(lots, order, taken);
    var plan := PlanLine(lots, order, taken, q, offline);
    if plan.Ok? {
      var takes := TakesOverdrawn(avail, q);
      OverdrawnNonNeg(avail, q);
      RowsFrom(order, takes, |order|);
      RowsTotal(order, takes, |order|);
      assert forall i :: 0 <= i < |plan.value.rows| ==> plan.value.rows[i] in plan.value.rows;
      forall l: nat | l < |lots| ensures plan.value.taken[l] == taken[l] + On(plan.value.rows, l) {
        TakenAfterAt(taken, plan.value.rows, l);
      }
      forall i | 0 <= i < |order|
        ensures 0 <= On(plan.value.rows, order[i])
                  <= Free(lots, taken, order[i]) + (if i == |order| - 1 then Max0(q - UpTo(avail, |avail|)) else 0)
      {
        RowsOn(order, takes, |order|, order[i]);
        TakesBounds(avail, q, i);
        AvailsAt(lots, order, taken, i);
      }
    }
  }

  lemma PlanTakes(lots: seq<Lot>, order: seq<nat>, taken: seq<int>, q: int, offline: bool, l: nat)
    requires Ids(lots, order) && Distinct(order) && |taken| == |lots| && q > 0 && l < |lots|
    requires PlanLine(lots, order, taken, q, offline).Ok?
    ensures var avail := Avails(lots, order, taken);
            var plan := PlanLine(lots, order, taken, q, offline).value;
            && (l !in order ==> plan.taken[l] == taken[l])
            && (forall i :: 0 <= i < |order| && order[i] == l ==>
               plan.taken[l] == taken[l] + TakesOverdrawn(avail, q)[i])
  {
    var avail := Avails(lots, order, taken);
    var takes, n := TakesOverdrawn(avail, q), |order|;
    OverdrawnNonNeg(avail, q);
    RowsFrom(order, takes, n);
    var rows := RowsTo(order, takes, n);
    assert forall i :: 0 <= i < |rows| ==> rows[i] in rows;
    RowsOn(order, takes, n, l);
    assert order[..n] == order;
    TakenAfterAt(taken, rows, l);
  }

  /** After a line, what is free is what was free less what the line took. */
  lemma AvailsAfter(lots: seq<Lot>, order: seq<nat>, taken: seq<int>, q: int, offline: bool)
    requires Ids(lots, order) && Distinct(order) && |taken| == |lots| && q > 0
    requires PlanLine(lots, order, taken, q, offline).Ok?
    ensures var avail := Avails(lots, order, taken);
            Avails(lots, order, PlanLine(lots, order, taken, q, offline).value.taken)
              == Minus(avail, TakesOverdrawn(avail, q))
  {
    var avail := Avails(lots, order, taken);
    var plan := PlanLine(lots, order, taken, q, offline).value;
    OverdrawnNonNeg(avail, q);
    forall i | 0 <= i < |order|
      ensures Avails(lots, order, plan.taken)[i] == Minus(avail, TakesOverdrawn(avail, q))[i]
    {
      PlanTakes(lots, order, taken, q, offline, order[i]);
      AvailsAt(lots, order, taken, i);
      AvailsAt(lots, order, plan.taken, i);
      MinusAt(avail, TakesOverdrawn(avail, q), i);
    }
  }

  /** Two lines of one product in a cart succeed together exactly when one line for both would, and
      then take the same number of units from every lot. */
  lemma TwoLinesPlanAsOne(lots: seq<Lot>, order: seq<nat>, taken: seq<int>, a: int, b: int, offline: bool)
    requires Ids(lots, order) && Distinct(order) && |taken| == |lots| && a > 0 && b > 0
    ensures var both := PlanLine(lots, order, taken, a + b, offline);
            var first := PlanLine(lots, order, taken, a, offline);
            both.Ok? <==> first.Ok? && PlanLine(lots, order, first.value.taken, b, offline).Ok?
    ensures var both := PlanLine(lots, order, taken, a + b, offline);
            both.Ok? ==>
              var first := PlanLine(lots, order, taken, a, offline);
              both.value.taken == PlanLine(lots, order, first.value.taken, b, offline).value.taken
  {
    var avail, n := Avails(lots, order, taken), |order|;
    var both := PlanLine(lots, order, taken, a + b, offline);
    var first := PlanLine(lots, order, taken, a, offline);
    if n > 0 && first.Ok? {
      AvailsAfter(lots, order, taken, a, offline);
      OverdrawnLeaves(avail, a);
      MinusPrefix(avail, a, n);
      UpToMono(avail, 0, n);
      var second := PlanLine(lots, order, first.value.taken, b, offline);
      if both.Ok? {
        forall l: nat | l < |lots| ensures both.value.taken[l] == second.value.taken[l] {
          PlanTakes(lots, order, taken, a, offline, l);
          PlanTakes(lots, order, first.value.taken, b, offline, l);
          PlanTakes(lots, order, taken, a + b, offline, l);
          if i :| 0 <= i < n && order[i] == l {
            TwoOverdrawnLinesAreOne(avail, a, b, i);
          }
        }
      }
    }
  }

  /** Lots past the point where the request is met give nothing. */
  lemma {:induction false} NoRowsAfter(order: seq<nat>, avail: seq<int>, q: int, i: nat, k: nat)
    requires i <= k <= |order| == |avail| && NonNeg(avail) && 0 <= q <= UpTo(avail, i)
    ensures RowsTo(order, Takes(avail, q), k) == RowsTo(order, Takes(avail, q), i)
    decreases k
  {
    if i < k {
      NoRowsAfter(order, avail, q, i, k - 1);
      TakesAt(avail, q, k - 1);
      UpToMono(avail, i, k - 1);
      UpToMono(avail, k - 1, k);
    }
  }

  /** One round of the loop. */
  lemma NextRow(order: seq<nat>, avail: seq<int>, q: int, i: nat)
    requires i < |order| == |avail| && NonNeg(avail) && q > UpTo(avail, i)
    ensures Given(avail, q, i) == Min(q - UpTo(avail, i), avail[i])
    ensures RowsTo(order, Takes(avail, q), i + 1)
         == RowsTo(order, Takes(avail, q), i)
            + (if avail[i] > 0 then [Alloc(order[i], Min(q - UpTo(avail, i), avail[i]))] else [])
  {
    TakesAt(avail, q, i);
  }

  lemma {:induction false} RowsSame(order: seq<nat>, xs: seq<int>, ys: seq<int>, k: nat)
    requires k <= |order| == |xs| == |ys| && forall i :: 0 <= i < k ==> xs[i] == ys[i]
    ensures RowsTo(order, xs, k) == RowsTo(order, ys, k)
  {
    if k > 0 { RowsSame(order, xs, ys, k - 1); }
  }

  /** A shortfall: every lot gives all it has ... */
  lemma DrainedLast(order: seq<nat>, avail: seq<int>, q: int)
    requires |order| == |avail| > 0 && NonNeg(avail) && q > UpTo(avail, |avail|)
    ensures var n := |order|;
            RowsTo(order, Takes(avail, q), n)
            == RowsTo(order, Takes(avail, q), n - 1)
               + (if avail[n - 1] > 0 then [Alloc(order[n - 1], avail[n - 1])] else [])
  {
    var n := |order|;
    UpToMono(avail, n - 1, n);
    TakesAt(avail, q, n - 1);
  }

  /** ... and the last one carries the rest too. */
  lemma OverdrawnLast(order: seq<nat>, avail: seq<int>, q: int)
    requires |order| == |avail| > 0 && NonNeg(avail) && q > UpTo(avail, |avail|)
    ensures var n := |order|;
            RowsTo(order, TakesOverdrawn(avail, q), n)
            == RowsTo(order, Takes(avail, q), n - 1)
               + [Alloc(order[n - 1], avail[n - 1] + (q - UpTo(avail, n)))]
  {
    var n := |order|;
    var t, o := Takes(avail, q), TakesOverdrawn(avail, q);
    UpToMono(avail, 0, n - 1);
    assert o[n - 1] == avail[n - 1] + (q - UpTo(avail, n)) by {
      UpToMono(avail, n - 1, n);
      TakesAt(avail, q, n - 1);
    }
    assert o[n - 1] > 0;
    RowsSame(order, o, t, n - 1);
    assert RowsTo(order, o, n) == RowsTo(order, o, n - 1) + [Alloc(order[n - 1], o[n - 1])];
  }

  predicate RowIds(taken: seq<int>, rows: seq<Alloc>) {
    forall i :: 0 <= i < |rows| ==> rows[i].lot < |taken|
  }

  /** The lots from number `i` on are as they were. */
  predicate Untaken(order: seq<nat>, before: seq<int>, t: seq<int>, i: nat) {
    && |t| == |before| && (forall j :: 0 <= j < |order| ==> order[j] < |t|)
    && forall j :: i <= j < |order| ==> t[order[j]] == before[order[j]]
  }

  /** After `i` lots: the rows so far, what they took, and what is still wanted. */
  predicate Round(order: seq<nat>, avail: seq<int>, q: int, i: nat, before: seq<int>, rows: seq<Alloc>, remaining: int,
                  t: seq<int>)
    requires i <= |order| == |avail|
  {
    && remaining == q - Min(q, UpTo(avail, i)) >= 0 && rows == RowsTo(order, Takes(avail, q), i)
    && RowIds(before, rows) && t == TakenAfter(before, rows) && Untaken(order, before, t, i)
  }

  lemma FirstRound(lots: seq<Lot>, order: seq<nat>, before: seq<int>, q: int)
    requires Ids(lots, order) && |before| == |lots| && q > 0
    ensures Round(order, Avails(lots, order, before), q, 0, before, [], q, before)
  {
  }

  /** Taking from one lot leaves those later in the order. */
  lemma OthersUntaken(order: seq<nat>, before: seq<int>, t: seq<int>, i: nat, x: int)
    requires Distinct(order) && i < |order| && Untaken(order, before, t, i)
    ensures order[i] < |t| && Untaken(order, before, t[order[i] := x], i + 1) && Untaken(order, before, t, i + 1)
  {
  }

  lemma RoundTakes(order: seq<nat>, avail: seq<int>, q: int, i: nat, before: seq<int>, rows: seq<Alloc>, remaining: int,
                   t: seq<int>, take: int)
    requires i < |order| == |avail| && NonNeg(avail) && Distinct(order) && order[i] < |before| == |t|
    requires Round(order, avail, q, i, before, rows, remaining, t) && remaining > 0
    requires take == Min(remaining, avail[i]) > 0
    ensures Round(order, avail, q, i + 1, before, rows + [Alloc(order[i], take)], remaining - take,
                  t[order[i] := t[order[i]] + take])
  {
    UpToNext(avail, i);
    StillWanted(UpTo(avail, i), avail[i], q, remaining, take);
    hide RowsTo, Takes, TakenAfter, UpTo, Distinct, Untaken, Given, Min, Max0;
    NextRow(order, avail, q, i);
    PushRow(before, rows, Alloc(order[i], take));
    OthersUntaken(order, before, t, i, t[order[i]] + take);
    PushedIds(before, rows, Alloc(order[i], take));
  }

  lemma UpToNext(avail: seq<int>, i: nat)
    requires i < |avail|
    ensures UpTo(avail, i + 1) == UpTo(avail, i) + avail[i]
  {
  }

  lemma PushedIds(before: seq<int>, rows: seq<Alloc>, a: Alloc)
    requires RowIds(before, rows) && a.lot < |before|
    ensures RowIds(before, rows + [a])
  {
  }

  lemma StillWanted(u: int, a: int, q: int, remaining: int, take: int)
    requires remaining == q - Min(q, u) > 0 && take == Min(remaining, a) > 0
    ensures q > u && take == Min(q - u, a) && remaining - take == q - Min(q, u + a) >= 0 && a > 0
  {
  }

  lemma RoundPasses(order: seq<nat>, avail: seq<int>, q: int, i: nat, before: seq<int>, rows: seq<Alloc>,
                    remaining: int,
                    t: seq<int>)
    requires i < |order| == |avail| && NonNeg(avail) && Distinct(order) && avail[i] == 0
    requires Round(order, avail, q, i, before, rows, remaining, t) && remaining > 0
    ensures Round(order, avail, q, i + 1, before, rows, remaining, t)
  {
    UpToNext(avail, i);
    hide RowsTo, Takes, TakenAfter, UpTo, Distinct, Untaken, Given;
    NextRow(order, avail, q, i);
    OthersUntaken(order, before, t, i, 0);
    assert rows + [] == rows;
  }

  lemma FreeNow(lots: seq<Lot>, order: seq<nat>, q: int, i: nat, before: seq<int>, rows: seq<Alloc>, remaining: int,
                t: seq<int>)
    requires Ids(lots, order) && |before| == |lots| && i < |order|
    requires Round(order, Avails(lots, order, before), q, i, before, rows, remaining, t)
    ensures order[i] < |lots| == |t|
    ensures Avails(lots, order, before)[i]
            == Max0(lots[order[i]].remaining - lots[order[i]].reserved - t[order[i]]) >= 0
  {
    AvailsAt(lots, order, before, i);
  }

  /** The loop may stop early: the lots it did not reach give nothing. */
  lemma LastRound(order: seq<nat>, avail: seq<int>, q: int, i: nat, before: seq<int>, rows: seq<Alloc>, remaining: int,
                  t: seq<int>)
    requires i <= |order| == |avail| && NonNeg(avail) && q > 0 && (i == |order| || remaining <= 0)
    requires Round(order, avail, q, i, before, rows, remaining, t)
    ensures remaining == q - Min(q, UpTo(avail, |order|)) && rows == RowsTo(order, Takes(avail, q), |order|)
    ensures RowIds(before, rows) && t == TakenAfter(before, rows)
  {
    UpToMono(avail, i, |avail|);
    if remaining == 0 { NoRowsAfter(order, avail, q, i, |order|); }
  }

  method TakeUnits(taken: array<int>, lot: nat, take: int)
    requires lot < taken.Length
    modifies taken
    ensures taken[..] == old(taken[..])[lot := old(taken[..])[lot] + take]
  {
    taken[lot] := taken[lot] + take;
  }

  /** The first loop of allocateFefo: lots in order, each giving what it can. */
  method TakeInOrder(lots: seq<Lot>, order: seq<nat>, taken: array<int>, quantity: int)
    returns (allocations: seq<Alloc>, remaining: int)
    requires Ids(lots, order) && Distinct(order) && taken.Length == |lots| && quantity > 0
    modifies taken
    ensures var avail := Avails(lots, order, old(taken[..]));
            && remaining == quantity - Min(quantity, UpTo(avail, |order|))
            && allocations == RowsTo(order, Takes(avail, quantity), |order|)
    ensures RowIds(old(taken[..]), allocations) && taken[..] == TakenAfter(old(taken[..]), allocations)
  {
    hide *;
    ghost var before := taken[..];
    ghost var avail := Avails(lots, order, before);
    allocations, remaining := [], quantity;
    var i := 0;
    FirstRound(lots, order, before, quantity);
    while i < |order| && remaining > 0
      invariant 0 <= i <= |order|
      invariant Round(order, avail, quantity, i, before, allocations, remaining, taken[..])
    {
      var lot := order[i];
      FreeNow(lots, order, quantity, i, before, allocations, remaining, taken[..]);
      var free := Max0(lots[lot].remaining - lots[lot].reserved - taken[lot]);
      if free > 0 {
        var take := Min(remaining, free);
        SmallerOf(remaining, free);
        RoundTakes(order, avail, quantity, i, before, allocations, remaining, taken[..], take);
        allocations := allocations + [Alloc(lot, take)];
        TakeUnits(taken, lot, take);
        remaining := remaining - take;
      } else {
        RoundPasses(order, avail, quantity, i, before, allocations, remaining, taken[..]);
      }
      i := i + 1;
    }
    LastRound(order, avail, quantity, i, before, allocations, remaining, taken[..]);
  }

  lemma SmallerOf(a: int, b: int)
    requires a > 0 && b > 0
    ensures Min(a, b) > 0
  {
  }

  /** Rows with the uncovered `rest` put on `target`: on its row if the last one is its row, else on a new one. */
  function OverdrawnRows(rows: seq<Alloc>, target: nat, rest: int): seq<Alloc> {
    var k := |rows| - 1;
    if |rows| > 0 && rows[k].lot == target then rows[..k] + [Alloc(target, rows[k].qty + rest)]
    else rows + [Alloc(target, rest)]
  }

  predicate OffLot(rows: seq<Alloc>, target: nat) { forall a :: a in rows ==> a.lot != target }

  lemma OverdrawnRowsStep(greedy: seq<Alloc>, init: seq<Alloc>, target: nat, free: int, rest: int)
    requires free >= 0 && OffLot(init, target)
    requires greedy == init + (if free > 0 then [Alloc(target, free)] else [])
    ensures OverdrawnRows(greedy, target, rest) == init + [Alloc(target, free + rest)]
  {
    if free > 0 {
      assert greedy[..|init|] == init;
    } else {
      assert greedy == init;
      if |init| > 0 { assert init[|init| - 1] in init; }
    }
  }

  lemma NotOnLast(order: seq<nat>, takes: seq<int>)
    requires |order| == |takes| > 0 && Distinct(order)
    ensures OffLot(RowsTo(order, takes, |order| - 1), order[|order| - 1])
  {
    RowsWithin(order, takes, |order| - 1);
  }

  lemma OverdrawnRowsAre(order: seq<nat>, avail: seq<int>, q: int)
    requires |order| == |avail| > 0 && NonNeg(avail) && Distinct(order) && UpTo(avail, |avail|) < q
    ensures var n := |order|;
            RowsTo(order, TakesOverdrawn(avail, q), n)
            == OverdrawnRows(RowsTo(order, Takes(avail, q), n), order[n - 1], q - UpTo(avail, n))
  {
    hide *;
    LastNonNeg(avail);
    DrainedLast(order, avail, q);
    OverdrawnLast(order, avail, q);
    NotOnLast(order, Takes(avail, q));
    RestOnLast(RowsTo(order, Takes(avail, q), |order|), RowsTo(order, TakesOverdrawn(avail, q), |order|),
               RowsTo(order, Takes(avail, q), |order| - 1), order[|order| - 1], avail[|order| - 1],
               q - UpTo(avail, |order|));
  }

  lemma LastNonNeg(avail: seq<int>)
    requires NonNeg(avail) && |avail| > 0
    ensures avail[|avail| - 1] >= 0
  {
  }

  /** `over` is `greedy` with the rest on its last lot. */
  lemma RestOnLast(greedy: seq<Alloc>, over: seq<Alloc>, init: seq<Alloc>, target: nat, free: int, rest: int)
    requires free >= 0 && OffLot(init, target)
    requires greedy == init + (if free > 0 then [Alloc(target, free)] else [])
    requires over == init + [Alloc(target, free + rest)]
    ensures over == OverdrawnRows(greedy, target, rest)
  {
    OverdrawnRowsStep(greedy, init, target, free, rest);
  }

  lemma NotOverdrawn(avail: seq<int>, q: int)
    requires |avail| > 0 && UpTo(avail, |avail|) >= q
    ensures TakesOverdrawn(avail, q) == Takes(avail, q)
  {
    hide Takes, UpTo;
  }

  /** A plan that is not refused, row by row and in what it takes. */
  lemma PlanIs(lots: seq<Lot>, order: seq<nat>, taken: seq<int>, q: int, offline: bool)
    requires Ids(lots, order) && |taken| == |lots| && |order| > 0
    requires offline || UpTo(Avails(lots, order, taken), |order|) >= q
    ensures var rows := RowsTo(order, TakesOverdrawn(Avails(lots, order, taken), q), |order|);
            RowIds(taken, rows)
            && PlanLine(lots, order, taken, q, offline) == Ok(LinePlan(rows, TakenAfter(taken, rows)))
  {
    var takes := TakesOverdrawn(Avails(lots, order, taken), q);
    RowsFrom(order, takes, |order|);
    var rows := RowsTo(order, takes, |order|);
    assert forall i :: 0 <= i < |rows| ==> rows[i] in rows;
    hide RowsTo, TakesOverdrawn, UpTo, Avails, TakenAfter;
  }

  lemma OverdrawnPlan(lots: seq<Lot>, order: seq<nat>, taken: seq<int>, q: int, offline: bool)
    requires Ids(lots, order) && Distinct(order) && |taken| == |lots| && q > 0 && |order| > 0
    ensures var avail, n := Avails(lots, order, taken), |order|;
            var greedy := RowsTo(order, Takes(avail, q), n);
            var plan := PlanLine(lots, order, taken, q, offline);
            if UpTo(avail, n) >= q then
              RowIds(taken, greedy) && plan == Ok(LinePlan(greedy, TakenAfter(taken, greedy)))
            else if !offline then plan == Err(409)
            else
              var rows := OverdrawnRows(greedy, order[n - 1], q - UpTo(avail, n));
              RowIds(taken, rows) && plan == Ok(LinePlan(rows, TakenAfter(taken, rows)))
  {
    hide RowsTo, Takes, TakesOverdrawn, OverdrawnRows, UpTo, Avails, TakenAfter, Distinct, Before, RowIds, NonNeg;
    var avail := Avails(lots, order, taken);
    if UpTo(avail, |order|) >= q {
      hide PlanLine;
      NotOverdrawn(avail, q);
      PlanIs(lots, order, taken, q, offline);
    } else if offline {
      hide PlanLine;
      OverdrawnRowsAre(order, avail, q);
      PlanIs(lots, order, taken, q, offline);
    }
  }

  method Overdraw(taken: array<int>, allocations: seq<Alloc>, target: nat, rest: int, ghost before: seq<int>)
    returns (rows: seq<Alloc>)
    requires RowIds(taken[..], allocations) && target < taken.Length == |before|
    requires taken[..] == TakenAfter(before, allocations)
    modifies taken
    ensures rows == OverdrawnRows(allocations, target, rest)
    ensures RowIds(before, rows) && taken[..] == TakenAfter(before, rows)
  {
    var existing := |allocations| > 0 && allocations[|allocations| - 1].lot == target;
    if existing {
      var last := allocations[|allocations| - 1];
      var others := allocations[..|allocations| - 1];
      rows := others + [Alloc(target, last.qty + rest)];
      PushRow(before, others, Alloc(target, last.qty + rest));
    } else {
      rows := allocations + [Alloc(target, rest)];
      PushRow(before, allocations, Alloc(target, rest));
    }
    TakeUnits(taken, target, rest);
  }

  /** allocateFefo. `taken` holds, per lot, the units planned for earlier lines of the cart. The rows
      name distinct lots in order, so a row of the overdrawn lot can only be the last one. */
  method AllocateFefo(lots: seq<Lot>, order: seq<nat>, taken: array<int>, quantity: int, offline: bool)
    returns (r: Result<seq<Alloc>>)
    requires Ids(lots, order) && Distinct(order) && taken.Length == |lots| && quantity > 0
    modifies taken
    ensures PlanLine(lots, order, old(taken[..]), quantity, offline).Ok? ==>
              && r == Ok(PlanLine(lots, order, old(taken[..]), quantity, offline).value.rows)
              && taken[..] == PlanLine(lots, order, old(taken[..]), quantity, offline).value.taken
    ensures PlanLine(lots, order, old(taken[..]), quantity, offline).Err? ==>
              r == Err(409) && taken[..] == old(taken[..])
  {
    hide PlanLine, RowsTo, Takes, OverdrawnRows, UpTo, Avails, TakenAfter, Distinct, Ids;
    ghost var before := taken[..];
    var totalAvail := UpTo(Avails(lots, order, taken[..]), |order|);
    NotPlanned(lots, order, before, quantity, offline);
    if totalAvail < quantity && !offline { return Err(409); }
    if |order| == 0 { return Err(409); }

    OverdrawnPlan(lots, order, before, quantity, offline);
    var allocations, remaining := TakeInOrder(lots, order, taken, quantity);
    if remaining > 0 && offline {
      LastInRange(lots, order);
      allocations := Overdraw(taken, allocations, order[|order| - 1], remaining, before);
      remaining := 0;
    }
    assert remaining == 0;
    return Ok(allocations);
  }

  lemma NotPlanned(lots: seq<Lot>, order: seq<nat>, taken: seq<int>, q: int, offline: bool)
    requires Ids(lots, order) && |taken| == |lots|
    ensures (UpTo(Avails(lots, order, taken), |order|) < q && !offline) || |order| == 0 ==>
              PlanLine(lots, order, taken, q, offline) == Err(409)
  {
    hide Avails, UpTo;
  }

  lemma LastInRange(lots: seq<Lot>, order: seq<nat>)
    requires Ids(lots, order) && |order| > 0
    ensures order[|order| - 1] < |lots|
  {
  }

  lemma {:induction false} RowsWithin(order: seq<nat>, takes: seq<int>, k: nat)
    requires k <= |order| == |takes|
    ensures forall a :: a in RowsTo(order, takes, k) ==> exists i :: 0 <= i < k && order[i] == a.lot
  {
    if k > 0 { RowsWithin(order, takes, k - 1); }
  }

  lemma PushRow(taken: seq<int>, rows: seq<Alloc>, a: Alloc)
    requires a.lot < |taken| && forall i :: 0 <= i < |rows| ==> rows[i].lot < |taken|
    ensures var t := TakenAfter(taken, rows);
            TakenAfter(taken, rows + [a]) == t[a.lot := t[a.lot] + a.qty]
  {
    assert (rows + [a])[..|rows|] == rows;
  }
}
