/** The order in which transactions take row locks, and why it rules out deadlock. */
module Locks {
  import opened Outcome

  /** A lot row sorts by product, expiry with unknown last, date received, id. */
  datatype Row =
    | DocumentRow(id: nat)
    | ProductRow(id: nat)
    | LotRow(product: nat, expiry: Option<int>, receivedAt: int, id: nat)
    | OtherRow(id: nat)

  function Rank(r: Row): nat {
    match r
    case DocumentRow(_) => 0
    case ProductRow(_) => 1
    case LotRow(_, _, _, _) => 2
    case OtherRow(_) => 3
  }

  predicate ExpiresBefore(a: Option<int>, b: Option<int>) { a.Some? && (b.None? || a.value < b.value) }

  /** The global lock order. */
  predicate Less(a: Row, b: Row) {
    if Rank(a) != Rank(b) then Rank(a) < Rank(b)
    else match a
      case DocumentRow(i) => i < b.id
      case ProductRow(i) => i < b.id
      case OtherRow(i) => i < b.id
      case LotRow(p, e, at, i) =>
        if p != b.product then p < b.product
        else if e != b.expiry then ExpiresBefore(e, b.expiry)
        else if at != b.receivedAt then at < b.receivedAt
        else i < b.id
  }

  lemma LessIsTotal(a: Row, b: Row, c: Row)
    ensures !Less(a, a)
    ensures Less(a, b) && Less(b, c) ==> Less(a, c)
    ensures a == b || Less(a, b) || Less(b, a)
  {
  }

  /** The order on the rows themselves: the document, then products, then lots, then everything else; lots by
      product, by expiry with unknown last, by date received, by id; all others by id. */
  lemma LockOrder(a: Row, b: Row)
    ensures a.DocumentRow? && !b.DocumentRow? ==> Less(a, b)
    ensures a.ProductRow? && (b.LotRow? || b.OtherRow?) ==> Less(a, b)
    ensures a.LotRow? && b.OtherRow? ==> Less(a, b)
    ensures a.LotRow? && b.LotRow? ==>
              (Less(a, b) <==>
                 || a.product < b.product
                 || (a.product == b.product && a.expiry.Some? && (b.expiry.Some? ==> a.expiry.value < b.expiry.value))
                 || (a.product == b.product && a.expiry == b.expiry && a.receivedAt < b.receivedAt)
                 || (a.product == b.product && a.expiry == b.expiry && a.receivedAt == b.receivedAt && a.id < b.id))
    ensures (a.DocumentRow? && b.DocumentRow?) || (a.ProductRow? && b.ProductRow?) || (a.OtherRow? && b.OtherRow?) ==>
              (Less(a, b) <==> a.id < b.id)
  {
  }

  predicate Ascending(rows: seq<Row>) { forall i, j :: 0 <= i < j < |rows| ==> Less(rows[i], rows[j]) }

  // ---- Taking locks in order ----

  /** Deduplicate and sort. */
  function Insert(rows: seq<Row>, r: Row): seq<Row> {
    if rows == [] || Less(r, rows[0]) then [r] + rows
    else if r == rows[0] then rows
    else [rows[0]] + Insert(rows[1..], r)
  }

  function SortRows(rows: seq<Row>): seq<Row> {
    if rows == [] then [] else Insert(SortRows(rows[..|rows| - 1]), rows[|rows| - 1])
  }

  lemma {:induction false} InsertSorted(rows: seq<Row>, r: Row)
    requires Ascending(rows)
    ensures Ascending(Insert(rows, r))
    ensures forall x :: x in Insert(rows, r) <==> x == r || x in rows
  {
    if rows == [] {
    } else if Less(r, rows[0]) {
      forall j | 0 <= j < |rows| ensures Less(r, rows[j]) { LessIsTotal(r, rows[0], rows[j]); }
    } else if r != rows[0] {
      var rest := Insert(rows[1..], r);
      InsertSorted(rows[1..], r);
      LessIsTotal(rows[0], r, r);
      forall j | 0 <= j < |rest| ensures Less(rows[0], rest[j]) {
        assert rest[j] in rest;
        if rest[j] != r { var i :| 0 <= i < |rows[1..]| && rows[1..][i] == rest[j]; assert rows[i + 1] == rest[j]; }
      }
    }
  }

  lemma {:induction false} SortSorts(rows: seq<Row>)
    ensures Ascending(SortRows(rows))
    ensures forall x :: x in SortRows(rows) <==> x in rows
  {
    if rows != [] {
      var k := |rows| - 1;
      SortSorts(rows[..k]);
      InsertSorted(SortRows(rows[..k]), rows[k]);
      assert rows == rows[..k] + [rows[k]];
    }
  }

  /** What a transaction locks: the document it acts on, if any; its products; their lots; the rest. */
  function Plan(document: Option<nat>, products: seq<Row>, lots: seq<Row>, others: seq<Row>): seq<Row> {
    (if document.Some? then [DocumentRow(document.value)] else [])
    + SortRows(products) + SortRows(lots) + SortRows(others)
  }

  predicate AllOf(rows: seq<Row>, rank: nat) { forall i :: 0 <= i < |rows| ==> Rank(rows[i]) == rank }

  lemma {:induction false} SortKeepsRank(rows: seq<Row>, rank: nat)
    requires AllOf(rows, rank)
    ensures AllOf(SortRows(rows), rank)
  {
    SortSorts(rows);
    forall i | 0 <= i < |SortRows(rows)| ensures Rank(SortRows(rows)[i]) == rank {
      assert SortRows(rows)[i] in rows;
    }
  }

  lemma Stacked(a: seq<Row>, b: seq<Row>, n: nat)
    requires Ascending(a) && Ascending(b)
    requires (forall i :: 0 <= i < |a| ==> Rank(a[i]) < n) && (forall i :: 0 <= i < |b| ==> Rank(b[i]) >= n)
    ensures Ascending(a + b)
  {
  }

  /** Whatever products and lots a checkout, settlement, refund, count or recall names, and in whatever
      order, it asks for its rows in ascending order. */
  lemma PlanAscends(document: Option<nat>, products: seq<Row>, lots: seq<Row>, others: seq<Row>)
    requires AllOf(products, 1) && AllOf(lots, 2) && AllOf(others, 3)
    ensures Ascending(Plan(document, products, lots, others))
  {
    SortSorts(products); SortSorts(lots); SortSorts(others);
    SortKeepsRank(products, 1); SortKeepsRank(lots, 2); SortKeepsRank(others, 3);
    var d := if document.Some? then [DocumentRow(document.value)] else [];
    Stacked(d, SortRows(products), 1);
    Stacked(d + SortRows(products), SortRows(lots), 2);
    Stacked(d + SortRows(products) + SortRows(lots), SortRows(others), 3);
  }

  // ---- Waiting ----

  /** A transaction part way through its plan: the first `done` rows are held; the next may be asked for. */
  datatype Txn = Txn(plan: seq<Row>, done: nat, waiting: bool)

  predicate TxnOk(t: Txn) { t.done <= |t.plan| && (t.waiting ==> t.done < |t.plan|) }

  predicate Holds(t: Txn, r: Row)
    requires TxnOk(t)
  {
    r in t.plan[..t.done]
  }

  function Wanted(t: Txn): Row
    requires TxnOk(t) && t.waiting
  {
    t.plan[t.done]
  }

  function After(i: nat, n: nat): nat { if i + 1 == n then 0 else i + 1 }

  predicate AllWaiting(ts: seq<Txn>) { forall i :: 0 <= i < |ts| ==> TxnOk(ts[i]) && ts[i].waiting }

  /** Each transaction of the cycle waits for a row the next one holds, and the last for one the first holds. */
  predicate WaitCycle(ts: seq<Txn>) {
    && |ts| > 0 && AllWaiting(ts)
    && forall i :: 0 <= i < |ts| ==> Holds(ts[After(i, |ts|)], Wanted(ts[i]))
  }

  predicate Ordered(ts: seq<Txn>) { forall i :: 0 <= i < |ts| ==> Ascending(ts[i].plan) }

  lemma HeldIsBelow(t: Txn, r: Row)
    requires TxnOk(t) && t.waiting && Ascending(t.plan) && Holds(t, r)
    ensures Less(r, Wanted(t))
  {
    var k :| 0 <= k < t.done && t.plan[k] == r;
  }

  /** Along the cycle, what is waited for only climbs. */
  lemma {:induction false} Climbs(ts: seq<Txn>, k: nat)
    requires WaitCycle(ts) && Ordered(ts) && 0 < k < |ts|
    ensures Less(Wanted(ts[0]), Wanted(ts[k]))
  {
    assert After(k - 1, |ts|) == k;
    HeldIsBelow(ts[k], Wanted(ts[k - 1]));
    if k > 1 {
      Climbs(ts, k - 1);
      LessIsTotal(Wanted(ts[0]), Wanted(ts[k - 1]), Wanted(ts[k]));
    }
  }

  /** Transactions that follow the order never wait in a circle, however many there are and wherever
      each of them has got to. */
  lemma NoDeadlock(ts: seq<Txn>)
    requires Ordered(ts)
    ensures !WaitCycle(ts)
  {
    if WaitCycle(ts) {
      var last := |ts| - 1;
      HeldIsBelow(ts[0], Wanted(ts[last]));
      if last > 0 { Climbs(ts, last); }
      LessIsTotal(Wanted(ts[0]), Wanted(ts[last]), Wanted(ts[0]));
    }
  }

  // ---- The transaction that does not follow it ----

  /** finalizeSucceededRefund: the Sale, then goods, then the refund row is written. */
  function FinalizePlan(sale: nat, products: seq<Row>, lots: seq<Row>, refund: nat): seq<Row> {
    Plan(Some(sale), products, lots, [OtherRow(refund)])
  }

  /** abortFailedRefund: the refund row is written before the Sale is locked. */
  function AbortPlan(sale: nat, refund: nat): seq<Row> { [OtherRow(refund), DocumentRow(sale)] }

  /** A plan of the abort's form: a refund row, then a Sale. */
  predicate AbortShaped(plan: seq<Row>) { |plan| == 2 && plan[0].OtherRow? && plan[1].DocumentRow? }

  predicate Mixed(plans: seq<seq<Row>>) {
    forall i :: 0 <= i < |plans| ==> Ascending(plans[i]) || AbortShaped(plans[i])
  }

  /** Some transaction that keeps the order names the refund row of some abort. */
  predicate NamesAborted(plans: seq<seq<Row>>) {
    exists i, j :: 0 <= i < |plans| && 0 <= j < |plans| && Ascending(plans[i]) && AbortShaped(plans[j])
      && plans[j][0] in plans[i]
  }

  /** They can wait in a circle, each somewhere along its plan. */
  ghost predicate CanDeadlock(plans: seq<seq<Row>>) {
    exists ts: seq<Txn> :: WaitCycle(ts) && forall k :: 0 <= k < |ts| ==> ts[k].plan in plans
  }

  function Prev(i: nat, n: nat): nat
    requires i < n
  {
    if i == 0 then n - 1 else i - 1
  }

  /** In a circle everyone holds what the one before him wants. */
  lemma HeldInCycle(ts: seq<Txn>, j: nat)
    requires WaitCycle(ts) && j < |ts|
    ensures ts[j].done > 0 && Wanted(ts[Prev(j, |ts|)]) in ts[j].plan[..ts[j].done]
  {
    assert After(Prev(j, |ts|), |ts|) == j;
    assert Holds(ts[After(Prev(j, |ts|), |ts|)], Wanted(ts[Prev(j, |ts|)]));
  }

  /** An abort in a circle holds its refund row, and an ordered transaction waits for it. */
  lemma AbortInCycle(ts: seq<Txn>, j: nat)
    requires WaitCycle(ts) && j < |ts| && AbortShaped(ts[j].plan)
    requires forall i :: 0 <= i < |ts| ==> Ascending(ts[i].plan) || AbortShaped(ts[i].plan)
    ensures Ascending(ts[Prev(j, |ts|)].plan) && ts[j].plan[0] in ts[Prev(j, |ts|)].plan
  {
    var i := Prev(j, |ts|);
    HeldInCycle(ts, j);
    HeldInCycle(ts, i);
    assert ts[i].waiting && ts[j].waiting;
    assert ts[j].plan[..ts[j].done] == [ts[j].plan[0]];
    assert Wanted(ts[i]) == ts[j].plan[0];
  }

  lemma NotAllOrdered(ts: seq<Txn>)
    requires WaitCycle(ts)
    ensures exists j: nat :: j < |ts| && !Ascending(ts[j].plan)
  {
    if Ordered(ts) { NoDeadlock(ts); }
  }

  lemma CycleNames(plans: seq<seq<Row>>, ts: seq<Txn>)
    requires Mixed(plans) && WaitCycle(ts) && forall k :: 0 <= k < |ts| ==> ts[k].plan in plans
    ensures NamesAborted(plans)
  {
    forall k | 0 <= k < |ts| ensures Ascending(ts[k].plan) || AbortShaped(ts[k].plan) {
      var i :| 0 <= i < |plans| && plans[i] == ts[k].plan;
    }
    NotAllOrdered(ts);
    var j: nat :| j < |ts| && !Ascending(ts[j].plan);
    AbortInCycle(ts, j);
    var k :| 0 <= k < |plans| && plans[k] == ts[j].plan;
    var i :| 0 <= i < |plans| && plans[i] == ts[Prev(j, |ts|)].plan;
  }

  /** Whatever else they name: transactions of which each follows the order or is an abort never wait in
      a circle as long as no ordered one names the refund row of an abort among them. */
  lemma AbortsSafe(plans: seq<seq<Row>>)
    requires Mixed(plans) && !NamesAborted(plans)
    ensures !CanDeadlock(plans)
  {
    if CanDeadlock(plans) {
      var ts: seq<Txn> :| WaitCycle(ts) && forall k :: 0 <= k < |ts| ==> ts[k].plan in plans;
      CycleNames(plans, ts);
    }
  }

  lemma LowerRankFirst(plan: seq<Row>, x: nat, y: nat)
    requires Ascending(plan) && x < |plan| && y < |plan| && Rank(plan[x]) < Rank(plan[y])
    ensures x < y
  {
  }

  /** An ordered transaction that names both rows of an abort, and the abort, can wait for each other. */
  lemma BothRowsCycle(plan: seq<Row>, abort: seq<Row>)
    requires Ascending(plan) && AbortShaped(abort) && abort[0] in plan && abort[1] in plan
    ensures exists at: nat :: at < |plan| && WaitCycle([Txn(plan, at, true), Txn(abort, 1, true)])
  {
    var x: nat :| x < |plan| && plan[x] == abort[1];
    var y: nat :| y < |plan| && plan[y] == abort[0];
    LowerRankFirst(plan, x, y);
    var ts := [Txn(plan, y, true), Txn(abort, 1, true)];
    assert plan[..y][x] == abort[1] && abort[..1] == [abort[0]];
    assert Holds(ts[0], Wanted(ts[1])) && Holds(ts[1], Wanted(ts[0]));
    assert WaitCycle(ts);
  }

  /** Refund rows are written under their Sale: who names an abort's refund row names its Sale too. */
  predicate UnderSale(plans: seq<seq<Row>>) {
    forall i, j :: 0 <= i < |plans| && 0 <= j < |plans| && Ascending(plans[i]) && AbortShaped(plans[j]) ==>
      (plans[j][0] in plans[i] ==> plans[j][1] in plans[i])
  }

  /** So for transactions that keep to that, aborts are safe exactly when nobody names their refund rows. */
  lemma DeadlockExact(plans: seq<seq<Row>>)
    requires Mixed(plans) && UnderSale(plans)
    ensures CanDeadlock(plans) <==> NamesAborted(plans)
  {
    if NamesAborted(plans) {
      var i, j :| 0 <= i < |plans| && 0 <= j < |plans| && Ascending(plans[i]) && AbortShaped(plans[j])
          && plans[j][0] in plans[i];
      BothRowsCycle(plans[i], plans[j]);
      var at: nat :| at < |plans[i]| && WaitCycle([Txn(plans[i], at, true), Txn(plans[j], 1, true)]);
      var ts := [Txn(plans[i], at, true), Txn(plans[j], 1, true)];
      assert forall k :: 0 <= k < |ts| ==> ts[k].plan in plans;
    } else {
      AbortsSafe(plans);
    }
  }

  /** A refund finalized and aborted at the same time, whatever goods it restocks, can wait for each
      other: the abort takes its two rows against the order. */
  lemma AbortBreaksTheOrder(sale: nat, products: seq<Row>, lots: seq<Row>, refund: nat)
    requires AllOf(products, 1) && AllOf(lots, 2)
    ensures Ascending(FinalizePlan(sale, products, lots, refund)) && !Ascending(AbortPlan(sale, refund))
    ensures CanDeadlock([FinalizePlan(sale, products, lots, refund), AbortPlan(sale, refund)])
  {
    var f, a := FinalizePlan(sale, products, lots, refund), AbortPlan(sale, refund);
    PlanAscends(Some(sale), products, lots, [OtherRow(refund)]);
    SortSorts([OtherRow(refund)]);
    assert OtherRow(refund) in SortRows([OtherRow(refund)]);
    assert f[0] == DocumentRow(sale);
    assert !Less(a[0], a[1]);
    var plans := [f, a];
    assert plans[0] == f && plans[1] == a && AbortShaped(a);
    assert NamesAborted(plans) by { assert plans[1][0] in plans[0]; }
    DeadlockExact(plans);
  }
}
