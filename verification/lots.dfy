/** Lot rows, the primitive updates the stock engine makes to one row, and their effect on the
    sellable rollup when a whole list of allocations is applied. A lot's id is its row number. */
module Lots {
  import opened Outcome
  import opened Sums
  import opened Allocation

  datatype LotStatus = Active | Depleted | Quarantined | Recalled | Expired

  datatype Lot = Lot(product: nat, remaining: int, reserved: int, status: LotStatus,
                     expiry: Option<int>, receivedAt: int)

  /** What every lot of a healthy ledger satisfies, whatever its history. */
  predicate LotOk(lot: Lot) {
    && 0 <= lot.remaining && 0 <= lot.reserved
    && (lot.status.Active? ==> lot.reserved <= lot.remaining)
    && (!lot.status.Active? ==> lot.reserved == 0)
    && (lot.status.Depleted? ==> lot.remaining == 0)
  }

  predicate LotsOk(lots: seq<Lot>) { forall l :: 0 <= l < |lots| ==> LotOk(lots[l]) }

  /** A lot that no longer returns to the shelf. */
  predicate Terminal(status: LotStatus) { status.Recalled? || status.Expired? }

  /** Off sale though units may be on hand. */
  predicate Withdrawn(status: LotStatus) { status.Quarantined? || Terminal(status) }

  // ---- The rollup: what Product.stock and Product.reserved cache ----

  function StockFn(p: nat): Lot -> int {
    (lot: Lot) => if lot.product == p && lot.status.Active? then lot.remaining else 0
  }

  function ReservedFn(p: nat): Lot -> int {
    (lot: Lot) => if lot.product == p && lot.status.Active? then lot.reserved else 0
  }

  function ActiveStock(lots: seq<Lot>, p: nat): int { Sum(lots, StockFn(p)) }

  function ActiveReserved(lots: seq<Lot>, p: nat): int { Sum(lots, ReservedFn(p)) }

  // ---- One-row updates ----

  function ReserveOp(lot: Lot, q: int): Lot { lot.(reserved := lot.reserved + q) }

  function ReleaseOp(lot: Lot, q: int): Lot { lot.(reserved := lot.reserved - q) }

  function DepleteAtZero(lot: Lot): Lot { if lot.remaining == 0 then lot.(status := Depleted) else lot }

  function ConsumeReservedOp(lot: Lot, q: int): Lot {
    DepleteAtZero(lot.(remaining := lot.remaining - q, reserved := lot.reserved - q))
  }

  function ConsumeDirectOp(lot: Lot, q: int): Lot {
    DepleteAtZero(lot.(remaining := lot.remaining - q))
  }

  function RestockOp(lot: Lot, q: int): Lot {
    var up := lot.(remaining := lot.remaining + q);
    if up.status.Depleted? && up.remaining > 0 then up.(status := Active) else up
  }

  // ---- A list of allocations, applied row after row ----

  predicate InRange(lots: seq<Lot>, allocs: seq<Alloc>) {
    forall i :: 0 <= i < |allocs| ==> allocs[i].lot < |lots|
  }

  function ApplyAll(lots: seq<Lot>, allocs: seq<Alloc>, op: (Lot, int) -> Lot): (r: seq<Lot>)
    requires InRange(lots, allocs)
    ensures |r| == |lots|
  {
    if allocs == [] then lots
    else
      var before := ApplyAll(lots, allocs[..|allocs| - 1], op);
      var a := allocs[|allocs| - 1];
      before[a.lot := op(before[a.lot], a.qty)]
  }

  lemma ApplyAppend(lots: seq<Lot>, allocs: seq<Alloc>, a: Alloc, op: (Lot, int) -> Lot)
    requires InRange(lots, allocs) && a.lot < |lots|
    ensures InRange(lots, allocs + [a])
    ensures var before := ApplyAll(lots, allocs, op);
            ApplyAll(lots, allocs + [a], op) == before[a.lot := op(before[a.lot], a.qty)]
  {
    assert (allocs + [a])[..|allocs|] == allocs;
  }

  /** The same, reading a list from its start: nothing applied, and one row more. */
  lemma ApplyNext(lots: seq<Lot>, allocs: seq<Alloc>, k: nat, op: (Lot, int) -> Lot)
    requires InRange(lots, allocs) && k < |allocs|
    ensures var before := ApplyAll(lots, allocs[..k], op);
            ApplyAll(lots, allocs[..k + 1], op) == before[allocs[k].lot := op(before[allocs[k].lot], allocs[k].qty)]
  {
    assert allocs[..k + 1] == allocs[..k] + [allocs[k]];
    ApplyAppend(lots, allocs[..k], allocs[k], op);
  }

  lemma ApplyEnds(lots: seq<Lot>, allocs: seq<Alloc>, op: (Lot, int) -> Lot)
    requires InRange(lots, allocs)
    ensures ApplyAll(lots, allocs[..0], op) == lots && allocs[..|allocs|] == allocs
  {
  }

  /** Applying two lists in turn is applying their concatenation. */
  lemma {:induction false} ApplyConcat(lots: seq<Lot>, xs: seq<Alloc>, ys: seq<Alloc>, op: (Lot, int) -> Lot)
    requires InRange(lots, xs) && InRange(lots, ys)
    ensures InRange(lots, xs + ys)
    ensures ApplyAll(lots, xs + ys, op) == ApplyAll(ApplyAll(lots, xs, op), ys, op)
  {
    if ys == [] {
      assert xs + ys == xs;
    } else {
      ApplyConcat(lots, xs, ys[..|ys| - 1], op);
      assert (xs + ys)[..|xs + ys| - 1] == xs + ys[..|ys| - 1];
    }
  }

  /** Rows the list does not name are untouched. */
  lemma {:induction false} ApplyFrame(lots: seq<Lot>, allocs: seq<Alloc>, op: (Lot, int) -> Lot, l: nat)
    requires InRange(lots, allocs) && l < |lots| && Positive(allocs)
    ensures On(allocs, l) == 0 ==> ApplyAll(lots, allocs, op)[l] == lots[l]
  {
    if allocs != [] {
      var k := |allocs| - 1;
      var init := allocs[..k];
      assert allocs == init + [allocs[k]];
      OnAppend(init, allocs[k], l);
      OnBounds(init, l);
      ApplyFrame(lots, init, op, l);
    }
  }

  lemma {:induction false} ReserveEffect(lots: seq<Lot>, allocs: seq<Alloc>, l: nat)
    requires InRange(lots, allocs) && l < |lots|
    ensures ApplyAll(lots, allocs, ReserveOp)[l] == lots[l].(reserved := lots[l].reserved + On(allocs, l))
  {
    if allocs != [] {
      ReserveEffect(lots, allocs[..|allocs| - 1], l);
    }
  }

  lemma {:induction false} ReleaseEffect(lots: seq<Lot>, allocs: seq<Alloc>, l: nat)
    requires InRange(lots, allocs) && l < |lots|
    ensures ApplyAll(lots, allocs, ReleaseOp)[l] == lots[l].(reserved := lots[l].reserved - On(allocs, l))
  {
    if allocs != [] {
      ReleaseEffect(lots, allocs[..|allocs| - 1], l);
    }
  }

  /** As long as the lot is not overdrawn, taking piece by piece is taking all at once. */
  function Consumed(lot: Lot, n: int, held: int): Lot {
    var less := lot.(remaining := lot.remaining - n, reserved := lot.reserved - held);
    if n > 0 then DepleteAtZero(less) else less
  }

  lemma {:induction false} ConsumeReservedEffect(lots: seq<Lot>, allocs: seq<Alloc>, l: nat)
    requires InRange(lots, allocs) && l < |lots| && Positive(allocs)
    requires On(allocs, l) <= lots[l].remaining
    ensures ApplyAll(lots, allocs, ConsumeReservedOp)[l] == Consumed(lots[l], On(allocs, l), On(allocs, l))
  {
    if allocs != [] {
      var k := |allocs| - 1;
      var init := allocs[..k];
      assert allocs == init + [allocs[k]];
      OnAppend(init, allocs[k], l);
      OnBounds(init, l);
      ConsumeReservedEffect(lots, init, l);
    }
  }

  lemma {:induction false} ConsumeDirectEffect(lots: seq<Lot>, allocs: seq<Alloc>, l: nat)
    requires InRange(lots, allocs) && l < |lots| && Positive(allocs)
    requires On(allocs, l) <= lots[l].remaining
    ensures ApplyAll(lots, allocs, ConsumeDirectOp)[l] == Consumed(lots[l], On(allocs, l), 0)
  {
    if allocs != [] {
      var k := |allocs| - 1;
      var init := allocs[..k];
      assert allocs == init + [allocs[k]];
      OnAppend(init, allocs[k], l);
      OnBounds(init, l);
      ConsumeDirectEffect(lots, init, l);
    }
  }

  lemma {:induction false} RestockEffect(lots: seq<Lot>, allocs: seq<Alloc>, l: nat)
    requires InRange(lots, allocs) && l < |lots| && Positive(allocs)
    requires lots[l].remaining >= 0
    ensures ApplyAll(lots, allocs, RestockOp)[l]
         == if On(allocs, l) == 0 then lots[l] else RestockOp(lots[l], On(allocs, l))
  {
    if allocs != [] {
      var k := |allocs| - 1;
      var init := allocs[..k];
      assert allocs == init + [allocs[k]];
      OnAppend(init, allocs[k], l);
      OnBounds(init, l);
      RestockEffect(lots, init, l);
    }
  }

  /** A weighted total moves by the sum of the moves of the single steps. */
  lemma {:induction false} ApplySum(lots: seq<Lot>, allocs: seq<Alloc>, op: (Lot, int) -> Lot,
                                    w: Lot -> int, delta: Alloc -> int)
    requires InRange(lots, allocs)
    requires forall k :: 0 <= k < |allocs| ==>
               var lot := ApplyAll(lots, allocs[..k], op)[allocs[k].lot];
               w(op(lot, allocs[k].qty)) == w(lot) + delta(allocs[k])
    ensures Sum(ApplyAll(lots, allocs, op), w) == Sum(lots, w) + Sum(allocs, delta)
  {
    if allocs != [] {
      var k := |allocs| - 1;
      var init := allocs[..k];
      forall j | 0 <= j < |init|
        ensures var lot := ApplyAll(lots, init[..j], op)[init[j].lot];
                w(op(lot, init[j].qty)) == w(lot) + delta(init[j])
      {
        assert init[..j] == allocs[..j];
      }
      ApplySum(lots, init, op, w, delta);
      var before := ApplyAll(lots, init, op);
      SumUpdate(before, allocs[k].lot, op(before[allocs[k].lot], allocs[k].qty), w);
    }
  }
}
