/** The operations that move whole lots in and out of the sellable rollup: receiving, adjusting,
    counting, quarantine, expiry and recall. */
module LotSteps {
  import opened Outcome
  import opened Sums
  import opened Lots
  import opened StockEngine
  import opened Fefo
  import opened Ledger
  import opened LedgerInvariant

  /** Replacing one lot row keeps the rollup exactly when the product row moves by the difference. */
  lemma RowUpdate(s: Shelf, l: nat, lot: Lot, stock: int)
    requires ShelfWf(s) && Rollup(s) && l < |s.lots|
    requires lot.product == s.lots[l].product
    ensures var p := lot.product;
            var t := Shelf(AddStock(s, p, stock, 0), s.lots[l := lot]);
            Rollup(t) <==>
              && stock == StockFn(p)(lot) - StockFn(p)(s.lots[l])
              && ReservedFn(p)(lot) == ReservedFn(p)(s.lots[l])
  {
    var p := lot.product;
    var t := Shelf(AddStock(s, p, stock, 0), s.lots[l := lot]);
    forall r: nat
      ensures ActiveStock(t.lots, r) == ActiveStock(s.lots, r) - StockFn(r)(s.lots[l]) + StockFn(r)(lot)
      ensures ActiveReserved(t.lots, r) == ActiveReserved(s.lots, r) - ReservedFn(r)(s.lots[l]) + ReservedFn(r)(lot)
    {
      SumUpdate(s.lots, l, lot, StockFn(r));
      SumUpdate(s.lots, l, lot, ReservedFn(r));
    }
    assert t.products[p] == Product(s.products[p].stock + stock, s.products[p].reserved);
  }

  /** Quantity and status may differ, the reservation and the product do not; a lot past returning stays
      so, and none is withdrawn with units reserved. */
  predicate LotMoved(a: Lot, b: Lot) {
    && a.product == b.product && a.reserved == b.reserved
    && (Terminal(a.status) ==> Terminal(b.status))
    && (Withdrawn(b.status) ==> Withdrawn(a.status) || b.reserved <= 0)
  }

  predicate LotsMoved(a: Shelf, b: Shelf) {
    && |a.lots| == |b.lots| && |a.products| == |b.products|
    && forall l :: 0 <= l < |a.lots| ==> LotMoved(a.lots[l], b.lots[l])
  }

  predicate QuarantineKept(a: Shelf, b: Shelf)
    requires |a.lots| == |b.lots|
  {
    forall l :: 0 <= l < |a.lots| && a.lots[l].status.Quarantined? ==> b.lots[l].status.Quarantined?
  }

  /** An adjustment that is not refused leaves the lot at the target and the rollup exact. */
  lemma SetLotKeeps(s: Shelf, l: nat, target: int)
    requires l < |s.lots| && s.lots[l].product < |s.products| && SetLotRemaining(s, l, target).Ok?
    ensures var t := SetLotRemaining(s, l, target).value;
            && (ShelfOk(s) ==> ShelfOk(t)) && LotsMoved(s, t) && QuarantineKept(s, t)
            && t.lots[l].remaining == target
            && forall k :: 0 <= k < |s.lots| && k != l ==> t.lots[k] == s.lots[k]
  {
    var lot := s.lots[l];
    var next := lot.(remaining := target, status := NextStatus(lot, target));
    if ShelfOk(s) {
      assert LotOk(lot) && LotOk(next);
      RowUpdate(s, l, next, StockFn(lot.product)(next) - StockFn(lot.product)(lot));
    }
  }

  /** Leaving the rollup with nothing reserved. */
  lemma LeaveKeeps(s: Shelf, l: nat, next: LotStatus)
    requires l < |s.lots| && s.lots[l].product < |s.products|
    requires s.lots[l].status.Active? && s.lots[l].reserved <= 0 && (next.Quarantined? || next.Expired?)
    ensures var t := LeaveSellableRollup(s, l, next);
            && (ShelfOk(s) ==> ShelfOk(t)) && LotsMoved(s, t) && QuarantineKept(s, t)
            && t.lots == s.lots[l := s.lots[l].(status := next)]
  {
    if ShelfOk(s) {
      var lot := s.lots[l];
      assert LotOk(lot) && LotOk(lot.(status := next));
      RowUpdate(s, l, lot.(status := next), -StockFn(lot.product)(lot));
    }
  }

  lemma ReturnKeeps(s: Shelf, l: nat)
    requires l < |s.lots| && s.lots[l].product < |s.products|
    ensures var t := ReturnToSellableRollup(s, l);
            && (ShelfOk(s) ==> ShelfOk(t)) && LotsMoved(s, t)
            && forall k :: 0 <= k < |s.lots| && k != l ==> t.lots[k] == s.lots[k]
  {
    var lot := s.lots[l];
    if ShelfOk(s) && lot.status.Quarantined? {
      assert LotOk(lot) && LotOk(lot.(status := Active));
      RowUpdate(s, l, lot.(status := Active), lot.remaining);
    }
  }

  /** Zeroing a recalled lot never touches the product row, so the rollup survives exactly when the
      lot was contributing nothing to it: the guard is that the lot is not ACTIVE with units or holds. */
  lemma RecallDepleteExact(s: Shelf, l: nat)
    requires ShelfOk(s) && l < |s.lots|
    ensures ShelfOk(RecallDepleteLot(s, l)) <==>
              !(s.lots[l].status.Active? && (s.lots[l].remaining > 0 || s.lots[l].reserved > 0))
  {
    var lot := s.lots[l];
    var gone := lot.(status := Recalled, remaining := 0);
    assert LotOk(lot);
    RowUpdate(s, l, gone, 0);
    var t := RecallDepleteLot(s, l);
    assert AddStock(s, lot.product, 0, 0) == s.products;
    assert t == Shelf(AddStock(s, lot.product, 0, 0), s.lots[l := gone]);
    if LotOk(gone) {
      assert LotsOk(t.lots);
    } else {
      assert !LotOk(t.lots[l]);
    }
  }

  lemma AddLotKeeps(s: Shelf, p: nat, qty: int, expiry: Option<int>, at: int)
    requires ShelfOk(s) && p < |s.products| && qty >= 0
    ensures var t := AddLot(s, p, qty, expiry, at).value;
            ShelfOk(t) && t.lots == s.lots + [Lot(p, qty, 0, Active, expiry, at)] && |t.products| == |s.products|
  {
    var lot := Lot(p, qty, 0, Active, expiry, at);
    var t := AddLot(s, p, qty, expiry, at).value;
    forall r: nat
      ensures ActiveStock(t.lots, r) == ActiveStock(s.lots, r) + StockFn(r)(lot)
      ensures ActiveReserved(t.lots, r) == ActiveReserved(s.lots, r) + ReservedFn(r)(lot)
    {
      SumAppend(s.lots, lot, StockFn(r));
      SumAppend(s.lots, lot, ReservedFn(r));
    }
  }

  /** A product with no lots yet. */
  lemma AddProductKeeps(s: Shelf)
    requires ShelfOk(s)
    ensures ShelfOk(s.(products := s.products + [Product(0, 0)]))
  {
    var p := |s.products|;
    NoLots(s.lots, p);
  }

  lemma {:induction false} NoLots(lots: seq<Lot>, p: nat)
    requires forall l :: 0 <= l < |lots| ==> lots[l].product != p
    ensures ActiveStock(lots, p) == 0 && ActiveReserved(lots, p) == 0
  {
    if lots != [] { NoLots(lots[..|lots| - 1], p); }
  }

  // ---- Lists of lots ----

  lemma MovedTrans(a: Shelf, b: Shelf, c: Shelf)
    requires LotsMoved(a, b) && LotsMoved(b, c)
    ensures LotsMoved(a, c)
    ensures QuarantineKept(a, b) && QuarantineKept(b, c) ==> QuarantineKept(a, c)
  {
    forall l | 0 <= l < |a.lots| ensures LotMoved(a.lots[l], c.lots[l]) {
      assert LotMoved(a.lots[l], b.lots[l]) && LotMoved(b.lots[l], c.lots[l]);
    }
  }

  lemma {:induction false} VariancesKeep(s: Shelf, lines: seq<Variance>)
    requires ApplyVariances(s, lines).Ok?
    ensures var t := ApplyVariances(s, lines).value;
            (ShelfOk(s) ==> ShelfOk(t)) && LotsMoved(s, t) && QuarantineKept(s, t)
    decreases |lines|
  {
    if lines != [] {
      if lines[0].delta == 0 {
        VariancesKeep(s, lines[1..]);
      } else {
        var target := Max0(s.lots[lines[0].lot].remaining + lines[0].delta);
        var t := SetLotRemaining(s, lines[0].lot, target).value;
        SetLotKeeps(s, lines[0].lot, target);
        VariancesKeep(t, lines[1..]);
        MovedTrans(s, t, ApplyVariances(t, lines[1..]).value);
      }
    }
  }

  lemma {:induction false} QuarantineAllKeeps(s: Shelf, lots: seq<nat>)
    requires forall i :: 0 <= i < |lots| ==>
               && lots[i] < |s.lots| && s.lots[lots[i]].product < |s.products| && s.lots[lots[i]].reserved <= 0
               && (s.lots[lots[i]].status.Active? || s.lots[lots[i]].status.Quarantined?)
    ensures var t := QuarantineAll(s, lots);
            && (ShelfOk(s) ==> ShelfOk(t)) && LotsMoved(s, t) && QuarantineKept(s, t)
            && (forall i :: 0 <= i < |lots| ==> t.lots[lots[i]].status.Quarantined?)
            && (forall l :: 0 <= l < |s.lots| ==> t.lots[l].remaining == s.lots[l].remaining)
    decreases |lots|
  {
    if lots != [] {
      var l := lots[0];
      var u := if s.lots[l].status.Active? then LeaveSellableRollup(s, l, Quarantined) else s;
      if s.lots[l].status.Active? { LeaveKeeps(s, l, Quarantined); }
      hide ShelfOk, LeaveSellableRollup;
      forall i | 0 <= i < |lots[1..]|
        ensures var k := lots[1..][i];
                && k < |u.lots| && u.lots[k].product < |u.products| && u.lots[k].reserved <= 0
                && (u.lots[k].status.Active? || u.lots[k].status.Quarantined?)
      {
        assert lots[1..][i] == lots[i + 1];
      }
      QuarantineAllKeeps(u, lots[1..]);
      MovedTrans(s, u, QuarantineAll(u, lots[1..]));
    }
  }

  lemma {:induction false} ReturnLotsKeeps(s: Shelf, lots: seq<nat>)
    requires ShelfWf(s)
    ensures var t := ReturnLots(s, lots);
            && (ShelfOk(s) ==> ShelfOk(t)) && LotsMoved(s, t)
            && (forall l :: 0 <= l < |s.lots| && l !in lots ==> t.lots[l] == s.lots[l])
            && (forall l :: 0 <= l < |s.lots| ==> t.lots[l].remaining == s.lots[l].remaining)
    decreases |lots|
  {
    if lots != [] {
      if lots[0] < |s.lots| {
        ReturnKeeps(s, lots[0]);
        hide ShelfOk;
        var u := ReturnToSellableRollup(s, lots[0]);
        ReturnLotsKeeps(u, lots[1..]);
        MovedTrans(s, u, ReturnLots(u, lots[1..]));
      } else {
        ReturnLotsKeeps(s, lots[1..]);
      }
    }
  }

  /** Zeroing lots that are already withdrawn. */
  lemma {:induction false} DepleteLotsKeeps(s: Shelf, lots: seq<nat>)
    requires forall i :: 0 <= i < |lots| && lots[i] < |s.lots| ==> Withdrawn(s.lots[lots[i]].status)
    ensures var t := DepleteLots(s, lots);
            && (ShelfOk(s) ==> ShelfOk(t)) && LotsMoved(s, t)
            && (forall l :: 0 <= l < |s.lots| && l !in lots ==> t.lots[l] == s.lots[l])
    decreases |lots|
  {
    if lots != [] {
      if lots[0] < |s.lots| {
        var u := RecallDepleteLot(s, lots[0]);
        if ShelfOk(s) { RecallDepleteExact(s, lots[0]); }
        assert LotsMoved(s, u);
        forall i | 0 <= i < |lots[1..]| && lots[1..][i] < |u.lots| ensures Withdrawn(u.lots[lots[1..][i]].status) {
          assert lots[1..][i] == lots[i + 1];
        }
        hide ShelfOk;
        DepleteLotsKeeps(u, lots[1..]);
        MovedTrans(s, u, DepleteLots(u, lots[1..]));
      } else {
        forall i | 0 <= i < |lots[1..]| && lots[1..][i] < |s.lots| ensures Withdrawn(s.lots[lots[1..][i]].status) {
          assert lots[1..][i] == lots[i + 1];
        }
        DepleteLotsKeeps(s, lots[1..]);
      }
    }
  }

  /** Activating a recall keeps the shelf consistent exactly when none of its lots is back on sale
      with units or holds. */
  lemma {:induction false} DepleteLotsExact(s: Shelf, lots: seq<nat>)
    requires ShelfOk(s)
    ensures ShelfOk(DepleteLots(s, lots)) <==>
              forall i :: 0 <= i < |lots| && lots[i] < |s.lots| && s.lots[lots[i]].status.Active? ==>
                s.lots[lots[i]].remaining == 0 && s.lots[lots[i]].reserved == 0
    decreases |lots|
  {
    forall l | 0 <= l < |s.lots| ensures LotOk(s.lots[l]) {}
    if lots != [] {
      if lots[0] < |s.lots| {
        RecallDepleteExact(s, lots[0]);
        var u := RecallDepleteLot(s, lots[0]);
        if ShelfOk(u) {
          DepleteLotsExact(u, lots[1..]);
        } else {
          BrokenStays(s, lots);
        }
      } else {
        DepleteLotsExact(s, lots[1..]);
      }
    }
  }

  /** Units an activation drops from the shelf without telling the product row. */
  lemma {:induction false} BrokenStays(s: Shelf, lots: seq<nat>)
    requires ShelfWf(s) && lots != [] && lots[0] < |s.lots|
    requires s.lots[lots[0]].status.Active? && LotsOk(s.lots) && Rollup(s)
    requires s.lots[lots[0]].remaining > 0 || s.lots[lots[0]].reserved > 0
    ensures !ShelfOk(DepleteLots(s, lots))
  {
    var p := s.lots[lots[0]].product;
    var lot := s.lots[lots[0]];
    assert LotOk(lot);
    DepleteFalls(RecallDepleteLot(s, lots[0]), lots[1..], p);
    SumUpdate(s.lots, lots[0], lot.(status := Recalled, remaining := 0), StockFn(p));
  }

  lemma {:induction false} DepleteFalls(s: Shelf, lots: seq<nat>, p: nat)
    requires forall l :: 0 <= l < |s.lots| && s.lots[l].status.Active? ==> s.lots[l].remaining >= 0
    ensures DepleteLots(s, lots).products == s.products
    ensures ActiveStock(DepleteLots(s, lots).lots, p) <= ActiveStock(s.lots, p)
    decreases |lots|
  {
    if lots != [] {
      if lots[0] < |s.lots| {
        SumUpdate(s.lots, lots[0], s.lots[lots[0]].(status := Recalled, remaining := 0), StockFn(p));
        DepleteFalls(RecallDepleteLot(s, lots[0]), lots[1..], p);
      } else {
        DepleteFalls(s, lots[1..], p);
      }
    }
  }
}
