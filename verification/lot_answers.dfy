/** What receiving, adjusting, counting, quarantining and recalling answer, and what they leave on the rows, and
    when the engine's guards fire. That the books stay in order through all of it is proved beside the
    operations; here is what each is asked for. */
module LotAnswers {
  import opened Outcome
  import opened Allocation
  import opened Lots
  import opened StockEngine
  import opened Fefo
  import opened Ledger

  /** Only the lots differ, and the products they are of. */
  predicate ShelfOnly(s: State, t: State) { t == s.(shelf := t.shelf) }

  /** Goods in: a new ACTIVE lot, with the expiry on the goods and nothing reserved, and as much more stock. */
  lemma ReceiveExact(s: State, p: nat, qty: int, expiry: Option<int>, at: int)
    ensures var r := Receive(s, p, qty, expiry, at);
            if p >= |s.shelf.products| then r == Err(404)
            else if qty < 0 then r == Err(400)
            else if qty == 0 then r == Ok(s)
            else
              && r.Ok? && ShelfOnly(s, r.value)
              && r.value.shelf.lots == s.shelf.lots + [Lot(p, qty, 0, Active, expiry, at)]
              && r.value.shelf.products
                 == s.shelf.products[p := Product(s.shelf.products[p].stock + qty, s.shelf.products[p].reserved)]
  {
  }

  /** What an adjustment to `quantity` makes of the lot: one that runs out is DEPLETED, a DEPLETED one that has
      units again is ACTIVE, and off sale it stays off sale. */
  predicate Adjusted(before: Lot, after: Lot, quantity: int) {
    && after == before.(remaining := quantity, status := after.status)
    && (before.status.Active? && quantity == 0 ==> after.status.Depleted?)
    && (before.status.Depleted? && quantity > 0 ==> after.status.Active?)
    && (!(before.status.Active? && quantity == 0) && !(before.status.Depleted? && quantity > 0) ==>
          after.status == before.status)
  }

  /** A lot is not adjusted below what customers hold of it, nor to what it already holds. */
  lemma AdjustExact(s: State, l: nat, quantity: int)
    requires ShelfWf(s.shelf)
    ensures var r := AdjustLot(s, l, quantity);
            if quantity < 0 then r == Err(400)
            else if l >= |s.shelf.lots| then r == Err(404)
            else
              var lot := s.shelf.lots[l];
              if lot.status.Active? && quantity < lot.reserved then r == Err(409)
              else if quantity == lot.remaining then r == Err(400)
              else
                && r.Ok? && ShelfOnly(s, r.value) && |r.value.shelf.lots| == |s.shelf.lots|
                && r.value.shelf.lots == s.shelf.lots[l := r.value.shelf.lots[l]]
                && Adjusted(lot, r.value.shelf.lots[l], quantity)
  {
  }

  function AfterDelta(lot: Lot, delta: int): int { if lot.remaining + delta < 0 then 0 else lot.remaining + delta }

  /** Some line would take its lot below what customers hold of it. */
  predicate SomeShort(lots: seq<Lot>, lines: seq<Variance>) {
    exists i :: 0 <= i < |lines| && lines[i].delta != 0 && lines[i].lot < |lots| && lots[lines[i].lot].status.Active?
                && AfterDelta(lots[lines[i].lot], lines[i].delta) < lots[lines[i].lot].reserved
  }

  predicate LinesFit(lots: seq<Lot>, lines: seq<Variance>) {
    && (forall i :: 0 <= i < |lines| ==> lines[i].lot < |lots|)
    && (forall i, j :: 0 <= i < j < |lines| ==> lines[i].lot != lines[j].lot)
  }

  /** Each lot with a difference is at its new quantity, and every other lot as it was. */
  predicate Counted(a: seq<Lot>, b: seq<Lot>, lines: seq<Variance>)
    requires LinesFit(a, lines)
  {
    && |b| == |a|
    && (forall i :: 0 <= i < |lines| && lines[i].delta != 0 ==>
          Adjusted(a[lines[i].lot], b[lines[i].lot], AfterDelta(a[lines[i].lot], lines[i].delta)))
    && (forall l :: 0 <= l < |a| && (forall i :: 0 <= i < |lines| && lines[i].delta != 0 ==> lines[i].lot != l) ==>
          b[l] == a[l])
  }

  lemma OneLine(s: Shelf, lines: seq<Variance>)
    requires ShelfWf(s) && LinesFit(s.lots, lines) && lines != []
    ensures LinesFit(s.lots, lines[1..])
    ensures lines[0].delta != 0 ==>
              var l := lines[0].lot;
              var r := SetLotRemaining(s, l, AfterDelta(s.lots[l], lines[0].delta));
              && (r.Err? <==> s.lots[l].status.Active? && AfterDelta(s.lots[l], lines[0].delta) < s.lots[l].reserved)
              && (r.Err? ==> r == Err(409))
              && (r.Ok? ==>
                    && ShelfWf(r.value) && |r.value.lots| == |s.lots|
                    && r.value.lots == s.lots[l := r.value.lots[l]]
                    && Adjusted(s.lots[l], r.value.lots[l], AfterDelta(s.lots[l], lines[0].delta))
                    && LinesFit(r.value.lots, lines[1..]))
  {
  }

  lemma RestShort(lots: seq<Lot>, next: seq<Lot>, lines: seq<Variance>)
    requires LinesFit(lots, lines) && lines != [] && |next| == |lots|
    requires forall l :: 0 <= l < |lots| && l != lines[0].lot ==> next[l] == lots[l]
    ensures SomeShort(lots, lines) <==> SomeShort(lots, [lines[0]]) || SomeShort(next, lines[1..])
  {
    assert forall i :: 0 <= i < |lines[1..]| ==> lines[1..][i] == lines[i + 1] && lines[i + 1].lot != lines[0].lot;
    if SomeShort(lots, lines) && !SomeShort(lots, [lines[0]]) {
      var i :| 0 <= i < |lines| && lines[i].delta != 0 && lots[lines[i].lot].status.Active?
        && AfterDelta(lots[lines[i].lot], lines[i].delta) < lots[lines[i].lot].reserved;
      assert i > 0 by { assert [lines[0]][0] == lines[0]; }
      assert lines[1..][i - 1] == lines[i];
    }
    if SomeShort(lots, [lines[0]]) { assert [lines[0]][0] == lines[0]; }
  }

  lemma RestCounted(a: seq<Lot>, next: seq<Lot>, b: seq<Lot>, lines: seq<Variance>)
    requires LinesFit(a, lines) && lines != [] && |next| == |a| && LinesFit(next, lines[1..])
    requires forall l :: 0 <= l < |a| && l != lines[0].lot ==> next[l] == a[l]
    requires if lines[0].delta == 0 then next == a
             else Adjusted(a[lines[0].lot], next[lines[0].lot], AfterDelta(a[lines[0].lot], lines[0].delta))
    requires Counted(next, b, lines[1..])
    ensures Counted(a, b, lines)
  {
    hide Adjusted;
    forall i | 0 <= i < |lines[1..]| ensures lines[1..][i] == lines[i + 1] && lines[i + 1].lot != lines[0].lot {}
    assert b[lines[0].lot] == next[lines[0].lot];
    forall i | 0 <= i < |lines| && lines[i].delta != 0
      ensures Adjusted(a[lines[i].lot], b[lines[i].lot], AfterDelta(a[lines[i].lot], lines[i].delta))
    {
      if i > 0 { assert lines[1..][i - 1] == lines[i]; }
    }
  }

  lemma {:induction false} VariancesExact(s: Shelf, lines: seq<Variance>)
    requires ShelfWf(s) && LinesFit(s.lots, lines)
    ensures var r := ApplyVariances(s, lines);
            if SomeShort(s.lots, lines) then r == Err(409) else r.Ok? && Counted(s.lots, r.value.lots, lines)
    decreases |lines|
  {
    if lines != [] {
      OneLine(s, lines);
      var l, target := lines[0].lot, AfterDelta(s.lots[lines[0].lot], lines[0].delta);
      var first := SetLotRemaining(s, l, target);
      assert target == Max0(s.lots[l].remaining + lines[0].delta);
      assert SomeShort(s.lots, [lines[0]]) <==> lines[0].delta != 0 && first.Err? by {
        assert [lines[0]][0] == lines[0];
      }
      hide SetLotRemaining, SomeShort, LinesFit, Counted, Adjusted, AfterDelta;
      if lines[0].delta == 0 || first.Ok? {
        var next := if lines[0].delta == 0 then s else first.value;
        VariancesExact(next, lines[1..]);
        RestShort(s.lots, next.lots, lines);
        if !SomeShort(s.lots, lines) {
          RestCounted(s.lots, next.lots, ApplyVariances(next, lines[1..]).value.lots, lines);
        }
      } else {
        RestShort(s.lots, s.lots, lines);
      }
    }
  }

  /** The whole answer to the approval of a count of distinct lots: refused with a difference on a lot in
      quarantine or recalled, unless that is overridden, and with one that would take a lot below what
      customers hold; else every lot with a difference is moved by it from where it stands, to nothing at
      the least. */
  lemma ApprovalExact(s: State, lines: seq<Variance>, overrideBlocked: bool)
    requires ShelfWf(s.shelf) && LinesFit(s.shelf.lots, lines)
    ensures var r := ApproveVariances(s, lines, overrideBlocked);
            var blocked := exists i :: 0 <= i < |lines| && lines[i].delta != 0
                                 && (s.shelf.lots[lines[i].lot].status.Quarantined?
                                     || s.shelf.lots[lines[i].lot].status.Recalled?);
            if (blocked && !overrideBlocked) || SomeShort(s.shelf.lots, lines) then r == Err(409)
            else r.Ok? && ShelfOnly(s, r.value) && Counted(s.shelf.lots, r.value.shelf.lots, lines)
  {
    VariancesExact(s.shelf, lines);
    hide ApplyVariances, SomeShort, Counted;
  }

  /** An ACTIVE lot nobody holds units of goes into quarantine with all it has, and leaves the stock. */
  lemma QuarantineExact(s: State, l: nat)
    requires ShelfWf(s.shelf)
    ensures var r := QuarantineLot(s, l);
            if l >= |s.shelf.lots| then r == Err(404)
            else
              var lot := s.shelf.lots[l];
              if lot.status.Quarantined? then r == Ok(s)
              else if !lot.status.Active? || lot.reserved > 0 then r == Err(409)
              else
                && r.Ok? && ShelfOnly(s, r.value)
                && r.value.shelf.lots == s.shelf.lots[l := lot.(status := Quarantined)]
                && |r.value.shelf.products| == |s.shelf.products|
                && forall p :: 0 <= p < |s.shelf.products| ==>
                     r.value.shelf.products[p].stock
                     == s.shelf.products[p].stock
                        - (if p == lot.product && lot.remaining > 0 then lot.remaining else 0)
  {
  }

  lemma {:induction false} QuarantineAllRows(s: Shelf, lots: seq<nat>)
    requires ShelfWf(s)
    ensures ShelfWf(QuarantineAll(s, lots)) && |QuarantineAll(s, lots).lots| == |s.lots|
    ensures forall l: nat :: l < |s.lots| ==>
              QuarantineAll(s, lots).lots[l]
              == if l in lots && s.lots[l].status.Active? then s.lots[l].(status := Quarantined) else s.lots[l]
    decreases |lots|
  {
    if lots != [] {
      var next := if lots[0] < |s.lots| && s.lots[lots[0]].status.Active?
                  then LeaveSellableRollup(s, lots[0], Quarantined) else s;
      assert lots == [lots[0]] + lots[1..];
      QuarantineAllRows(next, lots[1..]);
    }
  }

  lemma {:induction false} DepleteRows(s: Shelf, lots: seq<nat>)
    ensures DepleteLots(s, lots).products == s.products && |DepleteLots(s, lots).lots| == |s.lots|
    ensures forall l: nat :: l < |s.lots| ==>
              DepleteLots(s, lots).lots[l]
              == if l in lots then s.lots[l].(status := Recalled, remaining := 0) else s.lots[l]
    decreases |lots|
  {
    if lots != [] {
      assert lots == [lots[0]] + lots[1..];
      DepleteRows(if lots[0] < |s.lots| then RecallDepleteLot(s, lots[0]) else s, lots[1..]);
    }
  }

  lemma {:induction false} ReturnRows(s: Shelf, lots: seq<nat>)
    requires ShelfWf(s)
    ensures |ReturnLots(s, lots).lots| == |s.lots|
    ensures forall l: nat :: l < |s.lots| ==>
              ReturnLots(s, lots).lots[l]
              == if l in lots && s.lots[l].status.Quarantined? then s.lots[l].(status := Active) else s.lots[l]
    decreases |lots|
  {
    if lots != [] {
      assert lots == [lots[0]] + lots[1..];
      ReturnRows(if lots[0] < |s.lots| then ReturnToSellableRollup(s, lots[0]) else s, lots[1..]);
    }
  }

  /** A recall is drafted for lots on sale or in quarantine of which nobody holds units, and takes the former
      off sale, with all they have. */
  lemma InitiateExact(s: State, lots: seq<nat>)
    requires ShelfWf(s.shelf)
    ensures var r := InitiateRecall(s, lots);
            if lots == [] then r == Err(400)
            else if exists i :: 0 <= i < |lots| && lots[i] >= |s.shelf.lots| then r == Err(404)
            else if exists i :: 0 <= i < |lots| && (s.shelf.lots[lots[i]].reserved > 0
                        || !(s.shelf.lots[lots[i]].status.Active? || s.shelf.lots[lots[i]].status.Quarantined?))
            then r == Err(409)
            else
              && r.Ok? && r.value == s.(shelf := r.value.shelf, recalls := s.recalls + [Recall(Draft, lots)])
              && |r.value.shelf.lots| == |s.shelf.lots|
              && forall l: nat :: l < |s.shelf.lots| ==>
                   r.value.shelf.lots[l]
                   == if l in lots then s.shelf.lots[l].(status := Quarantined) else s.shelf.lots[l]
  {
    hide QuarantineAll;
    QuarantineAllRows(s.shelf, lots);
    assert forall i :: 0 <= i < |lots| ==> lots[i] in lots;
  }

  /** Activating a DRAFT recall: its lots are RECALLED with nothing left of them, no product row is touched. */
  lemma ActivateExact(s: State, r: nat)
    ensures var a := ActivateRecall(s, r);
            if r >= |s.recalls| then a == Err(404)
            else if !s.recalls[r].status.Draft? then a == Err(409)
            else
              && a.Ok? && |a.value.shelf.lots| == |s.shelf.lots| && a.value.shelf.products == s.shelf.products
              && a.value == s.(shelf := a.value.shelf, recalls := s.recalls[r := Recall(Live, s.recalls[r].lots)])
              && forall l: nat :: l < |s.shelf.lots| ==>
                   a.value.shelf.lots[l] == if l in s.recalls[r].lots
                                            then s.shelf.lots[l].(status := Recalled, remaining := 0)
                                            else s.shelf.lots[l]
  {
    hide DepleteLots;
    if r < |s.recalls| { DepleteRows(s.shelf, s.recalls[r].lots); }
  }

  /** Cancelling one: those of its lots that are in quarantine are on sale again, with all they have. */
  lemma CancelExact(s: State, r: nat)
    requires ShelfWf(s.shelf)
    ensures var a := CancelRecall(s, r);
            if r >= |s.recalls| then a == Err(404)
            else if !s.recalls[r].status.Draft? then a == Err(409)
            else
              && a.Ok? && |a.value.shelf.lots| == |s.shelf.lots|
              && a.value == s.(shelf := a.value.shelf, recalls := s.recalls[r := Recall(Cancelled, s.recalls[r].lots)])
              && forall l: nat :: l < |s.shelf.lots| ==>
                   a.value.shelf.lots[l] == if l in s.recalls[r].lots && s.shelf.lots[l].status.Quarantined?
                                            then s.shelf.lots[l].(status := Active) else s.shelf.lots[l]
  {
    hide ReturnLots;
    if r < |s.recalls| { ReturnRows(s.shelf, s.recalls[r].lots); }
  }

  // ---- The engine's own guards ----

  lemma {:induction false} HeldIsBacked(lots: seq<Lot>, allocs: seq<Alloc>, n: nat)
    requires InRange(lots, allocs) && Positive(allocs) && n <= |allocs| && HeldRows(lots, allocs, n)
    requires forall l :: 0 <= l < |lots| ==> lots[l].reserved >= 0
    ensures forall l: nat :: l < |lots| ==> On(allocs[..n], l) <= lots[l].reserved
  {
    if n > 0 {
      HeldIsBacked(lots, allocs, n - 1);
      forall l: nat | l < |lots| ensures On(allocs[..n], l) <= lots[l].reserved {
        NextOn(allocs, n, l);
        ReleaseEffect(lots, allocs[..n - 1], l);
      }
    } else {
      assert allocs[..0] == [];
    }
  }

  lemma NextOn(allocs: seq<Alloc>, n: nat, l: nat)
    requires 0 < n <= |allocs| && Positive(allocs)
    ensures On(allocs[..n], l) == On(allocs[..n - 1], l) + (if allocs[n - 1].lot == l then allocs[n - 1].qty else 0)
    ensures On(allocs[..n - 1], l) >= 0 && Positive(allocs[..n - 1])
  {
    assert allocs[..n] == allocs[..n - 1] + [allocs[n - 1]];
    OnAppend(allocs[..n - 1], allocs[n - 1], l);
    OnBounds(allocs[..n - 1], l);
  }

  /** Letting go of units is refused with 500 exactly when some lot, or the product, has fewer of them reserved. */
  lemma ReleaseExact(s: Shelf, p: nat, allocs: seq<Alloc>)
    requires Supplies(s, p, allocs) && forall l :: 0 <= l < |s.lots| ==> s.lots[l].reserved >= 0
    ensures Release(s, p, allocs).Ok? <==>
              && (forall l: nat :: l < |s.lots| ==> On(allocs, l) <= s.lots[l].reserved)
              && Total(allocs) <= s.products[p].reserved
    ensures Release(s, p, allocs).Err? ==> Release(s, p, allocs) == Err(500)
  {
    assert allocs[..|allocs|] == allocs;
    if HeldRows(s.lots, allocs, |allocs|) { HeldIsBacked(s.lots, allocs, |allocs|); }
    if Backed(s.lots, allocs) { BackedIsHeld(s.lots, allocs, |allocs|); }
  }

  /** The lots of the first `n` rows are on sale with that many units that nobody holds. */
  predicate Unheld(lots: seq<Lot>, allocs: seq<Alloc>) {
    forall l: nat :: l < |lots| && On(allocs, l) > 0 ==>
      lots[l].status.Active? && On(allocs, l) <= lots[l].remaining - lots[l].reserved
  }

  /** One row after others that found their units: it finds its own exactly when the lot has both. */
  lemma FreeAfter(lots: seq<Lot>, allocs: seq<Alloc>, n: nat)
    requires InRange(lots, allocs) && Positive(allocs) && 0 < n <= |allocs| && Unheld(lots, allocs[..n - 1])
    requires forall l :: 0 <= l < |lots| ==> lots[l].reserved >= 0
    ensures var l := allocs[n - 1].lot;
            FreeRow(ApplyAll(lots, allocs[..n - 1], ConsumeDirectOp)[l], allocs[n - 1].qty) <==>
              lots[l].status.Active? && On(allocs[..n], l) <= lots[l].remaining - lots[l].reserved
  {
    var l := allocs[n - 1].lot;
    NextOn(allocs, n, l);
    var before := allocs[..n - 1];
    if On(before, l) == 0 {
      ApplyFrame(lots, before, ConsumeDirectOp, l);
    } else {
      ConsumeDirectEffect(lots, before, l);
    }
  }

  lemma {:induction false} FreeIsUnheld(lots: seq<Lot>, allocs: seq<Alloc>, n: nat)
    requires InRange(lots, allocs) && Positive(allocs) && n <= |allocs|
    requires forall l :: 0 <= l < |lots| ==> lots[l].reserved >= 0
    ensures FreeRows(lots, allocs, n) <==> Unheld(lots, allocs[..n])
  {
    if n == 0 {
      assert allocs[..0] == [];
    } else {
      FreeIsUnheld(lots, allocs, n - 1);
      forall l: nat | l < |lots|
        ensures On(allocs[..n], l)
             == On(allocs[..n - 1], l) + (if allocs[n - 1].lot == l then allocs[n - 1].qty else 0)
        ensures On(allocs[..n - 1], l) >= 0
      {
        NextOn(allocs, n, l);
      }
      hide On, FreeRow, ApplyAll;
      if Unheld(lots, allocs[..n - 1]) { FreeAfter(lots, allocs, n); }
    }
  }

  /** The last-chance claim of a paid sale is granted exactly when its lots are on sale with all of its units
      unheld, and the product has that many too; else it is refused with 409. */
  lemma LastChanceExact(s: Shelf, p: nat, allocs: seq<Alloc>)
    requires Supplies(s, p, allocs) && forall l :: 0 <= l < |s.lots| ==> s.lots[l].reserved >= 0
    ensures ConsumeFree(s, p, allocs).Ok? <==>
              Unheld(s.lots, allocs) && Total(allocs) <= s.products[p].stock - s.products[p].reserved
    ensures ConsumeFree(s, p, allocs).Err? ==> ConsumeFree(s, p, allocs) == Err(409)
  {
    assert allocs[..|allocs|] == allocs;
    FreeIsUnheld(s.lots, allocs, |allocs|);
  }
}
