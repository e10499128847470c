/** The stock engine: what each of its operations does to the lot rows and to the cached
    Product.stock / Product.reserved, and when it keeps the cache equal to the lots. */
module StockEngine {
  import opened Outcome
  import opened Sums
  import opened Allocation
  import opened Lots

  datatype Product = Product(stock: int, reserved: int)

  /** The two tables every operation of the engine writes. */
  datatype Shelf = Shelf(products: seq<Product>, lots: seq<Lot>)

  predicate ShelfWf(s: Shelf) {
    forall l :: 0 <= l < |s.lots| ==> s.lots[l].product < |s.products|
  }

  /** Product.stock and Product.reserved equal the sums over the ACTIVE lots. */
  predicate Rollup(s: Shelf) {
    forall p: nat :: p < |s.products| ==>
      s.products[p] == Product(ActiveStock(s.lots, p), ActiveReserved(s.lots, p))
  }

  predicate ShelfOk(s: Shelf) { ShelfWf(s) && Rollup(s) && LotsOk(s.lots) }

  /** Allocation rows of one sale line of product `p`. */
  predicate Supplies(s: Shelf, p: nat, allocs: seq<Alloc>) {
    && p < |s.products|
    && InRange(s.lots, allocs) && Positive(allocs)
    && forall i :: 0 <= i < |allocs| ==> s.lots[allocs[i].lot].product == p
  }

  // ---- Operations ----

  function AddStock(s: Shelf, p: nat, stock: int, reserved: int): seq<Product>
    requires p < |s.products|
  {
    s.products[p := Product(s.products[p].stock + stock, s.products[p].reserved + reserved)]
  }

  function Reserve(s: Shelf, p: nat, allocs: seq<Alloc>): Shelf
    requires Supplies(s, p, allocs)
  {
    Shelf(AddStock(s, p, 0, Total(allocs)), ApplyAll(s.lots, allocs, ReserveOp))
  }

  /** Each of the first `n` rows finds its units reserved. */
  predicate HeldRows(lots: seq<Lot>, allocs: seq<Alloc>, n: nat)
    requires InRange(lots, allocs) && n <= |allocs|
  {
    n == 0
    || (HeldRows(lots, allocs, n - 1)
        && ApplyAll(lots, allocs[..n - 1], ReleaseOp)[allocs[n - 1].lot].reserved >= allocs[n - 1].qty)
  }

  /** Each of the first `n` rows finds its lot ACTIVE with that many units free. */
  predicate FreeRows(lots: seq<Lot>, allocs: seq<Alloc>, n: nat)
    requires InRange(lots, allocs) && n <= |allocs|
  {
    n == 0
    || (FreeRows(lots, allocs, n - 1)
        && FreeRow(ApplyAll(lots, allocs[..n - 1], ConsumeDirectOp)[allocs[n - 1].lot], allocs[n - 1].qty))
  }

  predicate FreeRow(lot: Lot, q: int) { lot.status.Active? && lot.remaining - lot.reserved >= q }

  predicate ReleaseGuard(s: Shelf, p: nat, allocs: seq<Alloc>)
    requires Supplies(s, p, allocs)
  {
    HeldRows(s.lots, allocs, |allocs|) && s.products[p].reserved >= Total(allocs)
  }

  /** Refuses with 500 when a reservation to release is not there. */
  function Release(s: Shelf, p: nat, allocs: seq<Alloc>): Result<Shelf>
    requires Supplies(s, p, allocs)
  {
    if ReleaseGuard(s, p, allocs)
    then Ok(Shelf(AddStock(s, p, 0, -Total(allocs)), ApplyAll(s.lots, allocs, ReleaseOp)))
    else Err(500)
  }

  /** Guarded on the product row only, as the engine is. */
  function ConsumeReserved(s: Shelf, p: nat, allocs: seq<Alloc>): Result<Shelf>
    requires Supplies(s, p, allocs)
  {
    if s.products[p].reserved >= Total(allocs) && s.products[p].stock >= Total(allocs)
    then Ok(Shelf(AddStock(s, p, -Total(allocs), -Total(allocs)), ApplyAll(s.lots, allocs, ConsumeReservedOp)))
    else Err(500)
  }

  /** Cash sales: no guard at all; availability was the planner's business. */
  function ConsumeDirect(s: Shelf, p: nat, allocs: seq<Alloc>): Shelf
    requires Supplies(s, p, allocs)
  {
    Shelf(AddStock(s, p, -Total(allocs), 0), ApplyAll(s.lots, allocs, ConsumeDirectOp))
  }

  predicate FreeGuard(s: Shelf, p: nat, allocs: seq<Alloc>)
    requires Supplies(s, p, allocs)
  {
    FreeRows(s.lots, allocs, |allocs|) && s.products[p].stock - s.products[p].reserved >= Total(allocs)
  }

  /** The last-chance claim: only free units of ACTIVE lots. */
  function ConsumeFree(s: Shelf, p: nat, allocs: seq<Alloc>): Result<Shelf>
    requires Supplies(s, p, allocs)
  {
    if FreeGuard(s, p, allocs) then Ok(ConsumeDirect(s, p, allocs)) else Err(409)
  }

  function SellableFn(locked: seq<Lot>): Alloc -> int {
    (a: Alloc) => if a.lot < |locked| && locked[a.lot].status.Quarantined? then 0 else a.qty
  }

  /** Units go back to the lots they came from. `locked` is the lots as the transaction locked them:
      the status tests read that copy, not the rows being written. */
  function Restock(s: Shelf, p: nat, locked: seq<Lot>, back: seq<Alloc>): Result<Shelf>
    requires Supplies(s, p, back) && |locked| == |s.lots|
  {
    if exists i :: 0 <= i < |back| && Terminal(locked[back[i].lot].status) then Err(409)
    else Ok(Shelf(AddStock(s, p, Sum(back, SellableFn(locked)), 0), ApplyAll(s.lots, back, RestockOp)))
  }

  function AddLot(s: Shelf, p: nat, qty: int, expiry: Option<int>, receivedAt: int): Result<Shelf>
    requires p < |s.products|
  {
    if qty < 0 then Err(400)
    else Ok(Shelf(AddStock(s, p, qty, 0), s.lots + [Lot(p, qty, 0, Active, expiry, receivedAt)]))
  }

  function NextStatus(lot: Lot, target: int): LotStatus {
    if lot.status.Active? && target == 0 then Depleted
    else if lot.status.Depleted? && target > 0 then Active
    else lot.status
  }

  /** Sets a lot to an absolute quantity (manual adjustment, count approval). */
  function SetLotRemaining(s: Shelf, l: nat, target: int): Result<Shelf>
    requires l < |s.lots| && s.lots[l].product < |s.products|
  {
    var lot := s.lots[l];
    if target < 0 then Err(400)
    else if lot.status.Active? && target < lot.reserved then Err(409)
    else
      var next := NextStatus(lot, target);
      var delta := (if next.Active? then target else 0) - (if lot.status.Active? then lot.remaining else 0);
      Ok(Shelf(AddStock(s, lot.product, delta, 0), s.lots[l := lot.(remaining := target, status := next)]))
  }

  /** Quarantine, expiry and recall initiation: the units stay on the row but leave the rollup. */
  function LeaveSellableRollup(s: Shelf, l: nat, next: LotStatus): Shelf
    requires l < |s.lots| && s.lots[l].product < |s.products|
  {
    var lot := s.lots[l];
    var off := if lot.status.Active? && lot.remaining > 0 then lot.remaining else 0;
    Shelf(AddStock(s, lot.product, -off, 0), s.lots[l := lot.(status := next)])
  }

  /** Recall activation never touches the product row: the quarantine already did. */
  function RecallDepleteLot(s: Shelf, l: nat): Shelf
    requires l < |s.lots|
  {
    s.(lots := s.lots[l := s.lots[l].(status := Recalled, remaining := 0)])
  }

  function ReturnToSellableRollup(s: Shelf, l: nat): Shelf
    requires l < |s.lots| && s.lots[l].product < |s.products|
  {
    var lot := s.lots[l];
    if !lot.status.Quarantined? then s
    else Shelf(AddStock(s, lot.product, if lot.remaining > 0 then lot.remaining else 0, 0),
               s.lots[l := lot.(status := Active)])
  }

  // ---- Lemmas on lists of allocations ----

  function ScaledFn(c: int): Alloc -> int { (a: Alloc) => if c == 0 then 0 else if c > 0 then a.qty else -a.qty }

  lemma {:induction false} SumScaled(allocs: seq<Alloc>, c: int)
    requires -1 <= c <= 1
    ensures Sum(allocs, ScaledFn(c)) == c * Total(allocs)
  {
    if allocs != [] { SumScaled(allocs[..|allocs| - 1], c); }
  }

  lemma OnPrefix(allocs: seq<Alloc>, k: nat, l: nat)
    requires k < |allocs| && Positive(allocs)
    ensures Positive(allocs[..k])
    ensures 0 <= On(allocs[..k], l)
    ensures On(allocs[..k], l) + (if allocs[k].lot == l then allocs[k].qty else 0) <= On(allocs, l)
  {
    var pre, post := allocs[..k], allocs[k + 1..];
    assert allocs == (pre + [allocs[k]]) + post;
    OnAppend(pre, allocs[k], l);
    OnConcat(pre + [allocs[k]], post, l);
    assert Positive(pre) && Positive(post);
    OnBounds(post, l);
    OnBounds(pre, l);
  }

  /** One list of same-product allocations shifts that product's totals and no other's. */
  lemma ShiftTotals(s: Shelf, p: nat, allocs: seq<Alloc>, op: (Lot, int) -> Lot, stock: int, reserved: int)
    requires Supplies(s, p, allocs) && -1 <= stock <= 1 && -1 <= reserved <= 1
    requires forall k :: 0 <= k < |allocs| ==>
               var lot := ApplyAll(s.lots, allocs[..k], op)[allocs[k].lot];
               var up := op(lot, allocs[k].qty);
               && lot.product == up.product == p
               && StockFn(p)(up) == StockFn(p)(lot) + ScaledFn(stock)(allocs[k])
               && ReservedFn(p)(up) == ReservedFn(p)(lot) + ScaledFn(reserved)(allocs[k])
    ensures var lots := ApplyAll(s.lots, allocs, op);
            forall r: nat ::
              && ActiveStock(lots, r) == ActiveStock(s.lots, r) + (if r == p then stock * Total(allocs) else 0)
              && ActiveReserved(lots, r) == ActiveReserved(s.lots, r) + (if r == p then reserved * Total(allocs) else 0)
  {
    var lots := ApplyAll(s.lots, allocs, op);
    forall r: nat
      ensures ActiveStock(lots, r) == ActiveStock(s.lots, r) + (if r == p then stock * Total(allocs) else 0)
      ensures ActiveReserved(lots, r) == ActiveReserved(s.lots, r) + (if r == p then reserved * Total(allocs) else 0)
    {
      var a, b := if r == p then stock else 0, if r == p then reserved else 0;
      ApplySum(s.lots, allocs, op, StockFn(r), ScaledFn(a));
      ApplySum(s.lots, allocs, op, ReservedFn(r), ScaledFn(b));
      SumScaled(allocs, a);
      SumScaled(allocs, b);
    }
  }

  // ---- The guards, row by row ----

  lemma HeldNext(lots: seq<Lot>, allocs: seq<Alloc>, k: nat)
    requires InRange(lots, allocs) && k < |allocs|
    ensures HeldRows(lots, allocs, k + 1)
       <==> HeldRows(lots, allocs, k) && ApplyAll(lots, allocs[..k], ReleaseOp)[allocs[k].lot].reserved >= allocs[k].qty
  {
    hide ApplyAll;
  }

  lemma FreeNext(lots: seq<Lot>, allocs: seq<Alloc>, k: nat)
    requires InRange(lots, allocs) && k < |allocs|
    ensures FreeRows(lots, allocs, k + 1)
       <==> (&& FreeRows(lots, allocs, k)
             && FreeRow(ApplyAll(lots, allocs[..k], ConsumeDirectOp)[allocs[k].lot], allocs[k].qty))
  {
    hide ApplyAll;
  }

  lemma {:induction false} HeldPrefix(lots: seq<Lot>, allocs: seq<Alloc>, n: nat)
    requires InRange(lots, allocs) && n <= |allocs| && !HeldRows(lots, allocs, n)
    ensures !HeldRows(lots, allocs, |allocs|)
    decreases |allocs| - n
  {
    if n < |allocs| { HeldPrefix(lots, allocs, n + 1); }
  }

  lemma {:induction false} FreePrefix(lots: seq<Lot>, allocs: seq<Alloc>, n: nat)
    requires InRange(lots, allocs) && n <= |allocs| && !FreeRows(lots, allocs, n)
    ensures !FreeRows(lots, allocs, |allocs|)
    decreases |allocs| - n
  {
    if n < |allocs| { FreePrefix(lots, allocs, n + 1); }
  }

  // ---- When an operation keeps the shelf consistent ----

  /** Holding free units of ACTIVE lots. */
  lemma ReserveKeeps(s: Shelf, p: nat, allocs: seq<Alloc>)
    requires ShelfOk(s) && Supplies(s, p, allocs)
    requires forall l: nat :: l < |s.lots| && On(allocs, l) > 0 ==>
               s.lots[l].status.Active? && On(allocs, l) <= s.lots[l].remaining - s.lots[l].reserved
    ensures ShelfOk(Reserve(s, p, allocs))
    ensures forall l: nat :: l < |s.lots| ==>
              Reserve(s, p, allocs).lots[l] == s.lots[l].(reserved := s.lots[l].reserved + On(allocs, l))
  {
    var t := Reserve(s, p, allocs);
    forall l: nat | l < |s.lots|
      ensures t.lots[l] == s.lots[l].(reserved := s.lots[l].reserved + On(allocs, l)) && LotOk(t.lots[l])
    {
      ReserveEffect(s.lots, allocs, l);
      OnBounds(allocs, l);
    }
    forall k | 0 <= k < |allocs|
      ensures s.lots[allocs[k].lot].status.Active?
      ensures ApplyAll(s.lots, allocs[..k], ReserveOp)[allocs[k].lot]
           == s.lots[allocs[k].lot].(reserved := s.lots[allocs[k].lot].reserved + On(allocs[..k], allocs[k].lot))
    {
      OnPrefix(allocs, k, allocs[k].lot);
      ReserveEffect(s.lots, allocs[..k], allocs[k].lot);
    }
    ShiftTotals(s, p, allocs, ReserveOp, 0, 1);
  }

  lemma TotalsNonNeg(lots: seq<Lot>, p: nat)
    requires LotsOk(lots)
    ensures ActiveStock(lots, p) >= 0 && ActiveReserved(lots, p) >= 0
  {
    SumNonNeg(lots, ReservedFn(p));
    SumNonNeg(lots, StockFn(p));
  }

  /** The allocations only draw on units that are reserved. */
  predicate Backed(lots: seq<Lot>, allocs: seq<Alloc>) {
    forall l: nat :: l < |lots| ==> On(allocs, l) <= lots[l].reserved
  }

  lemma {:induction false} BackedIsHeld(lots: seq<Lot>, allocs: seq<Alloc>, n: nat)
    requires InRange(lots, allocs) && Positive(allocs) && Backed(lots, allocs) && n <= |allocs|
    ensures HeldRows(lots, allocs, n)
  {
    if n > 0 {
      BackedIsHeld(lots, allocs, n - 1);
      OnPrefix(allocs, n - 1, allocs[n - 1].lot);
      ReleaseEffect(lots, allocs[..n - 1], allocs[n - 1].lot);
    }
  }

  lemma {:induction false} ReleaseTotals(s: Shelf, p: nat, allocs: seq<Alloc>)
    requires LotsOk(s.lots) && Supplies(s, p, allocs) && Backed(s.lots, allocs)
    ensures var lots := ApplyAll(s.lots, allocs, ReleaseOp);
            forall r: nat ::
              && ActiveStock(lots, r) == ActiveStock(s.lots, r)
              && ActiveReserved(lots, r) == ActiveReserved(s.lots, r) - (if r == p then Total(allocs) else 0)
  {
    forall k | 0 <= k < |allocs|
      ensures s.lots[allocs[k].lot].status.Active?
      ensures ApplyAll(s.lots, allocs[..k], ReleaseOp)[allocs[k].lot]
           == s.lots[allocs[k].lot].(reserved := s.lots[allocs[k].lot].reserved - On(allocs[..k], allocs[k].lot))
    {
      OnPrefix(allocs, k, allocs[k].lot);
      ReleaseEffect(s.lots, allocs[..k], allocs[k].lot);
    }
    ShiftTotals(s, p, allocs, ReleaseOp, 0, -1);
  }

  /** The held units of a PENDING sale, handed back. */
  lemma ReleaseKeeps(s: Shelf, p: nat, allocs: seq<Alloc>)
    requires ShelfOk(s) && Supplies(s, p, allocs) && Backed(s.lots, allocs)
    ensures Release(s, p, allocs).Ok? && ShelfOk(Release(s, p, allocs).value)
    ensures forall l: nat :: l < |s.lots| ==>
              Release(s, p, allocs).value.lots[l] == s.lots[l].(reserved := s.lots[l].reserved - On(allocs, l))
  {
    var lots := ApplyAll(s.lots, allocs, ReleaseOp);
    forall l: nat | l < |s.lots|
      ensures lots[l] == s.lots[l].(reserved := s.lots[l].reserved - On(allocs, l)) && LotOk(lots[l])
    {
      ReleaseEffect(s.lots, allocs, l);
      OnBounds(allocs, l);
    }
    ReleaseTotals(s, p, allocs);
    BackedIsHeld(s.lots, allocs, |allocs|);
    TotalsNonNeg(lots, p);
  }

  lemma ConsumeReservedTotals(s: Shelf, p: nat, allocs: seq<Alloc>)
    requires LotsOk(s.lots) && Supplies(s, p, allocs) && Backed(s.lots, allocs)
    ensures var lots := ApplyAll(s.lots, allocs, ConsumeReservedOp);
            forall r: nat ::
              && ActiveStock(lots, r) == ActiveStock(s.lots, r) - (if r == p then Total(allocs) else 0)
              && ActiveReserved(lots, r) == ActiveReserved(s.lots, r) - (if r == p then Total(allocs) else 0)
  {
    forall k | 0 <= k < |allocs|
      ensures s.lots[allocs[k].lot].status.Active?
      ensures ApplyAll(s.lots, allocs[..k], ConsumeReservedOp)[allocs[k].lot]
           == s.lots[allocs[k].lot].(remaining := s.lots[allocs[k].lot].remaining - On(allocs[..k], allocs[k].lot),
                                     reserved := s.lots[allocs[k].lot].reserved - On(allocs[..k], allocs[k].lot))
      ensures s.lots[allocs[k].lot].reserved - On(allocs[..k], allocs[k].lot) >= allocs[k].qty
    {
      OnPrefix(allocs, k, allocs[k].lot);
      ConsumeReservedEffect(s.lots, allocs[..k], allocs[k].lot);
    }
    ShiftTotals(s, p, allocs, ConsumeReservedOp, -1, -1);
  }

  /** A held reservation turned into a physical decrement: the product guards cannot fail. */
  lemma ConsumeReservedKeeps(s: Shelf, p: nat, allocs: seq<Alloc>)
    requires ShelfOk(s) && Supplies(s, p, allocs) && Backed(s.lots, allocs)
    ensures ConsumeReserved(s, p, allocs).Ok? && ShelfOk(ConsumeReserved(s, p, allocs).value)
    ensures forall l: nat :: l < |s.lots| ==>
              ConsumeReserved(s, p, allocs).value.lots[l] == Consumed(s.lots[l], On(allocs, l), On(allocs, l))
  {
    var lots := ApplyAll(s.lots, allocs, ConsumeReservedOp);
    forall l: nat | l < |s.lots|
      ensures lots[l] == Consumed(s.lots[l], On(allocs, l), On(allocs, l)) && LotOk(lots[l])
    {
      OnBounds(allocs, l);
      ConsumeReservedEffect(s.lots, allocs, l);
    }
    ConsumeReservedTotals(s, p, allocs);
    TotalsNonNeg(lots, p);
  }

  /** A cash sale of free units of ACTIVE lots. */
  lemma ConsumeDirectKeeps(s: Shelf, p: nat, allocs: seq<Alloc>)
    requires ShelfOk(s) && Supplies(s, p, allocs)
    requires forall l: nat :: l < |s.lots| && On(allocs, l) > 0 ==>
               s.lots[l].status.Active? && On(allocs, l) <= s.lots[l].remaining - s.lots[l].reserved
    ensures ShelfOk(ConsumeDirect(s, p, allocs))
    ensures forall l: nat :: l < |s.lots| ==>
              ConsumeDirect(s, p, allocs).lots[l] == Consumed(s.lots[l], On(allocs, l), 0)
  {
    var t := ConsumeDirect(s, p, allocs);
    forall l: nat | l < |s.lots|
      ensures t.lots[l] == Consumed(s.lots[l], On(allocs, l), 0) && LotOk(t.lots[l])
    {
      OnBounds(allocs, l);
      ConsumeDirectEffect(s.lots, allocs, l);
    }
    forall k | 0 <= k < |allocs|
      ensures s.lots[allocs[k].lot].status.Active?
      ensures ApplyAll(s.lots, allocs[..k], ConsumeDirectOp)[allocs[k].lot]
           == s.lots[allocs[k].lot].(remaining := s.lots[allocs[k].lot].remaining - On(allocs[..k], allocs[k].lot))
      ensures s.lots[allocs[k].lot].remaining - s.lots[allocs[k].lot].reserved
              >= On(allocs[..k], allocs[k].lot) + allocs[k].qty
    {
      OnPrefix(allocs, k, allocs[k].lot);
      ConsumeDirectEffect(s.lots, allocs[..k], allocs[k].lot);
    }
    ShiftTotals(s, p, allocs, ConsumeDirectOp, -1, 0);
  }

  lemma RestockStep(before: Lot, mid: Lot, q: int, p: nat, n: int)
    requires LotOk(before) && q > 0 && n >= 0 && before.product == p && !Terminal(before.status)
    requires mid == if n == 0 then before else RestockOp(before, n)
    ensures StockFn(p)(RestockOp(mid, q)) == StockFn(p)(mid) + (if before.status.Quarantined? then 0 else q)
    ensures ReservedFn(p)(RestockOp(mid, q)) == ReservedFn(p)(mid)
  {
  }

  /** The locked copy of the lots may be older than the rows only in this: an earlier line of the
      same refund has brought a DEPLETED lot back. */
  predicate LockedCopy(locked: seq<Lot>, lots: seq<Lot>) {
    && |locked| == |lots|
    && forall l :: 0 <= l < |locked| ==>
         locked[l].status == lots[l].status || (locked[l].status.Depleted? && lots[l].status.Active?)
  }

  lemma RestockTotals(s: Shelf, p: nat, locked: seq<Lot>, back: seq<Alloc>)
    requires LotsOk(s.lots) && Supplies(s, p, back) && LockedCopy(locked, s.lots)
    requires Restock(s, p, locked, back).Ok?
    ensures var lots := ApplyAll(s.lots, back, RestockOp);
            forall r: nat ::
              && ActiveStock(lots, r) == ActiveStock(s.lots, r) + (if r == p then Sum(back, SellableFn(locked)) else 0)
              && ActiveReserved(lots, r) == ActiveReserved(s.lots, r)
  {
    var lots := ApplyAll(s.lots, back, RestockOp);
    forall r: nat
      ensures ActiveStock(lots, r) == ActiveStock(s.lots, r) + (if r == p then Sum(back, SellableFn(locked)) else 0)
      ensures ActiveReserved(lots, r) == ActiveReserved(s.lots, r)
    {
      var delta := if r == p then SellableFn(locked) else ScaledFn(0);
      forall k | 0 <= k < |back|
        ensures var lot := ApplyAll(s.lots, back[..k], RestockOp)[back[k].lot];
                && StockFn(r)(RestockOp(lot, back[k].qty)) == StockFn(r)(lot) + delta(back[k])
                && ReservedFn(r)(RestockOp(lot, back[k].qty)) == ReservedFn(r)(lot) + ScaledFn(0)(back[k])
      {
        var l := back[k].lot;
        OnPrefix(back, k, l);
        RestockEffect(s.lots, back[..k], l);
        RestockStep(s.lots[l], ApplyAll(s.lots, back[..k], RestockOp)[l], back[k].qty, p, On(back[..k], l));
      }
      ApplySum(s.lots, back, RestockOp, StockFn(r), delta);
      ApplySum(s.lots, back, RestockOp, ReservedFn(r), ScaledFn(0));
      SumScaled(back, 0);
    }
  }

  /** A refund that is not refused puts every unit back where it came from. */
  lemma RestockKeeps(s: Shelf, p: nat, locked: seq<Lot>, back: seq<Alloc>)
    requires ShelfOk(s) && Supplies(s, p, back) && LockedCopy(locked, s.lots)
    requires Restock(s, p, locked, back).Ok?
    ensures ShelfOk(Restock(s, p, locked, back).value)
    ensures forall l: nat :: l < |s.lots| ==>
              Restock(s, p, locked, back).value.lots[l]
              == if On(back, l) == 0 then s.lots[l] else RestockOp(s.lots[l], On(back, l))
    ensures forall l: nat :: l < |s.lots| && On(back, l) > 0 ==> !Terminal(s.lots[l].status)
  {
    var lots := ApplyAll(s.lots, back, RestockOp);
    forall l: nat | l < |s.lots|
      ensures lots[l] == if On(back, l) == 0 then s.lots[l] else RestockOp(s.lots[l], On(back, l))
      ensures LotOk(lots[l]) && lots[l].product == s.lots[l].product
      ensures On(back, l) > 0 ==> !Terminal(s.lots[l].status)
    {
      OnBounds(back, l);
      RestockEffect(s.lots, back, l);
    }
    RestockTotals(s, p, locked, back);
  }
}
