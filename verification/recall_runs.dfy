/** Quarantine, recall and expiry over whole runs. What is withdrawn holds nobody's units, a recalled or
    expired lot never comes back, and no sale or refund touches it. The one condition is on recalls: none
    is started on a lot that another DRAFT recall still holds. Offline sales may overdraw what they like. */
module RecallRuns {
  import opened Outcome
  import opened Sums
  import opened Allocation
  import opened Lots
  import opened StockEngine
  import opened Fefo
  import opened Checkout
  import opened Ledger
  import opened LedgerInvariant
  import opened LotSteps
  import opened SaleSteps
  import opened CartPlans
  import opened PaymentSteps
  import opened Holds
  import opened RefundSteps
  import opened RefundProtocol
  import opened EveryRun

  /** No quarantined, recalled or expired lot has units reserved. */
  predicate Sealed(s: Shelf) {
    forall l :: 0 <= l < |s.lots| && Withdrawn(s.lots[l].status) ==> s.lots[l].reserved <= 0
  }

  predicate SealedOk(s: State) { HoldsOk(s) && RecallsOk(s) && Sealed(s.shelf) }

  /** Books in order are such a state. */
  lemma InvSeals(s: State)
    requires Inv(s)
    ensures SealedOk(s)
  {
    InvHolds(s);
    forall l | 0 <= l < |s.shelf.lots| && Withdrawn(s.shelf.lots[l].status) ensures s.shelf.lots[l].reserved <= 0 {
      assert LotOk(s.shelf.lots[l]);
    }
  }

  // ---- Sales stay off withdrawn lots ----

  /** A lot of which a sale took, held, gave or let go `n` units. */
  predicate LotUsed(a: Lot, b: Lot, n: int) {
    && n >= 0 && (n == 0 ==> b == a)
    && b.product == a.product && (b.status == a.status || b.status.Depleted?)
  }

  lemma {:induction false} UsedAt(lots: seq<Lot>, allocs: seq<Alloc>, op: (Lot, int) -> Lot, l: nat)
    requires InRange(lots, allocs) && Positive(allocs) && l < |lots|
    requires op == ReserveOp || op == ReleaseOp || op == ConsumeReservedOp || op == ConsumeDirectOp
    ensures LotUsed(lots[l], ApplyAll(lots, allocs, op)[l], On(allocs, l))
  {
    OnBounds(allocs, l);
    ApplyFrame(lots, allocs, op, l);
    StatusAfter(lots, allocs, op, l);
  }

  lemma {:induction false} StatusAfter(lots: seq<Lot>, allocs: seq<Alloc>, op: (Lot, int) -> Lot, l: nat)
    requires InRange(lots, allocs) && l < |lots|
    requires op == ReserveOp || op == ReleaseOp || op == ConsumeReservedOp || op == ConsumeDirectOp
    ensures var a, b := lots[l], ApplyAll(lots, allocs, op)[l];
            b.product == a.product && (b.status == a.status || b.status.Depleted?)
  {
    if allocs != [] { StatusAfter(lots, allocs[..|allocs| - 1], op, l); }
  }

  lemma UsedTwice(a: Lot, b: Lot, c: Lot, items: seq<SaleItem>, l: nat)
    requires items != [] && LotUsed(a, b, On(items[0].allocs, l)) && LotUsed(b, c, Units(items[1..], l))
    ensures LotUsed(a, c, Units(items, l))
  {
    ItemsCons(items, l);
  }

  lemma {:induction false} TakeUses(shelf: Shelf, items: seq<SaleItem>, cash: bool, l: nat)
    requires TakeItems(shelf, items, cash).Ok? && l < |shelf.lots|
    ensures var t := TakeItems(shelf, items, cash).value;
            l < |t.lots| && LotUsed(shelf.lots[l], t.lots[l], Units(items, l))
    decreases |items|
  {
    if items != [] {
      var p, allocs := items[0].product, items[0].allocs;
      var next := if cash then ConsumeDirect(shelf, p, allocs) else Reserve(shelf, p, allocs);
      UsedAt(shelf.lots, allocs, if cash then ConsumeDirectOp else ReserveOp, l);
      TakeUses(next, items[1..], cash, l);
      UsedTwice(shelf.lots[l], next.lots[l], TakeItems(next, items[1..], cash).value.lots[l], items, l);
    }
  }

  lemma {:induction false} ReleaseUses(shelf: Shelf, items: seq<SaleItem>, l: nat)
    requires ReleaseItems(shelf, items).Ok? && l < |shelf.lots|
    ensures var t := ReleaseItems(shelf, items).value;
            l < |t.lots| && LotUsed(shelf.lots[l], t.lots[l], Units(items, l))
    decreases |items|
  {
    if items != [] {
      var next := Release(shelf, items[0].product, items[0].allocs).value;
      UsedAt(shelf.lots, items[0].allocs, ReleaseOp, l);
      ReleaseUses(next, items[1..], l);
      UsedTwice(shelf.lots[l], next.lots[l], ReleaseItems(next, items[1..]).value.lots[l], items, l);
    }
  }

  lemma {:induction false} FinalizeUses(shelf: Shelf, locked: seq<Lot>, items: seq<SaleItem>, l: nat)
    requires FinalizeItems(shelf, locked, items).Ok? && l < |shelf.lots|
    ensures var t := FinalizeItems(shelf, locked, items).value;
            l < |t.lots| && LotUsed(shelf.lots[l], t.lots[l], Units(items, l))
    decreases |items|
  {
    if items != [] {
      var next := FinalizeItem(shelf, locked, items[0]).value;
      UsedAt(shelf.lots, items[0].allocs,
             if Intact(locked, items[0].allocs) then ConsumeReservedOp else ConsumeDirectOp, l);
      FinalizeUses(next, locked, items[1..], l);
      UsedTwice(shelf.lots[l], next.lots[l], FinalizeItems(next, locked, items[1..]).value.lots[l], items, l);
    }
  }

  /** A sale with nothing on withdrawn lots leaves them alone. */
  lemma UsedIsMoved(a: Shelf, b: Shelf, items: seq<SaleItem>)
    requires SameShape(a, b)
    requires forall l: nat :: l < |a.lots| ==> LotUsed(a.lots[l], b.lots[l], Units(items, l))
    requires forall l: nat :: l < |a.lots| && Withdrawn(a.lots[l].status) ==> Units(items, l) == 0
    ensures SaleMoved(a, b)
  {
    forall l: nat | l < |a.lots|
      ensures Withdrawn(a.lots[l].status) || Withdrawn(b.lots[l].status) ==> b.lots[l] == a.lots[l]
    {
      assert LotUsed(a.lots[l], b.lots[l], Units(items, l));
    }
  }

  lemma PlannedOffWithdrawn(lots: seq<Lot>, cart: seq<CartLine>, plans: seq<seq<Alloc>>, taxRate: nat, l: nat)
    requires |cart| == |plans| && PlansFit(lots, cart, plans) && l < |lots| && !lots[l].status.Active?
    ensures Units(ItemsOf(cart, plans, taxRate), l) == 0
  {
    var items := ItemsOf(cart, plans, taxRate);
    forall i | 0 <= i < |items| ensures ItemOnFn(l)(items[i]) == 0 { NoneOn(plans[i], l); }
    AllZero(items, ItemOnFn(l));
  }

  lemma PlannedMoves(shelf: Shelf, cart: seq<CartLine>, plans: seq<seq<Alloc>>, taxRate: nat, cash: bool)
    requires HoldsWf(shelf) && |cart| == |plans| && PlansFit(shelf.lots, cart, plans)
    requires TakeItems(shelf, ItemsOf(cart, plans, taxRate), cash).Ok?
    ensures SaleMoved(shelf, TakeItems(shelf, ItemsOf(cart, plans, taxRate), cash).value)
  {
    hide TakeItems, SaleMoved, PlansFit, HoldsWf, ItemsOf, LotUsed;
    var items := ItemsOf(cart, plans, taxRate);
    TakeHolds(shelf, items, cash);
    var t := TakeItems(shelf, items, cash).value;
    forall l: nat | l < |shelf.lots| ensures LotUsed(shelf.lots[l], t.lots[l], Units(items, l)) {
      TakeUses(shelf, items, cash, l);
    }
    forall l: nat | l < |shelf.lots| && Withdrawn(shelf.lots[l].status) ensures Units(items, l) == 0 {
      PlannedOffWithdrawn(shelf.lots, cart, plans, taxRate, l);
    }
    UsedIsMoved(shelf, t, items);
  }

  lemma CreateMoves(s: State, cart: seq<CartLine>, terms: StoreTerms, cash: bool, offline: bool, key: Option<string>,
                    now: int)
    requires HoldsWf(s.shelf) && CreateSale(s, cart, terms, cash, offline, key, now).Ok?
    ensures var t := CreateSale(s, cart, terms, cash, offline, key, now).value;
            SaleMoved(s.shelf, t.shelf) && t.recalls == s.recalls
  {
    if !(key.Some? && HasKey(s.sales, key.value)) {
      CreateGranted(s, cart, terms, cash, offline, key, now);
      hide CreateSale, PlanCart, TakeItems, SaleMoved, PlansFit, HoldsWf;
      var plans := PlanCart(s.shelf.lots, cart, ZeroTaken(|s.shelf.lots|), offline).value;
      PlanCartFits(s.shelf.lots, cart, ZeroTaken(|s.shelf.lots|), offline);
      PlannedMoves(s.shelf, cart, plans, terms.taxRate, cash);
    }
  }

  /** A PENDING sale has nothing on a withdrawn lot. */
  lemma PendingOffWithdrawn(s: State, id: nat, l: nat)
    requires SealedOk(s) && id < |s.sales| && s.sales[id].status.Pending?
    requires l < |s.shelf.lots| && Withdrawn(s.shelf.lots[l].status)
    ensures Units(s.sales[id].items, l) == 0
  {
    HeldNonNeg(s.shelf, s.sales, l);
    assert HeldFn(l)(s.sales[id]) == Units(s.sales[id].items, l);
  }

  lemma PayMoves(s: State, id: nat, now: int)
    requires SealedOk(s) && FinalizePaidSale(s, id, now).Ok?
    ensures var t := FinalizePaidSale(s, id, now).value;
            SaleMoved(s.shelf, t.shelf) && t.recalls == s.recalls
  {
    if s.sales[id].status.Pending? {
      var items := s.sales[id].items;
      PendingSettles(s, id);
      PayLinesExact(s.shelf, s.shelf.lots, items);
      var shelf := FinalizeItems(s.shelf, s.shelf.lots, items).value;
      hide SealedOk, Settling, FinalizeItems, SaleMoved;
      forall l: nat | l < |s.shelf.lots| ensures LotUsed(s.shelf.lots[l], shelf.lots[l], Units(items, l)) {
        FinalizeUses(s.shelf, s.shelf.lots, items, l);
      }
      forall l: nat | l < |s.shelf.lots| && Withdrawn(s.shelf.lots[l].status) ensures Units(items, l) == 0 {
        PendingOffWithdrawn(s, id, l);
      }
      UsedIsMoved(s.shelf, shelf, items);
    }
  }

  lemma UnpaidMoves(s: State, id: nat, timedOut: bool)
    requires SealedOk(s) && SettleUnpaidSale(s, id, timedOut).Ok?
    ensures var t := SettleUnpaidSale(s, id, timedOut).value;
            SaleMoved(s.shelf, t.shelf) && t.recalls == s.recalls
  {
    if s.sales[id].status.Pending? {
      var items := s.sales[id].items;
      ReleaseHolds(s.shelf, items);
      var shelf := ReleaseItems(s.shelf, items).value;
      hide SealedOk, ReleaseItems, SaleMoved;
      forall l: nat | l < |s.shelf.lots| ensures LotUsed(s.shelf.lots[l], shelf.lots[l], Units(items, l)) {
        ReleaseUses(s.shelf, items, l);
      }
      forall l: nat | l < |s.shelf.lots| && Withdrawn(s.shelf.lots[l].status) ensures Units(items, l) == 0 {
        PendingOffWithdrawn(s, id, l);
      }
      UsedIsMoved(s.shelf, shelf, items);
    }
  }

  lemma MovesNot(s: State)
    ensures SaleMoved(s.shelf, s.shelf)
  {
  }

  /** No step of any sale or refund changes a recalled or expired lot, or withdraws one. */
  lemma SaleEventMoves(s: State, e: Event)
    requires SealedOk(s) && SaleEvent(e)
    ensures SaleMoved(s.shelf, Exec(s, e).shelf) && Exec(s, e).recalls == s.recalls
  {
    MovesNot(s);
    assert HoldsWf(s.shelf);
    hide HoldsOk, HoldsWf, SaleMoved, CreateSale, FinalizePaidSale, SettleUnpaidSale, ClaimRefund, AbortRefund,
         ReconcileRefund;
    if Step(s, e).Ok? {
      match e
      case EvSale(cart, terms, cash, offline, key, now) => CreateMoves(s, cart, terms, cash, offline, key, now);
      case EvPaid(id, now) => PayMoves(s, id, now);
      case EvUnpaid(id, timedOut) => UnpaidMoves(s, id, timedOut);
      case EvClaim(id, restock, requested) => ClaimKeeps(s, id, restock, requested);
      case EvFinalizeRefund(rid) => if s.refunds[rid].status.RefundPending? { FinalizeKeeps(s, rid); }
      case EvAbortRefund(rid) => AbortKeeps(s, rid);
      case EvReconcile(id, answer) => ReconcileKeeps(s, id, answer);
    }
  }

  // ---- Steps on lots ----

  /** No lot of the new recall is on another DRAFT one. */
  predicate Unclaimed(s: State, lots: seq<nat>) {
    forall r :: 0 <= r < |s.recalls| && s.recalls[r].status.Draft? ==>
      forall l :: l in s.recalls[r].lots ==> l !in lots
  }

  /** A recall, unless it is refused, is of lots that no other DRAFT recall holds. */
  predicate RecallApart(s: State, e: Event) { e.EvRecall? && Exec(s, e) != s ==> Unclaimed(s, e.lots) }

  /** What a step on lots that is not refused does to a sealed store. */
  predicate LotsStepOk(s: State, t: State) {
    && LotsMoved(s.shelf, t.shelf) && RecallsOk(t)
    && (ShelfOk(s.shelf) ==> ShelfOk(t.shelf))
  }

  /** Lots in quarantine stay there, so DRAFT recalls keep holding theirs. */
  lemma QuietStep(s: State, shelf: Shelf)
    requires RecallsOk(s) && LotsMoved(s.shelf, shelf) && QuarantineKept(s.shelf, shelf)
    requires ShelfOk(s.shelf) ==> ShelfOk(shelf)
    ensures LotsStepOk(s, s.(shelf := shelf))
  {
  }

  lemma InitiateStep(s: State, lots: seq<nat>)
    requires RecallsOk(s) && InitiateRecall(s, lots).Ok? && Unclaimed(s, lots)
    ensures LotsStepOk(s, InitiateRecall(s, lots).value)
  {
    forall i | 0 <= i < |lots|
      ensures lots[i] < |s.shelf.lots| && s.shelf.lots[lots[i]].product < |s.shelf.products|
      ensures s.shelf.lots[lots[i]].reserved <= 0
      ensures s.shelf.lots[lots[i]].status.Active? || s.shelf.lots[lots[i]].status.Quarantined?
    {
      assert Recallable(s, lots[i]);
    }
    QuarantineAllKeeps(s.shelf, lots);
    assert RecallsOk(InitiateRecall(s, lots).value) by { DraftsApart(s, lots); }
  }

  lemma DraftsApart(s: State, lots: seq<nat>)
    requires RecallsOk(s) && Unclaimed(s, lots)
    ensures var recalls := s.recalls + [Recall(Draft, lots)];
            forall r, q :: 0 <= r < q < |recalls| && recalls[r].status.Draft? && recalls[q].status.Draft? ==>
              forall l :: l in recalls[r].lots ==> l !in recalls[q].lots
  {
  }

  /** The lots of the other DRAFT recalls are not on this one, so they are where they were. */
  lemma OthersKept(s: State, r: nat, shelf: Shelf, status: RecallStatus)
    requires RecallsOk(s) && r < |s.recalls| && s.recalls[r].status.Draft? && !status.Draft?
    requires |shelf.lots| == |s.shelf.lots|
    requires forall l :: 0 <= l < |s.shelf.lots| && l !in s.recalls[r].lots ==> shelf.lots[l] == s.shelf.lots[l]
    ensures RecallsOk(s.(shelf := shelf, recalls := s.recalls[r := s.recalls[r].(status := status)]))
  {
    var recalls := s.recalls[r := s.recalls[r].(status := status)];
    forall q, i | 0 <= q < |recalls| && recalls[q].status.Draft? && 0 <= i < |recalls[q].lots|
      ensures recalls[q].lots[i] < |shelf.lots| && shelf.lots[recalls[q].lots[i]].status.Quarantined?
    {
      assert recalls[q] == s.recalls[q] && recalls[q].lots[i] in recalls[q].lots;
    }
  }

  lemma CancelStep(s: State, r: nat)
    requires RecallsOk(s) && ShelfWf(s.shelf) && CancelRecall(s, r).Ok?
    ensures LotsStepOk(s, CancelRecall(s, r).value)
  {
    ReturnLotsKeeps(s.shelf, s.recalls[r].lots);
    OthersKept(s, r, CancelRecall(s, r).value.shelf, Cancelled);
  }

  lemma ActivateStep(s: State, r: nat)
    requires RecallsOk(s) && ActivateRecall(s, r).Ok?
    ensures LotsStepOk(s, ActivateRecall(s, r).value)
  {
    DepleteLotsKeeps(s.shelf, s.recalls[r].lots);
    OthersKept(s, r, ActivateRecall(s, r).value.shelf, Live);
  }

  lemma WithdrawStep(s: State, l: nat, next: LotStatus)
    requires RecallsOk(s) && LotKnown(s, l) && s.shelf.lots[l].status.Active? && s.shelf.lots[l].reserved <= 0
    requires next.Quarantined? || next.Expired?
    ensures LotsStepOk(s, s.(shelf := LeaveSellableRollup(s.shelf, l, next)))
  {
    LeaveKeeps(s.shelf, l, next);
    QuietStep(s, LeaveSellableRollup(s.shelf, l, next));
  }

  lemma LotEventMoves(s: State, e: Event)
    requires SealedOk(s) && RecallApart(s, e) && Step(s, e).Ok? && Exec(s, e) != s
    requires !SaleEvent(e) && !e.EvProduct? && !e.EvReceive?
    ensures LotsStepOk(s, Step(s, e).value)
  {
    var t := Step(s, e).value;
    hide HoldsOk, RecallsOk, LotsStepOk, LotsMoved, LeaveSellableRollup, ApplyVariances, InitiateRecall, ActivateRecall,
         CancelRecall;
    match e
    case EvAdjust(l, q) =>
      SetLotKeeps(s.shelf, l, q);
      QuietStep(s, t.shelf);
    case EvCount(lines, overrideBlocked) =>
      VariancesKeep(s.shelf, lines);
      QuietStep(s, t.shelf);
    case EvQuarantine(l) => WithdrawStep(s, l, Quarantined);
    case EvExpire(l, now) => WithdrawStep(s, l, LotStatus.Expired);
    case EvRecall(lots) => InitiateStep(s, lots);
    case EvActivate(r) => ActivateStep(s, r);
    case EvCancel(r) => CancelStep(s, r);
  }

  // ---- Every step ----

  predicate TerminalKept(a: Shelf, b: Shelf) {
    |a.lots| <= |b.lots|
    && forall l :: 0 <= l < |a.lots| && Terminal(a.lots[l].status) ==> Terminal(b.lots[l].status)
  }

  lemma NewRowsSeal(s: State, e: Event)
    requires SealedOk(s) && (e.EvProduct? || e.EvReceive?)
    ensures RecallsOk(Exec(s, e)) && Sealed(Exec(s, e).shelf) && TerminalKept(s.shelf, Exec(s, e).shelf)
  {
  }

  lemma SaleMoveSeals(s: State, t: State)
    requires RecallsOk(s) && Sealed(s.shelf) && SaleMoved(s.shelf, t.shelf) && t.recalls == s.recalls
    ensures RecallsOk(t) && Sealed(t.shelf) && TerminalKept(s.shelf, t.shelf)
  {
  }

  lemma LotMoveSeals(s: State, t: State)
    requires Sealed(s.shelf) && LotsMoved(s.shelf, t.shelf)
    ensures Sealed(t.shelf) && TerminalKept(s.shelf, t.shelf)
  {
    forall l | 0 <= l < |s.shelf.lots| ensures LotMoved(s.shelf.lots[l], t.shelf.lots[l]) {}
  }

  lemma StepSeals(s: State, e: Event)
    requires SealedOk(s) && RecallApart(s, e)
    ensures SealedOk(Exec(s, e)) && TerminalKept(s.shelf, Exec(s, e).shelf)
    ensures SaleEvent(e) ==> SaleMoved(s.shelf, Exec(s, e).shelf)
  {
    StepHolds(s, e);
    hide HoldsOk, RecallsOk, Sealed, SaleMoved, RecallApart, Step;
    if SaleEvent(e) {
      SaleEventMoves(s, e);
      SaleMoveSeals(s, Exec(s, e));
    } else if e.EvProduct? || e.EvReceive? {
      NewRowsSeal(s, e);
    } else if Exec(s, e) != s {
      LotEventMoves(s, e);
      LotMoveSeals(s, Exec(s, e));
    }
  }

  // ---- Every run ----

  /** The run starts no recall on a lot that another DRAFT recall still holds. */
  predicate RecallsApart(s: State, es: seq<Event>) {
    forall k :: 0 <= k < |es| ==> RecallApart(Run(s, es[..k]), es[k])
  }

  lemma ApartInit(s: State, es: seq<Event>)
    requires RecallsApart(s, es) && es != []
    ensures RecallsApart(s, es[..|es| - 1]) && RecallApart(Run(s, es[..|es| - 1]), es[|es| - 1])
  {
    var init := es[..|es| - 1];
    forall k | 0 <= k < |init| ensures RecallApart(Run(s, init[..k]), init[k]) {
      assert init[..k] == es[..k];
    }
  }

  /** What is withdrawn holds nobody's units, and a recalled or expired lot never returns to the shelf,
      however sales, overdrafts, refunds, corrections and other recalls go on ... */
  lemma {:induction false} TerminalForever(s: State, es: seq<Event>)
    requires SealedOk(s) && RecallsApart(s, es)
    ensures SealedOk(Run(s, es)) && TerminalKept(s.shelf, Run(s, es).shelf)
  {
    if es != [] {
      hide SealedOk, RecallApart, Exec;
      ApartInit(s, es);
      TerminalForever(s, es[..|es| - 1]);
      StepSeals(Run(s, es[..|es| - 1]), es[|es| - 1]);
    }
  }

  /** ... and from then on no step of any sale or refund, anywhere in the run, touches it. */
  lemma RecalledIsUntouched(s: State, es: seq<Event>, e: Event, l: nat)
    requires SealedOk(s) && RecallsApart(s, es)
    requires l < |s.shelf.lots| && Terminal(s.shelf.lots[l].status) && SaleEvent(e)
    ensures var before, after := Run(s, es), Run(s, es + [e]);
            l < |before.shelf.lots| && l < |after.shelf.lots| && after.shelf.lots[l] == before.shelf.lots[l]
  {
    hide SealedOk, Exec;
    assert (es + [e])[..|es|] == es;
    TerminalForever(s, es);
    SaleEventMoves(Run(s, es), e);
  }
}
