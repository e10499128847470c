# Harvestlink: the inventory and money engine behind the till

A Dafny model of the transactional core of Harvestlink, a point of sale for co-operatively owned food
stores, with proofs about every run of it. `dafny verify dfyconfig.toml` checks the whole project.

**The ledger.** `lots.dfy` and `stock_engine.dfy` hold the lot rows, the cached `Product.stock` and
`Product.reserved`, and the operations that move them. `fefo.dfy` is the first-expired-first-out planner and
`checkout.dfy` the money of one cart. `ledger.dfy` puts them together: a `State` of products, lots, sales,
refunds and recalls, one function per database transaction, and an `Event` for everything that can happen to
a store. A refused transaction leaves the state as it was. The card processor is an oracle: any success,
failure, expiry or reconciliation may arrive late, twice or never. `till.dfy` is the service in its own form,
a class whose fields are the tables and whose methods run the loops and roll back, each proved to do exactly
what the ledger's function says.

**What is proved of it.** `holds.dfy` and `every_run.dfy` say what survives every run, overdrafts and shared
recalls included: who holds which unit, who is served when he pays, the refund ledger, and the conservation
of stock. `recall_runs.dfy` adds quarantine, recall and expiry for runs that share no recall, and
`ledger_runs.dfy` the rollups for runs whose new offline sales free units can serve. `ledger_invariant.dfy`
states the invariants and the conserved quantity; `lot_steps.dfy`, `sale_steps.dfy`, `cart_plans.dfy`,
`payment_steps.dfy`, `refund_steps.dfy` and `refund_protocol.dfy` prove them transaction by transaction.
`offline_overflow.dfy` and `offline_cart.dfy` say exactly when an overdraft breaks the rollup and whom it
leaves without goods. `refund_money.dfy`, `refund_quotes.dfy`, `refund_shares.dfy` and `settlement.dfy` follow
the money of refunds, `sale_history.dfy` the life of one sale row. What an operation answers and writes is also
told from the rows alone, without the functions that compute it: which lots a sale takes in `shelf_order.dfy`,
which carts are served in `served_carts.dfy`, the row of a sale in `checkout_row.dfy`, and lots received,
adjusted, withdrawn and recalled in `lot_answers.dfy`. `till_runs.dfy` carries all of it over to runs of the
service; `jobs.dfy` and `webhook.dfy` are its callers.

**Beside it.** The offline queue and its sync protocol (`sync.dfy`, `offline_plan.dfy`), stock counts under
trade and their queue (`count_figures.dfy`, `counts.dfy`, `count_sync.dfy`, `count_replay.dfy`), bank deposits
(`cash.dfy`, `cash_book.dfy`), member benefits, dividends, drawer-variance streaks, GS1 barcodes and the lock
order.

Rows are never deleted, so a row's id is its position in its table. Money is integer cents, percentages are
hundredths of a percent, unit cost is hundredths of a cent; quotients are exact and rounded once, half away
from zero. A refusal carries the HTTP status the service answers with. The payment status EXPIRED is called
TimedOut, and a finalized refund line is a `Part`.

## Where the code and its promises part

Each is a lemma with the failing case, beside the exact condition under which the promise holds.

- An offline sale that overdraws a lot can break the rollup (`OfflineOverflow.SecondLineBreaks`; exact
  conditions from the cart `OfflineCart.CartKeepsBooks`, from its plan `OfflineOverflow.OfflineSaleExact`, from
  any rows `OfflineOverflow.RollupExact`). The rollups of `LedgerRuns` are therefore for runs whose new offline
  sales free units can serve; repeated and refused requests are always in scope. Nothing in `EveryRun` has a
  scope.
- An offline sale can sell the units a paying card customer holds, from his own lot or from another lot of the
  product, and he is refused (`OfflineOverflow.LotSoldUnderHim`, `OfflineOverflow.StockSoldUnderHim`, exact
  conditions `EveryRun.PaidExactAlways` and, before the offline sale, `OfflineCart.PaidBesideCart` and
  `OfflineOverflow.PaidAfterOfflineSale`). If the first line that cannot be given is short of a lot, the
  webhook is acknowledged all the same, so the processor never sends it again though the customer has paid
  (`Webhook.SuccessExact`, `Webhook.AcknowledgedUnserved`).
- The sync module's header says a queued sale is never turned away. The server turns it away when a product of
  it has no ACTIVE lot left, and also when it has one with nothing free while other stock of the product is
  quarantined or recalled (`OfflinePlan.QuarantineTurnsAway`, exact conditions `OfflinePlan.OfflineServed` and
  `OfflineSync.QueuedSaleTaken`). Everything behind it waits.
- Two DRAFT recalls on one lot are accepted, and break the rollup when the first is cancelled and the second
  activated (`SaleHistory.SharedRecallBreaks`, exact condition `SaleHistory.ActivationExact`). `RecallRuns` is
  for runs that start no such recall.
- A count entry that reaches the server late leaves the lot off by what refunds restocked in the meantime and
  by what was paid in its transit time (`CountFigures.CountIsRight`, `StockCounts.LateEntry`).
- Rounding can claw back more than the operator earned until the last unit is refunded
  (`RefundQuotes.ClawbackOvershoots`, exact conditions `RefundMoney.ClaimedClawbackFits` before the claim and
  `RefundMoney.ClawbackFits` before it is finalized), and can leave a last unit that
  cannot be refunded at all (`RefundQuotes.LastUnitRefused`, exact condition `RefundQuotes.RefundTheRest`).
- A dividend can pay out more than its pool (`Dividend.PaysMoreThanThePool`, exact condition
  `Dividend.WithinPool`).
- Aborting a refund takes its rows against the lock order and can wait in a circle with finalizing it
  (`Locks.AbortBreaksTheOrder`, exact condition `Locks.DeadlockExact`).
- A label whose raw form is 12 or 13 bare digits is padded like a GTIN and not read, though the scanner declares
  it GS1 (exact condition `Barcode.DeclaredRoundTrip`).
- A percentage benefit over one hundred exceeds its line (`Benefits.DiscountWithinLine`).

## Model

| member | source | states |
|---|---|---|
| `Money.HalfUpNearest` | backend/src/lib/money.ts:11-13 | rounding gives a nearest cent, ties away from zero |
| `Money.NearestUnique` | backend/src/lib/money.ts:11-13 | and that description has one solution, so it defines the rounding |
| `Money.HalfUpMonotone` | backend/src/lib/money.ts:11-18 | rounding keeps the order of amounts |
| `Allocation.SliceIsInterval` | backend/src/services/sales.service.ts:1452-1464 | the refund walk returns exactly the units numbered skip to skip + n of the line, each to the lot that supplied it |
| `Allocation.RestoreWalk` | backend/src/services/sales.service.ts:1452-1471 | the skip/restore loop refuses with 500 exactly when the line has fewer units, else hands back that interval |
| `Allocation.UnitsSplit` | backend/src/services/sales.service.ts:1452-1471 | intervals laid end to end count every unit of a lot once |
| `Lots.ConsumeReservedEffect` | backend/src/services/stockEngine.ts:238-252 | taking a reservation piece by piece is taking it at once, with DEPLETED exactly at zero |
| `StockEngine.ReserveKeeps` | backend/src/services/stockEngine.ts:154-176 | holding free units of ACTIVE lots keeps the rollup and moves each lot's reservation by what the line holds on it |
| `StockEngine.ReleaseKeeps` | backend/src/services/stockEngine.ts:179-220 | a held reservation can always be released; no guard fires and only reservations change |
| `LotAnswers.ReleaseExact` | backend/src/services/stockEngine.ts:179-220 | letting go is refused with 500 iff some lot or the product has fewer of the units reserved |
| `StockEngine.ConsumeReservedKeeps` | backend/src/services/stockEngine.ts:226-272 | a held reservation can always be consumed; the product guards cannot fail |
| `StockEngine.ConsumeDirectKeeps` | backend/src/services/stockEngine.ts:278-353 | a cash sale of free units keeps rollup and lot strengthening |
| `LotAnswers.LastChanceExact` | backend/src/services/stockEngine.ts:278-330 | the last-chance claim is granted iff its lots are on sale with all of its units unheld and the product has them, else 409 |
| `StockEngine.RestockKeeps` | backend/src/services/stockEngine.ts:362-417 | a restock that is not refused puts every unit back on its lot, reactivates DEPLETED ones, leaves quarantined ones out of stock, and touches no recalled or expired lot |
| `Fefo.ActiveFefoOrder` | backend/src/lib/locks.ts:86-106 | the lot query returns each ACTIVE lot of the product once: known expiry before unknown, earlier before later, then the one received first, then the lower id |
| `Fefo.FefoDominates` | backend/src/services/stockEngine.ts:88-151 | the allocation is feasible and takes at least as much from every prefix of the FEFO order as any other feasible one |
| `Fefo.FefoUnique` | backend/src/services/stockEngine.ts:88-151 | it is the only allocation that does |
| `Fefo.PlanLineExact` | backend/src/services/stockEngine.ts:88-151 | a line is planned iff enough is free (offline: iff there is a lot); exactly the quantity asked for, within availability but for an offline shortfall on the last lot |
| `Fefo.TwoLinesPlanAsOne` | backend/src/services/stockEngine.ts:79-151 | two cart lines of one product succeed iff one combined line would, and take the same from every lot, overdraft included |
| `Fefo.AllocateFefo` | backend/src/services/stockEngine.ts:88-151 | the loop over `taken` and `remaining` produces that plan, or refuses with 409 and changes nothing |
| `ShelfOrder.OldestFirst` | backend/src/services/stockEngine.ts:79-151 | first expired, first out on the dates of the lots: a line that takes anything of a lot takes all the lines before it left free on every ACTIVE lot of the product that expires before it, or with it and was received before |
| `ShelfOrder.SaleTakesOldest` | backend/src/services/sales.service.ts:346-397 | so do the lots booked on any line of any sale, cash or card, online or synced |
| `ShelfOrder.LockedAsOffered` | backend/src/lib/locks.ts:86-106 | the lots of a product are offered in the order in which they are locked |
| `ServedCarts.OnlineServed` | backend/src/services/sales.service.ts:346-397 | a cart that may not overdraw is planned iff its lines of each product together ask for no more than the ACTIVE lots of the product have beyond what customers hold, else 409 |
| `ServedCarts.CheckoutAnswer` | backend/src/services/sales.service.ts:245-642 | the whole answer to such a checkout: which refusal first, or a sale |
| `Checkout.PriceCart` | backend/src/services/sales.service.ts:515-607 | the money loop accepts exactly the carts whose lines and co-op share are acceptable, with their totals |
| `Checkout.PriceExact` | backend/src/services/sales.service.ts:515-607 | on the cart itself: tax is the nearest cent of the rate on what is left after both discounts, nothing on exempt lines; total = list - discounts + tax; the operator gets the nearest cent of his percentage of list, net, or net plus the co-op's part of the member discounts; refused iff a line's discounts exceed it or he would get more than the net |
| `CheckoutRow.CheckoutBooks` | backend/src/services/sales.service.ts:515-790 | the whole effect of a checkout: one row with that money, PAID if cash and PENDING if card, a line per line of the cart; a cash sale takes its units and reserves none, a card sale reserves them and takes none |
| `Checkout.CheckoutBalances` | backend/src/services/sales.service.ts:515-607 | list = net + discounts, total = operator + co-op + tax to the cent, nothing negative |
| `Checkout.BasesOrdered` | backend/src/services/sales.service.ts:577-595 | operator base OPERATOR <= SHARED <= COOP despite rounding, between net and list |
| `Checkout.OperatorShareOrdered` | backend/src/services/sales.service.ts:577-597 | and so are the operator's earnings |
| `LotSteps.RowUpdate` | backend/src/lib/stockInvariant.ts:1-5 | replacing one lot row keeps the rollup iff the product row moves by the difference in ACTIVE quantities |
| `LotSteps.SetLotKeeps` | backend/src/services/stockEngine.ts:519-564 | an adjustment that is not refused leaves the lot at its target, no other lot changed, the rollup exact |
| `LotSteps.QuarantineAllKeeps` | backend/src/services/recall.service.ts:139-161 | recall initiation takes all its lots off sale without losing a unit |
| `LotSteps.ReturnLotsKeeps` | backend/src/services/recall.service.ts:788-798 | cancelling puts quarantined lots back on sale and keeps the rollup |
| `LotSteps.RecallDepleteExact` | backend/src/services/stockEngine.ts:599-614 | zeroing a recalled lot keeps the rollup iff the lot is not ACTIVE with units or holds |
| `LotSteps.DepleteLotsExact` | backend/src/services/recall.service.ts:333-342 | activating a recall keeps the shelf consistent iff none of its lots is back on sale |
| `SaleSteps.TakeItemsKeeps` | backend/src/services/sales.service.ts:609-706 | a sale of free units goes through and moves each lot by exactly what the sale takes or holds |
| `SaleSteps.FinalizeItemsKeeps` | backend/src/services/sales.service.ts:1003-1040 | with all units reserved every line takes the reserved path and each lot gives exactly what was held |
| `SaleSteps.ReleaseItemsKeeps` | backend/src/services/sales.service.ts:181-213 | releasing a held sale never fails and changes reservations only |
| `PaymentSteps.PaidIsNeverRefused` | backend/src/services/sales.service.ts:951-1058 | in every state whose books are in order a PENDING sale can be finalized, each line through its reservation, and shelf plus customers hold what they held |
| `PaymentSteps.UnpaidReleasesAll` | backend/src/services/sales.service.ts:1063-1115 | in any state a store can reach a PENDING sale can be failed or expired; it gives back exactly what it held and moves no stock; books in order stay so |
| `Holds.ReleaseGoes` | backend/src/services/stockEngine.ts:179-220 | held lines are released in any such state: no 500 guard fires, and each lot gives back exactly what the lines held on it |
| `EveryRun.UnpaidAlways` | backend/src/services/sales.service.ts:1063-1115 | so after any run from an empty store, overdrafts and shared recalls included |
| `CartPlans.PlanCartFits` | backend/src/services/sales.service.ts:346-397 | the planned cart asks each lot only for units free after the earlier lines, of ACTIVE lots of the right product |
| `PaymentSteps.CreateKeeps` | backend/src/services/sales.service.ts:245-790 | a new sale, cash or card, online or synced, keeps the invariant; a used key changes nothing however short the shelf |
| `RefundSteps.FinalizeLinesKeep` | backend/src/services/sales.service.ts:1396-1512 | the lines of a refund are refused with 409 iff they restock goods of a recalled or expired lot, else units go back and the tally is conserved |
| `RefundProtocol.ClaimKeeps` | backend/src/services/sales.service.ts:1292-1355 | in any such state claiming moves nothing but the sale into REFUNDING with one PENDING refund that fits it |
| `RefundProtocol.FinalizeRefused` | backend/src/services/sales.service.ts:1361-1475 | in any state a store can reach, finalizing is refused iff it restocks tainted goods; the 500 "could not map" case never occurs |
| `RefundProtocol.FinalizeKeeps` | backend/src/services/sales.service.ts:1361-1566 | in any such state finalizing advances the lines by what was refunded, conserves every lot with its customers, and ends REFUNDED iff all is refunded; books in order stay so |
| `RefundProtocol.AbortKeeps` | backend/src/services/sales.service.ts:1572-1613 | an aborted refund gives the sale back as PAID with no stock moved |
| `RefundProtocol.ReconcileKeeps` | backend/src/services/sales.service.ts:1697-1764 | in any such state reconciliation keeps reservations, refunds and tally whatever the processor answers, and books that are in order |
| `RefundProtocol.FinalizeBooks` | backend/src/services/sales.service.ts:1513-1566 | the rows after a refund is booked: it SUCCEEDED, its amounts are on the sale, its lines moved on, the sale is REFUNDED iff no unit is left, else PAID |
| `RefundProtocol.RefundAnswers` | backend/src/services/sales.service.ts:1361-1613 | the whole answer to finalizing and to aborting any refund: 404, done already, the other way already, refused for tainted goods, or the rows |
| `RefundProtocol.ReconcileExact` | backend/src/services/sales.service.ts:1741-1754 | which answer of the processor leads where: succeeded books the refund unless it restocks tainted goods; failed, or unknown after grace, leaves it FAILED and the sale PAID as it was; pending, or unknown within grace, moves nothing |
| `RefundProtocol.RefundSlicing` | backend/src/services/sales.service.ts:1426-1477 | over any mix of refunds the restored intervals are disjoint, no lot gets back more than it supplied, and all of it when everything was restocked |
| `RefundProtocol.NetTakeNonNeg` | backend/src/services/sales.service.ts:1426-1477 | no sale gives back more of a lot than it took, and an unpaid one has taken nothing |
| `RefundMoney.FinalizeMoney` | backend/src/services/sales.service.ts:1513-1534 | in any such state refundedAmount stays the sum of succeeded refunds and at most the total; the refund of the last units takes the last cents |
| `RefundMoney.CreateMoney` | backend/src/services/sales.service.ts:515-607 | the lines of a new sale charge, in sum, its total |
| `RefundShares.QuoteExact` | backend/src/services/sales.service.ts:1222-1285 | what a refund pays: per line the nearest cents to its part of net price and of tax, as far as the sale has it; of the operator the nearest cent to his part of list (COOP) or net; all that is left of both when no unit is left |
| `RefundShares.ClaimExact` | backend/src/services/sales.service.ts:1161-1355 | the whole answer to a claim: 404, 409, 400, or one PENDING refund at that quote and the sale REFUNDING |
| `RefundShares.PaidBackInProportion` | backend/src/services/sales.service.ts:1225-1237 | after any run, while a cent of a sale is left, what was paid back is line by line the customer's share of net and of tax to within half a cent per refund of the line |
| `RefundMoney.ClawbackDrift` | backend/src/services/sales.service.ts:1258-1282 | after k partial refunds the clawback is within k half-cents of the proportional share |
| `RefundMoney.ClawbackFits` | backend/src/services/sales.service.ts:1258-1282 | a refund that is finalized leaves the operator charged no more than he earned iff it takes all that is left or the exact share of its lines is under what is left plus half a cent |
| `RefundMoney.ClaimedClawbackFits` | backend/src/services/sales.service.ts:1258-1355 | the same told before the claim, through claim and finalize |
| `RefundQuotes.RefundTheRest` | backend/src/services/sales.service.ts:1161-1285 | asking for all that is left is granted iff lines and ledger are still worth a cent, and then pays exactly what is left |
| `RefundQuotes.WholeRefund` | backend/src/services/sales.service.ts:1161-1285 | an unrefunded sale is refundable for exactly what was paid iff something was paid |
| `RefundQuotes.LastUnitRefused` | backend/src/services/sales.service.ts:1242-1253 | once two of three units for one cent are claimed and finalized, the third is refused, as is anything else |
| `RefundQuotes.ClawbackOvershoots` | backend/src/services/sales.service.ts:1258-1282 | three one-unit refunds of a four-cent sale, claimed and finalized, have clawed back three cents of two |
| `Settlement.ChannelsSplit` | backend/src/services/settlement.service.ts:130-194 | card figures taken by subtraction are the card sums; the channels hold all the operator did not accrue |
| `Settlement.SummaryOfRows` | backend/src/services/settlement.service.ts:130-194 | every figure on the rows: PAID, REFUNDING and REFUNDED sales at what is left of them, cash sales on cash and card sales on card |
| `Settlement.SummaryIsMoneyMoved` | backend/src/services/settlement.service.ts:8-16 | grossSales and currentlyOwed equal money paid in, earned, paid back and clawed back across all rows |
| `Settlement.SummaryAlways` | backend/src/services/settlement.service.ts:8-16 | in every state any run can reach, overdrafts and shared recalls included |
| `Settlement.RefundedNetsToZero` | backend/src/services/settlement.service.ts:10-16 | a REFUNDED sale drops out of every figure |
| `Settlement.NewSaleSplits` | backend/src/services/sales.service.ts:556-642 | the sale row's shares, base and tax are those of an accepted cart |
| `LedgerRuns.StepKeeps` | backend/src/services/stockEngine.ts:1-28 | each of the sixteen kinds of event keeps the invariant; sale events move only live lots; corrections aside, shelf plus customers is constant |
| `LedgerRuns.EveryReachableState` | backend/src/lib/stockInvariant.ts:1-59 | from an empty store, whatever happens in scope in whatever order and repetition, rollups equal lots, reservations belong to PENDING sales, and the refund ledger balances |
| `EveryRun.RefundsBalanceAlways` | backend/src/services/sales.service.ts:1161-1613 | from an empty store, after anything at all, what each sale paid back and clawed back is the sum of its succeeded refunds, and a REFUNDED one has given back all |
| `EveryRun.StockIsConserved` | backend/src/services/sales.service.ts:951-1115 | in any run a lot's quantity is what it was, plus corrections, less exactly what sales took, each counted once |
| `RecallRuns.TerminalForever` | backend/src/services/stockEngine.ts:362-417 | in any run that shares no recall, overdrafts included, a RECALLED or EXPIRED lot is never ACTIVE again and no withdrawn lot has units reserved |
| `RecallRuns.RecalledIsUntouched` | backend/src/services/stockEngine.ts:369-395 | and no later sale or refund step of such a run changes it |
| `SaleHistory.RunEvolves` | backend/src/services/sales.service.ts:951-1115 | in any run whatever, allocations, prices and keys never change; paid stays paid; failed, expired and refunded sales are final |
| `SaleHistory.LateOrRepeatedWebhook` | backend/src/services/sales.service.ts:951-980 | success reported after failure or expiry is refused, and reported again after payment does nothing, at any later time of any run |
| `SaleHistory.LateFailure` | backend/src/services/sales.service.ts:1075-1115 | failure or expiry reported after payment releases nothing, in any run |
| `SaleHistory.RefundSettledOnce` | backend/src/services/sales.service.ts:1381-1390 | a refund that succeeded or failed is settled for good: finalizing or aborting it again at any later time of any run changes nothing, and neither undoes the other |
| `SaleHistory.KeyUsedOnce` | backend/src/services/sales.service.ts:267-327 | a checkout key names one sale for ever, in any run |
| `SaleHistory.SharedRecallBreaks` | backend/src/services/recall.service.ts:84-161 | any quarantined lot with units, recalled twice, the first recall cancelled and the second activated, breaks the rollup |
| `SaleHistory.ActivationExact` | backend/src/services/recall.service.ts:295-342 | activation keeps the books iff none of its lots was put back on sale with units or holds |
| `EveryRun.RunHolds` | backend/src/services/stockEngine.ts:154-272 | in any run, overdrafts and shared recalls included, a unit is reserved exactly when a PENDING sale holds it, Product.reserved counts them, and refunds still fit their sales |
| `Holds.PayLinesExact` | backend/src/services/sales.service.ts:1003-1040 | the lines of a payment go through iff each lot as locked has the units of each row and each product's stock those of its lines; else the first line that cannot be given decides, 409 if a lot of it is short and 500 if only stock is |
| `Holds.PaidExact` | backend/src/services/sales.service.ts:951-1058 | so for the payment of any PENDING sale |
| `EveryRun.PaidExactAlways` | backend/src/services/sales.service.ts:951-1058 | in every state any run can reach |
| `OfflineOverflow.StockExact` | backend/src/services/stockEngine.ts:331-351 | however far rows overdraw, Product.stock stays right iff every row is on an ACTIVE lot that no earlier row took to exactly nothing |
| `OfflineOverflow.RollupExact` | backend/src/services/stockEngine.ts:331-351 | and Product.reserved too iff besides no row takes a lot with reserved units to exactly nothing |
| `OfflineOverflow.OfflineSaleExact` | backend/src/services/sales.service.ts:609-706 | so for any offline sale of any cart, on the rows it would be planned |
| `OfflineOverflow.OneLineKeepsStock` | backend/src/services/stockEngine.ts:126-139 | one offline line keeps Product.stock right however far it overdraws |
| `OfflineOverflow.PaidAfterOfflineSale` | backend/src/services/sales.service.ts:1003-1040 | in any state, told from the plan of an offline sale, a PENDING customer is served iff his lots and products cover both |
| `OfflinePlan.CartTakes` | backend/src/services/stockEngine.ts:79-151 | the first lines of an offline cart take of every lot what one line for their whole demand would |
| `OfflineCart.CartKeepsBooks` | backend/src/services/stockEngine.ts:126-139 | told from the cart: Product.stock stays right iff no product's demand ends with a line just where its last lot does and then goes on; the rollup iff besides none ends there while that lot has units reserved |
| `OfflineCart.PaidBesideCart` | backend/src/services/sales.service.ts:1003-1040 | told from the cart, with books in order: he is served iff each of his rows on a last lot fits there beside the demand beyond the lots before, and stock covers both |
| `OfflineOverflow.LotSoldUnderHim` | backend/src/services/sales.service.ts:1019-1039 | he holds the product's only lot, an offline sale takes from it: 409 |
| `OfflineOverflow.StockSoldUnderHim` | backend/src/services/stockEngine.ts:254-271 | his lot is untouched, another lot of the product is overdrawn: 500 |
| `OfflineOverflow.SecondLineBreaks` | backend/src/services/stockEngine.ts:126-139 | a second line of the product drives the DEPLETED row negative and the stock wrong |
| `TillService.Till.Reserve` | backend/src/services/stockEngine.ts:154-176 | the loop over allocations and the product update |
| `TillService.Till.Release` | backend/src/services/stockEngine.ts:179-220 | the guarded loop and its refusals |
| `TillService.Till.ConsumeReserved` | backend/src/services/stockEngine.ts:226-272 | the loop, DEPLETED at zero, and the product guards |
| `TillService.Till.ConsumeDirect` | backend/src/services/stockEngine.ts:278-353 | both loops, unguarded and last-chance |
| `TillService.Till.RestockToLots` | backend/src/services/stockEngine.ts:362-417 | the loop that reads the locked copy and accumulates the sellable units |
| `TillService.Till.SetLotRemaining` | backend/src/services/stockEngine.ts:519-564 | target, status and rollup delta |
| `TillService.Till.FindStockRollupMismatches` | backend/src/lib/stockInvariant.ts:21-59 | the check reports nothing iff every product row equals its ACTIVE sums |
| `TillService.Till.PlanSale` | backend/src/services/sales.service.ts:346-397 | the allocation loop over the cart with one `taken` table |
| `TillService.Till.CreateSale` | backend/src/services/sales.service.ts:245-790 | the checkout transaction, with rollback |
| `TillService.Till.FinalizePaidSale` | backend/src/services/sales.service.ts:951-1058 | the settlement transaction, with rollback |
| `TillService.Till.SettleUnpaidSale` | backend/src/services/sales.service.ts:1063-1115 | the failure and expiry transaction, with rollback |
| `TillService.Till.ClaimRefund` | backend/src/services/sales.service.ts:1292-1355 | phase 1 of a refund |
| `TillService.Till.FinalizeRefund` | backend/src/services/sales.service.ts:1361-1566 | phase 3 of a refund, with rollback |
| `TillService.Till.AbortRefund` | backend/src/services/sales.service.ts:1572-1613 | the abort transaction |
| `TillService.Till.ReconcileRefund` | backend/src/services/sales.service.ts:1697-1764 | finalize or abort by the processor's answer |
| `TillService.Till.Receive` | backend/src/services/purchasing.service.ts:757-797 | accepted units become one ACTIVE lot and stock |
| `TillService.Till.AdjustLot` | backend/src/services/inventory.service.ts:527-639 | the manual adjustment and its refusals |
| `TillService.Till.ApproveVariances` | backend/src/services/stockCount.service.ts:1373-1424 | count lines applied as deltas, clamped at zero, blocked lots refused without override |
| `TillService.Till.QuarantineLot` | backend/src/services/inventory.service.ts:795-869 | quarantine and its reserved guard |
| `TillService.Till.InitiateRecall` | backend/src/services/recall.service.ts:63-186 | the recall draft and the quarantine of its lots |
| `TillService.Till.ActivateRecall` | backend/src/services/recall.service.ts:295-342 | lots RECALLED and zeroed, product rows untouched |
| `TillService.Till.CancelRecall` | backend/src/services/recall.service.ts:759-817 | quarantined lots of the draft back on sale |
| `LotAnswers.ReceiveExact` | backend/src/services/purchasing.service.ts:757-797 | one ACTIVE lot more, with its expiry and nothing reserved, and as much more stock |
| `LotAnswers.AdjustExact` | backend/src/services/stockEngine.ts:519-564 | which refusal, or the lot at its target: DEPLETED when it runs out, ACTIVE when it has units again |
| `LotAnswers.ApprovalExact` | backend/src/services/stockCount.service.ts:1373-1424 | the whole answer to the approval of a count: 409 for a difference on a withdrawn lot without override or one that cuts into what customers hold; else every lot moved by its difference from where it stands, and no other |
| `LotAnswers.QuarantineExact` | backend/src/services/inventory.service.ts:795-869 | an ACTIVE lot nobody holds units of is in quarantine with all it has, and out of the stock |
| `LotAnswers.InitiateExact` | backend/src/services/recall.service.ts:63-186 | refused for no lots, unknown lots, and lots held or gone; else every lot of the draft is in quarantine with all it has and no other lot changes |
| `LotAnswers.ActivateExact` | backend/src/services/recall.service.ts:295-342 | exactly the lots of the draft are RECALLED with nothing left |
| `LotAnswers.CancelExact` | backend/src/services/recall.service.ts:759-817 | exactly the quarantined lots of the draft are ACTIVE again with all they have |
| `TillService.Till.ExpireLots` | backend/src/jobs/expireLots.ts:19-115 | the job is the run of its per-lot transactions |
| `TillService.Till.ExpirePendingSales` | backend/src/jobs/expirePendingSales.ts:28-92 | the job is the run of its finalize-or-expire transactions, and reports those not refused |
| `TillRuns.Serve` | backend/src/services/sales.service.ts:245-1764 | any requests in any order end in the tables the run of the ledger says, and each finds what it relies on |
| `TillRuns.ServeAndCheck` | backend/src/lib/stockInvariant.ts:21-59 | after any requests from an empty store the refund ledger balances, and after any in scope the service's own check finds nothing |
| `Jobs.ExpiryJobSettles` | backend/src/jobs/expirePendingSales.ts:49-89 | in any state a store can reach: PENDING sales not paid at the processor expire, of those paid exactly the ones whose goods are there at their turn are PAID, the rest stay as they were, no other sale moves, and the job reports just that; with books in order all paid ones are PAID |
| `Jobs.ExpireLotsExact` | backend/src/jobs/expireLots.ts:44-87 | exactly the past-due ACTIVE unreserved lots of the list leave the shelf |
| `Webhook.AcknowledgedOnce` | backend/src/routes/stripe.webhook.ts:62-171 | an acknowledged event changes nothing when delivered again, whatever the till, jobs, refunds and other events did in between; an unacknowledged one is as if never sent |
| `Webhook.RepeatsDropOut` | backend/src/routes/stripe.webhook.ts:62-171 | removing a repeat from anywhere in the life of a store leaves it the same ever after |
| `Webhook.SuccessExact` | backend/src/routes/stripe.webhook.ts:119-171 | the whole answer to a first success event for a PENDING sale in any state: 200 and PAID iff lots and stock can give; else by the first line that cannot be given, short of a lot: acknowledged with the sale still PENDING, short of stock alone: a 500 to be sent again |
| `Webhook.FailureExact` | backend/src/routes/stripe.webhook.ts:132-137 | the whole answer to a first failure event for a PENDING sale in any state: 200, sale FAILED, each lot gets back what the sale held, no unit moves |
| `Webhook.PaidOnlyOnSuccess` | backend/src/routes/stripe.webhook.ts:106-137 | a delivery makes a sale PAID only if it is a first event, for that sale, that reports success |
| `Webhook.NothingToDo` | backend/src/routes/stripe.webhook.ts:106-171 | an event without a sale, an unpaid session, another kind, or one for a sale past payment is acknowledged and moves nothing; one for a sale that is not there is a 500 |
| `Webhook.AcknowledgedUnserved` | backend/src/routes/stripe.webhook.ts:85-171 | after such an acknowledgement no later delivery of the event serves him, whatever happens in between |
| `Webhook.SuccessAccepted` | backend/src/routes/stripe.webhook.ts:119-137 | with books in order a first success event for a PENDING sale is never bounced |
| `Webhook.Handler.Handle` | backend/src/routes/stripe.webhook.ts:85-171 | claim, act, keep or drop the claim |
| `Cash.DepositSpreads` | backend/src/services/cash.service.ts:115-131 | one deposit: within bankable, absorbed as far as there is room, left over only if all its shifts are full, newer shifts only after older ones |
| `Cash.CoverageSound` | backend/src/services/cash.service.ts:108-134 | every shift in [0, bankable], total at most what the bank confirmed |
| `Cash.RemovalNonExpansive` | backend/src/services/cash.service.ts:10-16 | removing any deposit raises no shift's cover and lowers the total by at most its amount |
| `Cash.AllocateConfirmedDeposits` | backend/src/services/cash.service.ts:108-134 | the nested loops over the `covered` table compute that coverage |
| `CashBooks.UnconfirmedCoversLess` | backend/src/services/cash.service.ts:136-160 | so it is for whole deposit tables in confirmation order |
| `CashBooks.AppliedInOrder` | backend/src/services/cash.service.ts:136-160 | every CONFIRMED deposit is applied once, at the bank's figure, in order of confirmation and then id |
| `CashBooks.CashBook.CloseShift` | backend/src/services/cash.service.ts:96-102 | a drawer owes the bank what it holds over its opening float, and nothing if it was not counted or holds less |
| `CashBooks.CashBook.Record` | backend/src/services/cash.service.ts:201-285 | a claim covers nothing and is refused iff it is for nothing (400), a drawer is unknown (404), or one is open or covered (409) |
| `CashBooks.CashBook.Confirm` | backend/src/services/cash.service.ts:291-380 | only RECORDED deposits; no shift loses cover and at most the bank's figure is added |
| `CashBooks.CashBook.Dispute` | backend/src/services/cash.service.ts:388-456 | never raises cover; releases at most the confirmed amount |
| `CashBooks.CashBook.Undeposited` | backend/src/services/cash.service.ts:462-500 | the total still in the tills is what is bankable less what is covered |
| `OfflineSync.SyncSafe` | frontend/src/offline/sync.ts:41-82 | under lost requests and responses and overlapping walks no sale is lost, no key has two sales, and acceptance is a prefix of queue order |
| `OfflineSync.RepostMovesNothing` | backend/src/services/sales.service.ts:267-327 | posting a key the server has moves nothing |
| `OfflinePlan.OfflineServed` | backend/src/services/sales.service.ts:361-397 | a queued cart is planned iff every line has an ACTIVE lot and, while stock of its product is quarantined or recalled, the lines before it left a unit free |
| `ServedCarts.OfflineServedOnLots` | backend/src/services/sales.service.ts:361-397 | the same on the lots: an ACTIVE lot of every product, and where units are in quarantine or recalled, the lines before have not used up what nobody holds |
| `ServedCarts.OutageAnswer` | backend/src/services/sales.service.ts:245-642 | the whole answer to a sale synced from an outage: cash with a key or 400, and then by key, lines, products, plan and money |
| `OfflineSync.QueuedSaleTaken` | backend/src/services/sales.service.ts:245-790 | the server's whole answer to a queued sale: taken iff its key is known or cart, products, money and lines are acceptable |
| `OfflinePlan.QuarantineTurnsAway` | backend/src/services/sales.service.ts:368-386 | two held units and five in quarantine refuse an offline line of one |
| `OfflineSync.Device.SyncQueuedSales` | frontend/src/offline/sync.ts:41-82 | the loop is a run of the protocol, and empties the queue when nothing fails |
| `CountSync.NoEntryLost` | frontend/src/offline/countSync.ts:43-83 | an entry leaves only when taken by the server; a refusal sets it aside and the walk goes on; losing the server stops it |
| `CountSync.WalkReaches` | frontend/src/offline/countSync.ts:43-83 | how far a walk gets: up to the first entry answered neither in the 200s nor in the 400s other than 401 and 429 |
| `CountSync.LeftWasNotTaken` | frontend/src/offline/countSync.ts:43-83 | what is left was not taken |
| `CountSync.CountDevice.SyncQueuedCounts` | frontend/src/offline/countSync.ts:43-83 | the loop with continue and break |
| `CountReplay.ExactlyOnce` | frontend/src/offline/countSync.ts:43-83 | under lost requests and responses, repeated walks, several tabs and any other work on the counts: an entry is on its line, on the device or dismissed by hand, on no line but its own, and has changed the count once if recorded and not at all if not |
| `CountReplay.RepostChangesNothing` | backend/src/services/stockCount.service.ts:769-785 | posting a recorded entry again is acknowledged and changes nothing |
| `CountFigures.LateByTransit` | backend/src/services/stockCount.service.ts:752-767 | the resolved time is late by at most the time in transit |
| `CountFigures.WithoutStamps` | backend/src/services/stockCount.service.ts:752-767 | without a stamp it is the time of arrival; without the time of sending the device is taken at its word, within the count |
| `CountFigures.RecountExact` | backend/src/services/stockCount.service.ts:724-735 | a line is counted again iff it differs and the difference is over the value threshold, or the books said nothing was there, or it is over the percentage |
| `CountFigures.RecountMonotone` | backend/src/services/stockCount.service.ts:724-735 | surplus and shortage alike; a larger difference never escapes a recount |
| `CountFigures.Reconstruction` | backend/src/services/stockCount.service.ts:863-880 | over any run, live quantity plus units paid since is the quantity at the count plus refunds and corrections in between |
| `CountFigures.RightFigure` | backend/src/services/stockCount.service.ts:797-811 | so a late entry is measured right iff those cancel out |
| `CountFigures.CountIsRight` | backend/src/services/stockCount.service.ts:1394-1418 | after approval the lot is what the shelf holds, for any interleaving, iff corrections since the entry plus units paid between the count and the resolved time equal what refunds restocked before the entry |
| `CountFigures.ApprovalMoves` | backend/src/services/stockCount.service.ts:1394-1418 | approval moves each lot by its own variance from where it stands, clamped at nothing; a line without a variance leaves it alone |
| `StockCounts.AdjustsOnce` | backend/src/services/stockCount.service.ts:960-1051 | in any order of steps a count adjusts stock at most once, with every line settled, and is frozen afterwards |
| `StockCounts.ReplayHarmless` | backend/src/services/stockCount.service.ts:776-785 | an accepted entry sent again is acknowledged and changes nothing, whatever became of the count |
| `StockCounts.KeyNamesOneLine` | backend/src/services/stockCount.service.ts:769-785 | in any history of all counts no two lines carry one key |
| `StockCounts.LateEntry` | backend/src/services/stockCount.service.ts:788-880 | from the shelf through submission and approval, with the device's clock wrong and any other work between: the lot is right up to refunds before the entry, corrections after it, and sales in the transit time |
| `StockCounts.CountsStayApart` | backend/src/services/stockCount.service.ts:450-466 | two open counts never share a product |
| `StockCounts.SubmitExact` | backend/src/services/stockCount.service.ts:788-945 | the whole answer to a figure under a new key: which refusal, or the line with the figure split into books, difference and movement, and whether it stands |
| `StockCounts.SeenBefore` | backend/src/services/stockCount.service.ts:769-785 | a key seen before is a replay on its own line and refused on any other |
| `StockCounts.CountAnswers` | backend/src/services/stockCount.service.ts:662-720 | when a count starts, with what each lot holds as expected, and when it completes, is cancelled, and is approved |
| `StockCounts.CountSheet.Start` | backend/src/services/stockCount.service.ts:662-720 | expected quantities frozen line by line |
| `StockCounts.CountSheet.Submit` | backend/src/services/stockCount.service.ts:812-945 | the figure at the count, the recount rule and the replay |
| `StockCounts.CountSheet.Approve` | backend/src/services/stockCount.service.ts:1330-1424 | claim, adjust, or roll both back |
| `Benefits.ResolveBenefits` | backend/src/services/benefits.service.ts:297-436 | every line gets its best candidate; every loaded benefit is applied or skipped exactly once; the total is the sum |
| `Benefits.PickWinner` | backend/src/services/benefits.service.ts:356-395 | largest discount in the best tier with capacity, the older on a tie |
| `Benefits.CapsHold` | backend/src/services/benefits.service.ts:371-378 | prior uses and uses in the cart never pass a cap |
| `Benefits.DiscountWithinLine` | backend/src/services/benefits.service.ts:114-136 | amounts are capped at the line, percentages are not: exact condition |
| `Benefits.CandidateExact` | backend/src/services/benefits.service.ts:297-378 | when a benefit takes money off a line: minimum, type, scope, and cap with earlier use unless per transaction |
| `Benefits.DiscountExact` | backend/src/services/benefits.service.ts:114-136 | the nearest cent of the percentage, or the amount as far as the line goes |
| `Barcode.Gs1RoundTrip` | backend/src/lib/barcode.ts:168-208 | raw and parenthesised encodings of a GTIN-led label, with or without an AIM identifier, parse to exactly its data (GS1 General Specifications, sections 3 and 7.8) |
| `Barcode.DeclaredRoundTrip` | backend/src/lib/barcode.ts:34-53 | behind an identifier that declares GS1 any label does, except when its raw form is 12 or 13 bare digits |
| `Barcode.LabelMeans` | backend/src/lib/barcode.ts:146-157 | what each field means: 01 or else 02 the article, 10 batch, 17 expiry, 15 best-before, 21 serial; not read if the article fails its check or there is neither article nor batch |
| `Barcode.FoodLabel` | backend/src/lib/barcode.ts:168-208 | a label of article, expiry and batch gives just these, raw or as printed |
| `Barcode.ParseRaw` | backend/src/lib/barcode.ts:185-206 | the index loop terminates and computes the field map |
| `Barcode.CapsLockHarmless` | backend/src/lib/barcode.ts:34-53 | labels that differ in letter case normalize to one code and parse alike; the identifier is passed on as sent |
| `Barcode.BlanksHarmless` | backend/src/lib/barcode.ts:34-53 | blanks, tabs and line ends before or after a code do not matter |
| `Barcode.GtinCheckDigitValid` | backend/src/lib/barcode.ts:56-65 | the loop from the right computes the mod-10 check |
| `Barcode.CheckExact` | backend/src/lib/barcode.ts:56-65 | the check as section 7.9 puts it: weights 1, 3, 1, 3 from the right add up to a multiple of ten |
| `Barcode.ZeroPadKeepsCheck` | backend/src/lib/barcode.ts:49-65 | zero padding does not change the check |
| `Barcode.SingleChangeRejected` | backend/src/lib/barcode.ts:56-65 | every single misread digit is caught (section 7.9) |
| `Barcode.Gs1Date` | backend/src/lib/barcode.ts:134-144 | a date that is read exists in the calendar |
| `Barcode.DateReadsBack` | backend/src/lib/barcode.ts:134-144 | six digits are read as the day of the calendar they name, day 00 as the last of the month, and not at all if there is no such day |
| `VarianceRuns.DetectRuns` | backend/src/services/reports.service.ts:325-360 | exactly the maximal same-direction runs of at least minStreak, disjoint, ongoing iff the last shift is in |
| `VarianceRuns.DetectVariancePatterns` | backend/src/services/reports.service.ts:312-361 | so for each user, over all of that user's shifts and nobody else's, by closing time and in the order given on a tie |
| `VarianceRuns.MaximalRunsApart` | backend/src/services/reports.service.ts:308-311 | two maximal runs are the same or disjoint |
| `VarianceRuns.MaximalOnShifts` | backend/src/services/reports.service.ts:312-361 | what a maximal run is, on the shifts: all short, or all over, by more than the tolerance, and no neighbour with them |
| `VarianceRuns.StreakOnShifts` | backend/src/services/reports.service.ts:312-361 | on the shifts of a reported streak: each is short, or over, by more than the tolerance and its neighbours are not; the total is what they were out by |
| `Locks.LessIsTotal` | backend/src/lib/locks.ts:4-12 | the lock order is a strict total order |
| `Locks.LockOrder` | backend/src/lib/locks.ts:4-12 | document, products, lots, everything else; lots by product, expiry with unknown last, date received, id |
| `Locks.PlanAscends` | backend/src/lib/locks.ts:57-106 | deduplicated sorted acquisition asks for rows in ascending order |
| `Locks.NoDeadlock` | backend/src/lib/locks.ts:4-12 | transactions in that order never wait in a circle |
| `Locks.AbortsSafe` | backend/src/services/sales.service.ts:1572-1596 | ordered transactions and aborts never wait in a circle while no ordered one names an abort's refund row |
| `Locks.DeadlockExact` | backend/src/services/sales.service.ts:1572-1596 | where refund rows are named only with their Sale, they can wait in a circle iff one does |
| `Locks.AbortBreaksTheOrder` | backend/src/services/sales.service.ts:1361-1413 | finalizing a refund, whatever goods it names, and aborting it can |
| `Dividend.AllocateDividend` | backend/src/services/membership.service.ts:1060-1145 | by capital, patronage or a blend: refused iff the capital share is out of range, whatever the method, or nobody has weight, else a row for exactly those who have, each share rounded on its own |
| `Dividend.WeightExact` | backend/src/services/membership.service.ts:1095-1116 | a weight is the capital, the purchases, or a common multiple of the blend of the member's fractions of both totals |
| `Dividend.CommonDenominator` | backend/src/services/membership.service.ts:1111-1116 | the blend may be taken over a common denominator without changing a share |
| `Dividend.WithinPool` | backend/src/services/membership.service.ts:1123-1131 | the payout stays within the pool iff the cents rounded up do not outweigh all the remainders |
| `Dividend.PaidOutNearPool` | backend/src/services/membership.service.ts:1123-1131 | the payout is within half a cent per member of the pool |
| `Dividend.PaysMoreThanThePool` | backend/src/services/membership.service.ts:1123-1131 | and can exceed it |
| `Dividend.SharesOrdered` | backend/src/services/membership.service.ts:1123-1131 | a larger weight never earns less |

## Remarks

Smaller facts that follow almost directly from one guard: `RefundProtocol.FinalizeOnce` and
`RefundProtocol.AbortOnce` (a repeat at once changes nothing), `OfflineSync.RefusalBlocks` (a refused sale stays
queued and ends the walk), `StockCounts.RecountByAnother` (a recount is another person's unless nobody else is
there), `CountFigures.SkewCancels` (the device's clock error cancels), `CountReplay.HeardAsWalked` (the device acts on
an answer as the walk does), `Benefits.BestIsUnique` (the outcome of a line is determined).

## Left out

- Interleaving inside one transaction: each is one atomic step; the lock order that justifies this is `locks.dfy`. A refund finalized twice at the same instant reads its row before the lock and is outside the idempotence claims.
- Roles, store scoping, open drawers, member and store status checks, audit rows, receipts, write-off rows, notifications and e-mail.
- Prices, tax-exempt flags and the benefit granted on a line enter a checkout as part of its cart; `Benefits.ResolveBenefits` is proved on its own, for the list in the order it is loaded, and without its early returns for no member or a store that does not honour benefits.
- Time to live of reservations and which rows a job selects: the lists the jobs work on are parameters, and so is what the processor answers.
- Unit costs, cost snapshots and the weighted-average cost of receiving; purchase-order status.
- removeFromLot, which nothing calls.
- OfflineSync.SyncSafe: sales are rung up at distinct times on the device, so queue order is ringing order; the cart is priced by the server when it arrives.
- Barcode.Gs1RoundTrip: letters are ASCII, white space is the ASCII kind, and dates are year, month and day rather than text; UPC-E expansion is not modelled.
- VarianceRuns.DetectVariancePatterns: the final ordering of the report for display.
- Dividend.AllocateDividend: the weights of a blend are exact; the service computes them in floating point. Declaring a dividend and its database rows are not modelled.
- Cycle-count scheduling, ABC classes, payouts, votes, the daily close and traceability reports.
