# The shop's stock-and-money kernel, verified

A garment workshop keeps one shop's books: stock as an append-only ledger of signed movements, sales that are
drafted, confirmed, partly returned or cancelled, production orders that reserve stock until they are handed over,
and payments in several currencies at frozen rates. Every balance is derived from rows that are never edited.
This project models the services that move stock and money, and proves what their callers and their documentation
rely on: over every run of calls, over every interleaving where several callers race, and down to the last cent
where roundings meet.

How it is built:

- The services are methods of classes (`Shop.Services`, `Till.Services`, `Costing.Workshop`, `Cart.Session`,
  `RateLimit.Limiter`) or methods over values (`Queue`, `Statement`, `Retention`, `Till.Spread`). Each is proved equal to a function
  on plain values; "raise inside an atomic block" is `ok == false` with the state unchanged.
- `Apply` is one call on the value state and `Run` is a sequence of calls, so "in every reachable state" is a lemma
  about `Run`. `Race.Play` and `RateLimit.Play` are the same for single steps of concurrent transactions.
- Money is whole cents, a rate is whole millionths of a som, and each rounding mode of Python's `decimal` is an
  integer function whose contract determines its result (`Rounding`).
- Where a property the code is meant to have fails, the code is kept as it is, a lemma gives the input, and another
  says exactly when the property holds.

| file | what it holds |
|---|---|
| `Rounding`, `Sums`, `Sorting` | the four rounding modes; sums over sequences; a stable sort |
| `Models` | rows and the figures derived from them |
| `Returns`, `Shop`, `Booking`, `Availability`, `Queue`, `Race` | stock, sales, production orders, and confirmations that race |
| `Pricing` | what the figures on sales are: discounts, totals, their som value, the price of what a partial return leaves |
| `Till`, `Money`, `Voids`, `Repay` | payments: change, guards, oldest-first repayment, voids |
| `Drawer` | what each stored payment row says was taken in and handed back, at which rate |
| `Statement`, `Reconcile` | a client's debts and statement, and why they agree |
| `Debts`, `Past` | what a debt is worth in the sales' own figures; what each entry of a statement is, and which days no later call can reach |
| `Office` | stock and payments over the same sales: the guarantees with nothing assumed of the sales |
| `Costing` | cost split of a batch, absorbed cost of a run |
| `Cart`, `History` | the draft cart with undo and redo |
| `RateLimit`, `Retention` | the fixed-window counter; tiered backups |

Where the code and its own documentation part ways, the model follows the code:

- `order_line_progress` says it mirrors what `confirm_sale` will see at handover. It does for lines of distinct
  variants (`Queue.CoverableMirrorsHandOver`); with a repeated variant it misleads exactly when every line fits alone and
  a variant's lines together do not (`Queue.PageMisleadsExact`, `Queue.RepeatedVariantMisleads`).
- Making everything the queue's `to_produce` asks for need not leave every promise covered: it does not see orders that
  are READY, though they still hold stock, nor a variant nobody has ordered whose stock a write-off took below zero
  (`Queue.QueueSettles` gives the exact condition, `Queue.WriteOffStaysBelowZero` such a variant).
- The material cost of a batch is meant to be booked whatever was accepted. It is exactly when some unit was accepted
  and the rounded shares before the last row do not exceed the total: the last share can be negative, and a run books
  only positive costs (`Costing.BatchBooksTotal`, `Costing.LastShareCanBeNegative`); a batch of defects only is taken
  and its cost is booked nowhere (`Costing.TotalLossDropsCost`).
- `mark_fully_paid` on an outstanding sale is refused exactly when the balance, in som at today's rate, passes the som
  balance by more than the tolerance (`Money.SettleExact`). For a som sale that takes at least 202 payment rows
  (`Money.SettleSucceeds`, `Money.SettleCanFail`), for a foreign one at an unmoved rate more than 200 of rows and rate
  together (`Money.SettleFewRows`), and at a moved rate no row at all (`Repay.MovedRateSettleIsRefused`).
- A som payment with a hand-entered rate passes the overpayment guard at face value and is stored at that rate; the
  bound on overpayment survives exactly for rates of at most one (`Money.SomRateExact`).
- `pay_oldest_first` speaks only of refusing money beyond the open total; it also refuses when today's som value of
  some share passes that sale's som balance by more than the tolerance (`Repay.RepaymentExact`,
  `Repay.MovedRateIsRefused`).
- A deposit voided before its production order is handed over still counts on the new sale, because the mirror row
  does not copy the production order (`Voids.VoidThenLink` and `Reconcile.DebtAfterVoidThenLink` give the exact condition).
- The balance and the payment status of a confirmed client sale agree on whether it is settled, but for one kind: a sale
  within the tolerance on which nothing was paid owes nothing and still shows as unpaid (`Debts.BalanceAndStatus`).
- Undoing the first item brings back lines and client but not the currency that item set (`History.EditThenUndo`).
- `mark_produced` without a contractor accepts a negative count together with defects, and then the line's count and
  the ledger part (`Booking.IntakeExact`). `create_order` is not atomic: the lines before the refused one stay.

## Model

| member | source | states |
|---|---|---|
| Rounding.RoundDown | apps/sales/services.py:436-454 | toward zero: within one unit of the quotient and never past it on the far side from zero |
| Rounding.RoundUp | apps/sales/services.py:136-137 | away from zero: the unique whole number at least the quotient (for n >= 0) and less than one above it |
| Rounding.HalfUp | apps/sales/models.py:173-194 | nearest, ties away from zero: the error is in the half-open half unit on the side of the sign |
| Rounding.HalfEven | apps/sales/models.py:614-617 | nearest, and the result is even on a tie |
| Rounding.HalfEvenOdd | apps/sales/services.py:817-851 | half-even rounding commutes with negation, so a mirrored row cancels to the cent |
| Sorting.SortSorted | apps/clients/services.py:379-380 | the sorted list is in order |
| Sorting.SortStable | apps/clients/services.py:379-380 | elements that tie keep the order they came in |
| Models.Line.DiscountAmount | apps/sales/models.py:338-351 | on a line the constraints allow, the rounded discount is between 0 and the subtotal |
| Models.Line.LineTotal | apps/sales/models.py:353-355 | on such a line the total is between 0 and the subtotal |
| Pricing.DiscountExact | apps/sales/models.py:338-351 | a percent discount is the subtotal times the percentage to the nearest cent, ties up; a fixed one is itself; otherwise nothing |
| Pricing.ConfirmedTotals | apps/sales/services.py:124-137 | over every run: a confirmed total is the sum of subtotals less their discounts to within half a cent a percent line, and total_kgs is never below total times rate and less than a cent above |
| Models.IsOpen | apps/orders/models.py:97-102 | an order is open unless delivered or cancelled |
| Returns.ScaledDiscount | apps/sales/services.py:241-261 | a scaled fixed discount stays non-negative and gives up at most the price of the returned units |
| Returns.PercentTotalMonotone | apps/sales/models.py:338-355 | taking units off a percent-discounted line never raises its rounded total |
| Returns.ClampIdle | apps/sales/services.py:241-261 | the clamp of the scaled discount to the new subtotal never bites on a line that fitted the old one |
| Returns.ShrinkKeepsValid | apps/sales/services.py:241-261 | a partial return keeps every line constraint: positive quantity, discount within the subtotal |
| Returns.ShrinkNeverRaises | apps/sales/services.py:228-274 | a return never raises a line's total nor takes it below zero |
| Returns.PartialReturnsDrift | apps/sales/services.py:241-261 | after K partial returns a fixed discount is within K/2 cents of its exact proportional share |
| Pricing.ShrinkTerms | apps/sales/services.py:241-261 | what a partial return leaves is the same goods at the same price and kind of discount, a percentage untouched; a line goes exactly when all of it comes back |
| Pricing.ReturnedTerms | apps/sales/services.py:228-261 | so it is for every row of the sale, and rows of which nothing comes back stay as they are |
| Pricing.ShrinkProportional | apps/sales/services.py:241-261 | the client keeps the per-unit price paid: the rest is worth its share of the line, was lines of left units to within half a cent each way, exactly on an undiscounted line |
| Pricing.ReturnedTotalProportional | apps/sales/services.py:263-274 | so the sale's new total is the sum of those shares, each within a cent of exact |
| Shop.Accepted | apps/orders/services.py:26-50 | the accepted lines are exactly the longest prefix of positive quantities |
| Shop.Services.AddMovement | apps/inventory/services.py:54-87 | appends one row with the sign of its kind, satisfying the sign constraints, or refuses and appends nothing |
| Shop.Services.AdjustToCount | apps/inventory/services.py:90-107 | afterwards on-hand is the count; at most one ADJUSTMENT row is added; refused without a reason |
| Shop.Services.CheckStock | apps/sales/services.py:83-105 | passes exactly when every variant's available stock covers the sum of all its lines |
| Shop.Services.WriteLineMoves | apps/sales/services.py:107-122 | exactly one movement per live line, tagged with the sale |
| Shop.Services.ConfirmSale | apps/sales/services.py:58-147 | succeeds exactly on a non-empty stocked (or historical and dated) draft; the whole new state; unchanged on refusal |
| Shop.Services.CancelSale | apps/sales/services.py:150-189 | succeeds exactly on a confirmed sale; returns its live lines to stock unless historical |
| Shop.Services.CheckReturns | apps/sales/services.py:217-226 | passes exactly when every returned count is at most what its line still has |
| Shop.Services.ShrinkRows | apps/sales/services.py:228-261 | every row is as a return leaves it and the RETURN_IN rows are booked once per returned line |
| Shop.Services.ReturnItems | apps/sales/services.py:192-274 | succeeds exactly on a confirmed sale and counts that fit; the whole new state, cancelled when nothing is left |
| Shop.Services.CreateOrder | apps/orders/services.py:26-50 | succeeds exactly when there are lines and all are positive; on refusal the prefix accepted so far stays |
| Shop.Services.MarkProduced | apps/orders/services.py:312-394 | the exact acceptance condition; takes in the accepted units and advances the status |
| Shop.Services.HandOverOrder | apps/orders/services.py:397-433 | succeeds exactly when the order is open, has lines and its own sale can be confirmed once it stops reserving |
| Pricing.HandedOverSale | apps/orders/services.py:405-424 | the sale of a handover has the order's client, currency and lines, and the total is the sum of quantity times price |
| Shop.Services.CancelOrder | apps/orders/services.py:436-452 | succeeds exactly on an open order; only its status changes |
| Booking.LineMovesEffect | apps/sales/services.py:107-122 | the rows written for a sale add up to its live quantities per variant, for that sale only |
| Booking.ReturnMovesEffect | apps/sales/services.py:228-261 | the RETURN_IN rows of a partial return add up to exactly what left the lines, per variant |
| Booking.LedgerGrows | apps/inventory/services.py:54-87 | every call only appends to the ledger, and any figure summed over it moves by what was appended |
| Booking.SaleBookedKept | apps/sales/services.py:173-189 | every call keeps SALE_OUT minus RETURN_IN of each sale equal to what that sale still has out |
| Booking.InvKept | apps/sales/services.py:58-274 | every call keeps the whole invariant: sales booked, totals in step, order counts in range |
| Booking.CreatedExact | apps/orders/services.py:26-50 | a new order is as asked with nothing made, up to the first line refused; nothing else changes |
| Booking.RunInv | apps/sales/services.py:124-137 | over every run: a confirmed sale has items and a date, booked = current lines of confirmed non-historical sales, total = sum of line totals, total_kgs = the rounded-up total at the frozen rate, 0 <= produced <= quantity |
| Booking.IntakeExact | apps/orders/services.py:342-394 | an accepted intake keeps the line's count equal to the intake booked exactly when the count is not negative |
| Booking.RunInStep | apps/orders/services.py:342-394 | over every run with non-negative counts: produced equals the intake booked through the line; an open order is READY if and only if it is fully produced, and NEW only before anything was taken in |
| Booking.OrderForward | apps/orders/services.py:312-452 | an order's status only moves forward and never leaves delivered or cancelled |
| Booking.RunDelivers | apps/orders/services.py:397-452 | over every run: an order is delivered exactly when it carries a sale, one confirmed for the order's client; a cancelled order never does |
| Booking.ReturnLowersTotal | apps/sales/services.py:263-274 | a return leaves 0 <= total <= the total before, equal to the sum of the lines left |
| Booking.FrozenForward | apps/sales/services.py:124-137 | from a confirmed sale on, no run changes its rate, raises its total or lets total_kgs drift; a cancelled sale never changes |
| Availability.OnHandAfter | apps/inventory/models.py:253-262 | the exact change each successful call makes to each variant's on-hand |
| Availability.ReservedAfter | apps/inventory/services.py:11-27 | the exact change each successful call makes to each variant's reserved units |
| Availability.AvailableKeptIff | apps/inventory/services.py:30-50 | confirm, cancel, return, produce, hand over and cancel-order never over-promise a variant; a manual booking, a recount and a new order do exactly when unguarded |
| Availability.RunAvailable | apps/inventory/services.py:30-50 | over every run of successful guarded calls nothing is over-promised |
| Availability.RunOnHand | apps/sales/services.py:83-105 | over every run whose manual bookings only add and whose recounts are non-negative, on-hand is never negative |
| Availability.HandOverIff | apps/orders/services.py:397-433 | an open order with lines can be handed over exactly when none of its variants is over-promised |
| Availability.HandOverKeepsAvailable | apps/orders/services.py:405-433 | handing over leaves every variant's available stock as it was |
| Availability.HandOverAll | apps/orders/services.py:397-433 | with nothing over-promised, any open orders with lines can all be handed over, in any sequence, each at its own time and rate |
| Availability.FulfilmentRoundTrip | apps/orders/services.py:26-50 | create, produce in full, hand over: succeeds exactly when no ordered variant was over-promised, and restores every on-hand and available |
| Queue.Group | apps/orders/services.py:122-165 | one bucket per asked variant, in first-seen order, with its sums and its nearest due date |
| Queue.ProductionQueue | apps/orders/services.py:99-190 | exactly one row per variant with open demand, right in every column, nearest deadline first |
| Queue.QueueCovers | apps/orders/services.py:122-190 | after taking in the queue, each variant's available stock in closed form, on any ledger: a listed variant is brought up to its demand, one not listed stays as it is |
| Queue.QueueSettles | apps/orders/services.py:122-190 | taking in the queue leaves nothing over-promised if and only if what that leaves of each variant covers the READY orders |
| Queue.QueueSettlesWithoutReady | apps/orders/services.py:99-190 | with no READY orders, taking in the queue suffices if and only if no variant it does not list is below zero on the shelf |
| Queue.WriteOffStaysBelowZero | apps/inventory/services.py:54-87 | after a write-off from an empty shelf the queue is empty and the variant stays over-promised |
| Queue.OrderLineProgress | apps/orders/services.py:234-295 | every figure of a row: made and remaining, stock, what other open orders claim, what is free, and the shortfall that is zero exactly when the line is coverable |
| Queue.HandOverImpliesCoverable | apps/orders/services.py:234-295 | an order that can be handed over shows every line as coverable |
| Queue.HandOverFromPage | apps/orders/services.py:234-295 | an open order can be handed over if and only if each of its variants, summed over its lines, fits the stock free for it |
| Queue.PageMisleadsExact | apps/orders/services.py:234-295 | "every line coverable" mirrors the handover if and only if it is not the case that every line fits alone while some variant's lines together do not |
| Queue.CoverableMirrorsHandOver | apps/orders/services.py:234-295 | so it always mirrors an order whose variants are distinct |
| Queue.RepeatedVariantMisleads | apps/orders/services.py:234-295 | two lines of one variant are each shown as coverable while the handover is refused |
| Race.CommitStock | apps/sales/services.py:50-122 | a commit lowers only variants it has locked and leaves none below zero |
| Race.CommitSold | apps/sales/services.py:58-122 | a commit keeps each sale's SALE_OUT at one set if it was written and none otherwise |
| Race.SaleCommit | apps/sales/services.py:58-189 | committing a confirmation takes exactly its lines off each variant, a cancellation puts exactly them back, historical sales move nothing, and no other sale changes |
| Race.RecountCommit | apps/inventory/services.py:90-107 | committing a recount moves its variant by count less what it read, every other variant stays |
| Race.ReadsExact | apps/sales/services.py:58-105 | what a transaction reads is what stands there: the sale's lines, each variant's on-hand |
| Race.CheckExact | apps/sales/services.py:83-105 | the check passes exactly when each variant less what is promised covers all lines, and what it passed on is still there at the commit |
| Race.LockExact | apps/sales/services.py:50-62 | with the order's lock, a confirmation goes on exactly when the sale is still a draft, a cancellation exactly when it is confirmed |
| Race.QuietSteps | apps/sales/services.py:50-147 | before its commit a transaction changes no ledger row, no sale and no other transaction |
| Race.LocksGivenBack | apps/sales/services.py:50-57 | a commit or an abort gives back all of its locks and nobody else's |
| Race.StepGood | apps/sales/services.py:50-147 | every single step of any transaction keeps the invariant of locks, reads, stock and sold sets |
| Race.EveryInterleaving | apps/inventory/services.py:90-107 | under every interleaving no on-hand is negative and each sale has at most one SALE_OUT set |
| Race.RecountExact | apps/inventory/services.py:97-107 | under every interleaving a recount leaves on-hand at the count plus what was added between its read and its commit, which is never negative |
| Till.OldestFirst | apps/sales/services.py:733-744 | open sales of the client in the currency, none twice |
| Till.OldestFirstOrder | apps/sales/services.py:733-744 | all of them, in order of confirmation, undated ones last |
| Till.ToVoid | apps/sales/services.py:884-910 | exactly the batch's originals that no row reverses yet |
| Till.Services.ReadPaidAmount | apps/sales/models.py:173-194 | exact nets summed over the sale's rows, divided by the sale's rate and rounded once |
| Till.Services.RecordPayment | apps/sales/services.py:542-723 | the stored row or the refusal, guard by guard, as a function of the request and the book; one row appended or none |
| Till.Services.MarkFullyPaid | apps/sales/services.py:726-730 | pays the outstanding balance in the sale's own currency through the same path |
| Till.Services.AllocateOldestFirst | apps/sales/services.py:747-772 | a pure preview: the rows match the open sales, their shares and what remains |
| Till.Services.PayOldestFirst | apps/sales/services.py:775-814 | all shares in one fresh batch, or nothing at all when one is refused or money is left over |
| Till.Services.VoidPayment | apps/sales/services.py:854-881 | appends the mirror row exactly when the payment is standing, original, outside any batch and permitted |
| Till.Services.VoidPaymentBatch | apps/sales/services.py:884-924 | appends a mirror row for every standing original of the batch, or refuses the whole |
| Till.Services.RecordDeposit | apps/orders/services.py:53-70 | a positive amount becomes one deposit row at today's rate, on no sale yet |
| Till.Spread | apps/sales/services.py:755-772 | the shrinking-remainder loop computes the shares and the rest |
| Money.StepDown | apps/sales/services.py:436-442 | rounding change down: a multiple of the step, not above the value, less than a step below |
| Money.ChangeArithmetic | apps/sales/services.py:504-539 | the excess is what the payment brings beyond the som balance, within the payment; ideal = change + residue, 0 <= residue < step, change a multiple of the step; change in som is given at face value, foreign change never worth more than the som change nor a unit less; change > 0 only once the debt is covered, and then the sale is overpaid by less than a step |
| Drawer.RecordedSound | apps/sales/services.py:664-723 | the stored row: the sale's client, what was asked at the one rate, change in som equal to the som change and foreign change worth it to less than one unit, change plus residue equal to the excess |
| Drawer.RunSound | apps/sales/models.py:540-601 | over every run, every row, mirrored or not, says truly what was handed back: worth the som change or less by under one unit, only as change, never more than was paid |
| Drawer.ChangeExact | apps/sales/services.py:636-693 | a payment that gives change is recorded exactly when its rate is known, the change can be given at it, its unrounded part is at most 100.00 and it is worth no more than was paid |
| Drawer.DebtOrCreditExact | apps/sales/services.py:636-663 | one that books its excess as debt or credit, exactly when its rate is known |
| Drawer.IgnoredExact | apps/sales/services.py:592-593 | passed over exactly on a walk-in's sale or an amount of zero or less; whatever is not recorded changes nothing |
| Drawer.RecordedRate | apps/sales/services.py:597-635 | over every run a payment without a rate of its own is kept at the rate last set for its currency, som at one, and one in another currency than the sale's needs a rate to have been set |
| Drawer.DepositRecorded | apps/orders/services.py:53-70 | over every run a positive deposit adds one row with its order, client, amount and currency at the rate last set; others add nothing |
| Money.NetVsExact | apps/sales/models.py:614-624 | stored som nets differ from the exact ones by at most half a cent a row |
| Money.AmountKgsNearest | apps/sales/models.py:614-617 | a stored row's som amount is its exact worth to the nearest cent, ties to even |
| Money.TwoBalances | apps/sales/services.py:457-465 | balance_kgs and rate x (total - paid) differ by at most 0.01 + 0.005 n + 0.005 R |
| Money.UndisposedExact | apps/sales/services.py:597-663 | in any book, a payment that says nothing about an excess is recorded exactly when its rate is known and its som value passes the som balance by no more than the tolerance |
| Money.SettleExact | apps/sales/services.py:726-730 | settling any outstanding sale is accepted exactly when the two balances are within the tolerance in that direction, and at an unmoved rate then leaves nothing owed |
| Money.SettleSucceeds | apps/sales/services.py:726-730 | with up to 201 rows that condition always holds for a som sale: settling is accepted, leaves balance 0 and status paid |
| Money.SettleFewRows | apps/sales/services.py:726-730 | in any currency at an unmoved rate, while rows plus rate are at most 200, settling is accepted, leaves balance 0 and status paid |
| Money.FewRowsFit | apps/sales/services.py:636-663 | then every part of the balance fits the guard |
| Money.SettleCanFail | apps/sales/services.py:636-663 | for every number of rows from 202 on there is an outstanding som sale with that many whose settling is refused |
| Money.OnePaymentOver | apps/sales/services.py:636-663 | one accepted payment (excess not booked as debt or credit, som at a rate of at most one) pushes net applied past the total by at most max(tolerance, step) + 0.01 |
| Money.OverpaymentBound | apps/sales/models.py:614-624 | from any book over any run of such payments and of voids, net applied exceeds total_kgs by at most what it did before, if it did, plus the number of payments since times that |
| Money.ReversalNet | apps/sales/services.py:817-851 | a mirror row's stored and exact nets are the negated originals |
| Money.RateAboveOneOvershoots | apps/sales/services.py:508-532 | for every som rate above one and every step, a payment the guard takes at face value passes the bound |
| Money.SomRateExact | apps/sales/services.py:508-532 | a hand-entered som rate keeps the bound for every payment if and only if it is at most one |
| Voids.OpInv | apps/sales/models.py:576-601 | every payment call keeps: one reversal a payment, none of a reversal, batches in one currency and void as a whole |
| Voids.LinkInv | apps/orders/services.py:426-432 | moving a production order's deposits to its sale keeps that invariant |
| Voids.RunInv | apps/sales/services.py:817-924 | that invariant in every reachable book |
| Voids.PaidNeverNegative | apps/sales/models.py:173-194 | no run makes what was paid towards a sale negative |
| Voids.VoidRestores | apps/sales/services.py:854-881 | voiding a payment that is on a sale leaves balance_kgs, paid_amount, balance and status as if it had never been |
| Voids.BatchVoidRestores | apps/sales/services.py:884-924 | voiding a standing batch takes exactly its rows out of every sale's figures |
| Voids.VoidThenLink | apps/orders/services.py:426-432 | a payment voided before a handover is gone from what the new sale counts as paid, exactly and in som, if and only if it was already on a sale, was no deposit of that order, or came to nothing |
| Voids.ReachableSettles | apps/sales/services.py:726-730 | the settling guarantee in every reachable book |
| Voids.ReachableOverpayment | apps/sales/services.py:636-663 | that bound from any reachable book, deposits carried over included |
| Repay.AllocationConserves | apps/sales/services.py:747-772 | shares + rest = amount, every share positive and within its sale, all but the last close theirs, a rest only when all are covered |
| Repay.ShareDecided | apps/sales/services.py:794-814 | in any book, one share of what a sale owes is recorded exactly as asked when its som value today passes the som balance by no more than the tolerance, and refused otherwise |
| Repay.SharesDecided | apps/sales/services.py:794-814 | in any book, all shares are recorded, one row each, exactly when every one of them fits; otherwise none |
| Repay.RepaymentExact | apps/sales/services.py:775-814 | in any book, a repayment is taken if and only if it is within the open total and every share fits, and is then recorded to the cent in one batch |
| Repay.RowsOn | apps/sales/models.py:173-194 | the batch adds exactly share times today's rate to what each reached sale counts |
| Repay.PaidAfter | apps/sales/models.py:173-194 | where today's rate is the frozen one, that raises what is paid by exactly the share |
| Repay.RepaymentSettles | apps/sales/services.py:775-814 | a repayment taken at an unmoved rate settles every sale reached but possibly the last and touches no other |
| Repay.StraightFits | apps/sales/services.py:636-663 | on a sale whose rows are at its frozen rate (a foreign one with at most 200 of them) every amount within the balance fits |
| Repay.EasyFits | apps/sales/services.py:636-663 | so does every amount within the balance where rows plus rate are at most 200 at an unmoved rate, or on a som sale with at most 201 rows |
| Repay.RepaymentTheorem | apps/sales/services.py:775-814 | where all open sales are of these kinds, a repayment is taken if and only if it is within the open total |
| Repay.BaseRepayment | apps/sales/services.py:775-814 | for som sales paid in som so far: taken exactly when within the open total, and then settled oldest first |
| Repay.MovedRateIsRefused | apps/sales/services.py:775-814 | when today's rate has moved above the frozen one, paying exactly what a foreign sale owes is refused |
| Repay.MovedRateSettleIsRefused | apps/sales/services.py:726-730 | so is settling it in one go, with no payment row yet |
| Statement.ClientDebts | apps/clients/services.py:145-211 | a currency is reported exactly when its quantized debt is above the tolerance or a credit, with that amount |
| Debts.ContributionNearest | apps/clients/services.py:191-197 | a payment counts in a debt for its net som value at the rate frozen on its sale, to the nearest sixth decimal place, ties away from zero |
| Debts.SaleWorth | apps/clients/services.py:191-197 | a sale's n rows count together for what it reports as paid, to within n halves of a sixth place and half a cent |
| Debts.DebtIsWhatSalesOwe | apps/clients/services.py:145-211 | a client's debt is the openings plus what each of the client's sales leaves owed in its own figures, total less paid when confirmed, minus paid when not, to within that slack |
| Debts.QuantizeNearest | apps/clients/services.py:199-211 | what is shown is the debt to the nearest cent, ties away from zero |
| Debts.BalanceAndStatus | apps/sales/models.py:161-230 | on a confirmed client sale with a positive total: unpaid exactly when nothing was paid; balance above zero exactly when not paid, but for a sale within the tolerance on which nothing was paid |
| Debts.OwesNothing | apps/sales/models.py:196-230 | a walk-in, a draft and a cancelled sale owe nothing; a walk-in is paid the moment it is confirmed |
| Debts.ReportedLikeBalance | apps/clients/services.py:199-211 | the debts view and the sale draw the line in the same place; every credit is shown |
| Statement.Keys | apps/clients/services.py:332-335 | the groups: every payment has one, none is empty, none repeats |
| Statement.Members | apps/clients/services.py:332-337 | a group holds only rows of its key and all keys with rows are non-empty |
| Statement.ByCurrency | apps/clients/services.py:284-374 | the entries of each currency, in order |
| Statement.WalkEntries | apps/clients/services.py:379-408 | opening, lines with running balance, and closing of a window |
| Statement.ServeOne | apps/clients/services.py:379-416 | one currency as served, with the aggregate's override, left out when there is nothing to show |
| Statement.ClientStatement | apps/clients/services.py:214-416 | the statement of every currency |
| Past.EntriesBooked | apps/clients/services.py:284-374 | every entry is what its kind says: an opening at its day, a confirmed sale at its confirmation, a payment or a void of the client's at a row's time; its two columns add up to its delta |
| Past.OpAdds | apps/sales/services.py:542-924 | every payment call only appends; each row carries the call's time, a payment its sale's client, a repayment's rows confirmed sales of that client in that currency, a mirror one standing original, a reviewed one only for a superuser |
| Past.PastIsKept | apps/clients/services.py:214-416 | no payment, repayment, deposit or void changes what a statement ending before its day opens or closes with |
| Past.ReviewedStands | apps/sales/services.py:854-924 | a reviewed payment that stands is unvoided after every run in which no superuser voids anything |
| Past.VoidTakesHold | apps/sales/services.py:854-881 | an original outside a batch is voided afterwards exactly when it was before, or the caller is a superuser or it was not reviewed |
| Reconcile.SameGroup | apps/clients/services.py:332-335 | two payments are one entry exactly when they are one row, or of one repayment and both its payments or both its voids |
| Reconcile.GroupedSum | apps/clients/services.py:332-374 | grouping by key loses and repeats nothing |
| Reconcile.GroupsSum | apps/clients/services.py:337-374 | the deltas of the group entries in a currency add up to minus the net payments on sales of that currency |
| Reconcile.WalkSums | apps/clients/services.py:379-408 | a walk over time-ordered entries ends and opens at plain sums over the timeline |
| Reconcile.LastLineCloses | apps/clients/services.py:379-408 | the last line shown carries the closing balance |
| Reconcile.WithinExact | apps/clients/services.py:379-408 | the entries of a window are exactly those from its first day to its last, both included |
| Reconcile.LinesRun | apps/clients/services.py:379-408 | over time-ordered entries the loop writes one line an entry of the window, in order, each with the opening and all entries up to it as its balance |
| Reconcile.WindowLines | apps/clients/services.py:379-408 | so do the lines of every statement |
| Reconcile.ServedExact | apps/clients/services.py:376-416 | a sheet carries the walked opening and lines, and the walked closing where the window ends; a currency is left out only when the client has no entry in it, or the window shows no line and opens and closes at zero |
| Reconcile.WindowsChain | apps/clients/services.py:214-416 | what a window up to d - 1 closes with, every window from d opens with |
| Reconcile.WalkReachesAggregate | apps/clients/services.py:284-408 | an open-ended walk ends at the aggregate less the confirmed sales without a date |
| Reconcile.BatchesHaveOneCurrency | apps/sales/services.py:775-814 | in every book the payment services can reach, each group is on sales of one currency |
| Reconcile.StatementAgrees | apps/clients/services.py:376-410 | in every reachable book with dated sales, the override of the closing never changes a value |
| Reconcile.DebtRestored | apps/clients/services.py:145-211 | voiding a payment that is on a sale puts every client's debt in every currency back where it was |
| Reconcile.BatchDebtRestored | apps/sales/services.py:884-924 | voiding a standing batch takes exactly its rows out of every client's debt in every currency |
| Reconcile.DebtAfterVoidThenLink | apps/orders/services.py:426-432 | the same for every client's debt: back as if the payment had never been exactly under those conditions |
| Office.RunInv | apps/orders/services.py:397-433 | over every run of the stock and payment services together: both invariants, the same sales, and som at a rate of one on every confirmed som sale |
| Office.StatementAgrees | apps/clients/services.py:376-410 | in every state they reach together, the override of the closing changes no value, with nothing assumed of the sales |
| Office.RunOwned | apps/sales/services.py:542-723 | over every joint run: a payment on a sale is by the sale's client, a deposit not yet on one by its order's |
| Office.DebtIsWhatSalesOwe | apps/clients/services.py:145-211 | in every such state, with nothing assumed: a client's debt is the openings plus what each of the client's sales leaves owed in its own figures, to within the slack |
| Office.PastIsKept | apps/clients/services.py:214-416 | in every such state no payment call changes what a statement ending before its day opens or closes with |
| Office.DrawerSound | apps/sales/models.py:540-601 | in every such state every payment row says truly what was taken in and handed back |
| Office.FreezesToday | apps/sales/services.py:124-147 | confirming and handing over freeze today's rate for the currency, the total in som at it and the time; a historical sale keeps its given date and moves no stock |
| Office.SettlesExact | apps/sales/services.py:726-730 | in every such state, settling an outstanding sale at an unmoved rate is taken exactly when it fits, always up to 201 rows for som and while rows plus rate are at most 200 otherwise, and then leaves nothing owed |
| Office.RepaysExact | apps/sales/services.py:775-814 | in every such state, repaying som is taken exactly when within the open total and every share fits, always where each open sale was paid in som only or has at most 201 rows, and then settles oldest first |
| Office.DepositsCarryOver | apps/orders/services.py:424-433 | handing an order over confirms a sale on which exactly the order's unlinked deposits count as paid |
| Office.OnePieceOk | apps/sales/services.py:124-147 | the one-piece sale of the settling and rate counterexamples is one confirmation leaves |
| Office.MovedRateSaleOk | apps/sales/services.py:124-147 | so is the foreign sale of the refused repayment |
| Costing.SplitCostProportionally | apps/manufacturing/services.py:142-175 | zero rows get zero, every positive row but the last its rounded share, the whole adds up to the total |
| Costing.SplitAccuracy | apps/manufacturing/services.py:142-175 | every positive row but the last within half a cent of its exact share, the last of m within (m - 1)/2 cents |
| Costing.NoNegativeExact | apps/manufacturing/services.py:142-175 | no share is negative if and only if the rounded shares of the rows before the last positive one do not exceed the total |
| Costing.BatchSpent | apps/manufacturing/views.py:397-430 | the expense rows a batch writes add up to its positive shares |
| Costing.BatchBooksTotal | apps/manufacturing/views.py:397-430 | a batch with an accepted unit books at least what was spent, one without books nothing; exactly what was spent if and only if some unit was accepted and the rounded shares before the last do not exceed the total |
| Costing.TotalLossDropsCost | apps/manufacturing/views.py:397-430 | every batch of defects only is accepted and books nothing of its cost |
| Costing.LastShareCanBeNegative | apps/manufacturing/services.py:142-175 | three cents over five rows of one unit: the last share is -0.01 and the batch books 0.04 |
| Costing.Workshop.Spend | apps/manufacturing/services.py:244-259 | a positive amount becomes one expense row; the run's expenses grow by its som value |
| Costing.RunBooked | apps/manufacturing/services.py:244-282 | the expenses booked to a run are exactly what was spent on it, and the unit cost its intake carries times the accepted units is within half a cent a unit of them |
| Costing.Workshop.RecordProductionRun | apps/manufacturing/services.py:178-297 | the exact acceptance condition and the whole new state: expenses, intake at the absorbed cost, cost price, labour owed for accepted units only |
| Costing.RunsBooked | apps/manufacturing/services.py:244-297 | over every run of the workshop: each run took in exactly its accepted units, a contractor is owed exactly the labour booked to runs with accepted units, a variant's cost price is the newest unit cost it came in at |
| Costing.Workshop.RecordBatch | apps/manufacturing/views.py:397-430 | accepted exactly when every row is, the whole new state or none of it, and the exact condition under which its expenses add up to the total |
| Cart.FirstOf | apps/pos/views.py:1284-1306 | the first line of a variant, or one past the end |
| Cart.CountAndFind | apps/pos/views.py:1284-1306 | units of a variant across all lines, and its first line |
| Cart.Session.PushState | apps/pos/undo.py:63-74 | the state goes on the bounded undo stack and the redo branch is dropped, unless it is already on top |
| Cart.Session.ItemAdd | apps/pos/views.py:1243-1306 | adds at most what is left of the variant across all lines; an empty draft takes the item's currency, another currency is refused |
| Cart.Session.ItemRemove | apps/pos/views.py:1316-1327 | the line is gone, the rest keep their order |
| Cart.Session.ItemDiscount | apps/pos/views.py:1382-1412 | percent clamped to 100, fixed to the subtotal, none zeroes the value |
| Cart.Session.Restore | apps/pos/undo.py:87-127 | lines come back in order, each down to what the earlier ones leave |
| Cart.Session.SaleUndo | apps/pos/undo.py:130-138 | one step back, the present on the redo stack; refused on an empty stack |
| Cart.Session.SaleRedo | apps/pos/undo.py:141-149 | one step forward, the present on the undo stack; refused on an empty stack |
| History.RestoreIdentity | apps/pos/undo.py:87-127 | a snapshot that still fits comes back exactly: the clamp never fires |
| History.RestoreFits | apps/pos/undo.py:97-124 | whatever the shelf has become, what comes back fits it |
| History.RestoreExact | apps/pos/undo.py:97-124 | as many units of each catalogued variant come back as there were, up to what is available; of others none |
| History.RestoredTerms | apps/pos/undo.py:97-124 | every line that comes back is one of the snapshot on the same terms, a fixed discount cut to what its units cost |
| History.AddExact | apps/pos/views.py:1243-1306 | adding takes at least one unit, at most what is available across all lines, of a variant of the cart's currency or into an empty cart; nothing else changes in number |
| History.AddTerms | apps/pos/views.py:1284-1306 | lines keep their terms and places; a new one is the first of its variant, at the catalogue price, without a discount |
| History.DiscountSet | apps/pos/views.py:1382-1412 | a fixed discount takes off what was typed but no more than the line costs, a percentage is at most the whole, every other line stays |
| History.RemoveExact | apps/pos/views.py:1316-1327 | removing takes the line's units out and keeps the rest in order |
| History.MutatedFits | apps/pos/views.py:1284-1306 | add, remove and discount keep every line valid and every variant within max(available, 0) across all lines |
| History.TopDiffers | apps/pos/undo.py:63-74 | with something to redo, the present is never on top of the undo stack, so an edit always drops the branch |
| History.EditCutsHistory | apps/pos/undo.py:63-74 | an edit appends to the history up to the cursor, keeps the newest 25 and empties the future |
| History.UndoMovesBack | apps/pos/undo.py:130-138 | undo moves the cursor back over an unchanged history |
| History.RedoMovesForward | apps/pos/undo.py:141-149 | redo moves the cursor forward over an unchanged history |
| History.UndoRedoIdentity | apps/pos/undo.py:130-149 | undo then redo is the identity on lines, client and both stacks |
| History.RedoUndoIdentity | apps/pos/undo.py:130-149 | redo then undo is the identity on lines, client and both stacks |
| History.EditThenUndo | apps/pos/undo.py:36-49 | undo takes an edit back on lines and client; the whole draft comes back exactly when the edit set no currency |
| History.RunOk | apps/pos/undo.py:63-149 | over every run: both stacks together hold at most 25 and the cart and all snapshots fit the shelf |
| History.ReachableCartConfirms | apps/sales/services.py:93-105 | a non-empty cart reached by any run passes confirm_sale while stock and reservations stand |
| RateLimit.Limiter.IsRateLimited | apps/core/ratelimit.py:80-93 | one request read off the counter of its window: limited exactly at the limit, otherwise counted |
| RateLimit.ServeOk | apps/core/ratelimit.py:80-93 | over every ordered trace: the counter is the admissions of its lifetime, and requests limit places apart are in different lifetimes |
| RateLimit.CountedClose | apps/core/ratelimit.py:80-93 | if any two counted requests are fewer than k apart, at most k are counted |
| RateLimit.RefusedExact | apps/core/ratelimit.py:80-93 | one at a time: a request is refused exactly when the running lifetime already has the limit of admissions; otherwise it is admitted, into the running lifetime or a new one |
| RateLimit.SequentialBounds | apps/core/ratelimit.py:80-93 | one at a time: at most the limit per lifetime, at most twice the limit in any interval of the window's length |
| RateLimit.InterleavedBound | apps/core/ratelimit.py:80-93 | W callers interleaving get, add and increment: at most limit + W - 1 admitted |
| RateLimit.AllReadFirst | apps/core/ratelimit.py:80-93 | the bound is met for every limit and every number of callers: limit - 1 requests one by one, then all callers read before any writes |
| Retention.Choose | docker/prune_backups.py:42-60 | the pass keeps exactly the recent, the newest of each day, the newest of each week, and nothing older |
| Retention.Units | docker/prune_backups.py:33-45 | the distinct stamps of the directory, newest first |
| Retention.Prune | docker/prune_backups.py:29-67 | exactly the files of dropped units are gone and counted; files without a stamp stay |
| Retention.DroppedHasNewerKept | docker/prune_backups.py:42-60 | every dropped unit up to 183 days old has a newer kept unit in its bucket |
| Retention.KeptExact | docker/prune_backups.py:42-60 | what is kept by age: all up to 7 days, up to 30 the newest of each calendar day, up to 183 the newest of each week, nothing older |
| Retention.PruneTwice | docker/prune_backups.py:29-67 | choosing again at the same instant among what was kept keeps all of it |
| Retention.SecondRunDeletesNothing | docker/prune_backups.py:29-67 | a second run at the same instant leaves every file that is there |

## Left out

- Intermediate precision: an exact sum divided once replaces the 28-digit divisions of Python's decimal context, which differ only beyond any amount the columns can hold; a payment's contribution to a debt is rounded to six places, half away from zero, as the column scale declares.
- Amounts below a cent, discounts below a hundredth of a percent and rates below a millionth: the columns round them before anything here reads them.
- Repay.RepaymentSettles: requires today's rate to be the frozen one on the open sales, because a share is credited at today's rate (Repay.RowsOn says by exactly how much); that rows do not add up to less than nothing holds in every reachable book (Voids.PaidNeverNegative).
- Money.OverpaymentBound: leaves out payments whose excess is booked as debt or credit, som payments at a hand-entered rate above one (Money.SomRateExact is why), and a change of the sale itself during the run.
- Voids.VoidRestores: requires the payment to be on a sale; what happens to a deposit that is not is Voids.VoidThenLink.
- Past.ReviewedStands: starts from any book, because no service sets the reviewed flag any more; older rows may carry it.
- Past.PastIsKept: speaks of the payment calls; a return, a historical confirmation or a handover can change earlier days, as a sale's total, its date and its deposits do.
- Reconcile.StatementAgrees: requires confirmed sales to carry a confirmation date, as payments alone cannot give it; Office.StatementAgrees has it from the sale services, and Reconcile.WalkReachesAggregate the exact difference without one.
- Booking.RunInStep: requires non-negative counts; Booking.IntakeExact says what a negative one does.
- RateLimit.InterleavedBound: one lifetime of the key, so the branch that re-seeds a key expired between add and increment is not reached there.
- Race.EveryInterleaving: a partial return appears only as stock being added, and the reservations a confirmation reads are arbitrary, which covers every way orders may change beside it; deadlock and lock order are not modelled.
- Shop.Services.HandOverOrder: does not link the deposits, which belong to the payment rows; Office.Apply does both, on values, and Office.DepositsCarryOver states the result.
- Shop.Services.MarkProduced: does not write the expense, cost-price and labour rows of a run with a contractor; those are Costing.Workshop.RecordProductionRun, and the two are not joined in one state.
- Costing.Workshop.RecordBatch: every row is recorded as a run; the row of the order being produced also advances that order, which is Shop.Services.MarkProduced.
- Stock and money as one class: Shop.Services and Till.Services are separate objects; Office joins them as values. Production costs are in neither.
- A hand-entered change amount, risk acknowledgement and owner overrides other than the rate: taken as not given.
- Where a movement or intake says what it was for: the model tags the row with the sale or order line; the source keeps that in a reason text, a production run or a link on the sale.
- The order of RETURN_IN rows within one return: booked in line order here, in the order of the submitted counts in the source; sums over them are the same.
- Cost prices frozen on sold lines at confirmation, revenue and margin reports, dashboards, spreadsheets.
- The queue's own list of due lines, overdue flags and summaries: presentation over the same rows.
- The contractor's balance and statement: accruals minus payments walked in the same shape as the client's statement, without batches or an aggregate to agree with, so they would add only easier members.
- Undo stacks of several drafts in one session and the limit on how many drafts are tracked: one draft is modelled; the client's search text and display strings are left out.
- The week a day belongs to: an arbitrary function of the day, which section 4.1.4 of ISO 8601:2004 fixes in the source; the proofs need nothing about it.
- Local days: a fixed offset of six hours, which is the configured time zone's.
- Ties in confirmation time: broken by the sale's key here, by the database in the source.
- Rate fetching and ageing, the product cache, views other than the cart's mutators, bots, notifications, history rows, users and permissions (a superuser flag is an input of the voids).
