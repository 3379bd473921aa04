# Delivery server: verified model

A Dafny model of the delivery server's back end and proofs about it. Four parts:

1. **Delivery and order lifecycle.** Orders, deliveries, approvals, payments and payment links of one
   tenant, and every request that changes them. `Lifecycle` states the net effect of each request as a
   function from rows to rows; `TenantStore.Store` runs the service's statements one after the other on
   mutable tables and is proved to give exactly that effect. Its `Valid()` says that the tables are those of
   the run of all requests served, so every theorem about runs (`LifecycleInvariant`, `LifecycleTotals`,
   `LifecycleHistory`, `RuleGate`, `Refusals`, `StrandedOrders`, `DriverProgress`, `DriverChange`,
   `StuckDeliveries`, `FinishedOrders`, `EditReplacement`, `Receivables`, `MoneyOwed`) is about the store
   too. `Finalisation` cuts the driver's finishing requests and payments by hand into single statements and
   interleaves them freely. `ExampleRuns` has parts of the concrete runs.
2. **Resilience.** `CircuitBreaker`, `Retry` and `MemoryCache` hold the objects; `BreakerTraces` and the
   second half of `MemoryCache` prove properties of every trace; `ResilienceStack` puts the three together,
   cut at every await, with any number of requests in flight, and carries the theorems over.
3. **CEP ranges and freight.** `Cep` has the string order and the numbers read from strings, `Directions` the
   table of ranges, `Freight` the two calculators that look it up, `Statistics` the count by region;
   `CepAgreement` says when the two ways of comparing CEPs agree.
4. **Tenant codes.** `CodeSequence` has the counter, its transactions and the printed code.

`ApprovalRules` is the rule set behind the approval gate, `Sums` adds a column over rows in any order, and
`Wrappers` has the shared result types. `dafny verify dfyconfig.toml` checks everything.

## Where the code does not do what was meant

For each property that fails, the exact condition under which it holds is proved, and an input is given for
which it does not.

- **Rejection strands orders.** The first statement of a rejection already cuts the orders loose, so the second
  one, which should set them to SEM_ROTA, finds none (`TenantStore.Store.RejeitarRoteiro`). They stay
  EM_ROTA_AGUARDANDO_LIBERACAO without a delivery. Rejections of their delivery are the only way an order gets
  there (`StrandedOrders.StrandedIff`), an edit that lists it the only way back (`StrandedOrders.RescuedIff`);
  `StrandedOrders.RejectedRun` is a run.
- **An edit can break another delivery's totals.** It never looks where an added order comes from. The totals
  are right after every request of a run if and only if no accepted edit takes weight or value from another
  delivery (`LifecycleTotals.RunConservesIff`); `LifecycleTotals.TakingEditBreaksTotals` is a run that does.
- **More than one payment for a delivery.** The payment's check and insert are separate statements. Finishing
  requests for the last orders, two for one order included, and payments by hand end with exactly one link in
  every interleaving if and only if the delivery had one before or there is a single request
  (`Finalisation.ExactlyOneLinkIff`); otherwise they can insert one each (`Finalisation.EachPays`), and runs lead
  there (`Finalisation.TwoInDelivery`). With check and insert in one serialisable step the finishing requests
  keep the whole invariant (`Finalisation.InterleavedKeepsInv`).
- **A started delivery can lose its last unfinished order** to a remove-order or an edit. Finalisation is only
  tried when an order is finished, so nothing the driver does can end it any more
  (`StuckDeliveries.StuckIff`, `StuckDeliveries.RemovalSticks`), only an edit, a recall or a removal
  (`StuckDeliveries.UnstuckIff`).
- **Finished orders are undone.** A delivery sent back for approval takes its delivered orders back to waiting,
  and an edit of another delivery may take them. `FinishedOrders.StaysFinishedIff` lists all the ways,
  `FinishedOrders.DeliveredWaitsAgain` is a run.
- **A driver's receivable and his pending payments can differ.** `MoneyOwed.UnbalancedIff` says exactly which
  requests make them differ, for instance a payment by hand of a delivery with a freight, or a remove-order that
  changes the freight of a finalised delivery not yet paid; `MoneyOwed.RunBalancedIff` says it of whole runs and
  `MoneyOwed.PaidByHandEarly` is one.
- **CEPs that are not eight digits.** The statistics compare what parseInt reads, the freight lookup compares
  strings. On ranges with eight-digit bounds they agree for eight-digit CEPs and for those that neither reads
  nor sorts among them, and for no others (`CepAgreement.AgreementIff`, `Statistics.SameRegionIff`). A hyphen
  breaks the agreement on some ranges and not on others (`CepAgreement.HyphenCompares`,
  `CepAgreement.HyphenDisagrees`). Request validation asks for eight characters, not digits, so bounds may break
  it as well: `CepAgreement.BoundsAgreeIff`, `CepAgreement.HyphenInBound`.
- **A region called "constructor"** or any other name every JavaScript object has is not counted by the
  statistics (`Statistics.GetNotesByRegion`, `Statistics.NothingLostIff`, `Statistics.ConstructorIsLost`).
- `minDeliveryPercentage` is compared as an upper limit of the freight share, as the code's message says and
  its name does not.

## Model

| member | source | states |
|---|---|---|
| ApprovalRules.Validate | src/delivery/providers/tenant-approval.validator.ts:12-55 | needsApproval exactly when some rule is violated; the reasons are exactly the violated rules, in the order tested; a rule that is null is off and the share rule needs a positive total |
| ApprovalRules.EachRuleAlone | src/delivery/providers/tenant-approval.validator.ts:18-46 | each rule on its own compares its own column with its own bound, and the bound passes: value, weight and number of orders must not be below theirs, 100 times the freight must not exceed the share times the value, which is only looked at for a positive value |
| ApprovalRules.RulesAddUp | src/delivery/providers/tenant-approval.validator.ts:48-51 | together the rules need approval exactly when one of them alone does |
| ApprovalRules.BetterNeverNeedsApproval | src/delivery/providers/tenant-approval.validator.ts:18-46 | more value, weight or orders and less freight never make an approval needed, once the value is positive |
| TenantStore.SumColumn | src/delivery/delivery.service.ts:191-195 | a reduce over rows in any order gives the sum of the column |
| TenantStore.CountMatches | src/delivery/delivery.service.ts:175-184 | comparing the number of rows found with the number of ids accepts exactly lists of distinct ids that were all found |
| TenantStore.Store.CreateDelivery | src/delivery/delivery.service.ts:175-244 | refuses unless every listed order is there once and SEM_ROTA; otherwise the new delivery stores sums, freight and a status set by the rule check, and exactly the listed orders join it |
| TenantStore.Store.RouteOrders | src/delivery/delivery.service.ts:233-242 | the write loop gives each listed order its status, delivery and last sort value and touches no other |
| TenantStore.Store.LiberarRoteiro | src/delivery/delivery.service.ts:389-415 | only from A_LIBERAR; the delivery starts, its waiting orders become EM_ROTA, one APPROVED row is added |
| TenantStore.Store.RejeitarRoteiro | src/delivery/delivery.service.ts:448-477 | only from A_LIBERAR; the delivery is rejected and its orders only lose their delivery, because the second update matches nothing |
| TenantStore.Store.UpdateOrderStatus | src/delivery/delivery.service.ts:512-602 | the checks in their order, one status step, and finalisation with automatic payment when nothing is left |
| TenantStore.Store.FinaliseWhenDone | src/delivery/delivery.service.ts:567-602 | counting zero unfinished orders is the same as all being finished; then the delivery is finalised and paid unless a link exists |
| TenantStore.Store.Update | src/delivery/delivery.service.ts:660-803 | the edit in the order of its statements equals replacement of the list followed by reassessment |
| TenantStore.Store.ReplaceOrders | src/delivery/delivery.service.ts:705-739 | the diff, the two bulk updates and the sorting loop refine plain replacement; an id that does not exist rolls everything back |
| TenantStore.Store.WriteSortings | src/delivery/delivery.service.ts:733-738 | each listed order ends with the last sort value listed for it; complete exactly when all ids exist |
| TenantStore.Store.StoreAssessment | src/delivery/delivery.service.ts:764-803 | a started delivery that breaks a rule goes back to A_LIBERAR with all its orders; otherwise only its numbers change |
| TenantStore.Store.RemoveOrderFromDelivery | src/delivery/delivery.service.ts:860-935 | totals taken over the orders read before the write equal the totals of what is left; then reassessed as an edit |
| TenantStore.Store.RemoveDelivery | src/delivery/delivery.service.ts:820-847 | refused only when started with an order in delivery; otherwise orders are freed and approvals, links and the row are gone |
| TenantStore.Store.UploadOrder | src/orders/orders.service.ts:92-129 | an uploaded order is SEM_ROTA and on no delivery |
| TenantStore.Store.CreatePayment | src/payments/payments.service.ts:57-111 | refused when the delivery is missing or has a link; otherwise a pending payment of its freight and one link |
| TenantStore.Store.MarkAsPaid | src/payments/payments.service.ts:186-237 | all or nothing: distinct existing pending payments become PAGO |
| TenantStore.Store.UpdateStatus | src/payments/payments.service.ts:239-263 | sets the status of one existing payment and nothing else |
| TenantStore.Store.RevertPaymentToPending | src/payments/payments.service.ts:265-291 | only from PAGO |
| LifecycleInvariant.StepKeeps | src/delivery/delivery.service.ts:155-954 | every request, accepted or not, keeps alignment, referential integrity, link exactness and unused ids |
| LifecycleInvariant.RunKeeps | src/delivery/delivery.service.ts:155-954 | in every reachable state: waiting orders on A_LIBERAR, moving or finished ones on INICIADO, finished ones on FINALIZADO, none on REJEITADO; nothing points at a deleted delivery |
| LifecycleInvariant.FinaliseKeeps | src/delivery/delivery.service.ts:578-602 | finalising a delivery whose orders are all finished leaves it with exactly one link |
| LifecycleInvariant.EditKeeps | src/delivery/delivery.service.ts:703-803 | alignment survives an edit even when it takes orders from other deliveries |
| LifecycleInvariant.RejectKeeps | src/delivery/delivery.service.ts:456-477 | a rejected delivery has no orders left |
| RuleGate.CreationGate | src/delivery/delivery.service.ts:189-209 | a new delivery has as many orders as were listed and waits for approval exactly when its own totals, freight and number of orders break a rule |
| RuleGate.EditGate | src/delivery/delivery.service.ts:753-785 | after an edit a started delivery is sent back exactly when it now breaks a rule; a waiting one waits on |
| RuleGate.RemoveOrderGate | src/delivery/delivery.service.ts:883-935 | the same after a remove-order, which leaves the driver alone |
| Refusals.DriverStepIff | src/delivery/delivery.service.ts:512-560 | exactly the steps a driver can take, a reason being needed for NAO_ENTREGUE, and the error of every other |
| Refusals.RemovalIff | src/delivery/delivery.service.ts:820-835 | a delivery can be removed unless one of its orders is in delivery |
| Refusals.RemovalFrees | src/delivery/delivery.service.ts:836-847 | the delivery, its approvals and links are gone, its orders free with their weight and value and no sort value, and nothing else has changed |
| Refusals.RemovedCanBeRouted | src/delivery/delivery.service.ts:175-184 | those orders can be put on a new delivery at once |
| Refusals.UploadStores | src/orders/orders.service.ts:92-129 | an uploaded order is new and has the weight, value and sort value given; a delivery of it alone has them for totals |
| Refusals.CreationIff | src/delivery/delivery.service.ts:175-184 | a creation is accepted exactly when every listed order is listed once, there and SEM_ROTA |
| Refusals.WrongStatusIsBadRequest | src/delivery/delivery.service.ts:389-396 | decisions are for waiting deliveries and edits for waiting and started ones; a missing order in an edit is not found |
| Refusals.RemoveOrderIff | src/delivery/delivery.service.ts:864-876 | exactly an order of the delivery can be removed from it |
| Refusals.MarkingIff | src/payments/payments.service.ts:186-215 | payments are marked exactly when the list is not empty and names distinct pending payments |
| Refusals.PaymentStatusIff | src/payments/payments.service.ts:239-285 | any status can be set on a payment that is there, only a PAGO one is reverted; the error of every other |
| Refusals.StatusIsWritten | src/payments/payments.service.ts:216-285 | marking, setting and reverting write the status of the payments named and nothing else |
| Refusals.TwiceIsRefused | src/delivery/delivery.service.ts:175-954 | an accepted creation, decision, driver step, removal, payment, marking or reversal sent again is refused, with the error stated |
| LifecycleTotals.RunConservesIff | src/delivery/delivery.service.ts:191-244 | totalPeso and totalValor of every delivery that is not rejected are the sums over the orders that point at it after every request of a run, if and only if no accepted edit of it takes weight or value from another delivery |
| LifecycleTotals.EditConservesIff | src/delivery/delivery.service.ts:705-752 | an accepted edit keeps all totals if and only if what it takes from each other delivery weighs nothing and is worth nothing |
| LifecycleTotals.EditConservesIffFree | src/delivery/delivery.service.ts:705-732 | when orders have weight, that is exactly: it lists only orders that are free or already its own |
| LifecycleTotals.TakingEditBreaksTotals | src/delivery/delivery.service.ts:723-732 | a run of five requests after which a delivery's totals are wrong |
| LifecycleTotals.RemoveOrderConserves | src/delivery/delivery.service.ts:878-935 | removing an order keeps every delivery's totals |
| LifecycleTotals.CreateConserves | src/delivery/delivery.service.ts:186-244 | the sums stored at creation are those of the orders that now point at the delivery |
| LifecycleHistory.HistoryIsPath | src/delivery/delivery.service.ts:197-803 | the statuses of a delivery over any run form a path of the allowed moves, starting at A_LIBERAR or INICIADO; FINALIZADO and REJEITADO are left only by removal, and a removed delivery never returns |
| LifecycleHistory.GateHolds | src/delivery/delivery.service.ts:197-935 | an INICIADO delivery passed its last rule check or was approved after its last failing one, and the last check of any delivery was made on the totals and freight it still has |
| LifecycleHistory.ApprovalsOnRecord | src/delivery/delivery.service.ts:412-414 | the approvals the gate counts are exactly the APPROVED rows kept for the delivery |
| LifecycleHistory.RejectionsOnRecord | src/delivery/delivery.service.ts:469-476 | after any run a delivery has exactly one REJECTED row when it is rejected and none otherwise |
| LifecycleHistory.PaymentsKeepTheirAmount | src/payments/payments.service.ts:81-105 | every payment was created pending and linked for the freight its delivery had then, and still has that amount and driver |
| LifecycleHistory.LinkCounts | src/payments/payments.service.ts:72-79 | at most one link per delivery, exactly one when finalised, none when the delivery is gone |
| StrandedOrders.StrandedIff | src/delivery/delivery.service.ts:460-467 | an order is left without a delivery but not SEM_ROTA by exactly one kind of request: the accepted rejection of the delivery it is on |
| StrandedOrders.RescuedIff | src/delivery/delivery.service.ts:705-732 | and stops being so by exactly one kind: an accepted edit, of any delivery, that lists it |
| StrandedOrders.StrandedByRejection | src/delivery/delivery.service.ts:460-467 | in any run such an order was left waiting by a rejection of the delivery it was on, and is unchanged since |
| StrandedOrders.RejectionStrandsAll | src/delivery/delivery.service.ts:456-467 | a rejection leaves every order of the delivery waiting, with its sort value |
| StrandedOrders.StrandedIsNotRoutable | src/delivery/delivery.service.ts:176-184 | a stranded order cannot be put on a new delivery |
| StrandedOrders.RejectedRun | src/delivery/delivery.service.ts:448-477 | a run of upload, creation under a failing rule and rejection that strands an order |
| DriverProgress.ApprovalStarts | src/delivery/delivery.service.ts:399-415 | an approved delivery has its whole work ahead: the rank sum is twice its number of orders, each can be taken into delivery, and it can still be removed; other orders keep their rows |
| DriverProgress.CreationStarts | src/delivery/delivery.service.ts:186-244 | so has a new delivery, at once or when approved, and its orders are exactly the listed ones |
| DriverProgress.DriverStep | src/delivery/delivery.service.ts:533-584 | an accepted step lowers the delivery's rank sum by exactly one and finalises it in the very step that reaches zero |
| DriverProgress.DriverStepElsewhere | src/delivery/delivery.service.ts:562-584 | it changes no other delivery |
| DriverProgress.SomeStepAccepted | src/delivery/delivery.service.ts:101-110 | while the rank sum is positive some step of the delivery's driver is accepted |
| DriverProgress.ExactlyRankSumSteps | src/delivery/delivery.service.ts:537-584 | in any order of work the delivery is finalised after exactly rank-sum accepted steps, and no further step is accepted |
| DriverProgress.DriverCanFinish | src/delivery/delivery.service.ts:537-584 | from every started delivery a list of exactly rank-sum accepted steps exists; it ends finalised unless nothing was left to do |
| StuckDeliveries.StuckMeansNoStep | src/delivery/delivery.service.ts:533-584 | a started delivery has no accepted driver step left exactly when all its orders are finished |
| StuckDeliveries.StuckIff | src/delivery/delivery.service.ts:567-584 | exactly which requests leave a started delivery with nothing to finish: creation without orders, approval of an empty delivery, an edit that keeps only finished orders, another delivery's edit that takes all unfinished ones, removal of the last unfinished order; where a rule check is made, only if it passes |
| StuckDeliveries.UnstuckIff | src/delivery/delivery.service.ts:705-935 | exactly which requests free such a delivery: an edit that lists an order from elsewhere, an edit or remove-order that sends it back, its removal |
| StuckDeliveries.RemovalSticks | src/delivery/delivery.service.ts:860-948 | a run whose remove-order leaves such a delivery |
| FinishedOrders.StaysFinishedIff | src/delivery/delivery.service.ts:705-935 | a finished order stays finished under a request if and only if it is not dropped, sent back, taken by another delivery's edit, removed, or on a removed delivery |
| FinishedOrders.FinishedThroughoutIff | src/delivery/delivery.service.ts:705-935 | and over any further requests if and only if none of them does that |
| FinishedOrders.FinalisedUndoneBy | src/delivery/delivery.service.ts:820-935 | on a finalised delivery only its removal, the removal of the order and another delivery's edit undo it |
| FinishedOrders.DeliveredWaitsAgain | src/delivery/delivery.service.ts:764-780 | a run after which an edit that changes nothing sets a delivered order back to waiting |
| DriverChange.EditChangesDriver | src/delivery/delivery.service.ts:688-700 | the driver is the one sent, or the old one, the freight the one worked out; other deliveries are untouched |
| DriverChange.OnlyTheDriver | src/delivery/delivery.service.ts:533-545 | on a started delivery with work left exactly its own driver has an accepted step |
| DriverChange.EditHandsOver | src/delivery/delivery.service.ts:688-700 | so after an edit exactly the driver sent has |
| DriverChange.WorkEndsInPayment | src/delivery/delivery.service.ts:567-602 | all accepted steps are the driver's, and when they have finished an unpaid delivery its freight is payable to him |
| EditReplacement.EditReplaces | src/delivery/delivery.service.ts:705-780 | afterwards the delivery's orders are exactly the listed ones; dropped ones are free; kept ones keep their status unless sent back; others are untouched |
| EditReplacement.EditSorts | src/delivery/delivery.service.ts:733-738 | the last sort value given for an order wins; without one the old value stays |
| EditReplacement.EditTwice | src/delivery/delivery.service.ts:703-803 | repeating an edit changes nothing more |
| EditReplacement.CreatePlaces | src/delivery/delivery.service.ts:233-242 | a creation puts a listed order on the new delivery with its weight and value unchanged and touches no other |
| EditReplacement.CreateSorts | src/delivery/delivery.service.ts:236-240 | it stores the sort value given, or leaves the old one |
| Finalisation.NoLostFinalisation | src/delivery/delivery.service.ts:527-602 | under every interleaving of one finishing request per order in delivery, none is refused and the delivery ends finalised with a payment |
| Finalisation.NoEarlyFinalisation | src/delivery/delivery.service.ts:562-584 | at no point of any interleaving is it finalised while an order is unfinished |
| Finalisation.InterleavedKeepsInv | src/payments/payments.service.ts:72-105 | the final state satisfies the whole invariant when the delivery had a link before, or one request runs, or check and insert are made one step |
| Finalisation.ExactlyOneLinkIff | src/payments/payments.service.ts:72-105 | with check and insert apart, as they are, every interleaving of any finishing requests for the last orders, several for one order included, and any payments by hand leaves exactly one link if and only if the delivery had one before or there is a single request |
| Finalisation.EachPays | src/payments/payments.service.ts:72-105 | otherwise there is an interleaving in which every one of them inserts a payment and link of its own |
| Finalisation.TwoInDelivery | src/delivery/delivery.service.ts:512-602 | a run that leads to such a start |
| Finalisation.AloneIsAtomic | src/delivery/delivery.service.ts:512-602 | a request whose statements run uninterrupted has exactly the effect of the atomic driver step |
| Receivables.GetDriverReceivables | src/mobile/mobile.service.ts:289-324 | the loop returns the freight of the driver's finalised deliveries without a paid link |
| Receivables.UnpaidPlusPaid | src/mobile/mobile.service.ts:310-321 | unpaid and paid freight add up to all freight of the driver's finalised deliveries |
| Receivables.MarkingLowersReceivable | src/payments/payments.service.ts:194-226 | marking payments as paid lowers the receivable by exactly the freight of the deliveries they are linked to |
| Receivables.MarkThenRevert | src/payments/payments.service.ts:265-285 | reverting them, in any order, restores every row |
| MoneyOwed.ReceivableAndPending | src/mobile/mobile.service.ts:289-324 | the receivable is the sum of the driver's pending linked payments plus, delivery by delivery, what it adds to the first less what it adds to the second |
| MoneyOwed.EvenMeansBalanced | src/mobile/mobile.service.ts:289-324 | they are equal for every driver in particular while each linked delivery adds the same to both |
| MoneyOwed.UnbalancedIff | src/delivery/delivery.service.ts:567-935 | from equality for every driver, an accepted request keeps it if and only if it is not: a payment by hand or the finalisation of a delivery paid by hand, not PAGO, with a freight; a remove-order that changes the freight of an unpaid finalised delivery; a removal or payment status change under which freight and amount do not move alike for every driver |
| MoneyOwed.RunBalancedIff | src/delivery/delivery.service.ts:567-935 | receivables and pending payments are equal for every driver after every request of a run if and only if no request of it is one of these |
| MoneyOwed.PaidByHandEarly | src/payments/payments.service.ts:81-105 | a run of upload, creation with a freight of 5 and payment by hand after which they differ |
| CircuitBreaker.CircuitInfo.UpdateCircuitState | src/infrastructure/resilience/circuit-breaker.service.ts:92-108 | an open circuit whose time has come turns half-open with no successes; otherwise an expired monitoring window zeroes the failures |
| CircuitBreaker.CircuitInfo.OnSuccess | src/infrastructure/resilience/circuit-breaker.service.ts:110-119 | half-open successes count up to the close; elsewhere a success takes back one failure, never below zero |
| CircuitBreaker.CircuitInfo.OnFailure | src/infrastructure/resilience/circuit-breaker.service.ts:121-152 | counts, stamps the time, and opens from half-open or at the threshold |
| CircuitBreaker.OverridesWin | src/infrastructure/resilience/circuit-breaker.service.ts:48-66 | each configuration field the caller gives replaces the default, and no other |
| CircuitBreaker.CircuitBreakerService.Begin | src/infrastructure/resilience/circuit-breaker.service.ts:48-80 | creates or finds the named circuit, refreshes it and calls the operation unless it is open; no other circuit changes |
| CircuitBreaker.CircuitBreakerService.End | src/infrastructure/resilience/circuit-breaker.service.ts:82-89 | records exactly one outcome on the circuit held since the beginning |
| BreakerTraces.QuietWindow | src/infrastructure/resilience/circuit-breaker.service.ts:67-152 | after a trip at t no operation starts before t + resetTimeout, in any interleaving of calls in flight |
| BreakerTraces.RetripExtends | src/infrastructure/resilience/circuit-breaker.service.ts:146-152 | a later trip never brings the end of the window nearer |
| BreakerTraces.LetsThroughIff | src/infrastructure/resilience/circuit-breaker.service.ts:67-101 | a beginning calls the operation exactly when the circuit was not open or resetTimeout has passed since its last trip |
| BreakerTraces.SetBackIff | src/infrastructure/resilience/circuit-breaker.service.ts:102-107 | a beginning zeroes the failure counter exactly when the last failure is more than monitoringPeriod ago, by its own time, and it does not reopen the circuit |
| BreakerTraces.CounterIsMaxSuffix | src/infrastructure/resilience/circuit-breaker.service.ts:92-135 | the failure counter is the maximum over all suffixes of the outcomes since the last zeroing of failures minus successes |
| BreakerTraces.ClosedTripsIffRun | src/infrastructure/resilience/circuit-breaker.service.ts:121-135 | a closed circuit trips exactly when some contiguous run of those outcomes has an excess of failureThreshold |
| BreakerTraces.FailuresOpen | src/infrastructure/resilience/circuit-breaker.service.ts:102-135 | failureThreshold failures of a closed circuit, no success among them and every beginning within the period of the last failure, open it |
| BreakerTraces.RareFailuresNeverOpen | src/infrastructure/resilience/circuit-breaker.service.ts:102-135 | failures that each have a beginning more than the period after them before the next never open it, for a threshold of at least 2 |
| BreakerTraces.ClosesAfterThreshold | src/infrastructure/resilience/circuit-breaker.service.ts:92-161 | it closes only from half-open, on exactly the successThreshold-th success since the trial began, with no failure since |
| BreakerTraces.ReachableBounds | src/infrastructure/resilience/circuit-breaker.service.ts:92-161 | in every reachable state both counters are below their thresholds where they matter, and an open circuit reopens no later than resetTimeout after its last failure |
| Retry.ExecuteWithRetry | src/infrastructure/resilience/retry.service.ts:26-75 | between 1 and maxAttempts calls, all but the last failed retryably, the last one's outcome is the result, one delay between two calls; no call at all when maxAttempts is below 1 |
| Retry.AttemptsUnique | src/infrastructure/resilience/retry.service.ts:35-63 | the number of calls is determined by what they come back with |
| Retry.DelayBounds | src/infrastructure/resilience/retry.service.ts:77-88 | a delay is within ten per cent of the capped backoff before rounding and never above round(1.1 maxDelay) |
| Retry.BackoffGrows | src/infrastructure/resilience/retry.service.ts:77-80 | backoffs never shrink when the multiplier is at least 1 |
| Retry.BackoffMultiplies | src/infrastructure/resilience/retry.service.ts:77-80 | the first backoff is the base, each further one the multiplier times the one before, all capped |
| Retry.RetriedStatuses | src/infrastructure/errors/is-retryable.helper.ts:7-31 | an answer is tried again exactly for a status of 500 or more, 408 or 429, unless its code says so |
| Retry.RetriedCodes | src/infrastructure/errors/is-retryable.helper.ts:7-31 | without a status exactly eight connection errors are |
| Retry.CallsOfFailures | src/infrastructure/resilience/retry.service.ts:35-63 | failing calls stop after the first if it is not of these kinds and go on to maxAttempts if all are |
| Retry.CustomOnlyAdds | src/infrastructure/resilience/retry.service.ts:45-53 | a predicate of the caller can only add errors that are tried again |
| Retry.DelayIsNearest | src/infrastructure/resilience/retry.service.ts:77-88 | the delay is the whole number of milliseconds nearest to the backoff, or with jitter to the point 0.9 + 0.2 random of it |
| Retry.SleepBound | src/infrastructure/resilience/retry.service.ts:65-88 | one execution sleeps at most (maxAttempts - 1) times round(1.1 maxDelay) |
| MemoryCache.MemoryCacheService.Get | src/infrastructure/cache/memory-cache.service.ts:37-52 | the value when present and not expired; an expired entry is deleted |
| MemoryCache.MemoryCacheService.Set | src/infrastructure/cache/memory-cache.service.ts:54-60 | stores the value until now + 1000 ttl |
| MemoryCache.MemoryCacheService.CleanExpiredEntries | src/infrastructure/cache/memory-cache.service.ts:90-104 | removes exactly the expired entries and counts them |
| MemoryCache.GetRefinesTimedMap | src/infrastructure/cache/memory-cache.service.ts:37-104 | after any run under a monotone clock a read returns v exactly when the last write to the key set v, nothing deleted it since, and its time to live is not over |
| MemoryCache.HousekeepingInvisible | src/infrastructure/cache/memory-cache.service.ts:43-47 | a read or a sweep at any moment changes no later answer |
| MemoryCache.CleanedIsLive | src/infrastructure/cache/memory-cache.service.ts:37-104 | right after a sweep, or a read of the key, the table holds a key exactly when it is live |
| ResilienceStack.MapsAdapter.BeginRequest | src/routes/adapters/base-maps.adapter.ts:29-43 | a truthy cached value is returned; otherwise a new request is on its way to the breaker |
| ResilienceStack.MapsAdapter.AskBreaker | src/infrastructure/resilience/circuit-breaker.service.ts:67-80 | the request goes on, to its first call, exactly when the refreshed circuit is not open; otherwise it ends |
| ResilienceStack.MapsAdapter.CallReturned | src/infrastructure/resilience/retry.service.ts:35-71 | one turn of the loop: the request sleeps exactly when the outcome does not stop the retry, for the delay of its attempt |
| ResilienceStack.MapsAdapter.Retried | src/infrastructure/resilience/retry.service.ts:65-71 | when the sleep is over the next call is made |
| ResilienceStack.MapsAdapter.SettleOutcome | src/infrastructure/resilience/circuit-breaker.service.ts:82-89 | one outcome for the breaker, after the awaited retry; a success goes on to the cache if it is enabled |
| ResilienceStack.MapsAdapter.StoreResult | src/routes/adapters/base-maps.adapter.ts:45-46 | the result is stored under the key of its request, for the time to live given or the default |
| ResilienceStack.CircuitProjects | src/routes/adapters/base-maps.adapter.ts:49-56 | the circuit inside any interleaving of requests is a circuit after a trace of its own |
| ResilienceStack.CacheProjects | src/routes/adapters/base-maps.adapter.ts:29-47 | the cache inside any interleaving, sweeps and other users of the cache included, is a cache after a run of its own operations |
| ResilienceStack.OneOutcomePerRequest | src/infrastructure/resilience/circuit-breaker.service.ts:82-89 | each request that was let through and is over, or only has its result to store, has given the breaker exactly one outcome, a success exactly when its last call returned; any other has given none |
| ResilienceStack.LedgerBalances | src/routes/adapters/base-maps.adapter.ts:49-56 | in all, requests let through = outcomes given to the breaker + requests whose outcome is still awaited |
| ResilienceStack.AccountHolds | src/infrastructure/resilience/retry.service.ts:35-71 | at any moment: a request in a call or asleep has had fewer than maxAttempts calls come back, all failed retryably; one that is over made between 1 and maxAttempts and stopped where the retry stops; one that was not let through made none |
| ResilienceStack.CallsPerRequest | src/infrastructure/resilience/retry.service.ts:35-71 | a request let through makes between 1 and maxAttempts calls, any other none |
| ResilienceStack.NextCallWaits | src/infrastructure/resilience/retry.service.ts:65-88 | a call that is not a request's first is made no earlier than the return of the one before plus its delay |
| ResilienceStack.NothingLeftWhenServedOrOpen | src/routes/adapters/base-maps.adapter.ts:34-43 | a hit leaves breaker and requests alone; a request that is not let through is gone |
| ResilienceStack.ServedIsFresh | src/routes/adapters/base-maps.adapter.ts:38-46 | a served value came back from a call made for the same key, or was set under it by another user of the cache, at most its time to live ago |
| ResilienceStack.ServedIff | src/routes/adapters/base-maps.adapter.ts:34-43 | a read is served exactly when the cache is on and its timed map holds a truthy value for the key, and then that value |
| ResilienceStack.KeptSinceRead | src/routes/adapters/base-maps.adapter.ts:29-46 | a request keeps the key it was read with and the time to live given, or the default when none or zero was |
| ResilienceStack.SettledGoesOn | src/routes/adapters/base-maps.adapter.ts:45-46 | a request whose last call returned goes on to store the value exactly when the cache is on; any other is over |
| ResilienceStack.StoredIsServed | src/routes/adapters/base-maps.adapter.ts:38-46 | a value just stored is what a read of its key is served for its time to live |
| ResilienceStack.StackQuietWindow | src/routes/adapters/base-maps.adapter.ts:49-56 | no request is let through within resetTimeout of one that tripped the circuit |
| ResilienceStack.CallsInQuietWindow | src/infrastructure/resilience/retry.service.ts:35-71 | within that time calls are made only for requests let through before the trip, at most maxAttempts - 1 more each |
| Cep.LexicographicIsNumeric | src/statistics/statistics.service.ts:379-383 | for digit strings of equal length string order is numeric order |
| Cep.FromIsInterval | src/directions/directions.service.ts:69-73 | the digit strings that sort from any given string on are an interval of numbers |
| Cep.UpToIsInterval | src/directions/directions.service.ts:69-73 | and so are those that sort up to it |
| Cep.BlanksAreSkipped | src/statistics/statistics.service.ts:379-383 | parseInt: blanks before the number are skipped |
| Cep.SignsAreRead | src/statistics/statistics.service.ts:379-383 | parseInt: one sign before the first digit is read, and a minus turns the number round |
| Cep.HexIsRead | src/statistics/statistics.service.ts:379-383 | parseInt: after 0x or 0X the digits are hexadecimal |
| Cep.LeTransitive | src/directions/directions.service.ts:69-73 | the string order the range queries rely on is transitive |
| Directions.ConflictMeansSharedCep | src/directions/directions.service.ts:69-87 | the conflict query matches exactly the regions that share a CEP with the new range |
| Directions.OneRegionPerCep | src/directions/directions.service.ts:57-88 | at most one region covers a CEP |
| Directions.CreateIff | src/directions/directions.service.ts:57-127 | a creation is accepted exactly when no region has its name and its range is in order and shares no CEP with a region, with the error of every other; then there is this one row more |
| Directions.UpdateIff | src/directions/directions.service.ts:57-88 | an update exactly when the row is there, no other region has the new name and the range it leads to is in order and shares no CEP with another region |
| Directions.SameAgain | src/directions/directions.service.ts:206-250 | sending a region its own values again is accepted and changes nothing |
| Directions.RemoveIff | src/directions/directions.service.ts:258-279 | exactly a row that is there can be removed, and only it goes |
| Directions.CreateKeeps | src/directions/directions.service.ts:90-127 | an accepted creation keeps ranges well formed, disjoint and names distinct, whatever folding of case they are compared under |
| Directions.UpdateKeeps | src/directions/directions.service.ts:206-250 | an accepted update, of any subset of the fields, keeps ranges disjoint |
| Directions.UpdateWrites | src/directions/directions.service.ts:206-250 | an accepted update writes each field sent, keeps each not sent and touches no other row |
| Directions.RunKeeps | src/directions/directions.service.ts:90-279 | after any run of create, update and remove the ranges are well formed and pairwise disjoint |
| Directions.DirectionsService.FindOverlap | src/directions/directions.service.ts:57-88 | the search finds a conflict exactly when some other row overlaps |
| Directions.DirectionsService.CreateDirection | src/directions/directions.service.ts:90-127 | the two checks in their order, then one new row |
| Directions.DirectionsService.UpdateDirection | src/directions/directions.service.ts:206-250 | fields not sent keep their value in both the check and the row; the row does not conflict with itself |
| Directions.DirectionsService.RemoveDirection | src/directions/directions.service.ts:258-279 | removes one existing row |
| Freight.FindDirection | src/delivery/providers/direction-category-freight.calculator.ts:21-28 | the lookup returns a covering region of the highest value, or none when none covers |
| Freight.MaxDirectionValue | src/delivery/providers/direction-category-freight.calculator.ts:18-33 | the running maximum is the largest value of a region covering one of the orders, at least 0 |
| Freight.CalculateByCategory | src/delivery/providers/direction-category-freight.calculator.ts:16-49 | that maximum plus the category value, 0 without a category |
| Freight.CalculateByFee | src/delivery/providers/direction-delivery-fee.calculator.ts:16-50 | that maximum plus the fee per order, rounded to cents; an error without a configured fee |
| Freight.FreightInCents | src/delivery/providers/direction-delivery-fee.calculator.ts:43-50 | the fee freight is a whole number of cents within half a cent of the best region value plus the price per order |
| Freight.CategoryAdds | src/delivery/providers/direction-category-freight.calculator.ts:35-49 | the category freight is the best region value alone without a category and its value more with one |
| Freight.MaximumIgnoresOrder | src/delivery/providers/direction-category-freight.calculator.ts:20-33 | two runs over lists with the same CEPs, in any order and number, find the same maximum |
| Freight.FreightIgnoresOrder | src/delivery/providers/direction-delivery-fee.calculator.ts:16-50 | so two runs of either calculator over the same CEPs give the same freight |
| Freight.LookupsAgree | src/delivery/providers/direction-category-freight.calculator.ts:21-28 | with disjoint ranges two lookups of a CEP return the same region, whatever the sort order |
| Freight.FreightGrows | src/delivery/providers/direction-delivery-fee.calculator.ts:29-49 | adding orders never lowers the freight, rounding included |
| Statistics.GetNotesByRegion | src/statistics/statistics.service.ts:377-394 | each region's count is the number of its orders, and the counts, 'Unknown' included, add up to the number of orders less those in regions with a name every object has |
| Statistics.NothingLostIff | src/statistics/statistics.service.ts:386-390 | the counts add up to all orders if and only if no order falls in such a region |
| Statistics.ConstructorIsLost | src/statistics/statistics.service.ts:386-390 | the name "constructor" passes validation and its order is lost |
| CepAgreement.NumericIsLexicographic | src/statistics/statistics.service.ts:379-383 | for eight-digit CEPs and bounds the numeric and the string comparison find the same ranges |
| CepAgreement.AgreementIff | src/statistics/statistics.service.ts:379-383 | for an arbitrary CEP the two comparisons agree on every range with eight-digit bounds if and only if it is eight digits, or parseInt reads no number from 0 to 99999999 and it does not sort between "00000000" and "99999999" |
| CepAgreement.HyphenCompares | src/statistics/statistics.service.ts:379-383 | for five digits n, a hyphen and anything after it, and a range from a to b, the string comparison finds it exactly when a < 1000n <= b, the numeric one when a <= n <= b |
| CepAgreement.HyphenDisagrees | src/statistics/statistics.service.ts:379-383 | "01310-100" is in the range up to 00009999 only as a number, and in the range up to 99999999 both ways |
| CepAgreement.BoundsAgreeIff | src/statistics/statistics.service.ts:379-383 | for a range with arbitrary bounds the two comparisons agree on every eight-digit CEP if and only if the interval that sorts between the bounds is the interval read from them |
| CepAgreement.HyphenInBound | src/directions/dto/create-directions.dto.ts:17-28 | bounds of eight characters for which they disagree on an eight-digit CEP |
| Statistics.StatisticsAgreeWithFreight | src/statistics/statistics.service.ts:379-384 | if the comparisons agree on every row of a disjoint table, the region counted is the one the freight lookup finds, for any listing |
| Statistics.SameRegionIff | src/statistics/statistics.service.ts:379-384 | a CEP is counted in the region freight finds, for every disjoint table of eight-digit ranges and every listing, if and only if it is eight digits or out of reach of both comparisons |
| CodeSequence.SequenceTable.GenerateTenantCode | src/delivery/delivery.service.ts:127-153 | gives out the next value of the counter, starting at 1, as a padded code |
| CodeSequence.SequenceTable.InTransaction | src/directions/directions.service.ts:112-127 | a commit adds exactly the next number to the committed ones; a rollback restores the counters |
| CodeSequence.CommittedIsAnInterval | src/delivery/delivery.service.ts:127-153 | the numbers of committed allocations are exactly 1 to nextValue - 1, each once and in order |
| CodeSequence.CommittedCodesDiffer | src/delivery/delivery.service.ts:151-152 | no two committed allocations of a counter share a code |
| CodeSequence.CodeReadsBack | src/delivery/delivery.service.ts:151-152 | the number can be read back from its code, whatever its size |
| CodeSequence.SixDigitsUpToAMillion | src/delivery/delivery.service.ts:152 | padding gives six digits exactly up to 999999 and never fewer |

## Left out

- Tenant, role and ownership checks, guards and request validation: their results are taken as given, so one tenant is modelled and its driver, vehicle and tenant rows exist.
- Freight inside a lifecycle request: any value may come back from the calculator, and it always comes back; a throw after a committed order change is not modelled.
- Read-check-write interleaving of lifecycle requests: each request is atomic except in `Finalisation`, which interleaves finishing requests and payments by hand of one delivery.
- Floating point: amounts, weights and delays are real numbers.
- Dates, free-text reasons, delivery proofs, vehicles, notifications, audit, mails, logging, pagination and search.
- An explicit null sort value in an order list: a sort value is either given or not sent.
- Codes on deliveries, payments and regions: `CodeSequence` models them apart from the rows that carry them.
- The distance-based freight calculator and the factory: they depend on the maps service.
- Name comparison in the database: an arbitrary folding of names stands for it, and no character is a pattern.
- Database collation: both the range queries and JavaScript compare by character code here.
- Rounding of numbers above 2^53 in parseInt.
- CircuitBreaker.CircuitInfo.OnFailure: reads the clock once, where the code reads it twice within one synchronous step.
- ResilienceStack.MapsAdapter.AskBreaker: uses one circuit, where the adapter has one per operation; circuits of different names do not affect each other (CircuitBreaker.CircuitBreakerService.Begin).
- Statistics.GetNotesByRegion: the text that counting on from an inherited property gives has no content here, and the order of the result's keys is not modelled.
- MemoryCache.MemoryCacheService.Get: cloning through JSON is the identity.
- Cache keys: `generateKey`, and the fact that cached routes carry order ids their key does not.
- `DriversService.updateOrderStatus`, which needs a driver on the order that no code sets.
- Invites, users, roles, vehicles, categories and the rest of the order upload: single-branch checks.
