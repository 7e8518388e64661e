# Trading core: a verified model

The trading core turns a trade intent into a protected position, one durable step at a time. A fenced
lease elects one writer. A write-ahead ledger holds a row per intent and a log of every transition. An
exchange keeps balances, orders and protections that reserve balance. The execution engine drives a trade
through them, and resumes it from wherever a crash left it. A runtime opens the gate for new trades only
after a clean cold boot, and a supervisor keeps every durable claim of protection honest.

The repository exercises its safety claims with randomised scripts; this project states them for every run
and proves them, or says exactly when they hold.

## How the model is built

- Stores that outlive a process are classes whose methods are the source's transactions: `TradeLedger`,
  `IdempotencyStore`, `PersistentExchange`, `TradingActivityStore`, `SingleWriterLease`,
  `HashChainedAuditLog`, `OrderEventStore`. `ExecutionEngine`, `BootGate`, `ProtectionSupervisor`,
  `TradingCoreRuntime` and `PriorityRateGovernor` update their fields as the source does.
- An exception is a `Result`. `Crash` is the death of the process: it may follow any durable write and no
  handler catches it, so that every early return with `Crash` is a run cut at that point. What a method
  promises on such a return is what the next process finds.
- The world is chosen by `Mode`. *Hostile*: reads answer anything, and calls fail after the effect as well
  as before. *Faulty*: answers are honest, but calls fail, authority lapses, submissions turn ambiguous and
  the process dies at any step. *Calm*: honest, authority and the process last, requests of some kinds always
  fail and of the others never do (`Request`), so that what a trade, a recovery, a check or a boot comes to is
  stated for every set of things going wrong; `Peaceful` is the calm world in which nothing does. Arbitrary choices
  are `*` assignments or, where a contract speaks of them, parameters.
- The heart is `Protocol.Sound`: each row fits what the exchange holds for its intent, nothing on the
  exchange is without a row, and, for every symbol, balance minus reserved equals the baseline plus the net
  fill of every entry that is neither protected nor sold. Sums over tables are in `Sums`.
- `ExecutionEngine.Working` carries the invariants through an operation: soundness, the rule that a sold
  position only closes, the write-ahead rule, the caps, the epochs, and that only this intent's row and
  orders move. Methods hide it and look inside through the lemmas `Seen`, `Guarded` and `Backed`.
  `ExecutionEngine.Kept` is what every whole operation promises of the states before and after it, and
  `Stopped` how it may end halfway.
- Amounts are exact reals, times integers in microseconds. A client order id is the text that is hashed,
  and the hash of the audit log is a parameter assumed collision-free. A symbol is a base asset
  followed by USDT.

## Where the claims need a condition

- *Conservation.* A recovery whose query of the exit order fails turns a sold position from EmergencyExit to
  Unknown, and the next one protects it again out of balance that belongs to nobody. The exact condition is
  `Protocol.Overreach`: `RecoveryConservesIff` shows both directions, `OverreachHappens` a state, and
  `AnyRun` that it cannot come up when reads of exit orders fail only for lack of authority.
  `Session` draws the conclusion for an open gate whenever no recovery overreached, in any honest world;
  `Healthy` is the state from which none does.
- *Canceled protections.* Somebody who cancels a protection at the exchange frees balance that the ledger still
  counts as reserved. The rows, the meaning of the gate in terms of them, and the reading survive that (`Session`);
  the invariant does not. What is promised instead is that the next calm cycle shuts the gate and withdraws the
  claim (`CancellationIsNoticed`; `VerifyOnce` has the exact condition).
- *One intent per id.* A second intent under a used id is recovered against the row of the first. What that
  reserves breaks conservation: `Trespass` is the exact condition (`ReusedIdConservesIff`), `ReusedIdTrespasses`
  a state and an intent for which it holds. Runs assume `Runs.OneIntentPerId`, which a caller can check against
  the stored payload.
- *No illegal step.* The write that records an emergency sale stands inside the handler of the sale, and the
  machine moves before it writes. If authority lapses between the confirmed sale and that write, the handler's
  own step is illegal, and InvalidTransition escapes past the code that would shut the gate (`SellNow`,
  `LapseAfterSale`). `Process` says that this is the only way, and `policy.emergencyExitOnUnprotected` false
  rules it out. The gate then stays open over a row in EmergencyExit, until something else notices.
- *Gate meaning.* It is lost by that illegal step, and by a reference price of exactly zero, for which the risk
  engine divides by zero and leaves a new row in CREATED; `Submit` has both in one exact condition. The latch
  alone is not the gate either: a fault between readiness and the proof leaves it open (`OpenGate`). The meaning
  is that of latch and readiness together.
- *Freshness.* A withdrawal cut between clearing the verification and changing the state leaves a claim without
  a stamp, and no finite estimate covers that (`OperationIsSafeIff`, `CoveringIff`, and `Session` for whole runs).
  A cycle that reads the ledger between a trade's stamp and its claim may start the estimate too young
  (`StraddleIsSafeIff`, `StraddlingACycle`).
- *Fenced history.* Chain and replay need nothing. The order of epochs needs marks that are not older than
  the log (`MarkKeepsOrderIff`, `MarkThenWrite`), because marks do not recheck the row's epoch. At most one
  dispatch of an intent needs that nobody approves it again (`WriteOnce`): the engines approve only from CREATED.
- *Boot proof.* A bare acquisition of authority does not revoke; `BareAcquire` says when that is harmless.
  Runtime call sequences always revoke first, so that `Session` needs no condition.
- *Lineage.* From an empty log a witness that is ahead reads as divergent, not as descendant
  (`RelationOf`); the comment in the code promises descendant.
- *Event status.* Two different final statuses with the same top time are decided by arrival
  (`StatusOrderDoesNotMatterIff`).

## Model

| member | source | states |
|---|---|---|
| Exchange.BuyConserves | shata-ai-trader/src/shata_trader/persistent_exchange.py:99-136 | A market buy for an entry that is new, unprotected and unsold leaves, for every symbol, balance minus reserved equal to the baseline plus the net fill of every unprotected entry |
| Exchange.PlacementConservesIff | shata-ai-trader/src/shata_trader/persistent_exchange.py:165-184 | Reserving balance for an entry keeps that equation, for every symbol, if and only if the quantity reserved is exactly what the entry still leaves exposed |
| Exchange.SaleConservesIff | shata-ai-trader/src/shata_trader/persistent_exchange.py:221-249 | Selling keeps that equation if and only if the quantity sold is exactly what the entry still leaves exposed |
| Exchange.FreeCoversExposure | shata-ai-trader/src/shata_trader/persistent_exchange.py:161-163 | With a baseline that is not negative, the free balance of a symbol always covers what any one of its entries leaves exposed |
| Exchange.PersistentExchange.ReservedBalance | shata-ai-trader/src/shata_trader/persistent_exchange.py:89-93 | The loop over the protections table computes the sum of the active quantities of the symbol |
| Exchange.PersistentExchange.FreeBaseBalance | shata-ai-trader/src/shata_trader/persistent_exchange.py:161-163 | The free balance is what is held less what is reserved, never negative |
| Exchange.PersistentExchange.SubmitMarketBuy | shata-ai-trader/src/shata_trader/persistent_exchange.py:99-136 | Idempotent on the client id, an id used for another symbol fails; a fresh id is FILLED if and only if the fill ratio is one and PARTIALLY_FILLED otherwise, its quantity at the price is worth the amount times the ratio, the commission is that quantity times the rate in the base asset, the balance rises by the difference, and nothing else moves |
| Exchange.PersistentExchange.PlaceProtection | shata-ai-trader/src/shata_trader/persistent_exchange.py:165-184 | Idempotent on the client id; otherwise succeeds if and only if the quantity is positive and free, and a refusal changes nothing |
| Exchange.PersistentExchange.EmergencyMarketSell | shata-ai-trader/src/shata_trader/persistent_exchange.py:221-249 | Idempotent on the client id, an id used for another symbol fails; otherwise sells the smaller of the wish and the free balance at the price without commission, FILLED, the balance falls by it, and it fails if and only if that is not positive |
| Exchange.PersistentExchange.CancelProtection | shata-ai-trader/src/shata_trader/persistent_exchange.py:214-219 | Afterwards no active protection of the symbol has this client id, and everything else is as it was |
| Ledger.TradeLedger.SetState | shata-ai-trader/src/shata_trader/ledger.py:80-98 | Succeeds if and only if the validator accepts, the row exists, its epoch is not newer and its state is the expected one; then row and log change together, and the log stays a chain from Created that replays to the rows |
| Ledger.TradeLedger.MarkDispatchPrepared | shata-ai-trader/src/shata_trader/ledger.py:100-112 | Succeeds only from a durable RiskApproved row of no newer epoch; marks the row and logs the step in one transaction |
| Ledger.TradeLedger.MarkProtectionVerified | shata-ai-trader/src/shata_trader/ledger.py:118-121 | Overwrites the verification and the epoch of the row without looking at its epoch; the log still replays to the rows |
| Ledger.TradeLedger.ClearProtectionVerification | shata-ai-trader/src/shata_trader/ledger.py:123-125 | Clears the verification time and rewrites the epoch, nothing else; the log still replays to the rows |
| Ledger.FaithfulAppend | shata-ai-trader/src/shata_trader/ledger.py:90-92 | Logging a change of state together with the row keeps every log entry leaving the state the previous one arrived at, and replaying the log equal to every row |
| Ledger.IdempotencyStore.Claim | shata-ai-trader/src/shata_trader/idempotency.py:10-13 | An id is claimed first exactly once |
| StateMachine.TradeStateMachine.Move | shata-ai-trader/src/shata_trader/state_machine.py:54-67 | Moves if and only if the table allows it, and the recorded history is always a walk along the table |
| StateMachine.TerminalEndsEveryWalk | shata-ai-trader/src/shata_trader/state_machine.py:4-47 | A state ends every walk through it if and only if it is Closed, Rejected, Canceled or Expired |
| StateMachine.WalksComeFromOrigins | shata-ai-trader/src/shata_trader/state_machine.py:4-47 | For every state, the states a walk along the table can step into it from, both directions: protection is claimed only after it was asked for, a submission follows an approval, and so on for all of them |
| Activity.HourlyGateSuffices | shata-ai-trader/src/shata_trader/activity.py:12-18 | If the hourly gate passed at some time, a submission recorded at any later time leaves every closed one-hour window within the cap |
| Activity.DailyGateSuffices | shata-ai-trader/src/shata_trader/activity.py:19-22 | If the daily gate passed at some time, a submission recorded at any later time, even after midnight, leaves every UTC day within its notional cap |
| Activity.TradingActivityStore.OrdersLastHour | shata-ai-trader/src/shata_trader/activity.py:16-18 | The query is the number of submissions in the log recorded no earlier than one hour before now, whatever the clock did |
| Activity.TradingActivityStore.NotionalToday | shata-ai-trader/src/shata_trader/activity.py:19-22 | The query is the sum of the amounts of the submissions in the log recorded since midnight UTC, whatever the clock did |
| Activity.TradingActivityStore.ConsecutiveErrors | shata-ai-trader/src/shata_trader/activity.py:23-29 | The loop computes the streak of errors at the end of the log, looking at no more than a hundred entries |
| Activity.StreakIsErrors | shata-ai-trader/src/shata_trader/activity.py:23-29 | That streak is all errors, and it ends at a submission, at the beginning or at the limit |
| Activity.StreakReachesIff | shata-ai-trader/src/shata_trader/activity.py:23-29 | The streak reaches a limit if and only if the limit is not positive, or is at most a hundred and that many entries at the end of the log are all errors |
| Risk.ApprovedIff | shata-ai-trader/src/shata_trader/risk_engine.py:13-78 | For any prices, approval holds if and only if the intent is for this policy, to buy, neither expired nor too old, the portfolio is fresh, amount, portfolio value and reference price are positive, the prices are in order, near the market and worth the risk, the allocation, exposure and balance limits hold the amount, and the risk budget holds the loss at the stop, each written out |
| Risk.LossAtStopIsBounded | shata-ai-trader/src/shata_trader/risk_engine.py:46-78 | For an approved trade filled at the fresh price, the loss at the stop is at most portfolio value times maximum risk plus the amount times the allowed deviation |
| Risk.CapIsTheBoundary | shata-ai-trader/src/shata_trader/risk_engine.py:57-78 | For a nonzero returned maximum, a positive amount is approved on re-evaluation if and only if it does not exceed that maximum |
| Risk.WellPricedIff | shata-ai-trader/src/shata_trader/risk_engine.py:43-55 | The two divisions of the price checks say the same as the multiplied-out inequalities a reader would state |
| Protocol.EntryOrderFits | shata-ai-trader/src/shata_trader/persistent_exchange.py:106-110 | A market buy of a positive amount at a positive price fills with a base-asset commission that lies between zero and the fill |
| Protocol.BuySound | shata-ai-trader/src/shata_trader/persistent_exchange.py:99-136 | Placing the entry of a marked, submitted row keeps the whole invariant that ties rows to orders, protections and balances |
| Protocol.PlacementSound | shata-ai-trader/src/shata_trader/execution.py:317-320 | Protecting an unprotected, unsold entry with its net fill keeps the whole invariant |
| Protocol.SaleSound | shata-ai-trader/src/shata_trader/execution.py:394-397 | Selling the net fill of an unprotected entry keeps the whole invariant |
| Protocol.RowWriteSound | shata-ai-trader/src/shata_trader/ledger.py:80-98 | Rewriting one row so that it fits its own position keeps the invariant for every row and every order |
| Protocol.BuyWriteAhead | shata-ai-trader/src/shata_trader/execution.py:476-491 | The first request to buy for a marked row keeps the rule of no entry without its mark and one request per intent |
| Protocol.RecoveryConservesIff | shata-ai-trader/src/shata_trader/execution.py:674-832 | From a sound state, one undisturbed recovery keeps exposure conserved if and only if it does not overreach, that is unless the position is sold, its row is neither in EmergencyExit nor Closed, and there is free balance to reserve |
| Engine.ExecutionEngine.SubmitMarketBuy | shata-ai-trader/src/shata_trader/fenced_gateway.py:18-23 | Asked for at most once per intent and only when marked, it may be lost before or after the effect, or die; in a calm world it is turned down, or lost after the effect, exactly where such requests always fail, and otherwise returns the order now on the exchange |
| Engine.ExecutionEngine.PlaceProtection | shata-ai-trader/src/shata_trader/fenced_gateway.py:18-23 | Either nothing changed or exactly this protection was added; a plain failure of an honest exchange changes nothing |
| Engine.ExecutionEngine.EmergencyMarketSell | shata-ai-trader/src/shata_trader/fenced_gateway.py:18-23 | Only the exit of this position can change, and only while its row says EmergencyExit; in a calm world a positive net fill is sold |
| Engine.ExecutionEngine.Transition | shata-ai-trader/src/shata_trader/execution.py:253-257 | A step of the machine and the durable row move together or the exception says which did not: illegal step, drifted row or lost authority |
| Engine.ExecutionEngine.ProtectOrderQty | shata-ai-trader/src/shata_trader/execution.py:285-365 | Whatever fails or dies, the invariant holds on the way out; the state is the one its outcome names; in an honest world it never reports a shortfall, and failing leaves the entry naked; in a calm world it fails, with one error on record, if and only if there is nothing to protect, the balance cannot be read or placements are turned down, and otherwise the protection is there, unread or secured |
| Engine.ExecutionEngine.SellNow | shata-ai-trader/src/shata_trader/execution.py:394-407 | The sale and the write that records it stand under one handler: it leaves as an illegal step if and only if the sale was confirmed and authority was gone before the write, and otherwise as recorded, as Unknown, stale or dead |
| Engine.LapseAfterSale | shata-ai-trader/src/shata_trader/state_machine.py:60-67 | For any row in EmergencyExit: once the machine has taken the step that records the sale and the ledger has refused it for a lapsed epoch, the handler's own step is not in the table, and the row is where it was |
| Engine.ExecutionEngine.EmergencySale | shata-ai-trader/src/shata_trader/execution.py:367-407 | Halted if and only if the policy forbids the sale, otherwise Closed or Unknown, or stopped halfway; Closed only with an exit on an honest exchange; in a calm world what can be backed is sold and Closed, unless sales are turned down, which is Unknown and one error |
| Engine.ExecutionEngine.ReconcileAfterSubmit | shata-ai-trader/src/shata_trader/execution.py:513-572 | A machine that comes back stands in Protected, UnderProtected, Closed, Halted, Canceled, Expired or Unknown, never in ProtectionFailed, and agrees with the row; after ProtectionFailed comes Halted if and only if the policy forbids the sale; in a calm world, for whatever kinds of request fail and for a full and a partial fill, the state, the protection, the exit and the number of errors are exactly those of one table (`Ending`): with placements turned down and sales allowed, Closed with an exit; an entry that ended without a fill ends so here |
| Engine.ExecutionEngine.TradeWithout | shata-ai-trader/src/shata_trader/execution.py:285-407 | What a new trade with something to protect comes to, and how many errors it puts on record, when requests of exactly one kind fail and the policy sells: without a placement it is sold and Closed with one error, without a balance or a protection that can be read Unknown with one error, a partial fill whose remainder cannot be canceled Unknown without one, and otherwise Protected, or Halted behind its partial protection |
| Engine.ExecutionEngine.TradeUnprotected | shata-ai-trader/src/shata_trader/execution.py:367-407 | What cannot be protected is Halted with one error if the policy does not sell; otherwise Unknown with one error if there is nothing to sell or the balance cannot be read, and Unknown with two if the sale is turned down |
| Engine.ExecutionEngine.ActivityGate | shata-ai-trader/src/shata_trader/execution.py:409-420 | Passes if and only if the hourly count, the day's notional with this amount and the error streak are within their limits, and then every later submission of this amount still fits the hourly and daily caps |
| Engine.ExecutionEngine.GateRefusesIff | shata-ai-trader/src/shata_trader/execution.py:409-420 | The gate refuses if and only if the submissions of the last hour have reached their number, those since midnight UTC and this amount exceed the day's share of the portfolio, or the log ends in as many errors as the policy stops at |
| Engine.ExecutionEngine.Process | shata-ai-trader/src/shata_trader/execution.py:422-511 | A healthy runtime behind an open gate is turned away only for lack of authority. A new intent comes back in one of the eight states a trade may end in, never bare, Rejected only if it was turned down at some moment, Closed only with an exit on an honest exchange, Halted right after ProtectionFailed if and only if the policy forbids the sale. In a calm world it comes back, unless it is a drifted leftover or has a zero price, and for whatever kinds of request fail: without a price Halted, turned down Rejected, both without a trace, and otherwise submission, entry, protection, exit, state and number of errors are those of one table over the fill ratio (`Decided`, `Sent`). An intent seen before is only recovered. The history is a walk along the table and the state the durable one unless authority was lost; an illegal step escapes only if the policy sells what it cannot protect and authority lapsed between a confirmed sale and its record, and then the gate is untouched over a row in EmergencyExit; any other loss of authority shuts the gate; soundness, the settled rule and the caps are kept; an entry is asked for only by the first claim of its id and only if at some moment the caps left room, the log did not end in too many errors, and the risk engine approved at the price the exchange gave |
| Engine.ExecutionEngine.RecoveryProtect | shata-ai-trader/src/shata_trader/execution.py:574-603 | Finds or places the protection of an entry; what it answers fits the books, a claim it answers is stamped and backed; in a calm world, for whatever kinds of request fail, the answer is that of `Reprotects`, and it reserves the smaller of net fill and free balance if and only if it can read and place and nothing is reserved already |
| Engine.ExecutionEngine.RecoverIntent | shata-ai-trader/src/shata_trader/execution.py:674-832 | From any cut, the invariant holds on the way out and the row says what was concluded. An ended row stays; an unmarked one becomes Rejected, or Unknown where that cannot be; UnderProtected stays for intervention, ExitPending becomes Unknown, EmergencyExit Closed or Unknown, none of them touching the books. In a calm world, for whatever kinds of request fail, a sound row ends as one table says (`RecoveredTo`) and the books are exactly `BooksAfter`, whatever is in the row and whoever it belongs to. A strict recovery leaves a claim only where an honest exchange holds an active protection of the stored quantity |
| Engine.ExecutionEngine.PeacefulRecovery | shata-ai-trader/src/shata_trader/execution.py:674-832 | When nothing fails that table says: protected for the fill wherever there is an entry with something left, Closed where an exit is found, Rejected without a mark, and otherwise Unknown |
| Engine.ExecutionEngine.RecoveryWithout | shata-ai-trader/src/shata_trader/execution.py:574-832 | What recovery comes to when requests of exactly one kind fail: without a placement or a balance a bare fill is left in ProtectionFailed; a protection or entry that cannot be read leaves Unknown, and a claim as it is unless recovery is strict; an exit that cannot be read leaves an emergency sale Unknown; a remainder that cannot be canceled leaves a partial fill Unknown; otherwise as usual |
| Engine.ExecutionEngine.Recover | shata-ai-trader/src/shata_trader/execution.py:674-832 | One recovery as an operation: keeps soundness and the settled rule, touches one intent only, loses no end, no claim loses or backdates its stamp, and in a calm world ends as that table says with a row that fits its position |
| Engine.ExecutionEngine.Verify | shata-ai-trader/src/shata_trader/execution.py:616-672 | True only if the exchange shows an active protection of exactly the stored quantity, stamped during the check; False only after the claim was withdrawn; None leaves the row as it was; a claim loses its stamp only if authority or the process was lost between the two writes of a withdrawal; in a calm world it answers exactly whether the claim is backed, or None where protections cannot be read |
| Engine.ExecutionEngine.Done | shata-ai-trader/src/shata_trader/execution.py:422-832 | Whatever an operation did and however it ended, only its intent's row and orders moved and no end was undone, a claim carries a fresh stamp or the one it had unless its withdrawal was cut, and a fit, settling or healthy state is followed by one that is no worse |
| Engine.ExecutionEngine.AcquireAuthority | shata-ai-trader/src/shata_trader/execution.py:117-135 | A valid lease is kept with its epoch; otherwise the old epoch is dropped for what the lease grants |
| Recovery.ResolvedMeansBaseline | shata-ai-trader/src/shata_trader/execution.py:263-407 | When every row is terminal or protected, balance minus reserved is exactly the baseline, for every symbol |
| Recovery.OverreachHappens | shata-ai-trader/src/shata_trader/execution.py:674-832 | A concrete sound state, with a sold position whose row fell to Unknown, from which recovery reserves balance that is not the trade's own and conservation fails |
| Recovery.ReusedIdConservesIff | shata-ai-trader/src/shata_trader/execution.py:445-450 | A second intent under a used id, recovered in peace against the row of the first, keeps exposure conserved if and only if the row's fate does not reach the entry, or no entry of its symbol is behind the row, or there is nothing free to reserve for it; if it shares the client ids of the first, if and only if the first would not be overreached for or the symbols differ |
| Recovery.ReusedIdTrespasses | shata-ai-trader/src/shata_trader/execution.py:445-450 | For any intent, a concrete sound state and a second intent under its id whose recovery reserves what is not its own, while recovering the first conserves |
| Runs.Step | shata-ai-trader/src/shata_trader/execution.py:422-436 | A new intent, a recovery, a check of a claim or its withdrawal, each cut after any durable write, the record of a submission included, keeps the invariant when nothing is there to overreach for, and keeps the caps |
| Runs.AnyRun | shata-ai-trader/src/shata_trader/execution.py:422-832 | After any number of trades, recoveries, checks, withdrawals, deaths and takeovers: the log tells the truth, no entry without its mark, none asked for twice and no more requests than submissions on record, every end stands, the caps hold, and the invariant holds if no id was reused and no recovery overreached; overreach never comes up when reads of exit orders fail only for lack of authority |
| Runs.CutAnywhereThenRecover | shata-ai-trader/src/shata_trader/execution.py:674-832 | After any such run, the first recovery in peace leaves an unsold entry with a positive net fill protected for exactly that fill, unless it was cut in EmergencyExit and is then Unknown and protected by the second; a sold one Closed if its row said EmergencyExit or Closed and Unknown otherwise; without an entry Rejected, or Unknown if it was marked, with nothing protected; all this for a clean run that leaves this intent not to be overreached for, which is so for every run without a reused id when reads of exit orders fail only for lack of authority |
| Runs.RejectedNeverEnters | shata-ai-trader/src/shata_trader/execution.py:689-698 | A Rejected intent has no entry order and none was ever asked for |
| Protocol.SettledAfter | shata-ai-trader/src/shata_trader/execution.py:782-792 | A step on one intent that keeps its own sold position in EmergencyExit or Closed keeps every other one there too |
| ColdBoot.ReconcileAll | shata-ai-trader/src/shata_trader/cold_boot.py:18-37 | Inspects exactly the rows that had not ended, leaves every other row alone, and every state it reports is the durable one; where it reports a claim an honest exchange holds an active protection of the stored quantity; its counts are the numbers of rows that ended well and of quarantined ones; none unresolved means that every row of the ledger is terminal or protected; a row is quarantined if it cannot be read or its turn did not come, and otherwise only if authority went; from a healthy state, in a calm world under authority, every readable row is recovered, to the state of the table of recovered states, and when nothing fails to what `EndsWell` says of state and position; the protocol invariant stands unless a recovery met a state to overreach for, and none does from a healthy state |
| Supervisor.ProtectionSupervisor.VerifyRecord | shata-ai-trader/src/shata_trader/protection_supervisor.py:170-187 | There is a violation if and only if the row cannot be read, the claim fell, or its check went unanswered when it had no stamp or one older than the soft age at that moment; without one the row keeps its state, and under authority a claim that stood was backed and stamped during the check, and one that went unanswered is as it was; with one the gate is shut and, under authority, a readable claim is gone; in a calm world the check goes unanswered if and only if protections cannot be read, and otherwise the claim falls if and only if it is not backed |
| Supervisor.ProtectionSupervisor.VerifyOnce | shata-ai-trader/src/shata_trader/protection_supervisor.py:189-216 | In every world: exactly the claims were looked at and no other row was touched; there is a violation if and only if one of them could not be read, fell, or went unanswered when it was too old, and then the gate is shut; under authority every claim is accounted for by what its look found: confirmed and stamped during the cycle, gone, or unanswered and, if fresh, as it was; in a calm world it returns, and where protections can be read finds a violation if and only if some claim is not backed, keeps the backed ones and withdraws every other readable one; the measured age covers the ledger from then on |
| Supervisor.ProtectionSupervisor.Measure | shata-ai-trader/src/shata_trader/protection_supervisor.py:83-92 | The loop over the ledger yields the age of the stalest claim: no claim is older, and some claim is that old |
| Supervisor.ProtectionSupervisor.CoveringIff | shata-ai-trader/src/shata_trader/protection_supervisor.py:94-107 | As long as the reading reaches back to every stamp, which every operation keeps, the cached age covers the ledger if and only if no cycle has completed, the age is infinite or no claim is without a stamp |
| Runtime.TradingCoreRuntime.Start | shata-ai-trader/src/shata_trader/runtime.py:134-170 | However authority lapses or cycles interfere, an open gate afterwards means that every row is terminal or protected, and the latch belongs to the epoch the engine writes under; an unclean report or a failed audit leaves it shut; in a calm world, undisturbed, with authority and a good audit, the gate opens if and only if nothing is unresolved; the protocol invariant stands unless a recovery overreached or a protection was canceled meanwhile |
| Runtime.TradingCoreRuntime.Submit | shata-ai-trader/src/shata_trader/runtime.py:210-229 | A trade is refused without a trace if a check before it fails, and with everything well and authority held it is not refused; it keeps the meaning of the open gate if and only if it does not escape through an illegal step, nor by dividing by zero over a row that was not there before; after the illegal step the gate is untouched and the row is in EmergencyExit; in a calm world a fit trade leaves the gate open if and only if it ended in Protected, Closed, Rejected, Canceled or Expired, the witness is up to date and everything still reads as ready; only the check after the trade can leave a claim without its stamp, and only by losing authority; for the intent its row was written for, the protocol invariant stands unless there was something to overreach for when the trade began, and in a healthy state there is not |
| Runtime.TradingCoreRuntime.IngestExchangeEvent | shata-ai-trader/src/shata_trader/runtime.py:231-250 | A new event for an entry leads to the recovery of its row if and only if the runtime is ready under authority and the row can be read and has not ended; otherwise nothing happens; only that row changes, its state is the one returned, and in a calm world that of the table; the gate is untouched if that is Protected, Closed, Rejected, Canceled or Expired, and shut otherwise; no claim loses its stamp, and the protocol invariant stands unless the recovery overreached |
| Runtime.TradingCoreRuntime.Stop | shata-ai-trader/src/shata_trader/runtime.py:172-179 | Shuts the gate, and gives up authority when asked to |
| Runtime.TradingCoreRuntime.BareAcquire | shata-ai-trader/src/shata_trader/execution.py:117-135 | Taking authority outside start keeps an open latch tied to the epoch of its proof if and only if authority was already held or the latch is shut |
| Runtime.TradingCoreRuntime.OpenGate | shata-ai-trader/src/shata_trader/runtime.py:154-170 | Whatever other threads, or somebody canceling a protection, do between readiness, proof and grant, an open gate afterwards means that every row is terminal or protected; but a fault that strikes between readiness and the proof leaves the latch open with readiness gone, so that the latch alone is not the gate |
| Runtime.TradingCoreRuntime.CancellationIsNoticed | shata-ai-trader/src/shata_trader/protection_supervisor.py:170-216 | When the protection behind a readable claim is canceled at the exchange, the next calm cycle under authority that can read protections shuts the gate and withdraws that claim, and every other claim that stood stays in its state |
| Runtime.Session | shata-ai-trader/src/shata_trader/runtime.py:134-250 | Over any sequence of starts, granted or refused a lease, trades, events, cycles, renewals, stops and cancellations of protections at the exchange, up to the first trade that escapes by a division by zero or by an illegal step, the latter only if the policy sells what it cannot protect: an open gate means resolved rows, an open latch belongs to the engine's epoch, and a calm process lives; as long as no id is reused and no protection canceled the protocol invariant stands in an honest world, even if the process dies, unless some recovery overreached, and then behind an open gate balance minus reserved is exactly the baseline for every symbol; from a healthy state no recovery overreaches; once a cycle has completed the cached age covers the ledger if and only if it is infinite or no claim is without a stamp |
| BootGate.BootGate.Issue | shata-ai-trader/src/shata_trader/execution.py:207-224 | A proof is minted if and only if the bound runtime asks, under authority, for a boot that left nothing unresolved or quarantined |
| BootGate.BootGate.Grant | shata-ai-trader/src/shata_trader/execution.py:226-241 | The latch opens if and only if the bound runtime presents, under the same epoch, the proof last minted and not revoked; no proof opens it twice or after a later revocation |
| BootGate.BootGate.Bind | shata-ai-trader/src/shata_trader/execution.py:149-164 | One runtime until it hands the engine back |
| Freshness.SafeMeansCovering | shata-ai-trader/src/shata_trader/protection_supervisor.py:94-107 | The extrapolated age covers the ledger at every time from the reading on if and only if no claim was verified before the time the reading reaches back to |
| Freshness.OperationIsSafeIff | shata-ai-trader/src/shata_trader/protection_supervisor.py:94-107 | After an operation begun since the reading, which every engine operation's contract describes, the ledger is covered if and only if the estimate is infinite or the operation did not cut the withdrawal of a claim |
| Freshness.OperationReaches | shata-ai-trader/src/shata_trader/ledger.py:118-125 | Every such operation, cut or not, leaves the reading reaching back to the stamp of every claim that has one |
| Freshness.StraddleIsSafeIff | shata-ai-trader/src/shata_trader/protection_supervisor.py:204-216 | When a cycle takes its reading between a trade's verification stamp and its claim, the claim leaves the ledger covered if and only if the reading is infinite or reaches back to the stamp |
| Freshness.StraddlingACycle | shata-ai-trader/src/shata_trader/protection_supervisor.py:206-216 | A trade verified just before a cycle looks and protected just after is younger in the estimate than in truth |
| Lease.SingleWriterLease.AcquireLease | shata-ai-trader/src/shata_trader/lease.py:31-53 | A lease that has not expired is refused and left as it is; any other is granted to the caller, until now plus its time to live, under the next epoch |
| Lease.SingleWriterLease.RenewLease | shata-ai-trader/src/shata_trader/lease.py:55-78 | Succeeds if and only if the row still carries this holder and epoch, lapsed or not, and then moves only the expiry |
| Lease.SingleWriterLease.ReleaseLease | shata-ai-trader/src/shata_trader/lease.py:89-97 | Leaves a released, expired row of the same epoch if it was this holder's, and otherwise the row as it was |
| Lease.SingleWriterLease.AssertEpoch | shata-ai-trader/src/shata_trader/lease.py:80-87 | Passes if and only if the row has this holder and epoch and has not expired |
| Lease.EpochNeverFalls | shata-ai-trader/src/shata_trader/lease.py:31-97 | Over any calls at any clock readings the epoch never falls, and rises if and only if the lease changed hands |
| Lease.StaleNeverPasses | shata-ai-trader/src/shata_trader/lease.py:80-87 | Once an epoch has been issued no smaller one passes the check again |
| Lease.ReleasedNeverPasses | shata-ai-trader/src/shata_trader/lease.py:89-97 | A released pair never passes again, whatever is called afterwards |
| Lease.Sandwich | shata-ai-trader/src/shata_trader/fenced_gateway.py:18-23 | Two passing checks of one pair enclose no successful acquisition |
| Lease.OnlyTheHolderPasses | shata-ai-trader/src/shata_trader/lease.py:80-87 | Until the lease changes hands again nobody but the last grantee passes |
| Lease.LiveLeaseIsExclusive | shata-ai-trader/src/shata_trader/lease.py:31-97 | Mutual exclusion: as long as no call is made at or after the expiry, which only the owner's renewals move, and the owner does not release, the owner and its epoch stay and every attempt to acquire leaves the row as it was |
| Lease.FencedExchangeFacade.Fence | shata-ai-trader/src/shata_trader/fenced_gateway.py:18-23 | The effect happens if and only if the first check passed and pacing succeeded; a normal return means that nobody else took the lease in between; a failure after the effect is told apart |
| FencedLedger.AnyInterleaving | shata-ai-trader/src/shata_trader/ledger.py:61-125 | For any interleaving of engines the log stays a chain that replays to the rows; epochs along an intent never fall as long as no mark is older than the log, which is so when marks are checked and written as one step; the intents dispatched are those whose rows are marked, and none is dispatched twice as long as no row is put back to Created or RiskApproved once past it, which is so when every engine approves only from Created |
| FencedLedger.WriteOnce | shata-ai-trader/src/shata_trader/ledger.py:80-125 | Of all the writes of an engine only a dispatch marks a row, and it goes through if and only if the row is RiskApproved under no newer epoch; a row past its dispatch stays past it, whatever is written, if and only if the write does not get in to put it back to Created or RiskApproved |
| FencedLedger.EpochsInOrder | shata-ai-trader/src/shata_trader/ledger.py:80-112 | Of two log entries of one intent the later never has the smaller epoch |
| FencedLedger.MarkKeepsOrderIff | shata-ai-trader/src/shata_trader/ledger.py:114-125 | After a mark, which does not recheck the row's epoch, some state change under an epoch already issued gets past the check and makes the epochs in the log fall, if and only if the mark came from an epoch older than the intent's last log entry |
| FencedLedger.MarkThenWrite | shata-ai-trader/src/shata_trader/ledger.py:80-125 | A mark under one epoch and then a state change under another: the change gets in if and only if its epoch is no older than the mark's, and the log then stays in order if and only if it is also no older than the intent's last entry |
| Audit.HeadDeterminesHistory | shata-ai-trader/src/shata_trader/audit.py:255-289 | With a collision-free hash that never yields the genesis value, two logs that verify and end in the same hash are equal record by record |
| Audit.HashChainedAuditLog.VerifyBeforeBoot | shata-ai-trader/src/shata_trader/runtime.py:123-132 | With a witness, an existing file passes if and only if the witness can be read both times, the file is, record by record, the log that was witnessed, and the witness says no more records than there are; without a witness only an empty log passes, if and only if a witness can be made, and read again where there is a file; a corrupt tail raises |
| Audit.HashChainedAuditLog.Append | shata-ai-trader/src/shata_trader/audit.py:228-253 | Refused if and only if the last line is corrupt; otherwise one record is added and an intact log stays intact |
| Audit.HashChainedAuditLog.Verify | shata-ai-trader/src/shata_trader/audit.py:255-289 | On an existing file passes if and only if every line parses, links and hashes, and, when asked, the witness can be read, names the head and is not higher than the file; without a file it always passes |
| Audit.WalkBack | shata-ai-trader/src/shata_trader/audit.py:104-124 | Terminates on any predecessor map, cycles included; on an intact chain it meets its target if and only if the target lies at or before the start, the very beginning counting only where the check says so |
| Audit.LineageRelation | shata-ai-trader/src/shata_trader/audit.py:87-125 | On an intact chain answers equal, ancestor or descendant exactly by position and divergent for anything foreign; from an empty log a later witness reads as divergent |
| Audit.HashChainedAuditLog.PublishBestEffort | shata-ai-trader/src/shata_trader/audit.py:159-193 | A witness behind the published head is brought up to it, at the current height, if and only if it can be read and written; a missing one is made only for a log of at most one record; one at the head or ahead of it is left alone; one that says more records than there are, or is foreign to the chain, is left alone and reported |
| Audit.HashChainedAuditLog.SyncAnchor | shata-ai-trader/src/shata_trader/audit.py:195-226 | Succeeds if and only if the witness can be read and, being behind, written, and then it stands at the head; a missing one is made only for an empty log; a foreign one, or one that says more records than there are, is refused |
| Audit.AnyHistory | shata-ai-trader/src/shata_trader/audit.py:159-253 | With appends interleaved with late, lost or reordered publishes the witness stays on the chain, its position never falls, its height lies between that position and the length of the log, and a witness that missed the first record is never started |
| Events.OrderEventStore.Ingest | shata-ai-trader/src/shata_trader/events.py:47-62 | An event without id, client, known status or time of at least zero is refused without a trace, a repeated id changes nothing, and a new event is kept as it is and replaces the projection unless that is ahead of it |
| Events.OrderDoesNotMatter | shata-ai-trader/src/shata_trader/events.py:47-62 | For one content per id, any order with any repeats projects the same rank and time, the lexicographic maximum over the client's events |
| Events.FurthestIsShown | shata-ai-trader/src/shata_trader/events.py:8-62 | The projected status is the furthest the order was heard to be: filled, canceled or expired if any such event came, otherwise partially filled, acknowledged, new, in that order, at the latest time of the events that say as much |
| Events.StatusOrderDoesNotMatterIff | shata-ai-trader/src/shata_trader/events.py:47-65 | The projected status is the same for every order if and only if no two different statuses are both at the top |
| Events.TiesAreFinal | shata-ai-trader/src/shata_trader/events.py:8 | Two different statuses at the top are both of rank 40 and share their time |
| Governor.PriorityRateGovernor.Look | shata-ai-trader/src/shata_trader/rate_governor.py:37-53 | Granted if and only if the deadline has not passed, a whole interval has passed since the last grant, and everyone else waiting has a priority of a higher number, or the same one and came later; times out if and only if the deadline has passed; either exit removes exactly this ticket |
| Governor.PriorityRateGovernor.Others | shata-ai-trader/src/shata_trader/rate_governor.py:37-60 | Whatever other threads do while a ticket waits, every grant goes to a ticket before it, of higher priority or earlier in the same one |
| Governor.PriorityRateGovernor.Acquire | shata-ai-trader/src/shata_trader/rate_governor.py:27-60 | With any steps of other threads in between, every exit removes this ticket for good, records how, and a grant adds its own clock reading to the spaced list; whoever was granted meanwhile had a lower priority number, or the same one and came earlier; it times out at the first awakening after its deadline and at no other; with nobody in the way it is granted if and only if some awakening before its deadline is a whole interval after the last grant |
| Governor.WindowBound | shata-ai-trader/src/shata_trader/rate_governor.py:42-47 | With a positive interval between grants the number of grants in a window of any length is at most that length over the interval plus one |

## Left out

- SQLite, connections, file locks, fsync, JSON and date texts: stores are maps and sequences, times are numbers; a transaction is one step.
- Rounding of `Decimal` to context precision: amounts are exact reals.
- SHA-256 and UUID: client ids are kept unhashed, the audit hash is a parameter, proofs carry serial numbers.
- Concurrent operations of one engine, and a call still in flight when another leader takes over: in `Runs` and `Runtime` leaders act one after another and an operation is not interleaved with another one; `FencedLedger` and `Lease` have the interleavings of their own stores, and `Freshness.StraddleIsSafeIff` has the cycle that looks into the middle of a trade.
- A lapse of the lease followed by an in-place renewal inside one operation; between operations it is modelled.
- Exceptions raised by audit, activity and idempotency writes (the process may die after the latter two); the audit trail written by the engine.
- `last_error` and `updated_at` of a row, and the order of rows by age in a verification cycle: the model takes claims in any order.
- Visibility lag of order queries and external balance changes; cancellations of protections inside `Runs` and inside an operation: in `Runtime` they come between operations, and the verification cycle is proved for any books.
- Corrupt payloads inside `Runs`; the cycle and cold boot handle them.
- Wall-clock steps backwards in the activity caps: they are stated for a clock that does not run back.
- Time that passes while a cycle measures the oldest age; in the code it can only make the cached age larger.
- The heap behind the pacing queue: its head is taken to be the least ticket, as the library promises.
- Health of threads: whether supervisors and watchdog are alive is an answer given to each check.
- The in-memory exchange, which reserves no balance; the strategy, the watchdog and lease supervisor timing; close and finalizers.
- Runs.AnyRun: the invariant is claimed for an honest exchange; for a hostile one only the log, the write-ahead rule, the ends and the caps.
- Engine.ExecutionEngine.Process: that a well-formed trade is approved is not part of its contract; approval is characterised by `Risk.ApprovedIff`, the caps by `GateRefusesIff`. What requests that fail only sometimes lead to is in its clauses for any world, not in the tables for a calm one.
