# Verification of the gas sponsor and its guards

A Dafny model of the parts of the repository that decide what may be signed, published, spent or trusted, and proofs
that they do what they are for. Run `dafny verify dfyconfig.toml` here.

## What is modelled

**The two-journal protocol** (`Transactions`, `RequestLedger`, `RequestCommits`, `PendingOrder`, `RequestStore`,
`RequestSafety`, `Transport`, `Admission`, `BroadcasterService`, `Recovery`, `RecoverySteps`, `Protocol*`). The
broadcaster signs from one gas wallet and keeps two durable journals: the request store with its rolling 24-hour budget, and the single pending row
of the protected transport. `RequestStore.Store` and `Transport.ProtectedEthereumProvider` are the objects with their
mutable tables; each method is one committed transaction, proved equal to a step on the value of its table.
`Protocol.Apply` is one atomic step of the whole system: concurrent `handle` invocations cut at their awaits, the
background `reconcile`, the exclusive `recover` and `acknowledgeLoss`, a clock, and a crash between any two commits.
Every reply of the chain, the clock and the endpoint is an argument of the step, so a theorem over `After(c, steps)`
speaks of every interleaving and every reply. The methods that drive both journals are tied back to it: what a
submission, a turn of `reconcile` and a successful `recover` do is proved to be a sequence of protocol steps. The
history fields of `Protocol.System` (admission times, payloads issued, bytes published, keys submitted) are read by no
step. The strengthening that carries the budget is `RequestSafety.Committed`, which counts the one unresolved row at
its maximum, because `confirmed` may be repeated for it with another cost and time.

**Metering** (`Metering`, `Pacing`, `PaceRefusals`, `UsageWindows`, `CreditGate`). The leaky bucket with a pruned usage
table and the credit counters, each against the log of every grant. The bucket is exact in thousandths of a call, so
that a millisecond drains a whole number.

**Fees** (`FeeMarket`, `GasCap`). Oracle rates, issued quotes, fee acceptance and execution pricing of the operator;
gas-price capping of the client; and the agreement of the two.

**Quorum** (`Quorum`). One authoritative endpoint and two mirrors, settled in every order.

**Checkers** (`ExecutionTrace`, `AlertMarkup`, `FailsafeGuard`). Each is proved against a definition that does not
mention how it works: paths in a call tree, a grammar of nested markup, first-match dispatch and filled-in globs.

`Accounting` is the operator's report over the request journal.

## Assumptions

- The daily budget is fixed, and both journals start empty.
- The clock does not run backwards; this matters for the gas budget, the credit counters and the rate limits. The meter is treated
  under any clock.
- A backoff cap that is absent from a proxy rule means no wait between attempts.
- A mined transaction charges at most its gas limit times its signed cap.
- `recover` and `acknowledgeLoss` run with the service stopped, under the operator lock
  (apps/broadcaster/src/main.ts:96-104). Snapshots run without that lock (apps/broadcaster/src/main.ts:39-44).
- Hashes are collision-free: a hash is its preimage. A transaction that repeats the signed bytes of an older request is
  still possible, and off mainnet it is the one exception in `RecoveryRealigns`.
- `calculateGasLimit` is a positive function of the estimate, and `calculateMaximumGas` is price times limit. Both belong to
  a library that is not part of this model.
- SQL tables are sequences and maps, and a transaction is one atomic step. SQLite itself is not part of this model.

## What turned out not to hold as stated

Each of these has a concrete failing input and the exact condition under which the property holds.

- "Gas mined in any 24 hours is within the budget" fails when block timestamps precede the local clock of a row's last
  admission. The bounded windows are exactly those of a day less that skew (`ProtocolWindows.RollingBudgetIsExact`).
- Copying the request journal before the transport journal can produce a pair that disagrees
  (`ProtocolWitnesses.RequestsFirstSnapshotsCanDisagree`); copied transport first, the pair always agrees, and an installation
  restored from it keeps every invariant (`ProtocolBackup.RestoredKeeps`).
- The pace limit of the meter is lost as soon as the clock steps back by a millisecond (`Pacing.PaceHoldsIffNeverBack`), and
  its burst in one instant once it has stepped back by 34 (`Pacing.SixtyAtOnceUpTo33ms`).
- The usage limit of the meter is lost when the clock steps back by a millisecond over a day boundary, because a pruned day comes
  back into the window; it holds exactly while the clock never steps back (`UsageWindows.LimitHoldsIffNeverBack`).
- The eRPC guard budgets an unreadable backoff cap as no wait at all, so a policy that it certifies can starve
  (`FailsafeGuard.CertifiedPolicyCanStarve`); it cannot exactly when the cap is absent or readable, or at most one attempt is
  allowed (`FailsafeGuard.InTimeIffWaitsBudgeted`).
- An interrupted cancellation cannot always be finished by `recover retry`, even when the node agrees on the nonce. It is refused
  when the base fee, the balance or the limits no longer cover its signed price, when its trace fails, or when its original is one
  that the transport refuses to stage (`ProtocolWitnesses.RisenBaseFeeStopsRetry`,
  `ProtocolWitnesses.UnacceptableOriginalStopsRetry`), and then only (`RecoverySteps.RetryFinishesCancellation`).
- A stored answer is not final: a replay returns other bytes after the request's own invocation ends, or reconciliation answers
  for its receipt, and at no other time (`ProtocolReplay.StepAnswer`, `ProtocolWitnesses.AnswerCanChange`).

## Model

| member | source | states |
|---|---|---|
| Transactions.OriginalsAreNotCancellations | apps/railgun/operator/protected-provider.ts:103-132 | no signed payload passes the transport's rules both as an operation and as a cancellation, and what passes as a cancellation is a 21000-gas zero-value type-2 self-transfer |
| Transactions.AcceptedAddresses | apps/railgun/operator/protected-provider.ts:103-132 | what the rules accept, exactly: the operator's own valueless priced calls of the privacy contract or of one account that authorized the canonical delegate, and, as cancellations, plain transfers to itself |
| RequestStore.Store.ExposureNow | apps/broadcaster/src/storage.ts:109-113 | the summing loop computes the exposure at an instant: every row that is unconfirmed or at most a day old, at its actual cost when known |
| RequestStore.Store.Signed | apps/broadcaster/src/storage.ts:114-131 | commits one new row holding the entry field by field, its payment included, or rolls back to the old tables with the error of the first failing check |
| RequestStore.Store.Respond | apps/broadcaster/src/storage.ts:132-134 | stores the answer of that key and nothing else |
| RequestStore.Store.Cancel | apps/broadcaster/src/storage.ts:135-149 | stores a cancellation and raises the maximum within the budget, or changes nothing |
| RequestStore.Store.Confirmed | apps/broadcaster/src/storage.ts:150-152 | records cost and time of that key, also when repeated |
| RequestStore.Store.Assured | apps/broadcaster/src/storage.ts:153-159 | marks that key settled, as paid when the fee was received and as cancelled otherwise, or fails for an unknown key |
| RequestStore.Store.AcknowledgeLoss | apps/broadcaster/src/storage.ts:160-175 | appends one resolution matching the confirmed unpaid row, or changes nothing |
| RequestStore.Store.CheckedAt | apps/broadcaster/src/storage.ts:176 | stamps that key and nothing else |
| RequestCommits.SignIsGranted | apps/broadcaster/src/storage.ts:114-131 | a reservation is granted exactly for a new key, a valid nonce, an unused pilot and a positive cost within the budget, while nothing is unresolved |
| RequestCommits.SignStores | apps/broadcaster/src/storage.ts:114-131 | the new row holds each field of the entry and the pilot slot its hash |
| RequestCommits.CancelIsGranted | apps/broadcaster/src/storage.ts:135-149 | a cancellation is stored exactly for a known unconfirmed row whose raise fits the budget |
| RequestCommits.CancelStores | apps/broadcaster/src/storage.ts:135-149 | it changes that row alone: payload, hash and the larger of both costs |
| RequestCommits.WritesStore | apps/broadcaster/src/storage.ts:132-176 | answer, check stamp and confirmation each write their own columns of that row alone, and nothing without it |
| RequestCommits.AssureStores | apps/broadcaster/src/storage.ts:153-159 | a settlement writes which kind it was in that row alone, and fails exactly for an unknown key |
| RequestCommits.AcknowledgeStores | apps/broadcaster/src/storage.ts:160-175 | a loss is acknowledged exactly once, for a mined unpaid row of that hash and positive cost and a printable reason of 10 to 200 characters, and the resolution keeps all of it |
| RequestSafety.RowCharge | apps/broadcaster/src/storage.ts:109-113 | an unconfirmed row counts at its maximum, a mined one at its cost for exactly a day |
| RequestSafety.OpenUntilSettled | apps/broadcaster/src/storage.ts:177-188 | a request is open exactly until it is assured or its loss acknowledged at the hash and cost it was mined with |
| PendingOrder.PendingIsOrdered | apps/broadcaster/src/storage.ts:177-183 | whatever the table holds, the query keeps of the unresolved rows the first twenty, unconfirmed before confirmed, then by oldest check, then by oldest creation, and loses or repeats none |
| RequestSafety.PendingIsComplete | apps/broadcaster/src/storage.ts:177-188 | the ordered query with its limit of 20 returns exactly the one unresolved row, and `hasPending` agrees with it |
| RequestSafety.SignKeeps | apps/broadcaster/src/storage.ts:114-131 | a granted reservation keeps the journal invariant and the budget at every later instant, and the new row is the only unresolved one |
| RequestSafety.ConfirmKeeps | apps/broadcaster/src/storage.ts:150-152 | any repeated confirmation of the unresolved row within its maximum keeps the budget at every later instant |
| RequestSafety.AssureKeeps | apps/broadcaster/src/storage.ts:153-159 | assuring the confirmed unresolved row settles it and keeps the budget |
| RequestSafety.CancelKeeps | apps/broadcaster/src/storage.ts:135-149 | a stored cancellation keeps the budget at every later instant, with the row readmitted at the time of cancellation |
| RequestSafety.AcknowledgeKeeps | apps/broadcaster/src/storage.ts:160-175 | only the unresolved row can be acknowledged; that settles it and keeps the budget |
| RequestSafety.TouchKeeps | apps/broadcaster/src/storage.ts:132-134 | answering and check stamps leave every settlement figure and the invariant alone |
| RequestSafety.ExposureNeverExceedsBudget | apps/broadcaster/src/storage.ts:109-113 | under the invariant, exposure now and at any later time is within the budget |
| RequestSafety.AnyWindowWithinBudget | apps/broadcaster/src/storage.ts:109-152 | gas recorded as mined in any past window of a day less the clock skew is within the budget |
| RequestSafety.NonceBlockedByTheOpenRow | apps/broadcaster/src/storage.ts:184-191 | only the unresolved row can block a nonce, so `nonceBlocked` refuses nothing that `hasPending` lets through |
| Transport.ProtectedEthereumProvider.JournalSigned | apps/railgun/operator/protected-provider.ts:158-205 | the delete, update and insert between BEGIN and COMMIT amount to one journal step; every error leaves the row as it was |
| Transport.ProtectedEthereumProvider.StageSigned | apps/railgun/operator/protected-provider.ts:87-90 | persists an original exactly when the rules accept it, the reads succeed and its journal step commits; publishes nothing |
| Transport.ProtectedEthereumProvider.SendProtected | apps/railgun/operator/protected-provider.ts:207-227 | publishes exactly when the rules and the guard accept, the reads succeed and the journal step commits, always after that commit; a missing acknowledgement leaves the row locked |
| Transport.ProtectedEthereumProvider.RetryPending | apps/railgun/operator/protected-provider.ts:75-80 | republishes the journaled cancellation if there is one, else the original, exactly when they may be sent, and leaves the row unchanged |
| Transport.ProtectedEthereumProvider.CancelPending | apps/railgun/operator/protected-provider.ts:82-85 | publishes a cancellation exactly when it is acceptable and on the journaled nonce, after storing it beside the original |
| Transport.CancellationKeepsRow | apps/railgun/operator/protected-provider.ts:178-194 | because confirmed is at most latest, a committed cancellation never meets a deleted row |
| Transport.JournalCommits | apps/railgun/operator/protected-provider.ts:178-199 | a journal write commits exactly when the node is consistent and on the payload's nonce, a retry still names the current payload, a cancellation meets a row on its nonce and an original meets none, a confirmed one or its own; and what the row then holds |
| Transport.RunsRemember | apps/railgun/operator/protected-provider.ts:158-205 | after any attempts with any node replies, the single row still bounds every nonce ever committed and remembers whether it was cancelled |
| Transport.OriginalsHaveIncreasingNonces | apps/railgun/operator/protected-provider.ts:158-205 | over every run, different originals commit on strictly increasing nonces and at most one commits per nonce |
| Transport.CancelledOriginalsNeverReturn | apps/railgun/operator/protected-provider.ts:188-190 | once a cancellation commits, every later original is a different one on a larger nonce |
| Admission.RecentTwice | apps/broadcaster/src/broadcaster.ts:81-82 | pruning early loses nothing that a later pruning would keep |
| Admission.AdmitsExactly | apps/broadcaster/src/broadcaster.ts:66-114 | exactly which arrivals are dropped, replayed, refused and reserved for, and what each does to the reservation |
| Admission.RatesHold | apps/broadcaster/src/broadcaster.ts:80-85 | over a whole life of the process, no minute holds more than 300 admitted attempts or 30 signatures, although older times are forgotten |
| BroadcasterService.Broadcaster.Begin | apps/broadcaster/src/broadcaster.ts:66-114 | the synchronous prefix moves the reservation and answers as the admission function says; it reserves exactly for an armed, idle, parsed and permitted request on a live quote, not answered, signed or in progress, with nothing unresolved and both rates free |
| BroadcasterService.Broadcaster.SignAndSubmit | apps/broadcaster/src/broadcaster.ts:179-228 | request journal, transport journal and publication commit in that order, publication happens exactly when the store signs and the transport may send, the stored answer matches the outcome and a refused signature answers only a request whose signed bytes are known, and the reservation is always released |
| BroadcasterService.Broadcaster.Reconcile | apps/broadcaster/src/broadcaster.ts:257-293 | from a well-formed journal, the finding of the one open row, confirmed before or not, decides its every column; nothing else changes, and nothing is unresolved afterwards exactly when the fee arrived or the cancellation was mined |
| BroadcasterService.ReconcileSettles | apps/broadcaster/src/broadcaster.ts:257-293 | the same of the ledger values: what each finding makes of the open row, and exactly when nothing remains unresolved |
| BroadcasterService.Broadcaster.ReconcileOne | apps/broadcaster/src/broadcaster.ts:260-291 | one turn confirms, answers and assures as far as its receipt and nonce allow |
| BroadcasterService.SubmissionIsProtocolSteps | apps/broadcaster/src/broadcaster.ts:182-228 | what follows a granted signature is protocol steps, decided by whether the transport may send and the endpoint acknowledges, so it inherits everything proved of all runs |
| BroadcasterService.RefusedSigningIsProtocolSteps | apps/broadcaster/src/broadcaster.ts:181-228 | what follows a refused signature, the stamped rate included, is protocol steps as well |
| BroadcasterService.TurnIsProtocolSteps | apps/broadcaster/src/broadcaster.ts:259-292 | every turn of that loop is a sequence of protocol steps, so it inherits everything proved of all runs |
| Recovery.LimitsImplyAcceptance | apps/broadcaster/src/recovery.ts:77-82 | a cancellation within recovery's limits is never refused by the transport as malformed after it was stored |
| Recovery.Recover | apps/broadcaster/src/recovery.ts:12-75 | something is published exactly when every test of the chosen row, the node, the price, cost and balance limits, the budget, the quote, the trace, acceptance and both journal steps passes, and success is exactly that with an acknowledgement; its effect is then one performed recovery, and a refusal before the transport leaves both journals unchanged |
| Recovery.ChosenIsTheOnly | apps/broadcaster/src/recovery.ts:14-16 | recovery acts exactly when one row alone is unconfirmed, and on that row |
| Recovery.PermittedIsAffordable | apps/broadcaster/src/recovery.ts:77-82 | whatever a permitted recovery pays, the balance still holds the reserve afterwards, its signed price covers base fee and tip within the operator's maximum, and gas and cost are within their limits |
| Recovery.RetryIsPermitted | apps/broadcaster/src/recovery.ts:12-74 | exactly when a retry goes through, with every limit written out |
| Recovery.CancelIsPermitted | apps/broadcaster/src/recovery.ts:12-74 | exactly when a cancel goes through, with every limit and both outbid fees written out |
| Recovery.CancellationIs | apps/broadcaster/src/recovery.ts:43-46 | what a cancel signs: a type-2 transfer of nothing to itself on the request's nonce, costing 21000 times its price |
| Recovery.Choose | apps/broadcaster/src/recovery.ts:14-34 | accepts exactly one unconfirmed, intact row whose nonce is next and unconfirmed, with the transport holding it or an older one |
| Recovery.Prepare | apps/broadcaster/src/recovery.ts:35-70 | passes exactly when the command's own tests do; a cancel then has stored its outbidding payload, a retry nothing |
| Recovery.Disclose | apps/broadcaster/src/recovery.ts:71-74 | stages the original where a crash kept it from the transport, then publishes the cancellation or repeats the journaled bytes, exactly when both may be done |
| Recovery.PerformedMeans | apps/broadcaster/src/recovery.ts:32-74 | afterwards the transport holds the chosen request's original with the disclosed cancellation beside it; a retry repeats a stored cancellation exactly, a new one is a self-transfer that outbids both fee fields |
| RecoverySteps.RecoveryIsProtocolSteps | apps/broadcaster/src/recovery.ts:12-75 | what `recover` does to the two journal objects is a run of the protocol's recovery steps |
| RecoverySteps.RecoveryLevelsTheJournals | apps/broadcaster/src/recovery.ts:12-75 | from whatever a crash left after any run, a recovery that gets through leaves the transport row equal to the one unresolved request |
| ProtocolTheorems.StepKeeps | apps/broadcaster/src/broadcaster.ts:66-293 | every step of any component, and a crash, keeps the whole invariant and only extends the request journal |
| ProtocolTheorems.Reachable | apps/broadcaster/src/broadcaster.ts:66-293 | the invariant holds after every finite run |
| ProtocolTheorems.SettledForever | apps/broadcaster/src/storage.ts:153-188 | no row is ever lost, and a settled row never becomes unresolved again nor changes a figure |
| ProtocolTheorems.BudgetAlwaysHolds | apps/broadcaster/src/storage.ts:109-152 | in every reachable state and at every later time, exposure is within the daily budget |
| ProtocolTheorems.RollingDayWithinBudget | apps/broadcaster/src/storage.ts:109-152 | in every reachable state within the clock skew, gas recorded as mined in any window of a day less the skew is within the daily budget |
| ProtocolWindows.RequestRuns | apps/broadcaster/src/broadcaster.ts:66-293 | a request that arrives while nothing is in flight runs through eleven protocol steps to a paid, settled row |
| ProtocolWindows.TwoRequestsOverrun | apps/broadcaster/src/storage.ts:109-152 | two accepted transactions a day apart, the second mined in a block stamped `skew` early, put more than the budget into any window wider than a day less the skew |
| ProtocolWindows.BoundedWindowsAreADayLessSkew | apps/broadcaster/src/storage.ts:109-152 | with any two accepted transactions that overdraw the budget together: all runs within the skew keep every window of a width within the budget exactly when the width is at most a day less the skew |
| ProtocolWindows.RollingBudgetIsExact | apps/broadcaster/src/storage.ts:109-152 | the same equivalence for every positive budget |
| ProtocolTheorems.AtMostOneUnresolved | apps/broadcaster/src/storage.ts:177-188 | in every reachable state at most one row is unresolved, `pending` returns exactly it and `hasPending` agrees |
| ProtocolTheorems.TransportFirstSnapshotsAgree | apps/broadcaster/src/backup.ts:16-25 | whatever happens between the copies, a transport-first pair holds a transport row that repeats a request row, with its cancellation stored there |
| ProtocolBackup.RestoredKeeps | apps/broadcaster/src/backup.ts:16-25 | the stopped installation made of such a pair has every invariant, with the later history |
| ProtocolBackup.RestoredRunsAreSafe | apps/broadcaster/src/backup.ts:16-25 | every run that continues from a restored pair keeps the budget at all later times, has at most one unresolved request, loses or reopens nothing and publishes only journaled bytes |
| ProtocolWitnesses.RequestsFirstSnapshotsCanDisagree | apps/broadcaster/src/backup.ts:16-17 | in the other order there is a run whose pair disagrees |
| ProtocolTheorems.OnlyJournaledBytesAreDisclosed | apps/broadcaster/src/broadcaster.ts:182-189 | only bytes already committed to the request journal are ever published, and later payloads of a request are cancellations that outbid all earlier ones |
| ProtocolDisclosure.PublishedAddresses | apps/railgun/operator/protected-provider.ts:103-227 | in every run, whatever reaches the endpoint is signed by the operator, moves no value and addresses the privacy contract, one account that authorized the canonical delegate, through the guard where there is one, or the operator itself as a plain transfer |
| ProtocolTheorems.RecoveryRealigns | apps/broadcaster/src/recovery.ts:12-75 | whatever a crash left, a recovery that gets through leaves the transport row equal to the one unresolved request and has published its current payload |
| ProtocolLevels.StepLevels | apps/broadcaster/src/recovery.ts:32-50 | every step keeps the transport row on an accepted original that is never ahead of a request with a stored cancellation |
| RecoverySteps.RetryFinishes | apps/broadcaster/src/recovery.ts:12-75 | from a stopped state with the invariants, a restored one included, `recover retry` finishes an interrupted cancellation with identical bytes exactly when its signed price still fits the limits, its trace succeeds and its original is one that the transport accepts |
| RecoverySteps.RetryFinishesCancellation | apps/broadcaster/src/recovery.ts:12-75 | the same of every reachable stopped state whose node reports the request's nonce as next and unconfirmed; neither the budget nor the row that a crash left in the transport ever stands in the way |
| ProtocolWitnesses.RisenBaseFeeStopsRetry | apps/broadcaster/src/recovery.ts:55-58 | after a crash before staging, a stored cancel and another crash, a base fee risen to the cancellation's price stops `recover retry` before anything is published |
| ProtocolWitnesses.UnacceptableOriginalStopsRetry | apps/broadcaster/src/recovery.ts:72 | in the same run, at any price, so does an original that the transport refuses to stage |
| ProtocolTheorems.OneRequestAtATime | apps/broadcaster/src/broadcaster.ts:69-114 | under every interleaving at most one invocation holds the reservation, no key is journaled twice and none is first submitted twice |
| ProtocolTheorems.AnsweredRequestsOnlyReplay | apps/broadcaster/src/broadcaster.ts:69-71 | once an answer is stored, every later duplicate is dropped or answered with what is stored and is never processed again |
| ProtocolReplay.StepAnswer | apps/broadcaster/src/broadcaster.ts:192-287 | a stored answer is rewritten by exactly two steps, the end of its own invocation and the answer that reconciliation derives from its receipt, and by nothing else |
| ProtocolReplay.ReplaysAreIdentical | apps/broadcaster/src/broadcaster.ts:69-71 | between those steps every replay returns the same ciphertext |
| ProtocolWitnesses.AnswerCanChange | apps/broadcaster/src/broadcaster.ts:286-287 | a run in which the same duplicate is answered with other bytes before and after reconciliation answers for the receipt |
| Accounting.AccountingReport | apps/broadcaster/src/operations.ts:8-38 | the loop's figures equal independent per-row totals, and it fails exactly on an invalid received fee |
| Accounting.GasIsConserved | apps/broadcaster/src/operations.ts:17-25 | recorded expense is the expense of assured rows plus acknowledged losses plus the mined part of what is unresolved |
| Accounting.HeldBackIsPending | apps/broadcaster/src/operations.ts:24-25 | the rows behind the unresolved figure are, row by row and in total, exactly those that the pending predicate selects before its limit |
| Accounting.SettledRequestIsBooked | apps/broadcaster/src/operations.ts:18-33 | a signed, mined and assured request raises the fees of its own token by exactly its payment and leaves other tokens alone; a cancelled one adds none and one without a payment is counted as historical |
| Metering.ValidationCloudBudget.Spend | apps/railgun/server/budget.ts:87-102 | one transaction on the usage table and the pace row, including what a refusal leaves behind |
| Metering.TableStep | apps/railgun/server/budget.ts:92-101 | a request keeps the pruned table exact for the current window and every window within the limit; a grant reports what is really left, and a budget refusal comes exactly when the window has no room and reports what it still has |
| Metering.UsageNeverExceedsLimit | apps/railgun/server/budget.ts:73-101 | while periods never step back, units granted over the full history in any window of periods stay within the limit, the reported remainder is exact, and a request is refused for the budget exactly when it does not fit, with the remainder of the log |
| UsageWindows.DeletedDayOverruns | apps/railgun/server/budget.ts:73-101 | a run of priced batches that spends the limit, prunes its first day and steps back one millisecond puts 24,000,800 units into 32 consecutive days |
| UsageWindows.LimitHoldsIffNeverBack | apps/railgun/server/budget.ts:73-101 | over all runs of priced batches, every 32 consecutive days stay within 24,000,000 units exactly while the clock never steps back |
| Pacing.BucketStep | apps/railgun/server/budget.ts:95-100 | under any clock, a request keeps the level above everything admitted since any grant, less what has drained forwards |
| Pacing.PaceUnderAnyClock | apps/railgun/server/budget.ts:84-100 | under any clock, weight admitted in any interval is at most the burst plus what refills over its length and over all the time by which the clock stepped back |
| Pacing.PaceNeverExceedsRefill | apps/railgun/server/budget.ts:84-100 | with a clock that does not run back, weight admitted in any interval is at most the burst plus what refills over its length |
| PaceRefusals.PaceIsExact | apps/railgun/server/budget.ts:95-100 | under any clock, a request that the budget has room for is granted exactly when every interval that it ends keeps the pace |
| Pacing.AlchemyAllowance | apps/railgun/server/budget.ts:74-100 | any 32 consecutive days stay within 24,000,000 units and any ten seconds within 2200 throughput units |
| Pacing.AlchemyToleratesEightSeconds | apps/railgun/server/budget.ts:84-100 | the provider's 300 units per second over ten seconds survive a clock that steps back by up to eight seconds in all |
| Pacing.BackwardClockOverruns | apps/railgun/server/budget.ts:95-100 | six priced batches, with one step back of one millisecond, put 62 calls where 61.98 may refill |
| Pacing.PaceHoldsIffNeverBack | apps/railgun/server/budget.ts:84-100 | over all runs of priced batches, every interval keeps its pace exactly while the clock never steps back |
| Pacing.BurstOverruns | apps/railgun/server/budget.ts:95-100 | five priced batches, with 34 milliseconds of step back, put 61 calls into one instant |
| Pacing.SixtyAtOnceUpTo33ms | apps/railgun/server/budget.ts:84-100 | over all runs of priced batches, no instant holds more than sixty calls exactly while the clock steps back by at most 33 milliseconds in all |
| Metering.Price | apps/railgun/server/budget.ts:68-86 | a batch is priced exactly when it is non-empty, bounded and fully known, and a priced batch always fits an empty bucket |
| CreditGate.OpenBudget | infra/arc-mainnet/credit_gate.py:16-22 | an allowance is accepted exactly within its bounds; an existing file keeps its counters, a new one starts from zero |
| CreditGate.Budget.Take | infra/arc-mainnet/credit_gate.py:24-37 | one reservation on the counters row; every refusal leaves the row unchanged |
| CreditGate.ReserveRefinesLog | infra/arc-mainnet/credit_gate.py:30-37 | the compact row grants exactly when the full log leaves room in total, in the minute and in the day |
| CreditGate.RunsDecide | infra/arc-mainnet/credit_gate.py:30-37 | under any clock, a call is granted exactly when the allowance and the unbroken runs of grants of its minute and of its day leave room |
| CreditGate.AllowanceHolds | infra/arc-mainnet/credit_gate.py:33-36 | for any clock, credits granted never exceed the allowance |
| CreditGate.CalendarCapsHold | infra/arc-mainnet/credit_gate.py:31-36 | with a clock that does not run back, no calendar minute exceeds 1000 credits and no calendar day 40000 |
| CreditGate.SixtySecondsHold | infra/arc-mainnet/credit_gate.py:31-36 | any sixty seconds hold at most 2000 credits |
| FeeMarket.CeilDivIsLeast | apps/broadcaster/src/fees.ts:15 | the rounded quotient is the least integer that covers the dividend |
| FeeMarket.FeeOracle.Rates | apps/broadcaster/src/fees.ts:25-62 | a warm cache answers as it is; otherwise rates exist exactly when the block is fresh, every answer is usable and every stablecoin is in the band, and the cache then holds what that one reading implies; a failed refresh changes nothing |
| FeeMarket.PricesExist | apps/broadcaster/src/fees.ts:17-52 | a reading is priced exactly when its block is within 45 seconds and every answer is positive, complete and young enough, at the answers' own prices |
| FeeMarket.PricesAreRecent | apps/broadcaster/src/fees.ts:17-62 | no rate in use rests on an answer older than its feed's limit plus 45 seconds of block slack, 30 of caching and the duration of its refresh |
| FeeMarket.RateCovers | apps/broadcaster/src/fees.ts:57-59 | two nested ceilings lose none of the margin and overshoot by less than two units before scaling |
| FeeMarket.Refresh | apps/broadcaster/src/fees.ts:53-62 | rates exist exactly when every stablecoin is in the band, one for every token, wrapped ether included as par |
| FeeMarket.BookHolds | apps/broadcaster/src/fees.ts:65-71 | after any orderly issuances the table holds exactly those not yet a lifetime past their expiration |
| FeeMarket.LiveMeansRecent | apps/broadcaster/src/fees.ts:65-77 | a quote is usable exactly while it was issued less than a lifetime ago |
| FeeMarket.FeeDesk.ValidateFee | apps/broadcaster/src/fees.ts:73-85 | accepts exactly one positive payment in a quoted token that covers the gas budget at the fresh rate |
| FeeMarket.AcceptedPaymentWasQuoted | apps/broadcaster/src/fees.ts:65-85 | over any orderly issuances, a payment is accepted exactly within five minutes of an issuance of its quote that priced its token, when it is the only one and covers the gas budget |
| FeeMarket.AcceptedFeeCoversCost | apps/broadcaster/src/fees.ts:53-84 | whatever is accepted under fresh rates repays gas and margin despite three nested ceilings |
| FeeMarket.OraclePaymentCoversCost | apps/broadcaster/src/fees.ts:17-84 | whatever is accepted under the oracle's rates repays gas and margin at the prices that the feeds reported |
| FeeMarket.PriceExecution | apps/broadcaster/src/broadcaster.ts:129-155 | returns the one execution within every limit, with the least gas limit a tenth above the estimate and the least admissible price, and refuses only when there is none |
| FeeMarket.ExecutionFits | apps/broadcaster/src/broadcaster.ts:129-155 | every figure of an execution written out; whatever is mined within it leaves the reserve in the balance |
| GasCap.CapGasPrice | apps/railgun/src/broadcaster.ts:140-146 | the signed price is the highest, not above the wanted one, whose fee fits the budget |
| GasCap.CapMeetsNetworkPrice | apps/railgun/src/private-swap.ts:38-72 | the capped price meets the network's price exactly when the balance pays for it, a fee that does not fit always leaves a lower price for the next attempt, and capping again changes nothing |
| GasCap.OperatorAccepts | apps/broadcaster/src/broadcaster.ts:145-163 | the operator accepts a type-4 client's fee exactly when its own fee is no higher, hence always when its rate has not risen |
| GasCap.CappedRequestSettles | apps/railgun/src/broadcaster.ts:140-162 | end to end, a capped request costs at most the user's budget and repays the operator's gas with its margin, for a minute after the client's check, unless the rate rose |
| Quorum.VerifyChunk | functions/api/pons-token-list.ts:288-342 | for every settlement order the result is the chunk read at an ascending list of positions, exactly those whose id is in the trusted set, else in the intersection of both mirrors, and an error when neither exists |
| Quorum.VerifiedPicks | functions/api/pons-token-list.ts:306-311 | the verified launches are the chunk read at exactly the positions whose id was verified, in order |
| Quorum.Chunk | functions/api/pons-token-list.ts:234-239 | a first batch of at most 5 and later ones of at most 20, non-empty, whose concatenation is the input |
| Quorum.VerifyLaunches | functions/api/pons-token-list.ts:346-358 | publishes exactly the leading agreed batches, each read at the positions of its verified ids, and fails when they verified nothing or the deadline passed |
| Quorum.PublishedPicks | functions/api/pons-token-list.ts:346-358 | so is every published batch |
| Quorum.RpcResultsById | functions/api/pons-token-list.ts:199-219 | succeeds exactly when every expected id has one error-free result and nothing else came, and maps each id to its own result |
| Quorum.ReplyOrderIsIrrelevant | functions/api/pons-token-list.ts:199-219 | the order of the replies changes neither acceptance nor the map |
| ExecutionTrace.AssertTraceSuccess | apps/broadcaster/src/transaction.ts:89-96 | accepts exactly the trees whose every node, by path, is a successful call at depth at most 64 and whose size fits what is left of 4096 nodes, and advances the shared counter by that size |
| ExecutionTrace.SizeCountsNodes | apps/broadcaster/src/transaction.ts:89-96 | the size of a trace is the number of its nodes, told apart by their paths |
| ExecutionTrace.AssertPrivateExecution | apps/broadcaster/src/transaction.ts:98-107 | adds exactly that some path leads to a CALL of the proxy, in either letter case, with the exact calldata |
| AlertMarkup.MaskingIsExact | scripts/check-alert-annotations.py:67-74 | masking blanks exactly the template actions of the left-to-right search and keeps every other character at its offset |
| AlertMarkup.InsideIsAction | scripts/check-alert-annotations.py:67-74 | only characters between an opening and a closing pair of braces are blanked |
| AlertMarkup.NoActionRemains | scripts/check-alert-annotations.py:67-74 | the masked text contains no complete action |
| AlertMarkup.TagEndIffQuoted | scripts/check-alert-annotations.py:40 | the tag pattern stops exactly after attributes whose quotes pair up and which have no closing bracket outside them |
| AlertMarkup.PassesIffNested | scripts/check-alert-annotations.py:93-118 | the stack scan passes exactly the texts of the nested-markup grammar |
| AlertMarkup.NestedIsWrapped | scripts/check-alert-annotations.py:98-116 | the tags of that grammar have allowed names, pair up by name, and open a span only as a spoiler |
| AlertMarkup.SpoilerIsDeclared | scripts/check-alert-annotations.py:46 | the spoiler pattern finds exactly the attributes that contain the whole word, an equals sign between optional spaces and the quoted class |
| AlertMarkup.HtmlProblems | scripts/check-alert-annotations.py:93-122 | reports nothing exactly when the masked text is deliverable: nested permitted tags, spoiler spans, legal entities; every problem carries the offset of its character in the raw text |
| FailsafeGuard.GlobIffInstance | infra/optimism-mainnet/assert-erpc-failclosed.py:149-157 | a glob matches exactly the names obtained by writing one-line texts for its stars |
| FailsafeGuard.SplitJoins | infra/optimism-mainnet/assert-erpc-failclosed.py:149-157 | the alternatives of a pattern hold no bar, and joined by bars they are the pattern again |
| FailsafeGuard.SplitIsUnique | infra/optimism-mainnet/assert-erpc-failclosed.py:149-157 | and no other list of alternatives does |
| FailsafeGuard.SplitIsStretches | infra/optimism-mainnet/assert-erpc-failclosed.py:149-157 | the alternatives are exactly the stretches between bars |
| FailsafeGuard.StripIsUnique | infra/optimism-mainnet/assert-erpc-failclosed.py:149-157 | a stripped alternative is the one text without outer spaces that padding with spaces gives back |
| FailsafeGuard.PatternMeans | infra/optimism-mainnet/assert-erpc-failclosed.py:149-157 | a pattern matches a name exactly when some stretch between bars, stripped and not empty, becomes the name by writing one-line texts for its stars |
| FailsafeGuard.CatchAllMeans | infra/optimism-mainnet/assert-erpc-failclosed.py:306-320 | a pattern catches everything exactly when a lone star stands between its bars |
| FailsafeGuard.ModellableMeans | infra/optimism-mainnet/assert-erpc-failclosed.py:143-146 | the guard can follow a pattern exactly when its stripped alternatives are made of letters, digits, underscores and stars |
| FailsafeGuard.ListedMethods | infra/optimism-mainnet/assert-erpc-failclosed.py:149-157 | a list of plain names joined by bars matches exactly those names |
| FailsafeGuard.CheckUpstreamBudgets | infra/optimism-mainnet/assert-erpc-failclosed.py:249-303 | reports nothing exactly when every upstream rule's serial budget fits its deadline |
| FailsafeGuard.BudgetIsAttained | infra/optimism-mainnet/assert-erpc-failclosed.py:222-246 | some sequence of attempts and waits holds a request for the whole serial budget |
| FailsafeGuard.CatchAllBudgetIsExact | infra/optimism-mainnet/assert-erpc-failclosed.py:249-303 | a catch-all upstream rule fits exactly when no possible hold outlasts a readable deadline |
| FailsafeGuard.PinnedBudgetIsExact | infra/optimism-mainnet/assert-erpc-failclosed.py:249-303 | a pinned alternative fits exactly when a method that it matches is dispatched under a readable deadline which no possible hold exceeds |
| FailsafeGuard.CheckNonconsensusHedges | infra/optimism-mainnet/assert-erpc-failclosed.py:306-334 | reports nothing exactly when a catch-all rule exists and every rule without consensus hedges within two seconds |
| FailsafeGuard.ValidateNetwork | infra/optimism-mainnet/assert-erpc-failclosed.py:434-451 | reports nothing exactly when the network's policy is certified |
| FailsafeGuard.EveryMethodIsCovered | infra/optimism-mainnet/assert-erpc-failclosed.py:306-334 | every one-line method is dispatched, to a fail-closed quorum or to a rule that hedges, and a protected one to a quorum of two out of three that answers disputes and low participation with errors |
| FailsafeGuard.WedgedUpstreamCannotStarve | infra/optimism-mainnet/assert-erpc-failclosed.py:222-287 | one wedged upstream under a catch-all rule, with waits up to the cap in force, gives up before every readable network deadline whenever that cap is absent or readable or there is at most one attempt |
| FailsafeGuard.CertifiedPolicyCanStarve | infra/optimism-mainnet/assert-erpc-failclosed.py:213-231 | a policy that the guard certifies, with a cap of ninety seconds that it cannot read, holds a request for 98 seconds against deadlines of twelve |
| FailsafeGuard.InTimeIffWaitsBudgeted | infra/optimism-mainnet/assert-erpc-failclosed.py:213-287 | over every value an unreadable cap may stand for, a wedged upstream of a certified policy always gives up in time exactly when the cap is absent or readable, or at most one attempt is allowed |
| FailsafeGuard.QuorumValueIsHonest | infra/optimism-mainnet/assert-erpc-failclosed.py:168-189 | under a protected method's quorum with at most one faulty voter, a value is served only when a quorum of voters reported it, whatever the dispute and low-participation settings; a correct voter reported it and no other value reaches the quorum |

## Left out

- Cryptography and encodings: signatures, authorization recovery, envelopes, custody. A signed payload is a record.
- The checks inside `handle` between admission and signing, other than pricing, fees and the trace (withdrawal recipient,
  nonce and balance reads, network and authority reads, proof validation): they only make more invocations fail, and the
  step `Fail` is enabled for every invocation that holds the reservation. The liveness claim about `recover` keeps its refusals.
- Request parsing and order preflight: long lists of independent checks.
- HTTP, timeouts, file permissions, sockets, health and monitoring. Promises are modelled by the order in which they settle.
- The oracle's feed discovery, and the sharing of one refresh by concurrent callers.
- FailsafeGuard.CheckUpstreamBudgets: method-pinned rules are compared, as in the guard, through one representative name; no
  claim is made about every method that matches a wildcard.
- FailsafeGuard.ValidateNetwork: the fixed schema, endpoint, cache and rate-limit comparisons of the same guard, a duration
  whose number does not parse (the guard then raises), and non-integer attempt counts.
- FailsafeGuard.PatternMeans: white space is the ASCII one.
- AlertMarkup.HtmlProblems: white space and word characters are the ASCII ones; message texts are reduced to kind and offset.
- ExecutionTrace.AssertPrivateExecution: lower-casing is that of ASCII letters.
- Metering.ValidationCloudBudget.Spend: time is whole milliseconds and pace is exact; floating-point rounding is not modelled.
- The cost table and block-tag parsing of the paid lane's proxy (infra/arc-mainnet/credit_gate.py:40-60).
- The contents of a verified launch tuple: which ids an endpoint verified is an input of the quorum.
- The UI, deployment configuration, browser scripts and intent parsing.
