# Verified model of the interbank deposit protocol

A Dafny model of how money moves in this bank: the ledger of the Account service, the interbank deposit
protocol of the Payment service (outbox, callbacks, timeout state machine, cancellations, reversals), the
saga record of the Transaction service, and the partner bank on the other side of a network that loses,
delays, repeats and reorders. Each service is modelled twice: as pure functions on values, over which the
properties of every run are proved, and, where the program updates something in place, as a class whose
methods are proved to do exactly what those functions say.

`dafny verify dfyconfig.toml` checks everything.

## How it fits together

| layer | files | what is proved about every run |
|---|---|---|
| Account ledger | `Ledger`, `LedgerInvariants`, `LedgerEffects`, `AccountHandlers` | reserved money is exactly the open holds, every balance is explained by the records, nobody is overdrawn, the code's `Math.max(0, …)` never acts |
| Internal transfers | `Verdicts`, `InternalSaga` | one verdict per transaction whatever workers race and crash, hence the ledger facts hold with no further hypothesis; exactly when a second verdict would break them, when held funds can still be freed, and when a transfer's money can still move |
| Outbound deposit | `InterbankRules`, `Outbound`, `OutboundEffects`, `PaymentTransfers`, `Deposit`, `DepositSafety`, `DepositLiveness` | the two banks agree, the outbox loses no verdict, debit xor release, no callback is swallowed, held funds can always be settled |
| Receiving side | `Receiver`, `ReceiverLiveness`, `PaymentDeposits`, `MockBank`, `TwoBanks` | the receiving row is truthful for good; our own receiver and the mock both satisfy the only assumption the sender makes; every joint run agrees but for a late 422, and exactly then not |
| Money end to end | `DepositLedger`, `DepositMoney`, `ReceiptMoney`, `TwoBooks`, `ReversalMoney` | the deposit joined to the books of both banks: the money arrives exactly if it leaves, and a reversal returns what it takes |
| Reversals | `Refunds`, `PaymentReversals` | at most one refund per deposit, each matched by a debit of the same amount; exactly when a debit can still be refunded |
| Saga | `Saga`, `DepositSaga` | confluence over any order and repetition of events; the saga ends where the money did |
| Bounds | `TimeoutWorker`, `TimeoutBounds`, `RetryCascade`, `LockOrder`, `LockCover` | how many ticks drain the table, how many probes a silent partner costs, how many deliveries a failing message causes, when the naive retry limit holds, no deadlock |
| Self-contained cores | `AnomalyDetector`, `Reconciliation`, `Fingerprint`, `AccountNumbers` | refinement of a detector that forgets nothing, exactness of the diff and of paging, faithfulness of the idempotency fingerprint, round trips of requests and account numbers |

`Prelude` holds options, sums over maps and runs made in two parts.

A deposit's sender meets its receiver through one predicate, `Deposit.Lawful`: a partner credits only what
reached it, never credits what it is bound to refuse, never goes back on either, and its replies and
callbacks say so truthfully, except that it may refuse one copy of a deposit with an error status after it has
credited another. `TwoBanks` proves that the receiver of this repository and the mock bank meet
it, for any interleaving of their own steps, and carries every joint run over to a run of `Deposit`.

## Assumptions

- Money is whole cents (`int`), times are milliseconds, a UUID is the number its digits spell. A missing or
  non-numeric amount or date is `None`.
- Each Account handler is one atomic step, and so is Transaction's find-then-save. (`debit` and `release`
  read the account row without `FOR UPDATE`, so atomicity is assumed, not derived from locks.) Payment's
  handlers are not atomic: they are split into their database updates, publications and requests. The nightly
  deactivation of one account is atomic too, and its account may count as idle at any time.
- Verdicts of Payment's simulated processor are free within its amount limits, and deposits from other banks may
  come in at any time.
- The empty `catch` around an insert means a duplicate key and nothing else.
- SHA-256 and the derived UUIDs are injective; ids of deposits sent and deposits received are distinct.
- Configuration and API keys do not change during a run.
- A partner that answers a POST with a status other than 0, 200, 202, 409, 429 or a 5xx has credited the deposit
  before or never will. That this means rejection is the code's own
  reading: interbank.service.ts:389-420 rejects on every other status, although the documentation names only 400,
  401, 403, 404 and 422.
- The sender's and the receiver's clocks are unrelated; Payment and Account of one bank read one clock.
- A publication counts as done once RabbitMQ took it; afterwards it may be delivered any number of times,
  in any order, at any time, or never.

## Findings

- Two banks running this software can disagree: a POST handler that found no row checks the time only afterwards
  (interbank.service.ts:62 and 66). If another copy of the deposit is credited in between and expiresAt passes,
  it answers 422, and a sender still PENDING rejects and releases a deposit that was credited
  (`TwoBanks.TwinsCanDisagree`). A REJECTED deposit was credited exactly in such a run (`TwoBanks.TwinsAgree`,
  `TwoBanks.DisagreementMeansALateCheck`), and that 422 is the only untrue reply there is
  (`Receiver.OnlyALateLookUpMisleads`, `Receiver.LateRefusalIsTrueIff`).
  Once the callback of the credited copy is acknowledged, a reversal has been requested (`TwoBanks.BanksAgree`).
- A settlement can go unannounced: Account commits a debit or a release and then publishes, with no outbox;
  a crash between the two is never repaired (`DepositSafety.AnAnnouncementCanBeLost`), and a settlement is
  announced exactly if the step that made it published (`DepositSafety.AnnouncedIffEmitted`). The money is
  right all the same; it is the saga that then never ends.
- Held funds of an internal transfer can be stuck for ever: Payment dies between storing a verdict and publishing it
  (`Verdicts.AHoldCanBeStranded`), or Account between reserving and announcing
  (`InternalSaga.AnUnannouncedHoldIsStuck`). Exactly when they can still be freed: `InternalSaga.FreeableIff`.
- A FAILED internal transfer can move its money: a refused reservation leaves no record and its request may be
  handled again (`InternalSaga.AFailedTransferCanMove`), and a customer may lose the verification after the
  request was made (`InternalSaga.AnUnverifiedTransferCanMove`). Exactly when: `InternalSaga.MovableIff`.
- A reversal can be debited and never refunded (`Refunds.ADebitCanGoUnrefunded`), since a failed reversal leaves
  no record in Account; exactly when: `Refunds.RefundableIff`.
- The status guards of `complete` and `release` do not by themselves keep the books sound when both verdicts on a
  transfer arrive; exactly when they do, for either order: `Verdicts.SecondVerdictBreaksTheBooks`. The single
  verdict of Payment keeps them sound always (`Verdicts.OneVerdict`, `Verdicts.BooksStaySound`).
- The internal saga, unlike the interbank one, depends on order: an event that comes before its predecessor
  throws, and only a later delivery of it can act (`Saga.ThrowsOnlyWhenEarly`, `Saga.InternalEndsIffInTurn`).
- A rejected deposit ends FAILED or COMPENSATED depending on the order of its events
  (`Saga.RejectedEndsFailedIff`); both read FAILED in public.
- With k services bound to a key, a failing message causes up to k times the sum of k^(2c) deliveries, not k times
  `maxRetries` + 1: the retry queues of all services get a copy of each retry and each goes back to all of them
  (`RetryCascade.WorstCase`); the smaller limit holds exactly for one service or none, or without retries
  (`RetryCascade.NaiveLimitIff`).

## Model

| member | source | states |
|---|---|---|
| `LedgerInvariants.HandleKeepsSound` | apps/account-service/src/account/interbank.service.ts:66-270 | Every event of the ledger, internal or interbank, keeps all of: reserved money equals the open holds of each account, every balance equals its opening value plus what the recorded movements explain, 0 <= reserved <= balance; and its handler never throws. The only condition is that no verdict contradicts an earlier one |
| `LedgerInvariants.SoundHoldsFit` | apps/account-service/src/account/account.service.ts:175-200 | In sound books no open hold exceeds what its account has reserved, so `Math.max(0, …)` never changes a result |
| `LedgerInvariants.AccountedKeeps` | apps/account-service/src/account/account.service.ts:115-136 | Whatever handler writes one record and moves every account by exactly the change of that record keeps the reserved-funds identity and the conservation law |
| `LedgerInvariants.ReserveAccounted` | apps/account-service/src/account/account.service.ts:98-136 | An internal reservation moves the accounts by exactly the record it writes, keeps solvency, and touches nothing when the transaction is known |
| `LedgerInvariants.CompleteAccounted` | apps/account-service/src/account/account.service.ts:164-191 | A completion, also one between an account and itself, moves source and target by exactly what the completed record explains, frees its hold, keeps solvency, and does not throw |
| `LedgerInvariants.ReleaseAccounted` | apps/account-service/src/account/account.service.ts:193-215 | A release frees exactly its hold, moves no balance, and does not throw |
| `LedgerInvariants.InterbankReserveAccounted` | apps/account-service/src/account/interbank.service.ts:66-115 | An interbank reservation holds exactly amount plus fee of the record it writes; a rejected one holds nothing |
| `LedgerInvariants.DebitAccounted` | apps/account-service/src/account/interbank.service.ts:125-151 | A debit turns the hold of its operation into a movement of the same size and keeps solvency |
| `LedgerInvariants.InterbankReleaseAccounted` | apps/account-service/src/account/interbank.service.ts:153-175 | A release frees exactly the hold of its operation and moves no balance |
| `LedgerInvariants.CreditAccounted` | apps/account-service/src/account/interbank.service.ts:178-207 | A deposit credits exactly the amount its operation records, or nothing if it is rejected or repeated |
| `LedgerInvariants.CancelAccounted` | apps/account-service/src/account/interbank.service.ts:224-240 | A cancellation never moves money |
| `LedgerInvariants.ReverseAccounted` | apps/account-service/src/account/interbank.service.ts:243-270 | A reversal takes back exactly what the deposit gave, after which the deposit explains nothing, and never makes a balance fall below what is reserved |
| `LedgerInvariants.OpenedIsSound` | apps/account-service/src/account/account.service.ts:41-70 | Newly opened books are sound, with their balances as opening values |
| `LedgerInvariants.OnlyReversalsBreakTheMinimum` | apps/account-service/src/account/interbank.service.ts:249-255 | If any event takes an account from meeting its minimum balance to below it, that event is a reversal that refunds a deposit credited to that very account |
| `LedgerInvariants.CompleteMovesTheFee` | apps/account-service/src/account/account.service.ts:175-184 | An internal transfer changes the total of all balances by minus its fee, and by nothing when repeated |
| `LedgerInvariants.OtherEventsWriteOneAccount` | apps/account-service/src/account/interbank.service.ts:66-270 | Every event but a completion writes at most one account and changes its balance by exactly what its reply announces |
| `LedgerInvariants.TotalMoves` | apps/account-service/src/account/account.service.ts:79-96 | The total of all balances moves only by announced fees, debits, credits and refunds, for every event and any books |
| `LedgerEffects.GrantRecordsAmountAndFee` | apps/account-service/src/account/account.service.ts:106-122 | An internal reservation is granted by holding amount plus the fee that the source charges, and by recording and announcing exactly that; anything else leaves the books alone |
| `LedgerEffects.RefusedReservationsNameTheFault` | apps/account-service/src/account/account.service.ts:106-114 | Exactly when it is skipped, refused for an account that is missing or inactive, or for funds |
| `LedgerEffects.CompletionPays` | apps/account-service/src/account/account.service.ts:169-189 | Exactly when a completion is skipped or throws; otherwise amount and fee leave the source, the amount reaches the target, and both are announced |
| `LedgerEffects.ReleaseFrees` | apps/account-service/src/account/account.service.ts:198-213 | Exactly when a release is skipped or throws; otherwise amount and fee are freed on the source and announced, and no balance moves |
| `LedgerEffects.KnownOrdersAreRepeated` | apps/account-service/src/account/interbank.service.ts:74-84 | A known order is answered again from its record |
| `LedgerEffects.GrantedOrdersRecordAmountAndFee` | apps/account-service/src/account/interbank.service.ts:86-103 | A granted order holds, records and announces amount and fee |
| `LedgerEffects.RefusedOrdersNameTheFirstFault` | apps/account-service/src/account/interbank.rules.ts:47-57 | A new order is granted exactly within currency and limits, with an active account whose funds cover it; otherwise it is recorded and announced with the first of the five faults |
| `LedgerEffects.DebitPays` | apps/account-service/src/account/interbank.service.ts:125-151 | Exactly when a debit is skipped, a conflict or throws; otherwise amount and fee leave balance and hold, and are announced |
| `LedgerEffects.RefusalFrees` | apps/account-service/src/account/interbank.service.ts:153-175 | Exactly when a release is skipped or throws; otherwise amount and fee are freed and announced, and the reason recorded |
| `LedgerEffects.KnownDepositsAreRepeated` | apps/account-service/src/account/interbank.service.ts:183-184 | A recorded deposit is announced again as it was decided, also after a refund |
| `LedgerEffects.RefusedDepositsNameTheFirstFault` | apps/account-service/src/account/interbank.rules.ts:35-43 | A new deposit is credited in full exactly in time, in currency and limits, for an active account; otherwise it is recorded and announced with the first of the six faults, the expiry before all |
| `LedgerEffects.CancellationIsExact` | apps/account-service/src/account/interbank.service.ts:224-240 | An unknown deposit is barred, and of a known one it is told exactly what became of it |
| `LedgerEffects.ReversalIsGrantedIff` | apps/account-service/src/account/interbank.service.ts:243-270 | A reversal is granted exactly for the credited deposit whose account has its whole amount free, or again for the one it already took; each failure has its reason |
| `LedgerEffects.DeactivationIsExact` | apps/account-service/src/account/account.service.ts:219-224 | Exactly the active account below 50 quetzals is deactivated |
| `Verdicts.OneVerdict` | apps/payment-service/src/payment/payment.service.ts:30-78 | However workers race, crash and repeat, no transaction ever has both verdicts published |
| `Verdicts.BooksStaySound` | apps/account-service/src/account/account.service.ts:98-215 | In every run of Payment and Account together, with every redelivery, the books are sound, no open hold is clamped and no handler has thrown; no hypothesis on the verdicts is left |
| `Verdicts.SecondVerdictBreaksTheBooks` | apps/account-service/src/account/account.service.ts:170-199 | From any sound books with a held transfer: approving and then rejecting it leaves them sound exactly if it is of nothing, or has no fee, goes from an account to itself and is all that the account holds for; rejecting and then approving it, exactly if it is of nothing or is all that its source holds for |
| `Verdicts.RejectingTheApproved` | apps/account-service/src/account/account.service.ts:193-209 | Law by law for the first order: conservation survives exactly without a fee and with no amount or one account at both ends, the reserved-funds identity exactly if nothing else is held for on the source or the hold is nothing; no account is overdrawn |
| `Verdicts.ApprovingTheRejected` | apps/account-service/src/account/account.service.ts:164-187 | And for the second: conservation always survives, the reserved-funds identity under that same condition; no account is overdrawn |
| `Verdicts.OnlyVerdictsClose` | apps/account-service/src/account/account.service.ts:164-215 | Of all events only the two verdicts on a reservation can complete or release it |
| `Verdicts.StrandedForEver` | apps/payment-service/src/payment/payment.service.ts:56-70 | Once a verdict is stored and nobody is left to publish it, the funds of that transaction stay held in every continuation |
| `Verdicts.AHoldCanBeStranded` | apps/payment-service/src/payment/payment.service.ts:56-70 | A run, for any amount, that gets there: a crash between saving the payment and publishing it |
| `InternalSaga.FreeableIff` | apps/account-service/src/account/account.service.ts:104-136 | Over Transaction, Account and Payment together, Payment told only of announced reservations and approving only amounts in its limits: in every reachable state some continuation pays out or frees the held funds exactly if a verdict is published, stored by a living worker, or still open to an announced reservation |
| `InternalSaga.AnUnannouncedHoldIsStuck` | apps/account-service/src/account/account.service.ts:106-135 | A run, for any amount, after which held funds stay held for ever although Payment was never asked: Account died between reserving and announcing, and the redelivered request finds the reservation and says nothing |
| `InternalSaga.MovableIff` | apps/account-service/src/account/account.service.ts:98-136 | In every reachable state, a FAILED one included, the money of an internal transfer has moved or still can exactly if: it is held, and its approval is published, stored by a living worker, or open with an amount in the limits of Payment; or it is not held, the amount is in those limits, both accounts are active, and the request is on its way, or unmarked and made or still to be made |
| `InternalSaga.AFailedTransferCanMove` | apps/account-service/src/account/account.service.ts:98-136 | A run, for any amount that Payment can approve, in which a transfer FAILED in Transaction moves its money: refused for want of funds, delivered again, granted, approved and completed |
| `InternalSaga.AnUnverifiedTransferCanMove` | apps/transaction-service/src/transaction/presentation/consumers/transaction-events.consumer.ts:407-454 | And one in which it FAILED because the customer was no longer verified when the transfer was asked for again, its request to Account already made |
| `InternalSaga.NobodyIsReactivated` | apps/account-service/src/account/account.service.ts:219-224 | No event of the ledger makes an account active that was not |
| `InternalSaga.EndsAreTrue` | apps/account-service/src/account/account.service.ts:79-90 | In every run COMPLETED means that the money moved and COMPENSATED that the hold was released; FAILED means that Account announced a refusal or the customer was not verified |
| `InternalSaga.MoneyFollowsTheTransfer` | apps/account-service/src/account/account.service.ts:98-215 | In every run, on every account of the bank: a transfer that moved, and so every COMPLETED one, has taken amount and the fee of its account from the source and given the amount to the target; one that is held holds amount and fee on the source; any other shows on no balance and no hold |
| `InternalSaga.OneReservationApart` | apps/account-service/src/account/account.service.ts:98-215 | In sound books one reservation can be set apart: balance and hold of an account are what the other records make of them plus its own |
| `InternalSaga.NextKeeps` | apps/account-service/src/account/account.service.ts:79-215 | Every step of the three services, deliveries and crashes included, keeps record, announcements, verdicts and reservation in agreement |
| `InternalSaga.RequestingIsExact` | apps/account-service/src/account/account.service.ts:79-90 | The request comes again exactly while it is not marked, and each delivery is handled and marked at most once |
| `InternalSaga.FailedStays` | apps/transaction-service/src/transaction/application/services/update-transaction-state.service.ts:87-110 | No event moves a FAILED record |
| `Verdicts.NextKeeps` | apps/payment-service/src/payment/payment.service.ts:30-78 | Each step of either service keeps: published verdicts are the ones stored in unique rows, closed reservations obey them, books sound |
| `Verdicts.PaymentService.Handle` | apps/payment-service/src/payment/payment.service.ts:30-78 | A reserved transfer gets one stored verdict and one publication of it; a known event or transaction changes neither; what was published always equals what is stored, once per transaction |
| `AccountHandlers.AccountTables.Reserve` | apps/account-service/src/account/account.service.ts:98-136 | The table updates of the handler are the reservation step on which the ledger laws are proved, reply included |
| `AccountHandlers.AccountTables.Complete` | apps/account-service/src/account/account.service.ts:164-191 | As above for a completion, with both accounts locked in order, also when they are one and the same |
| `AccountHandlers.AccountTables.LockInOrder` | apps/account-service/src/account/account.service.ts:20-27 | Returns exactly those of the accounts asked for that exist, and the order of its look-ups, which is strictly ascending and covers exactly the ids asked for |
| `AccountHandlers.AccountTables.Release` | apps/account-service/src/account/account.service.ts:193-215 | The table updates of the handler are the release step of the ledger |
| `AccountHandlers.AccountTables.InterbankReserve` | apps/account-service/src/account/interbank.service.ts:66-115 | The table updates of the handler are the interbank reservation of the ledger, with the re-announcement of a known one |
| `AccountHandlers.AccountTables.Debit` | apps/account-service/src/account/interbank.service.ts:125-151 | The table updates of the handler are the debit of the ledger, the conflict branch included |
| `AccountHandlers.AccountTables.InterbankRelease` | apps/account-service/src/account/interbank.service.ts:153-175 | The table updates of the handler are the interbank release of the ledger |
| `AccountHandlers.AccountTables.Credit` | apps/account-service/src/account/interbank.service.ts:178-207 | The table updates of the handler are the deposit of the ledger, with its rejection reasons in order |
| `AccountHandlers.AccountTables.CancelDeposit` | apps/account-service/src/account/interbank.service.ts:224-240 | The table updates of the handler are the cancellation of the ledger, with the verdict it answers |
| `AccountHandlers.AccountTables.Reverse` | apps/account-service/src/account/interbank.service.ts:243-270 | The table updates of the handler are the reversal of the ledger, both failures included |
| `InterbankRules.BackoffGrows` | apps/payment-service/src/interbank/interbank.rules.ts:80-82 | Backoff delays never get shorter with the attempt number and never exceed the cap |
| `Outbound.AfterSendMoves` | apps/payment-service/src/interbank/interbank.service.ts:389-420 | However stale the copy it was computed from, handling a reply to the POST only moves the row up in rank, leaves a final state and its reason as they are, changes the outbox mark only with the state, and then sets it (except for a refund) |
| `Outbound.ResolveTimeoutMoves` | apps/payment-service/src/interbank/interbank.service.ts:457-492 | The same for any answer to a query or a cancellation, and for a release after the margin |
| `Outbound.ExpireMoves` | apps/payment-service/src/interbank/interbank.service.ts:438-447 | The same for expiry |
| `Outbound.CallbackMoves` | apps/payment-service/src/interbank/interbank.service.ts:423-435 | The same for a callback |
| `OutboundEffects.PendingFollowsTheReply` | apps/payment-service/src/interbank/interbank.service.ts:389-420 | A PENDING row follows the reply to its POST: ACCEPTED exactly if it says credited, REJECTED exactly if it refuses or the partner is not configured, each with its reason, still PENDING with a longer wait exactly if the partner was not reached, SENT otherwise |
| `OutboundEffects.MovedOnRowsFollowTheBody` | apps/payment-service/src/interbank/interbank.service.ts:407-413 | A row past PENDING is moved only while SENT, and exactly by a 200 that says how the deposit ended |
| `OutboundEffects.ExactlyTheExpiredTimeOut` | apps/payment-service/src/interbank/interbank.service.ts:438-447 | Exactly the PENDING and SENT rows past expiresAt time out, to be queried at once from the first attempt |
| `OutboundEffects.TimedOutFollowsTheAnswer` | apps/payment-service/src/interbank/interbank.service.ts:468-491 | Before the margin a row in TIMEOUT becomes ACCEPTED exactly if the answer says credited and REVERSED on confirmation exactly if it says refused; otherwise it stays, and goes on to the cancellation exactly if the deposit was unknown or undecided or the queries are used up, and else counts the attempt and waits |
| `OutboundEffects.PastTheMarginItIsReleased` | apps/payment-service/src/interbank/interbank.service.ts:459-467 | From expiresAt plus the margin on it is released with TIMEOUT_NO_RESPONSE |
| `OutboundEffects.OthersKeepTheirState` | apps/payment-service/src/interbank/interbank.service.ts:457-492 | A row no longer in TIMEOUT keeps state and reason |
| `OutboundEffects.CallbackIsFollowed` | apps/payment-service/src/interbank/interbank.service.ts:210-213 | A callback settles every unfinished row exactly as it says, with its reason, and no finished one |
| `OutboundEffects.CallbackDecisionIsExact` | apps/payment-service/src/interbank/interbank.rules.ts:87-92 | When a callback is applied, ignored, a conflict, or late |
| `OutboundEffects.NewRowsHaveThreeMinutes` | apps/payment-service/src/interbank/interbank.service.ts:314-324 | A new row expires in 180 seconds and has nothing sent or pending |
| `OutboundEffects.BackoffDoubles` | apps/payment-service/src/interbank/interbank.rules.ts:79-82 | The delay starts at the base and doubles with every attempt up to the cap |
| `PaymentTransfers.TransferTable.Transition` | apps/payment-service/src/interbank/interbank.service.ts:680-683 | The conditional update succeeds exactly when the row is in one of the expected states; otherwise nothing changes |
| `PaymentTransfers.TransferTable.FinalizeOut` | apps/payment-service/src/interbank/interbank.service.ts:423-435 | Finalizing succeeds exactly from the expected states and leaves the finalized row with its event pending |
| `PaymentTransfers.TransferTable.AfterSend` | apps/payment-service/src/interbank/interbank.service.ts:389-420 | The handler updates the row as the step on which the protocol is proved, for any stale copy; it reports a retry exactly if the partner was not reached, and a sending exactly for 200, 202 and 409 |
| `PaymentTransfers.TransferTable.ResolveTimeout` | apps/payment-service/src/interbank/interbank.service.ts:457-492 | The timeout handler updates the row as the step on which the protocol is proved, its unconditional updates included |
| `PaymentTransfers.TransferTable.CreateReversalRequest` | apps/payment-service/src/interbank/interbank.service.ts:525-532 | Every stored request asks the partner of its transfer for the amount of its transfer; asking again changes nothing |
| `PaymentTransfers.TransferTable.ReceiveResult` | apps/payment-service/src/interbank/interbank.service.ts:179-217 | Whatever others do to the row between each read and its update, a callback answered 200 leaves the row final; an ACCEPTED one leaves it ACCEPTED, or a reversal requested of the caller for the amount of the transfer, and no callback requests one otherwise; undisturbed it applies the verdict; an unknown id or a foreign caller changes nothing |
| `PaymentTransfers.TransferTable.FlushRow` | apps/payment-service/src/interbank/interbank.service.ts:649-662 | Whatever others do to the row while its event is published, the event of its current state is pending or published afterwards, and only a state that was published, or has no event, is cleared; nothing changes while the broker is down |
| `PaymentTransfers.TransferTable.Claim` | apps/payment-service/src/interbank/interbank.service.ts:686-690 | A row is held for 30 seconds exactly if nobody holds it |
| `DepositSafety.TwoBankAgreement` | apps/payment-service/src/interbank/interbank.service.ts:389-492 | In every run: an ACCEPTED row was credited by the partner; one REVERSED with reason TIMEOUT is never credited in any continuation; a REJECTED one was credited exactly if it was PENDING when it took an error status from a partner that had already credited another copy, and otherwise never is; any other REVERSED row is at or after expiresAt plus the margin |
| `DepositSafety.OutboxNeverLoses` | apps/payment-service/src/interbank/interbank.service.ts:622-662 | In every run, with flushes split into read, publish and clear and failing anywhere: a non-refund row past PENDING has its event pending, or the event of its current state has been published |
| `DepositSafety.DebitXorRelease` | apps/account-service/src/account/interbank.service.ts:125-175 | In every run: DEBITED only with an ACCEPTED row, RELEASED only with a REJECTED or REVERSED one, a settled operation stays as it is in every continuation, the `debit_conflict` branch is never taken, and completion and release are never both announced |
| `DepositSafety.SettledWithThePartner` | apps/payment-service/src/interbank/interbank.service.ts:389-492 | End to end: a debited customer means a crediting partner; a released one means a partner that never credits, unless the row was misled as above or the release was for want of an answer after the margin |
| `DepositSafety.NoSilentDisagreement` | apps/payment-service/src/interbank/interbank.service.ts:179-217 | In every run: once an ACCEPTED callback was answered 200, the row is ACCEPTED or a reversal has been requested; and the three tries never run out |
| `DepositSafety.AnsweredCallbacksEndTheDeposit` | apps/payment-service/src/interbank/interbank.service.ts:190-215 | In every run a callback is only answered 200 once the row is final |
| `DepositSafety.ReversalsAreAskedWithReason` | apps/payment-service/src/interbank/interbank.service.ts:195-209 | In every run a reversal is only asked for when the deposit was rejected or reversed here and credited there |
| `DepositSafety.AnnouncedIffEmitted` | apps/account-service/src/account/interbank.service.ts:125-175 | Of every settled run some step made the settlement, and the settlement is announced exactly if that step published before it could die |
| `DepositSafety.SettlingDecides` | apps/account-service/src/account/interbank.service.ts:125-175 | The step that settles, wherever it is in the run, decides for good: a debit or a release, announced or not |
| `DepositSafety.WithoutCrashesAllIsAnnounced` | apps/account-service/src/account/interbank.service.ts:142-174 | In a run in which no debit or release dies between commit and publication, every settlement is announced |
| `DepositSafety.LostAnnouncementStaysLost` | apps/account-service/src/account/interbank.service.ts:125-175 | Once an operation is settled, whether its settlement is announced never changes again in any continuation |
| `DepositSafety.AnAnnouncementCanBeLost` | apps/account-service/src/account/interbank.service.ts:142-150 | A run in which the customer is debited and the partner has credited, but the completion was never announced |
| `DepositLiveness.HeldFundsCanBeSettled` | apps/payment-service/src/interbank/interbank.service.ts:438-492 | From every reachable state in which the customer has funds held for a deposit, however silent the partner, some continuation settles them and announces it |
| `DepositSafety.NextKeeps` | apps/payment-service/src/interbank/interbank.service.ts:298-492 | Every step of sender, Account, network or partner keeps the whole invariant of an outbound deposit |
| `DepositSafety.RunIsOnward` | apps/payment-service/src/interbank/interbank.service.ts:680-683 | Along every run, from any state: rows climb in rank, final states and settled operations stay, credits and refusals stay, announcements are not taken back |
| `DepositSafety.MovingTheRow` | apps/payment-service/src/interbank/interbank.service.ts:649-683 | Any update that climbs keeps the outbox and the Account operation consistent with the row, whatever flushers are under way |
| `DepositSafety.AfterSendIsBacked` | apps/payment-service/src/interbank/interbank.service.ts:389-420 | A final state taken from a reply to the POST is backed by what the partner committed to |
| `DepositSafety.ResolveTimeoutIsBacked` | apps/payment-service/src/interbank/interbank.service.ts:457-492 | A final state taken from a query, a cancellation or the margin is backed by the partner or by the clock |
| `DepositSafety.FlushStepKeeps` | apps/payment-service/src/interbank/interbank.service.ts:649-662 | Each micro-step of a flush, interleaved with transitions and other flushes, keeps the outbox invariant |
| `DepositSafety.CallbackApplies` | apps/payment-service/src/interbank/interbank.service.ts:190-214 | The conditional update of a callback keeps the invariant, also when the row became final since it was read |
| `DepositSafety.CallbackStepKeeps` | apps/payment-service/src/interbank/interbank.service.ts:190-214 | Every other micro-step of a callback handler keeps the invariant, so a second failed try is impossible |
| `DepositSafety.AccountStepKeeps` | apps/account-service/src/account/interbank.service.ts:125-175 | Reserving, debiting and releasing, repeated at will, keep the operation in step with what Payment has published |
| `DepositLedger.ReservationMovesTheOperation` | apps/account-service/src/account/interbank.service.ts:66-115 | The ledger reservation moves the operation as the outbound deposit assumes, and announces reserved or rejected exactly by its status |
| `DepositLedger.SettlementMovesTheOperation` | apps/account-service/src/account/interbank.service.ts:125-175 | The ledger debit and release move the operation as the outbound deposit assumes, announce a settlement exactly when they make it, and report a conflict exactly when the deposit model does |
| `DepositLedger.OtherEventsLeaveTheOperation` | apps/account-service/src/account/interbank.service.ts:37-64 | No other ledger event, internal ones included, changes the status of an outgoing operation |
| `DepositLedger.CreditMovesTheOperation` | apps/account-service/src/account/interbank.service.ts:178-222 | The ledger deposit moves the operation as the receiver model assumes and announces credited or rejected accordingly |
| `DepositLedger.CancelMovesTheOperation` | apps/account-service/src/account/interbank.service.ts:224-240 | The ledger cancellation moves the operation and answers as the receiver model assumes |
| `DepositLedger.OtherEventsKeepTheDeposit` | apps/account-service/src/account/interbank.service.ts:37-64 | No other ledger event changes an incoming operation, except a reversal that refunds a credited one |
| `DepositMoney.MoneyFollowsTheCredit` | apps/account-service/src/account/interbank.service.ts:66-175 | With the books of a whole bank, whatever else they serve: once a deposit is settled, the balance of its account is its opening value plus what all other records explain, less amount and fee exactly if the partner has credited it, and nothing of it is held; and the credit is the same in every continuation. A release after the margin, or on an untrue refusal, leaves the customer the whole amount |
| `DepositMoney.HeldMoneyCanBeSettled` | apps/payment-service/src/interbank/interbank.service.ts:438-492 | From every reachable state of books and deposit with funds held, some continuation debits or releases them in the books and announces it |
| `DepositMoney.RunIsShadowed` | apps/account-service/src/account/interbank.service.ts:37-64 | Every joint run of Account books, Payment verdicts and deposit is, of the deposit, a run of the outbound deposit |
| `DepositMoney.RunKeeps` | apps/account-service/src/account/interbank.service.ts:66-175 | Every joint run keeps the books sound, the deposit safe, and the operation in the books the one of the deposit, recording the amount asked and the fee of its account |
| `DepositMoney.OneRecordApart` | apps/account-service/src/account/interbank.service.ts:66-270 | In sound books any one operation can be set apart: balance and hold of an account are what the others make of them plus its own |
| `ReceiptMoney.MoneyFollowsTheOperation` | apps/account-service/src/account/interbank.service.ts:178-270 | In every state of the receiving bank each account has its opening value plus what all other records explain, plus the amount of the deposit exactly if it is its destination and the deposit is credited and not refunded |
| `ReceiptMoney.NextKeeps` | apps/account-service/src/account/interbank.service.ts:178-270 | Every step of the receiving bank with its books is a step of the receiver model and keeps the operation in the books the one of that model |
| `TwoBooks.MoneyArrivesIffItLeaves` | apps/payment-service/src/interbank/interbank.service.ts:389-492 | Two banks running this software, with all their books: of a settled deposit, either amount and fee are gone from the customer and the amount was credited at the other bank, from which only a reversal takes it back, or neither account shows anything of it; unless released after the margin or on an untrue refusal, which leaves the customer whole |
| `TwoBooks.RunIsShadowed` | apps/payment-service/src/interbank/interbank.service.ts:389-492 | Every run of the two banks is, for the sender, a run with some lawful partner, and keeps the receiving bank sound |
| `ReversalMoney.ReversalReturnsTheMoney` | apps/payment-service/src/interbank/interbank.service.ts:347-367 | A reversal between two banks running this software, with all their books: if the refund is credited here, or ACCEPTED there, exactly its amount was taken back there under that reversal and nothing of the deposit is left on its account; the refund is REJECTED there and credited here exactly if that bank was misled; and each account here has the amount exactly if it is its destination and the refund is credited and not itself reversed |
| `ReversalMoney.NextKeeps` | apps/payment-service/src/interbank/interbank.service.ts:347-367 | Every step of the two banks, the reversal, its refund and its receipt keeps both books sound and the message the stored refund |
| `DepositSaga.EventsFormAHistory` | apps/payment-service/src/interbank/interbank.service.ts:629-647 | In every run, all events published about a deposit belong to the one history of its final row, or funds were never reserved |
| `DepositSaga.SagaEndsWithTheMoney` | apps/transaction-service/src/transaction/presentation/consumers/transaction-events.consumer.ts:311-371 | Deliver the events of any run in any order, any number of times, the settlement among them: the saga is COMPLETED exactly if the customer was debited and publicly FAILED exactly if the funds were released |
| `Receiver.RowIsTruthful` | apps/payment-service/src/interbank/interbank.service.ts:118-161 | For every interleaving of deposits, results and cancellations: row ACCEPTED means Account credited, REJECTED or CANCELLED means it never credits in any continuation, a PROCESSING row has its request pending or published, no cancellation is answered from a PROCESSING row, and the credited-after-cancel branch is never taken |
| `Receiver.EveryResultIsCalledBack` | apps/payment-service/src/interbank/interbank.service.ts:495-522 | In every run a row is ACCEPTED or REJECTED exactly if its callback is due, delivered, or given up, the last only after 24 hours |
| `ReceiverLiveness.ProcessingCanBeDecided` | apps/payment-service/src/interbank/interbank.service.ts:329-345 | From every reachable state with the deposit PROCESSING, some continuation makes the row say what Account decided, with its callback due |
| `ReceiverLiveness.CancellationsAnswer` | apps/payment-service/src/interbank/interbank.service.ts:118-161 | From every reachable state, a cancellation that nothing disturbs comes to a 200 read off a decided row |
| `Receiver.ClearingIsExact` | apps/payment-service/src/interbank/interbank.service.ts:649-662 | A flusher clears the mark exactly if the row is still the one it announced |
| `Receiver.PostingIsExact` | apps/payment-service/src/interbank/interbank.service.ts:62-82 | A POST looks up at any time, is admitted exactly before expiresAt, and inserts a PROCESSING row with its mark set exactly if no other did |
| `Receiver.NextKeepsCallback` | apps/payment-service/src/interbank/interbank.service.ts:329-345 | Every step of the receiver keeps that |
| `Receiver.NextKeeps` | apps/payment-service/src/interbank/interbank.service.ts:51-161 | Every micro-step of the receiving handlers, flushers and Account keeps row, operation, events and handlers in agreement |
| `Receiver.NextIsLawful` | apps/payment-service/src/interbank/interbank.service.ts:51-161 | Every such step, with the reply or callback it sends, is a lawful move of a partner bank, the 422 of a late look-up included |
| `Receiver.OnlyALateLookUpMisleads` | apps/payment-service/src/interbank/interbank.service.ts:62-66 | In every agreeing state, a reply is untrue exactly if it is the 422 of a POST handler that found no row, checks the time after expiresAt, and whose deposit was credited in between |
| `Receiver.LateRefusalIsTrueIff` | apps/payment-service/src/interbank/interbank.service.ts:62-66 | From expiresAt on the 422 is true exactly if the deposit was not credited, for which it is enough that its row is still absent at the check |
| `Receiver.ALateLookUpCanMislead` | apps/payment-service/src/interbank/interbank.service.ts:62-66 | A run that gets there with two copies of one deposit |
| `Receiver.CancelStepKeeps` | apps/payment-service/src/interbank/interbank.service.ts:118-161 | Each database or HTTP step of a cancellation handler keeps the agreement while others run |
| `Receiver.CancelEffectGrows` | apps/payment-service/src/interbank/interbank.service.ts:118-161 | A cancellation step never changes a resolved row or a decided operation, and leaves its handler with knowledge that stays true |
| `Receiver.CancelStepIsLawful` | apps/payment-service/src/interbank/interbank.service.ts:118-161 | What a cancellation answers is true of Account now and later |
| `Receiver.OtherStepKeepsRecords` | apps/payment-service/src/interbank/interbank.service.ts:329-345 | Deposits, flushes, credits, results and reversals change resolved rows and decided operations only from credited to refunded |
| `PaymentDeposits.DepositTable.ReceiveTransfer` | apps/payment-service/src/interbank/interbank.service.ts:51-95 | Over any body, and whatever row another handler inserts between look-up and insert: what fails a check leaves no trace, with 401 or 400 as it fails; a new deposit in time is stored PROCESSING with its fingerprint and answered 202, an expired one 422; of a row found or beaten by, another bank gets 409, and the same bank gets 409 exactly if some field differs from the request the row was made from, else the state of the row |
| `PaymentDeposits.DepositTable.Repeated` | apps/payment-service/src/interbank/interbank.service.ts:90-103 | The same for any row: a conflict exactly for another bank or a request that differs, the state of the row otherwise, also when it is known only by its cancellation |
| `PaymentDeposits.DepositTable.FlushRow` | apps/payment-service/src/interbank/interbank.service.ts:629-662 | Account is asked for exactly a PROCESSING deposit with its mark set, and the mark is cleared exactly if the state is still the one read; afterwards a PROCESSING row has it set or the request published |
| `PaymentDeposits.DepositTable.GetTransfer` | apps/payment-service/src/interbank/interbank.service.ts:106-115 | Exactly who is told the state of a row |
| `PaymentDeposits.DepositTable.CancelTransfer` | apps/payment-service/src/interbank/interbank.service.ts:118-161 | A 200 tells how the row ended: an unknown deposit is stored CANCELLED; a PROCESSING row takes exactly the verdict of Account, with its callback due unless cancelled and all else as it was, and stays as it is, answered 503, when Account is silent; a final one never changes; another bank gets 401 |
| `PaymentDeposits.DepositTable.OnDepositResult` | apps/payment-service/src/interbank/interbank.service.ts:329-345 | Exactly a PROCESSING row takes the result, with its callback due and partner and fingerprint as they were; the incident is reported exactly for a credit of a CANCELLED row |
| `PaymentDeposits.DepositTable.Resolve` | apps/payment-service/src/interbank/interbank.service.ts:680-683 | The conditional update from PROCESSING: the state, and the callback due with an acceptance or a rejection and untouched by a cancellation |
| `MockBank.Bank.Receive` | apps/interbank-mock/src/bank.ts:84-113 | The handler does to the table, and answers, what the lawful mock does |
| `MockBank.Bank.CancelDeposit` | apps/interbank-mock/src/bank.ts:120-134 | The same for a cancellation |
| `MockBank.Bank.Decide` | apps/interbank-mock/src/bank.ts:221-232 | The same for the scheduled decision, which a cancellation in between overrides |
| `MockBank.NextKeeps` | apps/interbank-mock/src/bank.ts:84-134 | The entry of a deposit stays about that very request, whatever else the bank is sent and however its mode changes |
| `MockBank.NextIsLawful` | apps/interbank-mock/src/bank.ts:84-134 | Every step of the mock, with its answer or callback, is a lawful move of a partner bank |
| `MockBank.NextIsHonest` | apps/interbank-mock/src/bank.ts:84-134 | And every answer of the mock is true, its refusals included |
| `MockBank.PostIsExact` | apps/interbank-mock/src/bank.ts:84-113 | Exactly which POST is refused, a conflict, repeated, barred or new, and what is stored |
| `MockBank.StatusIsExact` | apps/interbank-mock/src/bank.ts:115-118 | A status query tells the state of the entry, or that there is none |
| `MockBank.CancellationIsExact` | apps/interbank-mock/src/bank.ts:120-134 | An unknown deposit is barred, an undecided one cancelled, a decided one told as it is |
| `MockBank.DecisionIsExact` | apps/interbank-mock/src/bank.ts:221-232 | An undecided deposit is accepted exactly if it is in time, in limits, in quetzals and not to be rejected, and its callback is due |
| `MockBank.CallbackIsExact` | apps/interbank-mock/src/bank.ts:235-240 | A callback says ACCEPTED exactly of an accepted deposit and REJECTED of every other, cancelled ones included |
| `TwoBanks.RunIsShadowed` | apps/payment-service/src/interbank/interbank.service.ts:389-492 | Every joint run with any bank whose steps are lawful is a run of the outbound deposit |
| `TwoBanks.BanksAgree` | apps/payment-service/src/interbank/interbank.service.ts:389-492 | With any lawful bank, at every moment: ACCEPTED here means credited there; REJECTED means credited there exactly if the sender was misled, and otherwise never; REVERSED on confirmation means never credited; otherwise the margin has passed; DEBITED goes with ACCEPTED, RELEASED with the other two; and an acknowledged ACCEPTED callback means ACCEPTED or a reversal requested |
| `TwoBanks.OurReceiverIsLawful` | apps/payment-service/src/interbank/interbank.service.ts:51-161 | The receiving half of Payment and Account, split into look-up, check, insert and re-read, is a lawful partner |
| `TwoBanks.OurRepliesAreUnderstood` | apps/payment-service/src/interbank/interbank.service.ts:97-161 | The sender understands every reply of this receiver as what its row says: credited exactly if ACCEPTED, refused exactly if REJECTED or CANCELLED, a status that calls for a cancellation exactly if undecided or unknown |
| `TwoBanks.OurCallbacksTellTheResult` | apps/payment-service/src/interbank/interbank.service.ts:502-507 | A callback says ACCEPTED or REJECTED exactly as the row does |
| `TwoBanks.TheMockIsLawful` | apps/interbank-mock/src/bank.ts:84-134 | The mock is a lawful partner for every deposit |
| `TwoBanks.TwinsAgree` | apps/payment-service/src/interbank/interbank.service.ts:389-492 | All of this for two banks that both run this software, in every joint run and continuation: a deposit REJECTED here and credited there is exactly one that was misled |
| `TwoBanks.TwinsCanDisagree` | apps/payment-service/src/interbank/interbank.service.ts:62-66 | A run of two such banks that ends with the funds released here and the deposit credited there |
| `TwoBanks.DisagreementMeansALateCheck` | apps/payment-service/src/interbank/interbank.service.ts:62-66 | In any run in which a deposit is REJECTED here and credited there, some step is the check of a handler that found no row, made at or after expiresAt with the deposit already credited |
| `TwoBanks.TwinsAreMisledByALateCheck` | apps/payment-service/src/interbank/interbank.service.ts:62-66 | From any state in which no untrue reply is about, a run misleads the sender only through such a check |
| `TwoBanks.HonestBanksMisleadNobody` | apps/payment-service/src/interbank/interbank.service.ts:414-420 | A lawful bank whose refusals are all true never misleads the sender, in any joint run |
| `TwoBanks.MockAgrees` | apps/interbank-mock/src/bank.ts:84-134 | All of this for this software and the mock, which never misleads the sender |
| `Refunds.AtMostOneRefund` | apps/payment-service/src/interbank/interbank.service.ts:347-367 | Whatever reversal ids are used and however events repeat, two refunds of one deposit are the same refund |
| `Refunds.RefundsAreDebited` | apps/payment-service/src/interbank/interbank.service.ts:347-367 | A refund exists only if Account moved that deposit from credited to refunded under the same reversal id, for the same amount |
| `Refunds.RefundableIff` | apps/payment-service/src/interbank/interbank.service.ts:347-370 | In every reachable state in which Account has taken a deposit back under a reversal, announced or not, a refund exists in some continuation exactly if there is one already, the reversal is still PROCESSING, or a handler that saw it so is about to insert |
| `Refunds.RefundingCompletes` | apps/payment-service/src/interbank/interbank.service.ts:356-364 | A handler of a debit that nothing disturbs stores the refund with the amount of the deposit and completes the reversal |
| `Refunds.ADebitCanGoUnrefunded` | apps/account-service/src/account/interbank.service.ts:243-270 | A run to a state where Account has debited the customer and no refund can follow: the reversal failed while all funds were held and was given up, the hold was released, and the redelivered request was granted |
| `Refunds.NextKeeps` | apps/payment-service/src/interbank/interbank.service.ts:220-250 | Every step of Payment and Account on deposits and reversals, with the handler of a debit split into read, insert and update, keeps refunds, debits and books in agreement |
| `Refunds.IncomingOpMoves` | apps/account-service/src/account/interbank.service.ts:243-270 | A credited operation is either untouched, newly created by its own deposit, or refunded by a reversal of it, by any event on any books |
| `Refunds.RefundedStays` | apps/account-service/src/account/interbank.service.ts:243-270 | A refunded operation stays refunded under the same reversal, whatever event follows |
| `Refunds.DebitedMeansRefunded` | apps/account-service/src/account/interbank.service.ts:243-270 | A debit is announced only for an operation that is refunded under that very reversal, for that amount |
| `PaymentReversals.ReversalTable.RequestReversal` | apps/payment-service/src/interbank/interbank.service.ts:220-250 | Exactly which request is malformed, a repetition, a conflict, about no accepted deposit of that bank, or of a wrong amount; a new one is stored for the bank and amount of its deposit and Account is asked |
| `PaymentReversals.ReversalTable.OnReversalDebited` | apps/payment-service/src/interbank/interbank.service.ts:347-367 | Exactly a PROCESSING reversal is completed, with one refund to the bank and account that the deposit came from, of its whole amount |
| `PaymentReversals.ReversalTable.OnReversalFailed` | apps/payment-service/src/interbank/interbank.service.ts:369-373 | Exactly a PROCESSING reversal fails, with the reason |
| `PaymentReversals.ReversalTable.FlushReversal` | apps/payment-service/src/interbank/interbank.service.ts:664-676 | Account is asked exactly while the reversal is PROCESSING and its request pending |
| `TimeoutWorker.Worker.Find` | apps/payment-service/src/interbank/interbank.service.ts:439-452 | A limited query returns as many matching rows as the limit allows, and only those |
| `TimeoutWorker.Worker.SendPending` | apps/payment-service/src/interbank/interbank.service.ts:614-619 | Up to 20 due rows are claimed and sent, the others left alone |
| `TimeoutWorker.Worker.ExpireOutbound` | apps/payment-service/src/interbank/interbank.service.ts:438-447 | Up to 50 expired rows go to TIMEOUT, the others left alone |
| `TimeoutWorker.Worker.ResolveOne` | apps/payment-service/src/interbank/interbank.service.ts:457-492 | The claim on a row never outlives the update that its answer causes |
| `TimeoutWorker.Worker.ProcessTimeouts` | apps/payment-service/src/interbank/interbank.service.ts:449-455 | Up to 100 unlocked rows in TIMEOUT are looked at, and those due are resolved |
| `TimeoutWorker.Worker.Tick` | apps/payment-service/src/interbank/interbank.service.ts:598-612 | A tick is one sending, one expiring and one resolving batch, each seeing the result of the one before |
| `TimeoutWorker.WaitingRowsAreSent` | apps/payment-service/src/interbank/interbank.service.ts:614-619 | A row is sent exactly if it is PENDING, its next attempt has come and nobody holds it, as long as there are at most 20 such rows; no other row changes |
| `TimeoutWorker.LateRowsTimeOut` | apps/payment-service/src/interbank/interbank.service.ts:438-447 | A row times out exactly if it waits past expiresAt, as long as there are at most 50; no other row changes |
| `TimeoutWorker.DueRowsAreResolved` | apps/payment-service/src/interbank/interbank.service.ts:449-455 | A row in TIMEOUT is resolved exactly if nobody holds it and its next attempt or its margin has come, as long as at most 100 are free; no other row changes |
| `TimeoutBounds.TickCloses` | apps/payment-service/src/interbank/interbank.service.ts:438-455 | When every open row is past expiresAt and the margin, one tick makes fifty of them final, or all, whatever partners answer |
| `TimeoutBounds.DrainsByFifty` | apps/payment-service/src/interbank/interbank.service.ts:438-455 | n such ticks make 50n rows final, or all |
| `TimeoutBounds.DrainTerminates` | apps/payment-service/src/interbank/interbank.service.ts:438-455 | N overdue rows are all final after N/50 ticks, rounded up |
| `TimeoutBounds.ProbesAreBounded` | apps/payment-service/src/interbank/interbank.service.ts:457-492 | Against a silent partner one timed-out row costs at most max(1, query attempts) queries and, for a margin of M seconds, fewer than 4 + M/30 cancellations, and never queries again once it cancels |
| `TimeoutBounds.PassKeeps` | apps/payment-service/src/interbank/interbank.service.ts:457-492 | Each pass keeps attempts, requests sent and the waiting time in step, and never goes from CANCEL back to QUERY |
| `TimeoutBounds.WaitedGrows` | apps/payment-service/src/interbank/interbank.rules.ts:80-82 | k further cancellations take at least 30k - 90 seconds |
| `TimeoutBounds.NoMoreQueries` | apps/payment-service/src/interbank/interbank.service.ts:470-491 | A row past its query step is never queried again |
| `TimeoutBounds.MarginReleases` | apps/payment-service/src/interbank/interbank.service.ts:459-467 | A pass over a timed-out row with a silent partner releases it with TIMEOUT_NO_RESPONSE exactly when the margin has passed, and then without a request |
| `Saga.Transaction.MarkAs` | apps/transaction-service/src/transaction/domain/entities/transaction.entity.ts:73-115 | Each markAs method throws exactly from the statuses it does not allow, and then changes nothing |
| `Saga.Transaction.AdvanceInterbank` | apps/transaction-service/src/transaction/domain/entities/transaction.entity.ts:123-160 | The entity advances as the step on which confluence is proved, and reports a change exactly when the interbank state changed |
| `Saga.Transaction.SettleInterbank` | apps/transaction-service/src/transaction/domain/entities/transaction.entity.ts:167-190 | The entity settles as the step on which confluence is proved, and reports a change exactly when the saga had not ended |
| `Saga.TellKeeps` | apps/transaction-service/src/transaction/domain/entities/transaction.entity.ts:123-190 | No interbank event throws, lowers a stage, leaves a final interbank state, or changes anything once the saga has ended; its end is announced once |
| `Saga.NothingThrowsOrGoesBack` | apps/transaction-service/src/transaction/domain/entities/transaction.entity.ts:123-190 | The same for any sequence of events, contradictory ones included, and at most one end is announced |
| `Saga.Confluence` | apps/transaction-service/src/transaction/presentation/consumers/transaction-events.consumer.ts:311-371 | Any order and repetition of a history that includes its settlement: accepted ends (COMPLETED, ACCEPTED), reversed (COMPENSATED, REVERSED), rejected publicly FAILED |
| `Saga.StaysOnCourse` | apps/transaction-service/src/transaction/presentation/consumers/transaction-events.consumer.ts:311-371 | Events of one history never lead off its course, and its settlement, wherever it comes, ends the saga |
| `Saga.RejectedEndsFailedIff` | apps/transaction-service/src/transaction/domain/entities/transaction.entity.ts:145-151 | A rejected deposit ends FAILED instead of COMPENSATED exactly when the rejection is the first event delivered |
| `Saga.ThrowsOnlyWhenEarly` | apps/transaction-service/src/transaction/application/services/update-transaction-state.service.ts:22-159 | For internal transfers: exactly which event throws in which status, namely those that came before their predecessor; stages never go down |
| `Saga.MarkIsExact` | apps/transaction-service/src/transaction/application/services/update-transaction-state.service.ts:39-159 | A call that is timely does what it says, reason included, and one that is late changes nothing |
| `Saga.AdvanceIsExact` | apps/transaction-service/src/transaction/domain/entities/transaction.entity.ts:123-160 | The interbank state advances exactly from a lower stage that is not final; what becomes of status and reason then |
| `Saga.SettlementIsExact` | apps/transaction-service/src/transaction/domain/entities/transaction.entity.ts:167-190 | A settlement ends exactly the saga that has not ended, and fills in the interbank state it implies |
| `Saga.InterbankIsTheFurthest` | apps/transaction-service/src/transaction/domain/entities/transaction.entity.ts:123-190 | Whatever events arrive in whatever order, the interbank stage is that of the furthest one, and the first event ends PENDING |
| `Saga.PublicStatusIsExact` | apps/transaction-service/src/transaction/domain/enums/public-transaction-status.enum.ts:8-44 | Customers see APPROVED exactly of a completed saga and FAILED exactly of a failed or compensated one |
| `Saga.InternalEndsIffInTurn` | apps/transaction-service/src/transaction/application/services/update-transaction-state.service.ts:39-159 | An internal transfer ends COMPLETED, COMPENSATED or FAILED exactly when deliveries of its steps occur in their order somewhere in the sequence, however many early, late and repeated ones surround them |
| `Saga.InTurnIsGreedy` | apps/transaction-service/src/transaction/application/services/update-transaction-state.service.ts:22-27 | Letting the first delivery of the next step act never spoils an order that a later one would have given |
| `Saga.OneDelivery` | apps/transaction-service/src/transaction/application/services/update-transaction-state.service.ts:39-159 | Of the events of one outcome only the one for the next step moves the record; stale ones are ignored, early ones throw |
| `LockOrder.HandlersAscend` | apps/account-service/src/account/account.service.ts:92-97 | Every ledger transaction takes its reservation or operation row first, then accounts in strictly ascending id, then inserts |
| `LockCover.WritesAreLocked` | apps/account-service/src/account/account.service.ts:92-97 | Every account, reservation and operation that an event of the ledger writes or inserts is among the locks of its transaction |
| `LockOrder.SortUnique` | apps/account-service/src/account/account.service.ts:20-27 | The lock order is strictly ascending and covers exactly the accounts asked for |
| `LockOrder.RunKeeps` | apps/account-service/src/account/account.service.ts:169-200 | In every schedule no row is held twice |
| `LockOrder.WaitingClimbs` | apps/account-service/src/account/account.service.ts:18-27 | Along any chain of transactions that wait for each other, the rows waited for only go up the order |
| `LockOrder.NoWaitCycle` | apps/account-service/src/account/account.service.ts:18-27 | Any number of concurrent ledger transactions, in any schedule, never wait in a circle |
| `LockOrder.SomeoneCanStep` | apps/account-service/src/account/interbank.service.ts:74-77 | As long as some transaction is unfinished, some transaction can take a step |
| `LockOrder.EveryoneCanCommit` | apps/account-service/src/account/interbank.service.ts:128-136 | From every reachable state some schedule lets all transactions commit |
| `RetryCascade.Broker.Subscribe` | apps/account-service/src/account/rabbit.service.ts:40-52 | Binding adds the service to exactly the keys asked for, once |
| `RetryCascade.Broker.Publish` | apps/account-service/src/account/rabbit.service.ts:29-38 | A publication puts one copy in the queue of every bound service |
| `RetryCascade.Broker.Consume` | apps/account-service/src/account/rabbit.service.ts:53-78 | A delivery is the step that the cascade bound weighs: acknowledged, retried for all bound services, or dead-lettered for all |
| `RetryCascade.FailureIsExact` | apps/account-service/src/account/rabbit.service.ts:65-78 | A failure leaves every service one copy: waiting and counted once more exactly while the limit of the failing service allows, dead otherwise |
| `RetryCascade.Broker.Expire` | apps/account-service/src/account/rabbit.service.ts:45-47 | A time-out of a retry queue puts a copy in front of every bound service |
| `RetryCascade.CascadeIsBounded` | apps/transaction-service/src/transaction/infrastructure/messaging/rabbitmq.service.ts:332-420 | One publication to k services causes at most k times the sum of k^(2c), c from 0 to the largest retry limit, deliveries, and at most k time-outs for each |
| `RetryCascade.CascadeReachesItsBound` | apps/payment-service/src/payment/rabbit.service.ts:57-66 | Every all-failing run to the end makes exactly that many deliveries, if all services have the same limit |
| `RetryCascade.Exhaust` | apps/account-service/src/account/rabbit.service.ts:65-78 | From every state some all-failing run goes to the end, where only dead letters are left |
| `RetryCascade.WorstCase` | apps/account-service/src/account/rabbit.service.ts:65-78 | So a run that makes all the deliveries of the bound exists |
| `RetryCascade.NaiveLimitIff` | apps/transaction-service/src/transaction/infrastructure/messaging/rabbitmq.service.ts:332-420 | For k services with one limit, every run makes at most k times (limit + 1) deliveries exactly if k is at most one or the limit is 0 |
| `RetryCascade.NextNeverOutgrows` | apps/account-service/src/account/rabbit.service.ts:65-78 | Deliveries made plus the weight of the copies left never grow, step by step |
| `AnomalyDetector.Detector.Record` | apps/account-service/src/account/anomaly-detector.ts:35-47 | The method answers and leaves the maps as the function that is proved to refine the naive detector |
| `AnomalyDetector.Detector.Recent` | apps/account-service/src/account/anomaly-detector.ts:36-37 | The filter keeps exactly the in-window times, in order |
| `AnomalyDetector.Detector.SweepAll` | apps/account-service/src/account/anomaly-detector.ts:49-57 | A sweep drops exactly the accounts without in-window times and the alerts that are out of the window |
| `AnomalyDetector.RecordRefines` | apps/account-service/src/account/anomaly-detector.ts:35-47 | One call gives the answer of the detector that keeps the whole history, and the maps go on knowing all that a later call can ask |
| `AnomalyDetector.SweepingIsUnobservable` | apps/account-service/src/account/anomaly-detector.ts:35-57 | On every run whose clock does not go back, the pruned and swept maps answer every call exactly as the full history would |
| `AnomalyDetector.IdleAccountsAreForgotten` | apps/account-service/src/account/anomaly-detector.ts:38-53 | Up to ten thousand accounts nothing is swept, and past that no account without an operation in the window is kept |
| `Reconciliation.FetchAll` | apps/payment-service/src/interbank/interbank.service.ts:571-582 | The page loop ends, and unless a page fails it returns the list of the last request whole, even if the list grew at its end meanwhile |
| `Reconciliation.FetchStable` | apps/payment-service/src/interbank/interbank.service.ts:571-582 | Over a list that does not change the loop rebuilds it, nothing missed or repeated, with one request for every 500 items begun and one for none |
| `Reconciliation.BuildIndex` | apps/payment-service/src/interbank/interbank.rules.ts:135-137 | The index by id, the later of two equal ids counting |
| `Reconciliation.DiffReconciliation` | apps/payment-service/src/interbank/interbank.rules.ts:134-153 | The loops report the list of issues whose exactness is proved |
| `Reconciliation.DiffIsExact` | apps/payment-service/src/interbank/interbank.rules.ts:134-153 | With unique ids an issue is reported exactly when it is a genuine disagreement of the two lists |
| `Reconciliation.EmptyDiffIffAgree` | apps/payment-service/src/interbank/interbank.rules.ts:134-153 | With unique ids nothing is reported exactly when both sides accept the same ids and agree on the amount of every shared id |
| `Reconciliation.DiffRepeatsNothing` | apps/payment-service/src/interbank/interbank.rules.ts:134-153 | With unique ids no issue is reported twice |
| `Reconciliation.NoIssueMeansAgreement` | apps/payment-service/src/interbank/interbank.rules.ts:134-153 | An empty report proves agreement |
| `Reconciliation.AgreementHasNoIssue` | apps/payment-service/src/interbank/interbank.rules.ts:134-153 | Between lists that agree no disagreement of any kind exists |
| `AccountNumbers.RoundTrip` | apps/account-service/src/account/interbank.rules.ts:8-20 | An account id written as an interbank number and read back is the same id in lower case, and the contract allows the number |
| `AccountNumbers.NumbersAreUnique` | apps/account-service/src/account/interbank.rules.ts:8-11 | Two account ids have the same number exactly when they are the same id up to case |
| `AccountNumbers.OnlyOurNumbersAreRead` | apps/account-service/src/account/interbank.rules.ts:13-20 | Whatever is read as one of our numbers gives a UUID in lower case whose own number is the one read, up to case and hyphens |
| `AccountNumbers.UuidIsHyphenated` | apps/account-service/src/account/interbank.rules.ts:19-19 | Dropping the hyphens of a UUID and putting them back is the identity |
| `Fingerprint.ValidateTransferRequest` | apps/payment-service/src/interbank/interbank.rules.ts:49-71 | No problem is reported exactly when the body has only known fields, all in their formats, a description of at most 140, and a lifetime within five seconds of 180 |
| `Fingerprint.BodyRoundTrip` | apps/payment-service/src/interbank/interbank.rules.ts:49-71 | A request written as a body is valid exactly when it is well formed, and is then read back field by field as it was, a missing description included |
| `Fingerprint.LifetimeDecides` | apps/payment-service/src/interbank/interbank.rules.ts:67-69 | Requests exist whose validity depends on their lifetime alone: from 175 to 185 seconds, both included |
| `Fingerprint.FormatBoundaries` | apps/payment-service/src/interbank/interbank.rules.ts:12-16 | Accounts have 1 to 34 characters, amounts 1 to 5 digits before the point, bank codes 2 digits |
| `Fingerprint.CanonicalIsInjective` | apps/payment-service/src/interbank/interbank.rules.ts:74-77 | Two requests whose other fields are free of the separator have the same canonical string exactly when they agree field by field, whatever their descriptions contain |
| `Fingerprint.FingerprintsTellRequestsApart` | apps/payment-service/src/interbank/interbank.rules.ts:73-77 | Over all valid bodies, two fingerprints are the same exactly if the requests agree in every field, a missing description counting as empty |
| `Fingerprint.ValidIsSeparable` | apps/payment-service/src/interbank/interbank.rules.ts:49-77 | Validation lets no separator into any field but the description |
| `Fingerprint.FormatsArePlain` | apps/payment-service/src/interbank/interbank.rules.ts:12-17 | No text of any of the formats contains the separator |
| `Fingerprint.SplitFirst` | apps/payment-service/src/interbank/interbank.rules.ts:74-77 | Equal texts split at their first separator have equal parts |
| `Fingerprint.SplitLast` | apps/payment-service/src/interbank/interbank.rules.ts:74-77 | Equal texts split at their last separator have equal parts |
| `Fingerprint.JoinSplitsFront` | apps/payment-service/src/interbank/interbank.rules.ts:74-77 | Separator-free fields in front of a joined text can be read off it |

## Left out

- PaymentDeposits.DepositTable.CancelTransfer: states what one uninterrupted call does; the interleaved handler is in module Receiver, and an Account that refuses or does not answer is one case (503).
- PaymentDeposits.DepositTable.ReceiveTransfer: one other handler may insert in between here; everything else that can happen does in module Receiver. The fingerprint stands for its hash, and for the columns of the request.
- PaymentReversals.ReversalTable.OnReversalDebited: states what one uninterrupted call does; the interleaved handler is in module Refunds.
- Fingerprint.ValidateTransferRequest: that there is no problem exactly for a valid body is stated, the wording of problems is not.
- Verdicts.StrandedForEver: Payment may take up any transfer here, told of it or not; module InternalSaga has it told.
- DepositSaga.SagaEndsWithTheMoney: a refusal by Transaction itself (customer not verified, amount above its own limit) is not among these events; a saga it fails after its request was made stays FAILED whatever the money does.
- InternalSaga.MovableIff: messages that end in a dead-letter queue count as still to be delivered.
- Refunds.RefundableIff: what becomes of a refund once its row exists is an outbound deposit with `refund`.
- LockOrder.NoWaitCycle: locks of row inserts are placed last and held by their inserter alone; that a duplicate insert waits rather than deadlocks is PostgreSQL's part.
- TimeoutWorker.Worker.Tick: publishing the outbox (module Deposit), delivering callbacks and polling reversals are not part of this tick; a row is claimed and resolved with nothing in between (module Deposit lets anything run in between).
- TimeoutBounds.DrainTerminates: one worker; a failed batch, and rows held by another worker's claim, are excluded by hypothesis.
- RetryCascade.CascadeIsBounded: redeliveries after a process crash, which do not increase `x-retry-count`, are not counted.
- Saga.NothingThrowsOrGoesBack: a crash between saving a transaction and publishing its end is not modelled, so an end is announced at most once, not exactly once.
- Delivery of callbacks with backoff and its 24-hour limit, and polling of outgoing reversals with theirs: time limits on steps that may happen at any time here.
- Reversals of our own deposits at the partner, after they have been requested.
- The mock's `down` mode and latency (a lost request or reply here), its outgoing deposits and its reversals.
- Partner authentication, API keys, trace headers, and the 401 and 404 branches that depend on them alone, except where a handler's contract names them.
- Fingerprint.BodyRoundTrip: a description's length counts characters, where JavaScript counts UTF-16 units.
- Floating-point amounts, `toFixed` rounding and amounts below a cent; SHA-256 and UUID derivation.
- The date window of a reconciliation, and lists that change other than at their end between two pages.
- Account creation, how long an account was idle before its deactivation, the KYC registry, anomaly configuration from the environment.
- Payment's decision itself (limits, simulated processor): a verdict is a parameter.
- HTTP, RabbitMQ, TypeORM and NestJS wiring, telemetry, logging, masking; the frontend, the gateway and the other services; deployment.
