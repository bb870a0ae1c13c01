# A verified model of painfree

painfree takes payment instructions, signs them, sends them to a bank over EBICS and follows
what the bank says about them. This project models the parts whose promises are about whole
runs rather than single calls, and proves those promises for every run.

One database transaction is one atomic step over tables held in memory; time is an integer; a
crash is a stop between two steps. Each protocol is modelled twice. A pure part gives the step
function and the theorems about runs (`Orders`, `Deliveries`, `BankKeys`, `Rekey`, `Throttle`).
A class with the same tables as fields holds the methods as the service runs them, row by row and
loop by loop (`OrderTables.PaymentTables`, `DeliveryTables.WebhookTables`,
`BankKeyTable.KeyTable`, `RotationTables.SealedTables`, `SignIn.Accounts`,
`VerificationCache.Cache`), and each method is proved to take exactly the step.

What a single step means is stated apart from the functions that define it, in the modules ending in
`Laws`: when a row is handed out and when it is not, which transaction stands on an order, which
minute a schedule names, what a written amount is worth, what is staged after a refusal.

| modules | what they cover |
|---|---|
| `Schemes`, `StatusReports` | the decision that fixes the shape of an order; what a bank status report decides |
| `Orders`, `OrderInvariant`, `OrderRuns`, `OrderLaws`, `ReportRuns`, `ReportOverlaps`, `OrderTables` | the payment order lifecycle: leases, retries, the one fallback, replays, reports, returns |
| `Submissions` | concurrent submissions under one idempotency key |
| `Deliveries`, `DeliveryRuns`, `DeliveryLaws`, `DeliveryTables` | the webhook outbox as one queue per subscription, parking, redelivery |
| `Calendar`, `CronSchedule`, `CronLaws`, `CronHorizon` | the cron search over the Gregorian calendar, and when it finds nothing |
| `Sealing`, `Rekey`, `RotationTables` | sealed envelopes and the resumable custody rotation |
| `VerificationCache`, `Throttle`, `Overlaps`, `Purges`, `SignIn` | the password verification cache, and the sign-in throttle under overlapping attempts |
| `BankKeys`, `BankKeyLaws`, `BankKeyTable` | staging, confirming and declining the bank's keys, with a crash anywhere |
| `Amounts`, `AmountLaws`, `Documents`, `Pain001`, `PainRead`, `PainLaws`, `SchemaOrder` | building a pain.001.001.09 message, reading it back, and the order of its elements |

## Where the code and its documentation differ

The model follows the code. Where the code does not do what its comments say, the difference is a
theorem here: a concrete failing case, and the exact condition under which the code does what it
says.

- A lost worker. `painfree/queue.py:41-43` says an order that is claimed and lost still converges
  on the attempt ceiling. Only `retry_later` compares `attempts` with the ceiling, so an order
  whose workers die is claimed without end, from the moment it is accepted
  (`OrderRuns.LostWorkersAreUnbounded`, `OrderRuns.LostFromTheStart`). What holds is
  `OrderRuns.ClaimsAreBounded`: fresh claims are bounded by the tries left plus a set of tries per
  replay, and every other claim took over from a lost worker.
- A replay forgets the transaction the bank assigned (`painfree/orders.py:648-698`). Whatever made
  an order replayable, at its next claim it can send its second message exactly when it still holds a
  reserve, the code is a definitive refusal and no order id stands on the row
  (`OrderRuns.ReplayReopensTheFallback`). The id on the row is the one its last writer wrote
  (`OrderRuns.OrderIdOnTheRow`), and a submit writes even when it has none: an order whose open was
  given an id, that was submitted without one and then refused by a report, can fall back after a
  replay (`OrderRuns.SubmitTakesTheOrderIdAway`). Without a replay, and unless a later open records
  that the bank assigned no transaction, it cannot (`OrderRuns.OpenTransactionPinsMessage`).
- Overlapping reports. `_move` reads the acknowledgement a refusal overturns and updates in another
  transaction (`painfree/reconcile.py:604-682`). A refusal that reads before the acceptance is written
  is lost, although it is dated later and written last (`ReportOverlaps.RefusalCanBeLost`). With
  revocable acceptances and later-dated refusals a submitted order ends rejected exactly when the
  first update is a refusal's or some refusal is both read and written after it
  (`ReportOverlaps.RefusalWinsExactlyWhen`); when nothing moves the order between a report's read and
  its update, applying is one step (`ReportOverlaps.CurrentIsSequential`).
- Unanimity. `painfree/reconcile.py:282-296` says anything less than unanimity leaves the order
  alone. Transactions that disagree are passed over for the payment blocks: such a report decides
  exactly when its blocks are all taken or all refused (`StatusReports.DisagreementFallsToBlocks`),
  and can then reject an order of which the bank took a transaction, or acknowledge one of which it
  refused a transaction. The recorded status is the first transaction's, so it alone decides whether
  a later refusal makes the order replayable or can never reach it
  (`ReportRuns.FirstTransactionDecides`).
- The cron horizon. `painfree/cron.py:51-54` says a schedule that matches nothing inside four years
  matches nothing. The search raises although a later minute matches exactly when 29 February is the
  only permitted date and the moment lies in a gap: from the last match on a 29 February four years
  before a year like 1900 or 2100, until the first match on the next one is 1464 days away
  (`CronHorizon.HorizonTooShort`). No moment of 1901 to 2095 lies in one
  (`CronHorizon.RaisesInOurTime`).
- The throttle. An attempt checks its locks before it hashes and counts after, in transactions of
  its own. Attempts that overlap all pass a lock that their failures then set, so more failures than
  the threshold can be counted at one moment (`Overlaps.ThreeGuessesAtOnce`). The threshold holds
  exactly when no two attempts on a counter are past their check at once
  (`Overlaps.ThresholdHoldsIffAlone`); with at most `n` at once, no more than
  `max(threshold, 2, n) + n - 1` failures fit inside a window and a lockout
  (`Overlaps.EveryBurstIsThrottled`), and that many do: for `n` up to the threshold at one moment
  (`Overlaps.CeilingIsReached`), for more within two, when the window is no shorter than the lockout
  (`Overlaps.CeilingIsReachedLater`). The 2 is there because the first failure of a window never locks,
  although the threshold may be set to 1 (`painfree/config.py:255`, `Throttle.ThresholdOneCountsTwice`).
- The purge of counters at its default cutoff changes no later outcome, at any threshold, exactly
  when no attempt takes longer from its check to its count than the shorter of window and lockout,
  and one more (`Purges.PurgeIsInvisibleIff`). One longer than that, and the purge can drop a lock in
  force (`Purges.LockIsForgotten`) or a failure that still counts (`Purges.FailureIsForgotten`).
- The direct key path. `accept_bank_keys` (`painfree/keyring.py:317-341`) replaces one version after
  the other; a crash in between leaves active keys of two generations exactly when an encryption key
  was active at the start (`BankKeys.AcceptIsSafeIff`).
- Redelivery puts a row back at its old position; one row in flight per subscription is kept exactly
  when nothing later is in flight (`DeliveryRuns.RedeliveryKeepsSingleFlightIff`), and over every run
  whose redeliveries meet that guard (`DeliveryRuns.GuardedRedeliveryIsSingleFlight`); a run from an
  empty outbox that breaks it is `DeliveryRuns.RedeliveryCanDoubleFlight`.
- A rotation cannot get past a row that names the old key and does not open under it, or opens to
  nothing: no sequence of runs moves that row or one behind it (`Rekey.BrokenRowBlocks`,
  `Rekey.BrokenSecretBlocks`).

## Assumptions

- A row's position in its table is its order number or sequence number; order ids, attempt ids and
  delivery ids are these positions, so they are never reused. Attempts of an order stand in
  `attempt_no` order (`painfree/schema.py:427-428` makes that number unique).
- The four worker outcomes that update by order id alone (`opened`, `submitted`, `refused`,
  `retry_later`), and the dispatcher's settlements, are reported by the worker that still holds the
  claim. That is what the lease comment at `painfree/queue.py:71-74` assumes. Every other step
  carries its own guard and no precondition.
- `replay` reads the order and then updates it, and `fall_back` reads the reserve before its guarded
  update; each is one step here. So is one `_count`, whose read and write are one transaction in the
  code. Applying a report is one step in `Orders` and two in `ReportOverlaps`.
- Nobody else writes the sealed columns while a rotation runs: it reads the rows first and then
  writes them one by one, and would overwrite a secret rotated meanwhile.
- Hashing is a total function and the cache key hash has no collisions. Stored hashes are salted and
  hold no NUL character, so each belongs to one account name; the hash checked for unknown names
  verifies nothing. Names and passwords may hold anything. Authenticated encryption, key derivation and key agreement are abstract
  functions: encryption opens what it sealed under the same key, nonce and associated data, and under
  no other associated data; the two sides of a key agreement meet. Another custody key is refused by
  the key id in the envelope's header.
- Money is an integer number of units at a decimal scale in a document, and a real elsewhere. Amounts
  are positive when a document is built (`painfree/sps.py:233-253`); the 28-digit limit of Python's
  decimal context is not modelled.
- White space is the ASCII white space; the currency of a built document is an input, picked from
  those the instruction uses.

## Model

| member | source | states |
|---|---|---|
| Schemes.DecisionShape | painfree/schemes.py:472-526 | a decision never leaves `instant_or_normal` in effect, every transfer asked for the scheme it names, a reserve exists exactly for an instant order that may fall back, and an instant order fits the ceiling |
| Schemes.RefusedExactlyWhen | painfree/schemes.py:472-556 | a submission is refused exactly when two transfers disagree or plain instant cannot be done; `instant_or_normal` alone never is |
| Schemes.SingleWantedScheme | painfree/schemes.py:540-556 | more than one wanted scheme exactly when two transfers disagree |
| Schemes.NearestNameDecides | painfree/schemes.py:540-556 | a transfer's own scheme decides, or else the message's, or else the connection's default |
| Schemes.ReasonIsTheCause | painfree/schemes.py:472-537 | the reason on a decision is the missing profile or the exceeded ceiling of a downgrade, or whether anybody named a scheme |
| Schemes.RefusalNamesTheCause | painfree/schemes.py:472-556 | disagreement is refused first, then the missing profile, then the ceiling |
| StatusReports.Tally | painfree/reconcile.py:266-279 | every transaction is counted once as taken, refused or undecided |
| StatusReports.TallyShowsUnanimity | painfree/reconcile.py:266-296 | a level is unanimously taken or refused exactly when its count reaches its length |
| StatusReports.RejectionRestsOnRefusal | painfree/reconcile.py:227-296 | a rejection rests on a refusal at the group, on all transactions or on all blocks; a partly accepted file is acknowledged, never rejected |
| StatusReports.DisagreementFallsToBlocks | painfree/reconcile.py:282-296 | transactions that disagree leave the decision to the blocks: the report decides exactly when those are all taken or all refused |
| StatusReports.DecidesExactlyWhen | painfree/reconcile.py:227-296 | without a group status a report decides exactly when one of the two levels is unanimous |
| StatusReports.RejectsDespiteTaken | painfree/reconcile.py:282-296 | an order with a taken transaction is rejected exactly when the transactions disagree and all blocks are refused |
| StatusReports.AcknowledgesDespiteOthers | painfree/reconcile.py:282-296 | an order with a transaction not taken is acknowledged exactly when they are not all refused and all blocks are taken |
| StatusReports.DisagreeingTransactionsCanReject | painfree/reconcile.py:282-296 | a taken and a refused transaction, under a refused block and under a taken one |
| Orders.Candidate | painfree/queue.py:215-237 | the lowest-numbered claimable order, or nothing when none is claimable |
| Orders.RunSplits | painfree/queue.py:171-213 | a run is its parts: final tables and legality compose |
| Orders.HandedSplits | painfree/queue.py:171-213 | and so do the messages it hands out |
| OrderInvariant.InsertKeepsInv | painfree/orders.py:558-613 | an insert that meets the unique constraints creates an order that agrees with its attempts, with fresh message ids |
| OrderInvariant.FallBackKeepsInv | painfree/queue.py:369-411 | a promotion swaps the live attempt and rewrites the order in one step; the reserve is the second attempt |
| OrderInvariant.AnswerKeepsInv | painfree/queue.py:450-501 | writing the bank's answer on the live attempt keeps order and attempts in agreement |
| OrderInvariant.StepKeepsInv | painfree/queue.py:171-501 | every step of workers, operators and the bank keeps the order and attempt tables in agreement |
| OrderInvariant.RunKeepsInv | painfree/attempts.py:18-53 | so does every run, whatever the interleaving |
| OrderInvariant.EveryReachableStateAgrees | painfree/attempts.py:18-53 | in every reachable state: one live attempt carrying the order's message, a reserve exactly while `instant_or_normal` is still instant, at most one superseded, all message ids distinct |
| OrderInvariant.AttemptCensus | painfree/attempts.py:44-57 | what agreement says of the three attempt states |
| OrderRuns.StepKeepsIdentity | painfree/orders.py:558-613 | rows are never removed and keep what was fixed at acceptance |
| OrderRuns.StepKeepsClosed | painfree/reconcile.py:604-682 | no step reopens a returned order or an order acknowledged past checking, or hands it out |
| OrderRuns.ClosedForGood | painfree/reconcile.py:156-169 | once closed, no sequence of steps ever hands one of its messages to a worker again, and `returned` is never left |
| OrderRuns.MessageChangesOnlyByPromotion | painfree/queue.py:326-411 | only a `fall_back` whose every condition holds changes an order's message, and it puts the reserve's there |
| OrderRuns.NormalKeepsItsMessage | painfree/queue.py:326-343 | a normal order carries one message for ever |
| OrderRuns.AtMostTwoMessages | painfree/queue.py:326-411 | over any run one order sends one message, or one until a single promotion and another from then on |
| OrderRuns.ReplacedLater | painfree/queue.py:326-411 | the promotion point of a run, seen one step earlier |
| OrderRuns.ReserveStays | painfree/queue.py:369-411 | any step but the promotion keeps the attempts and their messages |
| OrderRuns.TransactionStays | painfree/queue.py:241-249 | a recorded transaction is forgotten only by a replay, or by a worker recording that there is none, and forbids promotion |
| OrderRuns.OpenTransactionPinsMessage | painfree/queue.py:326-411 | while a transaction is recorded, all that is handed out is the message the bank may already have |
| OrderRuns.ReplayReopensTheFallback | painfree/orders.py:648-698 | for every replayable order: the claim after its replay may fall back exactly when a reserve is held, the code is a definitive refusal and no order id stands on the row |
| OrderRuns.OrderIdOnTheRow | painfree/queue.py:241-258 | over any run the order id on a row is the one its last writer wrote: an open that was given one, or any submit |
| OrderRuns.SubmitTakesTheOrderIdAway | painfree/queue.py:251-258 | opened with an order id, submitted without, refused by a report and replayed, an order may fall back with every definitive code |
| OrderRuns.StepSpendsTries | painfree/queue.py:293-322 | a fresh claim costs a try; only a replay adds tries |
| OrderRuns.ClaimsAreBounded | painfree/queue.py:71-104 | every claim is fresh or took over from a lost worker, and fresh claims are at most the tries left (never over 2 × MAX_ATTEMPTS) plus MAX_ATTEMPTS per replay |
| OrderRuns.LastTryIsFinal | painfree/queue.py:293-322 | a reported failure is final exactly at the ceiling |
| OrderRuns.LostWorkersAreUnbounded | painfree/queue.py:41-43 | an order whose workers die is claimed as often as you like, from any table in which it is the only one |
| OrderRuns.LostFromTheStart | painfree/queue.py:41-43 | and so from the acceptance of the first order |
| OrderRuns.ClaimsALeaseApart | painfree/queue.py:215-237 | two claims with no outcome between them are more than a lease apart |
| OrderLaws.RetryWaits | painfree/queue.py:71-104 | after a retried try an order is not handed out before its wait of 30 seconds, 2, 10 or 30 minutes is over, and from then on it is passed over only for an older one |
| OrderLaws.LostClaimIsTakenOver | painfree/queue.py:171-237 | a claim takes the row for that worker at that moment; unreported, the order is handed out again after a lease and not before |
| OrderLaws.ReplayIsDueAtOnce | painfree/orders.py:648-698 | a failed or rejected order is due at once after a replay, with all its tries, its message and order id and without its transaction; any other is left alone |
| OrderLaws.OverIsNeverHandedOut | painfree/queue.py:215-237 | an order neither accepted nor being submitted is never handed out |
| OrderLaws.OutcomesEnd | painfree/queue.py:251-322 | what submit, refusal and retry leave on the row: state, return code, order id, and no claim |
| OrderLaws.AcceptanceCreates | painfree/orders.py:558-613 | an order is accepted exactly when its scheme can be had, its key is new and its message ids are unused, and starts due at once as it was asked for |
| OrderLaws.AcceptanceKeepsAReserve | painfree/orders.py:428-496 | a live attempt for the order's message, and a planned one for the second letter exactly when there is a scheme to fall back to |
| OrderLaws.OpenRecords | painfree/queue.py:241-249 | opening records the transaction whether or not an order id came with it, keeps a recorded order id when none came, and touches nothing else |
| OrderLaws.TransactionOnTheRow | painfree/queue.py:241-249 | over any run the transaction on a row is that of its last open, unless a replay or a promotion cleared it since |
| OrderLaws.OpenPinsTheMessage | painfree/queue.py:326-411 | from the moment the bank assigns a transaction, and while nothing forgets it, no step promotes and only the message it was opened with is handed out |
| OrderLaws.FallBackNeedsEveryGuard | painfree/queue.py:326-411 | a fallback changes anything exactly when the code is on the connection's list, this worker still has the order, it is an instant order that may fall back, and the bank assigned nothing |
| OrderLaws.PromotionHandsOver | painfree/queue.py:369-411 | then the order has the reserve's message and all its tries and is due at once, and the refused attempt keeps its code |
| OrderLaws.AnswerIsOnTheLiveAttempt | painfree/queue.py:450-501 | the bank's answer is written on the attempt that carries the order's message, and on no other |
| OrderLaws.GroupStatusDecides | painfree/reconcile.py:119-169 | code by code, what a group status makes of a submitted order; interim and unknown codes move nothing |
| OrderLaws.RefusalRevokes | painfree/reconcile.py:662-682 | an acknowledged order moves again exactly on a refusal dated later than an acknowledgement that only said the file was checked |
| OrderLaws.ReportsLeaveAlone | painfree/reconcile.py:604-660 | no report moves an order that is being submitted, was refused, gave up or was returned |
| OrderLaws.BookingReturns | painfree/returns.py:305-352 | a booking returns exactly a submitted or acknowledged order of that sum, in its currency or in none |
| OrderLaws.SuspicionOpens | painfree/returns.py:445-530 | a first booking opens a suspicion, a second one leaves it, and confirming it returns the order |
| OrderLaws.SuspicionCloses | painfree/returns.py:551-570 | a dismissed suspicion is not confirmed, and is opened again by another booking only |
| OrderLaws.OnlyTakenOrdersReturn | painfree/returns.py:445-530 | no order but a submitted or acknowledged one is suspected, or returned by a confirmation |
| ReportRuns.RepeatedReportIsIgnored | painfree/reconcile.py:604-660 | the same report twice in a row moves an order once |
| ReportRuns.AtMostTwoMoves | painfree/reconcile.py:604-682 | no sequence of reports moves an order more than twice |
| ReportRuns.LateRefusalWins | painfree/reconcile.py:604-682 | with revocable acceptances and later-dated refusals, any order of arrival with any repetitions ends rejected in one or two moves |
| ReportOverlaps.CurrentIsSequential | painfree/reconcile.py:604-682 | reports whose reads still hold when they update amount to applying them one by one, in the order of the updates |
| ReportOverlaps.RefusedExactlyWhenReadSince | painfree/reconcile.py:604-682 | under a revocable acknowledgement, later-dated refusals reject the order exactly when one is written that was read under it |
| ReportOverlaps.RefusalWinsExactlyWhen | painfree/reconcile.py:604-682 | from a submitted order, in any overlap: rejected exactly when the first update is a refusal's or some refusal is read and written after it |
| ReportOverlaps.RefusalCanBeLost | painfree/reconcile.py:604-682 | a later-dated refusal, read too early and written last, that is lost |
| ReportRuns.FirstTransactionDecides | painfree/reconcile.py:282-296 | after a unanimous acknowledgement a later refusal makes the order replayable exactly when the first transaction's status is revocable; otherwise no run ever hands the order out again |
| ReportRuns.TransactionOrderDecides | painfree/reconcile.py:282-296 | the same two statuses listed the other way round leave the order replayable instead of closed |
| OrderTables.PaymentTables.Build | painfree/orders.py:428-496 | the live attempt first, then the reserve when there is one |
| OrderTables.PaymentTables.Insert | painfree/orders.py:558-613 | inserts exactly when the unique constraints allow, order and attempts together |
| OrderTables.PaymentTables.Replay | painfree/orders.py:648-698 | succeeds exactly for a failed or rejected order and then takes the replay step |
| OrderTables.PaymentTables.Claim | painfree/queue.py:171-237 | takes the lowest-numbered claimable order and hands out a claim that holds, or finds none claimable |
| OrderTables.PaymentTables.Opened | painfree/queue.py:241-249 | the row holds the transaction it was given, whatever the order id is, and an order id only when there is one |
| OrderTables.PaymentTables.Settle | painfree/queue.py:450-501 | settles the order and writes the answer on the live attempt, nothing else |
| OrderTables.PaymentTables.Submitted | painfree/queue.py:251-258 | is the submit step followed by the answer |
| OrderTables.PaymentTables.Refused | painfree/queue.py:260-291 | is the refuse step followed by the answer |
| OrderTables.PaymentTables.RetryLater | painfree/queue.py:293-322 | re-queues behind the backoff below the ceiling, gives up at it |
| OrderTables.PaymentTables.FindAttempt | painfree/attempts.py:195-209 | the first attempt in a state |
| OrderTables.PaymentTables.FallBack | painfree/queue.py:326-446 | promotes exactly when every condition holds, and otherwise changes nothing |
| OrderTables.PaymentTables.Move | painfree/reconcile.py:604-660 | moves exactly from `accepted`, `submitted`, or an acknowledgement this refusal overturns |
| Orders.Revoked | painfree/reconcile.py:662-682 | the acknowledgement a dated refusal overturns: revocable, and dated earlier |
| OrderTables.PaymentTables.Return | painfree/returns.py:305-352 | only the whole sum in the order's currency returns a submitted or acknowledged order |
| OrderTables.PaymentTables.Raise | painfree/returns.py:445-472 | a suspicion is raised once per booking |
| OrderTables.PaymentTables.Confirm | painfree/returns.py:499-530 | returns exactly an order with an open suspicion |
| OrderTables.PaymentTables.Dismiss | painfree/returns.py:551-570 | dismisses exactly an open suspicion of an order not returned |
| Submissions.CreateKeepsSound | painfree/orders.py:558-595 | a won insert adds one order made from its own request |
| Submissions.NextKeepsSound | painfree/orders.py:326-374 | every find, insert and second find, and every other step of the service, keeps one creator per order and truthful outcomes |
| Submissions.OneOrderPerKey | painfree/orders.py:356-374 | for every interleaving: successes under one key share one order with one creator, a changed payload conflicts |
| Submissions.KeyOwnsOneOrder | painfree/orders.py:558-595 | for every interleaving a connection and key own at most one order |
| Submissions.UninterruptedIsJudged | painfree/orders.py:326-374 | a submission nobody interrupts repeats or conflicts with the order its key owns, or is refused for its scheme, or creates the next order |
| Deliveries.CandidateBelow | painfree/dispatcher.py:259-310 | the lowest-numbered claimable row, or nothing when none is; what claimable means is `DeliveryLaws.DueFrom` and the laws after it |
| DeliveryRuns.ClaimTakesHead | painfree/dispatcher.py:259-310 | the relational claim takes the first row of its queue that is not over |
| DeliveryRuns.StepKeepsOrder | painfree/dispatcher.py:236-440 | every step but redelivery keeps claimed rows at the head, and rows set aside only under parked subscriptions |
| DeliveryRuns.OneInFlight | painfree/dispatcher.py:259-310 | at most one row per subscription is in flight, the head of its queue |
| DeliveryRuns.StepRefinesFifo | painfree/dispatcher.py:236-392 | every step leaves the queue alone, appends to it, or removes its head |
| DeliveryRuns.DeliveriesAreFifo | painfree/dispatcher.py:236-392 | over any run, what was settled followed by what waits is what waited at the start followed by what was written |
| DeliveryRuns.SettledInSequence | painfree/dispatcher.py:341-392 | rows of a subscription settle in strictly increasing sequence order |
| DeliveryRuns.WaitingIsOrdered | painfree/dispatcher.py:259-310 | the queue is the unsettled rows of a subscription, in sequence order |
| DeliveryRuns.ClaimsAreIsolated | painfree/dispatcher.py:259-310 | no change to other subscriptions makes a claimable row unclaimable, with redelivery too |
| DeliveryRuns.EventsAreKept | painfree/dispatcher.py:353-440 | no step removes a row or changes its event or subscription |
| DeliveryRuns.FannedOutRows | painfree/webhooks.py:781-819 | a fan-out writes exactly one queued row for each live subscription that asked |
| DeliveryRuns.RedeliveryKeepsSingleFlightIff | painfree/redelivery.py:145-154 | a redelivery keeps one row in flight exactly when nothing later of the subscription is in flight |
| DeliveryRuns.StepKeepsFirst | painfree/dispatcher.py:236-440 | every step, with redeliveries that meet the guard, keeps rows in flight first of their subscription |
| DeliveryRuns.GuardedRedeliveryIsSingleFlight | painfree/redelivery.py:52-154 | so over every such run at most one row per subscription is in flight and nothing earlier is owed |
| DeliveryRuns.RedeliveryCanDoubleFlight | painfree/redelivery.py:145-154 | a run from an empty outbox whose redelivery and next claim put two rows in flight |
| DeliveryRuns.StepSpendsTries | painfree/dispatcher.py:353-381 | without a give-up, a fresh claim costs a try and only a resume adds any |
| DeliveryRuns.GiveUpAndCount | painfree/dispatcher.py:353-440 | a give-up counted at once leaves no more tries than before |
| DeliveryRuns.DeadEndpointStops | painfree/dispatcher.py:82-97 | an endpoint that never answers is freshly claimed at most PARK_AFTER × MAX_ATTEMPTS = 15 times, and as often again per resume |
| DeliveryRuns.ParkedIsNeverClaimed | painfree/dispatcher.py:403-434 | a parked subscription is never claimed and stays parked until resumed |
| DeliveryLaws.DueFrom | painfree/dispatcher.py:259-310 | a row is handed out from its due moment and never before, exactly when its subscription is enabled and not parked and nothing earlier is queued or in flight; then it is passed over only for a lower number |
| DeliveryLaws.LostClaimIsTakenOver | painfree/dispatcher.py:236-310 | a claimed row is out of reach for five minutes and claimable from then on, over every run that leaves it alone |
| DeliveryLaws.ClaimsALeaseApart | painfree/dispatcher.py:80-83 | over any run, two claims of one row with no outcome between them are more than five minutes apart |
| DeliveryLaws.OnlyOutcomesSettle | painfree/dispatcher.py:341-392 | a row in flight is touched by its own outcomes and by a take-over only |
| DeliveryLaws.RetryWaits | painfree/dispatcher.py:353-381 | a retried row is not handed out before its wait of 10 seconds, 1, 5 or 30 minutes is over, and is due from then on |
| DeliveryLaws.SettledIsOver | painfree/dispatcher.py:341-381 | a delivered row, or one given up at the fifth try, is not handed out again |
| DeliveryLaws.FanOutOwes | painfree/webhooks.py:822-838 | every row written is for a subscription that is enabled, not parked, and asked for this type and connection; it is due at once |
| DeliveryLaws.FanOutReaches | painfree/webhooks.py:781-819 | no such subscription is left out, unless the whole event is refused because a row of it exists |
| DeliveryLaws.ThirdGiveUpParks | painfree/dispatcher.py:403-434 | the third give-up parks the subscription and sets its queued rows aside; below it only the count moves |
| DeliveryLaws.SuccessForgives | painfree/dispatcher.py:394-401 | a success starts the count again |
| DeliveryLaws.ParkedAndResumed | painfree/webhooks.py:697-719 | parked and resumed, a subscription has the queue it had, each queued row due at the moment of the resume |
| DeliveryLaws.RedeliveredIsDueNow | painfree/redelivery.py:145-154 | a settled row sent again has no attempts and is due now; any other is left alone |
| DeliveryTables.WebhookTables.FanOut | painfree/webhooks.py:781-819 | writes all rows of an event, or none when one exists already |
| DeliveryTables.WebhookTables.EarlierOwed | painfree/dispatcher.py:259-310 | finds whether anything earlier is owed |
| DeliveryTables.WebhookTables.Claim | painfree/dispatcher.py:236-310 | takes the claim step and hands out a claim that holds, or finds nothing claimable; the row it takes was queued with its wait over, or in flight for more than five minutes |
| DeliveryTables.WebhookTables.Delivered | painfree/dispatcher.py:341-401 | settles the row and clears the count |
| DeliveryTables.WebhookTables.RetryLater | painfree/dispatcher.py:353-381 | re-queues below the ceiling; at it gives up and counts |
| DeliveryTables.WebhookTables.SubscriptionFailed | painfree/dispatcher.py:403-434 | counts, and at the limit parks the subscription with its queued rows |
| DeliveryTables.WebhookTables.Redeliver | painfree/redelivery.py:52-81 | re-queues exactly a delivered or failed row of a live subscription it belongs to |
| DeliveryTables.WebhookTables.ResendOrder | painfree/redelivery.py:83-128 | every live subscription that asked ends with a row for the event that is not over, one row per event is kept, other events are untouched, and the count is exact |
| DeliveryTables.WebhookTables.RequeueReaches | painfree/redelivery.py:145-154 | a requeued row reaches its subscription and un-reaches nobody |
| Calendar.OrdinalOfDateOf | painfree/cron.py:97-123 | day numbers and dates are inverse, counting days one by one |
| Calendar.DateOfOrdinal | painfree/cron.py:97-123 | every valid date is the date of its day number |
| Calendar.EarlierDate | painfree/cron.py:97-123 | day numbers order dates |
| CronSchedule.ReadField | painfree/cron.py:126-176 | a field permits exactly the values its items cover (Sunday folded), or fails with the first bad item's error |
| CronSchedule.Steps | painfree/cron.py:126-176 | every step-th value of a range and no other |
| CronSchedule.NextAfter | painfree/cron.py:77-123 | the earliest matching minute strictly after the moment, or none only when no minute up to the horizon matches; at most one jump a day, under 48 hour jumps and 120 minute steps |
| CronSchedule.DaySkips | painfree/cron.py:97-123 | a day jump skips no match |
| CronSchedule.HourSkips | painfree/cron.py:97-123 | an hour jump skips no match |
| CronLaws.MatchesByTheClock | painfree/cron.py:77-95 | the minute at h:k of day n matches exactly when that minute, that hour, the month and the date are permitted, the date by whichever day fields are restricted |
| CronLaws.WeekdayOfDay | painfree/cron.py:84-95 | the weekday compared is the weekday of the date by Sakamoto's rule, Sunday being 0 |
| CronLaws.EitherDay | painfree/cron.py:84-95 | with both day fields restricted a minute matches exactly when it matches with either restriction lifted |
| CronLaws.EarlierOfTwoSearches | painfree/cron.py:84-123 | so the search finds the earlier of what the two simpler schedules find |
| CronLaws.NextIsUnique | painfree/cron.py:97-123 | a search has one answer |
| CronLaws.FridayOrThirteenth | painfree/cron.py:84-95 | `0 0 13 * 5` from Sunday noon, 12 July 2026, is Monday the 13th |
| CronLaws.FieldBounds | painfree/cron.py:126-190 | the numbers each field takes, and what restricts it |
| CronLaws.GregorianCount | painfree/cron.py:97-123 | the days before a year by the Gregorian leap rule |
| CronHorizon.AlmostAlwaysFound | painfree/cron.py:84-123 | a weekday, no day restriction, or a day every year has, is always found |
| CronHorizon.NothingEverMatches | painfree/cron.py:77-95 | when no permitted month contains a permitted day, no minute of any year matches |
| CronHorizon.NextLeapDay | painfree/cron.py:51-54 | outside the gaps the search finds a 29 February |
| CronHorizon.RaisesExactlyWhen | painfree/cron.py:97-123 | for every expression and moment: the search raises exactly when only days of month are restricted and either no permitted month contains a permitted day, or 29 February alone is permitted and the moment lies in a gap |
| CronHorizon.RaisesInOurTime | painfree/cron.py:51-54 | from 1901 to 2095 the second case does not arise |
| CronHorizon.HorizonTooShort | painfree/cron.py:51-54 | the search raises although a later minute matches exactly when 29 February alone is permitted and the moment lies in a gap |
| CronHorizon.NoLeapDayAhead | painfree/cron.py:51-54 | in a gap nothing is found |
| CronHorizon.GapInDays | painfree/cron.py:51-54 | a gap starts on a 29 February and ends 1464 days before the next, eight years on |
| CronHorizon.FromTheLastLeapDay | painfree/cron.py:51-54 | the yearly midnight of 29 February is in the gap from that day until 1457 days later |
| Sealing.SealOpens | painfree/sealing.py:122-196 | what is sealed opens under the same key and context only, and names its key |
| Sealing.WrapOpens | painfree/wrapping.py:110-178 | the same for wrapped secrets |
| Rekey.KeyAfterReads | painfree/rekey.py:209-254 | a moved private key reads as before and names the new key |
| Rekey.SecretAfterReads | painfree/rekey.py:257-313 | a moved signing secret reads as before and names the new key |
| Rekey.InterruptionsKeepSecrets | painfree/rekey.py:154-313 | stopping after any row and running again any number of times keeps every secret in its own context |
| Rekey.CountsAddUp | painfree/rekey.py:73-95 | moved, current and stranded add up to the sealed columns |
| Rekey.NothingStranded | painfree/rekey.py:87-95 | no column counted stranded exactly when none was found so |
| Rekey.KeyByItsId | painfree/rekey.py:209-254 | the key id an envelope names settles what becomes of it: the new key's stays and is counted current, the old key's is moved, any other stays and is counted stranded |
| Rekey.SecretByItsId | painfree/rekey.py:257-313 | the same for a signing secret in either column |
| Rekey.CompleteWhenSurveyIsClean | painfree/rekey.py:130-206 | a finished real run is complete exactly when a survey afterwards names only the new key |
| Rekey.FinishedRunIsIdempotent | painfree/rekey.py:154-206 | a finished run repeated re-seals nothing |
| Rekey.KeyStop | painfree/rekey.py:209-254 | a real run over the private keys ends at the first row that raises |
| Rekey.BrokenRowBlocks | painfree/rekey.py:154-254 | a private key that does not open: no sequence of runs, interrupted as it may be, moves it, a key behind it or any signing secret |
| Rekey.BrokenSecretBlocks | painfree/rekey.py:257-313 | the same for a signing secret and the rows behind it |
| Rekey.TallyJoins | painfree/rekey.py:154-206 | the counts of two tables add up |
| RotationTables.SealedTables.RekeyKey | painfree/rekey.py:209-254 | one private key: counted once, and rewritten only when it opens under the old key |
| RotationTables.SealedTables.RekeyColumn | painfree/rekey.py:257-313 | one secret column, sealed or wrapped |
| RotationTables.SealedTables.RekeyRow | painfree/rekey.py:257-313 | both columns of one subscription, or the exception of either |
| RotationTables.SealedTables.RekeyPrivateKeys | painfree/rekey.py:209-254 | the rows before the first exception are moved, the others are as they were, whichever row that is |
| RotationTables.SealedTables.RekeyWebhookSecrets | painfree/rekey.py:257-313 | both columns of a subscription move together |
| RotationTables.SealedTables.Run | painfree/rekey.py:154-206 | a real run is the run the theorems are about, counts add up to the sealed columns, a dry run changes nothing and reports the same counts |
| RotationTables.SealedTables.DryRunForetells | painfree/rekey.py:154-313 | a real run finishes exactly when a dry run does and nothing that opens is empty |
| RotationTables.SealedTables.Survey | painfree/rekey.py:130-151 | counts every sealed column under the key id it names |
| RotationTables.SealedTables.SurveyNames | painfree/rekey.py:130-151 | and lists exactly the ids some column names |
| VerificationCache.KeyNamesCredential | painfree/accounts.py:199-209 | a cache key stands for one name, password and stored hash, whatever characters they hold, since a stored hash belongs to one name |
| VerificationCache.NulMakesKeysAmbiguous | painfree/accounts.py:199-209 | against one and the same hash two names could share a key |
| VerificationCache.Unexpired | painfree/accounts.py:222-233 | only unexpired entries are kept when room is made |
| VerificationCache.RememberedIsHeld | painfree/accounts.py:211-235 | what is remembered is held until its time is up; unexpired entries stay while there is room, and then the newest do |
| VerificationCache.Cache.Holds | painfree/accounts.py:211-220 | true exactly for a remembered, unexpired key; an expired one is dropped |
| VerificationCache.Cache.Remember | painfree/accounts.py:222-233 | keeps the bound: the expired go first, then the oldest |
| VerificationCache.Cache.ForgetAll | painfree/accounts.py:235-238 | forgets everything |
| VerificationCache.Cache.Verify | painfree/accounts.py:522-540 | for any history, the answer hashing alone would give |
| Throttle.GapAfterCounter | painfree/accounts.py:614-656 | from any counter, enough further failures that meet no lock contain a pause |
| Throttle.GuessingIsThrottled | painfree/accounts.py:566-656 | max(threshold, 2) + 1 consecutive failures on one counter, none of which meets a lock, contain a gap of a window or a lockout |
| Throttle.ThresholdOneCountsTwice | painfree/accounts.py:614-656 | at threshold one two failures can follow each other |
| Throttle.LocksAtTheThreshold | painfree/accounts.py:614-656 | inside a window every failure counts, and the counter locks at the effective threshold for one lockout and not before |
| Throttle.WindowStartsAgain | painfree/accounts.py:614-656 | after a window without a failure the count starts again |
| Throttle.AttemptCounts | painfree/accounts.py:465-612 | a sign-in forgets the name's counter only, a wrong password counts on name and source, a refusal before hashing on none |
| Throttle.OutcomeReads | painfree/accounts.py:465-580 | locks are looked at first, the name's before the source's, then the length, then the password |
| Overlaps.MoveIsLogged | painfree/accounts.py:480-656 | what the transactions of all attempts do to one counter is what its log of checks and counts says |
| Overlaps.FailuresAreLogged | painfree/accounts.py:480-656 | so over every run that does not delete the counter |
| Overlaps.UndisturbedIsCounted | painfree/accounts.py:566-656 | when no other failure is counted between an attempt's check and its count, no failure meets a lock |
| Overlaps.UndisturbedBurstIsThrottled | painfree/accounts.py:566-656 | then any max(threshold, 2) + 1 consecutive failures of the service on one counter contain a gap |
| Overlaps.OneAtATimeIsThrottled | painfree/accounts.py:566-656 | as they do when attempts on the counter come one at a time |
| Overlaps.OverlapIsThrottled | painfree/accounts.py:566-656 | with at most n attempts at once past their check, more than max(threshold, 2, n) + n - 1 failures on one counter span a window or a lockout |
| Overlaps.EveryBurstIsThrottled | painfree/accounts.py:480-656 | the same for any part of any run of the service from the start, for names and sources |
| Overlaps.CeilingIsReached | painfree/accounts.py:566-656 | and for n up to the threshold so many are counted at one moment |
| Overlaps.CeilingIsReachedLater | painfree/accounts.py:566-656 | for more, in the middle of a run, when the window is no shorter than the lockout |
| Overlaps.ThresholdHoldsIffAlone | painfree/accounts.py:566-656 | no more failures than the threshold inside a window and a lockout, exactly when no two attempts are past their check at once |
| Overlaps.ThreeGuessesAtOnce | painfree/accounts.py:480-656 | three overlapping guesses counted at threshold two |
| Overlaps.UninterruptedIsOneStep | painfree/accounts.py:480-520 | an attempt nothing interrupts is one step: check, then clear or count twice |
| Purges.LocksStayBounded | painfree/accounts.py:614-656 | no lock reaches further than a lockout past now, nor past its counter's last failure by more than a lockout and the longest attempt |
| Purges.PurgedIsUnseen | painfree/accounts.py:691-701 | dropping counters that are over changes no later outcome, with attempts under way |
| Purges.PurgeIsInvisible | painfree/accounts.py:691-701 | a purge at its default cutoff, after any history and with any attempts under way, changes no outcome when none takes longer than min(window, lockout) + 1 |
| Purges.PurgeIsInvisibleIff | painfree/accounts.py:691-701 | over all thresholds and runs that is exactly the limit |
| Purges.EagerPurgeIsVisible | painfree/accounts.py:691-701 | a purge with a later cutoff does |
| Purges.LockIsForgotten | painfree/accounts.py:691-701 | window no longer than the lockout: a run in which a longer attempt makes the purge drop a lock in force |
| Purges.FailureIsForgotten | painfree/accounts.py:691-701 | lockout shorter than the window: a run in which it makes the purge drop a failure that still counts |
| SignIn.Accounts.FirstLock | painfree/accounts.py:566-580 | the lock that stops an attempt, the name's before the source's |
| SignIn.Accounts.Count | painfree/accounts.py:614-656 | one more failure on one counter |
| SignIn.Accounts.Fail | painfree/accounts.py:582-612 | counts on name and source, when they are given |
| SignIn.Accounts.Authenticate | painfree/accounts.py:480-520 | an attempt nobody interrupts: outcome and counters are those of the step, whatever the cache holds, and only a sign-in replaces a stored hash |
| SignIn.Accounts.Succeed | painfree/accounts.py:542-562 | the name's counter goes, an outdated hash is replaced, and the cache forgets what it held against it |
| SignIn.Accounts.ClearLockout | painfree/accounts.py:667-689 | drops one counter |
| SignIn.Accounts.PurgeLockouts | painfree/accounts.py:691-701 | drops exactly the counters that are over at the cutoff |
| BankKeys.Highest | painfree/keyring.py:129-147 | the highest generation of a version in a status |
| BankKeys.StageKeepsSound | painfree/keyring.py:343-372 | every crash point of a staging keeps one generation staged and one active |
| BankKeys.ConfirmKeepsSound | painfree/keyring.py:374-407 | so does every crash point of a confirmation |
| BankKeys.SetAsideAll | painfree/keyring.py:633-644 | setting staged rows aside takes exactly those out of use |
| BankKeys.PerformedKeepsSound | painfree/keyring.py:343-435 | so does every operation stopped anywhere |
| BankKeys.ResolvedIsOneDownload | painfree/keyring.py:186-197 | at every boundary of any sequence of operations, the resolved pair is one vouched-for download, or nothing |
| BankKeys.ResolvedFromOne | painfree/keyring.py:186-197 | the resolved pair comes from one download somebody vouched for |
| BankKeys.ConfirmedIsResolved | painfree/keyring.py:374-407 | a finished confirmation makes the staged pair the resolved one |
| BankKeys.AcceptIsSafeIff | painfree/keyring.py:317-341 | the direct path keeps one active generation at every crash point exactly when no encryption key was active |
| BankKeyLaws.DeclinedIsSetAside | painfree/keyring.py:409-435 | a finished refusal leaves nothing staged, every other row as it was, and what is resolved as it was |
| BankKeyLaws.DeclinedStaysDeclined | painfree/keyring.py:374-435 | until something is staged again no confirmation makes a transaction or vouches for anything |
| BankKeyLaws.StagedIsThePair | painfree/keyring.py:343-372 | a finished staging adds exactly the new pair, each key under its version and both under one new generation, and clears what was staged; what is resolved is as it was |
| BankKeyLaws.ConfirmedExactly | painfree/keyring.py:374-407 | a finished confirmation makes the staged generation active and vouched for, supersedes what was active and touches no other row |
| BankKeyLaws.MismatchChangesNothing | painfree/keyring.py:374-407 | a comparison that fails, or comes before both keys are staged, changes nothing |
| BankKeyLaws.StagedThenConfirmed | painfree/keyring.py:343-407 | the pair staged and then confirmed is the pair resolved |
| BankKeyLaws.StagedThenDeclined | painfree/keyring.py:343-435 | staged and then declined, it leaves the service with what it had |
| BankKeyLaws.AcceptedIsResolved | painfree/keyring.py:317-341 | the direct path, finished, ends with its pair in use |
| BankKeyTable.KeyTable.SetStatus | painfree/keyring.py:633-644 | restates one version and generation |
| BankKeyTable.KeyTable.Supersede | painfree/keyring.py:620-631 | supersedes the active rows of a version |
| BankKeyTable.KeyTable.StagedRows | painfree/keyring.py:437-452 | every staged row, in table order |
| BankKeyTable.KeyTable.Stage | painfree/keyring.py:343-372 | the staging script, stopped after any number of transactions |
| BankKeyTable.KeyTable.Confirm | painfree/keyring.py:374-407 | the confirmation script, only for a staged pair that matches |
| BankKeyTable.KeyTable.Decline | painfree/keyring.py:409-435 | the refusal script, stopped after any number of transactions |
| BankKeyTable.KeyTable.Resolve | painfree/keyring.py:186-197 | the active pair, of one vouched-for download |
| Amounts.ControlSumIsExact | painfree/payments.py:149-152 | with amounts in minor units the rounded sum is the sum of the rounded amounts |
| Amounts.FinerAmountsDrift | painfree/pain001.py:86-89 | with finer amounts it need not be |
| Amounts.FormattedReads | painfree/pain001.py:86-89 | a written amount reads back as its units, with the point in its place |
| Amounts.DigitsRead | painfree/pain001.py:222-240 | a written count reads back |
| AmountLaws.WrittenAmountDenotes | painfree/pain001.py:86-89 | an amount is written with its currency's decimal places and is worth exactly what was asked for when that fits, and else the nearest, of two equally near the even one |
| AmountLaws.WrittenUnits | painfree/pain001.py:86-89 | the same in whole units, without fractions |
| AmountLaws.SumIsTotal | painfree/payments.py:149-152 | the control sum is the sum of the amounts, whatever their scales |
| AmountLaws.UnitsOfCurrencies | painfree/sps.py:215-230 | decimal places of currencies of each kind |
| Pain001.Build | painfree/pain001.py:196-334 | appending element by element builds the document the reader theorems are about |
| Pain001.Transactions | painfree/pain001.py:311-313 | one element per transfer, in order, after what stands already |
| PainRead.ReadsBack | painfree/painread.py:114-136 | reading a built document yields the debtor and every transfer in order, trimmed and normalised, each worth the amount asked for |
| PainRead.TransferReads | painfree/painread.py:139-166 | one transfer: creditor, the amount asked for, currency, references, remittance |
| PainRead.RemittanceReads | painfree/pain001.py:143-171 | the message, else the additional words, which are kept only beside a structured reference |
| PainRead.ReferenceReads | painfree/pain001.py:143-171 | the reference and its type, from whichever of the two elements holds it |
| PainRead.PaymentHolds | painfree/pain001.py:222-334 | the payment's parts and its transfers, by element name |
| PainRead.PaymentTypePlace | painfree/pain001.py:174-193 | the payment type stands on the payment or on every transfer, never both |
| PainRead.PaymentTypeIsNeverEmpty | painfree/pain001.py:174-193 | and is never an empty element |
| PainLaws.DebtorAgentNamed | painfree/pain001.py:292-309 | the debtor's bank reads back as its BIC, or under SEPA as not provided, or as the number a Swiss account names; it is left unnamed exactly without any of the three |
| PainLaws.CreditorBankReads | painfree/pain001.py:337-360 | the creditor's bank reads back as its BIC exactly when one was given |
| PainLaws.AddressReads | painfree/pain001.py:92-104 | an address reads back field by field |
| PainLaws.PartyAddress | painfree/pain001.py:107-112 | a party has its address exactly when one was given |
| PainLaws.PaymentTypeReads | painfree/pain001.py:174-193 | a payment type is written when its profile holds anything, with each code in its own place and under the element its kind calls for |
| PainLaws.HeaderReads | painfree/pain001.py:232-250 | message id, creation time and submitter read back |
| PainLaws.PaymentFactsRead | painfree/pain001.py:252-258 | payment method and batch booking read back |
| PainLaws.CleanTrims | painfree/painread.py:98-112 | reading takes the spaces off both ends of a text and nothing else |
| PainLaws.NormalisedLetter | painfree/sps.py:121-123 | normalising drops spaces and raises small letters, |
| PainLaws.NormalisedJoins | painfree/sps.py:121-123 | letter by letter |
| SchemaOrder.DocumentInOrder | painfree/pain001.py:196-334 | every element of every document stands in the order of the schema |
| PainRead.ControlSumDenotes | painfree/pain001.py:222-260 | both control sums are worth the sum of the amounts asked for, rounded once |
| PainRead.CountsAgree | painfree/pain001.py:222-260 | both counts are the number of transfers, and both control sums are worth exactly the sum of the amounts written and of the amounts asked for |

## Left out

- HTTP routes, console rendering, the command line, audit text, log lines and response dictionaries.
- OIDC, JWT and Basic header parsing, and real cryptography.
- EBICS exchanges, downloads and the worker loop; SQL dialects, row locks and JSON storage: a conditional update is one guarded step.
- Stale workers that report after their lease expired: outside the holding assumption.
- `Reading.for_transfer` and the reason texts of a report: which transaction a status belongs to does not move the order.
- Evidence extraction from statements, the look-alike search and bank sentence matching; the guarded state changes they lead to are modelled.
- Suspending and renewing subscriber keys, and the custody key id column of a key row.
- The text of a cron expression: reading starts from list items, and Python's limit on the year is not modelled.
- The textual XML form of a document, its schema validation and character escaping; the tree is the document, and every element of it is in one namespace.
- Message id and secret generation, identity scopes, configuration validation, the bank catalogue.
- DeliveryRuns.DeadEndpointStops: a give-up and the count of it are two transactions in the code; they are adjacent here, so a crash between the two, or another dispatcher's claim between them, is outside the bound.
- BankKeyTable.KeyTable.Confirm: the comparison of the fingerprints is the EBICS engine's, which is not part of this model; its answer is a parameter.
- Overlaps.EveryBurstIsThrottled: two `_count` transactions on one counter that both read before either writes, by which the code's comment says one failure is not counted.
- Deleting a webhook subscription (`painfree/webhooks.py:617-637`), and with it the rows it was owed.
