# Transfer settlement: a verified model

This project models how the wallet platform moves money. A transfer debits its sender in one
database transaction and stages an event in the outbox; a relay publishes the event to a broker
that may deliver it any number of times; a consumer credits the receiver; a timeout sweeper
competes with the consumer and refunds the sender. A double-entry ledger records every movement.
No single function guarantees that money is conserved or that a transfer settles exactly once:
that follows from an invariant over all the collections, the broker and the workers' local state,
which is proved here for every interleaving.

## How it is organised

- `Domain`, `Database`: the documents, and the committed effect of each closure as a function.
- `Protocol`: the state machine. A `Step` is one atomic action of a client, a relay instance, the
  broker, the consumer, a sweep, or expiry; a step its actor cannot take changes nothing, so every
  sequence of steps is a run from the empty store. Any number of relay instances and sweeps act.
- `Interference`: what one actor's steps leave alone in the state of the others.
- `Books`, `Settlement`, `Delivery`, `Cache`: the parts of the invariant and why each commit keeps
  them. `Invariant` puts them together for every step and every run.
- `Guarantees`, `Outcomes`, `Expiry`, `Progress`, `RelayOrder`, `RelayDelay`, `SweepProgress`: the
  results about whole runs.
- `Requests`, `Idempotency`, `Handling`, `Reports`, `Dashboard`: what each request, each delivery and
  each report comes to, said through the documents alone. `Examples`: concrete runs.
- `Storage`, `WalletOperations`, `BackgroundWorkers`: the services as classes that update the
  collections in place, check late and roll back as the code does, each method proved equal to
  steps of the protocol. The workers' loops run amid arbitrary steps of the other actors.
  `Sums` and `Paging` are the general facts used.

## Assumptions

- A committed `withTransaction` closure is one atomic step, and so is one `getWallet`, one relay
  call and one ack. A relay call, or the commit of a session, may take effect and then report an
  error. A process may crash between calls.
- The id of a document is its position in its collection, so ids are unique and order documents
  by creation; `createdAt` order is commit order. Message ids are the positions in the history of
  publishes, which makes each publish's id fresh. Ids are canonical: the same wallet id in two
  letter cases is not modelled. Wallets are never deleted.
- The unique index on idempotency keys is sparse: it leaves out transfers without a key and holds
  every other key, including an explicit null, which the request DTO lets through.
- Amounts are positive integers in minor units. The store is empty at the start.
- An infrastructure error in the consumer requeues the message. A duplicate inbox claim changes
  nothing and may end in an ack or a requeue.
- A message remembers which outbox event it came from, a cache entry remembers how many
  transactions were committed when it was written, and relay runs are counted by how they ended.
  Nothing in the protocol reads these; the statements do.

## Where the code and its documentation differ

- The transfer DTO and `DESIGN.md` present the idempotency key as making retries safe. The balance
  is checked before the key, so an identical retry returns the first transfer exactly when the
  sender could still afford it again (`SameRequestAgain`, `RetryCanFail`).
- `DESIGN.md` says balance updates are reflected in the cache. The sweeper's refund is not, so a
  cached balance is right exactly when no refund was posted since it was written
  (`CacheLagIsTheRefunds`, `CachedBalanceCanBeStale`).
- `DESIGN.md` credits the inbox claims, alongside the status transition, with ignoring duplicates.
  The claims never change where money goes: a re-published event has a new message id, and the
  transfer's status stops it in every run, whatever claims expire (`ClaimsDoNotMoveMoney`).
- `DESIGN.md` credits the `lastSweptAt` filter with preventing double refunds. No pending transfer
  ever has one, so the filter never excludes anything (`StaleByAge`).

## Model

| member | source | states |
|---|---|---|
| Guarantees.ExactlyOnce | src/queue/transfer-events.consumer.ts:77-128 | in every reachable state a transfer has one debit at its sender; one credit, at the receiver, iff completed; one refund, at the sender, iff failed; nothing else, and every leg has its amount |
| Guarantees.SettledForever | src/workers/pending-transfer.worker.ts:51-61 | a completed or failed transfer and its transactions never change again, whatever steps follow |
| Guarantees.Conservation | src/wallets/wallets.service.ts:186-273 | per currency, money in wallets plus money in pending transfers is deposits less withdrawals |
| Guarantees.BalanceInClosedForm | src/wallets/wallets.service.ts:88-286 | a balance is deposits less withdrawals, less non-failed transfers out, plus completed transfers in, and is never negative |
| Guarantees.BalancesDoNotDependOnInterleaving | src/queue/transfer-events.consumer.ts:91-124 | runs with the same multiset of deposits and withdrawals at a wallet and the same multiset of transfers with their final states, created and settled in any orders, end in the same balance |
| Guarantees.RunningBalanceChain | src/ledger/ledger.service.ts:51-72 | each entry's `balanceAfter` is the wallet's previous one moved by the entry, none is negative, and the last is the stored balance |
| Guarantees.EventFidelity | src/wallets/wallets.service.ts:261-270 | each transfer has exactly one event, in creation order; every event and message carries its transfer's wallets and amount; no delivery finds anything missing and none is dead-lettered |
| Guarantees.ClaimedMeansSettled | src/queue/transfer-events.consumer.ts:78-101 | a message that is claimed, returned or acked is about a settled transfer, so dedup never swallows a needed credit |
| Expiry.ClaimsDoNotMoveMoney | src/queue/schemas/inbox-message.schema.ts:8-12 | whole runs that differ only in when claims expire and when messages are acked agree on wallets, transfers, transactions, ledger, outbox, cache and what was published |
| Guarantees.NoTransferIsLost | src/workers/outbox-relay.worker.ts:29-34 | a pending transfer's event is unpublished, or a queued and unclaimed message carries it |
| Guarantees.DeliveryCompletes | src/queue/transfer-events.consumer.ts:90-124 | delivering any message about a pending transfer completes it and credits the receiver with its amount in one posting; nothing else changes but the receiver's cache entry and the claim |
| Guarantees.DuplicateOnlyClaims | src/queue/transfer-events.consumer.ts:96-101 | delivering a message about a settled transfer claims the message and does nothing else |
| Outcomes.FailedWasStale | src/workers/pending-transfer.worker.ts:29-61 | a failed transfer was pending and older than the cutoff when an earlier sweep of the run listed it, and an item of that sweep failed it |
| Outcomes.YoungTransfersNeverFail | src/workers/pending-transfer.worker.ts:31-40 | a transfer that is not older than any cutoff used never fails |
| Outcomes.CompletedWasDelivered | src/queue/transfer-events.consumer.ts:90-94 | a completed transfer was completed by a delivery of a message that announced it |
| Outcomes.QueryAnswers | src/workers/pending-transfer.worker.ts:34-43 | in every reachable state the stale query answers distinct pending transfers older than the cutoff, at most 100, and leaves one out only at 100 |
| Outcomes.AnswerExists | src/workers/pending-transfer.worker.ts:34-43 | the query always has such an answer |
| Outcomes.RefundPaysBack | src/workers/pending-transfer.worker.ts:48-83 | on any store a refund fails a pending transfer and pays its sender back in one posting, and leaves a settled one alone |
| Handling.HandlingIsRight | src/queue/transfer-events.consumer.ts:45-69 | a delivery whose session ends well is acked with its transfer settled, unless the message was claimed and that ends the session badly; a session that fails before its commit changes nothing; one that commits and reports an error leaves the message unacked and the transfer settled |
| Handling.ExpiredClaimIsAcked | src/queue/schemas/inbox-message.schema.ts:11-12 | a requeued duplicate is acked once its claim has expired, without moving money |
| Handling.BrokenEvents | src/queue/transfer-events.consumer.ts:97-112 | on any store an unknown transfer is skipped and acked, and a missing receiver rolls back and dead-letters the message |
| Guarantees.CacheLagIsTheRefunds | src/wallets/wallets.service.ts:73-86 | the reported balance is the stored one less the refunds since it was cached; equal iff there were none |
| Progress.PendingTransferCanComplete | src/workers/outbox-relay.worker.ts:23-40 | from every reachable state, with any instance, restarted if it is amid a run, an explicit schedule of relay runs and one delivery completes exactly a pending transfer |
| Progress.RunOutcome | src/workers/outbox-relay.worker.ts:23-40 | however its calls go, a run works through the fetched batch in order up to the first failure: which events are sent, which are marked, with which messages, and whether the run finished |
| Progress.FetchedEvents | src/outbox/outbox.service.ts:20-26 | a fetch takes exactly the pending events with fewer than 50 older pending ones, oldest first |
| Progress.RunsPublish | src/outbox/outbox.service.ts:20-33 | older/50 + 1 failure-free runs of any idle instance publish an event with that many older pending ones; other instances may hold runs but take no step meanwhile |
| Progress.BatchMembers | src/outbox/outbox.service.ts:20-26 | an event is in the fetched batch iff it is pending and fewer than the limit of older events are |
| RelayOrder.PublishedInOrder | src/workers/outbox-relay.worker.ts:30-34 | with any number of instances the published events are always a prefix of enqueue order, and before any copy of an event every older event has been published, whatever calls fail or processes crash |
| RelayOrder.DuplicateBound | src/workers/outbox-relay.worker.ts:23-40 | with k instances publishes are at most k for each published event, plus aborted runs, plus the items now between publish and mark |
| Interference.RunStaysInHand | src/workers/outbox-relay.worker.ts:23-27 | steps of others and overlapping ticks of its own timer leave an instance's run in hand, and its count of finished runs, as they were |
| RelayDelay.DelayBound | src/workers/outbox-relay.worker.ts:29-38 | with any number of instances, an event with r older pending ones is published once any one instance finishes r/50 + 1 further runs, not counting the run it has in hand, however many runs abort and whatever else happens |
| RelayDelay.FindPendingCovers | src/outbox/outbox.service.ts:20-26 | the fetched batch contains a pending event or, once marked, leaves 50 fewer pending events before it |
| SweepProgress.StaleByAge | src/workers/pending-transfer.worker.ts:34-43 | a pending transfer was never swept, so it is stale iff it is older than the cutoff |
| SweepProgress.CleanSweepSettles | src/workers/pending-transfer.worker.ts:45-90 | after a sweep without errors everything on its list is settled, whatever ran in between |
| SweepProgress.WindowDrains | src/workers/pending-transfer.worker.ts:33-43 | a clean sweep amid other steps removes 100 stale transfers or all of them |
| SweepProgress.BacklogDrains | src/workers/pending-transfer.worker.ts:29-91 | while nothing else becomes stale, k stale transfers are all settled after ceil(k/100) clean sweeps |
| Idempotency.AllOrNothing | src/wallets/wallets.service.ts:197-283 | on any store a request appends exactly its transfer, its debit's transaction, the mirroring entry and its event, and debits only the sender; or it changes nothing, and exactly then reports an error or an existing transfer |
| Idempotency.AcceptedExactlyWhen | src/wallets/wallets.service.ts:186-223 | on any store a transfer is created iff the wallets differ and exist, the balance covers the amount, the currencies agree and the key is absent or unused; each failed check has its error, in the code's order |
| Idempotency.OneTransferPerKey | src/wallets/schemas/transfer.schema.ts:48-49 | a key names at most one transfer in every reachable state |
| Idempotency.RetryWithUsedKey | src/wallets/wallets.service.ts:205-223 | a request with a used key changes nothing; if the wallet, currency and balance checks pass it returns the first transfer, or for a null or empty key the index violation, else an error |
| Idempotency.SameRequestAgain | src/wallets/wallets.service.ts:274-280 | the identical request returns the first transfer iff the sender could afford it again, else reports insufficient balance |
| Requests.DepositAllOrNothing | src/wallets/wallets.service.ts:88-133 | on any store a deposit goes through iff the wallet exists, and then raises its balance by the amount, appends its transaction, entry and event, writes the cache and changes nothing else |
| Requests.WithdrawalAllOrNothing | src/wallets/wallets.service.ts:135-184 | a withdrawal goes through iff the wallet exists and holds at least the amount; the whole change, and the error otherwise |
| Requests.WalletIsCreated | src/wallets/wallets.service.ts:38-71 | a new wallet is empty, has the currency asked for or else GHS, and is announced; nothing else changes |
| Requests.ReadingKeepsTheAnswer | src/wallets/wallets.service.ts:79-85 | a read leaves a cached balance as it is, caches the stored one when there is none, and never changes what the next reader of any wallet is told |
| Requests.ExpiryEndsStaleness | src/redis/redis.service.ts:31-38 | once its cache entry has expired a wallet's stored balance is reported again |
| Examples.RetryCanFail | src/wallets/dto/transfer.dto.ts:20-26 | a concrete run in which the identical retry of an accepted transfer is refused |
| Examples.CachedBalanceCanBeStale | src/workers/pending-transfer.worker.ts:63-82 | a concrete run after which the reported balance is 0 and the stored one 100 |
| Examples.CleanSweepHappens | src/workers/pending-transfer.worker.ts:34-61 | a concrete clean sweep that empties a backlog of one |
| Examples.ExampleState | src/wallets/wallets.service.ts:196-273 | the state that the two concrete runs start from |
| Invariant.StepKeeps | src/queue/transfer-events.consumer.ts:45-100 | every step of every actor keeps the whole invariant and undoes no history |
| Invariant.RunKeeps | src/workers/pending-transfer.worker.ts:45-83 | the invariant holds after any steps; transactions and entries only grow and transfers only advance |
| Invariant.CreditKeeps | src/queue/transfer-events.consumer.ts:90-124 | the crediting commit, which uses the event's receiver and amount, keeps the invariant and settles the message's transfer |
| Invariant.RefundKeeps | src/workers/pending-transfer.worker.ts:51-82 | the refunding commit keeps the invariant and leaves its transfer settled |
| Invariant.MarkKeeps | src/outbox/outbox.service.ts:28-33 | marking, however the call ends, keeps the invariant: only events that were sent become published |
| Settlement.OpenKeepsSound | src/wallets/wallets.service.ts:225-270 | accepting a transfer keeps the books, exactly-once legs, closed form and conservation |
| Settlement.CloseKeepsSound | src/queue/transfer-events.consumer.ts:103-124 | so does closing a pending transfer with its credit or its refund |
| Settlement.FlowKeepsSound | src/wallets/wallets.service.ts:95-127 | so does a deposit, or a withdrawal that the balance covers |
| Settlement.NewWalletKeepsSound | src/wallets/wallets.service.ts:43-65 | so does a new wallet |
| Books.PostKeepsBalanced | src/wallets/wallets.service.ts:144-168 | a posting the balance covers keeps one entry per transaction, the running-balance chain and ledger-explained, non-negative balances |
| Books.RunningBalances | src/ledger/schemas/ledger-entry.schema.ts:22-26 | the chain of running balances, entry by entry |
| Books.LatestRunningBalance | src/wallets/wallets.service.ts:97-117 | the last running balance of a wallet is its stored balance |
| Reports.RecomputationsAgree | src/ledger/ledger.service.ts:82-111 | on any ledger the fold and the grouped sum both compute the wallet's net |
| Reports.ReconcileDetects | src/wallets/wallets.service.ts:340-355 | on any store, even a corrupted one, reconciliation reports the stored balance, the ledger's net, their difference, and in sync iff they agree; it errs iff the wallet is missing |
| Reports.AlwaysInSync | src/wallets/wallets.service.ts:346-354 | in every reachable state reconciliation reports difference 0 |
| Reports.DashboardTotals | src/wallets/wallets.service.ts:294-313 | total deposited less total withdrawn is the balance |
| Dashboard.DashboardInClosedForm | src/wallets/wallets.service.ts:294-313 | total deposited is deposits plus completed transfers received plus refunds; total withdrawn is withdrawals plus every transfer sent, refunded or not |
| Dashboard.TotalsByKind | src/wallets/wallets.service.ts:300-309 | on any store each total adds up exactly its two types of transaction |
| Reports.TransactionsAndEntriesCorrespond | src/ledger/ledger.service.ts:17-49 | each transaction has exactly one entry, with its wallet, amount, running balance and the direction of its type |
| Reports.RecentIds | src/wallets/wallets.service.ts:315-316 | the recent list is the wallet's newest transactions, newest first, without gaps |
| Reports.AuditTrailIsComplete | src/ledger/ledger.service.ts:113-136 | the audit trail lists exactly the wallet's entries, in the direction asked for, latest first; every page shows its part and the total, and the pages together show them all |
| Reports.TransactionListingIsComplete | src/transactions/transactions.service.ts:49-72 | the same for the transaction listing with its optional wallet and type |
| Reports.AuditTrailSkipsNothing | src/wallets/wallets.service.ts:357-363 | paging while the system runs on shows every entry that was there at page one: its id is item q of page j + 1, and the item is that entry |
| Reports.TransactionListingSkipsNothing | src/transactions/transactions.service.ts:49-72 | the same for the transaction listing, by transaction id |
| Paging.PagesCoverTheListing | src/ledger/ledger.service.ts:124-131 | skip and limit cut a listing into pages that concatenate to it |
| Paging.NothingIsSkipped | src/transactions/transactions.service.ts:61-69 | over a growing collection, for any filter, each original element's id is at a given place of a page that was read |
| Paging.IdsComplete | src/transactions/transactions.service.ts:61-69 | the listing holds each matching document at exactly one place |
| Domain.OnlyTransferEventsAreRouted | src/queue/rabbitmq.service.ts:43 | the binding `transfer.*` matches the routing key of transfer events and of no other event |
| Database.FindByKey | src/wallets/wallets.service.ts:277-278 | the key lookup finds a transfer with the key iff there is one |
| Database.PendingFrom | src/outbox/outbox.service.ts:21-25 | the batch holds pending events only, oldest first, up to the limit |
| WalletOperations.WalletsService.CreateWallet | src/wallets/wallets.service.ts:38-71 | the in-place operation is one client step and returns the stored wallet |
| WalletOperations.WalletsService.Deposit | src/wallets/wallets.service.ts:88-133 | likewise; it returns the wallet with the raised balance, or the error when there is no such wallet |
| WalletOperations.WalletsService.Withdraw | src/wallets/wallets.service.ts:135-184 | likewise; it returns the wallet with the lowered balance whenever the balance covers the amount, and which error otherwise |
| WalletOperations.WalletsService.Transfer | src/wallets/wallets.service.ts:186-286 | debiting first, checking later and rolling back amounts to one all-or-nothing client step, with the error or transfer returned; a transfer is added iff the checks pass and the key is unused |
| WalletOperations.WalletsService.GetWallet | src/wallets/wallets.service.ts:73-86 | the read-through cache: it answers the reported balance of the state before, leaves the cache alone on a hit and adds exactly the stored balance on a miss |
| WalletOperations.WalletsService.GetDashboard | src/wallets/wallets.service.ts:288-338 | the totals, how many transactions the wallet has, and for each of its ten most recent ones exactly its entries in the ledger |
| WalletOperations.GroupByTransaction | src/wallets/wallets.service.ts:319-329 | one pass groups entries so that each transaction's group is exactly its entries, in order |
| BackgroundWorkers.TransferEventsConsumer.CompleteTransfer | src/queue/transfer-events.consumer.ts:71-136 | claim, compare-and-set, credit and the rollback on a missing receiver amount to the atomic commit |
| BackgroundWorkers.TransferEventsConsumer.HandleMessage | src/queue/transfer-events.consumer.ts:45-69 | handling a delivery is a consume step and, iff the closure returned, an ack, with any steps of others in between; from a state that meets the invariant it comes to what `HandlingIsRight` says |
| BackgroundWorkers.PendingTransferWorker.RefundOne | src/workers/pending-transfer.worker.ts:48-83 | one item's session is the atomic refund, even if its commit then reports an error, or nothing when it fails before |
| BackgroundWorkers.PendingTransferWorker.Sweep | src/workers/pending-transfer.worker.ts:29-91 | the loop is a fetch step and one item step per transfer, failures included, with any steps of others before each item; every transfer whose session took effect ends settled |
| BackgroundWorkers.OutboxRelayWorker.Publish | src/queue/rabbitmq.service.ts:50-57 | a publish adds one message with a fresh id, queued iff routed |
| BackgroundWorkers.OutboxRelayWorker.Relay | src/workers/outbox-relay.worker.ts:23-40 | a run, with any pattern of failing calls and any steps of others before each call, even overlapping ticks of its own timer, is a fetch step and publish and mark steps up to the first failure; the flag is cleared; a second call while it is set does nothing |

## Left out

- MongoDB, Redis and RabbitMQ clients: they appear as a transactional store, a map with arbitrary expiry and a bag of messages with redelivery.
- Deadlock freedom from sorting wallet ids: the database's locking decides it.
- A cache write followed by a failed commit, and a `getWallet` interleaved with a write: the code does not order them.
- Retries of a closure inside `withTransaction`: a retried closure is taken as the one that commits.
- Events without a message id, malformed JSON and validation errors in the consumer: the platform's own publisher produces none.
- Numeric rounding and overflow: amounts are unbounded positive integers; page and limit below one are not modelled.
- The document fields `version`, `failureReason`, `publishedAt` and the transaction status, which is always COMPLETED.
- Trimming of `ownerName`, and a client's reference text that looks like a refund's: the model keeps the two kinds of reference apart, and nothing that moves money reads either.
- `reference` as an idempotency key on deposits and withdrawals: it is stored but nothing enforces it.
- `WalletEventsWorker`, authentication, guards, throttling, health, logging, controllers and the seed script: plumbing, or data that breaks the invariants on purpose.
