# wolf-core, verified

A Dafny model of the parts of wolf-core that have to hold up under failure and concurrency, with proofs
over every input, every run and every interleaving. Database statements, broker calls and channel
operations are single steps; what the outside answers is left open.

- **Outbox relay** (`OutboxTable`, `OutboxProtocol`, `OutboxGuarantees`, `OutboxWorker`, `OutboxDrain`,
  `OutboxRefinement`). A step machine in which any number of workers claim, publish, dead-letter, mark,
  release, crash and are overtaken. The worker's poll is also written as it runs, on classes, and shown to be
  a run of the machine.
- **Dependency ordering** (`Dependencies`). Kahn's algorithm as the seeders and modules use it, sound and
  complete for every iteration order of its maps.
- **Consumers** (`Inbox`): the deduplicating middleware and the insert-first processor.
- **Caches and limits** (`SessionCache`, `LocalCache`, `SlidingWindow`, `FixedWindow`): how stale an answer,
  how many calls in a window, each with a proof that the bound is reached.
- **Messenger** (`Messenger`, `MessengerRelay`, `MemoryTransport`): stamps, the outbox transport and its
  workers, the channel transport.
- **Unit of work** (`UnitOfWork`): aggregates, transactions, and where every event ends up.
- **Structured concurrency** (`Shutdown`, `Sharded`).

Each machine has the same shape: a `State`, a `Label` per atomic action, `Enabled`, `Apply`, `Runs`, an
invariant kept by every step, and theorems about all reachable states. Where an operation is also written as
a method, a lemma shows that a call nobody interrupts is a run of the machine. `dafny verify dfyconfig.toml`
checks everything.

## What the code does not promise

Several properties one would expect, or that a comment states, do not hold of the code as it stands. For
each there is a witness and the exact condition under which it does hold.

| expectation | witness | holds exactly when |
|---|---|---|
| no outbox event is lost | `LossPossible` | every claiming worker has a dead letter queue (`NoLossIffDeadLetterQueue`) |
| the processor starts a handler once between two clean-ups | `PendingWinnerReachable` | no delivery had won the marker and not yet started (`OnceIffNoPendingWinner`) |
| a local cache answer is at most the TTL old | `LagIsVisible` | calls insert what they read without lag (`StaleAtMostTtlIffNoLag`) |
| the local cache cannot be told from the remote one | `OverlapBreaksEquality`, `HalfWaySetBreaksEquality` | calls do not overlap and no failed Set takes effect on a key with another local value (`EqualIff`) |
| a release gives back the worker's own lease | `LateReleaseTakesLease` | not two workers claim of which one can fail (`LeaseCanBeTakenIff`) |
| an accepted session is recent news | `UnboundedWithoutChecker` | a session checker is set (`FreshIffChecker`) |
| a failed unit of work keeps the events for a retry (uow/unit_of_work.go:36-39) | `RetryAfterFailedCommitLosesEvent` | no call drains it and then fails at an insert or the commit (`MissingIff`, `KeepsEventsIff`) |
| the sharded call returns the first error encountered (infra/concurrency/sharded.go:48-53) | `LaterErrorReturned`, `CancelledErrorReturned` | no shard but the first can fail by itself and the caller does not cancel, or there is one shard (`ReturnsFirstIff`) |
| a rejected message is requeued or reported | `PanicReachable` | the transport is not closed between a rejection's look and its push (`CloseIsSafeIffQuiet`) |
| at most 2 * rate calls meet any interval of one window | none, the bound is not sharp | 2 * rate - 1 is the sharp bound (`AtMostTwiceLessOne`, `BoundIsTight`) |

Other places where code and comments differ, and the model follows the code: the dead letter store says it
rejects duplicate ids and ignores them (infra/events/deadletter/store.go:52-78); the middleware's type comment
puts the marker before the handler and the code writes it after (infra/events/inbox/middleware.go:27-30, 98-104);
the memory transport's `Close` is said to return a count and returns none
(messenger/transport/memory/transport.go:117-123).

## Assumptions

Event ids are never used twice and lease tokens are fresh. The clock does not go back. A failed commit
leaves the database unchanged. A revocation in the database is not undone. A channel has room for at least
one message. A remote cache write that reports a failure may have taken effect or not. The blacklist, the
broker, the database and user callbacks may answer anything, at any time, unless a contract says otherwise.

## Model

| member | source | states |
|---|---|---|
| `OutboxTable.SelectForUpdate` | infra/events/outbox/store.go:198-239 | What the claiming select returns while other transactions hold locks: unlocked, unpublished rows whose lease is free or expired, oldest first, as many as the limit allows, and none older left behind. |
| `OutboxTable.SelectionExactly` | infra/events/outbox/store.go:198-239 | Spelled out: a returned row is unlocked, unpublished and unclaimed or claimed more than 300 s ago; such a row is passed over only when the limit is used up by rows not younger. |
| `OutboxTable.Store.Insert` | infra/events/outbox/store.go:93-129 | A row is added exactly when its id is new; otherwise the table is unchanged. |
| `OutboxTable.Store.ClaimBatch` | infra/events/outbox/store.go:185-261 | The entries are a correct selection and carry id, body, retry count and last error of the rows before the claim; exactly those rows get the token and the claim time. |
| `OutboxTable.Store.ClaimEntries` | infra/events/outbox/store.go:348-360 | Every listed row, and no other, gets the token and the claim time. |
| `OutboxTable.Store.MarkPublished` | infra/events/outbox/store.go:329-345 | Of the listed rows exactly those that still carry the caller's token become published. |
| `OutboxTable.Store.ReleaseClaims` | infra/events/outbox/store.go:291-323 | Every listed row, whatever its token or publication, loses its claim and gains one retry and an error given for it; if none is listed twice, the error of its own entry. No other row changes. |
| `OutboxTable.OwnErrors` | infra/events/outbox/store.go:307-316 | When no row is listed twice the join gives each row the error of its own entry. |
| `OutboxTable.Store.Cleanup` | infra/events/outbox/store.go:422-445 | Rows unpublished, or published at or after the cutoff, stay as they are; at most 10000 others go, and all of them when fewer. |
| `OutboxMessages.IdentityHeadersSurvive` | infra/events/stream_publisher.go:29-74 | No metadata value can hide the event id, event type or time header of a message. |
| `OutboxMessages.AggregateHeadersSurvive` | infra/events/stream_publisher.go:29-74 | Nor the aggregate id, aggregate type or version header. |
| `OutboxMessages.MetadataTravels` | infra/events/stream_publisher.go:29-74 | Message and dead letter show each non-empty metadata field under its own name, and no empty one. |
| `OutboxMessages.DeadLetterTells` | infra/events/outbox/worker.go:367-397 | A dead letter names aggregate and event type, the last error and the number of attempts, whatever the metadata. |
| `OutboxProtocol.StepKeepsInv` | infra/events/outbox/worker.go:224-397 | Every step of any worker, producer, clean-up, crash or clock keeps: rows hold what was committed, published rows are settled, sessions settle only what they claimed, nothing is sent that was not committed under that id. |
| `OutboxProtocol.RunKeepsInv` | infra/events/outbox/worker.go:224-397 | The same over whole runs. |
| `OutboxGuarantees.NoEventLost` | infra/events/outbox/worker.go:224-298 | With a dead letter queue for every claiming worker, in every reachable state of any number of workers each committed event is an unpublished row, or was acknowledged by the broker, or is dead-lettered. |
| `OutboxGuarantees.CleanupDeletesOnlyDelivered` | infra/events/outbox/store.go:422-445 | A row that a clean-up deletes was acknowledged or dead-lettered. |
| `OutboxGuarantees.CleanupSpares` | infra/events/outbox/store.go:422-445 | No clean-up step deletes a row that is unpublished or was published at or after its cutoff, nor more than 10000 rows. |
| `OutboxGuarantees.LossPossible` | infra/events/outbox/worker.go:338-363 | Any claiming worker without a dead letter queue has a run that marks an event published which nobody received. |
| `OutboxGuarantees.NoLossIffDeadLetterQueue` | infra/events/outbox/worker.go:338-397 | No run loses an event exactly when every worker that claims rows has a dead letter queue. |
| `OutboxGuarantees.RedeliveryIsIdentical` | infra/events/outbox/worker.go:400-413 | All publish calls for one row, by any workers, carry the same message, with the committed id, type as name and subject, and payload. |
| `OutboxGuarantees.DeadLettersCarryTheEvent` | infra/events/outbox/worker.go:367-397 | A dead letter has the id, payload, type and creation time of the event committed under that id. |
| `OutboxGuarantees.DeadLettersAreExhausted` | infra/events/outbox/worker.go:338-397 | In every run a dead letter has used up the retries of some worker with a dead letter queue. |
| `OutboxGuarantees.LeaseSpacing` | infra/events/outbox/store.go:185-261 | Two claims of one row with no release of it in between are more than the lease timeout apart, over every run. |
| `OutboxGuarantees.OrphanIsReclaimed` | infra/events/outbox/store.go:185-261 | An unpublished row that is unclaimed, or claimed more than 300 s ago, is taken by the next claim that has room. |
| `OutboxGuarantees.CrashedWorkIsReclaimed` | infra/events/outbox/store.go:185-261 | A crash changes nothing stored or sent, and after the lease the next claim with room gets the crashed worker's unpublished rows again. |
| `OutboxGuarantees.StaleMarkIsHarmless` | infra/events/outbox/store.go:329-345 | Once a row was claimed again, a mark under the earlier token never changes it, however long after. |
| `OutboxGuarantees.OneLeaseHolder` | infra/events/outbox/store.go:348-360 | At most one worker holds the token that a row carries. |
| `OutboxGuarantees.LateReleaseTakesLease` | infra/events/outbox/store.go:291-323 | A run in which a worker whose lease ran out releases the row and so clears the lease of its new holder. |
| `OutboxGuarantees.LeaseCanBeTakenIff` | infra/events/outbox/store.go:270-323 | Some run lets a release take another worker's lease exactly when two workers claim rows and one of them can fail to deliver. |
| `OutboxWorker.DeadLetters.Insert` | infra/events/deadletter/store.go:56-78 | The first letter under an id stays; a second insert changes nothing and is no error. |
| `OutboxWorker.Worker.HandleExhaustedEntry` | infra/events/outbox/worker.go:338-363 | An exhausted entry is dead-lettered, or passes without error when there is no queue; a failed insert is reported. |
| `OutboxWorker.Worker.DeliverBatch` | infra/events/outbox/worker.go:245-270 | The loop over the entries yields the published and failed lists, broker calls and dead letters of the fold over the entries. |
| `OutboxWorker.Worker.Poll` | infra/events/outbox/worker.go:224-298 | One poll: a correct selection, then table, broker and queue as the fold of the entries, the mark and the release leave them, whichever of claim, publish, dead letter, mark and release fail and however much time passes in between. |
| `OutboxWorker.DeliverOnTop` | infra/events/outbox/worker.go:245-270 | What broker and queue held before a poll only stands before what the poll adds. |
| `OutboxWorker.DeliverAllAt` | infra/events/outbox/worker.go:245-270 | Each entry lands in exactly one of the two lists, as its outcome says, with its own error. |
| `OutboxWorker.FailedDistinct` | infra/events/outbox/worker.go:245-270 | No row is released twice in one poll. |
| `OutboxRefinement.PollIsRun` | infra/events/outbox/worker.go:224-298 | A whole poll, also one whose claim fails, is a run of the step machine, from any state with the worker idle and the token fresh, and leads to table, broker log and queue in the form that Poll states them. |
| `OutboxDrain.PollLowersMeasure` | infra/events/outbox/worker.go:224-298 | Against any broker each undisturbed poll lowers the sum of remaining costs by at least the number of rows it claimed. |
| `OutboxDrain.PollFindsWork` | infra/events/outbox/store.go:185-261 | An undisturbed poll of an outbox with waiting rows claims some. |
| `OutboxDrain.Drains` | infra/events/outbox/worker.go:224-298 | Once the leases standing at the start have run out, the outbox is empty after at most as many undisturbed polls as the measure says, even if every publish fails. |
| `OutboxDrain.SendsCountsAttempts` | infra/events/outbox/worker.go:302-332 | The count used in the bound below is the number of publish calls in the broker log. |
| `OutboxDrain.AttemptsBounded` | infra/events/outbox/worker.go:224-298 | Over any number of polls a row is handed to the broker at most maxRetries minus its retry count times. |
| `OutboxDrain.AttemptsExact` | infra/events/outbox/worker.go:224-298 | If no publish of a row ever succeeds and polls go on until it is settled, it was handed to the broker exactly maxRetries minus its retry count times. |
| `Kahn.InitialQueue` | infra/seed/sort.go:41-52 | In-degrees count every declared dependency, repeats included, and the queue starts with exactly the names that have none. |
| `Kahn.ReverseDeps` | infra/seed/sort.go:54-60 | For every iteration order of the map, each name lists its dependents as often as they declare it. |
| `Kahn.Place` | infra/seed/sort.go:62-74 | Taking a name off the queue lowers exactly its dependents, and each joins the queue once, when its last dependency is placed. |
| `Kahn.Sort` | infra/seed/sort.go:41-80 | For every iteration order: no name twice, dependencies first, and complete exactly when the graph, self-loops and repeats included, has no cycle. |
| `Kahn.Complete` | infra/seed/sort.go:76-79 | When the queue runs dry, something is missing exactly when there is a cycle. |
| `DependencyGraph.OrderedIsAcyclic` | infra/seed/sort.go:41-80 | A graph with a dependencies-first order of all its names has no cycle. |
| `DependencyGraph.StuckIsCyclic` | infra/seed/sort.go:76-79 | Names that each wait for another one of them contain a cycle. |
| `Components.FindMissing` | infra/seed/sort.go:27-38 | Finds the first dependency of a component that nobody registered, if there is one. |
| `Components.BuildDeps` | infra/seed/sort.go:27-38 | Returns the dependency map, or the first unregistered dependency in registration then declaration order. |
| `Components.TopologicalSort` | infra/seed/sort.go:8-24 | Success: the same components, dependencies first. Cycle error exactly on a cycle. Otherwise the first unregistered dependency. |
| `Components.Registry.Register` | infra/modular/registry.go:47-55 | Accepted exactly when the name is new; names stay unique. |
| `Components.Registry.HasDependencies` | infra/modular/registry.go:68-75 | True exactly when some component declares a dependency. |
| `Components.Registry.Modules` | infra/modular/registry.go:61-140 | The same correctness for the boot order, and the shortcut without dependencies returns the sequence the full sort would. |
| `Components.NothingToSort` | infra/modular/registry.go:61-66 | Registration order is a correct boot order when nobody declares a dependency. |
| `SessionCache.StepKeepsInv` | infra/auth/jwt_service.go:255-299 | Every atomic action of concurrent checks, revocations and clock keeps each cache entry and each check tied to an instant at which the session was unrevoked. |
| `SessionCache.StalenessBounded` | infra/auth/jwt_service.go:255-299 | With a checker, a check accepted at clock reading n implies the session was unrevoked at some reading later than n minus 30 seconds, in every interleaving. |
| `SessionCache.BoundIsTight` | infra/auth/jwt_service.go:255-299 | That bound is reached to the nanosecond. |
| `SessionCache.UnboundedWithoutChecker` | infra/auth/jwt_service.go:255-270 | Without a checker a session is accepted any given time after its revocation. |
| `SessionCache.FreshIffChecker` | infra/auth/jwt_service.go:255-299 | Acceptances are that fresh in every run exactly when a checker is attached. |
| `SessionCache.UninterruptedCheck` | infra/auth/jwt_service.go:255-299 | The verdict of a check nobody interrupts, from any state of the machine, with or without a checker, and the cache it leaves. |
| `SessionCache.AloneCheck` | infra/auth/jwt_service.go:255-299 | The same in terms of the answers alone: the database is asked exactly for an unlisted session with no entry or one that has run out, and an active answer is kept for 30 s. |
| `SessionCache.CallIsFresh` | infra/auth/jwt_service.go:255-299 | A whole check accepts a session revoked in the database only if that is less than 30 s old, in every reachable state. |
| `SessionCache.RevocationIsImmediate` | infra/auth/jwt_service.go:335-339 | After RevokeSession on this instance the next check asks the database and rejects. |
| `SessionCache.JwtService.CheckSessionRevocation` | infra/auth/jwt_service.go:255-299 | Verdict and cache are those of a run of the machine for the same answers, errors and a missing checker included; the blacklist is backfilled for a session found revoked. |
| `SessionCache.JwtService.RevokeSession` | infra/auth/jwt_service.go:335-339 | The session's cache entry, and no other, is dropped in any case; the blacklist entry is written, or the error of that write returned. |
| `InboxStore.Store.MarkProcessed` | infra/events/inbox/store.go:49-66 | Inserts exactly when the id is new, and says so. |
| `InboxStore.Store.Cleanup` | infra/events/inbox/store.go:71-79 | Deletes exactly the markers older than the cutoff and counts them. |
| `InboxStore.WrapOnce` | infra/events/inbox/middleware.go:71-113 | Handler runs exactly for an unmarked id after a successful check; nil exactly on a skip or a success; the marker is written after success only. |
| `InboxStore.ProcessOnce` | infra/events/inbox/processor.go:43-73 | Handler runs exactly for the call that inserted the marker; the marker stays when the handler fails. |
| `InboxMiddleware.NilMeansHandled` | infra/events/inbox/middleware.go:71-113 | In every interleaving a marker, and a nil return, stands for a handler success at or before it. |
| `InboxMiddleware.MarkedIsSkipped` | infra/events/inbox/middleware.go:71-113 | Once a marker stands, no delivery of that id that starts later runs the handler before a clean-up of the id. |
| `InboxMiddleware.UninterruptedDelivery` | infra/events/inbox/middleware.go:71-113 | A delivery on its own, as a run: when the handler runs, when a marker is left, what is returned, for every answer of table and handler. |
| `InboxMiddleware.SecondDeliveryIsSkipped` | infra/events/inbox/middleware.go:71-113 | After a delivery that succeeded and was marked, a later one of the id does not run the handler before a clean-up of it, whatever happens in between. |
| `InboxMiddleware.OverlapRunsTwice` | infra/events/inbox/middleware.go:71-113 | Overlapping deliveries can both run the handler: delivery is at least once. |
| `InboxProcessor.StartsBounded` | infra/events/inbox/processor.go:43-73 | Between two clean-ups the handler starts at most once per delivery that had already won, and once more. |
| `InboxProcessor.BudgetReached` | infra/events/inbox/processor.go:43-73 | From every state some run reaches that bound. |
| `InboxProcessor.OnceIffNoPendingWinner` | infra/events/inbox/processor.go:43-73 | After a clean-up of an id, at most one start until the next one exactly when no delivery had won the marker without having started. |
| `InboxProcessor.PendingWinnerReachable` | infra/events/inbox/processor.go:43-73 | A reachable state in which that condition fails. |
| `InboxProcessor.StartsPerCleanup` | infra/events/inbox/processor.go:43-73 | Over a whole run: one start, and one more per clean-up of the id. |
| `Envelopes.LastIsGreatest` | messenger/envelope.go:91-98 | Last finds the stamp of that name with the greatest position, or none. |
| `Envelopes.LastAfterStamp` | messenger/envelope.go:62-98 | A new stamp decides Last for its own name and for no other. |
| `Envelopes.EncodeStamps` | messenger/serde/json.go:87-100 | Succeeds exactly when every stamp marshals, and then writes all of them, in order. |
| `Envelopes.DecodeStamps` | messenger/serde/json.go:103-114 | The loop keeps, in order, what decodes and drops the rest. |
| `Envelopes.StampsRoundTripIff` | messenger/serde/json.go:87-187 | For any JSON codec, encoding then decoding keeps exactly the stamps of known kinds, in order, if and only if each of those is read back by itself as it was written. |
| `Envelopes.OldOutboxIdSurvives` | messenger/serde/json.go:116-187 | An outbox id stamp of an earlier trip is there again after a round trip, whatever becomes of the other stamps. |
| `Envelopes.ForceSyncSurvives` | messenger/serde/json.go:116-187 | A force-sync stamp survives the round trip under every codec; stamps of unknown kinds survive under none. |
| `OutboxTransport.LeadsBack` | messenger/transport/outbox/transport.go:90-160 | Whatever stamps the payload carried, older outbox ids included, a fetched envelope names its own row, also after the worker stamped it. |
| `OutboxTransport.UndecodableKeepsBodies` | messenger/transport/outbox/transport.go:101-119 | Rows that do not decode stay, with what was inserted. |
| `OutboxTransport.QueryExactly` | messenger/transport/outbox/postgres_store.go:97-128 | Spelled out: which rows a query returns, with the claim timeout in whole seconds, row locks passed over only when claiming, and when a row is left behind. |
| `OutboxTransport.DecodableAt` | messenger/transport/outbox/transport.go:101-119 | Each row that decodes gives one envelope, stamped with its id, at its place among those that decode. |
| `OutboxTransport.UndecodableAt` | messenger/transport/outbox/transport.go:101-119 | Exactly the rows that do not decode, and whose update goes through, gain a retry and lose the claim. |
| `OutboxTransport.PostgresStore.GetUnpublished` | messenger/transport/outbox/postgres_store.go:90-128 | The oldest unpublished rows under the retry limit with a free or timed-out claim, in any order when claiming and oldest first otherwise; they alone are claimed, or nothing when claiming is off. |
| `OutboxTransport.PostgresStore.MarkPublished` | messenger/transport/outbox/postgres_store.go:155-161 | The row, if present, becomes published and unclaimed; no other changes. |
| `OutboxTransport.PostgresStore.IncrementRetry` | messenger/transport/outbox/postgres_store.go:165-174 | The row, if present, gains a retry and an error and is unclaimed; no other changes. |
| `OutboxTransport.Transport.Get` | messenger/transport/outbox/transport.go:90-121 | Returns the stamped envelopes of the rows that decode, in order; every other claimed row gains a retry as far as that update goes through; a failing query changes nothing. |
| `OutboxTransport.Transport.Ack` | messenger/transport/outbox/transport.go:124-133 | Publishes the row the envelope names; fails without touching the table when it names none. |
| `OutboxTransport.Transport.Reject` | messenger/transport/outbox/transport.go:136-149 | Retries the row the envelope names; fails without touching the table when it names none. |
| `OutboxTransport.Transport.ProcessMessage` | messenger/worker/worker.go:126-154 | One dispatch, then exactly one acknowledgement or rejection of the row the envelope named. |
| `MessengerRelay.StepKeepsInv` | messenger/worker/worker.go:126-154 | Every step of any worker keeps: envelopes in hand lead back to their row and carry its message, and published rows were dispatched. |
| `MessengerRelay.PublishedOnlyAfterDispatch` | messenger/worker/worker.go:126-154 | In every run a row is published only after a dispatch of its own message returned nil. |
| `MessengerRelay.RowsAreNeverDeleted` | messenger/transport/outbox/postgres_store.go:110-174 | No run deletes a row or changes what was inserted. |
| `MessengerRelay.ExhaustedIsNeverReturned` | messenger/transport/outbox/postgres_store.go:110-128 | A row at the retry limit is never handed to a worker again, in any run. |
| `MessengerRelay.PublishedIsNeverReturned` | messenger/transport/outbox/postgres_store.go:97-128 | Nor is a published row, in any run. |
| `MessengerRelay.WaitingIsReturned` | messenger/transport/outbox/postgres_store.go:97-128 | A free or timed-out unpublished row under the retry limit is handed to the next worker that has room. |
| `MessengerRelay.ClaimSpacing` | messenger/transport/outbox/postgres_store.go:110-128 | A row not settled in between is handed out again only after more than the claim timeout in whole seconds, over every run. |
| `MessengerRelay.SettlesOwnRow` | messenger/transport/outbox/transport.go:124-160 | An acknowledgement or rejection touches the row the envelope came from, as it should, and no other. |
| `MessengerCalls.GetIsRun` | messenger/transport/outbox/transport.go:90-121 | A whole Get is a run of the machine and leaves worker and table with what the method returns and leaves. |
| `MessengerCalls.MessageIsRun` | messenger/worker/worker.go:126-154 | One message as a run: its row is published or retried with the reason, and the rest of the batch is up next. |
| `MessengerCalls.BatchIsRun` | messenger/worker/worker.go:120-154 | A whole batch as a run: exactly the rows of its messages are settled, each by its own outcome. |
| `MemoryTransport.StampedKey` | messenger/transport/memory/transport.go:130-135 | The newest memory id decides an envelope's pending key; the worker's stamp does not change it. |
| `MemoryTransport.Transport.Send` | messenger/transport/memory/transport.go:67-74 | Open with room: the envelope goes to the end of the channel under a fresh key. Open and full: it is stamped and waits. Closed: an error and no change. |
| `MemoryTransport.Transport.Get` | messenger/transport/memory/transport.go:78-90 | The head leaves the channel and becomes pending under its key; an empty channel gives nothing. |
| `MemoryTransport.Transport.Ack` | messenger/transport/memory/transport.go:93-97 | Exactly the envelope's pending entry goes. |
| `MemoryTransport.Transport.Reject` | messenger/transport/memory/transport.go:100-115 | The pending entry goes; the envelope is requeued exactly when the transport is open and has room, and otherwise reported. |
| `MemoryTransport.Transport.Close` | messenger/transport/memory/transport.go:118-123 | Closes and moves no envelope. |
| `MemoryConservation.StepKeepsBalance` | messenger/worker/worker.go:120-154 | Each step keeps: envelopes taken are those settled plus those in the hands of a goroutine. |
| `MemoryConservation.Conservation` | messenger/transport/memory/transport.go:67-135 | In every interleaving the ids sent split exactly into buffered, pending, acknowledged, reported, in motion and panicked, no id in two; every envelope taken is settled once; the channel is never overfull. |
| `MemoryConservation.EnvelopesAreTheOnesSent` | messenger/transport/memory/transport.go:67-135 | In every interleaving whatever is buffered, pending or in hand is the envelope handed to Send under its id: message, time, and its stamps in front of the added ones. |
| `MemoryConservation.FirstInFirstOut` | messenger/transport/memory/transport.go:67-115 | Every run takes out of the channel what was put in, in that order, requeued messages included, and the channel holds the rest. |
| `MemoryConservation.UninterruptedGet` | messenger/transport/memory/transport.go:78-90 | A Get on its own, as a run, does what the method does. |
| `MemoryConservation.UninterruptedAck` | messenger/transport/memory/transport.go:93-97 | The same for a successful handler and its Ack. |
| `MemoryConservation.UninterruptedReject` | messenger/transport/memory/transport.go:100-115 | The same for Reject: requeued at the end exactly when open and with room, and dropped otherwise. |
| `MemoryConservation.LateSendGetsIn` | messenger/transport/memory/transport.go:67-123 | A run in which a message gets into the channel after the transport was marked closed. |
| `MemoryConservation.ConservationAtRest` | messenger/transport/memory/transport.go:67-135 | With no call under way and no panic, the first four are all there is. |
| `MemoryConservation.QuietCloseNeverPanics` | messenger/transport/memory/transport.go:100-123 | If the transport is closed only while no rejection stands between its look and its push, no envelope is lost to a panic. |
| `MemoryConservation.CloseIsSafeIffQuiet` | messenger/transport/memory/transport.go:100-123 | Closing loses no envelope to a panic, whatever follows, exactly when no rejection stands between its look and its push. |
| `MemoryConservation.LoudClosePanics` | messenger/transport/memory/transport.go:100-123 | Setting the flag in that moment can make the push panic and lose the envelope, once the channel is closed too. |
| `MemoryConservation.PushingReachable` | messenger/transport/memory/transport.go:67-115 | A run that brings a rejection to that moment, for every capacity of at least one. |
| `MemoryConservation.PanicReachable` | messenger/transport/memory/transport.go:67-123 | A run that loses a rejected message to a panic. |
| `SlidingWindow.PruneTimestamps` | infra/ratelimit/sliding_window.go:50-56 | The loop drops exactly the leading instants not after the cutoff. |
| `SlidingWindow.Limiter.Allow` | infra/ratelimit/sliding_window.go:30-47 | Decision and new log of a call as functions of the old log, with other keys untouched. |
| `SlidingWindow.PruneCounts` | infra/ratelimit/sliding_window.go:50-56 | On a sorted log the pruned length is the number of instants after the cutoff. |
| `SlidingWindow.DecidesLikeFullHistory` | infra/ratelimit/sliding_window.go:30-56 | For every history with non-decreasing times the pruned log decides as a limiter that forgets nothing. |
| `SlidingWindow.AtMostRate` | infra/ratelimit/sliding_window.go:30-56 | Each key has at most rate accepted calls in every interval (t, t + window]. |
| `SlidingWindow.RoomForOne` | infra/ratelimit/sliding_window.go:30-56 | A call is admitted only if fewer than rate calls of its key were accepted in any window that would include it. |
| `SlidingWindow.NoRoom` | infra/ratelimit/sliding_window.go:30-56 | It is refused only if rate calls of its key were accepted in the window that ends with it. |
| `SlidingWindow.KeysIndependent` | infra/ratelimit/sliding_window.go:30-47 | The decisions for a key are those it would get alone. |
| `FixedWindow.Limiter.Allow` | infra/ratelimit/fixed_window.go:35-59 | Decision and new counter of a call as functions of the old ones, with other keys untouched. |
| `FixedWindow.GrantsChained` | infra/ratelimit/fixed_window.go:35-59 | Accepted calls form windows: each continues its predecessor's window by one, or opens a new one after it ended. |
| `FixedWindow.DeniedIff` | infra/ratelimit/fixed_window.go:35-59 | After any history a call is refused exactly when the window of the key's last accepted call is still open and that call used up the quota. |
| `FixedWindow.QuotaPerWindow` | infra/ratelimit/fixed_window.go:35-59 | No window holds more than its quota. |
| `FixedWindow.TwoQuotasSpanMore` | infra/ratelimit/fixed_window.go:35-59 | Any two quotas of consecutive accepted calls span more than a window, since three windows never meet one interval of that length. |
| `FixedWindow.AtMostTwiceLessOne` | infra/ratelimit/fixed_window.go:35-59 | At most 2 * rate - 1 accepted calls of a key in any closed interval one window long. |
| `FixedWindow.BoundIsTight` | infra/ratelimit/fixed_window.go:35-59 | For every rate and window a history reaches that number. |
| `LocalCache.StepCoherentIff` | infra/cache/local.go:50-89 | Live local entries stay equal to the remote ones through a step exactly when it is neither a Set that failed and took effect nor an outside change under another live local value; its answer is the remote one exactly when it hides no outage. |
| `LocalCache.ObservationallyEqualIff` | infra/cache/local.go:50-89 | While no failed Set and no change from outside leaves an old value behind, a sequence of calls, failures, evictions and expiries gets the answers of the remote cache alone exactly when no Get is answered locally during an outage. |
| `LocalCache.IndistinguishableIff` | infra/cache/local.go:50-89 | From a state on, the two caches answer all dependable calls alike exactly when every live local entry agrees with the remote one. |
| `LocalCache.FailedSetShowsIff` | infra/cache/local.go:65-72 | A Set that took effect and failed makes them distinguishable exactly when the key had another live local value. |
| `LocalCache.StaleAtMostTtl` | infra/cache/local.go:50-89 | Through any calls, failures and outside changes a value returned was held remotely at some instant at most the TTL earlier. |
| `LocalCache.ServedLocallyIff` | infra/cache/local.go:50-72 | A value just set is answered locally exactly until its TTL has passed. |
| `LocalCache.ReadDoesNotProlong` | infra/cache/local.go:50-62 | So is a value a Get brought in, counted from that Get: reading it again does not prolong its life. |
| `LocalCache.Local.DoGet` | infra/cache/local.go:50-62 | Answer and new state of a Get; a failing remote read shows only when the key is not live locally. |
| `LocalCache.Local.DoSet` | infra/cache/local.go:65-72 | Answer and new state of a Set; a failing remote write leaves the local cache alone, whether or not it took effect. |
| `LocalCache.Local.DoDelete` | infra/cache/local.go:75-80 | Answer and new state of a Delete; local entries go even when the remote delete fails, whether or not it took effect. |
| `LocalCache.Local.DoInvalidate` | infra/cache/local.go:85-89 | Exactly the named local entries go. |
| `LocalCacheStaleness.StalenessBounded` | infra/cache/local.go:50-89 | Under concurrent calls, outside writes and expiries a returned value was held remotely at most TTL plus the insertion lag earlier. |
| `LocalCacheStaleness.LagIsVisible` | infra/cache/local.go:50-62 | That bound is reached. |
| `LocalCacheStaleness.StaleAtMostTtlIffNoLag` | infra/cache/local.go:50-72 | Staleness of at most the TTL in all runs exactly when calls insert what they read without lag. |
| `LocalCacheOverlap.StepKeepsInv` | infra/cache/local.go:50-89 | With one call at a time and no half-way Set every remote and local action keeps the local entries equal to the remote ones, the key being set aside. |
| `LocalCacheOverlap.OverlapBreaksEquality` | infra/cache/local.go:50-72 | With two calls at a time a Get that runs alone later can return a value that was gone before it began, although nobody else writes. |
| `LocalCacheOverlap.HalfWaySetBreaksEquality` | infra/cache/local.go:65-72 | Even one call at a time: after a Set that took effect and failed, a later Get returns a value that was gone before it began. |
| `LocalCacheOverlap.EqualIff` | infra/cache/local.go:50-89 | In all runs every answer is one the remote cache would have given during the call, exactly when calls do not overlap and no failed Set takes effect on a key with another local value. |
| `LocalCacheOverlap.SeenExactly` | infra/cache/local.go:50-89 | The answers that count as right in these results are exactly the values held remotely while the Get was under way. |
| `UnitOfWork.Aggregate.AddEvent` | aggregate/base.go:80-82 | The event becomes the last pending one. |
| `UnitOfWork.Aggregate.ClearEvents` | aggregate/base.go:99-104 | Hands out all pending events, in order, and keeps none. |
| `UnitOfWork.Uow.PublishEvents` | uow/unit_of_work.go:105-114 | The aggregate is emptied in any case; success exactly when every event can be inserted, and then all rows follow in order, stamped with the source. |
| `UnitOfWork.Uow.PublishAll` | uow/unit_of_work.go:93-98 | The refused aggregate, the rows and what is left pending, as the drain of the aggregates one after the other gives them. |
| `UnitOfWork.PublishFits` | uow/unit_of_work.go:93-114 | All events are inserted, in order, exactly when each can be: none refused, no id twice. |
| `UnitOfWork.FitsIff` | uow/unit_of_work.go:105-114 | Events can be inserted exactly when none is refused and no id occurs twice among them and the rows already there. |
| `UnitOfWork.PublishEmpties` | uow/unit_of_work.go:93-114 | The aggregates up to the refused one are empty afterwards, the others keep what they had. |
| `UnitOfWork.Atomic` | uow/unit_of_work.go:73-114 | A call that goes through commits the domain write and exactly the pending events, in order; any other leaves domain and outbox unchanged. What it reached is empty, the rest untouched. |
| `UnitOfWork.OutcomeExactly` | uow/unit_of_work.go:73-114 | Which error a call ends with, and for a refused insert which aggregate: the first whose events do not fit after those before it. |
| `UnitOfWork.Uow.ExecuteMulti` | uow/unit_of_work.go:88-100 | Committed: the domain write and exactly the pending events, in order, are in the database. Otherwise it is unchanged. Also exactly when it commits, and which aggregates are empty afterwards. Same aggregate twice included. |
| `UnitOfWork.Uow.Execute` | uow/unit_of_work.go:73-80 | The same for one aggregate. |
| `UnitOfWork.DrainedOnceEach` | uow/unit_of_work.go:88-114 | What is drained is each aggregate's pending events once, in the order in which the aggregates first occur. |
| `UnitOfWorkRuns.OrderKept` | uow/unit_of_work.go:73-114 | Over any sequence of calls each aggregate's events leave it in the order added, and the outbox lists what the calls that went through drained, call after call, all under the source of the unit of work. |
| `UnitOfWorkRuns.IdsStayDistinct` | uow/unit_of_work.go:105-114 | No sequence of calls puts an event id into the outbox twice. |
| `UnitOfWorkRuns.CallAccounts` | uow/unit_of_work.go:73-114 | After a call every event is found in outbox and pending lists as often as before, less the times it was drained by a call that then failed. |
| `UnitOfWorkRuns.KeepsEventsIff` | uow/unit_of_work.go:73-114 | A call keeps all events exactly when begin or fn fails, or all inserts fit and the commit works, or nothing was pending in what it drained. |
| `UnitOfWorkRuns.RunAccounts` | uow/unit_of_work.go:73-114 | Over any sequence of calls each event is in the outbox, pending, or lost by a call, as often as it was added. |
| `UnitOfWorkRuns.MissingIff` | uow/unit_of_work.go:73-114 | An event is found less often than it was added exactly when some call drained it and then failed at an insert or the commit. |
| `UnitOfWorkRuns.RetryAfterFailedCommitLosesEvent` | infra/db/tx.go:90-116 | After a failed commit, a successful retry of any saving call commits the domain write, and the event is missing. |
| `Shutdown.ShutdownGroup.Add` | infra/concurrency/shutdown.go:51-59 | The entry is registered last. |
| `Shutdown.StableSort` | infra/concurrency/shutdown.go:76-79 | Lists every registration once, by priority and then registration. |
| `Shutdown.StableOrderUnique` | infra/concurrency/shutdown.go:76-79 | There is only one such order, so the sorting algorithm does not matter. |
| `Shutdown.ShutdownGroup.BatchEnd` | infra/concurrency/shutdown.go:84-90 | The batch is the maximal run of equal priority; everything after it has a higher one. |
| `Shutdown.ShutdownGroup.RunBatch` | infra/concurrency/shutdown.go:92-104 | In any order of the goroutines each closer of the batch runs once and its cell holds its own result. |
| `Shutdown.ShutdownGroup.Shutdown` | infra/concurrency/shutdown.go:70-116 | Every registered closer runs once, priorities never go down, and the joined errors are those returned, in the stable order. |
| `Shutdown.ErrorsExactly` | infra/concurrency/shutdown.go:106-115 | The joined errors are one for each closer that failed, at its place among the failed ones. |
| `ShutdownBarrier.StepKeepsInv` | infra/concurrency/shutdown.go:81-113 | Each spawn, start, return and join keeps: earlier batches returned, later ones idle, errors collected so far in order. |
| `ShutdownBarrier.Barrier` | infra/concurrency/shutdown.go:81-113 | In every interleaving, when a closer starts all closers of lower priority have returned. |
| `ShutdownBarrier.AtMostOnce` | infra/concurrency/shutdown.go:97-103 | No closer is called twice in any run. |
| `ShutdownBarrier.CompleteRun` | infra/concurrency/shutdown.go:81-115 | A finished run called every closer once, each returned once, and the joined errors are exactly those returned, in order. |
| `ShutdownBarrier.NeverStuck` | infra/concurrency/shutdown.go:81-113 | Until everything is closed some step is possible, whatever failed. |
| `ShutdownBarrier.RunsAreShort` | infra/concurrency/shutdown.go:81-113 | Every run has at most four steps per closer, so it ends, and by NeverStuck it ends complete. |
| `ShutdownBarrier.StableOrderIsSorted` | infra/concurrency/shutdown.go:76-79 | The priorities in the stable order ascend, so the results above apply to it. |
| `Sharding.Clamp` | infra/concurrency/sharded.go:15-20 | The number of shards is the worker count cut to between one and the number of items. |
| `Sharding.Split` | infra/concurrency/sharded.go:15-36 | For every input and worker count the shards are non-empty, concatenate to the items and differ in length by at most one, longer ones first. |
| `Sharding.ShardAt` | infra/concurrency/sharded.go:25-35 | Each shard is the slice of the items that starts where the shards before it end. |
| `Sharding.EvenCutUnique` | infra/concurrency/sharded.go:21-36 | Those requirements leave only one way to cut. |
| `Sharding.ProcessSharded` | infra/concurrency/sharded.go:15-46 | For any completion order the results are fn of the shards, in shard order; nothing for no items. |
| `Sharding.MergeIsWhole` | infra/concurrency/sharded.go:15-46 | Merging the results of a homomorphic function over non-empty shards gives its value on their concatenation. |
| `Sharding.WorkerCountIrrelevant` | infra/concurrency/sharded.go:15-46 | For such a function every worker count gives fn(items). |
| `ShardErrors.Collect` | infra/concurrency/sharded.go:103-111 | Merge of all values in shard order, or the zero value and the error of the lowest failed shard; no merge without items. |
| `ShardErrors.SuccessIsDeterministic` | infra/concurrency/sharded.go:54-112 | If no shard fails by itself and the caller does not cancel, every interleaving ends with the shards' own values. |
| `ShardErrors.FailureSurfaces` | infra/concurrency/sharded.go:54-112 | If some shard fails by itself and the caller does not cancel, every complete run returns an error. |
| `ShardErrors.ReturnsFirstIff` | infra/concurrency/sharded.go:48-112 | The error returned is the first one in time, in all runs, exactly when no shard but the first can fail by itself; if the caller may cancel, exactly when there is at most one shard. |
| `ShardErrors.LaterErrorReturned` | infra/concurrency/sharded.go:103-108 | For any later shard that fails, a run that returns another error than the first one in time. |
| `ShardErrors.CancelledErrorReturned` | infra/concurrency/sharded.go:103-108 | With two shards or more, a cancellation by the caller leads to such a run whatever the shards would return by themselves. |

## Left out

- Outbox polling cadence (`Start`, `doPoll`, `adjustBackoff`), the circuit breaker and LISTEN/NOTIFY: they decide when a poll runs, and every schedule is covered.
- Lease token randomness, SQL text, JSON encoding, drivers and connection handling: each statement is its effect on the table.
- `ReleaseClaim` for a single row and `InsertEntry`: the same updates as `ReleaseClaims` and `Insert` with one row.
- DLQ `Retry`: an operator's deletion whose re-publish is left to the caller.
- Eventual delivery under fairness: the drain results say how many undisturbed polls suffice, not that they happen.
- JWT signing and parsing, and the Redis blacklist: only its answer is used.
- Messenger `Transport.Send` of the outbox transport, bus routing and middleware: the relay starts from the stored row, and the decoder is an arbitrary function of the payload.
- Options of `AddDomainEvent` and the event constructor: an event is appended whole, as `AddEvent` does. Its comment says the current version is injected; the code passes id and type only (aggregate/base.go:84-93).
- Per-seeder results, seeding order of execution, dependency injection, HTTP and gRPC servers, configuration, value objects, validation: no property across functions.
- OutboxDrain.Drains: counts polls from the moment at which leases standing at the start have run out, because until then the worker has to wait for them.
- MemoryConservation.Conservation: does not cover an unbuffered channel, where sender and receiver meet without a buffered moment.
- UnitOfWork.Uow.ExecuteMulti: does not model a callback that raises events itself, because draining comes after it and the effect is that of raising them before the call.
- Shutdown.ShutdownGroup.Shutdown: runs the closers of a batch one after the other in any order, because overlapping calls are steps of `ShutdownBarrier`.
- Envelopes.OldOutboxIdSurvives: assumes that the JSON library reads an outbox id stamp back as it wrote it.
- Panics inside closers, shards and handlers: not modelled, except a panicking unit-of-work callback and the send on a closed channel.
- A zero or negative local cache TTL: what the library does with it is not part of this model; TTLs are positive.
