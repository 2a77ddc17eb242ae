# Verification of the events aggregator

A Dafny model of the parts of the events aggregator in which requests, background workers
and foreign services interleave: registration with idempotency keys and a transactional
outbox, delivery of notifications, cancellation, incremental synchronisation of events, the
seats cache and the paged listings. `dafny verify dfyconfig.toml` checks the whole project.

| file | subject |
|---|---|
| `Registration.dfy` | step relation over the committed tables, the requests in flight with their advisory locks, the publisher workers with their private row copies, the provider and the receiver |
| `RegistrationSafety.dfy`, `DeliverySafety.dfy`, `Conservation.dfy` | what every step keeps |
| `RegistrationTheorems.dfy` | the guarantees over all runs |
| `Denials.dfy` | why requests are refused, over all runs |
| `CancellationRows.dfy` | what becomes of cancellation rows, over all runs |
| `Agreement.dfy`, `LiveHistory.dfy` | when the provider's registrations and the local tickets disagree, step by step and over runs |
| `RegistrationExamples.dfy` | runs that refute stronger guarantees |
| `TicketService.dfy` | `register` and `unregister` as methods, proved equal to a run of the step relation |
| `Outbox.dfy`, `OutboxPublisher.dfy`, `Capashino.dfy` | outbox rows, one publisher with its batches, and the bound on the number of batches a row waits |
| `PublisherRuns.dfy`, `PublisherBound.dfy` | the batches of that publisher as runs of the step relation, and back: the bound as a statement about runs |
| `Fingerprint.dfy` | the request hash |
| `Events.dfy`, `Paginator.dfy`, `Sync.dfy`, `SyncConvergence.dfy`, `SyncLock.dfy` | the event table, the page walk, the batch loop, convergence over all runs, the lock |
| `Seats.dfy`, `SeatsFreshness.dfy` | the seats cache with interleaved fills and invalidations, and when it holds an outdated list |
| `EventListing.dfy` | page arithmetic of the event list |

## What is assumed

- The receiver of notifications keeps one notification per idempotency key (README.md:231):
  a readable success means that it has one, a conflict that it had one before. Every other
  answer, and no answer, may hide that the notification was accepted.
- The provider has at most one live registration per event and seat and names a ticket by
  its event and seat (README.md:415). It frees only a live ticket and calls a ticket unknown
  only if it is not live. Any reply may be lost after it took effect.
- The provider's `changed_at` filter is inclusive, its edit clock never goes backwards, it
  deletes nothing, and it stands still while one synchronisation reads. Each event is listed
  once per walk for convergence; the batch loop itself is specified without that.
- PostgreSQL: a commit is atomic, a taken primary key makes it fail, other transactions see
  only committed rows, an advisory lock and the row locks of `FOR UPDATE` end with the
  transaction, and the connection of a registration or of a worker may be lost at any time
  together with its locks. Deleting a row that is already gone does not make a commit fail
  (SQLAlchemy warns only).
- A commit may take effect although its acknowledgement is lost. A registration in that
  position is answered with a server error and has bought its ticket all the same: the model
  calls it vanished, not denied. For synchronisations see `Events.Fate`.
- `hashtext` is an arbitrary function, and so is SHA-256 except where a member says that it
  is collision-free.
- The limit of attempts is at least 1. In the single-publisher results the table is kept
  in `created_at` order and new rows arrive behind the others; that the fetch returns the
  oldest pending rows is stated for distinct creation times.
- Times are integers: microseconds since the epoch in UTC where the day matters.

## What turned out to be false

- A row that is SENT can become FAILED: the row locks of a batch end with its first commit,
  the private copies are not refreshed, and a second worker may finish a later row in
  between (`RegistrationExamples.SentBecomesFailed`). SENT and FAILED rows stay as they are,
  over all steps from all reachable states, exactly if batches hold at most one row
  (`RegistrationExamples.FinalRowsKeptIff`).
- `SKIP LOCKED` does not prevent duplicate sends, as README.md:413 has it. It does give each
  row at most one transaction that holds its lock (`DeliverySafety.RowLocksStep`), but a
  worker goes on posting after its locks are gone. Two workers have the same row still to
  post only if one of them has lost its transaction, by its first commit or with its
  connection (`RegistrationTheorems.DuplicateNeedsLostLocks`). One row is enough for that:
  the worker's connection is lost between fetch and post
  (`RegistrationExamples.OneRowTwice`), so some reachable state has such a pair for every
  batch size from one on (`RegistrationExamples.DuplicatesIff`). Where no connection is lost
  it takes batches of two or more, and then it happens
  (`RegistrationExamples.DuplicatesUnbrokenIff`). What prevents a second notification is the
  receiver. The model follows the code.
- The limit of attempts (README.md:233) bounds the stored counter and not the attempts. With
  batches of two or more, a row that is FAILED after as many results as allowed gets one more
  from a stale copy, and the stored counter falls back to 1
  (`RegistrationExamples.LimitExceeded`). No row gets more results than allowed exactly if
  batches hold at most one row (`RegistrationExamples.LimitKeptIff`).
- Two overlapping cancellations of one ticket break the balance of purchases and
  cancellations (`RegistrationExamples.OverlapBreaksConservation`). The balance holds exactly
  when no cancellation was committed for a ticket row that was already gone.
- A ticket row does not mean that the provider has the registration. After a cancellation
  whose reply was lost, the next cancellation can reach the provider between another buyer's
  grant and that buyer's commit. Both requests succeed, and the buyer's ticket has no
  registration (`RegistrationExamples.SoldButFreed`). The exact condition, overlapping
  requests included: provider and table agree about a ticket throughout a run, up to requests
  under way that will settle it, if and only if no step of the run is one of six
  (`Agreement.AgreementIff`). Seats without a row come from a grant whose reply is lost, an
  abandoned grant, or the deletion of the row of a live ticket. Rows without a registration
  come from a commit of a ticket that was freed since its grant, a cancellation that took
  effect and whose reply is lost, or one that is abandoned. In terms of the run, a commit
  sells a ticket without a registration exactly when the provider gave it up after that
  request's grant and did not grant it again (`LiveHistory.SoldUnheldIff`). Where requests for
  one ticket do not overlap, the late commit cannot happen and the other five remain, with
  simpler guards (`Agreement.AgreementWithoutOverlapIff`).
- Different requests can share a fingerprint, because names may contain the separator:
  "Anna|Maria" "Petrova" and "Anna" "Maria|Petrova" (`Fingerprint.AmbiguousNames`). As plain
  texts, five fields are identified by their joined text exactly when none of them contains
  the separator. Among the requests that validation accepts it is exactly when the joined
  text cannot be cut into other acceptable fields, and for e-mails and seats without the
  separator exactly when the joined names cannot be cut elsewhere with 1 to 100 characters on
  both sides.
- A cached list of seats can be outdated after the registration that outdated it is over. A
  list that the provider gave before a registration can be stored after the registration
  invalidated the cache, and outlives it (`SeatsFreshness.LateFillSurvives`). A registration
  that takes its seat and then fails here, because the reply or the commit is lost, leaves
  the cache as it is (`SeatsFreshness.FailedRegistrationStays`). At the end of any run an
  entry is outdated exactly if a seat of its event was taken or freed after the answer it
  stems from (`SeatsFreshness.OutdatedIff`). If every registration and cancellation reaches its
  invalidation, that leaves the late fills: the answer was given before a seat was taken or
  freed, and stored after the invalidation (`SeatsFreshness.SettledOutdatedIff`).
- The event list hands out `next` links beyond page 100, which the endpoint refuses
  (`EventListing.EndpointServesAllIff`).

## Model

| member | source | states |
|---|---|---|
| RegistrationTheorems.RunInv | src/events_aggregator/services/tickets.py:61-198 | the invariant (lock discipline, ledger of purchases and keys, vetting, delivery, row locks, counting of results, books) holds after every step of every run, with any interleaving, lost replies, lost connections, failed commits, crashes and workers |
| RegistrationSafety.LocksStep | src/events_aggregator/db/repositories/idempotency.py:37-42 | no step gives one advisory lock two holders, and a registration past its check that still holds the lock still finds its key unused, for any `hashtext` |
| RegistrationSafety.LedgerStep | src/events_aggregator/services/tickets.py:122-153 | every step keeps ticket rows, purchase rows and key records in exact correspondence with the committed purchases and their requests |
| RegistrationTheorems.OnePurchasePerKey | src/events_aggregator/services/tickets.py:68-85 | in every reachable state at most one purchase was committed per idempotency key, for any `hashtext` |
| RegistrationTheorems.RepliesOfKeyAgree | src/events_aggregator/services/tickets.py:71-85 | all successful replies for a key carry the ticket of the one purchase with that key, and were asked for with its fingerprint |
| RegistrationTheorems.LockedCheckStaysTrue | src/events_aggregator/services/tickets.py:68-72 | while a registration is past its check with its connection alive, the key is unused and no other registration with that key is inside the locked section |
| RegistrationTheorems.UsedKeyAnswer | src/events_aggregator/services/tickets.py:71-85 | under a collision-free hash a reused key answers with the purchased ticket if the joined data are those of the purchase, and with a conflict otherwise; without a separator in the new data that means: if the data are the same |
| RegistrationTheorems.DeniedLeavesNothing | src/events_aggregator/services/tickets.py:87-153 | a registration that was denied without its commit taking effect owns no ticket row, no purchase row and no key record |
| RegistrationTheorems.OneTicketPerSeat | src/events_aggregator/db/models.py:55 | no reachable state has two tickets for one event and seat, whatever the seats cache returned |
| RegistrationTheorems.SoldOnlyIfVetted | src/events_aggregator/services/tickets.py:87-104 | every purchase in every reachable state was made by a request that saw the event published, open and with the seat free, and carries the name that it saw |
| RegistrationTheorems.OneNotificationPerKey | src/events_aggregator/services/outbox_publisher.py:130-139 | end to end: all requests with one key cause at most one notification at the receiver |
| RegistrationTheorems.NotificationTraced | src/events_aggregator/services/outbox_publisher.py:130-139 | every notification belongs to a committed outbox row and to the request that committed it; all three name the same ticket, seat and event, and the row repeats the request's form |
| RegistrationTheorems.SentMeansDelivered | src/events_aggregator/services/outbox_publisher.py:72-118 | with any number of workers on stale copies, a SENT purchase has its notification, the stored attempts stay within the limit, and pending rows are below it |
| RegistrationTheorems.LimitKept | src/events_aggregator/db/repositories/outbox.py:55-67 | with batches of at most one row the stored attempts count the committed failures exactly, and no row gets more results than the limit |
| RegistrationExamples.LimitKeptIff | src/events_aggregator/db/repositories/outbox.py:34-67 | no reachable state has a row with more committed results than the limit if and only if batches hold at most one row |
| RegistrationExamples.LimitExceeded | src/events_aggregator/db/session.py:26-32 | for every limit and every batch size from two on, a run in which a row gets one result more than the limit while its stored attempts fall to 1 |
| DeliverySafety.CountingStep | src/events_aggregator/db/repositories/outbox.py:50-67 | no step lets a stored counter or a private copy claim more results than were committed; with batches of one, the counter stays exact |
| DeliverySafety.DeliveryStep | src/events_aggregator/db/repositories/outbox.py:50-67 | each step of a request or worker keeps the correspondence of rows, private copies, pending results and notifications |
| DeliverySafety.BatchesLockedStep | src/events_aggregator/db/repositories/outbox.py:34-48 | as long as the transaction that fetched a batch lives, until its first commit or the loss of its connection, each copy equals the stored row |
| DeliverySafety.RowLocksStep | src/events_aggregator/db/repositories/outbox.py:40-46 | no step gives one row two transactions that hold its row lock |
| RegistrationTheorems.DuplicateNeedsLostLocks | src/events_aggregator/services/outbox_publisher.py:58-80 | in every reachable state, if two workers have the same row still to post, one of them has committed a row of its batch or lost its connection |
| RegistrationExamples.OneRowTwice | src/events_aggregator/db/session.py:26-32 | for every batch size from one on, a run in which a worker fetches a row, loses its connection, and a second worker fetches the same row before the first has posted it |
| RegistrationExamples.DuplicatesIff | src/events_aggregator/db/repositories/outbox.py:40-46 | some reachable state has two workers that are about to post the same row if and only if batches hold any row at all |
| RegistrationExamples.DuplicatesUnbrokenIff | src/events_aggregator/db/repositories/outbox.py:40-46 | over runs in which no worker loses its connection, the same holds if and only if batches hold two rows or more |
| RegistrationTheorems.FirstRecordIsExact | src/events_aggregator/db/repositories/outbox.py:34-53 | whenever the first result of a batch can be recorded, the row is pending and still exactly the fetched one, also when connections get lost |
| RegistrationTheorems.RowBegins | src/events_aggregator/db/repositories/outbox.py:16-32 | a row appears only with the commit of a purchase or of an answered cancellation: pending, untried, dated by that commit, with the data of that request |
| RegistrationTheorems.RowsOnlyAdvance | src/events_aggregator/db/repositories/outbox.py:50-67 | over every run a row never returns to PENDING, keeps its type, its payload and its creation time, and its notification is never replaced |
| RegistrationTheorems.SingletonBatchesKeepFinalRows | src/events_aggregator/db/repositories/outbox.py:50-67 | with batches of at most one row, no step of any worker changes a SENT or FAILED row |
| RegistrationExamples.FinalRowsKeptIff | src/events_aggregator/db/repositories/outbox.py:34-67 | every step from every reachable state keeps SENT and FAILED rows as they are if and only if batches hold at most one row |
| RegistrationExamples.SentBecomesFailed | src/events_aggregator/db/session.py:26-32 | with batches of two or more there is a run in which a SENT, delivered row becomes FAILED |
| Conservation.BooksStep | src/events_aggregator/services/tickets.py:132-195 | each step keeps: purchase rows are live tickets plus deletions that found their row, and cancellation rows are confirmed cancellations |
| RegistrationTheorems.ConservationIff | src/events_aggregator/services/tickets.py:178-195 | in every reachable state, purchase rows = live tickets + cancellation rows + drops after a 404, if and only if no cancellation was committed for a ticket row that was already gone |
| RegistrationTheorems.ConservationOverRuns | src/events_aggregator/services/tickets.py:167-198 | over every run in which cancellations of one ticket do not overlap, crashes included, the balance holds |
| RegistrationExamples.OverlapBreaksConservation | src/events_aggregator/db/repositories/tickets.py:23-25 | two overlapping cancellations of one ticket reach a state without the balance |
| RegistrationTheorems.DeletedWithRow | src/events_aggregator/services/tickets.py:178-195 | a ticket row is deleted only by a cancellation of that ticket, together with exactly one cancellation row about it if the provider answered, with `success` true or false, and with none after a 404 |
| Denials.RefusedIff | src/events_aggregator/services/tickets.py:61-198 | over every run, a registration or cancellation is refused for a reason if and only if some step of the run refused it: a conflict over its key, the first objection of the view of its event, the answer of the provider, a missing row, or a failure |
| Denials.AnswerDecides | src/events_aggregator/services/tickets.py:173-184 | for every answer of the provider to a cancellation: confirmed, confirmed with `success=false`, unknown, or refused with a server error, with the database untouched so far |
| RegistrationTheorems.CancelledRowWithDelete | src/events_aggregator/services/tickets.py:186-195 | a cancellation row appears only in the commit that deletes the ticket row it names |
| RegistrationTheorems.CrashLeavesGone | src/events_aggregator/services/tickets.py:173-195 | a cancellation that took effect at the provider and dies before its commit leaves the ticket gone there, with the local data as before |
| RegistrationTheorems.GapRepair | src/events_aggregator/services/tickets.py:173-195 | after such a crash, and until the ticket is granted again, the local row survives exactly as long as no cancellation of it completes |
| RegistrationTheorems.RepairPossible | src/events_aggregator/services/tickets.py:178-181 | from such a state a cancellation that runs alone removes the row and nothing else |
| Agreement.DisagreementStep | src/events_aggregator/services/tickets.py:106-198 | from any state, overlapping requests included, a step leaves the provider with a seat that nobody has here if and only if it is a grant whose reply is lost, an abandoned grant or a deletion of the row of a live ticket, and leaves a row without a registration if and only if it is a commit of a ticket freed meanwhile, a cancellation whose reply is lost or an abandoned one that took effect; each with the guard that no other request will settle the ticket |
| Agreement.AgreementIff | src/events_aggregator/services/tickets.py:106-198 | over every run from the start, provider and table agree about a ticket throughout if and only if none of its steps is one of these |
| Agreement.DisagreementTraced | src/events_aggregator/services/tickets.py:106-198 | every disagreement at the end of any run goes back to one of these steps |
| Agreement.AgreementWithoutOverlapIff | src/events_aggregator/services/tickets.py:106-198 | over runs in which requests for one ticket do not overlap: if and only if no grant or cancellation loses its reply, none is abandoned after it took effect, and no row is deleted after `success=false` |
| LiveHistory.LiveIff | src/events_aggregator/services/tickets.py:106-174 | at the end of any run a ticket is live at the provider exactly if the run granted it and did not free it since |
| LiveHistory.SoldUnheldIff | src/events_aggregator/services/tickets.py:113-153 | at any point of any run, a commit sells a ticket without a live registration if and only if the provider gave the ticket up after the grant to that request and did not grant it again |
| RegistrationExamples.SoldButFreed | src/events_aggregator/services/tickets.py:113-195 | a run with overlap in which a purchase and a cancellation both succeed and the sold ticket has no registration at the provider; the step that breaks the agreement is the commit of the purchase |
| TicketService.TicketService.Register | src/events_aggregator/services/tickets.py:61-165 | database and reply after one call are the outcome that the next three rows describe, for every state of database and cache and every answer; after a purchase the event has no cache entry, and otherwise the cache changes by at most the list that was fetched in this call |
| TicketService.RefusedEarlyIff | src/events_aggregator/services/tickets.py:71-102 | the reply is a conflict, a passed deadline, an unpublished event or no available seats exactly if: the key was used with another fingerprint; the deadline of the event is not later than now; the event is open but not published; the list from the cache within its time limit, or else from the provider, is empty, or the provider does not know the event |
| TicketService.RefusedLateIff | src/events_aggregator/services/tickets.py:87-120 | the reply is a missing event, a taken seat or a server error exactly if: the event row is missing or the provider answers not found; the seat is not in the list, or the provider answers bad request; the seats or the registration fail at the provider, or the commit fails |
| TicketService.BoughtIff | src/events_aggregator/services/tickets.py:122-165 | the call succeeds exactly on a used key with its fingerprint, or when the provider grants the listed seat and the commit goes through; the latter adds the ticket row, one pending row with every field of the form, and the key record, and everything else leaves the database as it was |
| TicketService.RegisteredIsRun | src/events_aggregator/services/tickets.py:61-165 | what `Register` leaves and answers is what the step relation reaches by running that request alone |
| TicketService.TicketService.Unregister | src/events_aggregator/services/tickets.py:167-198 | not found exactly if the row was missing or the provider does not know the ticket and the commit goes through, and then the row is gone; success with the provider's own `success`, exactly after an answer and a commit, with the row gone and one cancellation row for the ticket and event of the deleted row; everything else is a server error and changes nothing; the cache entry of the event goes only on success |
| TicketService.CancelledOnceIsRun | src/events_aggregator/services/tickets.py:167-198 | what `Unregister` leaves and answers is what the step relation reaches by running that request alone |
| Fingerprint.HashOfFields | src/events_aggregator/services/tickets.py:200-213 | the fingerprint is the hash of the five fields, joined in this order |
| Fingerprint.UnambiguousIff | src/events_aggregator/services/tickets.py:200-213 | as plain texts, the joined fields identify a form if and only if no field contains the separator |
| Fingerprint.CollidesIff | src/events_aggregator/schemas/event.py:55-70 | a request that validation accepts shares its joined text with another accepted request if and only if the text can be cut at other separators into fields within the length bounds, with an e-mail |
| Fingerprint.NamesCollideIff | src/events_aggregator/schemas/event.py:59-62 | for e-mails and seats without the separator: if and only if the joined names can be cut elsewhere with 1 to 100 characters on both sides |
| Fingerprint.FingerprintIff | src/events_aggregator/services/tickets.py:72-77 | under a collision-free hash another form has the fingerprint of a separator-free form exactly when it is that form |
| Fingerprint.DirtyCollides | src/events_aggregator/services/tickets.py:203-211 | as plain texts, every form with a separator in a field shares its joined text with a different form for the same event |
| Fingerprint.AmbiguousNames | src/events_aggregator/schemas/event.py:59-62 | for every event id, two different requests that validation accepts and that have equal fingerprints under any hash |
| Fingerprint.LoneSeparator | src/events_aggregator/schemas/event.py:59-62 | an accepted request with a separator in a name that shares its joined text with no other accepted request |
| Outbox.OutboxRepository.FetchPending | src/events_aggregator/db/repositories/outbox.py:34-48 | the fetched rows are pending, at most as many as the limit, oldest first, and no older pending row is left behind |
| Outbox.FetchedIff | src/events_aggregator/db/repositories/outbox.py:40-46 | a row is in a batch if and only if it is pending and fewer pending rows than the limit are ahead of it |
| Outbox.OutboxRepository.Add | src/events_aggregator/db/repositories/outbox.py:16-32 | a fresh pending row without attempts is appended |
| Outbox.OutboxRepository.MarkSent | src/events_aggregator/db/repositories/outbox.py:50-53 | the commit writes status and time of sending and leaves every other field and row |
| Outbox.OutboxRepository.MarkFailedAttempt | src/events_aggregator/db/repositories/outbox.py:55-67 | the commit writes the copy's attempts plus one, the cut error text if it changed, and FAILED at the limit, and leaves every other field and row |
| OutboxPublisher.SentIff | src/events_aggregator/clients/capashino/client.py:49-73 | a purchase row becomes SENT exactly on a readable success or a conflict |
| OutboxPublisher.ResultIs | src/events_aggregator/services/outbox_publisher.py:72-118 | for every row, stale copy and answer: a cancellation, a delivered notification and a conflict make the row SENT with the time of the commit; anything else counts one attempt over the copy and keeps the first 2000 characters of an error that ends with the answer's text, and makes the row FAILED if the answer refuses for good or the limit is reached |
| OutboxPublisher.FailedAtOnceIff | src/events_aggregator/clients/capashino/client.py:58-73 | a row with attempts left fails on one answer exactly if it is a purchase and the answer has code 400, 401, 403 or 422 |
| CancellationRows.CancellationNeverFails | src/events_aggregator/services/outbox_publisher.py:111-126 | in every reachable state a cancellation row is not FAILED and counts no attempt, and it is SENT if and only if a result was committed for it, whatever the receiver answers and with any number of workers on stale copies |
| CancellationRows.FirstResultAcknowledges | src/events_aggregator/services/outbox_publisher.py:111-118 | any result that is committed for a cancellation row makes it SENT at that time |
| OutboxPublisher.OutboxPublisher.PublishOne | src/events_aggregator/services/outbox_publisher.py:72-118 | the table after one row, for every answer of the receiver, with the result of `OutboxPublisher.ResultIs`; untouched if the commit fails |
| OutboxPublisher.OutboxPublisher.ProcessBatch | src/events_aggregator/services/outbox_publisher.py:58-70 | exactly the fetched rows before the first failed commit carry their results, each of them once |
| PublisherRuns.RoundIsRun | src/events_aggregator/services/outbox_publisher.py:58-118 | a batch of one publisher, up to the first failed commit, is a run of the step relation that ends with the same outbox: the two models of delivery agree |
| OutboxPublisher.OutboxPublisher.Run | src/events_aggregator/services/outbox_publisher.py:26-54 | the table after the loop is that of its batches up to the stop, with rows of others arriving in between; it ends stopped exactly if `stop` was called |
| OutboxPublisher.UpToTheStop | src/events_aggregator/services/outbox_publisher.py:35-47 | the batch during which `stop` is called is finished, and nothing that would come after it has an effect |
| OutboxPublisher.RoundKeepsRows | src/events_aggregator/db/repositories/outbox.py:50-67 | with one publisher pending rows stay below the limit, SENT and FAILED rows are never touched, the time of sending is set exactly on SENT rows, and each committed result costs budget |
| OutboxPublisher.RoundWork | src/events_aggregator/services/outbox_publisher.py:58-118 | a batch that commits `n` results lowers the attempts left over all pending rows by at least `n` |
| OutboxPublisher.RoundBound | src/events_aggregator/services/outbox_publisher.py:58-118 | with one publisher and no failed commits, row `k` is SENT or FAILED after `(k / batchSize + 1) * maxAttempts` batches, whatever the receiver answers and whatever arrives behind |
| PublisherBound.ScheduleIsRounds | src/events_aggregator/services/outbox_publisher.py:26-70 | a run of the step relation made of batches of one worker, with any steps of requests in between, leaves the outbox of the same number of iterations of the publisher |
| PublisherBound.BoundOverRuns | src/events_aggregator/services/outbox_publisher.py:26-118 | over such runs from the start, a row with `k` older rows ahead is SENT or FAILED after `(k / batchSize + 1) * maxAttempts` further batches |
| Events.EventRepository.UpsertMany | src/events_aggregator/db/repositories/events.py:17-43 | count and table for every fate of the statement; it fails, and changes nothing, if an id occurs twice, and after an exception the table is either as before or as after all upserts |
| Events.MergedIsUpserted | src/events_aggregator/db/repositories/events.py:22-39 | for rows with distinct ids, one set-oriented statement leaves the table of one upsert per row |
| Events.UpsertedAt | src/events_aggregator/db/repositories/events.py:22-39 | the last row given for an id is the stored one |
| Events.UpsertedElsewhere | src/events_aggregator/db/repositories/events.py:22-39 | a row that is not named is as before |
| Paginator.IterAllEvents | src/events_aggregator/clients/events_provider/paginator.py:20-51 | for any answers, cyclic chains too, at most 100 fetches; only non-empty links on the base host are followed; the events are those of all pages that arrived, in order; the reason for stopping is the right one |
| Paginator.ResultsInOrder | src/events_aggregator/clients/events_provider/paginator.py:27-41 | the events of each page follow those of the pages before it |
| Paginator.ResultFromPage | src/events_aggregator/clients/events_provider/paginator.py:27-41 | each delivered event is at its place on one of the pages |
| Paginator.CompleteIff | src/events_aggregator/clients/events_provider/paginator.py:30-51 | the walk is complete if and only if the chain has at most 100 pages, all on the base host |
| Paginator.EndlessChainCut | src/events_aggregator/clients/events_provider/paginator.py:32-33 | a chain without end on the base host stops with an error after 100 pages |
| Sync.StoredMore | src/events_aggregator/services/sync.py:128-139 | storing a stretch of events in one statement leaves the table of one upsert per event |
| Sync.MaxChangedIsMax | src/events_aggregator/services/sync.py:123-126 | the tracked change time is the greatest of the events seen, and none exactly if none was seen |
| Sync.StoreFullBatches | src/events_aggregator/services/sync.py:119-133 | the loop stores whole batches only, keeps the rest, and stops at the first refused batch |
| Sync.FetchAndStore | src/events_aggregator/services/sync.py:105-160 | success exactly if the walk is complete and every batch accepted, then with the exact count and the latest change; otherwise a prefix of whole batches is stored, or all events if only the outcome of the last commit was lost; the table shows each stored event that no later one overwrites, field by field, with the time of this run, and other rows are as before |
| Sync.StoredShows | src/events_aggregator/services/sync.py:143-160 | upserting the first `n` events leaves a table that shows them field by field |
| Sync.DayStartIsMidnight | src/events_aggregator/services/sync.py:119-121 | the date that is asked for is the last midnight that is not later than the starting point |
| Sync.WholeBatchesIff | src/events_aggregator/services/sync.py:128-133 | a prefix of whole batches is one whose length is a multiple of the batch size |
| Sync.SyncMetadataRepository.Get | src/events_aggregator/db/repositories/sync.py:15-32 | the single row is created idle and without a watermark if missing |
| Sync.SyncMetadataRepository.MarkRunning | src/events_aggregator/db/repositories/sync.py:34-39 | status changes, the watermark stays |
| Sync.SyncMetadataRepository.MarkSuccess | src/events_aggregator/db/repositories/sync.py:41-53 | status and watermark are written |
| Sync.SyncMetadataRepository.MarkFailure | src/events_aggregator/db/repositories/sync.py:55-60 | status changes, the watermark stays |
| Sync.SyncService.DoSync | src/events_aggregator/services/sync.py:53-103 | it reads from 2000-01-01 if the run is full or there is no watermark, and from the day of the watermark otherwise, and stores a prefix of what it reads; it succeeds exactly if the chain is complete, the task survives and every batch and the final status are accepted; the watermark moves exactly if all was stored and the final status was written, and then to the latest change that was read, or to the starting point if nothing was; a task cancelled in the walk, in a batch or in the final update leaves RUNNING unless that update was applied, other failures before it leave FAILED |
| SyncConvergence.DoSyncIsStep | src/events_aggregator/services/sync.py:53-141 | what `DoSync` promises is one step of the convergence model, for a provider that serves its listing |
| SyncConvergence.Convergence | src/events_aggregator/services/sync.py:53-160 | after any mix of edits and full, incremental, failed and cancelled runs, a successful run leaves the local table equal, field by field, to the provider's events since 2000-01-01 |
| SyncConvergence.FullRunRepairs | src/events_aggregator/services/sync.py:59-62 | whatever the local table and the watermark are, a successful full run makes every event since 2000-01-01 current, with the time of that run, and changes no other row |
| SyncConvergence.IncrementalSkips | src/events_aggregator/services/sync.py:64-66 | an incremental run leaves the row of an event that last changed before the day of the watermark as it is, missing or outdated |
| SyncConvergence.RowsTracedOverRuns | src/events_aggregator/services/sync.py:143-160 | at the end of any run the local rows are those of the events that some run stored, and each shows its event, field by field, as it was listed to the last of these runs, with the time of that run |
| SyncConvergence.WatermarkIsLatest | src/events_aggregator/services/sync.py:81-88 | after a successful run the watermark is the provider's latest change since 2000-01-01, or that date if there is none |
| SyncConvergence.RunKeepsInv | src/events_aggregator/services/sync.py:59-88 | at all times each event is current locally or will be listed by the next incremental run |
| SyncConvergence.NothingMissed | src/events_aggregator/services/sync.py:59-88 | at any time of any run, each event since 2000-01-01 is current here or lies in the range of the next incremental run |
| SyncConvergence.WatermarkNeverFalls | src/events_aggregator/services/sync.py:81-88 | from any point of any run on the watermark never goes backwards, full runs and empty listings included |
| SyncConvergence.WatermarkStep | src/events_aggregator/services/sync.py:75-88 | an edit, a failed and a cancelled run leave the watermark unchanged, a successful one never lowers it |
| SyncLock.MutualExclusion | src/events_aggregator/services/sync.py:35-51 | over all services at most one run is active, nobody waits for the lock, and the lock is free exactly if no run is active, however the last one ended |
| SyncLock.TurnedAwayIff | src/events_aggregator/services/sync.py:47-48 | a call is turned away exactly if a run is active |
| Seats.SeatsCache.Get | src/events_aggregator/services/cache.py:13-14 | the stored list is returned exactly until its time limit |
| Seats.GetAfterSet | src/events_aggregator/services/cache.py:13-17 | a list that is stored is given out unchanged until its time limit and not from then on |
| Seats.GetAfterInvalidate | src/events_aggregator/services/cache.py:19-21 | nothing is given out after an invalidation, and other events are not touched |
| Seats.MachineUsesCache | src/events_aggregator/services/seats.py:22-36 | the step relation reads and writes its entries as the cache class does |
| Seats.ResolveAvailableSeats | src/events_aggregator/services/seats.py:10-36 | result and cache for every case: not published, hit, miss with each answer of the provider |
| Seats.ReturnedListsAreGenuine | src/events_aggregator/services/seats.py:22-36 | over every interleaving, each returned list is the very list that the provider gave for that event, during the call or stored less than the time limit before |
| SeatsFreshness.OutdatedIff | src/events_aggregator/services/seats.py:22-36 | at the end of any run an entry is outdated if and only if a seat of its event was taken or freed at the provider after the answer that it stems from, whatever became of that registration or cancellation here |
| SeatsFreshness.SettledOutdatedIff | src/events_aggregator/services/tickets.py:155 | if every registration and cancellation is followed by its invalidation: if and only if the entry was stored after an invalidation that was due to a seat taken or freed after its answer |
| SeatsFreshness.AlwaysUpToDateIff | src/events_aggregator/services/tickets.py:106-155 | over every run from the start: no entry ever predates the last registration or cancellation of its event, if and only if none takes effect between a provider's answer and its storing, and none while the event is cached |
| SeatsFreshness.FillIsLateIff | src/events_aggregator/services/seats.py:30-36 | at any point of any run, an answer about to be stored is outdated if and only if a seat of its event was taken or freed after the step that gave the answer |
| SeatsFreshness.OtherStepsKeepUpToDate | src/events_aggregator/services/cache.py:16-24 | no step other than a fill, a registration or a cancellation makes an entry outdated |
| SeatsFreshness.LateFillSurvives | src/events_aggregator/services/seats.py:31-36 | a run in which an outdated entry outlives the invalidation, although every registration completes |
| SeatsFreshness.FailedRegistrationStays | src/events_aggregator/services/tickets.py:113-155 | a run in which a registration takes its seat and fails before the invalidation, and the cached list stays outdated without any late fill |
| EventListing.FilteredKeeps | src/events_aggregator/db/repositories/events.py:59-63 | the filter keeps each row from the given day on, as often as the table has it, and no other |
| EventListing.PageShows | src/events_aggregator/services/events.py:38-58 | one page: the total is the number of wanted rows of the whole table, the results are the wanted rows from `(page - 1) * page_size` on, at most `page_size` of them, and `next` and `previous` are there exactly if those pages start inside the list |
| EventListing.FilteredInOrder | src/events_aggregator/db/repositories/events.py:57-63 | the rows that are kept stay ordered by event time |
| EventListing.StartIsProduct | src/events_aggregator/services/events.py:40 | the start of a page, written as repeated addition, is `(page - 1) * page_size` |
| EventListing.FollowNextCovers | src/events_aggregator/services/events.py:31-58 | following `next` from page 1 shows each filtered row once and in order, on ceil(total / page size) pages, or on one if there is nothing |
| EventListing.FollowNextAt | src/events_aggregator/services/events.py:84-106 | the page at position `i` of the walk is the listing with number `1 + i` |
| EventListing.PreviousUndoesNext | src/events_aggregator/services/events.py:47-58 | `previous` of the next page leads back to the same page |
| EventListing.NextUndoesPreviousIff | src/events_aggregator/services/events.py:93-96 | `next` of the previous page leads back if and only if the page is not past the end |
| EventListing.EndpointServesAllIff | src/events_aggregator/api/endpoints/events.py:24-28 | every `next` link is accepted by the endpoint if and only if the list fits on 100 pages |

## Left out

- HTTP, JSON and schema validation: a remote call is one of its outcomes, arbitrary each time.
- PostgreSQL and SQLAlchemy beyond what is assumed above, and the columns `created_at` of tickets and keys, `status_code`, and the texts and times of `sync_metadata`.
- Waiting for an advisory lock or a row lock: such a step is not enabled while the lock is taken; deadlocks and timeouts are not modelled.
- Progress with several workers: the bound on batches is for one publisher without failed commits or lost connections.
- Rows of the outbox that share a creation time: the step relation allows any order among them, the single-publisher table takes the stored one.
- Events that share an `event_time`: the listing is stated for one fixed order of the table, which the query alone does not give.
- Edits at the provider during one synchronisation, and deletions at the provider.
- Two processes that synchronise at once: the lock is per process.
- A failing or interrupted commit of `mark_running`, `mark_failure` or the first creation of `sync_metadata`.
- Metrics, logging, routing, the scheduler, settings, migrations, converters and the lifespan of the application.
- The wording of messages and error texts, and the cutting of the error text at 2000 characters beyond the stored value.
- The choice which cache entries make room for a new one: any may vanish at any time.
- TicketService.TicketService.Register: one call without interference and with a commit whose outcome is known; the advisory lock and interleaving are in the step relation.
- Seats.ResolveAvailableSeats: no other call runs during the provider call; interleaving is in the step relation of the same module.
- SeatsFreshness.SettledOutdatedIff: the premise fails for a cancellation that ends in the 404 branch, a registration or cancellation whose reply or commit is lost, and seats sold by others; `SeatsFreshness.OutdatedIff` covers them.
- PublisherBound.BoundOverRuns: batches without a failed commit or a lost connection, and requests that commit between batches rather than during one, each with a later creation time than the rows before it.
- RegistrationTheorems.LimitKept: posts whose result is never committed, because the worker or its connection dies, are not counted and not bounded.
- SyncConvergence.Convergence: events whose last change lies before 2000-01-01 are not copied, as in the source.
