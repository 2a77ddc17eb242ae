/** Registration, cancellation and delivery as one step relation: client requests,
    publisher workers, the provider and the receiver of notifications interleave at every
    `await`, and any of them may fail or vanish between two steps. */
module Registration {
  import opened Wrappers
  import opened Outbox
  import opened Capashino
  import opened OutboxPublisher
  import opened Fingerprint

  type Key = string
  type LockId = int
  type RequestId = nat
  type WorkerId = nat

  /** What the surroundings fix once: PostgreSQL's `hashtext` and SHA-256 are arbitrary
      functions here, and the provider names a ticket by its event and seat. */
  datatype Config = Config(hashtext: Key -> LockId, sha256: string -> string,
                           ticketOf: (string, string) -> TicketId,
                           batchSize: nat, maxAttempts: int)

  // ---- committed data ----

  datatype KeyRecord = KeyRecord(requestHash: string, ticketId: TicketId)

  /** The three tables, by primary key. A ticket row carries the fields of its form. */
  datatype Database = Database(tickets: map<TicketId, Form>, outbox: map<OutboxId, Row>, keys: map<Key, KeyRecord>)

  // ---- requests ----

  datatype Reason =
    | IdempotencyConflict | EventNotFound | RegistrationDeadlinePassed | EventNotPublished
    | NoAvailableSeats | SeatAlreadyTaken | RegistrationNotFound | ServerError

  /** Where a registration stands. `Vanished` is a request whose commit took effect and that
      got no success reply: its process died in between, or the acknowledgement of the
      commit was lost and the client saw a server error. */
  datatype Phase =
    | Arrived
    | Locked
    | Cleared
    | Admitted(eventName: string)
    | Granted(eventName: string, ticketId: TicketId)
    | Committed(ticketId: TicketId)
    | Replied(ticketId: TicketId)
    | Vanished(ticketId: TicketId)
    | Denied(reason: Reason)

  datatype CancelPhase =
    | Asked
    | Found(ticket: Form)
    | Confirmed(ticket: Form, success: bool)
    | Missing(ticket: Form)
    | Cancelled(success: bool)
    | Dropped
    | Refused(reason: Reason)

  /** `alive` tells whether the database connection of a registration still holds its
      transaction and therefore its advisory lock. */
  datatype Request =
    | Register(form: Form, key: Option<Key>, phase: Phase, alive: bool)
    | Unregister(ticketId: TicketId, step: CancelPhase)

  /** The event row and the seat list as `register` sees them, both arbitrary. */
  datatype SeatsView = Seats(seats: seq<string>) | SeatsNotFound | SeatsFailure
  datatype EventView = NoEvent | Event(name: string, deadlinePassed: bool, published: bool, seats: SeatsView)

  function Vetted(form: Form, view: EventView): Phase {
    match view
    case NoEvent => Denied(EventNotFound)
    case Event(name, deadlinePassed, published, seats) =>
      if deadlinePassed then Denied(RegistrationDeadlinePassed)
      else if !published then Denied(EventNotPublished)
      else
        match seats
        case SeatsNotFound => Denied(NoAvailableSeats)
        case SeatsFailure => Denied(ServerError)
        case Seats(free) =>
          if free == [] then Denied(NoAvailableSeats)
          else if form.seat !in free then Denied(SeatAlreadyTaken)
          else Admitted(name)
  }

  /** The provider's answer to a registration. A grant may take effect without its reply
      reaching the service. */
  datatype GrantAnswer = Grant(delivered: bool) | BadRequest | NotFound | GrantFailure

  function AfterGrantAnswer(eventName: string, ticketId: TicketId, answer: GrantAnswer): Phase {
    match answer
    case Grant(delivered) => if delivered then Granted(eventName, ticketId) else Denied(ServerError)
    case BadRequest => Denied(SeatAlreadyTaken)
    case NotFound => Denied(EventNotFound)
    case GrantFailure => Denied(ServerError)
  }

  /** The provider's answer to a cancellation: done, answered with `success=false`,
      unknown ticket, or a failure that may hide an effect. */
  datatype CancelAnswer = Freed | NotFreed | UnknownTicket | CancelFailure(freed: bool)

  function AfterCancelAnswer(ticket: Form, answer: CancelAnswer): CancelPhase {
    match answer
    case Freed => Confirmed(ticket, true)
    case NotFreed => Confirmed(ticket, false)
    case UnknownTicket => Missing(ticket)
    case CancelFailure(_) => Refused(ServerError)
  }

  // ---- publishing ----

  /** A worker's private copy of a row; it is not refreshed by commits. */
  datatype Copy = Copy(id: OutboxId, row: Row)

  /** A worker in the middle of a batch. `mark` is the result that it still has to commit.
      `alive` tells whether the connection that fetched the batch still holds its
      transaction; after the first commit of the batch there is no transaction to lose. */
  datatype Worker = Worker(batch: seq<Copy>, next: nat, mark: Option<Mark>, alive: bool)

  /** The parts of a notification that vary; its wording is fixed. */
  datatype Notification = Notification(eventName: string, seat: string, ticketId: TicketId, referenceId: TicketId)

  function NotificationFor(payload: Payload): Notification
    requires payload.Purchase?
  {
    Notification(payload.eventName, payload.seat, payload.ticketId, payload.ticketId)
  }

  // ---- history ----

  datatype Purchase = Purchase(request: RequestId, key: Option<Key>, requestHash: string, ticketId: TicketId)

  /** A committed cancellation: with its outbox row, or without one after a provider 404.
      `hit` tells whether the ticket row was still there. */
  datatype Cancel = Cancel(ticketId: TicketId, row: Option<OutboxId>, hit: bool)

  datatype SuccessReply = SuccessReply(key: Option<Key>, requestHash: string, ticketId: TicketId)

  /** What happened so far: purchases by their outbox row, the purchase that stored each
      key, the latest purchase of each ticket, cancellations and successful replies by
      request, what each registration saw when it was vetted, and how many results were
      committed for each outbox row. */
  datatype History = History(purchases: map<OutboxId, Purchase>, origin: map<Key, OutboxId>,
                             sold: map<TicketId, OutboxId>,
                             cancels: map<RequestId, Cancel>, replies: map<RequestId, SuccessReply>,
                             views: map<RequestId, EventView>, results: map<OutboxId, nat>)

  /** The results that were committed for a row. */
  function Results(s: State, id: OutboxId): nat {
    if id in s.past.results then s.past.results[id] else 0
  }

  datatype State = State(
    db: Database,
    requests: map<RequestId, Request>,
    live: set<TicketId>,
    workers: map<WorkerId, Worker>,
    inbox: map<OutboxId, Notification>,
    past: History)

  function Init(): State {
    State(Database(map[], map[], map[]), map[], {}, map[], map[],
          History(map[], map[], map[], map[], map[], map[], map[]))
  }

  // ---- helpers ----

  function WithPhase(s: State, r: RequestId, phase: Phase): State
    requires r in s.requests && s.requests[r].Register?
  {
    s.(requests := s.requests[r := s.requests[r].(phase := phase)])
  }

  function WithStep(s: State, r: RequestId, step: CancelPhase): State
    requires r in s.requests && s.requests[r].Unregister?
  {
    s.(requests := s.requests[r := s.requests[r].(step := step)])
  }

  predicate In(s: State, r: RequestId, phase: Phase) {
    r in s.requests && s.requests[r].Register? && s.requests[r].phase == phase
  }

  /** `pg_advisory_xact_lock`: the lock of a key belongs to the transaction that took it
      and is given back when that transaction commits, rolls back or is lost. */
  predicate Holds(q: Request) {
    && q.Register? && q.alive && q.key.Some?
    && (q.phase.Locked? || q.phase.Cleared? || q.phase.Admitted? || q.phase.Granted?)
  }

  ghost predicate LockFree(c: Config, s: State, l: LockId) {
    forall r :: r in s.requests && Holds(s.requests[r]) ==> c.hashtext(s.requests[r].key.value) != l
  }

  predicate AtGranted(s: State, r: RequestId) {
    r in s.requests && s.requests[r].Register? && s.requests[r].phase.Granted?
  }

  function TicketOf(c: Config, form: Form): TicketId {
    c.ticketOf(form.eventId, form.seat)
  }

  // ---- registration ----

  function Arrive(s: State, r: RequestId, form: Form, key: Option<Key>): State {
    s.(requests := s.requests[r := Register(form, key, Arrived, true)])
  }

  /** Whoever finds the lock taken waits for it. */
  ghost predicate CanTakeLock(c: Config, s: State, r: RequestId) {
    && In(s, r, Arrived)
    && s.requests[r].alive
    && s.requests[r].key.Some?
    && LockFree(c, s, c.hashtext(s.requests[r].key.value))
  }

  /** A request without a key neither locks nor looks. */
  predicate CanSkipKey(s: State, r: RequestId) {
    In(s, r, Arrived) && s.requests[r].key.None?
  }

  predicate CanCheckKey(s: State, r: RequestId) {
    In(s, r, Locked) && s.requests[r].alive && s.requests[r].key.Some?
  }

  function CheckKey(c: Config, s: State, r: RequestId): State
    requires CanCheckKey(s, r)
  {
    var q := s.requests[r];
    if q.key.value !in s.db.keys then WithPhase(s, r, Cleared)
    else
      var record := s.db.keys[q.key.value];
      if record.requestHash != RequestHash(c.sha256, q.form) then
        WithPhase(s, r, Denied(IdempotencyConflict))
      else
        WithReply(WithPhase(s, r, Replied(record.ticketId)), r,
                  SuccessReply(q.key, record.requestHash, record.ticketId))
  }

  function WithReply(s: State, r: RequestId, reply: SuccessReply): State {
    s.(past := s.past.(replies := s.past.replies[r := reply]))
  }

  predicate CanVet(s: State, r: RequestId) {
    In(s, r, Cleared) && s.requests[r].alive
  }

  function Vet(s: State, r: RequestId, view: EventView): State
    requires CanVet(s, r)
  {
    WithPhase(s, r, Vetted(s.requests[r].form, view)).(past := s.past.(views := s.past.views[r := view]))
  }

  /** The provider grants a seat only if no live registration holds its ticket. */
  predicate CanAskProvider(c: Config, s: State, r: RequestId, answer: GrantAnswer) {
    && r in s.requests && s.requests[r].Register? && s.requests[r].phase.Admitted?
    && (answer.Grant? ==> TicketOf(c, s.requests[r].form) !in s.live)
  }

  function AskProvider(c: Config, s: State, r: RequestId, answer: GrantAnswer): State
    requires CanAskProvider(c, s, r, answer)
  {
    var q := s.requests[r];
    var ticketId := TicketOf(c, q.form);
    var phase := AfterGrantAnswer(q.phase.eventName, ticketId, answer);
    WithPhase(s, r, phase).(live := if answer.Grant? then s.live + {ticketId} else s.live)
  }

  /** The commit of ticket, outbox row and key record succeeds only on a living
      connection and if no primary key is taken. */
  predicate CanCommitPurchase(s: State, r: RequestId, id: OutboxId) {
    && AtGranted(s, r)
    && s.requests[r].alive
    && s.requests[r].phase.ticketId !in s.db.tickets
    && id !in s.db.outbox
    && (s.requests[r].key.Some? ==> s.requests[r].key.value !in s.db.keys)
  }

  function PurchasePayload(form: Form, eventName: string, ticketId: TicketId): Payload {
    Payload.Purchase(ticketId, form.eventId, eventName, form.firstName, form.lastName, form.email, form.seat)
  }

  function Purchased(c: Config, db: Database, q: Request, id: OutboxId, now: int): Database
    requires q.Register? && q.phase.Granted?
  {
    Database(
      db.tickets[q.phase.ticketId := q.form],
      db.outbox[id := NewRow(TicketPurchased, PurchasePayload(q.form, q.phase.eventName, q.phase.ticketId), now)],
      if q.key.None? then db.keys
      else db.keys[q.key.value := KeyRecord(RequestHash(c.sha256, q.form), q.phase.ticketId)])
  }

  function CommitPurchase(c: Config, s: State, r: RequestId, id: OutboxId, now: int): State
    requires CanCommitPurchase(s, r, id)
  {
    var q := s.requests[r];
    WithPhase(s, r, Committed(q.phase.ticketId))
    .(db := Purchased(c, s.db, q, id, now),
      past := s.past.(sold := s.past.sold[q.phase.ticketId := id],
                      purchases := s.past.purchases[
                        id := Purchase.Purchase(r, q.key, RequestHash(c.sha256, q.form), q.phase.ticketId)],
                      origin := if q.key.None? then s.past.origin else s.past.origin[q.key.value := id]))
  }

  predicate CanReply(s: State, r: RequestId) {
    r in s.requests && s.requests[r].Register? && s.requests[r].phase.Committed?
  }

  function Answer(c: Config, s: State, r: RequestId): State
    requires CanReply(s, r)
  {
    var q := s.requests[r];
    WithReply(WithPhase(s, r, Replied(q.phase.ticketId)), r,
              SuccessReply(q.key, RequestHash(c.sha256, q.form), q.phase.ticketId))
  }

  predicate Uncommitted(phase: Phase) {
    phase.Arrived? || phase.Locked? || phase.Cleared? || phase.Admitted? || phase.Granted?
  }

  /** The server drops the connection: the transaction and its lock are gone, while the
      request goes on until it needs the database again. */
  predicate CanLoseConnection(s: State, r: RequestId) {
    && r in s.requests && s.requests[r].Register? && s.requests[r].alive
    && Uncommitted(s.requests[r].phase) && !s.requests[r].phase.Arrived?
  }

  function LoseConnection(s: State, r: RequestId): State
    requires CanLoseConnection(s, r)
  {
    s.(requests := s.requests[r := s.requests[r].(alive := false)])
  }

  /** An exception, a failed commit, a cancelled task or a dead process. */
  predicate CanAbort(s: State, r: RequestId) {
    && r in s.requests && s.requests[r].Register?
    && (Uncommitted(s.requests[r].phase) || s.requests[r].phase.Committed?)
  }

  function Abort(s: State, r: RequestId): State
    requires CanAbort(s, r)
  {
    var phase := s.requests[r].phase;
    WithPhase(s, r, if phase.Committed? then Vanished(phase.ticketId) else Denied(ServerError))
  }

  // ---- cancellation ----

  function ArriveCancel(s: State, r: RequestId, ticketId: TicketId): State {
    s.(requests := s.requests[r := Unregister(ticketId, Asked)])
  }

  predicate CanLookUp(s: State, r: RequestId) {
    r in s.requests && s.requests[r].Unregister? && s.requests[r].step.Asked?
  }

  function LookUp(s: State, r: RequestId): State
    requires CanLookUp(s, r)
  {
    var ticketId := s.requests[r].ticketId;
    WithStep(s, r, if ticketId in s.db.tickets then Found(s.db.tickets[ticketId]) else Refused(RegistrationNotFound))
  }

  /** The provider frees only a live ticket and reports a ticket as unknown only if it is
      not live. */
  predicate CanAskCancel(s: State, r: RequestId, answer: CancelAnswer) {
    && r in s.requests && s.requests[r].Unregister? && s.requests[r].step.Found?
    && (answer.Freed? ==> s.requests[r].ticketId in s.live)
    && (answer.UnknownTicket? ==> s.requests[r].ticketId !in s.live)
  }

  function AskCancel(s: State, r: RequestId, answer: CancelAnswer): State
    requires CanAskCancel(s, r, answer)
  {
    var q := s.requests[r];
    WithStep(s, r, AfterCancelAnswer(q.step.ticket, answer))
    .(live := if answer == Freed || answer == CancelFailure(true) then s.live - {q.ticketId} else s.live)
  }

  /** One commit adds the cancellation row and deletes the ticket row; a ticket row that is
      already gone does not make the commit fail. */
  predicate CanCommitCancel(s: State, r: RequestId, id: OutboxId) {
    && r in s.requests && s.requests[r].Unregister? && s.requests[r].step.Confirmed?
    && id !in s.db.outbox
  }

  function CommitCancel(s: State, r: RequestId, id: OutboxId, now: int): State
    requires CanCommitCancel(s, r, id)
  {
    var q := s.requests[r];
    var payload := Payload.Cancellation(q.ticketId, q.step.ticket.eventId, now);
    WithStep(s, r, Cancelled(q.step.success))
    .(db := s.db.(tickets := s.db.tickets - {q.ticketId},
                  outbox := s.db.outbox[id := NewRow(TicketCancelled, payload, now)]),
      past := s.past.(cancels := s.past.cancels[r := Cancel(q.ticketId, Some(id), q.ticketId in s.db.tickets)]))
  }

  predicate CanCommitDrop(s: State, r: RequestId) {
    r in s.requests && s.requests[r].Unregister? && s.requests[r].step.Missing?
  }

  /** After a provider 404 the ticket row is deleted without an outbox row. */
  function CommitDrop(s: State, r: RequestId): State
    requires CanCommitDrop(s, r)
  {
    var q := s.requests[r];
    WithStep(s, r, Dropped)
    .(db := s.db.(tickets := s.db.tickets - {q.ticketId}),
      past := s.past.(cancels := s.past.cancels[r := Cancel(q.ticketId, None, q.ticketId in s.db.tickets)]))
  }

  predicate CanAbortCancel(s: State, r: RequestId) {
    && r in s.requests && s.requests[r].Unregister?
    && var step := s.requests[r].step;
    step.Asked? || step.Found? || step.Confirmed? || step.Missing?
  }

  function AbortCancel(s: State, r: RequestId): State
    requires CanAbortCancel(s, r)
  {
    WithStep(s, r, Refused(ServerError))
  }

  // ---- publishing ----

  /** `FOR UPDATE`: a batch is locked by the transaction that fetched it, which ends with
      the first commit of the batch or with its connection. */
  ghost predicate RowLocked(s: State, id: OutboxId, w: WorkerId) {
    && w in s.workers
    && s.workers[w].alive && s.workers[w].next == 0
    && exists i :: 0 <= i < |s.workers[w].batch| && s.workers[w].batch[i].id == id
  }

  ghost predicate Fetchable(s: State, id: OutboxId) {
    && id in s.db.outbox && s.db.outbox[id].status.Pending?
    && forall w :: w in s.workers ==> !RowLocked(s, id, w)
  }

  /** A batch: the oldest pending rows that nobody has locked, as many as the limit allows. */
  ghost predicate CanFetch(c: Config, s: State, w: WorkerId, ids: seq<OutboxId>) {
    && w !in s.workers
    && 0 < |ids| <= c.batchSize
    && (forall i :: 0 <= i < |ids| ==> Fetchable(s, ids[i]))
    && (forall i, j :: 0 <= i < j < |ids| ==>
          ids[i] != ids[j] && s.db.outbox[ids[i]].createdAt <= s.db.outbox[ids[j]].createdAt)
    && (forall id :: Fetchable(s, id) && id !in ids ==>
          |ids| == c.batchSize && s.db.outbox[ids[|ids| - 1]].createdAt <= s.db.outbox[id].createdAt)
  }

  function Copies(outbox: map<OutboxId, Row>, ids: seq<OutboxId>): seq<Copy>
    requires forall i :: 0 <= i < |ids| ==> ids[i] in outbox
  {
    seq(|ids|, i requires 0 <= i < |ids| => Copy(ids[i], outbox[ids[i]]))
  }

  function Fetch(s: State, w: WorkerId, ids: seq<OutboxId>): State
    requires forall i :: 0 <= i < |ids| ==> ids[i] in s.db.outbox
  {
    s.(workers := s.workers[w := Worker(Copies(s.db.outbox, ids), 0, None, true)])
  }

  predicate Busy(s: State, w: WorkerId) {
    w in s.workers && s.workers[w].next < |s.workers[w].batch|
  }

  predicate Posts(copy: Copy) {
    copy.row.eventType.TicketPurchased? && copy.row.payload.Purchase?
  }

  /** The receiver keeps one notification per idempotency key: a readable success means
      that it has one, a conflict that it had one before. Any other answer may hide that
      the notification was accepted. */
  predicate CanSend(s: State, w: WorkerId, reply: Capashino.Reply, accepted: bool) {
    && Busy(s, w)
    && s.workers[w].mark.None?
    && var copy := s.workers[w].batch[s.workers[w].next];
    && (accepted ==> Posts(copy))
    && (Posts(copy) && SendNotification(reply).Ok? ==> accepted)
    && (Posts(copy) && reply.Response? && reply.code == CONFLICT ==> copy.id in s.inbox)
  }

  function Send(c: Config, s: State, w: WorkerId, reply: Capashino.Reply, accepted: bool): State
    requires CanSend(s, w, reply, accepted)
  {
    var worker := s.workers[w];
    var copy := worker.batch[worker.next];
    s.(workers := s.workers[w := worker.(mark := Some(MarkFor(Dispatch(copy.row, reply), c.maxAttempts)))],
       inbox := if accepted && copy.id !in s.inbox then s.inbox[copy.id := NotificationFor(copy.row.payload)]
                else s.inbox)
  }

  /** The server drops the connection of a worker that has not committed anything yet: the
      row locks are gone, while the worker goes on until its commit fails. */
  predicate CanDropConnection(s: State, w: WorkerId) {
    Busy(s, w) && s.workers[w].alive && s.workers[w].next == 0
  }

  function DropConnection(s: State, w: WorkerId): State
    requires CanDropConnection(s, w)
  {
    s.(workers := s.workers[w := s.workers[w].(alive := false)])
  }

  /** The commit of one result needs the connection and waits for a row lock that another
      worker holds. */
  ghost predicate CanRecord(s: State, w: WorkerId) {
    && Busy(s, w)
    && s.workers[w].alive
    && s.workers[w].mark.Some?
    && var id := s.workers[w].batch[s.workers[w].next].id;
    && id in s.db.outbox
    && forall w' :: w' in s.workers && w' != w ==> !RowLocked(s, id, w')
  }

  /** The commit overwrites the changed fields from the private copy and ends the
      transaction, so the rest of the batch is no longer locked. */
  function Record(s: State, w: WorkerId, now: int): State
    requires CanRecord(s, w)
  {
    var worker := s.workers[w];
    var copy := worker.batch[worker.next];
    var row := AfterMark(s.db.outbox[copy.id], copy.row, worker.mark.value, now);
    s.(db := s.db.(outbox := s.db.outbox[copy.id := row]),
       past := s.past.(results := s.past.results[copy.id := Results(s, copy.id) + 1]),
       workers := if worker.next + 1 == |worker.batch| then s.workers - {w}
                  else s.workers[w := worker.(next := worker.next + 1, mark := None)])
  }

  /** A failed commit or a dead worker. */
  function Quit(s: State, w: WorkerId): State {
    s.(workers := s.workers - {w})
  }

  // ---- the step relation ----

  datatype RegisterStep =
    | DoArrive(form: Form, key: Option<Key>)
    | DoTakeLock
    | DoSkipKey
    | DoCheckKey
    | DoVet(view: EventView)
    | DoAskProvider(grant: GrantAnswer)
    | DoCommitPurchase(id: OutboxId, now: int)
    | DoReply
    | DoLoseConnection
    | DoAbort

  ghost predicate CanRegister(c: Config, s: State, r: RequestId, step: RegisterStep) {
    match step
    case DoArrive(_, _) => r !in s.requests
    case DoTakeLock => CanTakeLock(c, s, r)
    case DoSkipKey => CanSkipKey(s, r)
    case DoCheckKey => CanCheckKey(s, r)
    case DoVet(_) => CanVet(s, r)
    case DoAskProvider(grant) => CanAskProvider(c, s, r, grant)
    case DoCommitPurchase(id, _) => CanCommitPurchase(s, r, id)
    case DoReply => CanReply(s, r)
    case DoLoseConnection => CanLoseConnection(s, r)
    case DoAbort => CanAbort(s, r)
  }

  ghost function RegisterTo(c: Config, s: State, r: RequestId, step: RegisterStep): State
    requires CanRegister(c, s, r, step)
  {
    match step
    case DoArrive(form, key) => Arrive(s, r, form, key)
    case DoTakeLock => WithPhase(s, r, Locked)
    case DoSkipKey => WithPhase(s, r, Cleared)
    case DoCheckKey => CheckKey(c, s, r)
    case DoVet(view) => Vet(s, r, view)
    case DoAskProvider(grant) => AskProvider(c, s, r, grant)
    case DoCommitPurchase(id, now) => CommitPurchase(c, s, r, id, now)
    case DoReply => Answer(c, s, r)
    case DoLoseConnection => LoseConnection(s, r)
    case DoAbort => Abort(s, r)
  }

  datatype CancelStep =
    | DoArriveCancel(ticketId: TicketId)
    | DoLookUp
    | DoAskCancel(answer: CancelAnswer)
    | DoCommitCancel(id: OutboxId, now: int)
    | DoCommitDrop
    | DoAbortCancel

  ghost predicate CanCancel(s: State, r: RequestId, step: CancelStep) {
    match step
    case DoArriveCancel(_) => r !in s.requests
    case DoLookUp => CanLookUp(s, r)
    case DoAskCancel(answer) => CanAskCancel(s, r, answer)
    case DoCommitCancel(id, _) => CanCommitCancel(s, r, id)
    case DoCommitDrop => CanCommitDrop(s, r)
    case DoAbortCancel => CanAbortCancel(s, r)
  }

  ghost function CancelTo(s: State, r: RequestId, step: CancelStep): State
    requires CanCancel(s, r, step)
  {
    match step
    case DoArriveCancel(ticketId) => ArriveCancel(s, r, ticketId)
    case DoLookUp => LookUp(s, r)
    case DoAskCancel(answer) => AskCancel(s, r, answer)
    case DoCommitCancel(id, now) => CommitCancel(s, r, id, now)
    case DoCommitDrop => CommitDrop(s, r)
    case DoAbortCancel => AbortCancel(s, r)
  }

  datatype PublishStep =
    | DoFetch(ids: seq<OutboxId>)
    | DoSend(reply: Capashino.Reply, accepted: bool)
    | DoRecord(now: int)
    | DoDropConnection
    | DoQuit

  ghost predicate CanPublish(c: Config, s: State, w: WorkerId, step: PublishStep) {
    match step
    case DoFetch(ids) => CanFetch(c, s, w, ids)
    case DoSend(reply, accepted) => CanSend(s, w, reply, accepted)
    case DoRecord(_) => CanRecord(s, w)
    case DoDropConnection => CanDropConnection(s, w)
    case DoQuit => w in s.workers
  }

  ghost function PublishTo(c: Config, s: State, w: WorkerId, step: PublishStep): State
    requires CanPublish(c, s, w, step)
  {
    match step
    case DoFetch(ids) => Fetch(s, w, ids)
    case DoSend(reply, accepted) => Send(c, s, w, reply, accepted)
    case DoRecord(now) => Record(s, w, now)
    case DoDropConnection => DropConnection(s, w)
    case DoQuit => Quit(s, w)
  }

  datatype Step =
    | Registering(r: RequestId, register: RegisterStep)
    | Cancelling(r: RequestId, cancel: CancelStep)
    | Publishing(w: WorkerId, publish: PublishStep)

  ghost predicate Enabled(c: Config, s: State, step: Step) {
    match step
    case Registering(r, register) => CanRegister(c, s, r, register)
    case Cancelling(r, cancel) => CanCancel(s, r, cancel)
    case Publishing(w, publish) => CanPublish(c, s, w, publish)
  }

  ghost function Do(c: Config, s: State, step: Step): State
    requires Enabled(c, s, step)
  {
    match step
    case Registering(r, register) => RegisterTo(c, s, r, register)
    case Cancelling(r, cancel) => CancelTo(s, r, cancel)
    case Publishing(w, publish) => PublishTo(c, s, w, publish)
  }

  /** `steps` can be taken one after another from `s`. */
  ghost predicate Run(c: Config, s: State, steps: seq<Step>)
    decreases |steps|
  {
    steps == [] || (Enabled(c, s, steps[0]) && Run(c, Do(c, s, steps[0]), steps[1..]))
  }

  ghost function Exec(c: Config, s: State, steps: seq<Step>): State
    requires Run(c, s, steps)
    decreases |steps|
  {
    if steps == [] then s else Exec(c, Do(c, s, steps[0]), steps[1..])
  }

  /** The states that the service can be in. */
  ghost predicate Reachable(c: Config, s: State) {
    exists steps: seq<Step> :: Run(c, Init(), steps) && Exec(c, Init(), steps) == s
  }

  ghost predicate KeepsConnections(steps: seq<Step>) {
    forall i :: 0 <= i < |steps| ==> !(steps[i].Publishing? && steps[i].publish.DoDropConnection?)
  }

  /** The states that it can be in if no worker loses its connection. */
  ghost predicate ReachableUnbroken(c: Config, s: State) {
    exists steps: seq<Step> :: Run(c, Init(), steps) && KeepsConnections(steps) && Exec(c, Init(), steps) == s
  }

  lemma UnbrokenIsReachable(c: Config, s: State)
    requires ReachableUnbroken(c, s)
    ensures Reachable(c, s)
  {
    var steps: seq<Step> :| Run(c, Init(), steps) && KeepsConnections(steps) && Exec(c, Init(), steps) == s;
  }

  lemma {:induction false} Extend(c: Config, s: State, steps: seq<Step>, step: Step)
    requires Run(c, s, steps) && Enabled(c, Exec(c, s, steps), step)
    ensures Run(c, s, steps + [step]) && Exec(c, s, steps + [step]) == Do(c, Exec(c, s, steps), step)
    decreases |steps|
  {
    if steps == [] {
      assert [step][1..] == [];
      assert steps + [step] == [step];
      assert Run(c, Do(c, s, step), []);
    } else {
      assert (steps + [step])[1..] == steps[1..] + [step];
      Extend(c, Do(c, s, steps[0]), steps[1..], step);
    }
  }
}
