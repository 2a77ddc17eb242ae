/** The ticket service as one call runs it: early returns, staged writes and one commit.
    Each call is proved to do what the step relation of `Registration` does when the same
    request runs without interference. */
module TicketService {
  import opened Wrappers
  import opened Outbox
  import opened Fingerprint
  import opened Registration
  import Seats

  /** The event row that `register` reads. */
  datatype EventRow = EventRow(name: string, registrationDeadline: int, published: bool)

  /** What `resolve_available_seats` gives for a published event. */
  function SeatsSeen(cached: Option<seq<string>>, provider: Seats.ProviderSeats): SeatsView {
    match cached
    case Some(seats) => SeatsView.Seats(seats)
    case None =>
      match provider
      case Listed(seats) => SeatsView.Seats(seats)
      case NotFound => SeatsNotFound
      case Failure => SeatsFailure
  }

  function ViewOf(event: Option<EventRow>, now: int, seats: SeatsView): EventView {
    match event
    case None => NoEvent
    case Some(row) => Event(row.name, row.registrationDeadline <= now, row.published, seats)
  }

  /** The surroundings of one call: the clock, the provider's answers, the fresh outbox id
      and whether the database accepts the commit. */
  datatype RegisterEnv = RegisterEnv(event: Option<EventRow>, now: int, later: int, seats: Seats.ProviderSeats,
                                     evicted: set<string>, grant: GrantAnswer, commits: bool, id: OutboxId)

  /** What the lookup of the seats leaves in the cache, if the call gets that far. */
  function Filled(entries: map<string, Seats.Entry>, ttl: int, form: Form, env: RegisterEnv): map<string, Seats.Entry> {
    var open := env.event.Some? && env.event.value.registrationDeadline > env.now && env.event.value.published;
    if open && env.seats.Listed? && Seats.Lookup(entries, ttl, form.eventId, env.now).None? then
      (entries - env.evicted)[form.eventId := Seats.Entry(env.seats.seats, env.later)]
    else entries
  }

  /** What the check of the key decides. */
  function Checked(c: Config, db: Database, form: Form, key: Option<Key>): Phase {
    if key.None? || key.value !in db.keys then Cleared
    else
      var record := db.keys[key.value];
      if record.requestHash == RequestHash(c.sha256, form) then Replied(record.ticketId)
      else Denied(IdempotencyConflict)
  }

  function Final(reply: Result<TicketId, Reason>): Phase {
    match reply
    case Ok(ticketId) => Replied(ticketId)
    case Err(reason) => Denied(reason)
  }

  /** What one registration leaves in the database and answers. */
  function Registered(c: Config, db: Database, form: Form, key: Option<Key>, view: EventView,
                      grant: GrantAnswer, commits: bool, id: OutboxId, now: int): (Database, Result<TicketId, Reason>) {
    var ticketId := TicketOf(c, form);
    if key.Some? && key.value in db.keys then
      var record := db.keys[key.value];
      (db, if record.requestHash == RequestHash(c.sha256, form) then Ok(record.ticketId) else Err(IdempotencyConflict))
    else
      match Vetted(form, view)
      case Denied(reason) => (db, Err(reason))
      case Admitted(name) =>
        (match AfterGrantAnswer(name, ticketId, grant)
         case Denied(reason) => (db, Err(reason))
         case Granted(_, _) =>
           if commits && ticketId !in db.tickets && id !in db.outbox then
             (Purchased(c, db, Register(form, key, Granted(name, ticketId), true), id, now), Ok(ticketId))
           else (db, Err(ServerError)))
  }

  function CancelledOnce(db: Database, ticketId: TicketId, answer: CancelAnswer,
                         commits: bool, id: OutboxId, now: int): (Database, Result<bool, Reason>) {
    if ticketId !in db.tickets then (db, Err(RegistrationNotFound))
    else
      match AfterCancelAnswer(db.tickets[ticketId], answer)
      case Refused(reason) => (db, Err(reason))
      case Missing(_) =>
        if commits then (db.(tickets := db.tickets - {ticketId}), Err(RegistrationNotFound)) else (db, Err(ServerError))
      case Confirmed(ticket, success) =>
        if commits && id !in db.outbox then
          var payload := Payload.Cancellation(ticketId, ticket.eventId, now);
          (db.(tickets := db.tickets - {ticketId},
               outbox := db.outbox[id := NewRow(TicketCancelled, payload, now)]), Ok(success))
        else (db, Err(ServerError))
  }

  function CancelOutcome(step: CancelPhase): Option<Result<bool, Reason>> {
    match step
    case Cancelled(success) => Some(Ok(success))
    case Dropped => Some(Err(RegistrationNotFound))
    case Refused(reason) => Some(Err(reason))
    case _ => None
  }

  // ---- what the outcomes mean ----

  /** `Registered` for the view that a call gets of its event, with the cache `entries`. */
  function Outcome(c: Config, db: Database, entries: map<string, Seats.Entry>, ttl: int, form: Form, key: Option<Key>,
                   env: RegisterEnv): (Database, Result<TicketId, Reason>) {
    var cached := Seats.Lookup(entries, ttl, form.eventId, env.now);
    var view := ViewOf(env.event, env.now, SeatsSeen(cached, env.seats));
    Registered(c, db, form, key, view, env.grant, env.commits, env.id, env.now)
  }

  /** The key was used before. */
  predicate Used(db: Database, key: Option<Key>) {
    key.Some? && key.value in db.keys
  }

  /** The event exists, its deadline is to come, and it is published. */
  predicate Open(env: RegisterEnv) {
    env.event.Some? && env.event.value.registrationDeadline > env.now && env.event.value.published
  }

  /** The cache has a list for the event that is within its time limit. */
  predicate Hit(entries: map<string, Seats.Entry>, ttl: int, form: Form, env: RegisterEnv) {
    form.eventId in entries && env.now < entries[form.eventId].storedAt + ttl
  }

  /** The list of free seats comes from the cache or from the provider. */
  predicate Offered(entries: map<string, Seats.Entry>, ttl: int, form: Form, env: RegisterEnv, seats: seq<string>) {
    if Hit(entries, ttl, form, env) then seats == entries[form.eventId].seats else env.seats == Seats.Listed(seats)
  }

  /** The registration gets as far as the provider. */
  predicate Asks(db: Database, entries: map<string, Seats.Entry>, ttl: int, form: Form, key: Option<Key>,
                 env: RegisterEnv) {
    && !Used(db, key) && Open(env)
    && if Hit(entries, ttl, form, env) then form.seat in entries[form.eventId].seats
       else env.seats.Listed? && form.seat in env.seats.seats
  }

  /** Why a registration is refused before the provider is asked, in the words of its
      surroundings. */
  lemma RefusedEarlyIff(c: Config, db: Database, entries: map<string, Seats.Entry>, ttl: int, form: Form,
                        key: Option<Key>, env: RegisterEnv)
    ensures var reply := Outcome(c, db, entries, ttl, form, key, env).1;
            && (reply == Err(IdempotencyConflict) <==>
                  Used(db, key) && db.keys[key.value].requestHash != RequestHash(c.sha256, form))
            && (reply == Err(RegistrationDeadlinePassed) <==>
                  !Used(db, key) && env.event.Some? && env.event.value.registrationDeadline <= env.now)
            && (reply == Err(EventNotPublished) <==>
                  && !Used(db, key) && env.event.Some? && env.event.value.registrationDeadline > env.now
                  && !env.event.value.published)
            && (reply == Err(NoAvailableSeats) <==>
                  && !Used(db, key) && Open(env)
                  && (Offered(entries, ttl, form, env, [])
                      || (!Hit(entries, ttl, form, env) && env.seats == Seats.NotFound)))
            && reply != Err(RegistrationNotFound)
  {
  }

  /** Why it is refused when the provider is asked, or not even that: the provider's answer,
      a failure, or the commit. */
  lemma RefusedLateIff(c: Config, db: Database, entries: map<string, Seats.Entry>, ttl: int, form: Form,
                       key: Option<Key>, env: RegisterEnv)
    ensures var reply := Outcome(c, db, entries, ttl, form, key, env).1;
            var asks := Asks(db, entries, ttl, form, key, env);
            var commits := env.commits && TicketOf(c, form) !in db.tickets && env.id !in db.outbox;
            && (reply == Err(EventNotFound) <==>
                  (!Used(db, key) && env.event.None?) || (asks && env.grant == NotFound))
            && (reply == Err(SeatAlreadyTaken) <==>
                  || (asks && env.grant == BadRequest)
                  || (!Used(db, key) && Open(env)
                      && exists seats :: Offered(entries, ttl, form, env, seats) && seats != [] && form.seat !in seats))
            && (reply == Err(ServerError) <==>
                  || (!Used(db, key) && Open(env) && !Hit(entries, ttl, form, env) && env.seats == Seats.Failure)
                  || (asks && (env.grant == GrantFailure || env.grant == Grant(false)
                               || (env.grant == Grant(true) && !commits))))
  {
    var reply := Outcome(c, db, entries, ttl, form, key, env).1;
    if reply == Err(SeatAlreadyTaken) && !Asks(db, entries, ttl, form, key, env) {
      var seats := if Hit(entries, ttl, form, env) then entries[form.eventId].seats else env.seats.seats;
      assert Offered(entries, ttl, form, env, seats);
    }
  }

  /** A registration succeeds exactly on a key that was used with this fingerprint, and then
      changes nothing, or when it gets to the provider, is granted the seat and commits: then
      it leaves one ticket row, one pending row that repeats the form, and the key record.
      A refusal leaves everything as it was. */
  lemma BoughtIff(c: Config, db: Database, entries: map<string, Seats.Entry>, ttl: int, form: Form,
                  key: Option<Key>, env: RegisterEnv)
    ensures var (after, reply) := Outcome(c, db, entries, ttl, form, key, env);
            var t := c.ticketOf(form.eventId, form.seat);
            var bought := && Asks(db, entries, ttl, form, key, env) && env.grant == Grant(true)
                          && env.commits && t !in db.tickets && env.id !in db.outbox;
            && (reply.Ok? <==>
                  bought || (Used(db, key) && db.keys[key.value].requestHash == RequestHash(c.sha256, form)))
            && (Used(db, key) && reply.Ok? ==> reply.value == db.keys[key.value].ticketId)
            && (!bought ==> after == db)
            && (bought ==>
                  && reply.value == t
                  && after.tickets == db.tickets[t := form]
                  && after.outbox == db.outbox[env.id := Row(
                       TicketPurchased, Payload.Purchase(t, form.eventId, env.event.value.name, form.firstName,
                                                         form.lastName, form.email, form.seat),
                       Pending, 0, None, env.now, None)]
                  && after.keys == if key.None? then db.keys
                                   else db.keys[key.value := KeyRecord(RequestHash(c.sha256, form), t)])
  {
  }

  // ---- a call without interference is a run of the step relation ----

  /** `steps` lead from `s` to `after`, where the tables and the provider are as in `base`
      and request `r` is `q`. */
  ghost predicate Leads(c: Config, s: State, steps: seq<Step>, after: State, r: RequestId, q: Request) {
    && Run(c, s, steps) && Exec(c, s, steps) == after
    && r in after.requests && after.requests[r] == q
  }

  lemma CheckRun(c: Config, s: State, r: RequestId, form: Form, key: Option<Key>)
    returns (steps: seq<Step>, after: State)
    requires r !in s.requests
    requires key.Some? ==> LockFree(c, s, c.hashtext(key.value))
    ensures Leads(c, s, steps, after, r, Register(form, key, Checked(c, s.db, form, key), true))
    ensures after.db == s.db && after.live == s.live
  {
    var s1 := Arrive(s, r, form, key);
    var none: seq<Step> := [];
    assert Run(c, s, none) && Exec(c, s, none) == s;
    Extend(c, s, none, Registering(r, DoArrive(form, key)));
    steps := none + [Registering(r, DoArrive(form, key))];
    if key.None? {
      Extend(c, s, steps, Registering(r, DoSkipKey));
      steps := steps + [Registering(r, DoSkipKey)];
      after := WithPhase(s1, r, Cleared);
    } else {
      assert LockFree(c, s1, c.hashtext(key.value));
      Extend(c, s, steps, Registering(r, DoTakeLock));
      steps := steps + [Registering(r, DoTakeLock)];
      Extend(c, s, steps, Registering(r, DoCheckKey));
      steps := steps + [Registering(r, DoCheckKey)];
      after := CheckKey(c, WithPhase(s1, r, Locked), r);
    }
  }

  lemma VetRun(c: Config, s: State, before: seq<Step>, mid: State, r: RequestId, form: Form, key: Option<Key>,
               view: EventView)
    returns (steps: seq<Step>, after: State)
    requires Leads(c, s, before, mid, r, Register(form, key, Cleared, true))
    ensures Leads(c, s, steps, after, r, Register(form, key, Vetted(form, view), true))
    ensures after.db == mid.db && after.live == mid.live
  {
    Extend(c, s, before, Registering(r, DoVet(view)));
    steps := before + [Registering(r, DoVet(view))];
    after := Vet(mid, r, view);
  }

  lemma GrantRun(c: Config, s: State, before: seq<Step>, mid: State, r: RequestId, form: Form, key: Option<Key>,
                 name: string, grant: GrantAnswer)
    returns (steps: seq<Step>, after: State)
    requires Leads(c, s, before, mid, r, Register(form, key, Admitted(name), true))
    requires grant.Grant? ==> TicketOf(c, form) !in mid.live
    ensures Leads(c, s, steps, after, r, Register(form, key, AfterGrantAnswer(name, TicketOf(c, form), grant), true))
    ensures after.db == mid.db
  {
    Extend(c, s, before, Registering(r, DoAskProvider(grant)));
    steps := before + [Registering(r, DoAskProvider(grant))];
    after := AskProvider(c, mid, r, grant);
  }

  lemma CommitRun(c: Config, s: State, before: seq<Step>, mid: State, r: RequestId, q: Request,
                  commits: bool, id: OutboxId, now: int)
    returns (steps: seq<Step>, after: State)
    requires Leads(c, s, before, mid, r, q) && q.Register? && q.phase.Granted? && q.alive
    ensures var done := commits && CanCommitPurchase(mid, r, id);
            && Leads(c, s, steps, after, r,
                 q.(phase := if done then Replied(q.phase.ticketId) else Denied(ServerError)))
            && after.db == if done then Purchased(c, mid.db, q, id, now) else mid.db
  {
    if commits && CanCommitPurchase(mid, r, id) {
      Extend(c, s, before, Registering(r, DoCommitPurchase(id, now)));
      steps := before + [Registering(r, DoCommitPurchase(id, now))];
      var bought := CommitPurchase(c, mid, r, id, now);
      Extend(c, s, steps, Registering(r, DoReply));
      steps := steps + [Registering(r, DoReply)];
      after := Answer(c, bought, r);
    } else {
      Extend(c, s, before, Registering(r, DoAbort));
      steps := before + [Registering(r, DoAbort)];
      after := Abort(mid, r);
    }
  }

  /** `Registered` is what the step relation does: from any state in which the lock of the
      key is free, request `r` alone can be run to that database and that answer. */
  lemma RegisteredIsRun(c: Config, s: State, r: RequestId, form: Form, key: Option<Key>, view: EventView,
                        grant: GrantAnswer, commits: bool, id: OutboxId, now: int)
    returns (steps: seq<Step>, after: State)
    requires r !in s.requests
    requires key.Some? ==> LockFree(c, s, c.hashtext(key.value))
    requires grant.Grant? ==> TicketOf(c, form) !in s.live
    ensures var (db, reply) := Registered(c, s.db, form, key, view, grant, commits, id, now);
            && Leads(c, s, steps, after, r, Register(form, key, Final(reply), true))
            && after.db == db
  {
    steps, after := CheckRun(c, s, r, form, key);
    if Checked(c, s.db, form, key).Cleared? {
      steps, after := VetRun(c, s, steps, after, r, form, key, view);
      var vetted := Vetted(form, view);
      if vetted.Admitted? {
        steps, after := GrantRun(c, s, steps, after, r, form, key, vetted.eventName, grant);
        var granted := AfterGrantAnswer(vetted.eventName, TicketOf(c, form), grant);
        if granted.Granted? {
          steps, after := CommitRun(c, s, steps, after, r, Register(form, key, granted, true), commits, id, now);
        }
      }
    }
  }

  lemma LookUpRun(c: Config, s: State, r: RequestId, ticketId: TicketId) returns (steps: seq<Step>, after: State)
    requires r !in s.requests
    ensures Leads(c, s, steps, after, r, Unregister(ticketId,
                    if ticketId in s.db.tickets then Found(s.db.tickets[ticketId]) else Refused(RegistrationNotFound)))
    ensures after.db == s.db && after.live == s.live
  {
    var none: seq<Step> := [];
    assert Run(c, s, none) && Exec(c, s, none) == s;
    Extend(c, s, none, Cancelling(r, DoArriveCancel(ticketId)));
    steps := none + [Cancelling(r, DoArriveCancel(ticketId))];
    Extend(c, s, steps, Cancelling(r, DoLookUp));
    steps := steps + [Cancelling(r, DoLookUp)];
    after := LookUp(ArriveCancel(s, r, ticketId), r);
  }

  lemma AskCancelRun(c: Config, s: State, before: seq<Step>, mid: State, r: RequestId, ticketId: TicketId,
                     ticket: Form, answer: CancelAnswer)
    returns (steps: seq<Step>, after: State)
    requires Leads(c, s, before, mid, r, Unregister(ticketId, Found(ticket)))
    requires answer.Freed? ==> ticketId in mid.live
    requires answer.UnknownTicket? ==> ticketId !in mid.live
    ensures Leads(c, s, steps, after, r, Unregister(ticketId, AfterCancelAnswer(ticket, answer)))
    ensures after.db == mid.db
  {
    Extend(c, s, before, Cancelling(r, DoAskCancel(answer)));
    steps := before + [Cancelling(r, DoAskCancel(answer))];
    after := AskCancel(mid, r, answer);
  }

  /** The last step of a cancellation: one of its two commits, or a failure. */
  lemma FinishCancelRun(c: Config, s: State, before: seq<Step>, mid: State, r: RequestId, step: CancelStep)
    returns (steps: seq<Step>, after: State)
    requires Run(c, s, before) && Exec(c, s, before) == mid && CanCancel(mid, r, step)
    ensures Run(c, s, steps) && Exec(c, s, steps) == after == CancelTo(mid, r, step)
  {
    Extend(c, s, before, Cancelling(r, step));
    steps := before + [Cancelling(r, step)];
    after := CancelTo(mid, r, step);
  }

  lemma CancelledOnceIsRun(c: Config, s: State, r: RequestId, ticketId: TicketId, answer: CancelAnswer,
                           commits: bool, id: OutboxId, now: int)
    returns (steps: seq<Step>, after: State)
    requires r !in s.requests
    requires answer.Freed? ==> ticketId in s.live
    requires answer.UnknownTicket? ==> ticketId !in s.live
    ensures var (db, reply) := CancelledOnce(s.db, ticketId, answer, commits, id, now);
            && Run(c, s, steps) && Exec(c, s, steps) == after
            && after.db == db
            && r in after.requests && after.requests[r].Unregister? &&
                 CancelOutcome(after.requests[r].step) == Some(reply)
  {
    steps, after := LookUpRun(c, s, r, ticketId);
    if ticketId in s.db.tickets {
      var ticket := s.db.tickets[ticketId];
      steps, after := AskCancelRun(c, s, steps, after, r, ticketId, ticket, answer);
      var phase := AfterCancelAnswer(ticket, answer);
      if !phase.Refused? {
        var step := if !commits || (phase.Confirmed? && id in s.db.outbox) then DoAbortCancel
                    else if phase.Missing? then DoCommitDrop
                    else DoCommitCancel(id, now);
        steps, after := FinishCancelRun(c, s, steps, after, r, step);
      }
    }
  }

  class TicketService {
    const c: Config
    const cache: Seats.SeatsCache
    var db: Database

    constructor (c: Config, cache: Seats.SeatsCache, db: Database)
      ensures this.c == c && this.cache == cache && this.db == db
    {
      this.c := c;
      this.cache := cache;
      this.db := db;
    }

    method Register(form: Form, key: Option<Key>, env: RegisterEnv) returns (reply: Result<TicketId, Reason>)
      modifies this`db, cache
      ensures (db, reply) == Outcome(c, old(db), old(cache.entries), cache.ttl, form, key, env)
      ensures var used := key.Some? && key.value in old(db).keys;
              var filled := if used then old(cache.entries) else Filled(old(cache.entries), cache.ttl, form, env);
              cache.entries == if reply.Ok? && !used then filled - {form.eventId} else filled
      ensures reply.Ok? && !Used(old(db), key) ==> form.eventId !in cache.entries
      ensures forall e :: e in cache.entries ==>
                || (e in old(cache.entries) && cache.entries[e] == old(cache.entries)[e])
                || (e == form.eventId && env.seats == Seats.Listed(cache.entries[e].seats)
                    && cache.entries[e].storedAt == env.later)
      ensures forall e :: e in old(cache.entries) && e != form.eventId && e !in cache.entries ==> e in env.evicted
    {
      var requestHash := RequestHash(c.sha256, form);
      if key.Some? && key.value in db.keys {
        var existing := db.keys[key.value];
        if existing.requestHash != requestHash {
          return Err(IdempotencyConflict);
        }
        return Ok(existing.ticketId);
      }

      if env.event.None? {
        return Err(EventNotFound);
      }
      var event := env.event.value;
      if event.registrationDeadline <= env.now {
        return Err(RegistrationDeadlinePassed);
      }
      var available := Seats.ResolveAvailableSeats(cache, form.eventId, event.published, env.now, env.later,
        env.seats, env.evicted);
      if available.Err? {
        return Err(match available.error
                   case EventNotPublished => EventNotPublished
                   case NoAvailableSeats => NoAvailableSeats
                   case ProviderFailure => ServerError);
      }
      if available.value == [] {
        return Err(NoAvailableSeats);
      }
      if form.seat !in available.value {
        return Err(SeatAlreadyTaken);
      }

      match env.grant {
        case NotFound => return Err(EventNotFound);
        case BadRequest => return Err(SeatAlreadyTaken);
        case GrantFailure => return Err(ServerError);
        case Grant(delivered) =>
          if !delivered {
            return Err(ServerError);
          }
      }
      var ticketId := TicketOf(c, form);

      // The session stages three rows; the commit writes all of them or none.
      var tickets := db.tickets[ticketId := form];
      var payload := Payload.Purchase(ticketId, form.eventId, event.name, form.firstName, form.lastName, form.email,
        form.seat);
      var outbox := db.outbox[env.id := NewRow(TicketPurchased, payload, env.now)];
      var keys := db.keys;
      if key.Some? {
        keys := keys[key.value := KeyRecord(requestHash, ticketId)];
      }
      if !env.commits || ticketId in db.tickets || env.id in db.outbox {
        return Err(ServerError);
      }
      db := Database(tickets, outbox, keys);
      cache.Invalidate(form.eventId);
      return Ok(ticketId);
    }

    method Unregister(ticketId: TicketId, answer: CancelAnswer, commits: bool, id: OutboxId, now: int)
      returns (reply: Result<bool, Reason>)
      modifies this`db, cache
      ensures (db, reply) == CancelledOnce(old(db), ticketId, answer, commits, id, now)
      ensures reply == Err(RegistrationNotFound) <==>
                ticketId !in old(db).tickets || (answer == UnknownTicket && commits)
      ensures reply == Err(RegistrationNotFound) ==> db == old(db).(tickets := old(db).tickets - {ticketId})
      ensures reply.Ok? <==>
                && ticketId in old(db).tickets && (answer == Freed || answer == NotFreed)
                && commits && id !in old(db).outbox
      ensures reply.Ok? ==>
                var cancelled := Payload.Cancellation(ticketId, old(db).tickets[ticketId].eventId, now);
                && (reply.value <==> answer == Freed)
                && db.tickets == old(db).tickets - {ticketId} && db.keys == old(db).keys
                && db.outbox == old(db).outbox[id := Row(TicketCancelled, cancelled, Pending, 0, None, now, None)]
      ensures reply.Err? && reply.error != RegistrationNotFound ==> reply.error == ServerError && db == old(db)
      ensures cache.entries == if reply.Ok? then old(cache.entries) - {old(db).tickets[ticketId].eventId}
                               else old(cache.entries)
    {
      if ticketId !in db.tickets {
        return Err(RegistrationNotFound);
      }
      var ticket := db.tickets[ticketId];
      var success := false;
      match answer {
        case CancelFailure(_) => return Err(ServerError);
        case UnknownTicket =>
          if !commits {
            return Err(ServerError);
          }
          db := db.(tickets := db.tickets - {ticketId});
          return Err(RegistrationNotFound);
        case Freed => success := true;
        case NotFreed =>
      }
      if !commits || id in db.outbox {
        return Err(ServerError);
      }
      var payload := Payload.Cancellation(ticketId, ticket.eventId, now);
      db := db.(outbox := db.outbox[id := NewRow(TicketCancelled, payload, now)], tickets := db.tickets - {ticketId});
      cache.Invalidate(ticket.eventId);
      return Ok(success);
    }
  }
}
