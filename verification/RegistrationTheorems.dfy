/** The guarantees of registration, cancellation and delivery over every run: any
    interleaving, any failures, any number of workers. */
module RegistrationTheorems {
  import opened Wrappers
  import opened Outbox
  import opened Capashino
  import opened Fingerprint
  import opened Registration
  import opened RegistrationSafety
  import opened DeliverySafety
  import opened Conservation

  ghost predicate Inv(c: Config, s: State) {
    && LockDiscipline(c, s)
    && KeysUnused(s)
    && Ledger(c, s)
    && Delivery(c, s)
    && BatchesLocked(c, s)
    && RowLocksExclusive(s)
    && Counting(c, s)
    && Vetting(s)
    && Books(s)
  }

  lemma InitInv(c: Config)
    ensures Inv(c, Init())
  {
    InitLedger(c);
    InitRows(c);
    InitBooks();
  }

  lemma InitLedger(c: Config)
    ensures LockDiscipline(c, Init()) && KeysUnused(Init()) && Ledger(c, Init()) && Vetting(Init())
  {
  }

  lemma InitRows(c: Config)
    ensures Delivery(c, Init()) && BatchesLocked(c, Init()) && RowLocksExclusive(Init()) && Counting(c, Init())
  {
  }

  lemma InitBooks()
    ensures Books(Init())
  {
    assert PurchasedRows(map[]) == {} && CancelledRows(map[]) == {};
    assert Hits(map[]) == {} && WithRow(map[]) == {};
  }

  lemma StepInv(c: Config, s: State, step: Step)
    requires c.maxAttempts >= 1 && Inv(c, s) && Enabled(c, s, step)
    ensures Inv(c, Do(c, s, step))
  {
    LocksStep(c, s, step);
    LedgerStep(c, s, step);
    DeliveryStep(c, s, step);
    BatchesLockedStep(c, s, step);
    RowLocksStep(c, s, step);
    CountingStep(c, s, step);
    VettingStep(c, s, step);
    BooksStep(c, s, step);
  }

  /** Every state of every run satisfies the invariant. */
  lemma {:induction false} RunInv(c: Config, s: State, steps: seq<Step>)
    requires c.maxAttempts >= 1 && Inv(c, s) && Run(c, s, steps)
    ensures Inv(c, Exec(c, s, steps))
    decreases |steps|
  {
    if steps == [] {
    } else {
      StepInv(c, s, steps[0]);
      RunInv(c, Do(c, s, steps[0]), steps[1..]);
    }
  }

  lemma ReachableInv(c: Config, s: State)
    requires c.maxAttempts >= 1 && Reachable(c, s)
    ensures Inv(c, s)
  {
    var steps: seq<Step> :| Run(c, Init(), steps) && Exec(c, Init(), steps) == s;
    InitInv(c);
    RunInv(c, Init(), steps);
  }

  lemma ReachableLedger(c: Config, s: State)
    requires c.maxAttempts >= 1 && Reachable(c, s)
    ensures Ledger(c, s)
  {
    ReachableInv(c, s);
  }

  lemma ReachableRows(c: Config, s: State)
    requires c.maxAttempts >= 1 && Reachable(c, s)
    ensures RowsBounded(c, s) && BatchesLocked(c, s) && RowLocksExclusive(s) && Counting(c, s)
  {
    ReachableInv(c, s);
  }

  // ---- idempotent registration ----

  /** One ticket is bought per idempotency key, whatever `hashtext` is. */
  lemma OnePurchasePerKey(c: Config, s: State, k: Key, id: OutboxId, id': OutboxId)
    requires c.maxAttempts >= 1 && Reachable(c, s)
    requires id in s.past.purchases && s.past.purchases[id].key == Some(k)
    requires id' in s.past.purchases && s.past.purchases[id'].key == Some(k)
    ensures id == id'
  {
    ReachableLedger(c, s);
  }

  /** All successful replies for a key carry the ticket that the key bought, and every one
      of them was asked for with the fingerprint of that purchase. */
  lemma RepliesOfKeyAgree(c: Config, s: State, k: Key, r: RequestId)
    requires c.maxAttempts >= 1 && Reachable(c, s)
    requires r in s.past.replies && s.past.replies[r].key == Some(k)
    ensures k in s.past.origin && s.past.origin[k] in s.past.purchases
    ensures var p := s.past.purchases[s.past.origin[k]];
            && p.key == Some(k)
            && s.past.replies[r].ticketId == p.ticketId
            && s.past.replies[r].requestHash == p.requestHash
  {
    ReachableLedger(c, s);
    assert Obtained(s.requests[r]) == Some(s.past.replies[r].ticketId);
  }

  /** What the lock is for: among the living requests with one key at most one is past the
      check, and the key is still unused then, so neither the provider is asked twice at
      once for one key nor does the commit trip over the key. */
  lemma LockedCheckStaysTrue(c: Config, s: State, r: RequestId, r': RequestId)
    requires c.maxAttempts >= 1 && Reachable(c, s)
    requires r in s.requests && Holds(s.requests[r]) && !s.requests[r].phase.Locked?
    ensures s.requests[r].key.value !in s.db.keys
    ensures r' in s.requests && Holds(s.requests[r']) && s.requests[r'].key == s.requests[r].key ==> r' == r
  {
    ReachableInv(c, s);
  }

  /** The answer to a used key under a collision-free hash: the ticket that the key bought if
      the joined data are the same, a conflict otherwise. For a form whose fields do not
      contain the separator that means: if the data are the same. */
  lemma UsedKeyAnswer(c: Config, s: State, r: RequestId)
    requires c.maxAttempts >= 1 && Reachable(c, s) && CanCheckKey(s, r)
    requires s.requests[r].key.value in s.db.keys
    requires forall x, y :: c.sha256(x) == c.sha256(y) ==> x == y
    ensures var k := s.requests[r].key.value;
            && k in s.past.origin && s.past.origin[k] in s.past.purchases
            && var p := s.past.purchases[s.past.origin[k]];
            && p.request in s.requests && s.requests[p.request].Register?
            && var bought, asked := s.requests[p.request].form, s.requests[r].form;
            && CheckKey(c, s, r).requests[r].phase ==
               (if Raw(bought) == Raw(asked) then Replied(p.ticketId) else Denied(IdempotencyConflict))
            && (CleanForm(asked) ==> (Raw(bought) == Raw(asked) <==> bought == asked))
  {
    ReachableLedger(c, s);
    var p := s.past.purchases[s.past.origin[s.requests[r].key.value]];
    if CleanForm(s.requests[r].form) {
      FingerprintIff(c.sha256, s.requests[r].form, s.requests[p.request].form);
    }
  }

  /** A denied request leaves nothing: every ticket row, purchase row and key record comes
      from a request that was not denied. */
  lemma DeniedLeavesNothing(c: Config, s: State, r: RequestId)
    requires c.maxAttempts >= 1 && Reachable(c, s)
    requires r in s.requests && s.requests[r].Register? && s.requests[r].phase.Denied?
    ensures forall id :: id in s.db.outbox && s.db.outbox[id].eventType.TicketPurchased? ==>
              id in s.past.purchases && s.past.purchases[id].request != r
    ensures forall t :: t in s.db.tickets ==>
              t in s.past.sold && s.past.sold[t] in s.past.purchases && s.past.purchases[s.past.sold[t]].request != r
    ensures forall k :: k in s.db.keys ==>
              k in s.past.origin && s.past.origin[k] in s.past.purchases &&
                s.past.purchases[s.past.origin[k]].request != r
  {
    ReachableLedger(c, s);
    assert forall id :: id in s.past.purchases ==> Obtained(s.requests[s.past.purchases[id].request]).Some?;
  }

  /** Whatever the seats cache said, one seat of one event is sold at most once at a time. */
  lemma OneTicketPerSeat(c: Config, s: State, t: TicketId, t': TicketId)
    requires c.maxAttempts >= 1 && Reachable(c, s)
    requires t in s.db.tickets && t' in s.db.tickets
    requires s.db.tickets[t].eventId == s.db.tickets[t'].eventId && s.db.tickets[t].seat == s.db.tickets[t'].seat
    ensures t == t'
  {
    ReachableLedger(c, s);
  }

  /** Nothing is sold unseen: every purchase was made by a request that saw the event
      published, open and with the seat free, and carries the name that it saw. */
  lemma SoldOnlyIfVetted(c: Config, s: State, id: OutboxId)
    requires c.maxAttempts >= 1 && Reachable(c, s)
    requires id in s.db.outbox && s.db.outbox[id].eventType.TicketPurchased?
    ensures id in s.past.purchases && s.past.purchases[id].request in s.past.views
    ensures s.db.outbox[id].payload.Purchase?
    ensures var view := s.past.views[s.past.purchases[id].request];
            var payload := s.db.outbox[id].payload;
            && view.Event? && view.published && !view.deadlinePassed
            && view.seats.Seats? && payload.seat in view.seats.seats
            && payload.eventName == view.name
  {
    ReachableInv(c, s);
  }

  // ---- notifications ----

  /** The notifications that all requests with one key caused. */
  ghost function NotificationsOf(s: State, k: Key): set<OutboxId> {
    set id | id in s.inbox && id in s.past.purchases && s.past.purchases[id].key == Some(k)
  }

  /** End to end: at most one notification per idempotency key. */
  lemma OneNotificationPerKey(c: Config, s: State, k: Key)
    requires c.maxAttempts >= 1 && Reachable(c, s)
    ensures |NotificationsOf(s, k)| <= 1
  {
    ReachableLedger(c, s);
    if NotificationsOf(s, k) != {} {
      assert NotificationsOf(s, k) <= {s.past.origin[k]};
      SubsetOfOne(NotificationsOf(s, k), s.past.origin[k]);
    }
  }

  lemma SubsetOfOne(a: set<OutboxId>, x: OutboxId)
    requires a <= {x}
    ensures |a| <= 1
  {
    if x in a {
      assert a == {x};
    } else {
      assert a == {};
    }
  }

  /** Every notification was bought: it belongs to a committed row and to the request that
      committed it, names the ticket of both, and speaks of the event and seat that the
      request asked for. */
  lemma NotificationTraced(c: Config, s: State, id: OutboxId)
    requires c.maxAttempts >= 1 && Reachable(c, s) && id in s.inbox
    ensures id in s.db.outbox && s.db.outbox[id].payload.Purchase?
    ensures var payload := s.db.outbox[id].payload;
            && s.inbox[id].ticketId == s.inbox[id].referenceId == payload.ticketId
            && s.inbox[id].eventName == payload.eventName && s.inbox[id].seat == payload.seat
    ensures id in s.past.purchases && s.past.purchases[id].request in s.requests
    ensures var buyer := s.requests[s.past.purchases[id].request];
            && Obtained(buyer) == Some(s.inbox[id].ticketId)
            && s.inbox[id].ticketId == c.ticketOf(buyer.form.eventId, buyer.form.seat)
            && s.inbox[id].seat == buyer.form.seat
            && Repeats(s.db.outbox[id].payload, buyer.form)
  {
    ReachableInv(c, s);
  }

  /** SENT means delivered, also when several workers work on stale copies of one row, and
      the stored counter stays within the limit. It does not bound the attempts that were
      made, see `LimitKept` and `RegistrationExamples.LimitExceeded`. */
  lemma SentMeansDelivered(c: Config, s: State, id: OutboxId)
    requires c.maxAttempts >= 1 && Reachable(c, s) && id in s.db.outbox
    ensures s.db.outbox[id].status.Sent? && s.db.outbox[id].eventType.TicketPurchased? ==> id in s.inbox
    ensures 0 <= s.db.outbox[id].attempts <= c.maxAttempts
    ensures s.db.outbox[id].status.Pending? ==> s.db.outbox[id].attempts < c.maxAttempts
  {
    ReachableInv(c, s);
    assert RowBounded(s.db.outbox[id], c.maxAttempts);
  }

  /** With batches of at most one row the counter is exact, and the limit is kept: no row
      gets more results than allowed. */
  lemma LimitKept(c: Config, s: State, id: OutboxId)
    requires c.maxAttempts >= 1 && c.batchSize <= 1 && Reachable(c, s) && id in s.db.outbox
    ensures Results(s, id) == s.db.outbox[id].attempts + if s.db.outbox[id].status.Sent? then 1 else 0
    ensures Results(s, id) <= c.maxAttempts
    ensures s.db.outbox[id].status.Pending? ==> Results(s, id) < c.maxAttempts
  {
    ReachableRows(c, s);
    assert RowBounded(s.db.outbox[id], c.maxAttempts);
  }

  /** A row begins its life pending, untried and dated by the commit that adds it, with the
      data of its request. */
  lemma RowBegins(c: Config, s: State, step: Step, id: OutboxId)
    requires Enabled(c, s, step) && id !in s.db.outbox && id in Do(c, s, step).db.outbox
    ensures !step.Publishing? && step.r in s.requests
    ensures var row := Do(c, s, step).db.outbox[id];
            match s.requests[step.r]
            case Register(form, _, phase, _) =>
              && phase.Granted? && step == Registering(step.r, DoCommitPurchase(id, row.createdAt))
              && row == Row(TicketPurchased,
                            Payload.Purchase(phase.ticketId, form.eventId, phase.eventName, form.firstName,
                                             form.lastName, form.email, form.seat),
                            Pending, 0, None, row.createdAt, None)
            case Unregister(ticketId, phase) =>
              && phase.Confirmed? && step == Step.Cancelling(step.r, DoCommitCancel(id, row.createdAt))
              && row == Row(TicketCancelled,
                            Payload.Cancellation(ticketId, phase.ticket.eventId, row.createdAt),
                            Pending, 0, None, row.createdAt, None)
  {
    match step {
      case Registering(r, register) => assert register.DoCommitPurchase?;
      case Cancelling(r, cancel) => assert cancel.DoCommitCancel?;
      case Publishing(w, publish) => PublishAddsNoRow(c, s, w, publish);
    }
  }

  lemma PublishAddsNoRow(c: Config, s: State, w: WorkerId, step: PublishStep)
    requires CanPublish(c, s, w, step)
    ensures PublishTo(c, s, w, step).db.outbox.Keys == s.db.outbox.Keys
  {
  }

  lemma RegisterRowStep(c: Config, s: State, r: RequestId, step: RegisterStep, id: OutboxId)
    requires CanRegister(c, s, r, step) && id in s.db.outbox
    ensures var after := RegisterTo(c, s, r, step);
            id in after.db.outbox && after.db.outbox[id] == s.db.outbox[id] && after.inbox == s.inbox
  {
  }

  lemma CancelRowStep(s: State, r: RequestId, step: CancelStep, id: OutboxId)
    requires CanCancel(s, r, step) && id in s.db.outbox
    ensures var after := CancelTo(s, r, step);
            id in after.db.outbox && after.db.outbox[id] == s.db.outbox[id] && after.inbox == s.inbox
  {
  }

  lemma RowStep(c: Config, s: State, step: Step, id: OutboxId)
    requires Enabled(c, s, step) && id in s.db.outbox
    ensures var after := Do(c, s, step);
            && id in after.db.outbox
            && after.db.outbox[id].payload == s.db.outbox[id].payload
            && after.db.outbox[id].eventType == s.db.outbox[id].eventType
            && after.db.outbox[id].createdAt == s.db.outbox[id].createdAt
            && (!s.db.outbox[id].status.Pending? ==> !after.db.outbox[id].status.Pending?)
            && (id in s.inbox ==> id in after.inbox && after.inbox[id] == s.inbox[id])
  {
    match step {
      case Registering(r, register) => RegisterRowStep(c, s, r, register, id);
      case Cancelling(r, cancel) => CancelRowStep(s, r, cancel, id);
      case Publishing(w, publish) => PublishRowStep(c, s, w, publish, id);
    }
  }

  lemma PublishRowStep(c: Config, s: State, w: WorkerId, step: PublishStep, id: OutboxId)
    requires CanPublish(c, s, w, step) && id in s.db.outbox
    ensures var after := PublishTo(c, s, w, step);
            && id in after.db.outbox
            && after.db.outbox[id].payload == s.db.outbox[id].payload
            && after.db.outbox[id].eventType == s.db.outbox[id].eventType
            && after.db.outbox[id].createdAt == s.db.outbox[id].createdAt
            && (!s.db.outbox[id].status.Pending? ==> !after.db.outbox[id].status.Pending?)
            && (id in s.inbox ==> id in after.inbox && after.inbox[id] == s.inbox[id])
  {
  }

  /** A row that left the pending state is never fetched again, its type, payload and place in
      the order of delivery never change, and a notification is never replaced. */
  lemma {:induction false} RowsOnlyAdvance(c: Config, s: State, steps: seq<Step>, id: OutboxId)
    requires Run(c, s, steps) && id in s.db.outbox
    ensures var after := Exec(c, s, steps);
            && id in after.db.outbox
            && after.db.outbox[id].payload == s.db.outbox[id].payload
            && after.db.outbox[id].eventType == s.db.outbox[id].eventType
            && after.db.outbox[id].createdAt == s.db.outbox[id].createdAt
            && (!s.db.outbox[id].status.Pending? ==> !after.db.outbox[id].status.Pending?)
            && (id in s.inbox ==> id in after.inbox && after.inbox[id] == s.inbox[id])
    decreases |steps|
  {
    if steps == [] {
    } else {
      RowStep(c, s, steps[0], id);
      RowsOnlyAdvance(c, Do(c, s, steps[0]), steps[1..], id);
    }
  }

  /** The first result of a batch is recorded on exactly the row that was fetched, if it
      can be recorded at all; the later ones may hit a row that another worker has changed
      meanwhile. */
  lemma FirstRecordIsExact(c: Config, s: State, w: WorkerId)
    requires c.maxAttempts >= 1 && Reachable(c, s) && CanRecord(s, w) && s.workers[w].next == 0
    ensures var copy := s.workers[w].batch[0];
            copy.id in s.db.outbox && s.db.outbox[copy.id] == copy.row && copy.row.status.Pending?
  {
    ReachableRows(c, s);
    assert Current(s.db, s.workers[w].batch[0]);
  }

  /** With batches of one row, any number of workers leaves SENT and FAILED rows untouched.
      `RegistrationExamples.SentBecomesFailed` shows that batches of two are not enough. */
  lemma SingletonBatchesKeepFinalRows(c: Config, s: State, step: Step, id: OutboxId)
    requires c.maxAttempts >= 1 && c.batchSize <= 1 && Reachable(c, s) && Enabled(c, s, step)
    requires id in s.db.outbox && !s.db.outbox[id].status.Pending?
    ensures id in Do(c, s, step).db.outbox && Do(c, s, step).db.outbox[id] == s.db.outbox[id]
  {
    match step {
      case Registering(r, register) => RegisterRowStep(c, s, r, register, id);
      case Cancelling(r, cancel) => CancelRowStep(s, r, cancel, id);
      case Publishing(w, publish) =>
        ReachableRows(c, s);
        PublishKeepsFinal(c, s, w, publish, id);
    }
  }

  lemma PublishKeepsFinal(c: Config, s: State, w: WorkerId, step: PublishStep, id: OutboxId)
    requires c.batchSize <= 1 && BatchesLocked(c, s) && CanPublish(c, s, w, step)
    requires id in s.db.outbox && !s.db.outbox[id].status.Pending?
    ensures var after := PublishTo(c, s, w, step);
            id in after.db.outbox && after.db.outbox[id] == s.db.outbox[id]
  {
    if step.DoRecord? {
      assert s.workers[w].next == 0 && Current(s.db, s.workers[w].batch[0]);
    }
  }

  // ---- duplicate sends ----

  /** A worker is about to post a row. */
  predicate AtPost(s: State, w: WorkerId, id: OutboxId) {
    && Busy(s, w) && s.workers[w].mark.None?
    && var copy := s.workers[w].batch[s.workers[w].next];
    copy.id == id && Posts(copy)
  }

  /** It will post the row now or later in its batch. */
  ghost predicate ToPost(s: State, w: WorkerId, id: OutboxId) {
    && w in s.workers
    && exists i :: s.workers[w].next <= i < |s.workers[w].batch| && Awaits(s.workers[w], i, id)
  }

  predicate Awaits(worker: Worker, i: nat, id: OutboxId)
    requires i < |worker.batch|
  {
    worker.batch[i].id == id && Posts(worker.batch[i]) && (i == worker.next ==> worker.mark.None?)
  }

  /** The transaction that locked a worker's batch is over. */
  predicate LostLocks(s: State, w: WorkerId)
    requires w in s.workers
  {
    !s.workers[w].alive || s.workers[w].next > 0
  }

  /** What the row locks do give: two workers have the same row to post only if at least one
      of them holds no locks any more. */
  lemma DuplicateNeedsLostLocks(c: Config, s: State, w: WorkerId, w': WorkerId, id: OutboxId)
    requires c.maxAttempts >= 1 && Reachable(c, s)
    requires w != w' && ToPost(s, w, id) && ToPost(s, w', id)
    ensures LostLocks(s, w) || LostLocks(s, w')
  {
    ReachableRows(c, s);
    if !LostLocks(s, w) && !LostLocks(s, w') {
      assert RowLocked(s, id, w) && RowLocked(s, id, w');
    }
  }

  ghost predicate TwoAtPost(s: State) {
    exists id, w, w' :: w != w' && AtPost(s, w, id) && AtPost(s, w', id)
  }

  /** Both of them do post it. */
  lemma BothPost(c: Config, s: State, w: WorkerId, w': WorkerId, id: OutboxId)
    requires w != w' && AtPost(s, w, id) && AtPost(s, w', id)
    ensures var reply := NoResponse("");
            var first := Publishing(w, DoSend(reply, true));
            var second := Publishing(w', DoSend(reply, true));
            Enabled(c, s, first) && Enabled(c, Do(c, s, first), second)
  {
  }

  lemma {:induction false} AllAliveAlong(c: Config, s: State, steps: seq<Step>)
    requires Run(c, s, steps) && KeepsConnections(steps) && forall w :: w in s.workers ==> s.workers[w].alive
    ensures forall w :: w in Exec(c, s, steps).workers ==> Exec(c, s, steps).workers[w].alive
    decreases |steps|
  {
    if steps == [] {
    } else {
      AliveStep(c, s, steps[0]);
      AllAliveAlong(c, Do(c, s, steps[0]), steps[1..]);
    }
  }

  lemma AliveStep(c: Config, s: State, step: Step)
    requires Enabled(c, s, step) && !(step.Publishing? && step.publish.DoDropConnection?)
    requires forall w :: w in s.workers ==> s.workers[w].alive
    ensures forall w :: w in Do(c, s, step).workers ==> Do(c, s, step).workers[w].alive
  {
    match step {
      case Registering(r, register) => assert Do(c, s, step).workers == s.workers;
      case Cancelling(r, cancel) => assert Do(c, s, step).workers == s.workers;
      case Publishing(w, publish) =>
    }
  }

  /** Workers are always in the middle of a batch that is not longer than allowed. */
  lemma ReachableWorkers(c: Config, s: State, w: WorkerId)
    requires c.maxAttempts >= 1 && Reachable(c, s) && w in s.workers
    ensures s.workers[w].next < |s.workers[w].batch| <= c.batchSize
  {
    ReachableInv(c, s);
    assert WorkerOk(c, s.db, s.inbox, s.workers[w]);
  }

  /** With batches of at most one row and no lost connection, no row is posted by two. */
  lemma NoDuplicates(c: Config, s: State)
    requires c.maxAttempts >= 1 && c.batchSize <= 1 && ReachableUnbroken(c, s)
    ensures !TwoAtPost(s)
  {
    var steps: seq<Step> :| Run(c, Init(), steps) && KeepsConnections(steps) && Exec(c, Init(), steps) == s;
    AllAliveAlong(c, Init(), steps);
    UnbrokenIsReachable(c, s);
    if id, w, w' :| w != w' && AtPost(s, w, id) && AtPost(s, w', id) {
      ReachableWorkers(c, s, w);
      ReachableWorkers(c, s, w');
      assert Awaits(s.workers[w], 0, id) && Awaits(s.workers[w'], 0, id);
      DuplicateNeedsLostLocks(c, s, w, w', id);
    }
  }

  // ---- conservation ----

  /** In every reachable state the counts balance, except for cancellations that found
      their ticket row already gone. */
  lemma ConservationIff(c: Config, s: State)
    requires c.maxAttempts >= 1 && Reachable(c, s)
    ensures Conserved(s) <==> Misses(s.past.cancels) == {}
  {
    ReachableInv(c, s);
    ConservedIff(s);
  }

  lemma {:induction false} NoMissAlong(c: Config, s: State, steps: seq<Step>)
    requires Run(c, s, steps) && NoOverlapAlong(c, s, steps) && RowsStillThere(s)
    ensures RowsStillThere(Exec(c, s, steps))
    decreases |steps|
  {
    if steps == [] {
    } else {
      NoMissStep(c, s, steps[0]);
      NoMissAlong(c, Do(c, s, steps[0]), steps[1..]);
    }
  }

  /** Over every run in which cancellations of one ticket do not overlap, crashes included,
      purchased rows are live tickets plus cancelled rows plus dropped tickets. */
  lemma ConservationOverRuns(c: Config, steps: seq<Step>)
    requires c.maxAttempts >= 1 && Run(c, Init(), steps) && NoOverlapAlong(c, Init(), steps)
    ensures Conserved(Exec(c, Init(), steps))
  {
    var s := Exec(c, Init(), steps);
    NoMissAlong(c, Init(), steps);
    assert Misses(s.past.cancels) == {};
    assert Reachable(c, s);
    ConservationIff(c, s);
  }

  /** A cancellation is all or nothing. A ticket row is deleted only by a cancellation of
      that ticket: with exactly one new row about it if the provider answered, with `success`
      true or false, and with no new row if the provider did not know the ticket. A new
      cancellation row comes only from such a commit. */
  lemma DeletedWithRow(c: Config, s: State, step: Step, t: TicketId)
    requires Enabled(c, s, step) && t in s.db.tickets && t !in Do(c, s, step).db.tickets
    ensures step.Cancelling? && s.requests[step.r].Unregister? && s.requests[step.r].ticketId == t
    ensures var after := Do(c, s, step);
            if s.requests[step.r].step.Confirmed? then
              && step.cancel.DoCommitCancel?
              && var id := step.cancel.id;
              && id !in s.db.outbox && id in after.db.outbox
              && after.db.outbox[id].eventType.TicketCancelled? && after.db.outbox[id].status.Pending?
              && after.db.outbox[id].payload.Cancellation? && after.db.outbox[id].payload.ticketId == t
              && after.db.outbox == s.db.outbox[id := after.db.outbox[id]]
            else s.requests[step.r].step.Missing? && after.db.outbox == s.db.outbox
  {
    match step {
      case Registering(r, register) => RegisterDeletesNothing(c, s, r, register);
      case Cancelling(r, cancel) =>
      case Publishing(w, publish) =>
    }
  }

  lemma RegisterDeletesNothing(c: Config, s: State, r: RequestId, step: RegisterStep)
    requires CanRegister(c, s, r, step)
    ensures forall t :: t in s.db.tickets ==> t in RegisterTo(c, s, r, step).db.tickets
    ensures CancelledRows(RegisterTo(c, s, r, step).db.outbox) == CancelledRows(s.db.outbox)
  {
  }

  lemma CancelledRowWithDelete(c: Config, s: State, step: Step, id: OutboxId)
    requires Enabled(c, s, step) && id !in CancelledRows(s.db.outbox) && id in CancelledRows(Do(c, s, step).db.outbox)
    ensures step.Cancelling? && step.cancel == DoCommitCancel(id, Do(c, s, step).db.outbox[id].createdAt)
    ensures s.requests[step.r].Unregister? && s.requests[step.r].step.Confirmed?
    ensures Do(c, s, step).db.tickets == s.db.tickets - {s.requests[step.r].ticketId}
    ensures var payload := Do(c, s, step).db.outbox[id].payload;
            payload.Cancellation? && payload.ticketId == s.requests[step.r].ticketId
  {
    match step {
      case Registering(r, register) => RegisterDeletesNothing(c, s, r, register);
      case Cancelling(r, cancel) =>
      case Publishing(w, publish) => PublishIsOutside(c, s, w, publish);
    }
  }

  // ---- cancellation repairs itself ----

  /** The provider has no live registration for the ticket and owes none to a request that
      has not committed yet. */
  ghost predicate Gone(s: State, t: TicketId) {
    t !in s.live && forall r :: AtGranted(s, r) ==> s.requests[r].phase.ticketId != t
  }

  ghost predicate Grants(c: Config, s: State, step: Step, t: TicketId) {
    && step.Registering? && step.register.DoAskProvider? && step.register.grant.Grant?
    && step.r in s.requests && s.requests[step.r].Register? && TicketOf(c, s.requests[step.r].form) == t
  }

  ghost predicate NotGrantedAlong(c: Config, s: State, steps: seq<Step>, t: TicketId)
    requires Run(c, s, steps)
    decreases |steps|
  {
    steps != [] ==> !Grants(c, s, steps[0], t) && NotGrantedAlong(c, Do(c, s, steps[0]), steps[1..], t)
  }

  /** The committed cancellations of a ticket. */
  ghost function CancelsOf(s: State, t: TicketId): set<RequestId> {
    set r | r in s.past.cancels && s.past.cancels[r].ticketId == t
  }

  lemma GapRegister(c: Config, s: State, r: RequestId, step: RegisterStep, t: TicketId)
    requires CanRegister(c, s, r, step) && Gone(s, t) && !Grants(c, s, Registering(r, step), t)
    ensures var after := RegisterTo(c, s, r, step);
            && Gone(after, t)
            && (t in after.db.tickets <==> t in s.db.tickets)
            && after.past.cancels == s.past.cancels
  {
  }

  lemma GapCancel(s: State, r: RequestId, step: CancelStep, t: TicketId)
    requires CanCancel(s, r, step) && Gone(s, t) && Books(s)
    ensures var after := CancelTo(s, r, step);
            && Gone(after, t)
            && CancelsOf(s, t) <= CancelsOf(after, t)
            && (t in after.db.tickets <==> t in s.db.tickets && CancelsOf(after, t) == CancelsOf(s, t))
  {
    var after := CancelTo(s, r, step);
    if step.DoCommitCancel? || step.DoCommitDrop? {
      assert r !in s.past.cancels;
      if s.requests[r].ticketId == t {
        assert r in CancelsOf(after, t) && r !in CancelsOf(s, t);
      } else {
        assert CancelsOf(after, t) == CancelsOf(s, t);
      }
    } else {
      assert after.past.cancels == s.past.cancels;
    }
  }

  lemma GapStep(c: Config, s: State, step: Step, t: TicketId)
    requires Enabled(c, s, step) && Gone(s, t) && Books(s) && !Grants(c, s, step, t)
    ensures var after := Do(c, s, step);
            && Gone(after, t)
            && CancelsOf(s, t) <= CancelsOf(after, t)
            && (t in after.db.tickets <==> t in s.db.tickets && CancelsOf(after, t) == CancelsOf(s, t))
  {
    match step {
      case Registering(r, register) => GapRegister(c, s, r, register, t);
      case Cancelling(r, cancel) => GapCancel(s, r, cancel, t);
      case Publishing(w, publish) => GapPublish(c, s, w, publish, t);
    }
  }

  lemma GapPublish(c: Config, s: State, w: WorkerId, step: PublishStep, t: TicketId)
    requires CanPublish(c, s, w, step)
    ensures var after := PublishTo(c, s, w, step);
            && after.requests == s.requests && after.live == s.live
            && after.db.tickets == s.db.tickets && after.past.cancels == s.past.cancels
  {
  }

  lemma {:induction false} GapAlong(c: Config, s: State, steps: seq<Step>, t: TicketId)
    requires Books(s) && Run(c, s, steps)
    requires Gone(s, t) && NotGrantedAlong(c, s, steps, t)
    ensures var after := Exec(c, s, steps);
            && t !in after.live
            && CancelsOf(s, t) <= CancelsOf(after, t)
            && (t in after.db.tickets <==> t in s.db.tickets && CancelsOf(after, t) == CancelsOf(s, t))
    decreases |steps|
  {
    if steps == [] {
    } else {
      GapStep(c, s, steps[0], t);
      BooksStep(c, s, steps[0]);
      GapAlong(c, Do(c, s, steps[0]), steps[1..], t);
    }
  }

  /** The cancellation took effect at the provider, and the request dies before its commit:
      on the way back or between the answer and the commit. */
  ghost function Crashed(s: State, r: RequestId, lostReply: bool): State
    requires CanAskCancel(s, r, if lostReply then CancelFailure(true) else Freed)
  {
    if lostReply then AskCancel(s, r, CancelFailure(true)) else AbortCancel(AskCancel(s, r, Freed), r)
  }

  lemma CrashLeavesGone(c: Config, s: State, r: RequestId, lostReply: bool)
    requires CanAskCancel(s, r, if lostReply then CancelFailure(true) else Freed)
    requires forall r' :: AtGranted(s, r') ==> s.requests[r'].phase.ticketId != s.requests[r].ticketId
    ensures var crashed := Crashed(s, r, lostReply);
            && Gone(crashed, s.requests[r].ticketId)
            && crashed.db == s.db && crashed.past == s.past
  {
    var crashed := Crashed(s, r, lostReply);
    forall r' | AtGranted(crashed, r') ensures AtGranted(s, r') && crashed.requests[r'] == s.requests[r'] {
    }
  }

  lemma CrashKeepsBooks(s: State, r: RequestId, lostReply: bool)
    requires Books(s) && CanAskCancel(s, r, if lostReply then CancelFailure(true) else Freed)
    ensures Books(Crashed(s, r, lostReply))
  {
    if lostReply {
      CancelKeepsBooks(s, r, DoAskCancel(CancelFailure(true)));
    } else {
      CancelKeepsBooks(s, r, DoAskCancel(Freed));
      CancelKeepsBooks(AskCancel(s, r, Freed), r, DoAbortCancel);
    }
  }

  /** After a crash between the provider's cancellation and the local commit, and until the
      provider grants the ticket again, the provider stays without it and the local row
      survives exactly as long as no cancellation of that ticket completes. */
  lemma GapRepair(c: Config, s: State, r: RequestId, lostReply: bool, steps: seq<Step>)
    requires c.maxAttempts >= 1 && Reachable(c, s)
    requires CanAskCancel(s, r, if lostReply then CancelFailure(true) else Freed)
    requires s.requests[r].ticketId in s.db.tickets
    requires forall r' :: AtGranted(s, r') ==> s.requests[r'].phase.ticketId != s.requests[r].ticketId
    requires Run(c, Crashed(s, r, lostReply), steps)
    requires NotGrantedAlong(c, Crashed(s, r, lostReply), steps, s.requests[r].ticketId)
    ensures var t := s.requests[r].ticketId;
            var after := Exec(c, Crashed(s, r, lostReply), steps);
            && t !in after.live
            && (t in after.db.tickets <==> CancelsOf(after, t) == CancelsOf(s, t))
  {
    ReachableInv(c, s);
    CrashLeavesGone(c, s, r, lostReply);
    CrashKeepsBooks(s, r, lostReply);
    GapAlong(c, Crashed(s, r, lostReply), steps, s.requests[r].ticketId);
  }

  /** Such a repair is always possible: a cancellation that runs alone removes the row. */
  lemma RepairPossible(c: Config, s: State, t: TicketId, r: RequestId) returns (steps: seq<Step>)
    requires t in s.db.tickets && t !in s.live && r !in s.requests
    ensures Run(c, s, steps)
    ensures var after := Exec(c, s, steps);
            && after.db == s.db.(tickets := s.db.tickets - {t})
            && after.live == s.live
  {
    var s1 := CancelTo(s, r, DoArriveCancel(t));
    var s2 := CancelTo(s1, r, DoLookUp);
    var s3 := CancelTo(s2, r, DoAskCancel(UnknownTicket));
    var s4 := CancelTo(s3, r, DoCommitDrop);
    var a1, a2, a3, a4 := Step.Cancelling(r, DoArriveCancel(t)), Step.Cancelling(r, DoLookUp),
                          Step.Cancelling(r, DoAskCancel(UnknownTicket)), Step.Cancelling(r, DoCommitDrop);
    steps := [a1, a2, a3, a4];
    StepThenRun(c, s3, a4, []);
    StepThenRun(c, s2, a3, [a4]);
    StepThenRun(c, s1, a2, [a3, a4]);
    StepThenRun(c, s, a1, [a2, a3, a4]);
    assert [a4] == [a4] + [] && [a3, a4] == [a3] + [a4] && [a2, a3, a4] == [a2] + [a3, a4] &&
      steps == [a1] + [a2, a3, a4];
  }

  lemma StepThenRun(c: Config, s: State, step: Step, rest: seq<Step>)
    requires Enabled(c, s, step) && Run(c, Do(c, s, step), rest)
    ensures Run(c, s, [step] + rest) && Exec(c, s, [step] + rest) == Exec(c, Do(c, s, step), rest)
  {
    assert ([step] + rest)[1..] == rest;
  }
}
