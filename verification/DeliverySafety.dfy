/** What every reachable state says about outbox rows, workers and the receiver, with any
    number of workers that hold stale copies. */
module DeliverySafety {
  import opened Wrappers
  import opened Outbox
  import opened OutboxPublisher
  import opened Registration

  predicate RowBounded(row: Row, maxAttempts: int) {
    && 0 <= row.attempts <= maxAttempts
    && (row.status.Pending? ==> row.attempts < maxAttempts)
    && (row.eventType.TicketPurchased? <==> row.payload.Purchase?)
  }

  ghost predicate RowsBounded(c: Config, s: State) {
    forall id :: id in s.db.outbox ==> RowBounded(s.db.outbox[id], c.maxAttempts)
  }

  /** A SENT purchase has its notification at the receiver. */
  ghost predicate SentIsDelivered(s: State) {
    forall id :: id in s.db.outbox && s.db.outbox[id].status.Sent? && s.db.outbox[id].eventType.TicketPurchased? ==>
      id in s.inbox
  }

  /** A notification is the one of a committed row. */
  ghost predicate InboxTraced(s: State) {
    forall id :: id in s.inbox ==>
      && id in s.db.outbox
      && s.db.outbox[id].eventType.TicketPurchased?
      && s.db.outbox[id].payload.Purchase?
      && s.inbox[id] == NotificationFor(s.db.outbox[id].payload)
  }

  /** A private copy agrees with its row on what never changes; its attempts may be stale. */
  ghost predicate CopyOk(c: Config, db: Database, copy: Copy) {
    && copy.id in db.outbox
    && copy.row.eventType == db.outbox[copy.id].eventType
    && copy.row.payload == db.outbox[copy.id].payload
    && 0 <= copy.row.attempts < c.maxAttempts
  }

  predicate MarkOk(c: Config, mark: Mark) {
    mark.MarkFailed? ==> mark.maxAttempts == 1 || mark.maxAttempts == c.maxAttempts
  }

  ghost predicate WorkerOk(c: Config, db: Database, inbox: map<OutboxId, Notification>, worker: Worker) {
    && worker.next < |worker.batch|
    && (forall i :: 0 <= i < |worker.batch| ==> CopyOk(c, db, worker.batch[i]))
    && (worker.mark.Some? ==> MarkOk(c, worker.mark.value))
    && (worker.mark == Some(MarkSent) && worker.batch[worker.next].row.eventType.TicketPurchased? ==>
          worker.batch[worker.next].id in inbox)
  }

  ghost predicate WorkersOk(c: Config, s: State) {
    forall w :: w in s.workers ==> WorkerOk(c, s.db, s.inbox, s.workers[w])
  }

  ghost predicate Delivery(c: Config, s: State) {
    RowsBounded(c, s) && SentIsDelivered(s) && InboxTraced(s) && WorkersOk(c, s)
  }

  /** A request's step adds at most fresh pending rows. */
  ghost predicate OnlyNewRows(c: Config, s: State, after: State) {
    && after.workers == s.workers && after.inbox == s.inbox
    && (forall id :: id in s.db.outbox ==> id in after.db.outbox && after.db.outbox[id] == s.db.outbox[id])
    && (forall id :: id in after.db.outbox && id !in s.db.outbox ==>
          after.db.outbox[id].status.Pending? && RowBounded(after.db.outbox[id], c.maxAttempts))
  }

  lemma NewRowsKeepDelivery(c: Config, s: State, after: State)
    requires Delivery(c, s) && OnlyNewRows(c, s, after)
    ensures Delivery(c, after)
  {
    forall w | w in after.workers ensures WorkerOk(c, after.db, after.inbox, after.workers[w]) {
      assert WorkerOk(c, s.db, s.inbox, s.workers[w]);
    }
  }

  lemma RegisterOnlyAddsRows(c: Config, s: State, r: RequestId, step: RegisterStep)
    requires c.maxAttempts >= 1 && CanRegister(c, s, r, step)
    ensures OnlyNewRows(c, s, RegisterTo(c, s, r, step))
  {
  }

  lemma CancelOnlyAddsRows(c: Config, s: State, r: RequestId, step: CancelStep)
    requires c.maxAttempts >= 1 && CanCancel(s, r, step)
    ensures OnlyNewRows(c, s, CancelTo(s, r, step))
  {
  }

  lemma FetchKeepsDelivery(c: Config, s: State, w: WorkerId, ids: seq<OutboxId>)
    requires Delivery(c, s) && CanFetch(c, s, w, ids)
    ensures Delivery(c, Fetch(s, w, ids))
  {
    var batch := Copies(s.db.outbox, ids);
    forall i | 0 <= i < |batch| ensures CopyOk(c, s.db, batch[i]) {
      assert Fetchable(s, ids[i]);
      assert RowBounded(s.db.outbox[ids[i]], c.maxAttempts);
    }
  }

  lemma MarkForIsOk(c: Config, copy: Copy, reply: Capashino.Reply)
    ensures MarkOk(c, MarkFor(Dispatch(copy.row, reply), c.maxAttempts))
  {
  }

  lemma SendKeepsDelivery(c: Config, s: State, w: WorkerId, reply: Capashino.Reply, accepted: bool)
    requires Delivery(c, s) && CanSend(s, w, reply, accepted)
    ensures Delivery(c, Send(c, s, w, reply, accepted))
  {
    var after := Send(c, s, w, reply, accepted);
    var worker := s.workers[w];
    var copy := worker.batch[worker.next];
    assert WorkerOk(c, s.db, s.inbox, worker) && CopyOk(c, s.db, copy);
    assert RowBounded(s.db.outbox[copy.id], c.maxAttempts);
    MarkForIsOk(c, copy, reply);
    if copy.row.eventType.TicketPurchased? {
      SentIff(copy.row, reply, c.maxAttempts);
    }
    forall w' | w' in after.workers ensures WorkerOk(c, after.db, after.inbox, after.workers[w']) {
      assert WorkerOk(c, s.db, s.inbox, s.workers[w']);
    }
  }

  lemma RecordedRow(c: Config, s: State, w: WorkerId, now: int)
    requires c.maxAttempts >= 1 && Delivery(c, s) && CanRecord(s, w)
    ensures var copy := s.workers[w].batch[s.workers[w].next];
            var before := s.db.outbox[copy.id];
            var row := Record(s, w, now).db.outbox[copy.id];
            && RowBounded(row, c.maxAttempts)
            && row.eventType == before.eventType && row.payload == before.payload
            && (row.status.Sent? && row.eventType.TicketPurchased? ==> copy.id in s.inbox)
  {
    var worker := s.workers[w];
    assert WorkerOk(c, s.db, s.inbox, worker);
    assert CopyOk(c, s.db, worker.batch[worker.next]);
    assert RowBounded(s.db.outbox[worker.batch[worker.next].id], c.maxAttempts);
  }

  lemma RecordKeepsDelivery(c: Config, s: State, w: WorkerId, now: int)
    requires c.maxAttempts >= 1 && Delivery(c, s) && CanRecord(s, w)
    ensures Delivery(c, Record(s, w, now))
  {
    RecordedRow(c, s, w, now);
    var after := Record(s, w, now);
    forall w' | w' in after.workers ensures WorkerOk(c, after.db, after.inbox, after.workers[w']) {
      var before := s.workers[w'];
      assert WorkerOk(c, s.db, s.inbox, before);
      assert after.workers[w'].batch == before.batch;
      forall i | 0 <= i < |before.batch| ensures CopyOk(c, after.db, before.batch[i]) {
        assert CopyOk(c, s.db, before.batch[i]);
      }
    }
  }

  lemma DeliveryStep(c: Config, s: State, step: Step)
    requires c.maxAttempts >= 1 && Delivery(c, s) && Enabled(c, s, step)
    ensures Delivery(c, Do(c, s, step))
  {
    match step {
      case Registering(r, register) =>
        RegisterOnlyAddsRows(c, s, r, register);
        NewRowsKeepDelivery(c, s, RegisterTo(c, s, r, register));
      case Cancelling(r, cancel) =>
        CancelOnlyAddsRows(c, s, r, cancel);
        NewRowsKeepDelivery(c, s, CancelTo(s, r, cancel));
      case Publishing(w, DoFetch(ids)) => FetchKeepsDelivery(c, s, w, ids);
      case Publishing(w, DoSend(reply, accepted)) => SendKeepsDelivery(c, s, w, reply, accepted);
      case Publishing(w, DoRecord(now)) => RecordKeepsDelivery(c, s, w, now);
      case Publishing(w, DoDropConnection) =>
        forall w' | w' in s.workers ensures WorkerOk(c, s.db, s.inbox, DropConnection(s, w).workers[w']) {
          assert WorkerOk(c, s.db, s.inbox, s.workers[w']);
        }
      case Publishing(w, DoQuit) =>
        forall w' | w' in Quit(s, w).workers ensures WorkerOk(c, s.db, s.inbox, s.workers[w']) {
        }
    }
  }

  // ---- what the row locks are worth ----

  /** The stored row is still what the worker fetched. */
  ghost predicate Current(db: Database, copy: Copy) {
    copy.id in db.outbox && db.outbox[copy.id] == copy.row && copy.row.status.Pending?
  }

  /** While a transaction holds a batch, all its copies are exact. */
  ghost predicate BatchesLocked(c: Config, s: State) {
    && (forall w :: w in s.workers ==> |s.workers[w].batch| <= c.batchSize)
    && (forall w :: w in s.workers && s.workers[w].alive && s.workers[w].next == 0 ==>
          forall i :: 0 <= i < |s.workers[w].batch| ==> Current(s.db, s.workers[w].batch[i]))
  }

  lemma RecordKeepsBatchesLocked(c: Config, s: State, w: WorkerId, now: int)
    requires BatchesLocked(c, s) && CanRecord(s, w)
    ensures BatchesLocked(c, Record(s, w, now))
  {
    var after := Record(s, w, now);
    forall w', i | w' in after.workers && after.workers[w'].alive && after.workers[w'].next == 0 &&
      0 <= i < |after.workers[w'].batch|
      ensures Current(after.db, after.workers[w'].batch[i])
    {
      assert w' != w && after.workers[w'] == s.workers[w'];
      assert Current(s.db, s.workers[w'].batch[i]);
      assert !RowLocked(s, s.workers[w].batch[s.workers[w].next].id, w');
    }
  }

  lemma NewRowsKeepBatchesLocked(c: Config, s: State, after: State)
    requires BatchesLocked(c, s) && OnlyNewRows(c, s, after)
    ensures BatchesLocked(c, after)
  {
  }

  lemma BatchesLockedStep(c: Config, s: State, step: Step)
    requires c.maxAttempts >= 1 && BatchesLocked(c, s) && Enabled(c, s, step)
    ensures BatchesLocked(c, Do(c, s, step))
  {
    match step {
      case Registering(r, register) =>
        RegisterOnlyAddsRows(c, s, r, register);
        NewRowsKeepBatchesLocked(c, s, RegisterTo(c, s, r, register));
      case Cancelling(r, cancel) =>
        CancelOnlyAddsRows(c, s, r, cancel);
        NewRowsKeepBatchesLocked(c, s, CancelTo(s, r, cancel));
      case Publishing(w, DoFetch(ids)) =>
        assert forall i :: 0 <= i < |ids| ==> Fetchable(s, ids[i]);
      case Publishing(w, DoSend(reply, accepted)) =>
      case Publishing(w, DoRecord(now)) => RecordKeepsBatchesLocked(c, s, w, now);
      case Publishing(w, DoDropConnection) =>
      case Publishing(w, DoQuit) =>
    }
  }

  /** What `SKIP LOCKED` gives: no row is locked by two workers. */
  ghost predicate RowLocksExclusive(s: State) {
    forall id, w, w' :: RowLocked(s, id, w) && RowLocked(s, id, w') ==> w == w'
  }

  /** Whoever holds a row lock held it before. */
  ghost predicate NoNewRowLock(s: State, after: State) {
    forall id, w :: RowLocked(after, id, w) ==> RowLocked(s, id, w)
  }

  lemma FetchKeepsRowLocks(c: Config, s: State, w: WorkerId, ids: seq<OutboxId>)
    requires RowLocksExclusive(s) && CanFetch(c, s, w, ids)
    ensures RowLocksExclusive(Fetch(s, w, ids))
  {
    var after := Fetch(s, w, ids);
    forall id, w' | RowLocked(after, id, w')
      ensures if w' == w then id in ids && Fetchable(s, id) else RowLocked(s, id, w')
    {
      if w' == w {
        var i :| 0 <= i < |ids| && after.workers[w].batch[i].id == id;
        assert Fetchable(s, ids[i]);
      }
    }
  }

  lemma OthersTakeNoRowLock(c: Config, s: State, w: WorkerId, step: PublishStep)
    requires CanPublish(c, s, w, step) && !step.DoFetch?
    ensures NoNewRowLock(s, PublishTo(c, s, w, step))
  {
    var after := PublishTo(c, s, w, step);
    forall id, w' | RowLocked(after, id, w') ensures RowLocked(s, id, w') {
      assert after.workers[w'].batch == s.workers[w'].batch;
    }
  }

  lemma SameWorkersKeepRowLocks(s: State, after: State)
    requires RowLocksExclusive(s) && after.workers == s.workers
    ensures RowLocksExclusive(after)
  {
    forall id, w | RowLocked(after, id, w) ensures RowLocked(s, id, w) {
    }
  }

  lemma RowLocksStep(c: Config, s: State, step: Step)
    requires c.maxAttempts >= 1 && RowLocksExclusive(s) && Enabled(c, s, step)
    ensures RowLocksExclusive(Do(c, s, step))
  {
    match step {
      case Registering(r, register) =>
        RegisterOnlyAddsRows(c, s, r, register);
        SameWorkersKeepRowLocks(s, RegisterTo(c, s, r, register));
      case Cancelling(r, cancel) =>
        CancelOnlyAddsRows(c, s, r, cancel);
        SameWorkersKeepRowLocks(s, CancelTo(s, r, cancel));
      case Publishing(w, publish) =>
        if publish.DoFetch? {
          FetchKeepsRowLocks(c, s, w, publish.ids);
        } else {
          OthersTakeNoRowLock(c, s, w, publish);
        }
    }
  }

  // ---- how many results were committed ----

  /** The stored counter and its copies never claim more results than were committed. */
  ghost predicate CountersHonest(s: State) {
    && (forall id :: id in s.past.results ==> id in s.db.outbox)
    && (forall id :: id in s.db.outbox ==> s.db.outbox[id].attempts <= Results(s, id))
    && (forall w, i :: w in s.workers && 0 <= i < |s.workers[w].batch| ==>
          s.workers[w].batch[i].row.attempts <= Results(s, s.workers[w].batch[i].id))
  }

  /** The stored counter tells how many results were committed: each of them is a failed
      attempt, except for the success that made the row SENT. */
  ghost predicate CountersExact(c: Config, s: State) {
    forall id :: id in s.db.outbox ==>
      && Results(s, id) == s.db.outbox[id].attempts + (if s.db.outbox[id].status.Sent? then 1 else 0)
      && Results(s, id) <= c.maxAttempts
  }

  ghost predicate Counting(c: Config, s: State) {
    CountersHonest(s) && (c.batchSize <= 1 ==> CountersExact(c, s))
  }

  lemma NewRowsKeepCounting(c: Config, s: State, after: State)
    requires c.maxAttempts >= 1 && Counting(c, s) && OnlyNewRows(c, s, after) && NoResults(s, after)
    ensures Counting(c, after)
  {
    assert forall id :: Results(after, id) == Results(s, id);
  }

  lemma FetchKeepsCounting(c: Config, s: State, w: WorkerId, ids: seq<OutboxId>)
    requires Counting(c, s) && CanFetch(c, s, w, ids)
    ensures Counting(c, Fetch(s, w, ids))
  {
    var after := Fetch(s, w, ids);
    assert forall id :: Results(after, id) == Results(s, id);
    assert forall i :: 0 <= i < |ids| ==> Fetchable(s, ids[i]);
  }

  lemma RecordKeepsHonest(s: State, w: WorkerId, now: int)
    requires CountersHonest(s) && CanRecord(s, w)
    ensures CountersHonest(Record(s, w, now))
  {
    var after := Record(s, w, now);
    var copy := s.workers[w].batch[s.workers[w].next];
    assert forall id :: Results(s, id) <= Results(after, id);
    assert Results(after, copy.id) == Results(s, copy.id) + 1;
    assert copy.row.attempts <= Results(s, copy.id);
    forall w', i | w' in after.workers && 0 <= i < |after.workers[w'].batch|
      ensures after.workers[w'].batch[i].row.attempts <= Results(after, after.workers[w'].batch[i].id)
    {
      assert after.workers[w'].batch == s.workers[w'].batch;
    }
  }

  /** With batches of one row, a result is recorded on the row that was fetched. */
  lemma RecordKeepsExact(c: Config, s: State, w: WorkerId, now: int)
    requires c.batchSize <= 1 && CountersExact(c, s) && BatchesLocked(c, s) && RowsBounded(c, s) && CanRecord(s, w)
    ensures CountersExact(c, Record(s, w, now))
  {
    var after := Record(s, w, now);
    var copy := s.workers[w].batch[s.workers[w].next];
    assert s.workers[w].next == 0;
    assert Current(s.db, s.workers[w].batch[0]);
    assert RowBounded(s.db.outbox[copy.id], c.maxAttempts);
    assert Results(after, copy.id) == Results(s, copy.id) + 1;
    assert forall id :: id != copy.id ==> Results(after, id) == Results(s, id);
  }

  /** Neither rows nor results change, and no copy is new. */
  lemma KeptCopiesKeepCounting(c: Config, s: State, after: State)
    requires Counting(c, s) && after.db == s.db && after.past.results == s.past.results
    requires forall w :: w in after.workers ==> w in s.workers && after.workers[w].batch == s.workers[w].batch
    ensures Counting(c, after)
  {
    assert forall id :: Results(after, id) == Results(s, id);
  }

  lemma PublishKeepsCounting(c: Config, s: State, w: WorkerId, step: PublishStep)
    requires Counting(c, s) && BatchesLocked(c, s) && RowsBounded(c, s) && CanPublish(c, s, w, step)
    ensures Counting(c, PublishTo(c, s, w, step))
  {
    match step {
      case DoFetch(ids) => FetchKeepsCounting(c, s, w, ids);
      case DoRecord(now) =>
        RecordKeepsHonest(s, w, now);
        if c.batchSize <= 1 {
          RecordKeepsExact(c, s, w, now);
        }
      case _ => KeptCopiesKeepCounting(c, s, PublishTo(c, s, w, step));
    }
  }

  /** A request commits no results, and the rows that it adds were never tried. */
  ghost predicate NoResults(s: State, after: State) {
    && after.past.results == s.past.results
    && forall id :: id in after.db.outbox && id !in s.db.outbox ==> after.db.outbox[id].attempts == 0
  }

  lemma RegisterCommitsNoResults(c: Config, s: State, r: RequestId, step: RegisterStep)
    requires CanRegister(c, s, r, step)
    ensures NoResults(s, RegisterTo(c, s, r, step))
  {
  }

  lemma CancelCommitsNoResults(s: State, r: RequestId, step: CancelStep)
    requires CanCancel(s, r, step)
    ensures NoResults(s, CancelTo(s, r, step))
  {
  }

  lemma CountingStep(c: Config, s: State, step: Step)
    requires c.maxAttempts >= 1 && Counting(c, s) && BatchesLocked(c, s) && RowsBounded(c, s) && Enabled(c, s, step)
    ensures Counting(c, Do(c, s, step))
  {
    match step {
      case Registering(r, register) =>
        RegisterOnlyAddsRows(c, s, r, register);
        RegisterCommitsNoResults(c, s, r, register);
        NewRowsKeepCounting(c, s, RegisterTo(c, s, r, register));
      case Cancelling(r, cancel) =>
        CancelOnlyAddsRows(c, s, r, cancel);
        CancelCommitsNoResults(s, r, cancel);
        NewRowsKeepCounting(c, s, CancelTo(s, r, cancel));
      case Publishing(w, publish) => PublishKeepsCounting(c, s, w, publish);
    }
  }
}
