/** Runs that show which stronger statements are false of the protocol, all of them without a
    lost connection of a worker unless it says so. */
module RegistrationExamples {
  import opened Wrappers
  import opened Outbox
  import opened Capashino
  import opened OutboxPublisher
  import opened Fingerprint
  import opened Registration
  import opened Conservation
  import Agreement
  import RegistrationTheorems

  lemma ReachableStep(c: Config, s: State, step: Step)
    requires ReachableUnbroken(c, s) && Enabled(c, s, step)
    requires !(step.Publishing? && step.publish.DoDropConnection?)
    ensures ReachableUnbroken(c, Do(c, s, step))
  {
    var steps: seq<Step> :| Run(c, Init(), steps) && KeepsConnections(steps) && Exec(c, Init(), steps) == s;
    Extend(c, Init(), steps, step);
  }

  lemma ReachableInit(c: Config)
    ensures ReachableUnbroken(c, Init())
  {
    var none: seq<Step> := [];
    assert Run(c, Init(), none) && KeepsConnections(none) && Exec(c, Init(), none) == Init();
  }

  lemma PassChecks(c: Config, s: State, r: RequestId, form: Form, name: string) returns (after: State)
    requires ReachableUnbroken(c, s) && r !in s.requests
    ensures ReachableUnbroken(c, after)
    ensures after == s.(requests := s.requests[r := Register(form, None, Admitted(name), true)],
                        past := s.past.(views := after.past.views))
  {
    var s1 := Arrive(s, r, form, None);
    ReachableStep(c, s, Registering(r, DoArrive(form, None)));
    var s2 := WithPhase(s1, r, Cleared);
    ReachableStep(c, s1, Registering(r, DoSkipKey));
    var view := Event(name, false, true, Seats([form.seat]));
    after := Vet(s2, r, view);
    ReachableStep(c, s2, Registering(r, DoVet(view)));
    assert after.requests == s.requests[r := Register(form, None, Admitted(name), true)];
  }

  /** A registration without a key, from arrival to the provider's grant. */
  lemma Ask(c: Config, s: State, r: RequestId, form: Form, name: string) returns (after: State)
    requires ReachableUnbroken(c, s) && r !in s.requests && TicketOf(c, form) !in s.live
    ensures ReachableUnbroken(c, after)
    ensures after == s.(requests := s.requests[r := Register(form, None, Granted(name, TicketOf(c, form)), true)],
                        live := s.live + {TicketOf(c, form)},
                        past := s.past.(views := after.past.views))
  {
    var s3 := PassChecks(c, s, r, form, name);
    after := AskProvider(c, s3, r, Grant(true));
    ReachableStep(c, s3, Registering(r, DoAskProvider(Grant(true))));
    assert after.requests == s.requests[r := Register(form, None, Granted(name, TicketOf(c, form)), true)];
  }

  lemma Buy(c: Config, s: State, r: RequestId, form: Form, name: string, id: OutboxId) returns (after: State)
    requires ReachableUnbroken(c, s) && r !in s.requests && TicketOf(c, form) !in s.live
    requires TicketOf(c, form) !in s.db.tickets && id !in s.db.outbox
    ensures ReachableUnbroken(c, after)
    ensures var t := TicketOf(c, form);
            && after.db == Database(s.db.tickets[t := form],
                                    s.db.outbox[id := NewRow(TicketPurchased, PurchasePayload(form, name, t), 0)],
                                    s.db.keys)
            && after.requests == s.requests[r := Register(form, None, Committed(t), true)]
            && after.live == s.live + {t}
            && after.workers == s.workers && after.inbox == s.inbox
            && after.past.cancels == s.past.cancels && after.past.results == s.past.results
  {
    var mid := Ask(c, s, r, form, name);
    after := CommitPurchase(c, mid, r, id, 0);
    ReachableStep(c, mid, Registering(r, DoCommitPurchase(id, 0)));
    assert after.requests == s.requests[r := Register(form, None, Committed(TicketOf(c, form)), true)];
  }

  /** A cancellation that has read its ticket row. */
  lemma StartCancel(c: Config, s: State, r: RequestId, t: TicketId) returns (after: State)
    requires ReachableUnbroken(c, s) && r !in s.requests && t in s.db.tickets
    ensures ReachableUnbroken(c, after)
    ensures after == s.(requests := s.requests[r := Unregister(t, Found(s.db.tickets[t]))])
  {
    var s1 := ArriveCancel(s, r, t);
    ReachableStep(c, s, Cancelling(r, DoArriveCancel(t)));
    after := LookUp(s1, r);
    ReachableStep(c, s1, Cancelling(r, DoLookUp));
    assert after.requests == s.requests[r := Unregister(t, Found(s.db.tickets[t]))];
  }

  /** Two overlapping cancellations of one ticket: the second finds the provider without
      it, deletes nothing, and still counts as a drop. */
  lemma OverlapBreaksConservation(c: Config) returns (s: State)
    requires c.maxAttempts >= 1
    ensures ReachableUnbroken(c, s) && !Conserved(s)
  {
    var form := Form("event", "Anna", "Petrova", "a@b.ru", "A1");
    var t := TicketOf(c, form);
    ReachableInit(c);
    var s0 := Buy(c, Init(), 0, form, "Conf", 0);
    var s1 := StartCancel(c, s0, 1, t);
    var s2 := StartCancel(c, s1, 2, t);
    var s3 := AskCancel(s2, 1, Freed);
    ReachableStep(c, s2, Cancelling(1, DoAskCancel(Freed)));
    var s4 := CommitCancel(s3, 1, 1, 0);
    ReachableStep(c, s3, Cancelling(1, DoCommitCancel(1, 0)));
    var s5 := AskCancel(s4, 2, UnknownTicket);
    ReachableStep(c, s4, Cancelling(2, DoAskCancel(UnknownTicket)));
    s := CommitDrop(s5, 2);
    ReachableStep(c, s5, Cancelling(2, DoCommitDrop));
    assert s.past.cancels[2] == Cancel(t, None, false);
    assert 2 in Misses(s.past.cancels);
    UnbrokenIsReachable(c, s);
    RegistrationTheorems.ConservationIff(c, s);
  }

  /** A lost reply and two requests that overlap: a cancellation reaches the provider after
      the seat was granted to the next buyer and before that purchase is committed. Both
      succeed, and the buyer's ticket has no registration at the provider. */
  lemma SoldButFreed(c: Config) returns (before: State, commit: Step, s: State, t: TicketId)
    ensures ReachableUnbroken(c, before) && commit.Registering? && commit.register.DoCommitPurchase?
    ensures Enabled(c, before, commit) && Agreement.MakesHollow(c, before, commit, t)
    ensures ReachableUnbroken(c, s) && s.live == Do(c, before, commit).live && s.db == Do(c, before, commit).db
    ensures t in s.db.tickets && t !in s.live
    ensures 2 in s.requests && s.requests[2] == Unregister(t, Cancelled(true))
    ensures 3 in s.requests && s.requests[3].Register? && s.requests[3].phase == Replied(t)
    ensures 3 in s.past.replies && s.past.replies[3].ticketId == t
  {
    var form := Form("event", "Boris", "Ivanov", "b@b.ru", "A1");
    t := TicketOf(c, form);
    var s3 := LostCancellation(c, t);
    var s4 := Ask(c, s3, 3, form, "Conf");
    before, commit, s := FreedBeforeCommit(c, s4, t);
  }

  /** One cancellation got lost after it freed the ticket, and a second one has begun. */
  lemma LostCancellation(c: Config, t: TicketId) returns (after: State)
    requires t == c.ticketOf("event", "A1")
    ensures ReachableUnbroken(c, after) && t !in after.live && t in after.db.tickets && after.db.outbox.Keys == {0}
    ensures forall r :: r in after.requests ==> Agreement.FreeingOf(after.requests[r]).None?
    ensures after.requests.Keys == {0, 1, 2} && after.requests[2] == Unregister(t, Found(after.db.tickets[t]))
    ensures after.db.keys == map[]
  {
    var form := Form("event", "Anna", "Petrova", "a@b.ru", "A1");
    ReachableInit(c);
    var s0 := Buy(c, Init(), 0, form, "Conf", 0);
    var s1 := StartCancel(c, s0, 1, t);
    var s2 := AskCancel(s1, 1, CancelFailure(true));
    ReachableStep(c, s1, Cancelling(1, DoAskCancel(CancelFailure(true))));
    after := StartCancel(c, s2, 2, t);
    assert after.db.outbox.Keys == {0};
  }

  /** The second cancellation frees what request 3 was granted, deletes the old row, and then
      request 3 commits its purchase. */
  lemma FreedBeforeCommit(c: Config, s: State, t: TicketId) returns (before: State, commit: Step, after: State)
    requires ReachableUnbroken(c, s) && t in s.live && s.db.outbox.Keys == {0}
    requires 2 in s.requests && s.requests[2].Unregister? && s.requests[2].ticketId == t && s.requests[2].step.Found?
    requires AtGranted(s, 3) && s.requests[3].alive && s.requests[3].key.None? && s.requests[3].phase.ticketId == t
    requires forall r :: r in s.requests && r != 2 ==> Agreement.FreeingOf(s.requests[r]).None?
    ensures ReachableUnbroken(c, before) && commit.Registering? && commit.register.DoCommitPurchase?
    ensures Enabled(c, before, commit) && Agreement.MakesHollow(c, before, commit, t)
    ensures after.live == Do(c, before, commit).live && after.db == Do(c, before, commit).db
    ensures ReachableUnbroken(c, after) && t in after.db.tickets && t !in after.live
    ensures 2 in after.requests && after.requests[2] == Unregister(t, Cancelled(true))
    ensures 3 in after.requests && after.requests[3].Register? && after.requests[3].phase == Replied(t)
    ensures 3 in after.past.replies && after.past.replies[3].ticketId == t
  {
    var s5 := AskCancel(s, 2, Freed);
    ReachableStep(c, s, Cancelling(2, DoAskCancel(Freed)));
    before := CommitCancel(s5, 2, 1, 0);
    ReachableStep(c, s5, Cancelling(2, DoCommitCancel(1, 0)));
    commit := Registering(3, DoCommitPurchase(2, 0));
    assert Agreement.Freeing(before, t) == {};
    var s7 := CommitPurchase(c, before, 3, 2, 0);
    ReachableStep(c, before, commit);
    after := Answer(c, s7, 3);
    ReachableStep(c, s7, Registering(3, DoReply));
  }

  // ---- a stale copy ----

  const CREATED := Response(201, "", true)
  const UNAVAILABLE := Response(503, "", false)

  /** Two pending rows created at the same instant: row 0 says that the ticket of row 1 was
      cancelled, and row 1 that it was bought. */
  ghost predicate TwoFreshRows(s: State) {
    && s.db.outbox.Keys == {0, 1}
    && (forall id :: id in s.db.outbox ==> s.db.outbox[id].status.Pending? && s.db.outbox[id].createdAt == 0)
    && s.db.outbox[0].eventType.TicketCancelled?
    && Fresh(s.db.outbox[1])
    && Results(s, 1) == 0
  }

  predicate Fresh(row: Row) {
    row.status.Pending? && row.attempts == 0 && row.eventType.TicketPurchased? && row.payload.Purchase?
  }

  lemma TwoRows(c: Config) returns (s: State)
    ensures ReachableUnbroken(c, s) && s.workers == map[] && s.inbox == map[] && TwoFreshRows(s)
  {
    var form := Form("event", "Anna", "Petrova", "a@b.ru", "A1");
    ReachableInit(c);
    var s0 := Buy(c, Init(), 0, form, "Conf", 1);
    var s1 := StartCancel(c, s0, 1, TicketOf(c, form));
    var s2 := AskCancel(s1, 1, Freed);
    ReachableStep(c, s1, Cancelling(1, DoAskCancel(Freed)));
    s := CommitCancel(s2, 1, 0, 0);
    ReachableStep(c, s2, Cancelling(1, DoCommitCancel(0, 0)));
    assert s.db.outbox.Keys == {0, 1};
  }

  /** Worker 0 has finished row 0 of its batch, and with it dropped its row locks; its copy
      of row 1 is still the fresh row. */
  ghost predicate HasStaleCopy(s: State) {
    && s.workers.Keys == {0}
    && s.workers[0].next == 1 && s.workers[0].mark.None? && s.workers[0].alive
    && |s.workers[0].batch| == 2 && s.workers[0].batch[1].id == 1 && Fresh(s.workers[0].batch[1].row)
    && s.db.outbox.Keys == {0, 1} && !s.db.outbox[0].status.Pending?
    && s.db.outbox[1].eventType.TicketPurchased? && s.db.outbox[1].payload.Purchase?
  }

  lemma FetchBoth(c: Config, s: State) returns (after: State)
    requires ReachableUnbroken(c, s) && c.batchSize >= 2 && s.workers == map[] && TwoFreshRows(s)
    ensures ReachableUnbroken(c, after)
    ensures after == s.(workers := map[0 := Worker([Copy(0, s.db.outbox[0]), Copy(1, s.db.outbox[1])], 0, None, true)])
  {
    var ids: seq<OutboxId> := [0, 1];
    assert Fetchable(s, 0) && Fetchable(s, 1);
    assert CanFetch(c, s, 0, ids);
    after := Fetch(s, 0, ids);
    ReachableStep(c, s, Publishing(0, DoFetch(ids)));
    assert Copies(s.db.outbox, ids) == [Copy(0, s.db.outbox[0]), Copy(1, s.db.outbox[1])];
    assert after.workers == map[0 := Worker(Copies(s.db.outbox, ids), 0, None, true)];
  }

  lemma StaleCopy(c: Config) returns (after: State)
    requires c.batchSize >= 2
    ensures ReachableUnbroken(c, after) && HasStaleCopy(after) && Fresh(after.db.outbox[1])
    ensures 1 !in after.inbox && Results(after, 1) == 0
  {
    var s := TwoRows(c);
    var s1 := FetchBoth(c, s);
    var batch := s1.workers[0].batch;
    var s2 := Send(c, s1, 0, UNAVAILABLE, false);
    ReachableStep(c, s1, Publishing(0, DoSend(UNAVAILABLE, false)));
    assert s2.workers == map[0 := Worker(batch, 0, Some(MarkSent), true)];
    after := Record(s2, 0, 0);
    ReachableStep(c, s2, Publishing(0, DoRecord(0)));
    assert after.workers == map[0 := Worker(batch, 1, None, true)];
  }

  lemma SecondFetch(c: Config, s: State) returns (after: State)
    requires ReachableUnbroken(c, s) && c.batchSize >= 2 && HasStaleCopy(s) && s.db.outbox[1].status.Pending?
    ensures ReachableUnbroken(c, after)
    ensures after == s.(workers := s.workers[1 := Worker([Copy(1, s.db.outbox[1])], 0, None, true)])
  {
    var ids: seq<OutboxId> := [1];
    assert Fetchable(s, 1);
    assert CanFetch(c, s, 1, ids);
    after := Fetch(s, 1, ids);
    ReachableStep(c, s, Publishing(1, DoFetch(ids)));
    assert Copies(s.db.outbox, ids) == [Copy(1, s.db.outbox[1])];
  }

  lemma SecondSend(c: Config, s: State, reply: Capashino.Reply, accepted: bool) returns (after: State)
    requires ReachableUnbroken(c, s) && 1 in s.workers && |s.workers[1].batch| == 1
    requires s.workers[1] == Worker(s.workers[1].batch, 0, None, true) && s.workers[1].batch[0].id == 1
    requires Posts(s.workers[1].batch[0])
    requires accepted <==> SendNotification(reply).Ok?
    requires reply.Response? ==> reply.code != CONFLICT
    ensures ReachableUnbroken(c, after)
    ensures var batch := s.workers[1].batch;
            after == s.(workers := s.workers[
              1 := Worker(batch, 0, Some(MarkFor(Dispatch(batch[0].row, reply), c.maxAttempts)), true)],
                        inbox := after.inbox)
    ensures after.inbox.Keys == s.inbox.Keys + if accepted then {1} else {}
  {
    after := Send(c, s, 1, reply, accepted);
    ReachableStep(c, s, Publishing(1, DoSend(reply, accepted)));
  }

  /** Worker 1 may fetch row 1 now, post it, and commit the result. */
  lemma SecondWorker(c: Config, s: State, reply: Capashino.Reply, accepted: bool) returns (after: State)
    requires ReachableUnbroken(c, s) && c.batchSize >= 2 && HasStaleCopy(s) && s.db.outbox[1].status.Pending?
    requires accepted <==> SendNotification(reply).Ok?
    requires reply.Response? ==> reply.code != CONFLICT
    ensures ReachableUnbroken(c, after) && HasStaleCopy(after)
    ensures var row := s.db.outbox[1];
            after.db.outbox[1] == AfterMark(row, row, MarkFor(Dispatch(row, reply), c.maxAttempts), 0)
    ensures after.inbox.Keys == s.inbox.Keys + if accepted then {1} else {}
    ensures Results(after, 1) == Results(s, 1) + 1
  {
    var s1 := SecondFetch(c, s);
    var s2 := SecondSend(c, s1, reply, accepted);
    after := Record(s2, 1, 0);
    ReachableStep(c, s2, Publishing(1, DoRecord(0)));
    assert after.workers == s.workers;
  }

  /** Worker 0 posts row 1 from its stale copy, without success, and commits the result. */
  lemma StaleWorker(c: Config, s: State, reply: Capashino.Reply) returns (steps: seq<Step>, after: State)
    requires ReachableUnbroken(c, s) && HasStaleCopy(s) && reply.Response? && reply.code >= 400 &&
             reply.code != CONFLICT
    ensures ReachableUnbroken(c, after) && Run(c, s, steps) && Exec(c, s, steps) == after
    ensures after.db.outbox.Keys == {0, 1} && after.inbox == s.inbox && Results(after, 1) == Results(s, 1) + 1
    ensures var copy := s.workers[0].batch[1].row;
            after.db.outbox[1] == AfterMark(s.db.outbox[1], copy, MarkFor(Dispatch(copy, reply), c.maxAttempts), 0)
  {
    var send, record := Publishing(0, DoSend(reply, false)), Publishing(0, DoRecord(0));
    var s1 := Send(c, s, 0, reply, false);
    ReachableStep(c, s, send);
    after := Record(s1, 0, 0);
    ReachableStep(c, s1, record);
    steps := [send] + [record];
    assert Run(c, after, []) && Exec(c, after, []) == after;
    assert [record] == [record] + [];
    RegistrationTheorems.StepThenRun(c, s1, record, []);
    RegistrationTheorems.StepThenRun(c, s, send, [record]);
  }

  /** Row 1 is SENT by one worker and then turned into FAILED by another, which fetched it
      earlier and lost its lock with the first commit of its batch. */
  lemma SentBecomesFailed(c: Config) returns (sent: State, failed: State, steps: seq<Step>)
    requires c.maxAttempts >= 1 && c.batchSize >= 2
    ensures ReachableUnbroken(c, sent) && 1 in sent.db.outbox && sent.db.outbox[1].status.Sent?
    ensures Run(c, sent, steps) && Exec(c, sent, steps) == failed
    ensures 1 in failed.db.outbox && failed.db.outbox[1].status.Failed? && 1 in failed.inbox
  {
    var s := StaleCopy(c);
    sent := SecondWorker(c, s, CREATED, true);
    steps, failed := StaleWorker(c, sent, Response(401, "", false));
  }

  // ---- the limit of attempts ----

  /** Worker 1 fails until the row is FAILED. */
  lemma {:induction false} FailUntilLimit(c: Config, s: State) returns (after: State)
    requires ReachableUnbroken(c, s) && c.batchSize >= 2 && HasStaleCopy(s)
    requires s.db.outbox[1].status.Pending? && Results(s, 1) == s.db.outbox[1].attempts < c.maxAttempts
    ensures ReachableUnbroken(c, after) && HasStaleCopy(after)
    ensures after.db.outbox[1].status.Failed? && Results(after, 1) == after.db.outbox[1].attempts == c.maxAttempts
    decreases c.maxAttempts - s.db.outbox[1].attempts
  {
    after := SecondWorker(c, s, UNAVAILABLE, false);
    if after.db.outbox[1].attempts < c.maxAttempts {
      after := FailUntilLimit(c, after);
    }
  }

  /** The limit is not kept with batches of two or more: a row that is FAILED after as many
      results as allowed gets one more from a stale copy, which also throws the stored
      counter back to 1. */
  lemma LimitExceeded(c: Config) returns (full: State, steps: seq<Step>, after: State)
    requires c.maxAttempts >= 1 && c.batchSize >= 2
    ensures ReachableUnbroken(c, full) && 1 in full.db.outbox
    ensures full.db.outbox[1].status.Failed? && Results(full, 1) == full.db.outbox[1].attempts == c.maxAttempts
    ensures Run(c, full, steps) && Exec(c, full, steps) == after && ReachableUnbroken(c, after)
    ensures 1 in after.db.outbox && Results(after, 1) == c.maxAttempts + 1 && after.db.outbox[1].attempts == 1
  {
    var s := StaleCopy(c);
    full := FailUntilLimit(c, s);
    steps, after := StaleWorker(c, full, UNAVAILABLE);
  }

  /** The promised limit of attempts holds exactly for batches of at most one row. */
  lemma LimitKeptIff(c: Config)
    requires c.maxAttempts >= 1
    ensures (forall s: State, id :: Reachable(c, s) && id in s.db.outbox ==> Results(s, id) <= c.maxAttempts)
            <==> c.batchSize <= 1
  {
    if c.batchSize <= 1 {
      forall s: State, id | Reachable(c, s) && id in s.db.outbox ensures Results(s, id) <= c.maxAttempts {
        RegistrationTheorems.LimitKept(c, s, id);
      }
    } else {
      var full, steps, after := LimitExceeded(c);
      UnbrokenIsReachable(c, after);
      assert Results(after, 1) > c.maxAttempts;
    }
  }

  /** SENT and FAILED rows stay as they are exactly for batches of at most one row. */
  lemma FinalRowsKeptIff(c: Config)
    requires c.maxAttempts >= 1
    ensures (forall s: State, step: Step, id ::
               Reachable(c, s) && Enabled(c, s, step) && id in s.db.outbox && !s.db.outbox[id].status.Pending? ==>
                 id in Do(c, s, step).db.outbox && Do(c, s, step).db.outbox[id] == s.db.outbox[id])
            <==> c.batchSize <= 1
  {
    if c.batchSize <= 1 {
      forall s: State, step: Step, id |
          Reachable(c, s) && Enabled(c, s, step) && id in s.db.outbox && !s.db.outbox[id].status.Pending?
        ensures id in Do(c, s, step).db.outbox && Do(c, s, step).db.outbox[id] == s.db.outbox[id]
      {
        RegistrationTheorems.SingletonBatchesKeepFinalRows(c, s, step, id);
      }
    } else {
      var sent, posted, record, failed := StaleRecord(c);
      UnbrokenIsReachable(c, posted);
      assert Do(c, posted, record).db.outbox[1] != posted.db.outbox[1];
    }
  }

  /** The step that turns a SENT row into a FAILED one. */
  lemma StaleRecord(c: Config) returns (sent: State, posted: State, record: Step, failed: State)
    requires c.maxAttempts >= 1 && c.batchSize >= 2
    ensures ReachableUnbroken(c, posted) && 1 in posted.db.outbox && posted.db.outbox[1].status.Sent?
    ensures Enabled(c, posted, record) && Do(c, posted, record) == failed
    ensures 1 in failed.db.outbox && failed.db.outbox[1].status.Failed?
  {
    var s := StaleCopy(c);
    sent := SecondWorker(c, s, CREATED, true);
    var reply := Response(401, "", false);
    posted := Send(c, sent, 0, reply, false);
    ReachableStep(c, sent, Publishing(0, DoSend(reply, false)));
    record := Publishing(0, DoRecord(0));
    failed := Record(posted, 0, 0);
  }

  // ---- duplicate sends ----

  /** Batches of one row do not help if a connection is lost: worker 0 fetches the row and
      loses its connection, worker 1 fetches the row too, and both are about to post it. */
  lemma OneRowTwice(c: Config) returns (s: State)
    requires c.batchSize >= 1
    ensures Reachable(c, s) && RegistrationTheorems.AtPost(s, 0, 0) && RegistrationTheorems.AtPost(s, 1, 0)
  {
    var form := Form("event", "Anna", "Petrova", "a@b.ru", "A1");
    ReachableInit(c);
    var s0 := Buy(c, Init(), 0, form, "Conf", 0);
    assert s0.db.outbox.Keys == {0};
    UnbrokenIsReachable(c, s0);
    var s1 := FetchOne(c, s0, 0);
    var s2 := DropConnection(s1, 0);
    AnyStep(c, s1, Publishing(0, DoDropConnection));
    s := FetchOne(c, s2, 1);
  }

  lemma AnyStep(c: Config, s: State, step: Step)
    requires Reachable(c, s) && Enabled(c, s, step)
    ensures Reachable(c, Do(c, s, step))
  {
    var steps: seq<Step> :| Run(c, Init(), steps) && Exec(c, Init(), steps) == s;
    Extend(c, Init(), steps, step);
  }

  lemma FetchOne(c: Config, s: State, w: WorkerId) returns (after: State)
    requires Reachable(c, s) && c.batchSize >= 1 && s.db.outbox.Keys == {0} && Fresh(s.db.outbox[0])
    requires w !in s.workers && forall w' :: w' in s.workers ==> !s.workers[w'].alive
    ensures Reachable(c, after)
    ensures after == s.(workers := s.workers[w := Worker([Copy(0, s.db.outbox[0])], 0, None, true)])
  {
    var ids: seq<OutboxId> := [0];
    assert Fetchable(s, 0);
    assert CanFetch(c, s, w, ids);
    after := Fetch(s, w, ids);
    AnyStep(c, s, Publishing(w, DoFetch(ids)));
    assert Copies(s.db.outbox, ids) == [Copy(0, s.db.outbox[0])];
  }

  /** Two workers can be about to post one row whenever anything is posted at all. */
  lemma DuplicatesIff(c: Config)
    requires c.maxAttempts >= 1
    ensures (exists s :: Reachable(c, s) && RegistrationTheorems.TwoAtPost(s)) <==> c.batchSize >= 1
  {
    if c.batchSize >= 1 {
      var s := OneRowTwice(c);
      assert RegistrationTheorems.TwoAtPost(s);
    }
    if s :| Reachable(c, s) && RegistrationTheorems.TwoAtPost(s) {
      var id, w, w' :| w != w' && RegistrationTheorems.AtPost(s, w, id) && RegistrationTheorems.AtPost(s, w', id);
      RegistrationTheorems.ReachableWorkers(c, s, w);
    }
  }

  /** As long as no worker loses its connection, exactly with batches of two or more rows. */
  lemma DuplicatesUnbrokenIff(c: Config)
    requires c.maxAttempts >= 1
    ensures (exists s :: ReachableUnbroken(c, s) && RegistrationTheorems.TwoAtPost(s)) <==> c.batchSize >= 2
  {
    if c.batchSize >= 2 {
      var s := StaleCopy(c);
      var after := SecondFetch(c, s);
      assert RegistrationTheorems.AtPost(after, 0, 1) && RegistrationTheorems.AtPost(after, 1, 1);
    } else {
      forall s | ReachableUnbroken(c, s) ensures !RegistrationTheorems.TwoAtPost(s) {
        RegistrationTheorems.NoDuplicates(c, s);
      }
    }
  }
}
