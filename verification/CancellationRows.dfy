/** What becomes of cancellation rows: they need nothing from the receiver, so no answer, no
    stale copy and no second worker can make them fail. */
module CancellationRows {
  import opened Wrappers
  import opened Outbox
  import opened OutboxPublisher
  import opened Registration
  import opened DeliverySafety
  import RegistrationTheorems

  /** A cancellation row was never tried in vain; it is SENT once a result was committed. */
  ghost predicate Acknowledged(s: State, id: OutboxId)
    requires id in s.db.outbox
  {
    var row := s.db.outbox[id];
    && row.payload.Cancellation?
    && !row.status.Failed? && row.attempts == 0 && row.lastError == None
    && (row.status.Sent? <==> Results(s, id) >= 1)
    && (row.status.Sent? <==> row.sentAt.Some?)
  }

  ghost predicate RowsAcknowledged(s: State) {
    forall id :: id in s.db.outbox && s.db.outbox[id].eventType.TicketCancelled? ==> Acknowledged(s, id)
  }

  /** A result for a cancellation row that is still to be committed is a success. */
  ghost predicate MarksAcknowledge(s: State) {
    forall w :: Busy(s, w) && s.workers[w].mark.Some? ==>
      s.workers[w].batch[s.workers[w].next].row.eventType.TicketCancelled? ==> s.workers[w].mark == Some(MarkSent)
  }

  ghost predicate Acknowledging(s: State) {
    RowsAcknowledged(s) && MarksAcknowledge(s)
  }

  lemma NewRowsKeepAcknowledging(c: Config, s: State, after: State)
    requires Acknowledging(s) && CountersHonest(s) && OnlyNewRows(c, s, after) && NoResults(s, after)
    requires forall id ::
               id in after.db.outbox && id !in s.db.outbox && after.db.outbox[id].eventType.TicketCancelled? ==>
                 after.db.outbox[id].lastError == None && after.db.outbox[id].sentAt == None
    ensures Acknowledging(after)
  {
    assert forall id :: Results(after, id) == Results(s, id);
    forall id | id in after.db.outbox && after.db.outbox[id].eventType.TicketCancelled?
      ensures Acknowledged(after, id)
    {
      if id in s.db.outbox {
        assert Acknowledged(s, id);
      } else {
        assert RowBounded(after.db.outbox[id], c.maxAttempts) && after.db.outbox[id].attempts == 0;
        assert id !in s.past.results;
      }
    }
  }

  lemma RegisterKeepsAcknowledging(c: Config, s: State, r: RequestId, step: RegisterStep)
    requires c.maxAttempts >= 1 && Acknowledging(s) && CountersHonest(s) && CanRegister(c, s, r, step)
    ensures Acknowledging(RegisterTo(c, s, r, step))
  {
    var after := RegisterTo(c, s, r, step);
    RegisterOnlyAddsRows(c, s, r, step);
    RegisterCommitsNoResults(c, s, r, step);
    assert forall id :: id in after.db.outbox && id !in s.db.outbox ==> after.db.outbox[id].eventType.TicketPurchased?;
    NewRowsKeepAcknowledging(c, s, after);
  }

  lemma CancelKeepsAcknowledging(c: Config, s: State, r: RequestId, step: CancelStep)
    requires c.maxAttempts >= 1 && Acknowledging(s) && CountersHonest(s) && CanCancel(s, r, step)
    ensures Acknowledging(CancelTo(s, r, step))
  {
    CancelOnlyAddsRows(c, s, r, step);
    CancelCommitsNoResults(s, r, step);
    NewRowsKeepAcknowledging(c, s, CancelTo(s, r, step));
  }

  lemma SendKeepsAcknowledging(c: Config, s: State, w: WorkerId, reply: Capashino.Reply, accepted: bool)
    requires Acknowledging(s) && CanSend(s, w, reply, accepted)
    ensures Acknowledging(Send(c, s, w, reply, accepted))
  {
    var after := Send(c, s, w, reply, accepted);
    assert forall id :: Results(after, id) == Results(s, id);
    forall id | id in after.db.outbox && after.db.outbox[id].eventType.TicketCancelled?
      ensures Acknowledged(after, id)
    {
      assert Acknowledged(s, id);
    }
  }

  lemma RecordKeepsMarks(s: State, w: WorkerId, now: int)
    requires MarksAcknowledge(s) && CanRecord(s, w)
    ensures MarksAcknowledge(Record(s, w, now))
  {
    var after := Record(s, w, now);
    forall w' | Busy(after, w') && after.workers[w'].mark.Some? ensures w' != w && after.workers[w'] == s.workers[w'] {
    }
  }

  lemma RecordKeepsAcknowledged(c: Config, s: State, w: WorkerId, now: int)
    requires Acknowledging(s) && WorkersOk(c, s) && CanRecord(s, w)
    ensures RowsAcknowledged(Record(s, w, now))
  {
    var after := Record(s, w, now);
    var copy := s.workers[w].batch[s.workers[w].next];
    assert WorkerOk(c, s.db, s.inbox, s.workers[w]);
    assert CopyOk(c, s.db, copy);
    assert forall id :: id != copy.id ==> Results(after, id) == Results(s, id);
    forall id | id in after.db.outbox && after.db.outbox[id].eventType.TicketCancelled?
      ensures Acknowledged(after, id)
    {
      if id == copy.id {
        RecordedType(s, w, now);
        assert Acknowledged(s, id);
      } else {
        assert Acknowledged(s, id);
      }
    }
  }

  lemma RecordedType(s: State, w: WorkerId, now: int)
    requires CanRecord(s, w)
    ensures var id := s.workers[w].batch[s.workers[w].next].id;
            Record(s, w, now).db.outbox[id].eventType == s.db.outbox[id].eventType
  {
  }

  lemma SameRowsKeepAcknowledging(s: State, after: State)
    requires Acknowledging(s) && after.db == s.db && after.past == s.past
    requires forall w :: Busy(after, w) && after.workers[w].mark.Some? ==>
               Busy(s, w) && after.workers[w] == s.workers[w].(alive := after.workers[w].alive)
    ensures Acknowledging(after)
  {
    forall id | id in after.db.outbox && after.db.outbox[id].eventType.TicketCancelled?
      ensures Acknowledged(after, id)
    {
      assert Acknowledged(s, id);
    }
  }

  lemma PublishKeepsAcknowledging(c: Config, s: State, w: WorkerId, step: PublishStep)
    requires Acknowledging(s) && WorkersOk(c, s) && CanPublish(c, s, w, step)
    ensures Acknowledging(PublishTo(c, s, w, step))
  {
    match step {
      case DoSend(reply, accepted) => SendKeepsAcknowledging(c, s, w, reply, accepted);
      case DoRecord(now) =>
        RecordKeepsMarks(s, w, now);
        RecordKeepsAcknowledged(c, s, w, now);
      case _ => SameRowsKeepAcknowledging(s, PublishTo(c, s, w, step));
    }
  }

  lemma AcknowledgingStep(c: Config, s: State, step: Step)
    requires c.maxAttempts >= 1 && Acknowledging(s) && Enabled(c, s, step)
    requires RegistrationTheorems.Inv(c, s)
    ensures Acknowledging(Do(c, s, step))
  {
    match step {
      case Registering(r, register) => RegisterKeepsAcknowledging(c, s, r, register);
      case Cancelling(r, cancel) => CancelKeepsAcknowledging(c, s, r, cancel);
      case Publishing(w, publish) => PublishKeepsAcknowledging(c, s, w, publish);
    }
  }

  lemma {:induction false} AcknowledgingAlong(c: Config, s: State, steps: seq<Step>)
    requires c.maxAttempts >= 1 && RegistrationTheorems.Inv(c, s) && Acknowledging(s) && Run(c, s, steps)
    ensures Acknowledging(Exec(c, s, steps))
    decreases |steps|
  {
    if steps == [] {
    } else {
      AcknowledgingStep(c, s, steps[0]);
      RegistrationTheorems.StepInv(c, s, steps[0]);
      AcknowledgingAlong(c, Do(c, s, steps[0]), steps[1..]);
    }
  }

  lemma ReachableAcknowledging(c: Config, s: State)
    requires c.maxAttempts >= 1 && Reachable(c, s)
    ensures Acknowledging(s)
  {
    var steps: seq<Step> :| Run(c, Init(), steps) && Exec(c, Init(), steps) == s;
    RegistrationTheorems.InitInv(c);
    AcknowledgingAlong(c, Init(), steps);
  }

  /** With any number of workers, stale copies, any answers and any limit: a cancellation row
      never fails and never counts an attempt, and it is SENT exactly if a result was committed
      for it. */
  lemma CancellationNeverFails(c: Config, s: State, id: OutboxId)
    requires c.maxAttempts >= 1 && Reachable(c, s)
    requires id in s.db.outbox && s.db.outbox[id].eventType.TicketCancelled?
    ensures var row := s.db.outbox[id];
            && !row.status.Failed? && row.attempts == 0 && row.lastError == None
            && (row.status.Sent? <==> Results(s, id) >= 1)
  {
    ReachableAcknowledging(c, s);
    assert Acknowledged(s, id);
  }

  /** The first result that is committed for it makes it SENT, whatever the receiver said. */
  lemma FirstResultAcknowledges(c: Config, s: State, w: WorkerId, now: int)
    requires c.maxAttempts >= 1 && Reachable(c, s) && CanRecord(s, w)
    requires var id := s.workers[w].batch[s.workers[w].next].id; s.db.outbox[id].eventType.TicketCancelled?
    ensures var id := s.workers[w].batch[s.workers[w].next].id;
            && Record(s, w, now).db.outbox[id].status.Sent?
            && Record(s, w, now).db.outbox[id].sentAt == Some(now)
  {
    ReachableAcknowledging(c, s);
    RegistrationTheorems.ReachableInv(c, s);
    assert WorkerOk(c, s.db, s.inbox, s.workers[w]);
    assert CopyOk(c, s.db, s.workers[w].batch[s.workers[w].next]);
  }
}
