/** Counting tickets, outbox rows and cancellations. */
module Conservation {
  import opened Wrappers
  import opened Outbox
  import opened Registration
  import opened RegistrationSafety

  function PurchasedRows(outbox: map<OutboxId, Row>): set<OutboxId> {
    set id | id in outbox && outbox[id].eventType.TicketPurchased?
  }

  function CancelledRows(outbox: map<OutboxId, Row>): set<OutboxId> {
    set id | id in outbox && outbox[id].eventType.TicketCancelled?
  }

  /** Cancellations that wrote an outbox row, and those that dropped a ticket after a 404. */
  function WithRow(cancels: map<RequestId, Cancel>): set<RequestId> {
    set r | r in cancels && cancels[r].row.Some?
  }

  function WithoutRow(cancels: map<RequestId, Cancel>): set<RequestId> {
    set r | r in cancels && cancels[r].row.None?
  }

  /** Cancellations whose ticket row was still there, and those that found it gone. */
  function Hits(cancels: map<RequestId, Cancel>): set<RequestId> {
    set r | r in cancels && cancels[r].hit
  }

  function Misses(cancels: map<RequestId, Cancel>): set<RequestId> {
    set r | r in cancels && !cancels[r].hit
  }

  /** The books: every purchase put in one ticket, every hit took one out, and every
      confirmed cancellation wrote one row. */
  ghost predicate Books(s: State) {
    && |PurchasedRows(s.db.outbox)| == |s.db.tickets| + |Hits(s.past.cancels)|
    && |CancelledRows(s.db.outbox)| == |WithRow(s.past.cancels)|
    && (forall r :: r in s.past.cancels ==>
          r in s.requests && s.requests[r].Unregister? &&
            (s.requests[r].step.Cancelled? || s.requests[r].step.Dropped?))
  }

  lemma RowsAfterNewRow(outbox: map<OutboxId, Row>, id: OutboxId, row: Row)
    requires id !in outbox
    ensures PurchasedRows(outbox[id := row]) ==
            PurchasedRows(outbox) + if row.eventType.TicketPurchased? then {id} else {}
    ensures CancelledRows(outbox[id := row]) ==
            CancelledRows(outbox) + if row.eventType.TicketCancelled? then {id} else {}
    ensures id !in PurchasedRows(outbox) && id !in CancelledRows(outbox)
  {
  }

  lemma CountsAfterNewRow(outbox: map<OutboxId, Row>, id: OutboxId, row: Row)
    requires id !in outbox
    ensures |PurchasedRows(outbox[id := row])| ==
            |PurchasedRows(outbox)| + if row.eventType.TicketPurchased? then 1 else 0
    ensures |CancelledRows(outbox[id := row])| ==
            |CancelledRows(outbox)| + if row.eventType.TicketCancelled? then 1 else 0
  {
    RowsAfterNewRow(outbox, id, row);
  }

  lemma CancelsAfterNewCancel(cancels: map<RequestId, Cancel>, r: RequestId, cancel: Cancel)
    requires r !in cancels
    ensures Hits(cancels[r := cancel]) == Hits(cancels) + if cancel.hit then {r} else {}
    ensures WithRow(cancels[r := cancel]) == WithRow(cancels) + if cancel.row.Some? then {r} else {}
    ensures r !in Hits(cancels) && r !in WithRow(cancels)
  {
  }

  lemma CountsAfterNewCancel(cancels: map<RequestId, Cancel>, r: RequestId, cancel: Cancel)
    requires r !in cancels
    ensures |Hits(cancels[r := cancel])| == |Hits(cancels)| + if cancel.hit then 1 else 0
    ensures |WithRow(cancels[r := cancel])| == |WithRow(cancels)| + if cancel.row.Some? then 1 else 0
  {
    CancelsAfterNewCancel(cancels, r, cancel);
  }

  lemma DeletedTicket(tickets: map<TicketId, Fingerprint.Form>, t: TicketId)
    ensures |tickets - {t}| == |tickets| - if t in tickets then 1 else 0
  {
    assert (tickets - {t}).Keys == tickets.Keys - {t};
  }

  lemma CommitKeepsBooks(c: Config, s: State, r: RequestId, id: OutboxId, now: int)
    requires Books(s) && CanCommitPurchase(s, r, id)
    ensures Books(CommitPurchase(c, s, r, id, now))
  {
    var q := s.requests[r];
    var after := CommitPurchase(c, s, r, id, now);
    CountsAfterNewRow(s.db.outbox, id, after.db.outbox[id]);
    assert after.db.tickets.Keys == s.db.tickets.Keys + {q.phase.ticketId};
  }

  lemma CommitCancelKeepsBooks(s: State, r: RequestId, id: OutboxId, now: int)
    requires Books(s) && CanCommitCancel(s, r, id)
    ensures Books(CommitCancel(s, r, id, now))
  {
    var after := CommitCancel(s, r, id, now);
    var row, cancel := after.db.outbox[id], after.past.cancels[r];
    assert row.eventType == TicketCancelled && cancel.row == Some(id);
    CountsAfterNewRow(s.db.outbox, id, row);
    CountsAfterNewCancel(s.past.cancels, r, cancel);
    DeletedTicket(s.db.tickets, s.requests[r].ticketId);
  }

  lemma CommitDropKeepsBooks(s: State, r: RequestId)
    requires Books(s) && CanCommitDrop(s, r)
    ensures Books(CommitDrop(s, r))
  {
    var after := CommitDrop(s, r);
    CountsAfterNewCancel(s.past.cancels, r, after.past.cancels[r]);
    DeletedTicket(s.db.tickets, s.requests[r].ticketId);
  }

  lemma RegisterKeepsBooks(c: Config, s: State, r: RequestId, step: RegisterStep)
    requires Books(s) && CanRegister(c, s, r, step)
    ensures Books(RegisterTo(c, s, r, step))
  {
    if step.DoCommitPurchase? {
      CommitKeepsBooks(c, s, r, step.id, step.now);
    } else {
      var after := RegisterTo(c, s, r, step);
      assert after.db == s.db && after.past.cancels == s.past.cancels;
    }
  }

  lemma CancelKeepsBooks(s: State, r: RequestId, step: CancelStep)
    requires Books(s) && CanCancel(s, r, step)
    ensures Books(CancelTo(s, r, step))
  {
    match step {
      case DoCommitCancel(id, now) => CommitCancelKeepsBooks(s, r, id, now);
      case DoCommitDrop => CommitDropKeepsBooks(s, r);
      case _ =>
        var after := CancelTo(s, r, step);
        assert after.db == s.db && after.past.cancels == s.past.cancels;
    }
  }

  lemma PublishKeepsBooks(c: Config, s: State, w: WorkerId, step: PublishStep)
    requires Books(s) && CanPublish(c, s, w, step)
    ensures Books(PublishTo(c, s, w, step))
  {
    var after := PublishTo(c, s, w, step);
    PublishIsOutside(c, s, w, step);
    assert after.db.outbox.Keys == s.db.outbox.Keys;
    assert PurchasedRows(after.db.outbox) == PurchasedRows(s.db.outbox);
    assert CancelledRows(after.db.outbox) == CancelledRows(s.db.outbox);
  }

  lemma BooksStep(c: Config, s: State, step: Step)
    requires Books(s) && Enabled(c, s, step)
    ensures Books(Do(c, s, step))
  {
    match step {
      case Registering(r, register) => RegisterKeepsBooks(c, s, r, register);
      case Cancelling(r, cancel) => CancelKeepsBooks(s, r, cancel);
      case Publishing(w, publish) => PublishKeepsBooks(c, s, w, publish);
    }
  }

  /** Purchased rows are live tickets plus cancelled rows plus tickets dropped after a 404. */
  ghost predicate Conserved(s: State) {
    |PurchasedRows(s.db.outbox)| == |s.db.tickets| + |CancelledRows(s.db.outbox)| + |WithoutRow(s.past.cancels)|
  }

  /** The law holds exactly when no cancellation was committed for a ticket row that was
      already gone. */
  lemma ConservedIff(s: State)
    requires Books(s)
    ensures Conserved(s) <==> Misses(s.past.cancels) == {}
  {
    var cancels := s.past.cancels;
    assert WithRow(cancels) + WithoutRow(cancels) == cancels.Keys && WithRow(cancels) !! WithoutRow(cancels);
    assert Hits(cancels) + Misses(cancels) == cancels.Keys && Hits(cancels) !! Misses(cancels);
    assert |WithRow(cancels)| + |WithoutRow(cancels)| == |Hits(cancels)| + |Misses(cancels)|;
  }

  // ---- when cancellations of one ticket do not overlap ----

  predicate MidCancel(q: Request) {
    q.Unregister? && (q.step.Found? || q.step.Confirmed? || q.step.Missing?)
  }

  /** No two cancellations of one ticket are under way together. */
  ghost predicate NoOverlap(s: State) {
    forall r, r' :: r in s.requests && r' in s.requests && MidCancel(s.requests[r]) && MidCancel(s.requests[r'])
                    && s.requests[r].ticketId == s.requests[r'].ticketId
      ==> r == r'
  }

  ghost predicate NoOverlapAlong(c: Config, s: State, steps: seq<Step>)
    requires Run(c, s, steps)
    decreases |steps|
  {
    NoOverlap(s) && (steps != [] ==> NoOverlapAlong(c, Do(c, s, steps[0]), steps[1..]))
  }

  /** Whoever is cancelling still has its ticket row, and nobody has missed one. */
  ghost predicate RowsStillThere(s: State) {
    && (forall r :: r in s.requests && MidCancel(s.requests[r]) ==> s.requests[r].ticketId in s.db.tickets)
    && (forall r :: r in s.past.cancels ==> s.past.cancels[r].hit)
  }

  lemma NoMissStep(c: Config, s: State, step: Step)
    requires NoOverlap(s) && RowsStillThere(s) && Enabled(c, s, step)
    ensures RowsStillThere(Do(c, s, step))
  {
    match step {
      case Registering(r, register) => RegisterKeepsRows(c, s, r, register);
      case Cancelling(r, cancel) => CancelKeepsRows(s, r, cancel);
      case Publishing(w, publish) =>
    }
  }

  lemma RegisterKeepsRows(c: Config, s: State, r: RequestId, step: RegisterStep)
    requires RowsStillThere(s) && CanRegister(c, s, r, step)
    ensures RowsStillThere(RegisterTo(c, s, r, step))
  {
  }

  lemma CancelKeepsRows(s: State, r: RequestId, step: CancelStep)
    requires NoOverlap(s) && RowsStillThere(s) && CanCancel(s, r, step)
    ensures RowsStillThere(CancelTo(s, r, step))
  {
  }
}
