/** Rows of `outbox_events`, what a commit of the repository writes to a row,
    and the repository itself. */
module Outbox {
  import opened Wrappers

  type OutboxId = nat
  type TicketId = nat

  datatype EventType = TicketPurchased | TicketCancelled | Unknown

  datatype Payload =
    | Purchase(ticketId: TicketId, eventId: string, eventName: string,
               firstName: string, lastName: string, email: string, seat: string)
    | Cancellation(ticketId: TicketId, eventId: string, cancelledAt: int)

  datatype Status = Pending | Sent | Failed

  datatype Row = Row(eventType: EventType, payload: Payload, status: Status, attempts: int,
                     lastError: Option<string>, createdAt: int, sentAt: Option<int>)

  const MAX_ERROR_LENGTH := 2000

  function NewRow(eventType: EventType, payload: Payload, createdAt: int): Row {
    Row(eventType, payload, Pending, 0, None, createdAt, None)
  }

  function Truncate(error: string): (r: string)
    ensures r <= error
    ensures |r| == if |error| < MAX_ERROR_LENGTH then |error| else MAX_ERROR_LENGTH
  {
    if |error| <= MAX_ERROR_LENGTH then error else error[..MAX_ERROR_LENGTH]
  }

  /** What the commit of `mark_sent` leaves in the table. `stored` is the row as it is
      stored at that moment; only the fields that the session changed are written. */
  function AfterSent(stored: Row, now: int): Row {
    stored.(status := Sent, sentAt := Some(now))
  }

  /** What the commit of `mark_failed_attempt` leaves in the table. The new values come
      from `copy`, the session's private copy; a field that the session did not change
      keeps its stored value. */
  function AfterFailedAttempt(stored: Row, copy: Row, error: string, maxAttempts: int): Row {
    var attempts := copy.attempts + 1;
    var lastError := Some(Truncate(error));
    stored.(attempts := attempts,
            lastError := if lastError == copy.lastError then stored.lastError else lastError,
            status := if attempts >= maxAttempts then Failed else stored.status)
  }

  /** Indices of the pending rows, oldest first, of a table kept in `created_at` order. */
  function PendingIndices(rows: seq<Row>): seq<nat> {
    if rows == [] then []
    else
      var last := |rows| - 1;
      PendingIndices(rows[..last]) + if rows[last].status.Pending? then [last] else []
  }

  function FirstPending(rows: seq<Row>, limit: nat): seq<nat> {
    var all := PendingIndices(rows);
    if |all| <= limit then all else all[..limit]
  }

  lemma {:induction false} PendingIndicesSound(rows: seq<Row>)
    ensures var r := PendingIndices(rows);
            && |r| <= |rows|
            && (forall j :: 0 <= j < |r| ==> r[j] < |rows| && rows[r[j]].status.Pending?)
            && (forall i, j :: 0 <= i < j < |r| ==> r[i] < r[j])
  {
    if rows == [] {
    } else {
      PendingIndicesSound(rows[..|rows| - 1]);
    }
  }

  lemma {:induction false} PendingIndicesComplete(rows: seq<Row>, i: nat)
    requires i < |rows| && rows[i].status.Pending?
    ensures i in PendingIndices(rows)
  {
    var last := |rows| - 1;
    if i == last {
    } else {
      PendingIndicesComplete(rows[..last], i);
    }
  }

  /** The indices of a prefix are a prefix of the indices. */
  lemma {:induction false} PendingIndicesOfPrefix(rows: seq<Row>, n: nat)
    requires n <= |rows|
    ensures PendingIndices(rows[..n]) <= PendingIndices(rows)
    ensures forall j :: |PendingIndices(rows[..n])| <= j < |PendingIndices(rows)| ==> n <= PendingIndices(rows)[j]
    decreases |rows|
  {
    PendingIndicesSound(rows);
    if n == |rows| {
      assert rows[..n] == rows;
    } else {
      var last := |rows| - 1;
      assert rows[..last][..n] == rows[..n];
      PendingIndicesOfPrefix(rows[..last], n);
    }
  }

  /** Row `i` is in a batch exactly when it is pending and fewer than `limit` rows ahead
      of it are. */
  lemma FetchedIff(rows: seq<Row>, limit: nat, i: nat)
    requires i < |rows|
    ensures i in FirstPending(rows, limit) <==>
            rows[i].status.Pending? && |PendingIndices(rows[..i])| < limit
  {
    var all := PendingIndices(rows);
    var ahead := PendingIndices(rows[..i]);
    PendingIndicesSound(rows);
    PendingIndicesSound(rows[..i]);
    PendingIndicesOfPrefix(rows, i);
    if rows[i].status.Pending? {
      PendingIndicesComplete(rows, i);
      var p :| 0 <= p < |all| && all[p] == i;
      assert p >= |ahead|;
      assert i <= all[|ahead|];
      assert p == |ahead|;
    }
  }

  /** What the query of `fetch_pending` asks for: pending rows, as many as the limit
      allows, ordered by `created_at`, none left behind that is older. */
  ghost predicate OldestPending(rows: seq<Row>, limit: nat, picked: seq<nat>) {
    && |picked| <= limit
    && (forall j :: 0 <= j < |picked| ==> picked[j] < |rows| && rows[picked[j]].status.Pending?)
    && (forall i, j :: 0 <= i < j < |picked| ==>
          picked[i] != picked[j] && rows[picked[i]].createdAt <= rows[picked[j]].createdAt)
    && (forall i :: 0 <= i < |rows| && rows[i].status.Pending? && i !in picked ==>
          |picked| == limit
          && forall j :: 0 <= j < |picked| ==> rows[picked[j]].createdAt <= rows[i].createdAt)
  }

  ghost predicate InCreationOrder(rows: seq<Row>) {
    forall i, j :: 0 <= i < j < |rows| ==> rows[i].createdAt < rows[j].createdAt
  }

  class OutboxRepository {
    /** The table, in `created_at` order. */
    var rows: seq<Row>

    constructor ()
      ensures rows == []
    {
      rows := [];
    }

    method Add(eventType: EventType, payload: Payload, createdAt: int)
      modifies this
      ensures rows == old(rows) + [Row(eventType, payload, Pending, 0, None, createdAt, None)]
    {
      rows := rows + [NewRow(eventType, payload, createdAt)];
    }

    method FetchPending(limit: nat) returns (picked: seq<nat>)
      ensures picked == FirstPending(rows, limit)
      ensures forall j :: 0 <= j < |picked| ==> picked[j] < |rows|
      ensures forall i, j :: 0 <= i < j < |picked| ==> picked[i] < picked[j]
      ensures InCreationOrder(rows) ==> OldestPending(rows, limit, picked)
    {
      picked := FirstPending(rows, limit);
      PendingIndicesSound(rows);
      forall i | 0 <= i < |rows| && rows[i].status.Pending? && i !in picked
        ensures |picked| == limit && forall j :: 0 <= j < |picked| ==> picked[j] < i
      {
        PendingIndicesComplete(rows, i);
      }
    }

    method MarkSent(i: nat, now: int)
      requires i < |rows|
      modifies this
      ensures rows == old(rows)[i := AfterSent(old(rows)[i], now)]
    {
      var stored := rows[i];
      rows := rows[i := stored.(status := Sent, sentAt := Some(now))];
    }

    method MarkFailedAttempt(i: nat, copy: Row, error: string, maxAttempts: int)
      requires i < |rows|
      modifies this
      ensures rows == old(rows)[i := AfterFailedAttempt(old(rows)[i], copy, error, maxAttempts)]
    {
      var event := copy.(attempts := copy.attempts + 1, lastError := Some(Truncate(error)));
      if event.attempts >= maxAttempts {
        event := event.(status := Failed);
      }
      var stored := rows[i];
      if event.lastError != copy.lastError {
        stored := stored.(lastError := event.lastError);
      }
      if event.attempts >= maxAttempts {
        stored := stored.(status := Failed);
      }
      rows := rows[i := stored.(attempts := event.attempts)];
    }
  }
}
