/** Provider events, the local `events` table and its upsert. */
module Events {
  import opened Wrappers

  type EventId = string

  datatype Place = Place(id: string, name: string, city: string, address: string, seatsPattern: string)

  datatype ProviderEvent = ProviderEvent(id: EventId, name: string, status: string, place: Place, eventTime: int,
                                         registrationDeadline: int, numberOfVisitors: int, changedAt: int)

  datatype EventRow = EventRow(id: EventId, name: string, status: string, place: Place, eventTime: int,
                               registrationDeadline: int, numberOfVisitors: int, changedAt: int, syncedAt: int)

  function ToRow(event: ProviderEvent, syncedAt: int): EventRow {
    EventRow(event.id, event.name, event.status, event.place, event.eventTime, event.registrationDeadline,
             event.numberOfVisitors, event.changedAt, syncedAt)
  }

  /** The row shows the event as the provider gives it. */
  predicate Shows(row: EventRow, event: ProviderEvent) {
    && row.id == event.id
    && row.name == event.name
    && row.status == event.status
    && row.place == event.place
    && row.eventTime == event.eventTime
    && row.registrationDeadline == event.registrationDeadline
    && row.numberOfVisitors == event.numberOfVisitors
    && row.changedAt == event.changedAt
  }

  function ToRows(events: seq<ProviderEvent>, syncedAt: int): (rows: seq<EventRow>)
    ensures |rows| == |events|
    ensures forall i :: 0 <= i < |events| ==> rows[i] == ToRow(events[i], syncedAt)
  {
    seq(|events|, i requires 0 <= i < |events| => ToRow(events[i], syncedAt))
  }

  predicate DistinctIds(rows: seq<EventRow>) {
    forall i, j :: 0 <= i < j < |rows| ==> rows[i].id != rows[j].id
  }

  function RowIds(rows: seq<EventRow>): (ids: set<EventId>)
    ensures forall i :: 0 <= i < |rows| ==> rows[i].id in ids
  {
    set i | 0 <= i < |rows| :: rows[i].id
  }

  /** The first of the rows with a given id. */
  function RowWith(rows: seq<EventRow>, id: EventId): (row: EventRow)
    requires id in RowIds(rows)
    ensures row in rows && row.id == id
  {
    if rows[0].id == id then rows[0]
    else
      assert forall i :: 1 <= i < |rows| ==> rows[i] == rows[1..][i - 1];
      RowWith(rows[1..], id)
  }

  // ---- one statement with several rows ----

  /** `INSERT ... ON CONFLICT DO UPDATE` as a set-oriented statement: all rows at once, each
      existing row that is named overwritten, and each missing one inserted. */
  function Merged(table: map<EventId, EventRow>, rows: seq<EventRow>): map<EventId, EventRow> {
    map id | id in table.Keys + RowIds(rows) :: if id in RowIds(rows) then RowWith(rows, id) else table[id]
  }

  /** One-by-one upserts, the oldest first. */
  function Upserted(table: map<EventId, EventRow>, rows: seq<EventRow>): map<EventId, EventRow> {
    if rows == [] then table
    else
      var last := |rows| - 1;
      Upserted(table, rows[..last])[rows[last].id := rows[last]]
  }

  lemma {:induction false} UpsertedInTwo(table: map<EventId, EventRow>, a: seq<EventRow>, b: seq<EventRow>)
    ensures Upserted(table, a + b) == Upserted(Upserted(table, a), b)
  {
    if b == [] {
      assert a + b == a;
    } else {
      var last := |b| - 1;
      assert (a + b)[..|a| + last] == a + b[..last];
      UpsertedInTwo(table, a, b[..last]);
    }
  }

  /** A row that no upsert names is as before. */
  lemma {:induction false} UpsertedElsewhere(table: map<EventId, EventRow>, rows: seq<EventRow>, id: EventId)
    requires forall i :: 0 <= i < |rows| ==> rows[i].id != id
    ensures id in Upserted(table, rows) <==> id in table
    ensures id in table ==> Upserted(table, rows)[id] == table[id]
  {
    if rows == [] {
    } else {
      UpsertedElsewhere(table, rows[..|rows| - 1], id);
    }
  }

  /** The last upsert of an id wins. */
  lemma {:induction false} UpsertedAt(table: map<EventId, EventRow>, rows: seq<EventRow>, i: nat)
    requires i < |rows| && forall j :: i < j < |rows| ==> rows[j].id != rows[i].id
    ensures rows[i].id in Upserted(table, rows) && Upserted(table, rows)[rows[i].id] == rows[i]
  {
    var last := |rows| - 1;
    if i == last {
    } else {
      UpsertedAt(table, rows[..last], i);
    }
  }

  lemma MergedAt(table: map<EventId, EventRow>, rows: seq<EventRow>, id: EventId)
    requires DistinctIds(rows)
    ensures id in table.Keys + RowIds(rows) <==> id in Upserted(table, rows)
    ensures id in RowIds(rows) ==> Upserted(table, rows)[id] == RowWith(rows, id)
    ensures id in table && id !in RowIds(rows) ==> Upserted(table, rows)[id] == table[id]
  {
    if id in RowIds(rows) {
      var i :| 0 <= i < |rows| && rows[i].id == id;
      UpsertedAt(table, rows, i);
      OneRowWith(rows, i);
    } else {
      UpsertedElsewhere(table, rows, id);
    }
  }

  lemma OneRowWith(rows: seq<EventRow>, i: nat)
    requires DistinctIds(rows) && i < |rows|
    ensures RowWith(rows, rows[i].id) == rows[i]
  {
    var j :| 0 <= j < |rows| && rows[j] == RowWith(rows, rows[i].id);
  }

  /** For rows with distinct ids the statement does what one upsert per row does. */
  lemma MergedIsUpserted(table: map<EventId, EventRow>, rows: seq<EventRow>)
    requires DistinctIds(rows)
    ensures Merged(table, rows) == Upserted(table, rows)
  {
    forall id {
      MergedAt(table, rows, id);
    }
  }

  /** How a statement and its commit fare: they go through, fail, or the task is cancelled
      meanwhile. In the last two cases the commit may have been applied all the same. */
  datatype Fate = Goes | Fails(applied: bool) | Interrupted(applied: bool)

  function Applied(fate: Fate): bool {
    fate.Goes? || fate.applied
  }

  class EventRepository {
    var rows: map<EventId, EventRow>

    constructor ()
      ensures rows == map[]
    {
      rows := map[];
    }

    /** One statement and its commit. PostgreSQL rejects a statement that touches one row
        twice. The result is the number of rows, or none after an exception. */
    method UpsertMany(events: seq<EventRow>, fate: Fate) returns (count: Option<nat>)
      modifies this
      ensures count == if events == [] || (fate.Goes? && DistinctIds(events)) then Some(|events|) else None
      ensures rows == if DistinctIds(events) && Applied(fate) then Upserted(old(rows), events) else old(rows)
    {
      if events == [] {
        return Some(0);
      }
      if DistinctIds(events) && Applied(fate) {
        MergedIsUpserted(rows, events);
        rows := Merged(rows, events);
      }
      return if DistinctIds(events) && fate.Goes? then Some(|events|) else None;
    }
  }
}
