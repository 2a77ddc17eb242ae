/** Incremental synchronisation: the batch loop, the watermark, and convergence to the
    provider's state over every sequence of edits and of full, incremental, failed and
    cancelled runs. Times are microseconds since the epoch, in UTC. */
module Sync {
  import opened Wrappers
  import opened Events
  import opened Paginator

  const DAY := 86_400_000_000
  const FIRST_DATE := 946_684_800_000_000  // 2000-01-01T00:00:00Z

  function DayStart(t: int): int {
    t - t % DAY
  }

  /** The date of a time: the last midnight that is not later. */
  lemma DayStartIsMidnight(t: int, midnight: int)
    ensures DayStart(t) % DAY == 0 && DayStart(t) <= t < DayStart(t) + DAY
    ensures midnight % DAY == 0 && midnight <= t ==> midnight <= DayStart(t)
  {
    assert t == (t / DAY) * DAY + t % DAY;
    assert DayStart(t) == (t / DAY) * DAY;
    if midnight % DAY == 0 && midnight <= t {
      assert midnight == (midnight / DAY) * DAY;
    }
  }

  lemma FirstDateIsADayStart()
    ensures DayStart(FIRST_DATE) == FIRST_DATE
  {
    assert FIRST_DATE == 10957 * DAY;
  }

  /** `sync_metadata` without its texts and timestamps: the status and the watermark. */
  datatype SyncStatus = Idle | Running | Success | Failed
  datatype Meta = Meta(status: SyncStatus, lastChangedAt: Option<int>)

  class SyncMetadataRepository {
    var meta: Option<Meta>

    constructor ()
      ensures meta == None
    {
      meta := None;
    }

    method Get() returns (current: Meta)
      modifies this
      ensures meta == Some(current)
      ensures current == if old(meta).Some? then old(meta).value else Meta(Idle, None)
    {
      if meta.None? {
        meta := Some(Meta(Idle, None));
      }
      current := meta.value;
    }

    method MarkRunning()
      modifies this
      ensures meta == Some(Meta(Running, if old(meta).Some? then old(meta).value.lastChangedAt else None))
    {
      var current := Get();
      meta := Some(current.(status := Running));
    }

    method MarkSuccess(lastChangedAt: int)
      modifies this
      ensures meta == Some(Meta(Success, Some(lastChangedAt)))
    {
      var current := Get();
      meta := Some(current.(status := Success, lastChangedAt := Some(lastChangedAt)));
    }

    method MarkFailure()
      modifies this
      ensures meta == Some(Meta(Failed, if old(meta).Some? then old(meta).value.lastChangedAt else None))
    {
      var current := Get();
      meta := Some(current.(status := Failed));
    }
  }

  // ---- batches ----

  /** The latest change among the first `n` events. */
  function MaxChanged(events: seq<ProviderEvent>, n: nat): Option<int>
    requires n <= |events|
  {
    if n == 0 then None
    else
      var rest := MaxChanged(events, n - 1);
      if rest.None? || events[n - 1].changedAt > rest.value then Some(events[n - 1].changedAt) else rest
  }

  lemma {:induction false} MaxChangedIsMax(events: seq<ProviderEvent>, n: nat)
    requires n <= |events|
    ensures n == 0 <==> MaxChanged(events, n).None?
    ensures forall i :: 0 <= i < n ==> events[i].changedAt <= MaxChanged(events, n).value
    ensures n > 0 ==> exists i :: 0 <= i < n && events[i].changedAt == MaxChanged(events, n).value
  {
    if n == 0 {
    } else {
      MaxChangedIsMax(events, n - 1);
      assert events[n - 1].changedAt <= MaxChanged(events, n).value;
    }
  }

  /** A batch is flushed as soon as it has `batchSize` events, so at the earliest with one. */
  function Width(batchSize: int): nat {
    if batchSize < 1 then 1 else batchSize
  }

  /** `faults(n)` says how the statement of the batch that starts with event `n` fares. */
  type Faults = nat -> Fate

  /** The batch of events `start` to `end` is accepted. */
  predicate BatchOk(events: seq<ProviderEvent>, start: nat, end: nat, syncedAt: int, faults: Faults)
    requires start <= end <= |events|
  {
    faults(start).Goes? && DistinctIds(ToRows(events[start..end], syncedAt))
  }

  /** Every batch from event `start` on is accepted. */
  predicate AllAccepted(events: seq<ProviderEvent>, width: nat, start: nat, syncedAt: int, faults: Faults)
    requires width >= 1 && start <= |events|
    decreases |events| - start
  {
    if start + width > |events| then start == |events| || BatchOk(events, start, |events|, syncedAt, faults)
    else
      && BatchOk(events, start, start + width, syncedAt, faults)
      && AllAccepted(events, width, start + width, syncedAt, faults)
  }

  /** `n` is a multiple of `width`. */
  predicate WholeBatches(n: nat, width: nat)
    requires width >= 1
  {
    n == 0 || (n >= width && WholeBatches(n - width, width))
  }

  datatype SyncError = ProviderError | DatabaseError | TaskCancelled

  /** The table after the first `n` events were upserted one by one. */
  function Stored(table: map<EventId, EventRow>, events: seq<ProviderEvent>, n: nat, syncedAt: int)
    : map<EventId, EventRow>
    requires n <= |events|
  {
    Upserted(table, ToRows(events[..n], syncedAt))
  }

  lemma StoredMore(table: map<EventId, EventRow>, events: seq<ProviderEvent>, n: nat, m: nat, syncedAt: int)
    requires n <= m <= |events|
    ensures Stored(table, events, m, syncedAt) ==
            Upserted(Stored(table, events, n, syncedAt), ToRows(events[n..m], syncedAt))
  {
    assert ToRows(events[..m], syncedAt) == ToRows(events[..n], syncedAt) + ToRows(events[n..m], syncedAt);
    UpsertedInTwo(table, ToRows(events[..n], syncedAt), ToRows(events[n..m], syncedAt));
  }

  /** What the first `n` of the events leave in the table, field by field: each of them that no
      later one of them overwrites is shown, and other rows are as before. */
  ghost predicate TableShows(before: map<EventId, EventRow>, after: map<EventId, EventRow>, events: seq<ProviderEvent>,
                             n: nat, syncedAt: int)
    requires n <= |events|
  {
    && (forall i :: 0 <= i < n && Latest(events, i, n) ==>
          && events[i].id in after
          && Shows(after[events[i].id], events[i]) && after[events[i].id].syncedAt == syncedAt)
    && (forall id :: (forall i :: 0 <= i < n ==> events[i].id != id) ==>
          && (id in after <==> id in before)
          && (id in before ==> after[id] == before[id]))
  }

  /** None of the first `n` events overwrites event `i`. */
  predicate Latest(events: seq<ProviderEvent>, i: nat, n: nat)
    requires i < n <= |events|
  {
    forall j :: i < j < n ==> events[j].id != events[i].id
  }

  lemma StoredShows(table: map<EventId, EventRow>, events: seq<ProviderEvent>, n: nat, syncedAt: int)
    requires n <= |events|
    ensures TableShows(table, Stored(table, events, n, syncedAt), events, n, syncedAt)
  {
    var rows := ToRows(events[..n], syncedAt);
    forall i | 0 <= i < n && Latest(events, i, n)
      ensures events[i].id in Upserted(table, rows) && Upserted(table, rows)[events[i].id] == rows[i]
    {
      UpsertedAt(table, rows, i);
    }
    forall id | forall i :: 0 <= i < n ==> events[i].id != id
      ensures id in Upserted(table, rows) <==> id in table
      ensures id in table ==> Upserted(table, rows)[id] == table[id]
    {
      UpsertedElsewhere(table, rows, id);
    }
  }

  /** Upserts the batch of events `start` to `end` on top of the first `start` events.
      `stored` says how many events are stored then. */
  method Flush(repo: EventRepository, batch: seq<ProviderEvent>, ghost events: seq<ProviderEvent>,
               start: nat, ghost end: nat, syncedAt: int, faults: Faults, ghost before: map<EventId, EventRow>)
    returns (failure: Option<SyncError>, ghost stored: nat)
    requires start < end <= |events| && batch == events[start..end]
    requires repo.rows == Stored(before, events, start, syncedAt)
    modifies repo
    ensures failure.None? <==> BatchOk(events, start, end, syncedAt, faults)
    ensures failure.Some? ==> failure.value == if faults(start).Interrupted? then TaskCancelled else DatabaseError
    ensures stored == start || stored == end
    ensures failure.None? ==> stored == end
    ensures repo.rows == Stored(before, events, stored, syncedAt)
  {
    StoredMore(before, events, start, end, syncedAt);
    var rows := ToRows(batch, syncedAt);
    stored := if DistinctIds(rows) && Applied(faults(start)) then end else start;
    var count := repo.UpsertMany(rows, faults(start));
    failure := if count.Some? then None
               else if faults(start).Interrupted? then Some(TaskCancelled) else Some(DatabaseError);
  }

  /** The batch and the latest change once one event more is seen. */
  lemma SeenOneMore(events: seq<ProviderEvent>, start: nat, n: nat)
    requires start <= n < |events|
    ensures events[start..n] + [events[n]] == events[start..n + 1]
    ensures var latest := MaxChanged(events, n);
            MaxChanged(events, n + 1)
            == if latest.None? || events[n].changedAt > latest.value then Some(events[n].changedAt) else latest
  {
  }

  /** What the loop has achieved when the first `n` events are seen and the first `total` of
      them are in the table: only whole batches, and whether `all` batches are accepted is a
      matter of the rest. */
  ghost predicate Progress(events: seq<ProviderEvent>, width: nat, total: nat, n: nat, syncedAt: int, faults: Faults,
                           all: bool)
    requires width >= 1
  {
    total <= n <= |events| && WholeBatches(total, width) && AllAccepted(events, width, total, syncedAt, faults) == all
  }

  /** Flushes the batch if it is full. */
  method FlushIfFull(repo: EventRepository, batch: seq<ProviderEvent>, ghost events: seq<ProviderEvent>, batchSize: int,
                     total: nat, ghost n: nat, syncedAt: int, faults: Faults, ghost before: map<EventId, EventRow>,
                     ghost all: bool)
    returns (failure: Option<SyncError>, newTotal: nat, rest: seq<ProviderEvent>, ghost stored: nat)
    requires Progress(events, Width(batchSize), total, n, syncedAt, faults, all)
    requires batch == events[total..n] && 0 < |batch| <= Width(batchSize)
    requires repo.rows == Stored(before, events, total, syncedAt)
    modifies repo
    ensures stored <= |events| && WholeBatches(stored, Width(batchSize))
    ensures repo.rows == Stored(before, events, stored, syncedAt)
    ensures failure.None? ==>
              stored == newTotal && Progress(events, Width(batchSize), newTotal, n, syncedAt, faults, all)
    ensures failure.None? ==> rest == events[newTotal..n] && |rest| < Width(batchSize)
    ensures failure.Some? ==> newTotal == total && !failure.value.ProviderError? && !all
  {
    failure, newTotal, rest, stored := None, total, batch, total;
    if |batch| >= batchSize {
      failure, stored := Flush(repo, batch, events, total, n, syncedAt, faults, before);
      if failure.None? {
        newTotal, rest := total + |batch|, [];
      }
    }
  }

  /** The `async for` of `_fetch_and_store`: events pile up in a batch, which is flushed when
      it is full. A flush that fails ends the loop. `stored` counts the events in the table. */
  method StoreFullBatches(repo: EventRepository, events: seq<ProviderEvent>, batchSize: int, syncedAt: int,
                          faults: Faults)
    returns (failure: Option<SyncError>, total: nat, maxChangedAt: Option<int>, batch: seq<ProviderEvent>,
      ghost stored: nat)
    modifies repo
    ensures total <= |events| && stored <= |events| && WholeBatches(stored, Width(batchSize))
    ensures repo.rows == Stored(old(repo.rows), events, stored, syncedAt)
    ensures failure.None? ==> stored == total && maxChangedAt == MaxChanged(events, |events|)
    ensures failure.None? ==> batch == events[total..] && |batch| < Width(batchSize)
    ensures failure.Some? ==> !failure.value.ProviderError?
    ensures AllAccepted(events, Width(batchSize), 0, syncedAt, faults) <==>
            failure.None? && AllAccepted(events, Width(batchSize), total, syncedAt, faults)
  {
    failure, total, maxChangedAt, batch, stored := None, 0, None, [], 0;
    ghost var width := Width(batchSize);
    ghost var all := AllAccepted(events, width, 0, syncedAt, faults);
    ghost var before := repo.rows;
    var n := 0;
    while n < |events|
      invariant failure.None? && stored == total && Progress(events, width, total, n, syncedAt, faults, all)
      invariant batch == events[total..n] && |batch| < width
      invariant maxChangedAt == MaxChanged(events, n)
      invariant repo.rows == Stored(before, events, total, syncedAt)
    {
      SeenOneMore(events, total, n);
      var event := events[n];
      batch := batch + [event];
      if maxChangedAt.None? || event.changedAt > maxChangedAt.value {
        maxChangedAt := Some(event.changedAt);
      }
      n := n + 1;
      failure, total, batch, stored := FlushIfFull(repo, batch, events, batchSize, total, n, syncedAt, faults,
        before, all);
      if failure.Some? {
        return;
      }
    }
  }

  /** How `_fetch_and_store` ends after its loop: with the error that ended the walk, or with
      the last batch, which is not full. */
  method StoreRest(repo: EventRepository, batch: seq<ProviderEvent>, ghost events: seq<ProviderEvent>, end: End,
                   total: nat, ghost width: nat, syncedAt: int, faults: Faults,
                   ghost before: map<EventId, EventRow>)
    returns (failure: Option<SyncError>, count: nat, ghost stored: nat)
    requires total <= |events| && batch == events[total..] && |batch| < width && WholeBatches(total, width)
    requires repo.rows == Stored(before, events, total, syncedAt)
    modifies repo
    ensures stored <= |events| && repo.rows == Stored(before, events, stored, syncedAt)
    ensures failure.None? <==> end.Complete? && AllAccepted(events, width, total, syncedAt, faults)
    ensures failure.None? ==> stored == count == |events|
    ensures failure.Some? ==> WholeBatches(stored, width) || (end.Complete? && stored == |events|)
    ensures failure == Some(ProviderError) ==> !end.Complete? && !end.Cancelled?
  {
    failure, count, stored := None, total, total;
    if end.Cancelled? {
      return Some(TaskCancelled), count, stored;
    }
    if !end.Complete? {
      return Some(ProviderError), count, stored;
    }
    if batch != [] {
      failure, stored := Flush(repo, batch, events, total, |events|, syncedAt, faults, before);
      count := total + |batch|;
    }
  }

  /** `_fetch_and_store` over the events that the walk delivers before it ends with `end`.
      It succeeds exactly if the walk is complete and every batch is accepted; then the
      table is as after upserting every event on its own. Otherwise it is as after upserting
      a prefix: whole batches, or all events if only the last reply was missing. `stored` is
      the length of that prefix. */
  method FetchAndStore(repo: EventRepository, events: seq<ProviderEvent>, end: End, batchSize: int,
                       syncedAt: int, faults: Faults)
    returns (r: Result<(nat, Option<int>), SyncError>, ghost stored: nat)
    modifies repo
    ensures stored <= |events|
    ensures repo.rows == Stored(old(repo.rows), events, stored, syncedAt)
    ensures TableShows(old(repo.rows), repo.rows, events, stored, syncedAt)
    ensures var width := if batchSize < 1 then 1 else batchSize;
            && (r.Ok? <==> end.Complete? && AllAccepted(events, width, 0, syncedAt, faults))
            && (r.Err? ==> WholeBatches(stored, width) || (end.Complete? && stored == |events|))
    ensures r.Ok? ==> stored == |events| && r.value == (|events|, MaxChanged(events, |events|))
    ensures r == Err(ProviderError) ==> !end.Complete? && !end.Cancelled?
  {
    ghost var before := repo.rows;
    var failure, total, maxChangedAt, batch, stored' := StoreFullBatches(repo, events, batchSize, syncedAt, faults);
    stored := stored';
    if failure.None? {
      failure, total, stored := StoreRest(repo, batch, events, end, total, Width(batchSize), syncedAt, faults, before);
    }
    StoredShows(before, events, stored, syncedAt);
    r := if failure.Some? then Err(failure.value) else Ok((total, maxChangedAt));
  }

  // ---- one synchronisation ----

  /** What a synchronisation reads and writes: the table and the watermark. */
  datatype Local = Local(rows: map<EventId, EventRow>, watermark: Option<int>)

  function StartOf(full: bool, watermark: Option<int>): int {
    if full || watermark.None? then FIRST_DATE else watermark.value
  }

  /** The latest change that was seen, or the old starting point if nothing was. */
  function NewWatermark(start: int, events: seq<ProviderEvent>): int {
    var latest := MaxChanged(events, |events|);
    if latest.Some? then latest.value else start
  }

  /** `t` is the latest of the changes, or `start` if there are none. */
  predicate LatestChange(events: seq<ProviderEvent>, start: int, t: int) {
    if events == [] then t == start
    else
      && (forall i :: 0 <= i < |events| ==> events[i].changedAt <= t)
      && exists i :: 0 <= i < |events| && events[i].changedAt == t
  }

  lemma NewWatermarkIsLatest(start: int, events: seq<ProviderEvent>)
    ensures LatestChange(events, start, NewWatermark(start, events))
  {
    MaxChangedIsMax(events, |events|);
  }

  /** The effect of a synchronisation that stored the first `stored` of `events` and then
      moved the watermark or did not. */
  function AfterSync(local: Local, full: bool, events: seq<ProviderEvent>, stored: nat, moved: bool,
                     syncedAt: int): Local
    requires stored <= |events|
  {
    Local(Stored(local.rows, events, stored, syncedAt),
          if moved then Some(NewWatermark(StartOf(full, local.watermark), events)) else local.watermark)
  }

  /** The surroundings of one synchronisation: the provider's pages for each start date,
      when the task is cancelled within the walk, and how the statements of the batches and
      the final status update fare. */
  datatype SyncEnv = SyncEnv(source: int -> Pages, cancelAfter: Option<nat>, syncedAt: int, faults: Faults, mark: Fate)

  /** The task is cancelled before the walk could deliver all its events and end. */
  predicate CutShort(cancelAfter: Option<nat>, events: seq<ProviderEvent>) {
    cancelAfter.Some? && cancelAfter.value <= |events|
  }

  class SyncService {
    const repo: EventRepository
    const metadata: SyncMetadataRepository
    const batchSize: int
    const netloc: string -> string
    const baseUrl: string

    constructor (repo: EventRepository, metadata: SyncMetadataRepository, batchSize: int, netloc: string -> string,
                 baseUrl: string)
      ensures this.repo == repo && this.metadata == metadata && this.batchSize == batchSize
      ensures this.netloc == netloc && this.baseUrl == baseUrl
    {
      this.repo := repo;
      this.metadata := metadata;
      this.batchSize := batchSize;
      this.netloc := netloc;
      this.baseUrl := baseUrl;
    }

    function State(): Local
      reads repo, metadata
    {
      Local(repo.rows, if metadata.meta.Some? then metadata.meta.value.lastChangedAt else None)
    }

    /** The events that reach the loop before the walk ends or the task is cancelled. */
    method Deliver(pages: Pages, cancelAfter: Option<nat>) returns (events: seq<ProviderEvent>, end: End, n: nat)
      ensures n <= MAX_PAGES && events <= AllResults(pages, n)
      ensures end.Complete? <==> ChainOf(pages, netloc, baseUrl, n) && !CutShort(cancelAfter, AllResults(pages, n))
      ensures end.Complete? ==> events == AllResults(pages, n)
      ensures cancelAfter.Some? ==> |events| <= cancelAfter.value
    {
      var fetches;
      events, end, n, fetches := IterAllEvents(pages, netloc, baseUrl);
      if CutShort(cancelAfter, events) {
        events, end := events[..cancelAfter.value], Cancelled;
      }
    }

    /** The walk covers the chain, the task survives it, and every batch is accepted. */
    ghost predicate Fetched(env: SyncEnv, pages: Pages, n: nat) {
      && ChainOf(pages, netloc, baseUrl, n) && !CutShort(env.cancelAfter, AllResults(pages, n))
      && AllAccepted(AllResults(pages, n), Width(batchSize), 0, env.syncedAt, env.faults)
    }

    /** `events` are the events that the walk delivered from its first `n` pages, of which
        `stored` were stored; `moved` says whether the watermark was written. */
    method DoSync(full: bool, env: SyncEnv)
      returns (r: Result<nat, SyncError>, ghost events: seq<ProviderEvent>, ghost stored: nat, ghost n: nat,
        ghost moved: bool)
      modifies repo, metadata
      ensures stored <= |events|
      ensures State() == AfterSync(old(State()), full, events, stored, moved, env.syncedAt)
      ensures !moved ==> State().watermark == old(State()).watermark
      ensures r.Ok? ==> r.value == stored
      ensures env.cancelAfter.Some? ==> |events| <= env.cancelAfter.value
      ensures moved && env.cancelAfter.Some? ==> |events| < env.cancelAfter.value
      ensures var start := if full || old(State()).watermark.None? then FIRST_DATE else old(State()).watermark.value;
              var pages := env.source(DayStart(start));
              var fetched := Fetched(env, pages, n);
              && (moved ==> State().watermark.Some? && LatestChange(events, start, State().watermark.value))
              && n <= MAX_PAGES && events <= AllResults(pages, n)
              && (moved ==> stored == |events| && ChainOf(pages, netloc, baseUrl, n) && events == AllResults(pages, n))
              && (r.Ok? <==> fetched && env.mark.Goes?)
              && (moved <==> fetched && Applied(env.mark))
              && metadata.meta.Some?
              && metadata.meta.value.status == (if moved then Success
                                                else if fetched || r == Err(TaskCancelled) then Running
                                                else Failed)
    {
      var meta := metadata.Get();
      var start := if full || meta.lastChangedAt.None? then FIRST_DATE else meta.lastChangedAt.value;
      metadata.MarkRunning();

      var pages := env.source(DayStart(start));
      var delivered, end, walked := Deliver(pages, env.cancelAfter);
      n, events, moved := walked, delivered, false;
      var result;
      result, stored := FetchAndStore(repo, delivered, end, batchSize, env.syncedAt, env.faults);
      match result {
        case Err(error) =>
          if !error.TaskCancelled? {
            metadata.MarkFailure();
          }
          return Err(error), events, stored, n, moved;
        case Ok((count, maxChangedAt)) =>
          NewWatermarkIsLatest(start, delivered);
          r, moved := Finish(count, if maxChangedAt.Some? then maxChangedAt.value else start, env.mark);
      }
    }

    /** The final status update: it fares on its own, after everything was stored. */
    method Finish(count: nat, newChangedAt: int, mark: Fate) returns (r: Result<nat, SyncError>, ghost moved: bool)
      modifies metadata
      ensures moved == Applied(mark)
      ensures metadata.meta == if moved then Some(Meta(Success, Some(newChangedAt))) else old(metadata.meta)
      ensures r == match mark
                   case Goes => Ok(count)
                   case Fails(_) => Err(DatabaseError)
                   case Interrupted(_) => Err(TaskCancelled)
    {
      moved := false;
      if Applied(mark) {
        metadata.MarkSuccess(newChangedAt);
        moved := true;
      }
      match mark {
        case Goes => r := Ok(count);
        case Fails(_) => r := Err(DatabaseError);
        case Interrupted(_) => r := Err(TaskCancelled);
      }
    }
  }

  lemma {:induction false} WholeBatchesIff(n: nat, width: nat)
    requires width >= 1
    ensures WholeBatches(n, width) <==> n % width == 0
    decreases n
  {
    if n >= width {
      WholeBatchesIff(n - width, width);
      AddingTheModulus(n - width, width);
    }
  }

  lemma AddingTheModulus(a: int, w: int)
    requires a >= 0 && w >= 1
    ensures (a + w) % w == a % w
  {
    var d := (a + w) / w - a / w - 1;
    assert d >= 1 ==> d * w >= w;
    assert d <= -1 ==> d * w <= -w;
    assert a == (a / w) * w + a % w;
    assert a + w == ((a + w) / w) * w + (a + w) % w;
    assert d * w == ((a + w) / w) * w - (a / w) * w - w;
  }
}
