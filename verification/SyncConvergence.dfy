/** Every sequence of provider edits and of full, incremental, failed and cancelled
    synchronisations, with no edit while a synchronisation reads. */
module SyncConvergence {
  import opened Wrappers
  import opened Events
  import opened Sync
  import Paginator

  /** The provider's events, the time of its latest edit, and the local state. */
  datatype World = World(provider: map<EventId, ProviderEvent>, clock: int, local: Local)

  datatype Step =
    | Edit(event: ProviderEvent)
    | Synchronise(full: bool, listing: seq<ProviderEvent>, stored: nat, moved: bool, syncedAt: int)

  function Init(clock: int): World {
    World(map[], clock, Local(map[], None))
  }

  function Ids(listing: seq<ProviderEvent>): (ids: set<EventId>)
    ensures forall i :: 0 <= i < |listing| ==> listing[i].id in ids
  {
    set i | 0 <= i < |listing| :: listing[i].id
  }

  /** What the provider returns for a start date, which its filter includes: each event
      changed since then, once, in any order. */
  ghost predicate Listing(provider: map<EventId, ProviderEvent>, from: int, listing: seq<ProviderEvent>) {
    && (forall i, j :: 0 <= i < j < |listing| ==> listing[i].id != listing[j].id)
    && (forall i :: 0 <= i < |listing| ==>
          listing[i].id in provider && provider[listing[i].id] == listing[i] && listing[i].changedAt >= from)
    && (forall id :: id in provider && provider[id].changedAt >= from ==> id in Ids(listing))
  }

  /** The provider's edit clock never goes backwards, and it deletes nothing. A run that
      does not succeed may have stored any number of the listed events. */
  ghost predicate Enabled(w: World, step: Step) {
    match step
    case Edit(event) => event.changedAt >= w.clock
    case Synchronise(full, listing, stored, moved, _) =>
      && Listing(w.provider, DayStart(StartOf(full, w.local.watermark)), listing)
      && stored <= |listing|
      && (moved ==> stored == |listing|)
  }

  ghost function Do(w: World, step: Step): World
    requires Enabled(w, step)
  {
    match step
    case Edit(event) => w.(provider := w.provider[event.id := event], clock := event.changedAt)
    case Synchronise(full, listing, stored, moved, syncedAt) =>
      w.(local := AfterSync(w.local, full, listing, stored, moved, syncedAt))
  }

  ghost predicate Run(w: World, steps: seq<Step>)
    decreases |steps|
  {
    steps == [] || (Enabled(w, steps[0]) && Run(Do(w, steps[0]), steps[1..]))
  }

  ghost function Exec(w: World, steps: seq<Step>): World
    requires Run(w, steps)
    decreases |steps|
  {
    if steps == [] then w else Exec(Do(w, steps[0]), steps[1..])
  }

  // ---- `_do_sync` takes such a step ----

  /** The pages of a walk show the listing in order, and all of it if the chain is complete. */
  ghost predicate Serves(pages: Paginator.Pages, netloc: string -> string, baseUrl: string,
                         listing: seq<ProviderEvent>) {
    forall n: nat :: n <= Paginator.MAX_PAGES ==>
      && Paginator.AllResults(pages, n) <= listing
      && (Paginator.ChainOf(pages, netloc, baseUrl, n) ==> Paginator.AllResults(pages, n) == listing)
  }

  lemma StoredOfPrefix(table: map<EventId, EventRow>, a: seq<ProviderEvent>, b: seq<ProviderEvent>, n: nat,
                       syncedAt: int)
    requires a <= b && n <= |a|
    ensures Stored(table, a, n, syncedAt) == Stored(table, b, n, syncedAt)
  {
    assert a[..n] == b[..n];
  }

  /** What `SyncService.DoSync` promises about the tables is a step here: the premises are
      its postconditions, for a provider that serves its listing. */
  lemma DoSyncIsStep(w: World, full: bool, pages: Paginator.Pages, netloc: string -> string, baseUrl: string,
                     listing: seq<ProviderEvent>, events: seq<ProviderEvent>, stored: nat, n: nat, moved: bool,
                     syncedAt: int)
    requires Listing(w.provider, DayStart(StartOf(full, w.local.watermark)), listing)
    requires Serves(pages, netloc, baseUrl, listing)
    requires n <= Paginator.MAX_PAGES && events <= Paginator.AllResults(pages, n) && stored <= |events|
    requires moved ==>
               stored == |events| && Paginator.ChainOf(pages, netloc, baseUrl, n) &&
                 events == Paginator.AllResults(pages, n)
    ensures var step := Synchronise(full, listing, stored, moved, syncedAt);
            && Enabled(w, step)
            && Do(w, step).local == AfterSync(w.local, full, events, stored, moved, syncedAt)
  {
    StoredOfPrefix(w.local.rows, events, listing, stored, syncedAt);
  }

  /** The local row of an event shows it as the provider has it. */
  ghost predicate Current(w: World, id: EventId)
    requires id in w.provider
  {
    id in w.local.rows && Shows(w.local.rows[id], w.provider[id])
  }

  /** The local table is a copy of the provider's events since the first date. */
  ghost predicate Mirrors(w: World) {
    && (forall id :: id in w.local.rows <==> id in w.provider && w.provider[id].changedAt >= FIRST_DATE)
    && (forall id :: id in w.local.rows ==> Current(w, id))
  }

  ghost predicate ProviderOk(w: World) {
    forall id :: id in w.provider ==> w.provider[id].id == id && w.provider[id].changedAt <= w.clock
  }

  ghost predicate RowsKnown(w: World) {
    forall id :: id in w.local.rows ==> id in w.provider && w.provider[id].changedAt >= FIRST_DATE
  }

  /** Each event is current locally or will be listed by the next incremental run. */
  ghost predicate CurrentOrListed(w: World) {
    forall id :: id in w.provider && w.provider[id].changedAt >= FIRST_DATE ==>
      Current(w, id) || w.local.watermark.None? || w.provider[id].changedAt >= DayStart(w.local.watermark.value)
  }

  /** The watermark is the first date or the time of a change that the provider made. */
  ghost predicate WatermarkSeen(w: World) {
    w.local.watermark.Some? ==>
      && w.local.watermark.value >= FIRST_DATE
      && (w.local.watermark.value > FIRST_DATE ==>
            exists id :: id in w.provider && w.provider[id].changedAt >= w.local.watermark.value)
  }

  ghost predicate Inv(w: World) {
    ProviderOk(w) && RowsKnown(w) && CurrentOrListed(w) && WatermarkSeen(w)
  }

  lemma DayStartBounds(t: int)
    ensures DayStart(t) <= t
    ensures t >= FIRST_DATE ==> DayStart(t) >= FIRST_DATE
  {
    FirstDateIsADayStart();
    if t >= FIRST_DATE {
      assert t / DAY >= 10957;
      assert t == (t / DAY) * DAY + t % DAY;
    }
  }

  /** A synchronisation, successful or not, only makes rows current. */
  lemma StoredRow(w: World, from: int, listing: seq<ProviderEvent>, stored: nat, syncedAt: int, id: EventId)
    requires Listing(w.provider, from, listing) && stored <= |listing|
    ensures var rows := Stored(w.local.rows, listing, stored, syncedAt);
            if exists i :: 0 <= i < stored && listing[i].id == id then
              id in w.provider && w.provider[id].changedAt >= from
              && id in rows && Shows(rows[id], w.provider[id]) && rows[id].syncedAt == syncedAt
            else (id in rows <==> id in w.local.rows) && (id in rows ==> rows[id] == w.local.rows[id])
  {
    if i :| 0 <= i < stored && listing[i].id == id {
      UpsertedAt(w.local.rows, ToRows(listing[..stored], syncedAt), i);
    } else {
      UpsertedElsewhere(w.local.rows, ToRows(listing[..stored], syncedAt), id);
    }
  }

  lemma EditKeepsInv(w: World, event: ProviderEvent)
    requires Inv(w) && event.changedAt >= w.clock
    ensures Inv(Do(w, Edit(event)))
  {
    var after := Do(w, Edit(event));
    if w.local.watermark.Some? {
      var watermark := w.local.watermark.value;
      DayStartBounds(watermark);
      FirstDateIsADayStart();
      if watermark > FIRST_DATE {
        var id :| id in w.provider && w.provider[id].changedAt >= watermark;
        assert id in after.provider && after.provider[id].changedAt >= watermark;
      }
    }
    forall id | id in after.provider && after.provider[id].changedAt >= FIRST_DATE
      ensures Current(after, id) || after.local.watermark.None? ||
              after.provider[id].changedAt >= DayStart(after.local.watermark.value)
    {
      if id != event.id {
        assert Current(w, id) ==> Current(after, id);
      }
    }
  }

  lemma StartIsLate(w: World, full: bool)
    requires Inv(w)
    ensures StartOf(full, w.local.watermark) >= FIRST_DATE
    ensures DayStart(StartOf(full, w.local.watermark)) >= FIRST_DATE
  {
    DayStartBounds(StartOf(full, w.local.watermark));
  }

  lemma SyncKeepsRowsKnown(w: World, step: Step)
    requires Inv(w) && Enabled(w, step) && step.Synchronise?
    ensures RowsKnown(Do(w, step))
  {
    StartIsLate(w, step.full);
    forall id | id in Do(w, step).local.rows ensures id in w.provider && w.provider[id].changedAt >= FIRST_DATE {
      StoredRow(w, DayStart(StartOf(step.full, w.local.watermark)), step.listing, step.stored, step.syncedAt, id);
    }
  }

  lemma SyncKeepsCurrent(w: World, step: Step, id: EventId)
    requires Inv(w) && Enabled(w, step) && step.Synchronise? && id in w.provider
    ensures Current(w, id) ==> Current(Do(w, step), id)
  {
    StoredRow(w, DayStart(StartOf(step.full, w.local.watermark)), step.listing, step.stored, step.syncedAt, id);
  }

  /** The convergence step: after a successful run every event since the first date is
      current, whether it was listed now or had been current all along. */
  lemma SuccessMirrors(w: World, step: Step)
    requires Inv(w) && Enabled(w, step) && step.Synchronise? && step.moved
    ensures Mirrors(Do(w, step))
  {
    var after := Do(w, step);
    var from := DayStart(StartOf(step.full, w.local.watermark));
    FirstDateIsADayStart();
    SyncKeepsRowsKnown(w, step);
    forall id | id in w.provider && w.provider[id].changedAt >= FIRST_DATE ensures Current(after, id) {
      StoredRow(w, from, step.listing, step.stored, step.syncedAt, id);
      if w.provider[id].changedAt >= from {
        assert id in Ids(step.listing);
        var i :| 0 <= i < |step.listing| && step.listing[i].id == id;
      } else {
        assert Current(w, id);
      }
    }
  }

  lemma SyncKeepsWatermarkSeen(w: World, step: Step)
    requires Inv(w) && Enabled(w, step) && step.Synchronise?
    ensures WatermarkSeen(Do(w, step))
  {
    StartIsLate(w, step.full);
    if step.moved {
      MaxChangedIsMax(step.listing, |step.listing|);
      if step.listing != [] {
        var i :| 0 <= i < |step.listing| && step.listing[i].changedAt == MaxChanged(step.listing, |step.listing|).value;
        assert w.provider[step.listing[i].id] == step.listing[i];
      }
    }
  }

  lemma SyncKeepsInv(w: World, step: Step)
    requires Inv(w) && Enabled(w, step) && step.Synchronise?
    ensures Inv(Do(w, step))
  {
    SyncKeepsRowsKnown(w, step);
    SyncKeepsWatermarkSeen(w, step);
    var after := Do(w, step);
    if step.moved {
      SuccessMirrors(w, step);
    } else {
      forall id | id in after.provider && after.provider[id].changedAt >= FIRST_DATE
        ensures Current(after, id) || after.local.watermark.None? ||
                after.provider[id].changedAt >= DayStart(after.local.watermark.value)
      {
        SyncKeepsCurrent(w, step, id);
      }
    }
  }

  lemma InvStep(w: World, step: Step)
    requires Inv(w) && Enabled(w, step)
    ensures Inv(Do(w, step))
  {
    match step {
      case Edit(event) => EditKeepsInv(w, event);
      case Synchronise(_, _, _, _, _) => SyncKeepsInv(w, step);
    }
  }

  lemma {:induction false} RunKeepsInv(w: World, steps: seq<Step>)
    requires Inv(w) && Run(w, steps)
    ensures Inv(Exec(w, steps))
    decreases |steps|
  {
    if steps == [] {
    } else {
      InvStep(w, steps[0]);
      RunKeepsInv(Do(w, steps[0]), steps[1..]);
    }
  }

  /** Convergence: whatever happened before, a successful run leaves the local table equal
      to the provider's, field by field. */
  lemma Convergence(clock: int, steps: seq<Step>, last: Step)
    requires Run(Init(clock), steps)
    requires Enabled(Exec(Init(clock), steps), last) && last.Synchronise? && last.moved
    ensures var w := Do(Exec(Init(clock), steps), last);
            && (forall id :: id in w.local.rows <==> id in w.provider && w.provider[id].changedAt >= FIRST_DATE)
            && (forall id :: id in w.local.rows ==>
                  var row, event := w.local.rows[id], w.provider[id];
                  && row.id == event.id && row.name == event.name && row.status == event.status
                  && row.place == event.place && row.eventTime == event.eventTime
                  && row.registrationDeadline == event.registrationDeadline
                  && row.numberOfVisitors == event.numberOfVisitors && row.changedAt == event.changedAt)
  {
    RunKeepsInv(Init(clock), steps);
    SuccessMirrors(Exec(Init(clock), steps), last);
  }

  /** What a full run is for: whatever the local table and the watermark are, a successful full
      run brings every event since the first date up to date. No other row changes. */
  lemma FullRunRepairs(w: World, step: Step)
    requires ProviderOk(w) && Enabled(w, step) && step.Synchronise? && step.full && step.moved
    ensures forall id :: id in w.provider && w.provider[id].changedAt >= FIRST_DATE ==>
              && Current(Do(w, step), id)
              && Do(w, step).local.rows[id].syncedAt == step.syncedAt
    ensures forall id :: !(id in w.provider && w.provider[id].changedAt >= FIRST_DATE) ==>
              && (id in Do(w, step).local.rows <==> id in w.local.rows)
              && (id in w.local.rows ==> Do(w, step).local.rows[id] == w.local.rows[id])
  {
    FirstDateIsADayStart();
    forall id
      ensures id in w.provider && w.provider[id].changedAt >= FIRST_DATE ==>
                Current(Do(w, step), id) && Do(w, step).local.rows[id].syncedAt == step.syncedAt
      ensures !(id in w.provider && w.provider[id].changedAt >= FIRST_DATE) ==>
                && (id in Do(w, step).local.rows <==> id in w.local.rows)
                && (id in w.local.rows ==> Do(w, step).local.rows[id] == w.local.rows[id])
    {
      StoredRow(w, FIRST_DATE, step.listing, step.stored, step.syncedAt, id);
      if id in w.provider && w.provider[id].changedAt >= FIRST_DATE {
        assert id in Ids(step.listing);
        var i :| 0 <= i < |step.listing| && step.listing[i].id == id;
      }
    }
  }

  /** An incremental run does not: it never looks at an event that changed before the day of the
      watermark, so an outdated or missing row for it stays as it is. */
  lemma IncrementalSkips(w: World, step: Step, id: EventId)
    requires Enabled(w, step) && step.Synchronise? && !step.full && w.local.watermark.Some?
    requires id in w.provider && w.provider[id].changedAt < DayStart(w.local.watermark.value)
    ensures id in Do(w, step).local.rows <==> id in w.local.rows
    ensures id in w.local.rows ==> Do(w, step).local.rows[id] == w.local.rows[id]
  {
    StoredRow(w, DayStart(w.local.watermark.value), step.listing, step.stored, step.syncedAt, id);
  }

  // ---- where rows come from ----

  /** The step stored the listed event. */
  ghost predicate Stores(step: Step, event: ProviderEvent) {
    step.Synchronise? && step.stored <= |step.listing| && event in step.listing[..step.stored]
  }

  ghost predicate StoresId(step: Step, id: EventId) {
    exists event :: Stores(step, event) && event.id == id
  }

  /** The row shows what step `i` stored, with the time of that run, and no later step stored
      the event. */
  ghost predicate StoredLast(steps: seq<Step>, i: nat, row: EventRow) {
    && i < |steps|
    && (exists event :: Stores(steps[i], event) && Shows(row, event))
    && row.syncedAt == steps[i].syncedAt
    && forall j :: i < j < |steps| ==> !StoresId(steps[j], row.id)
  }

  ghost predicate RowsTraced(steps: seq<Step>, w: World) {
    && (forall id :: id in w.local.rows ==>
          w.local.rows[id].id == id && exists i: nat :: StoredLast(steps, i, w.local.rows[id]))
    && (forall i, id :: 0 <= i < |steps| && StoresId(steps[i], id) ==> id in w.local.rows)
  }

  lemma StoredLastStays(steps: seq<Step>, step: Step, i: nat, row: EventRow)
    requires StoredLast(steps, i, row) && !StoresId(step, row.id)
    ensures StoredLast(steps + [step], i, row)
  {
    assert (steps + [step])[i] == steps[i];
  }

  lemma RowsTracedStep(steps: seq<Step>, w: World, step: Step)
    requires RowsTraced(steps, w) && Enabled(w, step)
    ensures RowsTraced(steps + [step], Do(w, step))
  {
    var after := Do(w, step);
    forall id | id in after.local.rows
      ensures after.local.rows[id].id == id && exists i: nat :: StoredLast(steps + [step], i, after.local.rows[id])
    {
      if StoresId(step, id) {
        NewRowTraced(steps, w, step, id);
      } else {
        OldRowStays(w, step, id);
        var i: nat :| StoredLast(steps, i, w.local.rows[id]);
        StoredLastStays(steps, step, i, w.local.rows[id]);
      }
    }
    forall i, id | 0 <= i < |steps + [step]| && StoresId((steps + [step])[i], id) ensures id in after.local.rows {
      if StoresId(step, id) {
        NewRowTraced(steps, w, step, id);
      } else {
        assert StoresId(steps[i], id);
        OldRowStays(w, step, id);
      }
    }
  }

  lemma NewRowTraced(steps: seq<Step>, w: World, step: Step, id: EventId)
    requires Enabled(w, step) && StoresId(step, id)
    ensures id in Do(w, step).local.rows && Do(w, step).local.rows[id].id == id
    ensures StoredLast(steps + [step], |steps|, Do(w, step).local.rows[id])
  {
    var event :| Stores(step, event) && event.id == id;
    var i :| 0 <= i < step.stored && step.listing[i] == event;
    StoredRow(w, DayStart(StartOf(step.full, w.local.watermark)), step.listing, step.stored, step.syncedAt, id);
  }

  lemma OldRowStays(w: World, step: Step, id: EventId)
    requires Enabled(w, step) && !StoresId(step, id)
    ensures id in Do(w, step).local.rows <==> id in w.local.rows
    ensures id in w.local.rows ==> Do(w, step).local.rows[id] == w.local.rows[id]
  {
    if step.Synchronise? {
      if i :| 0 <= i < step.stored && step.listing[i].id == id {
        assert Stores(step, step.listing[i]);
      }
      StoredRow(w, DayStart(StartOf(step.full, w.local.watermark)), step.listing, step.stored, step.syncedAt, id);
    }
  }

  /** At the end of any run, the local rows are those of the events that some run stored, and
      each shows its event as it was listed to the last of these runs, with the time of that
      run. */
  lemma {:induction false} RowsTracedOverRuns(clock: int, steps: seq<Step>)
    requires Run(Init(clock), steps)
    ensures RowsTraced(steps, Exec(Init(clock), steps))
    decreases |steps|
  {
    if steps == [] {
    } else {
      var last := |steps| - 1;
      LastStep(Init(clock), steps);
      RowsTracedOverRuns(clock, steps[..last]);
      RowsTracedStep(steps[..last], Exec(Init(clock), steps[..last]), steps[last]);
      assert steps[..last] + [steps[last]] == steps;
    }
  }

  lemma {:induction false} LastStep(w: World, steps: seq<Step>)
    requires Run(w, steps) && steps != []
    ensures var last := |steps| - 1;
            && Run(w, steps[..last])
            && Enabled(Exec(w, steps[..last]), steps[last])
            && Exec(w, steps) == Do(Exec(w, steps[..last]), steps[last])
    decreases |steps|
  {
    var last := |steps| - 1;
    if last == 0 {
      assert steps[..0] == [] && steps[1..] == [];
    } else {
      LastStep(Do(w, steps[0]), steps[1..]);
      assert steps[1..][..last - 1] == steps[..last][1..];
      assert steps[..last][0] == steps[0];
    }
  }

  // ---- the watermark ----

  /** After a successful run the watermark is the provider's latest change since the first
      date, or the first date if there is none: a later incremental run starts on its day. */
  lemma WatermarkIsLatest(clock: int, steps: seq<Step>, last: Step)
    requires Run(Init(clock), steps)
    requires Enabled(Exec(Init(clock), steps), last) && last.Synchronise? && last.moved
    ensures var w := Do(Exec(Init(clock), steps), last);
            && w.local.watermark.Some?
            && (forall id :: id in w.provider ==>
                  w.provider[id].changedAt <= w.local.watermark.value || w.provider[id].changedAt < FIRST_DATE)
            && (w.local.watermark.value == FIRST_DATE
                || exists id :: id in w.provider && w.provider[id].changedAt == w.local.watermark.value)
  {
    RunKeepsInv(Init(clock), steps);
    MovedToLatest(Exec(Init(clock), steps), last);
  }

  lemma MovedToLatest(w: World, step: Step)
    requires Inv(w) && Enabled(w, step) && step.Synchronise? && step.moved
    ensures var after := Do(w, step).local.watermark;
            && after.Some?
            && (forall id :: id in w.provider ==>
                  w.provider[id].changedAt <= after.value || w.provider[id].changedAt < FIRST_DATE)
            && (after.value == FIRST_DATE || exists id :: id in w.provider && w.provider[id].changedAt == after.value)
  {
    var start := StartOf(step.full, w.local.watermark);
    var after := NewWatermark(start, step.listing);
    NewWatermarkIsLatest(start, step.listing);
    WatermarkStep(w, step);
    StartIsLate(w, step.full);
    FirstDateIsADayStart();
    forall id | id in w.provider ensures w.provider[id].changedAt <= after || w.provider[id].changedAt < FIRST_DATE {
      if w.provider[id].changedAt >= DayStart(start) {
        assert id in Ids(step.listing);
        var i :| 0 <= i < |step.listing| && step.listing[i].id == id;
      } else {
        DayStartBounds(start);
      }
    }
    if step.listing == [] {
      ListingEmpty(w, step);
    } else {
      var i :| 0 <= i < |step.listing| && step.listing[i].changedAt == after;
      assert w.provider[step.listing[i].id].changedAt == after;
    }
  }

  lemma ListingEmpty(w: World, step: Step)
    requires Inv(w) && Enabled(w, step) && step.Synchronise? && step.listing == []
    ensures StartOf(step.full, w.local.watermark) == FIRST_DATE
  {
    var start := StartOf(step.full, w.local.watermark);
    StartIsLate(w, step.full);
    DayStartBounds(start);
    assert Ids(step.listing) == {};
    assert forall id :: id in w.provider ==> w.provider[id].changedAt < start;
  }

  /** The order of watermarks; none is the lowest. */
  predicate AtMost(a: Option<int>, b: Option<int>) {
    a.Some? ==> b.Some? && a.value <= b.value
  }

  lemma WatermarkStep(w: World, step: Step)
    requires Inv(w) && Enabled(w, step)
    ensures AtMost(w.local.watermark, Do(w, step).local.watermark)
    ensures step.Edit? || !step.moved ==> Do(w, step).local.watermark == w.local.watermark
  {
    if step.Synchronise? && step.moved && w.local.watermark.Some? {
      var watermark := w.local.watermark.value;
      MaxChangedIsMax(step.listing, |step.listing|);
      DayStartBounds(watermark);
      FirstDateIsADayStart();
      if watermark > FIRST_DATE {
        var id :| id in w.provider && w.provider[id].changedAt >= watermark;
        assert id in Ids(step.listing);
        var i :| 0 <= i < |step.listing| && step.listing[i].id == id;
        assert step.listing[i].changedAt >= watermark;
      } else if step.listing != [] {
        assert step.listing[0].changedAt >= FIRST_DATE;
      }
    }
  }

  lemma {:induction false} WatermarkAlong(w: World, steps: seq<Step>)
    requires Inv(w) && Run(w, steps)
    ensures AtMost(w.local.watermark, Exec(w, steps).local.watermark)
    decreases |steps|
  {
    if steps == [] {
    } else {
      WatermarkStep(w, steps[0]);
      InvStep(w, steps[0]);
      WatermarkAlong(Do(w, steps[0]), steps[1..]);
    }
  }

  /** From any point of any run on, the watermark never goes backwards, full runs and empty
      listings included. */
  lemma WatermarkNeverFalls(clock: int, steps: seq<Step>, more: seq<Step>)
    requires Run(Init(clock), steps) && Run(Exec(Init(clock), steps), more)
    ensures AtMost(Exec(Init(clock), steps).local.watermark, Exec(Exec(Init(clock), steps), more).local.watermark)
  {
    RunKeepsInv(Init(clock), steps);
    WatermarkAlong(Exec(Init(clock), steps), more);
  }

  /** At any time each event since the first date is current here or will be listed by the
      next incremental run. */
  lemma NothingMissed(clock: int, steps: seq<Step>, id: EventId)
    requires Run(Init(clock), steps)
    requires id in Exec(Init(clock), steps).provider && Exec(Init(clock), steps).provider[id].changedAt >= FIRST_DATE
    ensures var w := Exec(Init(clock), steps);
            Current(w, id) || w.provider[id].changedAt >= DayStart(StartOf(false, w.local.watermark))
  {
    RunKeepsInv(Init(clock), steps);
    FirstDateIsADayStart();
  }
}
