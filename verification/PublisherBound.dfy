/** The bound on batches as a statement about runs of the step relation: whatever one worker
    does there batch by batch is a sequence of rounds of `OutboxPublisher`. */
module PublisherBound {
  import opened Wrappers
  import opened Outbox
  import opened Capashino
  import opened OutboxPublisher
  import opened Registration
  import opened PublisherRuns

  // ---- one batch ----

  predicate SendsAndRecords(w: WorkerId, steps: seq<Step>) {
    forall i :: 0 <= i < |steps| ==>
      steps[i].Publishing? && steps[i].w == w && (steps[i].publish.DoSend? || steps[i].publish.DoRecord?)
  }

  /** Worker `w` fetches a batch and records the result of each of its rows; if there is
      nothing to fetch, it does nothing. */
  ghost predicate BatchBy(c: Config, s: State, w: WorkerId, steps: seq<Step>) {
    && Run(c, s, steps) && Exec(c, s, steps).workers == map[]
    && if steps == [] then forall id :: !Fetchable(s, id)
       else steps[0].Publishing? && steps[0].w == w && steps[0].publish.DoFetch? && SendsAndRecords(w, steps[1..])
  }

  /** A worker in the middle of its batch has a next step. */
  lemma {:induction false} NextStep(c: Config, s: State, w: WorkerId, steps: seq<Step>)
    requires Run(c, s, steps) && SendsAndRecords(w, steps) && Exec(c, s, steps).workers == map[]
    requires s.workers.Keys == {w}
    ensures steps != [] && Enabled(c, s, steps[0]) && Run(c, Do(c, s, steps[0]), steps[1..])
    ensures Exec(c, s, steps) == Exec(c, Do(c, s, steps[0]), steps[1..]) && SendsAndRecords(w, steps[1..])
    ensures steps[0] == Publishing(w, steps[0].publish)
    ensures s.workers[w].mark.None? ==> steps[0].publish.DoSend?
    ensures s.workers[w].mark.Some? ==> steps[0].publish.DoRecord?
  {
    assert w in s.workers;
    assert Run(c, s, []) && Exec(c, s, []) == s;
  }

  /** The next two steps post one row and record its result. */
  lemma {:induction false} RowTaken(c: Config, mid: State, w: WorkerId, batch: seq<Copy>, j: nat, steps: seq<Step>)
    returns (turn: Turn, after: State)
    requires Run(c, mid, steps) && SendsAndRecords(w, steps) && Exec(c, mid, steps).workers == map[]
    requires j < |batch| && mid.workers == map[w := Worker(batch, j, None, true)]
    ensures |steps| >= 2 && Run(c, after, steps[2..]) && Exec(c, after, steps[2..]) == Exec(c, mid, steps)
    ensures SendsAndRecords(w, steps[2..])
    ensures turn.commits && batch[j].id in mid.db.outbox
    ensures after.db.outbox == mid.db.outbox[batch[j].id :=
              AfterMark(mid.db.outbox[batch[j].id], batch[j].row,
                        MarkFor(Dispatch(batch[j].row, turn.reply), c.maxAttempts), turn.now)]
    ensures after.workers == if j + 1 < |batch| then map[w := Worker(batch, j + 1, None, true)] else map[]
  {
    NextStep(c, mid, w, steps);
    var reply := steps[0].publish.reply;
    var sent := Do(c, mid, steps[0]);
    SentWorker(c, mid, w, batch, j, reply, steps[0].publish.accepted);
    NextStep(c, sent, w, steps[1..]);
    var now := steps[1].publish.now;
    after := Do(c, sent, steps[1]);
    turn := Turn(reply, true, now);
    RecordedWorker(sent, w, batch, j, MarkFor(Dispatch(batch[j].row, reply), c.maxAttempts), now);
    assert steps[1..][1..] == steps[2..];
  }

  lemma {:induction false} SentWorker(c: Config, mid: State, w: WorkerId, batch: seq<Copy>, j: nat, reply: Reply,
                                      accepted: bool)
    requires j < |batch| && mid.workers == map[w := Worker(batch, j, None, true)] && CanSend(mid, w, reply, accepted)
    ensures var sent := Send(c, mid, w, reply, accepted);
            && sent.db == mid.db
            && sent.workers ==
               map[w := Worker(batch, j, Some(MarkFor(Dispatch(batch[j].row, reply), c.maxAttempts)), true)]
  {
  }

  lemma {:induction false} RecordedWorker(sent: State, w: WorkerId, batch: seq<Copy>, j: nat, mark: Mark, now: int)
    requires j < |batch| && sent.workers == map[w := Worker(batch, j, Some(mark), true)] && CanRecord(sent, w)
    ensures var after := Record(sent, w, now);
            && batch[j].id in sent.db.outbox
            && after.db.outbox
               == sent.db.outbox[batch[j].id := AfterMark(sent.db.outbox[batch[j].id], batch[j].row, mark, now)]
            && after.workers == if j + 1 < |batch| then map[w := Worker(batch, j + 1, None, true)] else map[]
  {
  }

  /** Nothing is left to send once the worker is gone. */
  lemma {:induction false} NothingLeft(c: Config, s: State, w: WorkerId, steps: seq<Step>)
    requires Run(c, s, steps) && SendsAndRecords(w, steps) && s.workers == map[]
    ensures steps == []
  {
    if steps != [] {
      assert false;
    }
  }

  function WithTurns(turns: nat -> Turn): Iteration {
    Iteration(turns, [], false)
  }

  lemma {:induction false} MatchesUpdate(rows: seq<Row>, ids: seq<OutboxId>, outbox: map<OutboxId, Row>, i: nat,
                                         row: Row)
    requires Matches(rows, ids, outbox) && i < |rows|
    ensures Matches(rows[i := row], ids, outbox[ids[i] := row])
  {
    assert ids[i] in ids;
  }

  function Override(turns: nat -> Turn, i: nat, turn: Turn): nat -> Turn {
    (k: nat) => if k == i then turn else turns(k)
  }

  /** Writing one row now and the others later is writing all of them. */
  lemma {:induction false} WrittenFirst(rows: seq<Row>, rest: nat -> Turn, i: nat, turn: Turn, later: seq<nat>,
                                        maxAttempts: int)
    requires i < |rows| && i !in later
    ensures Written(rows, WithTurns(Override(rest, i, turn)), [i] + later, maxAttempts)
         == Written(rows[i := Published(rows[i], turn, maxAttempts)], WithTurns(rest), later, maxAttempts)
  {
  }

  lemma {:induction false} NothingWritten(rows: seq<Row>, it: Iteration, maxAttempts: int)
    ensures Written(rows, it, [], maxAttempts) == rows
  {
  }

  /** The copies that are still to be sent are the rows of the table. */
  ghost predicate CopiesOf(rows: seq<Row>, ids: seq<OutboxId>, picked: seq<nat>, batch: seq<Copy>, j: nat)
    requires Distinct(rows, ids, picked)
  {
    |batch| == |picked| && forall k :: j <= k < |picked| ==> batch[k] == Copy(ids[picked[k]], rows[picked[k]])
  }

  /** From row `j` of a batch on, the steps write the rest of the batch. */
  lemma {:induction false} RestIsWritten(c: Config, mid: State, w: WorkerId, batch: seq<Copy>, j: nat, steps: seq<Step>,
                                         rows: seq<Row>, ids: seq<OutboxId>, picked: seq<nat>)
    returns (turns: nat -> Turn)
    requires Run(c, mid, steps) && SendsAndRecords(w, steps) && Exec(c, mid, steps).workers == map[]
    requires j < |batch| && mid.workers == map[w := Worker(batch, j, None, true)]
    requires Matches(rows, ids, mid.db.outbox) && Distinct(rows, ids, picked) && CopiesOf(rows, ids, picked, batch, j)
    ensures forall i :: turns(i).commits
    ensures Matches(Written(rows, WithTurns(turns), picked[j..], c.maxAttempts), ids, Exec(c, mid, steps).db.outbox)
    decreases |batch| - j
  {
    var turn, after := RowTaken(c, mid, w, batch, j, steps);
    var i := picked[j];
    var row := Published(rows[i], turn, c.maxAttempts);
    RowIsWritten(rows, ids, picked, batch, j, mid.db.outbox, row);
    var rest: nat -> Turn := k => turn;
    if j + 1 < |batch| {
      rest := RestIsWritten(c, after, w, batch, j + 1, steps[2..], rows[i := row], ids, picked);
    } else {
      NothingLeft(c, after, w, steps[2..]);
      NothingWritten(rows[i := row], WithTurns(rest), c.maxAttempts);
    }
    turns := Override(rest, i, turn);
    WrittenFirst(rows, rest, i, turn, picked[j + 1..], c.maxAttempts);
  }

  lemma {:induction false} RowIsWritten(rows: seq<Row>, ids: seq<OutboxId>, picked: seq<nat>, batch: seq<Copy>, j: nat,
                                        outbox: map<OutboxId, Row>, row: Row)
    requires Matches(rows, ids, outbox) && Distinct(rows, ids, picked) && j < |batch| &&
             CopiesOf(rows, ids, picked, batch, j)
    ensures batch[j] == Copy(ids[picked[j]], rows[picked[j]]) && outbox[ids[picked[j]]] == rows[picked[j]]
    ensures Matches(rows[picked[j] := row], ids, outbox[ids[picked[j]] := row])
    ensures Distinct(rows[picked[j] := row], ids, picked) && CopiesOf(rows[picked[j] := row], ids, picked, batch, j + 1)
    ensures picked[j..] == [picked[j]] + picked[j + 1..] && picked[j] !in picked[j + 1..]
  {
    MatchesUpdate(rows, ids, outbox, picked[j], row);
    assert ids[picked[j]] in ids;
  }

  // ---- which batch it is ----

  ghost predicate Increasing(a: seq<nat>) {
    forall i, j :: 0 <= i < j < |a| ==> a[i] < a[j]
  }

  /** An increasing sequence is a prefix of another if it takes the smallest elements. */
  lemma {:induction false} SmallestArePrefix(a: seq<nat>, b: seq<nat>)
    requires Increasing(a) && Increasing(b) && forall x :: x in a ==> x in b
    requires forall x, y :: x in b && x !in a && y in a ==> y < x
    ensures a <= b
    decreases |a|
  {
    if a == [] {
    } else {
      var last := |a| - 1;
      var shorter := a[..last];
      forall x, y | x in b && x !in shorter && y in shorter ensures y < x {
        assert y in a;
        if x in a {
          assert x == a[last];
          var i :| 0 <= i < last && a[i] == y;
        }
      }
      SmallestArePrefix(shorter, b);
      LastOfPrefix(a, b);
    }
  }

  lemma {:induction false} LastOfPrefix(a: seq<nat>, b: seq<nat>)
    requires Increasing(a) && Increasing(b) && a != [] && a[..|a| - 1] <= b && a[|a| - 1] in b
    requires forall x, y :: x in b && x !in a && y in a ==> y < x
    ensures a <= b
  {
    var last := |a| - 1;
    var at :| 0 <= at < |b| && b[at] == a[last];
    assert forall i :: 0 <= i < last ==> b[i] == a[i];
    assert at >= last && b[last] in b && b[last] <= a[last] && a[last] in a;
    assert b[last] in a;
    var i :| 0 <= i < |a| && a[i] == b[last];
    assert i == last;
  }

  /** The position of a row. */
  lemma {:induction false} Position(rows: seq<Row>, ids: seq<OutboxId>, outbox: map<OutboxId, Row>, id: OutboxId)
    returns (i: nat)
    requires Matches(rows, ids, outbox) && id in outbox
    ensures i < |ids| && ids[i] == id && outbox[id] == rows[i]
  {
    i :| 0 <= i < |ids| && ids[i] == id;
  }

  /** The positions of the rows that are fetched. */
  lemma {:induction false} Positions(s: State, rows: seq<Row>, ids: seq<OutboxId>, fetched: seq<OutboxId>)
    returns (picked: seq<nat>)
    requires Matches(rows, ids, s.db.outbox) && forall i :: 0 <= i < |fetched| ==> fetched[i] in s.db.outbox
    ensures PositionsOf(ids, fetched, picked)
    decreases |fetched|
  {
    if fetched == [] {
      picked := [];
    } else {
      var last := |fetched| - 1;
      var shorter := Positions(s, rows, ids, fetched[..last]);
      var i := Position(rows, ids, s.db.outbox, fetched[last]);
      picked := shorter + [i];
    }
  }

  /** The picked positions are the oldest pending ones, as many as the limit allows. */
  ghost predicate OldestPicked(rows: seq<Row>, picked: seq<nat>, limit: nat) {
    && Increasing(picked) && |picked| <= limit
    && (forall x :: x in picked ==> x < |rows| && rows[x].status.Pending?)
    && (forall x :: 0 <= x < |rows| && rows[x].status.Pending? && x !in picked ==>
          |picked| == limit && forall y :: y in picked ==> y < x)
  }

  lemma {:induction false} OldestIsFirst(rows: seq<Row>, picked: seq<nat>, limit: nat)
    requires OldestPicked(rows, picked, limit)
    ensures picked == FirstPending(rows, limit)
  {
    var all := PendingIndices(rows);
    PendingIndicesSound(rows);
    forall x | x in picked ensures x in all {
      PendingIndicesComplete(rows, x);
    }
    SmallestArePrefix(picked, all);
    AllOrLimit(picked, all, limit);
  }

  /** `picked` are the positions of the fetched rows. */
  ghost predicate PositionsOf(ids: seq<OutboxId>, fetched: seq<OutboxId>, picked: seq<nat>) {
    |picked| == |fetched| && forall i :: 0 <= i < |picked| ==> picked[i] < |ids| && ids[picked[i]] == fetched[i]
  }

  lemma {:induction false} FetchedIncrease(c: Config, s: State, w: WorkerId, fetched: seq<OutboxId>, rows: seq<Row>,
                                           ids: seq<OutboxId>, picked: seq<nat>)
    requires CanFetch(c, s, w, fetched) && Matches(rows, ids, s.db.outbox) && InCreationOrder(rows)
    requires PositionsOf(ids, fetched, picked)
    ensures Increasing(picked) && forall x :: x in picked ==> x < |rows| && rows[x].status.Pending?
  {
    forall i | 0 <= i < |picked| ensures rows[picked[i]] == s.db.outbox[fetched[i]] && rows[picked[i]].status.Pending? {
      assert Fetchable(s, fetched[i]);
    }
  }

  lemma {:induction false} OtherComesLater(c: Config, s: State, w: WorkerId, fetched: seq<OutboxId>, rows: seq<Row>,
                                           ids: seq<OutboxId>, picked: seq<nat>, x: nat)
    requires s.workers == map[] && CanFetch(c, s, w, fetched)
    requires Matches(rows, ids, s.db.outbox) && InCreationOrder(rows) && PositionsOf(ids, fetched, picked)
    requires x < |rows| && rows[x].status.Pending? && x !in picked
    ensures |picked| == c.batchSize && picked[|picked| - 1] < x
  {
    NotFetched(s, fetched, rows, ids, picked, x);
    var last := |picked| - 1;
    assert Fetchable(s, fetched[last]);
    assert s.db.outbox[fetched[last]] == rows[picked[last]] && fetched[last] != ids[x];
  }

  /** What the query fetches are the first pending rows of the table in creation order. */
  lemma {:induction false} FetchIsOldest(c: Config, s: State, w: WorkerId, fetched: seq<OutboxId>, rows: seq<Row>,
                                         ids: seq<OutboxId>)
    returns (picked: seq<nat>)
    requires s.workers == map[] && CanFetch(c, s, w, fetched)
    requires Matches(rows, ids, s.db.outbox) && InCreationOrder(rows)
    ensures PositionsOf(ids, fetched, picked) && OldestPicked(rows, picked, c.batchSize)
  {
    assert forall i :: 0 <= i < |fetched| ==> Fetchable(s, fetched[i]);
    picked := Positions(s, rows, ids, fetched);
    FetchedIncrease(c, s, w, fetched, rows, ids, picked);
    forall x | 0 <= x < |rows| && rows[x].status.Pending? && x !in picked
      ensures |picked| == c.batchSize && forall y :: y in picked ==> y < x
    {
      OtherComesLater(c, s, w, fetched, rows, ids, picked, x);
    }
  }

  lemma {:induction false} NotFetched(s: State, fetched: seq<OutboxId>, rows: seq<Row>, ids: seq<OutboxId>,
                                      picked: seq<nat>, x: nat)
    requires s.workers == map[] && Matches(rows, ids, s.db.outbox) && PositionsOf(ids, fetched, picked)
    requires x < |rows| && rows[x].status.Pending? && x !in picked
    ensures Fetchable(s, ids[x]) && ids[x] !in fetched && s.db.outbox[ids[x]] == rows[x]
  {
    assert ids[x] in ids;
    forall i | 0 <= i < |fetched| ensures fetched[i] != ids[x] {
      assert picked[i] != x;
    }
  }

  lemma {:induction false} AllOrLimit(picked: seq<nat>, all: seq<nat>, limit: nat)
    requires picked <= all && Increasing(all) && |picked| <= limit
    requires (exists x :: x in all && x !in picked) ==> |picked| == limit
    ensures picked == if |all| <= limit then all else all[..limit]
  {
    if |picked| < |all| {
      assert all[|picked|] in all;
      assert forall i :: 0 <= i < |picked| ==> picked[i] == all[i] && all[i] < all[|picked|];
    }
  }

  /** A batch that is not empty writes the first pending rows. */
  lemma {:induction false} BusyBatch(c: Config, s: State, w: WorkerId, steps: seq<Step>, rows: seq<Row>,
                                     ids: seq<OutboxId>)
    returns (turns: nat -> Turn)
    requires s.workers == map[] && BatchBy(c, s, w, steps) && steps != []
    requires Matches(rows, ids, s.db.outbox) && InCreationOrder(rows)
    ensures forall i :: turns(i).commits
    ensures Matches(Written(rows, WithTurns(turns), FirstPending(rows, c.batchSize), c.maxAttempts), ids,
                    Exec(c, s, steps).db.outbox)
  {
    var fetched := steps[0].publish.ids;
    var picked := FetchIsOldest(c, s, w, fetched, rows, ids);
    OldestIsFirst(rows, picked, c.batchSize);
    var mid := Do(c, s, steps[0]);
    FetchedCopies(s, fetched, rows, ids, picked);
    turns := RestIsWritten(c, mid, w, Copies(s.db.outbox, fetched), 0, steps[1..], rows, ids, picked);
    assert picked[0..] == picked;
  }

  lemma {:induction false} AllReached(picked: seq<nat>, it: Iteration)
    requires forall i :: it.turns(i).commits
    ensures picked[..Reached(picked, it)] == picked
  {
  }

  /** Whatever one worker does in a batch is a round. */
  lemma {:induction false} BatchIsRound(c: Config, s: State, w: WorkerId, steps: seq<Step>, rows: seq<Row>,
                                        ids: seq<OutboxId>)
    returns (it: Iteration)
    requires s.workers == map[] && BatchBy(c, s, w, steps) && Matches(rows, ids, s.db.outbox) && InCreationOrder(rows)
    ensures !it.stopped && it.arrivals == [] && forall i :: it.turns(i).commits
    ensures Matches(Round(rows, it, c.batchSize, c.maxAttempts), ids, Exec(c, s, steps).db.outbox)
  {
    if steps == [] {
      it := WithTurns(k => Turn(NoResponse(""), true, 0));
      NothingPending(s, rows, ids);
      assert FirstPending(rows, c.batchSize) == [];
      NothingWritten(rows, it, c.maxAttempts);
    } else {
      var turns := BusyBatch(c, s, w, steps, rows, ids);
      it := WithTurns(turns);
      AllReached(FirstPending(rows, c.batchSize), it);
    }
  }

  lemma {:induction false} NothingPending(s: State, rows: seq<Row>, ids: seq<OutboxId>)
    requires s.workers == map[] && Matches(rows, ids, s.db.outbox) && forall id :: !Fetchable(s, id)
    ensures PendingIndices(rows) == []
  {
    PendingIndicesSound(rows);
    if PendingIndices(rows) != [] {
      var x := PendingIndices(rows)[0];
      assert ids[x] in ids;
      assert Fetchable(s, ids[x]);
    }
  }

  lemma {:induction false} FetchedCopies(s: State, fetched: seq<OutboxId>, rows: seq<Row>, ids: seq<OutboxId>,
                                         picked: seq<nat>)
    requires Matches(rows, ids, s.db.outbox) && Increasing(picked) && PositionsOf(ids, fetched, picked)
    requires forall i :: 0 <= i < |fetched| ==> fetched[i] in s.db.outbox
    ensures Distinct(rows, ids, picked) && CopiesOf(rows, ids, picked, Copies(s.db.outbox, fetched), 0)
  {
  }

  // ---- what requests do in between ----

  /** A new row is younger than all that are there. */
  ghost predicate NewRowIsLast(s: State, after: State) {
    forall id, id' :: id in s.db.outbox && id' in after.db.outbox && id' !in s.db.outbox ==>
      s.db.outbox[id].createdAt < after.db.outbox[id'].createdAt
  }

  /** Steps of requests only, with a clock that moves on between their commits. */
  ghost predicate RequestsOnly(c: Config, s: State, steps: seq<Step>)
    requires Run(c, s, steps)
    decreases |steps|
  {
    steps != [] ==>
      && !steps[0].Publishing? && NewRowIsLast(s, Do(c, s, steps[0]))
      && RequestsOnly(c, Do(c, s, steps[0]), steps[1..])
  }

  /** A request adds at most one row, which is fresh. */
  ghost predicate AddsAtMostOne(s: State, after: State) {
    && after.workers == s.workers
    && (after.db.outbox == s.db.outbox
        || exists id: OutboxId, eventType, payload, now :: id !in s.db.outbox
             && after.db.outbox == s.db.outbox[id := NewRow(eventType, payload, now)])
  }

  lemma {:induction false} RegisterAddsAtMostOne(c: Config, s: State, r: RequestId, step: RegisterStep)
    requires CanRegister(c, s, r, step)
    ensures AddsAtMostOne(s, RegisterTo(c, s, r, step))
  {
  }

  lemma {:induction false} CancelAddsAtMostOne(s: State, r: RequestId, step: CancelStep)
    requires CanCancel(s, r, step)
    ensures AddsAtMostOne(s, CancelTo(s, r, step))
  {
  }

  lemma {:induction false} RequestAddsAtMostOne(c: Config, s: State, step: Step)
    requires Enabled(c, s, step) && !step.Publishing?
    ensures AddsAtMostOne(s, Do(c, s, step))
  {
    if step.Registering? {
      RegisterAddsAtMostOne(c, s, step.r, step.register);
    } else {
      CancelAddsAtMostOne(s, step.r, step.cancel);
    }
  }

  lemma {:induction false} OneArrival(s: State, after: State, rows: seq<Row>, ids: seq<OutboxId>, maxAttempts: int)
    returns (newRows: seq<Row>, newIds: seq<OutboxId>)
    requires maxAttempts >= 1 && AddsAtMostOne(s, after) && NewRowIsLast(s, after)
    requires Matches(rows, ids, s.db.outbox) && InCreationOrder(rows)
    ensures Matches(rows + newRows, ids + newIds, after.db.outbox) && InCreationOrder(rows + newRows)
    ensures TableOk(newRows, maxAttempts)
  {
    if after.db.outbox == s.db.outbox {
      newRows, newIds := [], [];
      assert rows + newRows == rows && ids + newIds == ids;
    } else {
      var id: OutboxId, eventType, payload, now :| id !in s.db.outbox
        && after.db.outbox == s.db.outbox[id := NewRow(eventType, payload, now)];
      newRows, newIds := [NewRow(eventType, payload, now)], [id];
      assert id in after.db.outbox && id !in s.db.outbox;
      RowAppended(rows, ids, s.db.outbox, id, NewRow(eventType, payload, now));
    }
  }

  lemma {:induction false} RowAppended(rows: seq<Row>, ids: seq<OutboxId>, outbox: map<OutboxId, Row>, id: OutboxId,
                                       row: Row)
    requires Matches(rows, ids, outbox) && InCreationOrder(rows) && id !in outbox
    requires forall other :: other in outbox ==> outbox[other].createdAt < row.createdAt
    ensures Matches(rows + [row], ids + [id], outbox[id := row]) && InCreationOrder(rows + [row])
  {
    forall i | 0 <= i < |rows| ensures rows[i].createdAt < row.createdAt && ids[i] != id {
      assert ids[i] in ids;
    }
  }

  lemma {:induction false} Arrivals(c: Config, s: State, steps: seq<Step>, rows: seq<Row>, ids: seq<OutboxId>)
    returns (newRows: seq<Row>, newIds: seq<OutboxId>)
    requires c.maxAttempts >= 1 && Run(c, s, steps) && RequestsOnly(c, s, steps)
    requires Matches(rows, ids, s.db.outbox) && InCreationOrder(rows)
    ensures Exec(c, s, steps).workers == s.workers
    ensures Matches(rows + newRows, ids + newIds, Exec(c, s, steps).db.outbox) && InCreationOrder(rows + newRows)
    ensures TableOk(newRows, c.maxAttempts)
    decreases |steps|
  {
    if steps == [] {
      newRows, newIds := [], [];
      assert rows + newRows == rows && ids + newIds == ids;
    } else {
      var next := Do(c, s, steps[0]);
      RequestAddsAtMostOne(c, s, steps[0]);
      var firstRows, firstIds := OneArrival(s, next, rows, ids, c.maxAttempts);
      var restRows, restIds := Arrivals(c, next, steps[1..], rows + firstRows, ids + firstIds);
      newRows, newIds := firstRows + restRows, firstIds + restIds;
      JoinArrivals(rows, firstRows, restRows);
      JoinIds(ids, firstIds, restIds);
      TablesJoin(firstRows, restRows, c.maxAttempts);
    }
  }

  lemma {:induction false} JoinArrivals(a: seq<Row>, b: seq<Row>, d: seq<Row>)
    ensures a + (b + d) == a + b + d
  {
  }

  lemma {:induction false} JoinIds(a: seq<OutboxId>, b: seq<OutboxId>, d: seq<OutboxId>)
    ensures a + (b + d) == a + b + d
  {
  }

  lemma {:induction false} TablesJoin(a: seq<Row>, b: seq<Row>, maxAttempts: int)
    requires TableOk(a, maxAttempts) && TableOk(b, maxAttempts)
    ensures TableOk(a + b, maxAttempts)
  {
  }

  // ---- a schedule of batches ----

  /** A batch of the worker, and what requests do before the next one. */
  datatype Slot = Slot(batch: seq<Step>, others: seq<Step>)

  ghost predicate SlotOk(c: Config, s: State, w: WorkerId, slot: Slot) {
    && BatchBy(c, s, w, slot.batch)
    && Run(c, Exec(c, s, slot.batch), slot.others) && RequestsOnly(c, Exec(c, s, slot.batch), slot.others)
  }

  ghost function AfterSlot(c: Config, s: State, w: WorkerId, slot: Slot): State
    requires SlotOk(c, s, w, slot)
  {
    Exec(c, Exec(c, s, slot.batch), slot.others)
  }

  ghost predicate Schedule(c: Config, s: State, w: WorkerId, slots: seq<Slot>)
    decreases |slots|
  {
    slots == [] || (SlotOk(c, s, w, slots[0]) && Schedule(c, AfterSlot(c, s, w, slots[0]), w, slots[1..]))
  }

  ghost function AfterSlots(c: Config, s: State, w: WorkerId, slots: seq<Slot>): State
    requires Schedule(c, s, w, slots)
    decreases |slots|
  {
    if slots == [] then s else AfterSlots(c, AfterSlot(c, s, w, slots[0]), w, slots[1..])
  }

  /** The table of a state in which no worker is busy. */
  ghost predicate TableOf(c: Config, s: State, rows: seq<Row>, ids: seq<OutboxId>) {
    s.workers == map[] && Matches(rows, ids, s.db.outbox) && InCreationOrder(rows) && TableOk(rows, c.maxAttempts)
  }

  lemma {:induction false} RoundKeepsOrder(rows: seq<Row>, it: Iteration, batchSize: nat, maxAttempts: int)
    requires InCreationOrder(rows)
    ensures InCreationOrder(Round(rows, it, batchSize, maxAttempts))
  {
  }

  /** A slot is an iteration of the publisher. */
  lemma {:induction false} SlotIsIteration(c: Config, s: State, w: WorkerId, slot: Slot, rows: seq<Row>,
                                           ids: seq<OutboxId>)
    returns (it: Iteration, newIds: seq<OutboxId>)
    requires c.maxAttempts >= 1 && TableOf(c, s, rows, ids) && SlotOk(c, s, w, slot)
    ensures SmoothIteration(it, c.maxAttempts)
    ensures TableOf(c, AfterSlot(c, s, w, slot), Round(rows, it, c.batchSize, c.maxAttempts) + it.arrivals,
                    ids + newIds)
  {
    var batch := BatchIsRound(c, s, w, slot.batch, rows, ids);
    var after := Round(rows, batch, c.batchSize, c.maxAttempts);
    RoundKeepsOrder(rows, batch, c.batchSize, c.maxAttempts);
    RoundWork(rows, batch, c.batchSize, c.maxAttempts);
    var newRows;
    newRows, newIds := Arrivals(c, Exec(c, s, slot.batch), slot.others, after, ids);
    it := batch.(arrivals := newRows);
    SameTurns(rows, batch, it, c.batchSize, c.maxAttempts);
    TablesJoin(after, newRows, c.maxAttempts);
  }

  lemma {:induction false} SameTurns(rows: seq<Row>, a: Iteration, b: Iteration, batchSize: nat, maxAttempts: int)
    requires a.turns == b.turns
    ensures Round(rows, a, batchSize, maxAttempts) == Round(rows, b, batchSize, maxAttempts)
  {
    SameReach(FirstPending(rows, batchSize), a, b);
  }

  lemma {:induction false} SameReach(picked: seq<nat>, a: Iteration, b: Iteration)
    requires a.turns == b.turns
    ensures Reached(picked, a) == Reached(picked, b)
  {
    if picked == [] {
    } else {
      SameReach(picked[1..], a, b);
    }
  }

  /** A schedule is a sequence of iterations of the publisher. */
  lemma {:induction false} ScheduleIsRounds(c: Config, s: State, w: WorkerId, slots: seq<Slot>, rows: seq<Row>,
                                            ids: seq<OutboxId>)
    returns (its: seq<Iteration>, newIds: seq<OutboxId>)
    requires c.maxAttempts >= 1 && TableOf(c, s, rows, ids) && Schedule(c, s, w, slots)
    ensures |its| == |slots| && Smooth(its, c.maxAttempts)
    ensures TableOf(c, AfterSlots(c, s, w, slots), Rounds(rows, its, c.batchSize, c.maxAttempts), ids + newIds)
    decreases |slots|
  {
    if slots == [] {
      its, newIds := [], [];
      assert ids + newIds == ids;
    } else {
      var it, firstIds := SlotIsIteration(c, s, w, slots[0], rows, ids);
      var next := Round(rows, it, c.batchSize, c.maxAttempts) + it.arrivals;
      var rest, restIds := ScheduleIsRounds(c, AfterSlot(c, s, w, slots[0]), w, slots[1..], next, ids + firstIds);
      its, newIds := [it] + rest, firstIds + restIds;
      RoundsFirst(rows, it, rest, c.batchSize, c.maxAttempts);
      JoinIds(ids, firstIds, restIds);
    }
  }

  lemma {:induction false} RoundsFirst(rows: seq<Row>, it: Iteration, rest: seq<Iteration>, batchSize: nat,
                                       maxAttempts: int)
    requires SmoothIteration(it, maxAttempts) && Smooth(rest, maxAttempts)
    ensures Smooth([it] + rest, maxAttempts)
    ensures Rounds(rows, [it] + rest, batchSize, maxAttempts)
         == Rounds(Round(rows, it, batchSize, maxAttempts) + it.arrivals, rest, batchSize, maxAttempts)
  {
    assert ([it] + rest)[1..] == rest;
  }

  /** The rows that were created before a row. */
  function Older(outbox: map<OutboxId, Row>, id: OutboxId): set<OutboxId>
    requires id in outbox
  {
    set other | other in outbox && outbox[other].createdAt < outbox[id].createdAt
  }

  lemma {:induction false} PositionIsAge(rows: seq<Row>, ids: seq<OutboxId>, outbox: map<OutboxId, Row>, i: nat)
    requires Matches(rows, ids, outbox) && InCreationOrder(rows) && i < |ids|
    ensures |Older(outbox, ids[i])| == i
  {
    assert ids[i] in ids;
    forall other ensures other in Older(outbox, ids[i]) <==> other in ids[..i] {
      if other in outbox {
        var j := Position(rows, ids, outbox, other);
        assert other in ids[..i] <==> j < i;
      }
    }
    assert Older(outbox, ids[i]) == Elements(ids[..i]);
    DistinctCount(ids[..i]);
  }

  lemma {:induction false} TableAfter(c: Config, w: WorkerId, slots: seq<Slot>)
    returns (rows: seq<Row>, ids: seq<OutboxId>)
    requires c.maxAttempts >= 1 && Schedule(c, Init(), w, slots)
    ensures TableOf(c, AfterSlots(c, Init(), w, slots), rows, ids)
  {
    var its, newIds := ScheduleIsRounds(c, Init(), w, slots, [], []);
    rows, ids := Rounds([], its, c.batchSize, c.maxAttempts), newIds;
    assert [] + newIds == newIds;
  }

  lemma {:induction false} RowFinishes(c: Config, s: State, w: WorkerId, slots: seq<Slot>, rows: seq<Row>,
                                       ids: seq<OutboxId>, k: nat, blocks: nat)
    requires c.maxAttempts >= 1 && TableOf(c, s, rows, ids) && Schedule(c, s, w, slots)
    requires k < |ids| && k < Times(blocks, c.batchSize) && |slots| >= Times(blocks, c.maxAttempts)
    ensures var after := AfterSlots(c, s, w, slots);
            ids[k] in after.db.outbox && !after.db.outbox[ids[k]].status.Pending?
  {
    var its, newIds := ScheduleIsRounds(c, s, w, slots, rows, ids);
    var after := Rounds(rows, its, c.batchSize, c.maxAttempts);
    BlocksFinish(rows, its, blocks, c.batchSize, c.maxAttempts);
    assert after[..|rows|][k] == after[k];
    RowAt(after, ids + newIds, AfterSlots(c, s, w, slots).db.outbox, k);
  }

  lemma {:induction false} RowAt(rows: seq<Row>, ids: seq<OutboxId>, outbox: map<OutboxId, Row>, k: nat)
    requires Matches(rows, ids, outbox) && k < |ids|
    ensures ids[k] in outbox && outbox[ids[k]] == rows[k]
  {
    assert ids[k] in ids;
  }

  lemma {:induction false} AgeIsPosition(c: Config, s: State, rows: seq<Row>, ids: seq<OutboxId>, id: OutboxId)
    requires TableOf(c, s, rows, ids) && id in s.db.outbox
    ensures |Older(s.db.outbox, id)| < |ids| && ids[|Older(s.db.outbox, id)|] == id
  {
    var k := Position(rows, ids, s.db.outbox, id);
    PositionIsAge(rows, ids, s.db.outbox, k);
  }

  lemma {:induction false} BlocksFor(k: nat, batchSize: nat, maxAttempts: nat)
    requires batchSize >= 1
    ensures k < Times(k / batchSize + 1, batchSize)
    ensures Times(k / batchSize + 1, maxAttempts) == (k / batchSize + 1) * maxAttempts
  {
    InItsBlock(k, batchSize);
    TimesIsProduct(k / batchSize + 1, maxAttempts);
  }

  lemma {:induction false} FinishedAfter(c: Config, w: WorkerId, before: seq<Slot>, s: State, more: seq<Slot>,
                                         id: OutboxId, blocks: nat)
    requires c.maxAttempts >= 1 && Schedule(c, Init(), w, before) && AfterSlots(c, Init(), w, before) == s
    requires id in s.db.outbox && Schedule(c, s, w, more)
    requires |Older(s.db.outbox, id)| < Times(blocks, c.batchSize) && |more| >= Times(blocks, c.maxAttempts)
    ensures id in AfterSlots(c, s, w, more).db.outbox
    ensures !AfterSlots(c, s, w, more).db.outbox[id].status.Pending?
  {
    var rows, ids := TableAfter(c, w, before);
    AgeIsPosition(c, s, rows, ids, id);
    RowFinishes(c, s, w, more, rows, ids, |Older(s.db.outbox, id)|, blocks);
  }

  /** The bound over runs: while one worker publishes, no commit of it fails and new rows are
      younger than the old ones, a row with `k` older rows is SENT or FAILED after
      `(k / batchSize + 1) * maxAttempts` batches, whatever the receiver answers and whatever
      else registrations and cancellations do. */
  lemma {:induction false} BoundOverRuns(c: Config, w: WorkerId, before: seq<Slot>, s: State, more: seq<Slot>,
                                         id: OutboxId)
    requires c.maxAttempts >= 1 && c.batchSize >= 1
    requires Schedule(c, Init(), w, before) && AfterSlots(c, Init(), w, before) == s
    requires id in s.db.outbox && Schedule(c, s, w, more)
    requires |more| >= (|Older(s.db.outbox, id)| / c.batchSize + 1) * c.maxAttempts
    ensures id in AfterSlots(c, s, w, more).db.outbox
    ensures !AfterSlots(c, s, w, more).db.outbox[id].status.Pending?
  {
    var k := |Older(s.db.outbox, id)|;
    BlocksFor(k, c.batchSize, c.maxAttempts);
    FinishedAfter(c, w, before, s, more, id, k / c.batchSize + 1);
  }
}
