/** One publisher on its own does what the step relation does: a batch of `OutboxPublisher`
    is a run of `Registration` in which no one else takes a step. */
module PublisherRuns {
  import opened Wrappers
  import opened Outbox
  import opened Capashino
  import opened OutboxPublisher
  import opened Registration

  /** The outbox by id holds the rows of the table, row `i` under `ids[i]`. */
  ghost predicate Matches(rows: seq<Row>, ids: seq<OutboxId>, outbox: map<OutboxId, Row>) {
    && |rows| == |ids|
    && (forall i, j :: 0 <= i < j < |ids| ==> ids[i] != ids[j])
    && (forall id :: id in outbox <==> id in ids)
    && (forall i :: 0 <= i < |ids| ==> outbox[ids[i]] == rows[i])
  }

  function IdsOf(ids: seq<OutboxId>, picked: seq<nat>): (r: seq<OutboxId>)
    requires forall j :: 0 <= j < |picked| ==> picked[j] < |ids|
    ensures |r| == |picked|
    ensures forall j :: 0 <= j < |picked| ==> r[j] == ids[picked[j]]
  {
    seq(|picked|, j requires 0 <= j < |picked| => ids[picked[j]])
  }

  /** The receiver reports a conflict only for a notification that it has. */
  ghost predicate Truthful(it: Iteration, ids: seq<OutboxId>, inbox: map<OutboxId, Notification>) {
    forall i :: 0 <= i < |ids| && it.turns(i).reply.Response? && it.turns(i).reply.code == CONFLICT ==> ids[i] in inbox
  }

  /** `after` differs from `s` at most in the outbox, the workers and new notifications. */
  ghost predicate OnlyPublished(s: State, after: State) {
    && after == s.(db := s.db.(outbox := after.db.outbox), workers := after.workers, inbox := after.inbox,
                   past := s.past.(results := after.past.results))
    && (forall id :: id in s.inbox ==> id in after.inbox)
  }

  /** The next row of a batch is sent. */
  lemma SendRun(c: Config, mid: State, w: WorkerId, batch: seq<Copy>, j: nat, reply: Reply)
    returns (send: Step, after: State)
    requires j < |batch| && mid.workers == map[w := Worker(batch, j, None, true)]
    requires reply.Response? && reply.code == CONFLICT ==> batch[j].id in mid.inbox
    ensures Enabled(c, mid, send) && Do(c, mid, send) == after && OnlyPublished(mid, after) && after.db == mid.db
    ensures after.workers ==
            map[w := Worker(batch, j, Some(MarkFor(Dispatch(batch[j].row, reply), c.maxAttempts)), true)]
  {
    var accepted := Posts(batch[j]) && SendNotification(reply).Ok?;
    send := Publishing(w, DoSend(reply, accepted));
    after := Send(c, mid, w, reply, accepted);
  }

  /** Its result is committed, or the commit fails and the worker gives up the batch. */
  lemma FinishRun(c: Config, mid: State, w: WorkerId, batch: seq<Copy>, j: nat, mark: Mark, commits: bool, now: int)
    returns (finish: Step, after: State)
    requires j < |batch| && mid.workers == map[w := Worker(batch, j, Some(mark), true)] && batch[j].id in mid.db.outbox
    ensures Enabled(c, mid, finish) && Do(c, mid, finish) == after && OnlyPublished(mid, after)
    ensures if commits then
              && after.db.outbox ==
                 mid.db.outbox[batch[j].id := AfterMark(mid.db.outbox[batch[j].id], batch[j].row, mark, now)]
              && after.workers == if j + 1 < |batch| then map[w := Worker(batch, j + 1, None, true)] else map[]
            else after.db == mid.db && after.workers == map[]
  {
    if commits {
      finish := Publishing(w, DoRecord(now));
      after := Record(mid, w, now);
    } else {
      finish := Publishing(w, DoQuit);
      after := Quit(mid, w);
    }
  }

  /** One row: sent, and its result recorded. */
  lemma RowRun(c: Config, s: State, before: seq<Step>, mid: State, w: WorkerId, batch: seq<Copy>, j: nat, turn: Turn)
    returns (steps: seq<Step>, after: State)
    requires Run(c, s, before) && Exec(c, s, before) == mid
    requires j < |batch| && mid.workers == map[w := Worker(batch, j, None, true)]
    requires batch[j].id in mid.db.outbox
    requires turn.reply.Response? && turn.reply.code == CONFLICT ==> batch[j].id in mid.inbox
    ensures Run(c, s, steps) && Exec(c, s, steps) == after && OnlyPublished(mid, after)
    ensures if turn.commits then
              && after.db.outbox == mid.db.outbox[batch[j].id :=
                   AfterMark(mid.db.outbox[batch[j].id], batch[j].row,
                             MarkFor(Dispatch(batch[j].row, turn.reply), c.maxAttempts), turn.now)]
              && after.workers == if j + 1 < |batch| then map[w := Worker(batch, j + 1, None, true)] else map[]
            else after.db == mid.db && after.workers == map[]
  {
    var send, sent := SendRun(c, mid, w, batch, j, turn.reply);
    Extend(c, s, before, send);
    var mark := MarkFor(Dispatch(batch[j].row, turn.reply), c.maxAttempts);
    var finish, finished := FinishRun(c, sent, w, batch, j, mark, turn.commits, turn.now);
    Extend(c, s, before + [send], finish);
    steps, after := before + [send] + [finish], finished;
  }

  /** The table after one more row of the batch. */
  lemma MatchesStep(rows: seq<Row>, ids: seq<OutboxId>, outbox: map<OutboxId, Row>, it: Iteration, done: seq<nat>,
                    i: nat, maxAttempts: int)
    requires i < |rows| && i !in done
    requires Matches(Written(rows, it, done, maxAttempts), ids, outbox)
    ensures Matches(Written(rows, it, done + [i], maxAttempts), ids,
                    outbox[ids[i] := Published(rows[i], it.turns(i), maxAttempts)])
  {
    WrittenStep(rows, it, done, maxAttempts, i);
  }

  /** The worker is at row `j` of its batch, and the rows before it are written. */
  ghost predicate AtRow(c: Config, mid: State, w: WorkerId, rows: seq<Row>, ids: seq<OutboxId>, picked: seq<nat>,
                        it: Iteration, j: nat)
    requires j <= |picked| && forall k :: 0 <= k < |picked| ==> picked[k] < |ids|
    requires |rows| == |ids|
  {
    && Matches(Written(rows, it, picked[..j], c.maxAttempts), ids, mid.db.outbox)
    && Truthful(it, ids, mid.inbox)
    && mid.workers == if j < |picked| then map[w := Worker(BatchOf(rows, ids, picked), j, None, true)] else map[]
  }

  function BatchOf(rows: seq<Row>, ids: seq<OutboxId>, picked: seq<nat>): (batch: seq<Copy>)
    requires |rows| == |ids| && forall k :: 0 <= k < |picked| ==> picked[k] < |ids|
    ensures |batch| == |picked|
    ensures forall k :: 0 <= k < |picked| ==> batch[k] == Copy(ids[picked[k]], rows[picked[k]])
  {
    seq(|picked|, k requires 0 <= k < |picked| => Copy(ids[picked[k]], rows[picked[k]]))
  }

  /** The picked positions are different ones of the table. */
  ghost predicate Distinct(rows: seq<Row>, ids: seq<OutboxId>, picked: seq<nat>) {
    && |rows| == |ids|
    && (forall k :: 0 <= k < |picked| ==> picked[k] < |ids|)
    && (forall i, k :: 0 <= i < k < |picked| ==> picked[i] != picked[k])
  }

  /** The row that is next is still as it was fetched. */
  lemma NextIsFresh(c: Config, mid: State, w: WorkerId, rows: seq<Row>, ids: seq<OutboxId>, picked: seq<nat>,
                    it: Iteration, j: nat)
    requires Distinct(rows, ids, picked) && j < |picked| && AtRow(c, mid, w, rows, ids, picked, it, j)
    ensures var i := picked[j];
            && i !in picked[..j] && ids[i] in mid.db.outbox && mid.db.outbox[ids[i]] == rows[i]
            && picked[..j + 1] == picked[..j] + [i]
  {
    var i := picked[j];
    assert ids[i] in ids;
    assert i !in picked[..j];
  }

  lemma NextRow(c: Config, s: State, before: seq<Step>, mid: State, w: WorkerId, rows: seq<Row>, ids: seq<OutboxId>,
                picked: seq<nat>, it: Iteration, j: nat)
    returns (steps: seq<Step>, after: State)
    requires Run(c, s, before) && Exec(c, s, before) == mid
    requires Distinct(rows, ids, picked) && j < |picked| && AtRow(c, mid, w, rows, ids, picked, it, j)
    ensures Run(c, s, steps) && Exec(c, s, steps) == after && OnlyPublished(mid, after)
    ensures if it.turns(picked[j]).commits then AtRow(c, after, w, rows, ids, picked, it, j + 1)
            else Matches(Written(rows, it, picked[..j], c.maxAttempts), ids, after.db.outbox) && after.workers == map[]
  {
    var i := picked[j];
    var batch := BatchOf(rows, ids, picked);
    NextIsFresh(c, mid, w, rows, ids, picked, it, j);
    steps, after := RowRun(c, s, before, mid, w, batch, j, it.turns(i));
    if it.turns(i).commits {
      MatchesStep(rows, ids, mid.db.outbox, it, picked[..j], i, c.maxAttempts);
    }
  }

  /** The first commit that fails is the one where `Reached` ends. */
  lemma ReachedAt(picked: seq<nat>, it: Iteration, j: nat)
    requires j <= Reached(picked, it) && j < |picked|
    ensures it.turns(picked[j]).commits <==> j < Reached(picked, it)
  {
  }

  lemma OnlyPublishedTwice(s: State, mid: State, after: State)
    requires OnlyPublished(s, mid) && OnlyPublished(mid, after)
    ensures OnlyPublished(s, after)
  {
  }

  /** The rest of a batch, up to the first commit that fails. */
  lemma {:induction false} RestRun(c: Config, s: State, before: seq<Step>, mid: State, w: WorkerId, rows: seq<Row>,
                                   ids: seq<OutboxId>, picked: seq<nat>, it: Iteration, j: nat)
    returns (steps: seq<Step>, after: State)
    requires Run(c, s, before) && Exec(c, s, before) == mid
    requires Distinct(rows, ids, picked)
    requires j <= Reached(picked, it) && AtRow(c, mid, w, rows, ids, picked, it, j)
    ensures Run(c, s, steps) && Exec(c, s, steps) == after && OnlyPublished(mid, after)
    ensures Matches(Written(rows, it, picked[..Reached(picked, it)], c.maxAttempts), ids, after.db.outbox)
    ensures after.workers == map[]
    decreases |picked| - j
  {
    if j == |picked| {
      steps, after := before, mid;
    } else {
      ReachedAt(picked, it, j);
      var next;
      steps, next := NextRow(c, s, before, mid, w, rows, ids, picked, it, j);
      if j < Reached(picked, it) {
        steps, after := RestRun(c, s, steps, next, w, rows, ids, picked, it, j + 1);
        OnlyPublishedTwice(mid, next, after);
      } else {
        after := next;
      }
    }
  }

  /** A pending row that is not picked is younger than all that are. */
  lemma LeftBehind(rows: seq<Row>, limit: nat, i: nat)
    requires i < |rows| && rows[i].status.Pending? && i !in FirstPending(rows, limit)
    ensures |FirstPending(rows, limit)| == limit
    ensures forall j :: 0 <= j < limit ==> FirstPending(rows, limit)[j] < i
  {
    PendingIndicesSound(rows);
    PendingIndicesComplete(rows, i);
  }

  ghost predicate Picked(rows: seq<Row>, ids: seq<OutboxId>, picked: seq<nat>) {
    && (forall j :: 0 <= j < |picked| ==> picked[j] < |ids| == |rows| && rows[picked[j]].status.Pending?)
    && (forall i, j :: 0 <= i < j < |picked| ==> picked[i] < picked[j])
  }

  /** Whoever may be fetched and is not picked is younger than all that are. */
  lemma OthersAreYounger(c: Config, s: State, rows: seq<Row>, ids: seq<OutboxId>, id: OutboxId)
    requires Matches(rows, ids, s.db.outbox) && InCreationOrder(rows)
    requires Picked(rows, ids, FirstPending(rows, c.batchSize)) && FirstPending(rows, c.batchSize) != []
    requires Fetchable(s, id) && id !in IdsOf(ids, FirstPending(rows, c.batchSize))
    ensures var batch := IdsOf(ids, FirstPending(rows, c.batchSize));
            && |batch| == c.batchSize
            && batch[|batch| - 1] in s.db.outbox
            && s.db.outbox[batch[|batch| - 1]].createdAt <= s.db.outbox[id].createdAt
  {
    var picked := FirstPending(rows, c.batchSize);
    var i :| 0 <= i < |ids| && ids[i] == id;
    assert IdsOf(ids, picked)[|picked| - 1] == ids[picked[|picked| - 1]];
    assert i !in picked;
    LeftBehind(rows, c.batchSize, i);
  }

  lemma PickedInOrder(s: State, rows: seq<Row>, ids: seq<OutboxId>, picked: seq<nat>)
    requires s.workers == map[] && Matches(rows, ids, s.db.outbox) && InCreationOrder(rows) && Picked(rows, ids, picked)
    ensures var batch := IdsOf(ids, picked);
            && (forall i :: 0 <= i < |batch| ==> Fetchable(s, batch[i]))
            && (forall i, j :: 0 <= i < j < |batch| ==>
                  batch[i] != batch[j] && s.db.outbox[batch[i]].createdAt <= s.db.outbox[batch[j]].createdAt)
    ensures Copies(s.db.outbox, IdsOf(ids, picked)) == BatchOf(rows, ids, picked)
  {
    var batch := IdsOf(ids, picked);
    forall i | 0 <= i < |batch| ensures Fetchable(s, batch[i]) && s.db.outbox[batch[i]] == rows[picked[i]] {
      assert batch[i] == ids[picked[i]] && batch[i] in ids;
    }
  }

  /** What `FirstPending` picks is a batch that the step relation allows. */
  lemma FetchAllowed(c: Config, s: State, w: WorkerId, rows: seq<Row>, ids: seq<OutboxId>)
    requires s.workers == map[] && Matches(rows, ids, s.db.outbox) && InCreationOrder(rows)
    requires FirstPending(rows, c.batchSize) != []
    ensures var picked := FirstPending(rows, c.batchSize);
            && Picked(rows, ids, picked)
            && CanFetch(c, s, w, IdsOf(ids, picked))
            && Copies(s.db.outbox, IdsOf(ids, picked)) == BatchOf(rows, ids, picked)
  {
    var picked := FirstPending(rows, c.batchSize);
    PendingIndicesSound(rows);
    PickedInOrder(s, rows, ids, picked);
    forall id | Fetchable(s, id) && id !in IdsOf(ids, picked)
      ensures |picked| == c.batchSize
      ensures s.db.outbox[IdsOf(ids, picked)[|picked| - 1]].createdAt <= s.db.outbox[id].createdAt
    {
      OthersAreYounger(c, s, rows, ids, id);
    }
  }

  lemma FetchRun(c: Config, s: State, w: WorkerId, rows: seq<Row>, ids: seq<OutboxId>, it: Iteration)
    returns (fetch: Step, after: State)
    requires s.workers == map[] && Matches(rows, ids, s.db.outbox) && InCreationOrder(rows)
    requires Truthful(it, ids, s.inbox)
    requires FirstPending(rows, c.batchSize) != []
    ensures var picked := FirstPending(rows, c.batchSize);
            && Enabled(c, s, fetch) && Do(c, s, fetch) == after && OnlyPublished(s, after)
            && Distinct(rows, ids, picked) && AtRow(c, after, w, rows, ids, picked, it, 0)
  {
    var picked := FirstPending(rows, c.batchSize);
    FetchAllowed(c, s, w, rows, ids);
    fetch := Publishing(w, DoFetch(IdsOf(ids, picked)));
    after := Fetch(s, w, IdsOf(ids, picked));
    assert Written(rows, it, picked[..0], c.maxAttempts) == rows;
  }

  /** A batch by one publisher is a run of the step relation, with the same table at the end. */
  lemma RoundIsRun(c: Config, s: State, w: WorkerId, rows: seq<Row>, ids: seq<OutboxId>, it: Iteration)
    returns (steps: seq<Step>, after: State)
    requires s.workers == map[] && Matches(rows, ids, s.db.outbox) && InCreationOrder(rows)
    requires Truthful(it, ids, s.inbox)
    ensures Run(c, s, steps) && Exec(c, s, steps) == after && OnlyPublished(s, after)
    ensures Matches(Round(rows, it, c.batchSize, c.maxAttempts), ids, after.db.outbox) && after.workers == map[]
  {
    var none: seq<Step> := [];
    assert Run(c, s, none) && Exec(c, s, none) == s;
    var picked := FirstPending(rows, c.batchSize);
    if picked == [] {
      assert Round(rows, it, c.batchSize, c.maxAttempts) == rows;
      steps, after := none, s;
    } else {
      var fetch, fetched := FetchRun(c, s, w, rows, ids, it);
      Extend(c, s, none, fetch);
      steps, after := RestRun(c, s, none + [fetch], fetched, w, rows, ids, picked, it, 0);
      OnlyPublishedTwice(s, fetched, after);
    }
  }
}
