/** The publisher: one batch of pending rows is sent, each result is committed on its own. */
module OutboxPublisher {
  import opened Wrappers
  import opened Outbox
  import opened Capashino

  /** What `_dispatch` does with one row: it returns, raises a client error, or raises
      something else. */
  datatype Dispatched = Returned | Raised(error: ApiError) | Unexpected

  function Dispatch(row: Row, reply: Reply): Dispatched {
    match row.eventType
    case TicketPurchased =>
      if row.payload.Purchase? then
        match SendNotification(reply)
        case Ok(_) => Returned
        case Err(error) => Raised(error)
      else Unexpected
    case TicketCancelled => Returned
    case Unknown => Unexpected
  }

  /** Which of the two `mark_*` calls `_publish_one` makes. */
  datatype Mark = MarkSent | MarkFailed(error: string, maxAttempts: int)

  function MarkFor(dispatched: Dispatched, maxAttempts: int): Mark {
    match dispatched
    case Returned => MarkSent
    case Unexpected => MarkFailed("unexpected error", maxAttempts)
    case Raised(error) =>
      if error.PermanentError? then MarkFailed(error.message, 1)
      else if error.status == Some(CONFLICT) then MarkSent
      else MarkFailed(error.message, maxAttempts)
  }

  function AfterMark(stored: Row, copy: Row, mark: Mark, now: int): Row {
    match mark
    case MarkSent => AfterSent(stored, now)
    case MarkFailed(error, maxAttempts) => AfterFailedAttempt(stored, copy, error, maxAttempts)
  }

  /** A row becomes SENT exactly on the answers that say that the receiver has the
      notification: a readable success or a conflict on the idempotency key. */
  lemma SentIff(row: Row, reply: Reply, maxAttempts: int)
    requires row.eventType.TicketPurchased? && row.payload.Purchase?
    ensures MarkFor(Dispatch(row, reply), maxAttempts).MarkSent? <==>
            reply.Response? && ((reply.code < 400 && reply.wellFormed) || reply.code == CONFLICT)
  {
  }

  /** The codes with which the receiver refuses a notification for good. */
  predicate Refuses(reply: Reply) {
    reply.Response? && (reply.code == 400 || reply.code == 401 || reply.code == 403 || reply.code == 422)
  }

  /** The row needs nothing from the receiver, or the receiver has its notification: a
      readable success, or a conflict on the idempotency key. */
  predicate Delivered(row: Row, reply: Reply) {
    || row.eventType.TicketCancelled?
    || (row.eventType.TicketPurchased? && row.payload.Purchase? && reply.Response?
        && ((reply.code < 400 && reply.wellFormed) || reply.code == 409))
  }

  /** The row is a purchase, and the answer to it is a refusal for good. */
  predicate RefusedForGood(row: Row, reply: Reply) {
    row.eventType.TicketPurchased? && row.payload.Purchase? && Refuses(reply)
  }

  /** What a failed attempt says about itself: the answer's own text comes last, except where
      the row could not be sent at all. */
  ghost predicate Explains(error: string, row: Row, reply: Reply) {
    if row.eventType.TicketPurchased? && row.payload.Purchase?
    then exists wording :: error == wording + reply.text
    else error == "unexpected error"
  }

  lemma ExplainedBy(row: Row, reply: Reply, maxAttempts: int, error: string, limit: int)
    requires MarkFor(Dispatch(row, reply), maxAttempts) == MarkFailed(error, limit)
    ensures Explains(error, row, reply)
    ensures limit == if RefusedForGood(row, reply) then 1 else maxAttempts
    ensures !Delivered(row, reply)
  {
    if row.eventType.TicketPurchased? && row.payload.Purchase? {
      var wording := if reply.NoResponse? || reply.code < 400 then ""
                     else if Refuses(reply) then "Capashino rejected request: "
                     else "Capashino temporary error: ";
      assert error == wording + reply.text;
    }
  }

  /** What the commit of a result makes of a stored row, told by the row that was fetched and
      the answer to it. */
  ghost predicate Resulting(stored: Row, copy: Row, reply: Reply, now: int, maxAttempts: int, after: Row) {
    && after.eventType == stored.eventType && after.payload == stored.payload && after.createdAt == stored.createdAt
    && if Delivered(copy, reply) then
         && after.status.Sent? && after.sentAt == Some(now)
         && after.attempts == stored.attempts && after.lastError == stored.lastError
       else
         && after.sentAt == stored.sentAt && after.attempts == copy.attempts + 1
         && after.status == (if RefusedForGood(copy, reply) then Failed
                             else if copy.attempts + 1 >= maxAttempts then Failed else stored.status)
         && (stored.lastError == copy.lastError ==>
               && after.lastError.Some?
               && exists error :: Explains(error, copy, reply) && Cut(error, after.lastError.value))
  }

  /** At most the first 2000 characters are kept. */
  predicate Cut(error: string, kept: string) {
    kept <= error && |kept| == if |error| < 2000 then |error| else 2000
  }

  /** The result of every row for every answer, in terms of the answer. */
  lemma ResultIs(stored: Row, copy: Row, reply: Reply, now: int, maxAttempts: int)
    requires 0 <= copy.attempts
    ensures Resulting(stored, copy, reply, now, maxAttempts,
                      AfterMark(stored, copy, MarkFor(Dispatch(copy, reply), maxAttempts), now))
  {
    var mark := MarkFor(Dispatch(copy, reply), maxAttempts);
    if mark.MarkFailed? {
      ExplainedBy(copy, reply, maxAttempts, mark.error, mark.maxAttempts);
      assert Cut(mark.error, Truncate(mark.error));
    }
  }

  /** One answer is enough to make a row FAILED that has attempts left exactly if it refuses a
      purchase for good. */
  lemma FailedAtOnceIff(row: Row, reply: Reply, now: int, maxAttempts: int)
    requires row.status.Pending? && 0 <= row.attempts && row.attempts + 1 < maxAttempts
    ensures AfterMark(row, row, MarkFor(Dispatch(row, reply), maxAttempts), now).status.Failed?
       <==> && row.eventType.TicketPurchased? && row.payload.Purchase? && reply.Response?
            && reply.code in {400, 401, 403, 422}
  {
    ResultIs(row, row, reply, now, maxAttempts);
  }

  /** What the surroundings do to one row of a batch: the receiver's answer, whether the
      commit of the result succeeds, and when. */
  datatype Turn = Turn(reply: Reply, commits: bool, now: int)

  /** One iteration of the loop: the turns by table position, the rows committed by others
      while the worker pauses, and whether `stop` was called. */
  datatype Iteration = Iteration(turns: nat -> Turn, arrivals: seq<Row>, stopped: bool)

  function Published(row: Row, turn: Turn, maxAttempts: int): Row {
    AfterMark(row, row, MarkFor(Dispatch(row, turn.reply), maxAttempts), turn.now)
  }

  /** How many rows of a batch are done before the first commit that fails. */
  function Reached(picked: seq<nat>, it: Iteration): (n: nat)
    ensures n <= |picked|
    ensures forall j :: 0 <= j < n ==> it.turns(picked[j]).commits
    ensures n < |picked| ==> !it.turns(picked[n]).commits
  {
    if picked == [] then 0
    else if it.turns(picked[0]).commits then
      var rest := Reached(picked[1..], it);
      assert forall j :: 1 <= j <= rest ==> picked[j] == picked[1..][j - 1];
      1 + rest
    else 0
  }

  /** The table once the rows at the positions `done` carry their results. */
  function Written(rows: seq<Row>, it: Iteration, done: seq<nat>, maxAttempts: int): seq<Row> {
    seq(|rows|, i requires 0 <= i < |rows| =>
      if i in done then Published(rows[i], it.turns(i), maxAttempts) else rows[i])
  }

  lemma WrittenStep(rows: seq<Row>, it: Iteration, done: seq<nat>, maxAttempts: int, i: nat)
    requires i < |rows| && i !in done
    ensures Written(rows, it, done, maxAttempts)[i := Published(rows[i], it.turns(i), maxAttempts)]
            == Written(rows, it, done + [i], maxAttempts)
  {
  }

  /** The table after one batch: the rows that were reached carry their result, every
      other row is as before. */
  function Round(rows: seq<Row>, it: Iteration, batchSize: nat, maxAttempts: int): seq<Row> {
    var picked := FirstPending(rows, batchSize);
    Written(rows, it, picked[..Reached(picked, it)], maxAttempts)
  }

  function Rounds(rows: seq<Row>, its: seq<Iteration>, batchSize: nat, maxAttempts: int): seq<Row>
    decreases |its|
  {
    if its == [] then rows
    else
      var next := Round(rows, its[0], batchSize, maxAttempts) + its[0].arrivals;
      if its[0].stopped then next else Rounds(next, its[1..], batchSize, maxAttempts)
  }

  class OutboxPublisher {
    var stop: bool
    const batchSize: nat
    const maxAttempts: int

    constructor (batchSize: nat, maxAttempts: int)
      ensures this.batchSize == batchSize && this.maxAttempts == maxAttempts && !stop
    {
      this.batchSize := batchSize;
      this.maxAttempts := maxAttempts;
      stop := false;
    }

    method Stop()
      modifies this
      ensures stop
    {
      stop := true;
    }

    /** `copy` is the session's copy of row `i`. The result says whether the commit went
        through; if it did not, the table is untouched and the batch is abandoned. */
    method PublishOne(repo: OutboxRepository, i: nat, copy: Row, turn: Turn) returns (committed: bool)
      requires i < |repo.rows|
      modifies repo
      ensures committed == turn.commits
      ensures repo.rows ==
              if committed then
                old(repo.rows)[i := AfterMark(old(repo.rows)[i], copy, MarkFor(Dispatch(copy, turn.reply), maxAttempts),
                                              turn.now)]
              else old(repo.rows)
      ensures committed && 0 <= copy.attempts ==>
                Resulting(old(repo.rows)[i], copy, turn.reply, turn.now, maxAttempts, repo.rows[i])
    {
      if !turn.commits {
        return false;
      }
      if 0 <= copy.attempts {
        ResultIs(repo.rows[i], copy, turn.reply, turn.now, maxAttempts);
      }
      match Dispatch(copy, turn.reply) {
        case Raised(error) =>
          if error.PermanentError? {
            repo.MarkFailedAttempt(i, copy, error.message, 1);
          } else if error.status == Some(CONFLICT) {
            repo.MarkSent(i, turn.now);
          } else {
            repo.MarkFailedAttempt(i, copy, error.message, maxAttempts);
          }
        case Unexpected =>
          repo.MarkFailedAttempt(i, copy, "unexpected error", maxAttempts);
        case Returned =>
          repo.MarkSent(i, turn.now);
      }
      return true;
    }

    /** The session's copies of the fetched rows are the rows of `before`. */
    method ProcessBatch(repo: OutboxRepository, it: Iteration)
      modifies repo
      ensures repo.rows == Round(old(repo.rows), it, batchSize, maxAttempts)
    {
      var before := repo.rows;
      var picked := repo.FetchPending(batchSize);
      ghost var reach := Reached(picked, it);
      var j := 0;
      while j < |picked|
        invariant 0 <= j <= reach
        invariant repo.rows == Written(before, it, picked[..j], maxAttempts)
      {
        var i := picked[j];
        assert i !in picked[..j] && repo.rows[i] == before[i];
        WrittenStep(before, it, picked[..j], maxAttempts, i);
        assert picked[..j + 1] == picked[..j] + [i];
        var committed := PublishOne(repo, i, before[i], it.turns(i));
        if !committed {
          assert j == reach;
          break;
        }
        assert j < reach;
        j := j + 1;
      }
    }

    /** The main loop, watched for at most `|its|` iterations. */
    method Run(repo: OutboxRepository, its: seq<Iteration>)
      requires repo as object != this
      modifies this, repo
      ensures repo.rows == if old(stop) then old(repo.rows)
                           else Rounds(old(repo.rows), its, batchSize, maxAttempts)
      ensures stop <==> old(stop) || exists n :: 0 <= n < |its| && its[n].stopped
    {
      ghost var start := repo.rows;
      ghost var wasStopped := stop;
      var n := 0;
      while !stop && n < |its|
        invariant 0 <= n <= |its|
        invariant wasStopped ==> repo.rows == start
        invariant stop <==> wasStopped || exists m :: 0 <= m < n && its[m].stopped
        invariant !wasStopped ==>
                    Rounds(start, its, batchSize, maxAttempts) ==
                    if stop then repo.rows else Rounds(repo.rows, its[n..], batchSize, maxAttempts)
      {
        ProcessBatch(repo, its[n]);
        repo.rows := repo.rows + its[n].arrivals;
        if its[n].stopped {
          Stop();
        }
        assert its[n..][1..] == its[n + 1..];
        n := n + 1;
      }
    }
  }

  lemma RoundsStart(rows: seq<Row>, its: seq<Iteration>, n: nat, batchSize: nat, maxAttempts: int)
    requires 0 < n <= |its|
    ensures var next := Round(rows, its[0], batchSize, maxAttempts) + its[0].arrivals;
            Rounds(rows, its[..n], batchSize, maxAttempts)
            == if its[0].stopped then next else Rounds(next, its[1..][..n - 1], batchSize, maxAttempts)
  {
    assert its[..n][0] == its[0] && its[..n][1..] == its[1..][..n - 1];
  }

  /** Without a stop before it, each batch is one more step of the same kind. */
  lemma {:induction false} RoundsOneMore(rows: seq<Row>, its: seq<Iteration>, n: nat, batchSize: nat, maxAttempts: int)
    requires n < |its| && forall m :: 0 <= m < n ==> !its[m].stopped
    ensures Rounds(rows, its[..n + 1], batchSize, maxAttempts)
            == Round(Rounds(rows, its[..n], batchSize, maxAttempts), its[n], batchSize, maxAttempts) + its[n].arrivals
    decreases n
  {
    var next := Round(rows, its[0], batchSize, maxAttempts) + its[0].arrivals;
    RoundsStart(rows, its, n + 1, batchSize, maxAttempts);
    if n == 0 {
      assert its[1..][..0] == [] && its[..0] == [];
    } else {
      RoundsStart(rows, its, n, batchSize, maxAttempts);
      RoundsOneMore(next, its[1..], n - 1, batchSize, maxAttempts);
    }
  }

  /** The batch during which `stop` is called is the last one: whatever would come later has no
      effect. */
  lemma {:induction false} UpToTheStop(rows: seq<Row>, its: seq<Iteration>, n: nat, batchSize: nat, maxAttempts: int)
    requires n < |its| && its[n].stopped && forall m :: 0 <= m < n ==> !its[m].stopped
    ensures Rounds(rows, its, batchSize, maxAttempts) == Rounds(rows, its[..n + 1], batchSize, maxAttempts)
    decreases n
  {
    var next := Round(rows, its[0], batchSize, maxAttempts) + its[0].arrivals;
    RoundsStart(rows, its, n + 1, batchSize, maxAttempts);
    RoundsStart(rows, its, |its|, batchSize, maxAttempts);
    assert its[..|its|] == its && its[1..][..|its| - 1] == its[1..];
    if n > 0 {
      UpToTheStop(next, its[1..], n - 1, batchSize, maxAttempts);
    }
  }

  /** A row as the publisher may find it when it is the only one that changes rows. */
  ghost predicate RowOk(row: Row, maxAttempts: int) {
    && 0 <= row.attempts <= maxAttempts
    && (row.status.Pending? ==> row.attempts < maxAttempts)
    && (row.sentAt.Some? <==> row.status.Sent?)
  }

  ghost predicate TableOk(rows: seq<Row>, maxAttempts: int) {
    forall i :: 0 <= i < |rows| ==> RowOk(rows[i], maxAttempts)
  }

  /** The attempts that a row may still cost. */
  function Budget(row: Row, maxAttempts: int): int {
    if row.status.Pending? then maxAttempts - row.attempts else 0
  }

  function Work(rows: seq<Row>, maxAttempts: int): int {
    if rows == [] then 0 else Work(rows[..|rows| - 1], maxAttempts) + Budget(rows[|rows| - 1], maxAttempts)
  }

  /** A batch keeps every row well formed, never touches a row that is SENT or FAILED,
      and never increases a budget; a row whose result is committed pays at least one. */
  lemma RoundKeepsRows(rows: seq<Row>, it: Iteration, batchSize: nat, maxAttempts: int, i: nat)
    requires maxAttempts >= 1 && TableOk(rows, maxAttempts) && i < |rows|
    ensures var after := Round(rows, it, batchSize, maxAttempts);
            var picked := FirstPending(rows, batchSize);
            && RowOk(after[i], maxAttempts)
            && (!rows[i].status.Pending? ==> after[i] == rows[i])
            && 0 <= Budget(after[i], maxAttempts)
            && Budget(after[i], maxAttempts)
               <= Budget(rows[i], maxAttempts) - if i in picked[..Reached(picked, it)] then 1 else 0
  {
    FetchedIff(rows, batchSize, i);
  }

  lemma {:induction false} WorkFalls(rows: seq<Row>, after: seq<Row>, cheaper: set<nat>, maxAttempts: int)
    requires |after| == |rows|
    requires forall i :: i in cheaper ==> i < |rows|
    requires forall i :: 0 <= i < |rows| ==>
               Budget(after[i], maxAttempts) <= Budget(rows[i], maxAttempts) - if i in cheaper then 1 else 0
    ensures Work(after, maxAttempts) <= Work(rows, maxAttempts) - |cheaper|
    decreases |rows|
  {
    if rows == [] {
      assert cheaper == {};
    } else {
      var last := |rows| - 1;
      var rest := cheaper - {last};
      assert |rest| == |cheaper| - if last in cheaper then 1 else 0;
      WorkFalls(rows[..last], after[..last], rest, maxAttempts);
    }
  }

  function Elements(picked: seq<nat>): (r: set<nat>)
    ensures forall i :: i in r <==> i in picked
  {
    set i | i in picked
  }

  lemma {:induction false} DistinctCount(picked: seq<nat>)
    requires forall i, j :: 0 <= i < j < |picked| ==> picked[i] != picked[j]
    ensures |Elements(picked)| == |picked|
  {
    if picked == [] {
    } else {
      var last := |picked| - 1;
      DistinctCount(picked[..last]);
      assert Elements(picked) == Elements(picked[..last]) + {picked[last]};
    }
  }

  /** Every committed result lowers the work that is left: a batch that commits `n`
      results lowers it by at least `n`. */
  lemma RoundWork(rows: seq<Row>, it: Iteration, batchSize: nat, maxAttempts: int)
    requires maxAttempts >= 1 && TableOk(rows, maxAttempts)
    ensures var after := Round(rows, it, batchSize, maxAttempts);
            && TableOk(after, maxAttempts)
            && Work(after, maxAttempts)
               <= Work(rows, maxAttempts) - Reached(FirstPending(rows, batchSize), it)
  {
    var after := Round(rows, it, batchSize, maxAttempts);
    var picked := FirstPending(rows, batchSize);
    var done := picked[..Reached(picked, it)];
    forall i | 0 <= i < |rows|
      ensures RowOk(after[i], maxAttempts)
      ensures Budget(after[i], maxAttempts) <= Budget(rows[i], maxAttempts) - if i in Elements(done) then 1 else 0
    {
      RoundKeepsRows(rows, it, batchSize, maxAttempts, i);
    }
    PendingIndicesSound(rows);
    DistinctCount(done);
    WorkFalls(rows, after, Elements(done), maxAttempts);
  }

  // ---- how long a row can stay pending ----

  /** Iterations in which no commit fails, nobody stops the worker, and new rows are
      well formed. */
  ghost predicate Smooth(its: seq<Iteration>, maxAttempts: int) {
    forall n :: 0 <= n < |its| ==> SmoothIteration(its[n], maxAttempts)
  }

  ghost predicate SmoothIteration(it: Iteration, maxAttempts: int) {
    && !it.stopped
    && TableOk(it.arrivals, maxAttempts)
    && forall i :: it.turns(i).commits
  }

  lemma SmoothSlices(its: seq<Iteration>, n: nat, maxAttempts: int)
    requires Smooth(its, maxAttempts) && n <= |its|
    ensures Smooth(its[..n], maxAttempts) && Smooth(its[n..], maxAttempts)
  {
  }

  /** What a batch does to the prefix before row `i`: rows only leave the pending state,
      so there are never more pending rows ahead of it than before. */
  lemma {:induction false} PendingAheadFalls(rows: seq<Row>, after: seq<Row>)
    requires |rows| == |after|
    requires forall i :: 0 <= i < |rows| && after[i].status.Pending? ==> rows[i].status.Pending?
    ensures |PendingIndices(after)| <= |PendingIndices(rows)|
    decreases |rows|
  {
    if rows == [] {
    } else {
      PendingAheadFalls(rows[..|rows| - 1], after[..|rows| - 1]);
    }
  }

  /** One smooth iteration from the point of view of row `i`. */
  lemma SmoothStep(rows: seq<Row>, it: Iteration, batchSize: nat, maxAttempts: int, i: nat)
    requires maxAttempts >= 1 && TableOk(rows, maxAttempts) && i < |rows|
    requires SmoothIteration(it, maxAttempts)
    ensures var next := Round(rows, it, batchSize, maxAttempts) + it.arrivals;
            && TableOk(next, maxAttempts)
            && |PendingIndices(next[..i])| <= |PendingIndices(rows[..i])|
            && (!rows[i].status.Pending? ==> next[i] == rows[i])
            && (|PendingIndices(rows[..i])| < batchSize && rows[i].status.Pending? ==>
                  Budget(next[i], maxAttempts) < Budget(rows[i], maxAttempts))
  {
    var after := Round(rows, it, batchSize, maxAttempts);
    var picked := FirstPending(rows, batchSize);
    RoundWork(rows, it, batchSize, maxAttempts);
    RoundKeepsRows(rows, it, batchSize, maxAttempts, i);
    FetchedIff(rows, batchSize, i);
    assert picked[..Reached(picked, it)] == picked;
    assert (after + it.arrivals)[..i] == after[..i];
    forall j | 0 <= j < i && after[..i][j].status.Pending?
      ensures rows[..i][j].status.Pending?
    {
      RoundKeepsRows(rows, it, batchSize, maxAttempts, j);
    }
    PendingAheadFalls(rows[..i], after[..i]);
  }

  /** Once fewer than a batch of pending rows are ahead of row `i`, each iteration tries
      it, so its budget is gone after that many iterations. */
  lemma {:induction false} FrontRowFinishes(rows: seq<Row>, its: seq<Iteration>, batchSize: nat, maxAttempts: int,
                                            i: nat)
    requires maxAttempts >= 1 && TableOk(rows, maxAttempts) && i < |rows|
    requires Smooth(its, maxAttempts)
    requires |PendingIndices(rows[..i])| < batchSize
    requires Budget(rows[i], maxAttempts) <= |its|
    ensures i < |Rounds(rows, its, batchSize, maxAttempts)|
    ensures !Rounds(rows, its, batchSize, maxAttempts)[i].status.Pending?
    decreases |its|
  {
    if its == [] {
    } else {
      assert SmoothIteration(its[0], maxAttempts);
      SmoothStep(rows, its[0], batchSize, maxAttempts, i);
      var next := Round(rows, its[0], batchSize, maxAttempts) + its[0].arrivals;
      FrontRowFinishes(next, its[1..], batchSize, maxAttempts, i);
    }
  }

  lemma {:induction false} SmoothRounds(rows: seq<Row>, its: seq<Iteration>, batchSize: nat, maxAttempts: int)
    requires maxAttempts >= 1 && TableOk(rows, maxAttempts) && Smooth(its, maxAttempts)
    ensures var after := Rounds(rows, its, batchSize, maxAttempts);
            && TableOk(after, maxAttempts)
            && |rows| <= |after|
            && forall i :: 0 <= i < |rows| && !rows[i].status.Pending? ==> after[i] == rows[i]
    decreases |its|
  {
    if its == [] {
    } else {
      assert SmoothIteration(its[0], maxAttempts);
      var next := Round(rows, its[0], batchSize, maxAttempts) + its[0].arrivals;
      RoundWork(rows, its[0], batchSize, maxAttempts);
      forall i | 0 <= i < |rows| && !rows[i].status.Pending? ensures next[i] == rows[i] {
        RoundKeepsRows(rows, its[0], batchSize, maxAttempts, i);
      }
      SmoothRounds(next, its[1..], batchSize, maxAttempts);
    }
  }

  lemma {:induction false} RoundsInTwo(rows: seq<Row>, its: seq<Iteration>, n: nat, batchSize: nat, maxAttempts: int)
    requires n <= |its|
    requires forall j :: 0 <= j < n ==> !its[j].stopped
    ensures Rounds(rows, its, batchSize, maxAttempts)
         == Rounds(Rounds(rows, its[..n], batchSize, maxAttempts), its[n..], batchSize, maxAttempts)
    decreases n
  {
    if n == 0 {
      assert its[n..] == its;
    } else {
      var next := Round(rows, its[0], batchSize, maxAttempts) + its[0].arrivals;
      assert its[..n][1..] == its[1..][..n - 1];
      assert its[n..] == its[1..][n - 1..];
      RoundsInTwo(next, its[1..], n - 1, batchSize, maxAttempts);
    }
  }

  lemma {:induction false} NonePending(rows: seq<Row>)
    requires forall i :: 0 <= i < |rows| ==> !rows[i].status.Pending?
    ensures PendingIndices(rows) == []
  {
    if rows == [] {
    } else {
      NonePending(rows[..|rows| - 1]);
    }
  }

  /** Pending rows all lie at or after `from`, so there are at most that many. */
  lemma {:induction false} FewPending(rows: seq<Row>, from: nat)
    requires from <= |rows|
    requires forall i :: 0 <= i < from ==> !rows[i].status.Pending?
    ensures |PendingIndices(rows)| <= |rows| - from
    decreases |rows|
  {
    if |rows| == from {
      NonePending(rows);
    } else {
      FewPending(rows[..|rows| - 1], from);
    }
  }

  /** `blocks` times `n`, by repeated addition. */
  function Times(blocks: nat, n: nat): nat {
    if blocks == 0 then 0 else Times(blocks - 1, n) + n
  }

  lemma {:induction false} TimesIsProduct(blocks: nat, n: nat)
    ensures Times(blocks, n) == blocks * n
  {
    if blocks == 0 {
    } else {
      TimesIsProduct(blocks - 1, n);
      assert blocks * n == (blocks - 1) * n + n;
    }
  }

  /** None of the first `n` rows is pending. */
  ghost predicate Settled(rows: seq<Row>, n: nat) {
    forall i :: 0 <= i < n && i < |rows| ==> !rows[i].status.Pending?
  }

  /** If the first `from` rows are settled, row `k` of the next batch settles within
      `maxAttempts` further iterations. */
  lemma NextRowFinishes(rows: seq<Row>, its: seq<Iteration>, from: nat, batchSize: nat, maxAttempts: int, k: nat)
    requires maxAttempts >= 1 && TableOk(rows, maxAttempts)
    requires Smooth(its, maxAttempts) && |its| >= maxAttempts
    requires k < |rows| && Settled(rows[..k], from)
    requires from <= k < from + batchSize
    ensures k < |Rounds(rows, its, batchSize, maxAttempts)|
    ensures !Rounds(rows, its, batchSize, maxAttempts)[k].status.Pending?
  {
    FewPending(rows[..k], from);
    assert RowOk(rows[k], maxAttempts);
    FrontRowFinishes(rows, its, batchSize, maxAttempts, k);
  }

  lemma NextBlockFinishes(rows: seq<Row>, its: seq<Iteration>, from: nat, batchSize: nat, maxAttempts: int, size: nat)
    requires maxAttempts >= 1 && TableOk(rows, maxAttempts)
    requires Smooth(its, maxAttempts) && |its| >= maxAttempts
    requires size <= |rows| && Settled(rows[..size], from)
    ensures size <= |Rounds(rows, its, batchSize, maxAttempts)|
    ensures Settled(Rounds(rows, its, batchSize, maxAttempts)[..size], from + batchSize)
  {
    var after := Rounds(rows, its, batchSize, maxAttempts);
    SmoothRounds(rows, its, batchSize, maxAttempts);
    forall k | 0 <= k < from + batchSize && k < size ensures !after[..size][k].status.Pending? {
      if k < from {
        assert rows[..size][k] == rows[k];
      } else {
        assert forall i :: 0 <= i < k ==> rows[..k][i] == rows[..size][i];
        NextRowFinishes(rows, its, from, batchSize, maxAttempts, k);
      }
    }
  }

  /** `settled` rows are settled after `n` iterations; `maxAttempts` more settle a batch more. */
  lemma OneBlockMore(rows: seq<Row>, its: seq<Iteration>, n: nat, settled: nat, batchSize: nat, maxAttempts: nat)
    requires maxAttempts >= 1 && TableOk(rows, maxAttempts)
    requires Smooth(its, maxAttempts) && |its| >= n + maxAttempts
    requires |rows| <= |Rounds(rows, its[..n], batchSize, maxAttempts)|
    requires Settled(Rounds(rows, its[..n], batchSize, maxAttempts)[..|rows|], settled)
    ensures |rows| <= |Rounds(rows, its, batchSize, maxAttempts)|
    ensures Settled(Rounds(rows, its, batchSize, maxAttempts)[..|rows|], settled + batchSize)
  {
    SmoothSlices(its, n, maxAttempts);
    RoundsInTwo(rows, its, n, batchSize, maxAttempts);
    SmoothRounds(rows, its[..n], batchSize, maxAttempts);
    NextBlockFinishes(Rounds(rows, its[..n], batchSize, maxAttempts), its[n..], settled, batchSize, maxAttempts,
      |rows|);
  }

  /** After `blocks` times `maxAttempts` smooth iterations none of the rows of the first
      `blocks` batches is pending. */
  lemma {:induction false} BlocksFinish(rows: seq<Row>, its: seq<Iteration>, blocks: nat, batchSize: nat,
                                        maxAttempts: nat)
    requires maxAttempts >= 1 && TableOk(rows, maxAttempts)
    requires Smooth(its, maxAttempts) && |its| >= Times(blocks, maxAttempts)
    ensures |rows| <= |Rounds(rows, its, batchSize, maxAttempts)|
    ensures Settled(Rounds(rows, its, batchSize, maxAttempts)[..|rows|], Times(blocks, batchSize))
    decreases blocks
  {
    if blocks == 0 {
      SmoothRounds(rows, its, batchSize, maxAttempts);
    } else {
      var n := Times(blocks - 1, maxAttempts);
      var settled := Times(blocks - 1, batchSize);
      SmoothSlices(its, n, maxAttempts);
      BlocksFinish(rows, its[..n], blocks - 1, batchSize, maxAttempts);
      OneBlockMore(rows, its, n, settled, batchSize, maxAttempts);
    }
  }

  /** Row `k` is among the first `k / batchSize + 1` batches. */
  lemma InItsBlock(k: nat, batchSize: nat)
    requires batchSize >= 1
    ensures k < Times(k / batchSize + 1, batchSize)
  {
    TimesIsProduct(k / batchSize, batchSize);
    assert k == (k / batchSize) * batchSize + k % batchSize;
  }

  /** The round bound: whatever the receiver answers and however many rows arrive behind
      it, the row at position `k` is SENT or FAILED after `(k / batchSize + 1) * maxAttempts`
      iterations. */
  lemma RoundBound(rows: seq<Row>, its: seq<Iteration>, batchSize: nat, maxAttempts: nat, k: nat)
    requires batchSize >= 1 && maxAttempts >= 1 && TableOk(rows, maxAttempts)
    requires Smooth(its, maxAttempts) && k < |rows|
    requires |its| >= (k / batchSize + 1) * maxAttempts
    ensures k < |Rounds(rows, its, batchSize, maxAttempts)|
    ensures !Rounds(rows, its, batchSize, maxAttempts)[k].status.Pending?
  {
    var blocks := k / batchSize + 1;
    TimesIsProduct(blocks, maxAttempts);
    InItsBlock(k, batchSize);
    BlocksFinish(rows, its, blocks, batchSize, maxAttempts);
    assert Rounds(rows, its, batchSize, maxAttempts)[..|rows|][k] == Rounds(rows, its, batchSize, maxAttempts)[k];
  }
}
