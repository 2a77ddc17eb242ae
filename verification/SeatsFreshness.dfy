/** When the seats cache holds a list that is older than the last registration or cancellation
    of its event. */
module SeatsFreshness {
  import opened Seats

  /** No entry is older than the last registration or cancellation of its event. */
  ghost predicate UpToDate(s: State) {
    forall e :: e in s.cache ==> s.cache[e].answer.epoch == Epoch(s, e)
  }

  /** A late fill in a run: a call that was started for event `e` gets its answer, a seat of
      `e` is taken or freed, and the answer is stored. */
  ghost predicate LateFill(steps: seq<Step>, e: string, call: CallId, i: int, j: int, k: int) {
    && 0 <= i < j < k < |steps|
    && Start(call, e) in steps[..i]
    && steps[i].Reply? && steps[i].call == call
    && steps[j] == Take(e)
    && steps[k].Fill? && steps[k].call == call
  }

  ghost predicate HasLateFill(steps: seq<Step>) {
    exists e, call, i, j, k :: LateFill(steps, e, call, i, j, k)
  }

  /** How often a seat of an event was taken or freed. */
  function Takings(steps: seq<Step>, e: string): nat {
    if steps == [] then 0
    else Takings(steps[..|steps| - 1], e) + if steps[|steps| - 1] == Take(e) then 1 else 0
  }

  lemma {:induction false} TakingsGrow(steps: seq<Step>, e: string, i: nat)
    requires i <= |steps|
    ensures Takings(steps[..i], e) <= Takings(steps, e)
    ensures Takings(steps[..i], e) == Takings(steps, e) <==>
            forall j :: i <= j < |steps| ==> steps[j] != Take(e)
    decreases |steps|
  {
    if i == |steps| {
      assert steps[..i] == steps;
    } else {
      var last := |steps| - 1;
      assert steps[..last][..i] == steps[..i];
      TakingsGrow(steps[..last], e, i);
    }
  }

  lemma {:induction false} LastStep(s: State, steps: seq<Step>)
    requires Run(s, steps) && steps != []
    ensures var last := |steps| - 1;
            && Run(s, steps[..last])
            && Enabled(Exec(s, steps[..last]), steps[last])
            && Exec(s, steps) == Do(Exec(s, steps[..last]), steps[last])
    decreases |steps|
  {
    var last := |steps| - 1;
    if last == 0 {
      assert steps[..0] == [] && steps[1..] == [];
    } else {
      LastStep(Do(s, steps[0]), steps[1..]);
      assert steps[1..][..last - 1] == steps[..last][1..];
      assert steps[..last][0] == steps[0];
    }
  }

  lemma {:induction false} PrefixRuns(s: State, steps: seq<Step>, n: nat)
    requires Run(s, steps) && n <= |steps|
    ensures Run(s, steps[..n])
    decreases |steps|
  {
    if n == |steps| {
      assert steps[..n] == steps;
    } else {
      LastStep(s, steps);
      PrefixRuns(s, steps[..|steps| - 1], n);
      assert steps[..|steps| - 1][..n] == steps[..n];
    }
  }

  // What a state tells about the steps that led to it.

  ghost predicate EpochsCount(steps: seq<Step>, s: State) {
    forall e :: Epoch(s, e) == Takings(steps, e)
  }

  /** A call that was started is known, and is about the event that it was started for. */
  ghost predicate StartsKnown(steps: seq<Step>, s: State) {
    && (forall call, e :: Start(call, e) in steps ==>
          call in s.calls && (Pending(s.calls[call]) ==> s.calls[call].eventId == e))
    && (forall call :: call in s.calls && Pending(s.calls[call]) ==> Start(call, s.calls[call].eventId) in steps)
  }

  predicate Pending(call: Call) {
    call.Waiting? || call.Answered?
  }

  /** Step `i` answered the call; if the answer is still to be stored, it is of that time. */
  ghost predicate AnsweredAt(steps: seq<Step>, s: State, call: CallId, i: nat)
    requires i < |steps|
  {
    && call in s.calls && !s.calls[call].Waiting?
    && (s.calls[call].Answered? ==> s.calls[call].answer.epoch == Takings(steps[..i], s.calls[call].eventId))
  }

  ghost predicate RepliesKnown(steps: seq<Step>, s: State) {
    forall i :: 0 <= i < |steps| && steps[i].Reply? ==> AnsweredAt(steps, s, steps[i].call, i)
  }

  /** Step `i` answers the call that was started for event `e`. */
  predicate Answers(steps: seq<Step>, i: nat, call: CallId, e: string)
    requires i < |steps|
  {
    steps[i].Reply? && steps[i].call == call && Start(call, e) in steps[..i]
  }

  ghost predicate AnswersKnown(steps: seq<Step>, s: State) {
    forall call :: call in s.calls && s.calls[call].Answered? ==>
      exists i :: 0 <= i < |steps| && Answers(steps, i, call, s.calls[call].eventId)
  }

  ghost predicate Remembers(steps: seq<Step>, s: State) {
    EpochsCount(steps, s) && StartsKnown(steps, s) && RepliesKnown(steps, s) && AnswersKnown(steps, s)
  }

  lemma EpochsStep(steps: seq<Step>, s: State, step: Step)
    requires EpochsCount(steps, s) && Enabled(s, step)
    ensures EpochsCount(steps + [step], Do(s, step))
  {
    assert (steps + [step])[..|steps|] == steps;
  }

  lemma StartsStep(steps: seq<Step>, s: State, step: Step)
    requires StartsKnown(steps, s) && Enabled(s, step)
    ensures StartsKnown(steps + [step], Do(s, step))
  {
  }

  lemma RepliesStep(steps: seq<Step>, s: State, step: Step)
    requires EpochsCount(steps, s) && RepliesKnown(steps, s) && Enabled(s, step)
    ensures RepliesKnown(steps + [step], Do(s, step))
  {
    var longer, after := steps + [step], Do(s, step);
    forall i | 0 <= i < |longer| && longer[i].Reply? ensures AnsweredAt(longer, after, longer[i].call, i) {
      if i < |steps| {
        assert longer[..i] == steps[..i] && longer[i] == steps[i];
        assert AnsweredAt(steps, s, steps[i].call, i);
      } else {
        assert longer[..i] == steps;
      }
    }
  }

  lemma AnswersStep(steps: seq<Step>, s: State, step: Step)
    requires StartsKnown(steps, s) && AnswersKnown(steps, s) && Enabled(s, step)
    ensures AnswersKnown(steps + [step], Do(s, step))
  {
    var longer, after := steps + [step], Do(s, step);
    forall call | call in after.calls && after.calls[call].Answered?
      ensures exists i :: 0 <= i < |longer| && Answers(longer, i, call, after.calls[call].eventId)
    {
      if call in s.calls && s.calls[call].Answered? {
        var i :| 0 <= i < |steps| && Answers(steps, i, call, s.calls[call].eventId);
        assert longer[i] == steps[i] && longer[..i] == steps[..i];
        assert Answers(longer, i, call, after.calls[call].eventId);
      } else {
        assert longer[..|steps|] == steps;
        assert Answers(longer, |steps|, call, after.calls[call].eventId);
      }
    }
  }

  lemma {:induction false} RunRemembers(ttl: int, steps: seq<Step>)
    requires Run(Init(ttl), steps)
    ensures Remembers(steps, Exec(Init(ttl), steps))
    decreases |steps|
  {
    if steps == [] {
    } else {
      var last := |steps| - 1;
      LastStep(Init(ttl), steps);
      RunRemembers(ttl, steps[..last]);
      var s, step := Exec(Init(ttl), steps[..last]), steps[last];
      EpochsStep(steps[..last], s, step);
      StartsStep(steps[..last], s, step);
      RepliesStep(steps[..last], s, step);
      AnswersStep(steps[..last], s, step);
      assert steps[..last] + [steps[last]] == steps;
    }
  }

  lemma FillIsLate(steps: seq<Step>, s: State, call: CallId, fill: Step) returns (i: nat, j: nat)
    requires Remembers(steps, s) && call in s.calls && s.calls[call].Answered? && fill.Fill? && fill.call == call
    requires s.calls[call].answer.epoch != Epoch(s, s.calls[call].eventId)
    ensures LateFill(steps + [fill], s.calls[call].eventId, call, i, j, |steps|)
  {
    var e := s.calls[call].eventId;
    i :| 0 <= i < |steps| && Answers(steps, i, call, e);
    assert AnsweredAt(steps, s, call, i);
    TakingsGrow(steps, e, i);
    j :| i <= j < |steps| && steps[j] == Take(e);
    assert (steps + [fill])[..i] == steps[..i];
  }

  lemma LateIsOld(steps: seq<Step>, s: State, call: CallId, fill: Step, e: string, i: nat, j: nat)
    requires Remembers(steps, s) && call in s.calls && s.calls[call].Answered?
    requires LateFill(steps + [fill], e, call, i, j, |steps|)
    ensures s.calls[call].answer.epoch != Epoch(s, s.calls[call].eventId)
  {
    var longer := steps + [fill];
    assert longer[..i] == steps[..i] && longer[i] == steps[i] && longer[j] == steps[j];
    assert Start(call, e) in steps;
    assert AnsweredAt(steps, s, steps[i].call, i);
    TakingsGrow(steps, e, i);
  }

  /** A fill stores an outdated answer exactly if a seat of its event was taken or freed since
      the answer was given. */
  lemma FillIsLateIff(ttl: int, steps: seq<Step>, call: CallId, evicted: set<string>)
    requires Run(Init(ttl), steps) && Enabled(Exec(Init(ttl), steps), Fill(call, evicted))
    ensures var s := Exec(Init(ttl), steps);
            var longer := steps + [Fill(call, evicted)];
            s.calls[call].answer.epoch != Epoch(s, s.calls[call].eventId) <==>
            exists e, i, j :: LateFill(longer, e, call, i, j, |steps|)
  {
    var s := Exec(Init(ttl), steps);
    var longer := steps + [Fill(call, evicted)];
    RunRemembers(ttl, steps);
    if s.calls[call].answer.epoch != Epoch(s, s.calls[call].eventId) {
      var i, j := FillIsLate(steps, s, call, Fill(call, evicted));
    }
    if e, i, j :| LateFill(longer, e, call, i, j, |steps|) {
      LateIsOld(steps, s, call, Fill(call, evicted), e, i, j);
    }
  }

  /** In one step an entry outdates only through a late fill, or when a seat is taken or
      freed while the event is cached. */
  lemma LateFillIff(s: State, call: CallId, evicted: set<string>)
    requires UpToDate(s) && Enabled(s, Fill(call, evicted))
    ensures UpToDate(Do(s, Fill(call, evicted))) <==>
            s.calls[call].answer.epoch == Epoch(s, s.calls[call].eventId)
  {
    var after := Do(s, Fill(call, evicted));
    assert s.calls[call].eventId in after.cache;
  }

  lemma TakeOverIff(s: State, e: string)
    requires UpToDate(s)
    ensures UpToDate(Do(s, Take(e))) <==> e !in s.cache
  {
    var after := Do(s, Take(e));
    assert e in s.cache ==> e in after.cache;
  }

  lemma OtherStepsKeepUpToDate(s: State, step: Step)
    requires UpToDate(s) && Enabled(s, step) && !step.Fill? && !step.Take?
    ensures UpToDate(Do(s, step))
  {
  }

  // ---- where an entry comes from ----

  /** Step `m` removes or replaces the entry of event `e`. */
  predicate Drops(steps: seq<Step>, m: nat, e: string)
    requires m < |steps|
  {
    || steps[m] == Invalidate(e) || steps[m] == Vanish(e)
    || (steps[m].Fill? && (e in steps[m].evicted || Start(steps[m].call, e) in steps[..m]))
  }

  /** Step `k` stores for event `e` what step `i` answered, and the entry stays. */
  ghost predicate EntryFrom(steps: seq<Step>, e: string, i: int, k: int) {
    && 0 <= i < k < |steps| && steps[k].Fill? && Answers(steps, i, steps[k].call, e)
    && forall m :: k < m < |steps| ==> !Drops(steps, m, e)
  }

  /** Every entry was stored by a step of the run. */
  ghost predicate EntriesKnown(steps: seq<Step>, s: State) {
    forall e :: e in s.cache ==> exists i, k :: EntryFrom(steps, e, i, k)
  }

  /** Every entry that was stored and stays is there, with the answer of its time. */
  ghost predicate EntriesStay(steps: seq<Step>, s: State) {
    forall e, i, k :: EntryFrom(steps, e, i, k) ==>
      e in s.cache && s.cache[e].answer.epoch == Takings(steps[..i], e)
  }

  /** The last step leaves the entry alone. */
  lemma EntryLonger(steps: seq<Step>, step: Step, e: string, i: int, k: int)
    requires k < |steps|
    ensures EntryFrom(steps + [step], e, i, k) <==> EntryFrom(steps, e, i, k) && !Drops(steps + [step], |steps|, e)
  {
    var longer := steps + [step];
    assert forall m :: 0 <= m < |steps| ==> longer[m] == steps[m] && longer[..m] == steps[..m];
    assert forall m :: 0 <= m < |steps| ==> (Drops(longer, m, e) <==> Drops(steps, m, e));
    if EntryFrom(longer, e, i, k) {
      assert Answers(steps, i, steps[k].call, e);
    }
  }

  lemma KeptEntry(steps: seq<Step>, s: State, step: Step, e: string)
    requires StartsKnown(steps, s) && Enabled(s, step) && e in s.cache && e in Do(s, step).cache
    requires !(step.Fill? && s.calls[step.call].eventId == e)
    ensures !Drops(steps + [step], |steps|, e)
  {
    assert (steps + [step])[..|steps|] == steps;
  }

  lemma NewEntry(steps: seq<Step>, s: State, step: Step) returns (i: nat)
    requires Remembers(steps, s) && Enabled(s, step) && step.Fill?
    ensures EntryFrom(steps + [step], s.calls[step.call].eventId, i, |steps|)
  {
    var e := s.calls[step.call].eventId;
    i :| 0 <= i < |steps| && Answers(steps, i, step.call, e);
    assert (steps + [step])[..i] == steps[..i];
  }

  lemma EntriesKnownStep(steps: seq<Step>, s: State, step: Step)
    requires Remembers(steps, s) && EntriesKnown(steps, s) && Enabled(s, step)
    ensures EntriesKnown(steps + [step], Do(s, step))
  {
    forall e | e in Do(s, step).cache ensures exists i, k :: EntryFrom(steps + [step], e, i, k) {
      if step.Fill? && s.calls[step.call].eventId == e {
        var i := NewEntry(steps, s, step);
      } else {
        KeptEntry(steps, s, step, e);
        var i, k :| EntryFrom(steps, e, i, k);
        EntryLonger(steps, step, e, i, k);
      }
    }
  }

  lemma NotDropped(steps: seq<Step>, s: State, step: Step, e: string)
    requires StartsKnown(steps, s) && Enabled(s, step) && e in s.cache && !Drops(steps + [step], |steps|, e)
    ensures e in Do(s, step).cache && Do(s, step).cache[e] == s.cache[e]
  {
    assert (steps + [step])[..|steps|] == steps;
  }

  lemma EntriesStayStep(steps: seq<Step>, s: State, step: Step)
    requires Remembers(steps, s) && EntriesStay(steps, s) && Enabled(s, step)
    ensures EntriesStay(steps + [step], Do(s, step))
  {
    var longer := steps + [step];
    forall e, i, k | EntryFrom(longer, e, i, k)
      ensures e in Do(s, step).cache && Do(s, step).cache[e].answer.epoch == Takings(longer[..i], e)
    {
      assert longer[..i] == steps[..i] && longer[i] == steps[i];
      if k < |steps| {
        EntryLonger(steps, step, e, i, k);
        NotDropped(steps, s, step, e);
      } else {
        assert Start(step.call, e) in steps;
        assert AnsweredAt(steps, s, steps[i].call, i);
      }
    }
  }

  lemma {:induction false} RunEntries(ttl: int, steps: seq<Step>)
    requires Run(Init(ttl), steps)
    ensures EntriesKnown(steps, Exec(Init(ttl), steps)) && EntriesStay(steps, Exec(Init(ttl), steps))
    decreases |steps|
  {
    if steps == [] {
    } else {
      var last := |steps| - 1;
      LastStep(Init(ttl), steps);
      RunEntries(ttl, steps[..last]);
      RunRemembers(ttl, steps[..last]);
      EntriesKnownStep(steps[..last], Exec(Init(ttl), steps[..last]), steps[last]);
      EntriesStayStep(steps[..last], Exec(Init(ttl), steps[..last]), steps[last]);
      assert steps[..last] + [steps[last]] == steps;
    }
  }

  // ---- when an entry is outdated ----

  /** The cached entry of `e` is older than the last time that a seat of `e` was taken or
      freed. */
  predicate Outdated(s: State, e: string) {
    e in s.cache && s.cache[e].answer.epoch != Epoch(s, e)
  }

  /** At the end of any run the entry of an event is outdated if and only if it stems from an
      answer after which a seat of the event was taken or freed, whether that happened before
      or after the answer was stored. */
  lemma OutdatedIff(ttl: int, steps: seq<Step>, e: string)
    requires Run(Init(ttl), steps)
    ensures Outdated(Exec(Init(ttl), steps), e) <==>
            exists i, j, k :: EntryFrom(steps, e, i, k) && i < j < |steps| && steps[j] == Take(e)
  {
    var s := Exec(Init(ttl), steps);
    RunRemembers(ttl, steps);
    RunEntries(ttl, steps);
    if Outdated(s, e) {
      var i, k :| EntryFrom(steps, e, i, k);
      TakingsGrow(steps, e, i);
      var j :| i <= j < |steps| && steps[j] == Take(e);
      assert j != i;
    }
    if i, j, k :| EntryFrom(steps, e, i, k) && i < j < |steps| && steps[j] == Take(e) {
      TakingsGrow(steps, e, i);
    }
  }

  /** Every time that a seat of the event is taken or freed, the cache is invalidated later. */
  ghost predicate AllSettled(steps: seq<Step>, e: string) {
    forall j :: 0 <= j < |steps| && steps[j] == Take(e) ==> exists m :: j < m < |steps| && steps[m] == Invalidate(e)
  }

  /** An invalidation after the time of an entry's answer came before the entry was stored. */
  lemma {:induction false} InvalidatedBeforeFill(steps: seq<Step>, e: string, i: int, k: int, m: int)
    requires EntryFrom(steps, e, i, k) && 0 <= m < |steps| && steps[m] == Invalidate(e)
    ensures m < k
  {
    assert m > k ==> Drops(steps, m, e);
  }

  /** Step `i` answers for event `e`, a seat of it is taken or freed and the cache is
      invalidated, and then step `k` stores the answer, and it stays. */
  ghost predicate LateEntry(steps: seq<Step>, e: string, i: int, j: int, m: int, k: int) {
    i < j < m < k && EntryFrom(steps, e, i, k) && steps[j] == Take(e) && steps[m] == Invalidate(e)
  }

  /** Where every registration and cancellation completes, an outdated entry is always a late
      fill: answered before the seat was taken or freed, and stored after the invalidation. */
  lemma {:induction false} SettledOutdatedIff(ttl: int, steps: seq<Step>, e: string)
    requires Run(Init(ttl), steps) && AllSettled(steps, e)
    ensures Outdated(Exec(Init(ttl), steps), e) <==> exists i, j, m, k :: LateEntry(steps, e, i, j, m, k)
  {
    OutdatedIff(ttl, steps, e);
    if i, j, k :| EntryFrom(steps, e, i, k) && i < j < |steps| && steps[j] == Take(e) {
      var m :| j < m < |steps| && steps[m] == Invalidate(e);
      InvalidatedBeforeFill(steps, e, i, k, m);
      assert LateEntry(steps, e, i, j, m, k);
    }
  }

  // ---- throughout a run ----

  ghost predicate AlwaysUpToDate(s: State, steps: seq<Step>)
    requires Run(s, steps)
  {
    forall n :: 0 <= n <= |steps| ==> Run(s, steps[..n]) && UpToDate(Exec(s, steps[..n]))
  }

  /** A late fill of a longer run is one of the shorter run, or the last step. */
  lemma LateFillAtEnd(steps: seq<Step>, step: Step)
    requires !HasLateFill(steps)
    ensures HasLateFill(steps + [step]) <==>
            step.Fill? && exists e, i, j :: LateFill(steps + [step], e, step.call, i, j, |steps|)
  {
    var longer := steps + [step];
    assert forall n :: 0 <= n < |steps| ==> longer[n] == steps[n];
    if e, call, i, j, k :| LateFill(longer, e, call, i, j, k) {
      assert longer[..i] == steps[..i];
      if k < |steps| {
        assert LateFill(steps, e, call, i, j, k);
        assert false;
      }
    }
  }

  lemma LateFillStays(steps: seq<Step>, step: Step)
    requires HasLateFill(steps)
    ensures HasLateFill(steps + [step])
  {
    var longer := steps + [step];
    var e, call, i, j, k :| LateFill(steps, e, call, i, j, k);
    assert longer[..i] == steps[..i];
    assert longer[i] == steps[i] && longer[j] == steps[j] && longer[k] == steps[k];
    assert LateFill(longer, e, call, i, j, k);
  }

  /** A run is up to date throughout if it is up to its last step, and after it. */
  lemma AlwaysUpToDateStep(ttl: int, steps: seq<Step>)
    requires Run(Init(ttl), steps) && steps != [] && Run(Init(ttl), steps[..|steps| - 1])
    ensures AlwaysUpToDate(Init(ttl), steps) <==>
            AlwaysUpToDate(Init(ttl), steps[..|steps| - 1]) && UpToDate(Exec(Init(ttl), steps))
  {
    var shorter := steps[..|steps| - 1];
    assert steps[..|steps|] == steps;
    if AlwaysUpToDate(Init(ttl), steps) {
      forall n | 0 <= n <= |shorter| ensures Run(Init(ttl), shorter[..n]) && UpToDate(Exec(Init(ttl), shorter[..n])) {
        assert steps[..n] == shorter[..n];
      }
    }
    if AlwaysUpToDate(Init(ttl), shorter) && UpToDate(Exec(Init(ttl), steps)) {
      forall n | 0 <= n <= |steps| ensures Run(Init(ttl), steps[..n]) && UpToDate(Exec(Init(ttl), steps[..n])) {
        assert n < |steps| ==> steps[..n] == shorter[..n];
      }
    }
  }

  /** A seat of event `e` is taken or freed while the event is cached. */
  ghost predicate TakeOver(steps: seq<Step>, e: string, i: int, j: int, k: int) {
    0 <= j < |steps| && steps[j] == Take(e) && EntryFrom(steps[..j], e, i, k)
  }

  ghost predicate HasTakeOver(steps: seq<Step>) {
    exists e, i, j, k :: TakeOver(steps, e, i, j, k)
  }

  lemma TakeOverAtEnd(steps: seq<Step>, step: Step)
    ensures HasTakeOver(steps + [step]) <==>
            HasTakeOver(steps) || exists e, i, k :: step == Take(e) && EntryFrom(steps, e, i, k)
  {
    var longer := steps + [step];
    assert longer[..|steps|] == steps;
    if e, i, j, k :| TakeOver(longer, e, i, j, k) {
      if j < |steps| {
        assert longer[..j] == steps[..j] && TakeOver(steps, e, i, j, k);
      }
    }
    if e, i, j, k :| TakeOver(steps, e, i, j, k) {
      assert longer[..j] == steps[..j] && TakeOver(longer, e, i, j, k);
    }
    if e, i, k :| step == Take(e) && EntryFrom(steps, e, i, k) {
      assert TakeOver(longer, e, i, |steps|, k);
    }
  }

  lemma LastStepUpToDate(ttl: int, steps: seq<Step>, step: Step)
    requires Run(Init(ttl), steps) && Enabled(Exec(Init(ttl), steps), step)
    requires UpToDate(Exec(Init(ttl), steps))
    ensures UpToDate(Do(Exec(Init(ttl), steps), step)) <==>
            && !(step.Fill? && exists e, i, j :: LateFill(steps + [step], e, step.call, i, j, |steps|))
            && !(exists e, i, k :: step == Take(e) && EntryFrom(steps, e, i, k))
  {
    var s := Exec(Init(ttl), steps);
    if step.Fill? {
      FillIsLateIff(ttl, steps, step.call, step.evicted);
      LateFillIff(s, step.call, step.evicted);
    } else if step.Take? {
      RunEntries(ttl, steps);
      TakeOverIff(s, step.eventId);
    } else {
      OtherStepsKeepUpToDate(s, step);
    }
  }

  /** The cache is up to date throughout a run exactly if the run has no late fill and no seat
      is taken or freed while its event is cached. */
  lemma {:induction false} AlwaysUpToDateIff(ttl: int, steps: seq<Step>)
    requires Run(Init(ttl), steps)
    ensures AlwaysUpToDate(Init(ttl), steps) <==> !HasLateFill(steps) && !HasTakeOver(steps)
    decreases |steps|
  {
    if steps == [] {
      assert Run(Init(ttl), []) && UpToDate(Init(ttl));
    } else {
      var last := |steps| - 1;
      var shorter := steps[..last];
      LastStep(Init(ttl), steps);
      AlwaysUpToDateIff(ttl, shorter);
      AlwaysUpToDateStep(ttl, steps);
      assert shorter + [steps[last]] == steps;
      TakeOverAtEnd(shorter, steps[last]);
      if HasLateFill(shorter) {
        LateFillStays(shorter, steps[last]);
      } else if !HasTakeOver(shorter) {
        assert shorter[..last] == shorter;
        LateFillAtEnd(shorter, steps[last]);
        LastStepUpToDate(ttl, shorter, steps[last]);
      }
    }
  }

  /** A registration that takes its seat and completes between the provider's answer and its
      storing: the entry outlives the invalidation. */
  lemma LateFillSurvives(ttl: int) returns (steps: seq<Step>)
    ensures Run(Init(ttl), steps) && AllSettled(steps, "e") && Outdated(Exec(Init(ttl), steps), "e")
  {
    steps := [Start(0, "e"), Reply(0, ["A1"])] + [Take("e"), Invalidate("e"), Fill(0, {})];
    var s1 := Do(Init(ttl), Start(0, "e"));
    var s2 := Do(s1, Reply(0, ["A1"]));
    var s3 := Do(s2, Take("e"));
    var s4 := Do(s3, Invalidate("e"));
    var s5 := Do(s4, Fill(0, {}));
    assert Run(s5, []) && Exec(s5, []) == s5;
    Cons(s4, Fill(0, {}), []);
    Cons(s3, Invalidate("e"), [Fill(0, {})]);
    Cons(s2, Take("e"), [Invalidate("e"), Fill(0, {})]);
    Cons(s1, Reply(0, ["A1"]), [Take("e"), Invalidate("e"), Fill(0, {})]);
    Cons(Init(ttl), Start(0, "e"), [Reply(0, ["A1"]), Take("e"), Invalidate("e"), Fill(0, {})]);
    assert steps == [Start(0, "e")] + [Reply(0, ["A1"]), Take("e"), Invalidate("e"), Fill(0, {})];
    assert steps[3] == Invalidate("e");
  }

  lemma Cons(s: State, step: Step, rest: seq<Step>)
    requires Enabled(s, step) && Run(Do(s, step), rest)
    ensures Run(s, [step] + rest) && Exec(s, [step] + rest) == Exec(Do(s, step), rest)
  {
    assert ([step] + rest)[1..] == rest;
  }

  /** A registration that takes its seat and then fails here: the cached list keeps offering
      the seat, without any late fill. */
  lemma FailedRegistrationStays(ttl: int) returns (steps: seq<Step>)
    ensures Run(Init(ttl), steps) && !HasLateFill(steps) && Outdated(Exec(Init(ttl), steps), "e")
  {
    steps := [Start(0, "e"), Reply(0, ["A1"]), Fill(0, {}), Take("e")];
    var s1 := Do(Init(ttl), Start(0, "e"));
    var s2 := Do(s1, Reply(0, ["A1"]));
    var s3 := Do(s2, Fill(0, {}));
    var s4 := Do(s3, Take("e"));
    assert Run(s4, []) && Exec(s4, []) == s4;
    Cons(s3, Take("e"), []);
    Cons(s2, Fill(0, {}), [Take("e")]);
    Cons(s1, Reply(0, ["A1"]), [Fill(0, {}), Take("e")]);
    Cons(Init(ttl), Start(0, "e"), [Reply(0, ["A1"]), Fill(0, {}), Take("e")]);
    assert steps == [Start(0, "e")] + [Reply(0, ["A1"]), Fill(0, {}), Take("e")];
  }
}
