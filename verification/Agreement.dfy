/** When the provider's live registrations and the local ticket rows disagree. */
module Agreement {
  import opened Wrappers
  import opened Outbox
  import opened Registration
  import opened RegistrationTheorems

  /** The ticket that a registration was granted and has not committed yet. */
  function GrantOf(q: Request): Option<TicketId> {
    if q.Register? && q.phase.Granted? then Some(q.phase.ticketId) else None
  }

  /** The ticket that a cancellation will delete because the provider has given it up: freed
      now, or unknown to it. */
  function FreeingOf(q: Request): Option<TicketId> {
    if q.Unregister? && (q.step.Missing? || (q.step.Confirmed? && q.step.success)) then Some(q.ticketId) else None
  }

  /** The registrations that were granted a ticket, and the cancellations that give it up. */
  function Granting(s: State, t: TicketId): set<RequestId> {
    set r | r in s.requests && GrantOf(s.requests[r]) == Some(t)
  }

  function Freeing(s: State, t: TicketId): set<RequestId> {
    set r | r in s.requests && FreeingOf(s.requests[r]) == Some(t)
  }

  /** The provider has a live registration, and no row here or grant under way stands for it. */
  ghost predicate Orphan(s: State, t: TicketId) {
    t in s.live && t !in s.db.tickets && Granting(s, t) == {}
  }

  /** A ticket row has no live registration, and no cancellation under way will delete it. */
  ghost predicate Hollow(s: State, t: TicketId) {
    t in s.db.tickets && t !in s.live && Freeing(s, t) == {}
  }

  /** Provider and table agree about a ticket, or a request under way will settle it. */
  ghost predicate Agree(s: State, t: TicketId) {
    !Orphan(s, t) && !Hollow(s, t)
  }

  // ---- the steps that break the agreement ----

  /** The provider ends up with a seat that nobody here has: after a grant whose reply is
      lost, a grant that is abandoned, or a deletion of the row of a live ticket. */
  ghost predicate MakesOrphan(c: Config, s: State, step: Step, t: TicketId)
    requires Enabled(c, s, step)
  {
    match step
    case Registering(r, DoAskProvider(grant)) =>
      && grant == Grant(false) && TicketOf(c, s.requests[r].form) == t
      && t !in s.db.tickets && Granting(s, t) == {}
    case Registering(r, DoAbort) => t in s.live && t !in s.db.tickets && Granting(s, t) == {r}
    case Cancelling(r, DoCommitCancel(_, _)) => DeletesLive(s, r, t)
    case Cancelling(r, DoCommitDrop) => DeletesLive(s, r, t)
    case _ => false
  }

  ghost predicate DeletesLive(s: State, r: RequestId, t: TicketId)
    requires r in s.requests && s.requests[r].Unregister?
  {
    s.requests[r].ticketId == t && t in s.live && t in s.db.tickets && Granting(s, t) == {}
  }

  /** A row ends up without a live registration: after the commit of a purchase whose ticket
      was freed meanwhile, or a cancellation that took effect at the provider and whose reply
      is lost or that never gets to its commit. */
  ghost predicate MakesHollow(c: Config, s: State, step: Step, t: TicketId)
    requires Enabled(c, s, step)
  {
    match step
    case Registering(r, DoCommitPurchase(_, _)) =>
      GrantOf(s.requests[r]) == Some(t) && t !in s.live && Freeing(s, t) == {}
    case Cancelling(r, DoAskCancel(answer)) =>
      answer == CancelFailure(true) && s.requests[r].ticketId == t && t in s.db.tickets && Freeing(s, t) == {}
    case Cancelling(r, DoAbortCancel) => t in s.db.tickets && t !in s.live && Freeing(s, t) == {r}
    case _ => false
  }

  ghost predicate Breaks(c: Config, s: State, step: Step, t: TicketId)
    requires Enabled(c, s, step)
  {
    MakesOrphan(c, s, step, t) || MakesHollow(c, s, step, t)
  }

  /** Request `r` changes; the others stay. */
  lemma OneChanges(s: State, after: State, r: RequestId, t: TicketId)
    requires r in after.requests && after.requests == s.requests[r := after.requests[r]]
    ensures Granting(after, t) == Granting(s, t) - {r} + if GrantOf(after.requests[r]) == Some(t) then {r} else {}
    ensures Freeing(after, t) == Freeing(s, t) - {r} + if FreeingOf(after.requests[r]) == Some(t) then {r} else {}
  {
  }

  lemma RegisterMakesOrphan(c: Config, s: State, r: RequestId, step: RegisterStep, t: TicketId)
    requires CanRegister(c, s, r, step) && !Orphan(s, t)
    ensures Orphan(RegisterTo(c, s, r, step), t) <==> MakesOrphan(c, s, Registering(r, step), t)
  {
    OneChanges(s, RegisterTo(c, s, r, step), r, t);
  }

  lemma RegisterMakesHollow(c: Config, s: State, r: RequestId, step: RegisterStep, t: TicketId)
    requires CanRegister(c, s, r, step) && !Hollow(s, t)
    ensures Hollow(RegisterTo(c, s, r, step), t) <==> MakesHollow(c, s, Registering(r, step), t)
  {
    OneChanges(s, RegisterTo(c, s, r, step), r, t);
  }

  lemma CancelMakesOrphan(c: Config, s: State, r: RequestId, step: CancelStep, t: TicketId)
    requires CanCancel(s, r, step) && !Orphan(s, t)
    ensures Orphan(CancelTo(s, r, step), t) <==> MakesOrphan(c, s, Cancelling(r, step), t)
  {
    OneChanges(s, CancelTo(s, r, step), r, t);
  }

  lemma CancelMakesHollow(c: Config, s: State, r: RequestId, step: CancelStep, t: TicketId)
    requires CanCancel(s, r, step) && !Hollow(s, t)
    ensures Hollow(CancelTo(s, r, step), t) <==> MakesHollow(c, s, Cancelling(r, step), t)
  {
    OneChanges(s, CancelTo(s, r, step), r, t);
  }

  /** From any state, overlapping requests included, these are all the ways. */
  lemma DisagreementStep(c: Config, s: State, step: Step, t: TicketId)
    requires Enabled(c, s, step)
    ensures !Orphan(s, t) ==> (Orphan(Do(c, s, step), t) <==> MakesOrphan(c, s, step, t))
    ensures !Hollow(s, t) ==> (Hollow(Do(c, s, step), t) <==> MakesHollow(c, s, step, t))
  {
    match step {
      case Registering(r, register) =>
        if !Orphan(s, t) {
          RegisterMakesOrphan(c, s, r, register, t);
        }
        if !Hollow(s, t) {
          RegisterMakesHollow(c, s, r, register, t);
        }
      case Cancelling(r, cancel) =>
        if !Orphan(s, t) {
          CancelMakesOrphan(c, s, r, cancel, t);
        }
        if !Hollow(s, t) {
          CancelMakesHollow(c, s, r, cancel, t);
        }
      case Publishing(w, publish) => GapPublish(c, s, w, publish, t);
    }
  }

  // ---- over runs ----

  ghost predicate AgreeAlong(c: Config, s: State, steps: seq<Step>, t: TicketId)
    requires Run(c, s, steps)
    decreases |steps|
  {
    Agree(s, t) && (steps != [] ==> AgreeAlong(c, Do(c, s, steps[0]), steps[1..], t))
  }

  ghost predicate NothingBreaks(c: Config, s: State, steps: seq<Step>, t: TicketId)
    requires Run(c, s, steps)
    decreases |steps|
  {
    steps != [] ==> !Breaks(c, s, steps[0], t) && NothingBreaks(c, Do(c, s, steps[0]), steps[1..], t)
  }

  lemma {:induction false} AgreeAlongIff(c: Config, s: State, steps: seq<Step>, t: TicketId)
    requires Run(c, s, steps) && Agree(s, t)
    ensures AgreeAlong(c, s, steps, t) <==> NothingBreaks(c, s, steps, t)
    decreases |steps|
  {
    if steps == [] {
    } else {
      AgreeUntilBreak(c, s, steps[0], t);
      if Agree(Do(c, s, steps[0]), t) {
        AgreeAlongIff(c, Do(c, s, steps[0]), steps[1..], t);
      }
    }
  }

  lemma AgreeUntilBreak(c: Config, s: State, step: Step, t: TicketId)
    requires Agree(s, t) && Enabled(c, s, step)
    ensures Agree(Do(c, s, step), t) <==> !Breaks(c, s, step, t)
  {
    DisagreementStep(c, s, step, t);
  }

  /** Over every run, provider and table agree about a ticket throughout if and only if no
      step breaks the agreement. */
  lemma AgreementIff(c: Config, steps: seq<Step>, t: TicketId)
    requires Run(c, Init(), steps)
    ensures AgreeAlong(c, Init(), steps, t) <==> NothingBreaks(c, Init(), steps, t)
  {
    AgreeAlongIff(c, Init(), steps, t);
  }

  lemma {:induction false} BreakAlong(c: Config, s: State, steps: seq<Step>, t: TicketId) returns (i: nat)
    requires Run(c, s, steps) && Agree(s, t) && !Agree(Exec(c, s, steps), t)
    ensures i < |steps| && Run(c, s, steps[..i])
    ensures Enabled(c, Exec(c, s, steps[..i]), steps[i]) && Breaks(c, Exec(c, s, steps[..i]), steps[i], t)
    decreases |steps|
  {
    assert steps != [];
    var next := Do(c, s, steps[0]);
    AgreeUntilBreak(c, s, steps[0], t);
    if Agree(next, t) {
      var j := BreakAlong(c, next, steps[1..], t);
      i := j + 1;
      assert steps[..i] == [steps[0]] + steps[1..][..j];
      StepThenRun(c, s, steps[0], steps[1..][..j]);
    } else {
      i := 0;
      assert Run(c, s, []) && Exec(c, s, []) == s;
      assert steps[..0] == [];
    }
  }

  /** A disagreement at the end of any run goes back to one of these steps. */
  lemma DisagreementTraced(c: Config, steps: seq<Step>, t: TicketId) returns (i: nat)
    requires Run(c, Init(), steps) && !Agree(Exec(c, Init(), steps), t)
    ensures i < |steps| && Run(c, Init(), steps[..i])
    ensures Enabled(c, Exec(c, Init(), steps[..i]), steps[i]) && Breaks(c, Exec(c, Init(), steps[..i]), steps[i], t)
  {
    i := BreakAlong(c, Init(), steps, t);
  }

  // ---- when requests for one ticket do not overlap ----

  /** The ticket that a request is dealing with, from before its provider call to its commit. */
  function BusyWith(c: Config, q: Request): Option<TicketId> {
    match q
    case Register(form, _, phase, _) => if phase.Admitted? || phase.Granted? then Some(TicketOf(c, form)) else None
    case Unregister(ticketId, step) => if step.Found? || step.Confirmed? || step.Missing? then Some(ticketId) else None
  }

  ghost predicate OneAtATime(c: Config, s: State) {
    forall r, r' :: r in s.requests && r' in s.requests
                    && BusyWith(c, s.requests[r]).Some? && BusyWith(c, s.requests[r]) == BusyWith(c, s.requests[r'])
      ==> r == r'
  }

  ghost predicate OneAtATimeAlong(c: Config, s: State, steps: seq<Step>)
    requires Run(c, s, steps)
    decreases |steps|
  {
    OneAtATime(c, s) && (steps != [] ==> OneAtATimeAlong(c, Do(c, s, steps[0]), steps[1..]))
  }

  /** What the provider said last is still so when the answer is committed. */
  ghost predicate AnswersHold(c: Config, s: State) {
    && (forall r :: r in s.requests && GrantOf(s.requests[r]).Some? ==>
          GrantOf(s.requests[r]) == BusyWith(c, s.requests[r]) && GrantOf(s.requests[r]).value in s.live)
    && (forall r :: r in s.requests && FreeingOf(s.requests[r]).Some? ==> FreeingOf(s.requests[r]).value !in s.live)
  }

  /** Only the provider calls change what is live, what is granted and what is given up. */
  ghost predicate NoAnswer(s: State, after: State, r: RequestId) {
    && after.live == s.live
    && r in after.requests && after.requests == s.requests[r := after.requests[r]]
    && (GrantOf(after.requests[r]).Some? ==> r in s.requests && GrantOf(after.requests[r]) == GrantOf(s.requests[r]))
    && (FreeingOf(after.requests[r]).Some? ==> r in s.requests && after.requests[r] == s.requests[r])
  }

  lemma NoAnswerKeepsAnswers(c: Config, s: State, after: State, r: RequestId)
    requires AnswersHold(c, s) && NoAnswer(s, after, r)
    requires r in s.requests ==> after.requests[r].Register? == s.requests[r].Register?
    requires r in s.requests && s.requests[r].Register? ==> after.requests[r].form == s.requests[r].form
    ensures AnswersHold(c, after)
  {
  }

  lemma AskKeepsAnswers(c: Config, s: State, r: RequestId, grant: GrantAnswer)
    requires OneAtATime(c, s) && AnswersHold(c, s) && CanAskProvider(c, s, r, grant)
    ensures AnswersHold(c, AskProvider(c, s, r, grant))
  {
    forall r' | r' in s.requests && FreeingOf(s.requests[r']).Some?
      ensures FreeingOf(s.requests[r']).value != TicketOf(c, s.requests[r].form)
    {
      assert BusyWith(c, s.requests[r']) == FreeingOf(s.requests[r']);
    }
  }

  lemma AskCancelKeepsAnswers(c: Config, s: State, r: RequestId, answer: CancelAnswer)
    requires OneAtATime(c, s) && AnswersHold(c, s) && CanAskCancel(s, r, answer)
    ensures AnswersHold(c, AskCancel(s, r, answer))
  {
    forall r' | r' in s.requests && GrantOf(s.requests[r']).Some?
      ensures GrantOf(s.requests[r']).value != s.requests[r].ticketId
    {
      assert BusyWith(c, s.requests[r']) == GrantOf(s.requests[r']);
      assert BusyWith(c, s.requests[r]) == Some(s.requests[r].ticketId);
    }
  }

  lemma RegisterKeepsAnswers(c: Config, s: State, r: RequestId, step: RegisterStep)
    requires OneAtATime(c, s) && AnswersHold(c, s) && CanRegister(c, s, r, step)
    ensures AnswersHold(c, RegisterTo(c, s, r, step))
  {
    if step.DoAskProvider? {
      AskKeepsAnswers(c, s, r, step.grant);
    } else {
      NoAnswerKeepsAnswers(c, s, RegisterTo(c, s, r, step), r);
    }
  }

  lemma CancelKeepsAnswers(c: Config, s: State, r: RequestId, step: CancelStep)
    requires OneAtATime(c, s) && AnswersHold(c, s) && CanCancel(s, r, step)
    ensures AnswersHold(c, CancelTo(s, r, step))
  {
    if step.DoAskCancel? {
      AskCancelKeepsAnswers(c, s, r, step.answer);
    } else {
      NoAnswerKeepsAnswers(c, s, CancelTo(s, r, step), r);
    }
  }

  lemma AnswersStep(c: Config, s: State, step: Step)
    requires OneAtATime(c, s) && AnswersHold(c, s) && Enabled(c, s, step)
    ensures AnswersHold(c, Do(c, s, step))
  {
    match step {
      case Registering(r, register) => RegisterKeepsAnswers(c, s, r, register);
      case Cancelling(r, cancel) => CancelKeepsAnswers(c, s, r, cancel);
      case Publishing(w, publish) => GapPublish(c, s, w, publish, 0);
    }
  }

  /** The ways that are left then: a grant or a cancellation whose reply is lost, a grant or a
      cancellation that is abandoned after it took effect, and a cancellation that the
      provider answered with `success=false`. */
  ghost predicate LooseEnd(c: Config, s: State, step: Step, t: TicketId)
    requires Enabled(c, s, step)
  {
    match step
    case Registering(r, DoAskProvider(grant)) =>
      grant == Grant(false) && TicketOf(c, s.requests[r].form) == t && t !in s.db.tickets
    case Registering(r, DoAbort) => GrantOf(s.requests[r]) == Some(t) && t !in s.db.tickets
    case Cancelling(r, DoCommitCancel(_, _)) =>
      s.requests[r].ticketId == t && !s.requests[r].step.success && t in s.live && t in s.db.tickets
    case Cancelling(r, DoAskCancel(answer)) =>
      answer == CancelFailure(true) && s.requests[r].ticketId == t && t in s.db.tickets
    case Cancelling(r, DoAbortCancel) => FreeingOf(s.requests[r]) == Some(t) && t in s.db.tickets
    case _ => false
  }

  /** Nobody else deals with the ticket of `r`. */
  lemma Alone(c: Config, s: State, r: RequestId, t: TicketId)
    requires OneAtATime(c, s) && AnswersHold(c, s) && r in s.requests && BusyWith(c, s.requests[r]) == Some(t)
    ensures Granting(s, t) <= {r} && Freeing(s, t) <= {r}
  {
    forall r' | r' in s.requests && (GrantOf(s.requests[r']) == Some(t) || FreeingOf(s.requests[r']) == Some(t))
      ensures r' == r
    {
      assert BusyWith(c, s.requests[r']) == Some(t);
    }
  }

  lemma BreaksIsLooseEnd(c: Config, s: State, step: Step, t: TicketId)
    requires OneAtATime(c, s) && AnswersHold(c, s) && Enabled(c, s, step)
    ensures Breaks(c, s, step, t) <==> LooseEnd(c, s, step, t)
  {
    if step.Registering? && step.r in s.requests && BusyWith(c, s.requests[step.r]) == Some(t) {
      Alone(c, s, step.r, t);
    }
    if step.Cancelling? && step.r in s.requests && BusyWith(c, s.requests[step.r]) == Some(t) {
      Alone(c, s, step.r, t);
    }
  }

  ghost predicate NoLooseEnd(c: Config, s: State, steps: seq<Step>, t: TicketId)
    requires Run(c, s, steps)
    decreases |steps|
  {
    steps != [] ==> !LooseEnd(c, s, steps[0], t) && NoLooseEnd(c, Do(c, s, steps[0]), steps[1..], t)
  }

  lemma {:induction false} BreaksAreLooseEnds(c: Config, s: State, steps: seq<Step>, t: TicketId)
    requires Run(c, s, steps) && OneAtATimeAlong(c, s, steps) && AnswersHold(c, s)
    ensures NothingBreaks(c, s, steps, t) <==> NoLooseEnd(c, s, steps, t)
    decreases |steps|
  {
    if steps == [] {
    } else {
      BreaksIsLooseEnd(c, s, steps[0], t);
      AnswersStep(c, s, steps[0]);
      BreaksAreLooseEnds(c, Do(c, s, steps[0]), steps[1..], t);
    }
  }

  /** Over every run in which requests for one ticket do not overlap, provider and table agree
      about it throughout if and only if no request leaves a loose end. */
  lemma AgreementWithoutOverlapIff(c: Config, steps: seq<Step>, t: TicketId)
    requires Run(c, Init(), steps) && OneAtATimeAlong(c, Init(), steps)
    ensures AgreeAlong(c, Init(), steps, t) <==> NoLooseEnd(c, Init(), steps, t)
  {
    AgreementIff(c, steps, t);
    BreaksAreLooseEnds(c, Init(), steps, t);
  }
}
