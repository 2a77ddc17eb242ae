/** Why requests are refused: at the end of every run the reason that a client gets goes back
    to what the service saw, and each such sight leads to its reason. */
module Denials {
  import opened Wrappers
  import opened Fingerprint
  import opened Registration
  import LiveHistory

  /** What the view of the event says against a registration, first objection first. */
  ghost predicate Objects(form: Form, view: EventView, reason: Reason) {
    match reason
    case EventNotFound => view.NoEvent?
    case RegistrationDeadlinePassed => view.Event? && view.deadlinePassed
    case EventNotPublished => view.Event? && !view.deadlinePassed && !view.published
    case NoAvailableSeats =>
      && view.Event? && !view.deadlinePassed && view.published
      && (view.seats.SeatsNotFound? || view.seats == SeatsView.Seats([]))
    case SeatAlreadyTaken =>
      && view.Event? && !view.deadlinePassed && view.published
      && view.seats.Seats? && view.seats.seats != [] && form.seat !in view.seats.seats
    case ServerError => view.Event? && !view.deadlinePassed && view.published && view.seats.SeatsFailure?
    case _ => false
  }

  /** The provider's answer to a registration stands for this reason. */
  predicate Rejects(answer: GrantAnswer, reason: Reason) {
    match reason
    case EventNotFound => answer.NotFound?
    case SeatAlreadyTaken => answer.BadRequest?
    case ServerError => answer.GrantFailure? || answer == Grant(false)
    case _ => false
  }

  /** The key belongs to a purchase with other data. */
  ghost predicate Conflicts(c: Config, s: State, q: Request) {
    && q.Register? && q.key.Some? && q.key.value in s.db.keys
    && s.db.keys[q.key.value].requestHash != RequestHash(c.sha256, q.form)
  }

  /** The step refuses request `r` for this reason. */
  ghost predicate Refuses(c: Config, s: State, step: Step, r: RequestId, reason: Reason)
    requires Enabled(c, s, step)
  {
    match step
    case Registering(r', DoCheckKey) => r' == r && reason.IdempotencyConflict? && Conflicts(c, s, s.requests[r])
    case Registering(r', DoVet(view)) => r' == r && Objects(s.requests[r].form, view, reason)
    case Registering(r', DoAskProvider(answer)) => r' == r && Rejects(answer, reason)
    case Registering(r', DoAbort) => r' == r && reason.ServerError? && !s.requests[r].phase.Committed?
    case Cancelling(r', DoLookUp) =>
      r' == r && reason.RegistrationNotFound? && s.requests[r].ticketId !in s.db.tickets
    case Cancelling(r', DoAskCancel(answer)) => r' == r && reason.ServerError? && answer.CancelFailure?
    case Cancelling(r', DoCommitDrop) => r' == r && reason.RegistrationNotFound?
    case Cancelling(r', DoAbortCancel) => r' == r && reason.ServerError?
    case _ => false
  }

  /** The reason that the client of a request was given. */
  function Refusal(q: Request): Option<Reason> {
    match q
    case Register(_, _, Denied(reason), _) => Some(reason)
    case Unregister(_, Refused(reason)) => Some(reason)
    case Unregister(_, Dropped) => Some(RegistrationNotFound)
    case _ => None
  }

  ghost predicate RefusedFor(s: State, r: RequestId, reason: Reason) {
    r in s.requests && Refusal(s.requests[r]) == Some(reason)
  }

  lemma RegisterRefusal(c: Config, s: State, r: RequestId, step: RegisterStep, reason: Reason)
    requires CanRegister(c, s, r, step)
    ensures RefusedFor(RegisterTo(c, s, r, step), r, reason) <==>
            RefusedFor(s, r, reason) || Refuses(c, s, Registering(r, step), r, reason)
  {
  }

  lemma CancelRefusal(c: Config, s: State, r: RequestId, step: CancelStep, reason: Reason)
    requires CanCancel(s, r, step)
    ensures RefusedFor(CancelTo(s, r, step), r, reason) <==>
            RefusedFor(s, r, reason) || Refuses(c, s, Step.Cancelling(r, step), r, reason)
  {
  }

  /** Request `r` is as before. */
  ghost predicate SameRequest(s: State, after: State, r: RequestId) {
    && (r in after.requests <==> r in s.requests)
    && (r in s.requests ==> after.requests[r] == s.requests[r])
  }

  lemma OtherRegisterStays(c: Config, s: State, r': RequestId, step: RegisterStep, r: RequestId)
    requires CanRegister(c, s, r', step) && r' != r
    ensures SameRequest(s, RegisterTo(c, s, r', step), r)
  {
  }

  lemma OtherCancelStays(c: Config, s: State, r': RequestId, step: CancelStep, r: RequestId)
    requires CanCancel(s, r', step) && r' != r
    ensures SameRequest(s, CancelTo(s, r', step), r)
  {
  }

  lemma OtherRequestsStay(c: Config, s: State, step: Step, r: RequestId)
    requires Enabled(c, s, step) && (step.Publishing? || step.r != r)
    ensures SameRequest(s, Do(c, s, step), r)
  {
    match step {
      case Registering(r', register) => OtherRegisterStays(c, s, r', register, r);
      case Cancelling(r', cancel) => OtherCancelStays(c, s, r', cancel, r);
      case Publishing(w, publish) => assert PublishTo(c, s, w, publish).requests == s.requests;
    }
  }

  /** A refusal is for good, and comes only from such a step. */
  lemma RefusalStep(c: Config, s: State, step: Step, r: RequestId, reason: Reason)
    requires Enabled(c, s, step)
    ensures RefusedFor(Do(c, s, step), r, reason) <==>
            RefusedFor(s, r, reason) || Refuses(c, s, step, r, reason)
  {
    if step.Publishing? || step.r != r {
      OtherRequestsStay(c, s, step, r);
    } else if step.Registering? {
      RegisterRefusal(c, s, r, step.register, reason);
    } else {
      CancelRefusal(c, s, r, step.cancel, reason);
    }
  }

  /** Step `i` of the run refuses request `r` for this reason. */
  ghost predicate RefusedAt(c: Config, steps: seq<Step>, i: nat, r: RequestId, reason: Reason) {
    && i < |steps| && Run(c, Init(), steps[..i]) && Enabled(c, Exec(c, Init(), steps[..i]), steps[i])
    && Refuses(c, Exec(c, Init(), steps[..i]), steps[i], r, reason)
  }

  /** Over every run, a client is given a reason exactly if some step of the run refused the
      request for it. */
  lemma {:induction false} RefusedIff(c: Config, steps: seq<Step>, r: RequestId, reason: Reason)
    requires Run(c, Init(), steps)
    ensures RefusedFor(Exec(c, Init(), steps), r, reason) <==> exists i: nat :: RefusedAt(c, steps, i, r, reason)
    decreases |steps|
  {
    if steps == [] {
    } else {
      var last := |steps| - 1;
      LiveHistory.LastStep(c, Init(), steps);
      RefusedIff(c, steps[..last], r, reason);
      RefusalStep(c, Exec(c, Init(), steps[..last]), steps[last], r, reason);
      forall i: nat | i < last
        ensures RefusedAt(c, steps[..last], i, r, reason) <==> RefusedAt(c, steps, i, r, reason)
      {
        assert steps[..last][..i] == steps[..i];
      }
      if RefusedFor(Exec(c, Init(), steps), r, reason) {
        if i: nat :| RefusedAt(c, steps[..last], i, r, reason) {
          assert RefusedAt(c, steps, i, r, reason);
        } else {
          assert RefusedAt(c, steps, last, r, reason);
        }
      }
      if i: nat :| RefusedAt(c, steps, i, r, reason) && i < last {
        assert RefusedAt(c, steps[..last], i, r, reason);
      }
    }
  }

  // ---- cancellations ----

  /** What the provider's answer makes of a cancellation. */
  ghost predicate Answered(s: State, r: RequestId, answer: CancelAnswer)
    requires r in s.requests && s.requests[r].Unregister?
  {
    match answer
    case Freed => s.requests[r].step.Confirmed? && s.requests[r].step.success
    case NotFreed => s.requests[r].step.Confirmed? && !s.requests[r].step.success
    case UnknownTicket => s.requests[r].step.Missing?
    case CancelFailure(_) => s.requests[r].step == Refused(ServerError)
  }

  /** Only a ticket that the provider does not know is dropped, only an answer confirms, and a
      failure leaves the row to the next cancellation. */
  lemma AnswerDecides(c: Config, s: State, r: RequestId, answer: CancelAnswer)
    requires CanAskCancel(s, r, answer)
    ensures AskCancel(s, r, answer).requests[r].Unregister? && Answered(AskCancel(s, r, answer), r, answer)
    ensures AskCancel(s, r, answer).db == s.db
  {
  }
}
