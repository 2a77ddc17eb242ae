/** What the steps of a run tell about the provider's live registrations. */
module LiveHistory {
  import opened Outbox
  import opened Registration

  /** After the steps `before`, the provider grants ticket `t`, whether or not its reply
      arrives. */
  ghost predicate Grants(c: Config, before: seq<Step>, step: Step, t: TicketId) {
    && step.Registering? && step.register.DoAskProvider? && step.register.grant.Grant?
    && exists form, key :: Registering(step.r, DoArrive(form, key)) in before && TicketOf(c, form) == t
  }

  /** After the steps `before`, the provider gives ticket `t` up, whether or not its reply
      arrives. */
  ghost predicate Frees(before: seq<Step>, step: Step, t: TicketId) {
    && step.Cancelling? && step.cancel.DoAskCancel?
    && (step.cancel.answer == Freed || step.cancel.answer == CancelFailure(true))
    && Cancelling(step.r, DoArriveCancel(t)) in before
  }

  /** The last of the provider's answers about `t` that changed anything granted it. */
  ghost predicate Held(c: Config, steps: seq<Step>, t: TicketId) {
    if steps == [] then false
    else
      var last := |steps| - 1;
      if Grants(c, steps[..last], steps[last], t) then true
      else !Frees(steps[..last], steps[last], t) && Held(c, steps[..last], t)
  }

  lemma {:induction false} LastStep(c: Config, s: State, steps: seq<Step>)
    requires Run(c, s, steps) && steps != []
    ensures var last := |steps| - 1;
            && Run(c, s, steps[..last])
            && Enabled(c, Exec(c, s, steps[..last]), steps[last])
            && Exec(c, s, steps) == Do(c, Exec(c, s, steps[..last]), steps[last])
    decreases |steps|
  {
    var last := |steps| - 1;
    if last == 0 {
      assert steps[..0] == [] && steps[1..] == [];
    } else {
      LastStep(c, Do(c, s, steps[0]), steps[1..]);
      assert steps[1..][..last - 1] == steps[..last][1..];
      assert steps[..last][0] == steps[0];
    }
  }

  // ---- who asked for what ----

  /** A request is about what it arrived with. */
  ghost predicate ArrivedAs(steps: seq<Step>, s: State) {
    RegistersArrived(steps, s) && CancelsArrived(steps, s)
  }

  ghost predicate RegistersArrived(steps: seq<Step>, s: State) {
    && (forall r :: r in s.requests && s.requests[r].Register? ==>
          Registering(r, DoArrive(s.requests[r].form, s.requests[r].key)) in steps)
    && (forall r, form, key :: Registering(r, DoArrive(form, key)) in steps ==>
          r in s.requests && s.requests[r].Register? && s.requests[r].form == form)
  }

  ghost predicate CancelsArrived(steps: seq<Step>, s: State) {
    && (forall r :: r in s.requests && s.requests[r].Unregister? ==>
          Cancelling(r, DoArriveCancel(s.requests[r].ticketId)) in steps)
    && (forall r, t :: Cancelling(r, DoArriveCancel(t)) in steps ==>
          r in s.requests && s.requests[r].Unregister? && s.requests[r].ticketId == t)
  }

  /** What a step leaves as it was in the requests. */
  ghost predicate KeepsIdentity(s: State, after: State, step: Step) {
    && (forall r :: r in s.requests ==>
          && r in after.requests && after.requests[r].Register? == s.requests[r].Register?
          && (s.requests[r].Register? ==>
                after.requests[r].form == s.requests[r].form && after.requests[r].key == s.requests[r].key)
          && (s.requests[r].Unregister? ==> after.requests[r].ticketId == s.requests[r].ticketId))
    && (forall r :: r in after.requests && r !in s.requests ==>
          if after.requests[r].Register? then
            step == Registering(r, DoArrive(after.requests[r].form, after.requests[r].key))
          else step == Cancelling(r, DoArriveCancel(after.requests[r].ticketId)))
  }

  lemma RegisterKeepsIdentity(c: Config, s: State, r: RequestId, step: RegisterStep)
    requires CanRegister(c, s, r, step)
    ensures KeepsIdentity(s, RegisterTo(c, s, r, step), Registering(r, step))
  {
  }

  lemma CancelKeepsIdentity(s: State, r: RequestId, step: CancelStep)
    requires CanCancel(s, r, step)
    ensures KeepsIdentity(s, CancelTo(s, r, step), Cancelling(r, step))
  {
  }

  /** A step that is an arrival brings the request that it names. */
  ghost predicate Brings(after: State, step: Step) {
    match step
    case Registering(r, DoArrive(form, _)) =>
      r in after.requests && after.requests[r].Register? && after.requests[r].form == form
    case Cancelling(r, DoArriveCancel(t)) =>
      r in after.requests && after.requests[r].Unregister? && after.requests[r].ticketId == t
    case _ => true
  }

  lemma InLonger(steps: seq<Step>, step: Step, x: Step)
    ensures x in steps + [step] <==> x in steps || x == step
  {
  }

  lemma RegistersArrivedStep(steps: seq<Step>, s: State, after: State, step: Step)
    requires RegistersArrived(steps, s) && KeepsIdentity(s, after, step) && Brings(after, step)
    ensures RegistersArrived(steps + [step], after)
  {
    forall r | r in after.requests && after.requests[r].Register?
      ensures Registering(r, DoArrive(after.requests[r].form, after.requests[r].key)) in steps + [step]
    {
      InLonger(steps, step, Registering(r, DoArrive(after.requests[r].form, after.requests[r].key)));
    }
    forall r, form, key | Registering(r, DoArrive(form, key)) in steps + [step]
      ensures r in after.requests && after.requests[r].Register? && after.requests[r].form == form
    {
      InLonger(steps, step, Registering(r, DoArrive(form, key)));
    }
  }

  lemma CancelsArrivedStep(steps: seq<Step>, s: State, after: State, step: Step)
    requires CancelsArrived(steps, s) && KeepsIdentity(s, after, step) && Brings(after, step)
    ensures CancelsArrived(steps + [step], after)
  {
    forall r | r in after.requests && after.requests[r].Unregister?
      ensures Cancelling(r, DoArriveCancel(after.requests[r].ticketId)) in steps + [step]
    {
      InLonger(steps, step, Cancelling(r, DoArriveCancel(after.requests[r].ticketId)));
    }
    forall r, t | Cancelling(r, DoArriveCancel(t)) in steps + [step]
      ensures r in after.requests && after.requests[r].Unregister? && after.requests[r].ticketId == t
    {
      InLonger(steps, step, Cancelling(r, DoArriveCancel(t)));
    }
  }

  lemma ArrivedStep(c: Config, steps: seq<Step>, s: State, step: Step)
    requires ArrivedAs(steps, s) && Enabled(c, s, step) && KeepsIdentity(s, Do(c, s, step), step)
    ensures ArrivedAs(steps + [step], Do(c, s, step))
  {
    RegistersArrivedStep(steps, s, Do(c, s, step), step);
    CancelsArrivedStep(steps, s, Do(c, s, step), step);
  }

  lemma {:induction false} RunArrived(c: Config, steps: seq<Step>)
    requires Run(c, Init(), steps)
    ensures ArrivedAs(steps, Exec(c, Init(), steps))
    decreases |steps|
  {
    if steps == [] {
    } else {
      var last := |steps| - 1;
      LastStep(c, Init(), steps);
      RunArrived(c, steps[..last]);
      var s, step := Exec(c, Init(), steps[..last]), steps[last];
      match step {
        case Registering(r, register) => RegisterKeepsIdentity(c, s, r, register);
        case Cancelling(r, cancel) => CancelKeepsIdentity(s, r, cancel);
        case Publishing(w, publish) =>
      }
      ArrivedStep(c, steps[..last], s, step);
      assert steps[..last] + [step] == steps;
    }
  }

  // ---- what is live ----

  /** A step changes what is live exactly by granting and freeing. */
  lemma LiveStep(c: Config, steps: seq<Step>, s: State, step: Step, t: TicketId)
    requires ArrivedAs(steps, s) && Enabled(c, s, step)
    ensures t in Do(c, s, step).live <==>
            Grants(c, steps, step, t) || (!Frees(steps, step, t) && t in s.live)
  {
    match step {
      case Registering(r, register) =>
        if register.DoAskProvider? {
          assert Registering(r, DoArrive(s.requests[r].form, s.requests[r].key)) in steps;
        }
      case Cancelling(r, cancel) =>
      case Publishing(w, publish) =>
    }
  }

  /** The provider has a ticket exactly if it granted it and did not give it up since. */
  lemma {:induction false} LiveIff(c: Config, steps: seq<Step>, t: TicketId)
    requires Run(c, Init(), steps)
    ensures t in Exec(c, Init(), steps).live <==> Held(c, steps, t)
    decreases |steps|
  {
    if steps == [] {
    } else {
      var last := |steps| - 1;
      LastStep(c, Init(), steps);
      RunArrived(c, steps[..last]);
      LiveStep(c, steps[..last], Exec(c, Init(), steps[..last]), steps[last], t);
      LiveIff(c, steps[..last], t);
    }
  }

  // ---- a purchase that is committed too late ----

  /** Request `r` is granted ticket `t` at `i`, the provider gives `t` up at `j`, and does not
      grant it again. */
  ghost predicate FreedSince(c: Config, steps: seq<Step>, r: RequestId, t: TicketId, i: nat, j: nat) {
    && i < j < |steps|
    && steps[i] == Registering(r, DoAskProvider(Grant(true))) && Grants(c, steps[..i], steps[i], t)
    && Frees(steps[..j], steps[j], t)
    && forall k :: j < k < |steps| ==> !Grants(c, steps[..k], steps[k], t)
  }

  /** Where the last change of a ticket that is not held was. */
  lemma {:induction false} NotHeldSince(c: Config, steps: seq<Step>, t: TicketId, i: nat) returns (j: nat)
    requires i < |steps| && Grants(c, steps[..i], steps[i], t) && !Held(c, steps, t)
    ensures i < j < |steps| && Frees(steps[..j], steps[j], t)
    ensures forall k :: j < k < |steps| ==> !Grants(c, steps[..k], steps[k], t)
    decreases |steps|
  {
    var last := |steps| - 1;
    if Frees(steps[..last], steps[last], t) {
      j := last;
    } else {
      assert i != last;
      assert steps[..last][..i] == steps[..i];
      j := NotHeldSince(c, steps[..last], t, i);
      assert steps[..last][..j] == steps[..j];
      assert forall k :: 0 <= k < last ==> steps[..last][..k] == steps[..k];
    }
  }

  lemma {:induction false} FreedIsNotHeld(c: Config, steps: seq<Step>, t: TicketId, j: nat)
    requires j < |steps| && Frees(steps[..j], steps[j], t)
    requires forall k :: j < k < |steps| ==> !Grants(c, steps[..k], steps[k], t)
    ensures !Held(c, steps, t)
    decreases |steps|
  {
    var last := |steps| - 1;
    if j == last {
    } else {
      assert steps[..last][..j] == steps[..j];
      assert forall k :: 0 <= k < last ==> steps[..last][..k] == steps[..k];
      FreedIsNotHeld(c, steps[..last], t, j);
    }
  }

  /** A registration that was granted its ticket has the step that granted it. */
  lemma {:induction false} GrantedAt(c: Config, steps: seq<Step>, r: RequestId) returns (i: nat)
    requires Run(c, Init(), steps) && AtGranted(Exec(c, Init(), steps), r)
    ensures i < |steps| && steps[i] == Registering(r, DoAskProvider(Grant(true)))
    ensures Grants(c, steps[..i], steps[i], Exec(c, Init(), steps).requests[r].phase.ticketId)
    decreases |steps|
  {
    var last := |steps| - 1;
    LastStep(c, Init(), steps);
    RunArrived(c, steps[..last]);
    var s, step := Exec(c, Init(), steps[..last]), steps[last];
    if AtGranted(s, r) {
      i := GrantedAt(c, steps[..last], r);
      assert steps[..last][..i] == steps[..i];
      GrantStays(c, s, step, r);
    } else {
      i := last;
      GrantBegins(c, s, step, r);
      assert Registering(r, DoArrive(s.requests[r].form, s.requests[r].key)) in steps[..last];
    }
  }

  lemma GrantStays(c: Config, s: State, step: Step, r: RequestId)
    requires Enabled(c, s, step) && AtGranted(s, r) && AtGranted(Do(c, s, step), r)
    ensures Do(c, s, step).requests[r].phase == s.requests[r].phase
  {
    if step.Registering? {
      if step.r == r {
        assert step.register.DoLoseConnection?;
      } else {
        assert RegisterTo(c, s, step.r, step.register).requests[r] == s.requests[r];
      }
    }
  }

  lemma GrantBegins(c: Config, s: State, step: Step, r: RequestId)
    requires Enabled(c, s, step) && !AtGranted(s, r) && AtGranted(Do(c, s, step), r)
    ensures step == Registering(r, DoAskProvider(Grant(true))) && r in s.requests && s.requests[r].Register?
    ensures Do(c, s, step).requests[r].phase.ticketId == TicketOf(c, s.requests[r].form)
  {
    if step.Registering? {
      assert step.r == r;
    }
  }

  lemma UnheldIff(c: Config, steps: seq<Step>, r: RequestId)
    requires Run(c, Init(), steps) && AtGranted(Exec(c, Init(), steps), r)
    ensures var s := Exec(c, Init(), steps);
            var t := s.requests[r].phase.ticketId;
            t !in s.live <==> exists i, j :: FreedSince(c, steps, r, t, i, j)
  {
    var s := Exec(c, Init(), steps);
    var t := s.requests[r].phase.ticketId;
    LiveIff(c, steps, t);
    if t !in s.live {
      var i := GrantedAt(c, steps, r);
      var j := NotHeldSince(c, steps, t, i);
      assert FreedSince(c, steps, r, t, i, j);
    }
    if i, j :| FreedSince(c, steps, r, t, i, j) {
      FreedIsNotHeld(c, steps, t, j);
    }
  }

  /** At any point of any run, a commit sells a ticket without a live registration if and only
      if the provider gave the ticket up after granting it to that request and did not grant
      it again. */
  lemma SoldUnheldIff(c: Config, steps: seq<Step>, r: RequestId, id: OutboxId, now: int)
    requires Run(c, Init(), steps) && CanCommitPurchase(Exec(c, Init(), steps), r, id)
    ensures var s := Exec(c, Init(), steps);
            var t := s.requests[r].phase.ticketId;
            var after := CommitPurchase(c, s, r, id, now);
            && t in after.db.tickets
            && (t !in after.live <==> exists i, j :: FreedSince(c, steps, r, t, i, j))
  {
    UnheldIff(c, steps, r);
  }
}
