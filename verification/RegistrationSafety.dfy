/** What every reachable state of the registration protocol satisfies. */
module RegistrationSafety {
  import opened Wrappers
  import opened Outbox
  import opened Fingerprint
  import opened Registration

  // ---- locks and keys ----

  /** No advisory lock has two holders. */
  ghost predicate LockDiscipline(c: Config, s: State) {
    forall r, r' :: r in s.requests && r' in s.requests && Holds(s.requests[r]) && Holds(s.requests[r'])
                    && c.hashtext(s.requests[r].key.value) == c.hashtext(s.requests[r'].key.value)
      ==> r == r'
  }

  /** A registration that found its key unused and still holds the lock is right about it. */
  ghost predicate KeysUnused(s: State) {
    forall r :: r in s.requests && Holds(s.requests[r]) && !s.requests[r].phase.Locked? ==>
      s.requests[r].key.value !in s.db.keys
  }

  lemma RegisterKeepsLocks(c: Config, s: State, r: RequestId, step: RegisterStep)
    requires LockDiscipline(c, s) && CanRegister(c, s, r, step)
    ensures LockDiscipline(c, RegisterTo(c, s, r, step))
  {
  }

  /** Keys are only added by a registration that holds their lock, so no other
      registration past its check is proved wrong. */
  lemma RegisterKeepsKeysUnused(c: Config, s: State, r: RequestId, step: RegisterStep)
    requires LockDiscipline(c, s) && KeysUnused(s) && CanRegister(c, s, r, step)
    ensures KeysUnused(RegisterTo(c, s, r, step))
  {
  }

  lemma CancelKeepsLocks(c: Config, s: State, r: RequestId, step: CancelStep)
    requires LockDiscipline(c, s) && KeysUnused(s) && CanCancel(s, r, step)
    ensures LockDiscipline(c, CancelTo(s, r, step)) && KeysUnused(CancelTo(s, r, step))
  {
  }

  lemma PublishKeepsLocks(c: Config, s: State, w: WorkerId, step: PublishStep)
    requires LockDiscipline(c, s) && KeysUnused(s) && CanPublish(c, s, w, step)
    ensures LockDiscipline(c, PublishTo(c, s, w, step)) && KeysUnused(PublishTo(c, s, w, step))
  {
  }

  lemma LocksStep(c: Config, s: State, step: Step)
    requires LockDiscipline(c, s) && KeysUnused(s) && Enabled(c, s, step)
    ensures LockDiscipline(c, Do(c, s, step)) && KeysUnused(Do(c, s, step))
  {
    match step {
      case Registering(r, register) =>
        RegisterKeepsLocks(c, s, r, register);
        RegisterKeepsKeysUnused(c, s, r, register);
      case Cancelling(r, cancel) => CancelKeepsLocks(c, s, r, cancel);
      case Publishing(w, publish) => PublishKeepsLocks(c, s, w, publish);
    }
  }

  // ---- purchases ----

  /** A ticket row lies under the id that the provider gives to its event and seat. */
  ghost predicate TicketsNamed(c: Config, s: State) {
    && (forall t :: t in s.db.tickets ==> t == TicketOf(c, s.db.tickets[t]))
    && (forall r :: AtGranted(s, r) ==> s.requests[r].phase.ticketId == TicketOf(c, s.requests[r].form))
  }

  /** The purchased rows of the outbox are exactly the recorded purchases, with the same
      ticket. */
  ghost predicate PurchasesInOutbox(s: State) {
    && (forall id :: id in s.past.purchases <==> id in s.db.outbox && s.db.outbox[id].eventType.TicketPurchased?)
    && (forall id :: id in s.past.purchases ==>
          s.db.outbox[id].payload.Purchase? && s.db.outbox[id].payload.ticketId == s.past.purchases[id].ticketId)
  }

  /** The ticket of a registration that has committed or answered. */
  function Obtained(q: Request): Option<TicketId> {
    if !q.Register? then None
    else
      match q.phase
      case Committed(t) => Some(t)
      case Replied(t) => Some(t)
      case Vanished(t) => Some(t)
      case _ => None
  }

  /** Every purchase belongs to one request, which committed it and was not denied. */
  ghost predicate PurchasesOwned(c: Config, s: State) {
    && (forall id :: id in s.past.purchases ==>
          var p := s.past.purchases[id];
          && p.request in s.requests
          && Obtained(s.requests[p.request]) == Some(p.ticketId)
          && s.requests[p.request].key == p.key
          && p.requestHash == RequestHash(c.sha256, s.requests[p.request].form)
          && TicketOf(c, s.requests[p.request].form) == p.ticketId)
    && (forall id, id' | id in s.past.purchases && id' in s.past.purchases ::
          s.past.purchases[id].request == s.past.purchases[id'].request ==> id == id')
  }

  /** The payload of a purchase row repeats the form of the request that committed it. */
  ghost predicate PayloadsTraced(s: State) {
    forall id :: id in s.past.purchases ==>
      && id in s.db.outbox
      && s.past.purchases[id].request in s.requests
      && s.requests[s.past.purchases[id].request].Register?
      && Repeats(s.db.outbox[id].payload, s.requests[s.past.purchases[id].request].form)
  }

  predicate Repeats(payload: Payload, form: Form) {
    && payload.Purchase?
    && payload.eventId == form.eventId && payload.seat == form.seat
    && payload.firstName == form.firstName && payload.lastName == form.lastName && payload.email == form.email
  }

  /** A ticket row is the form of the request that bought it last. */
  ghost predicate TicketsTraced(s: State) {
    forall t :: t in s.db.tickets ==>
      && t in s.past.sold
      && var id := s.past.sold[t];
      && id in s.past.purchases
      && s.past.purchases[id].ticketId == t
      && s.past.purchases[id].request in s.requests
      && s.requests[s.past.purchases[id].request].Register?
      && s.requests[s.past.purchases[id].request].form == s.db.tickets[t]
  }

  /** Each stored key comes from one purchase, and each purchase with a key stored it. */
  ghost predicate KeysTraced(s: State) {
    && (forall k :: k in s.past.origin <==> k in s.db.keys)
    && (forall k :: k in s.past.origin ==>
          var id := s.past.origin[k];
          && id in s.past.purchases
          && s.past.purchases[id].key == Some(k)
          && s.db.keys[k] == KeyRecord(s.past.purchases[id].requestHash, s.past.purchases[id].ticketId))
    && (forall id :: id in s.past.purchases && s.past.purchases[id].key.Some? ==>
          s.past.purchases[id].key.value in s.past.origin
          && s.past.origin[s.past.purchases[id].key.value] == id)
  }

  /** What a request with a key committed or answered is what the key stores. */
  ghost predicate KeysAgree(c: Config, s: State) {
    forall r :: r in s.requests && Obtained(s.requests[r]).Some? && s.requests[r].key.Some? ==>
      && s.requests[r].key.value in s.db.keys
      && s.db.keys[s.requests[r].key.value]
         == KeyRecord(RequestHash(c.sha256, s.requests[r].form), Obtained(s.requests[r]).value)
  }

  /** A reply repeats what its request obtained. */
  ghost predicate RepliesHonest(c: Config, s: State) {
    forall r :: r in s.past.replies ==>
      && r in s.requests && s.requests[r].Register?
      && s.requests[r].phase == Replied(s.past.replies[r].ticketId)
      && s.past.replies[r].key == s.requests[r].key
      && s.past.replies[r].requestHash == RequestHash(c.sha256, s.requests[r].form)
  }

  ghost predicate Ledger(c: Config, s: State) {
    && TicketsNamed(c, s)
    && PurchasesInOutbox(s)
    && PurchasesOwned(c, s)
    && PayloadsTraced(s)
    && TicketsTraced(s)
    && KeysTraced(s)
    && KeysAgree(c, s)
    && RepliesHonest(c, s)
  }

  /** A step of a registration other than its commit: tables and purchases stay, and the
      request keeps its form, its key and whatever it obtained. */
  ghost predicate Mild(c: Config, s: State, after: State, r: RequestId) {
    && after.db == s.db
    && after.past.purchases == s.past.purchases && after.past.origin == s.past.origin
    && after.past.sold == s.past.sold
    && r in after.requests && after.requests[r].Register?
    && (forall r' :: r' != r ==> (r' in after.requests <==> r' in s.requests))
    && (forall r' :: r' in s.requests && r' != r ==> after.requests[r'] == s.requests[r'])
    && (AtGranted(after, r) ==> after.requests[r].phase.ticketId == TicketOf(c, after.requests[r].form))
    && (r in s.requests ==>
          && s.requests[r].Register?
          && after.requests[r].key == s.requests[r].key
          && after.requests[r].form == s.requests[r].form
          && (Obtained(s.requests[r]).Some? ==> Obtained(after.requests[r]) == Obtained(s.requests[r])))
  }

  /** Only request `r` changes, to `q`, which keeps form, key and ticket. */
  lemma ChangeIsMild(c: Config, s: State, after: State, r: RequestId, q: Request)
    requires r in s.requests && s.requests[r].Register? && after.requests == s.requests[r := q]
    requires q.Register? && q.form == s.requests[r].form && q.key == s.requests[r].key
    requires Obtained(s.requests[r]).Some? ==> Obtained(q) == Obtained(s.requests[r])
    requires q.phase.Granted? ==> q.phase.ticketId == TicketOf(c, q.form)
    requires after.db == s.db && after.past.purchases == s.past.purchases
    requires after.past.origin == s.past.origin && after.past.sold == s.past.sold
    ensures Mild(c, s, after, r)
  {
  }

  lemma RegisterIsMild(c: Config, s: State, r: RequestId, step: RegisterStep)
    requires TicketsNamed(c, s) && CanRegister(c, s, r, step) && !step.DoCommitPurchase?
    ensures Mild(c, s, RegisterTo(c, s, r, step), r)
  {
    if step.DoArrive? {
    } else {
      assert AtGranted(s, r) ==> s.requests[r].phase.ticketId == TicketOf(c, s.requests[r].form);
      var after := RegisterTo(c, s, r, step);
      ChangeIsMild(c, s, after, r, after.requests[r]);
    }
  }

  lemma MildKeepsPurchases(c: Config, s: State, after: State, r: RequestId)
    requires PurchasesOwned(c, s) && Mild(c, s, after, r)
    ensures PurchasesOwned(c, after)
  {
  }

  lemma MildKeepsTables(c: Config, s: State, after: State, r: RequestId)
    requires TicketsNamed(c, s) && PurchasesInOutbox(s) && KeysTraced(s) && Mild(c, s, after, r)
    ensures TicketsNamed(c, after) && PurchasesInOutbox(after) && KeysTraced(after)
  {
  }

  lemma MildKeepsTicketsTraced(c: Config, s: State, after: State, r: RequestId)
    requires TicketsTraced(s) && Mild(c, s, after, r)
    ensures TicketsTraced(after)
  {
  }

  lemma MildKeepsPayloads(c: Config, s: State, after: State, r: RequestId)
    requires PayloadsTraced(s) && Mild(c, s, after, r)
    ensures PayloadsTraced(after)
  {
  }

  lemma CommitKeepsPayloads(c: Config, s: State, r: RequestId, id: OutboxId, now: int)
    requires PayloadsTraced(s) && CanCommitPurchase(s, r, id)
    ensures PayloadsTraced(CommitPurchase(c, s, r, id, now))
  {
    var after := CommitPurchase(c, s, r, id, now);
    forall i | i in s.past.purchases
      ensures after.past.purchases[i] == s.past.purchases[i] && after.db.outbox[i] == s.db.outbox[i]
    {
      assert i != id;
    }
    assert forall q :: q in s.requests && s.requests[q].Register? ==> after.requests[q].form == s.requests[q].form;
  }

  lemma OutsideKeepsPayloads(s: State, after: State)
    requires PayloadsTraced(s) && OutsideLedger(s, after)
    ensures PayloadsTraced(after)
  {
  }

  lemma CommitKeepsTicketsTraced(c: Config, s: State, r: RequestId, id: OutboxId, now: int)
    requires PurchasesInOutbox(s) && TicketsTraced(s) && CanCommitPurchase(s, r, id)
    ensures TicketsTraced(CommitPurchase(c, s, r, id, now))
  {
  }

  lemma OutsideKeepsTicketsTraced(s: State, after: State)
    requires TicketsTraced(s) && OutsideLedger(s, after)
    ensures TicketsTraced(after)
  {
  }

  lemma RegisterKeepsKeysAgree(c: Config, s: State, r: RequestId, step: RegisterStep)
    requires KeysAgree(c, s) && CanRegister(c, s, r, step) && !step.DoCommitPurchase?
    ensures KeysAgree(c, RegisterTo(c, s, r, step))
  {
  }

  lemma CheckKeyKeepsRepliesHonest(c: Config, s: State, r: RequestId)
    requires RepliesHonest(c, s) && CanCheckKey(s, r)
    ensures RepliesHonest(c, CheckKey(c, s, r))
  {
  }

  lemma RegisterKeepsRepliesHonest(c: Config, s: State, r: RequestId, step: RegisterStep)
    requires RepliesHonest(c, s) && CanRegister(c, s, r, step) && !step.DoCommitPurchase? && !step.DoCheckKey?
    ensures RepliesHonest(c, RegisterTo(c, s, r, step))
  {
    var after := RegisterTo(c, s, r, step);
    if step.DoReply? {
    } else {
      UnrepliedKeepsHonest(c, s, after, r);
    }
  }

  /** A request that has not replied yet may change without touching any reply. */
  lemma UnrepliedKeepsHonest(c: Config, s: State, after: State, r: RequestId)
    requires RepliesHonest(c, s) && after.past.replies == s.past.replies && r !in s.past.replies
    requires r in after.requests && after.requests == s.requests[r := after.requests[r]]
    ensures RepliesHonest(c, after)
  {
  }

  lemma CommitKeepsTables(c: Config, s: State, r: RequestId, id: OutboxId, now: int)
    requires TicketsNamed(c, s) && PurchasesInOutbox(s) && CanCommitPurchase(s, r, id)
    ensures var after := CommitPurchase(c, s, r, id, now);
            TicketsNamed(c, after) && PurchasesInOutbox(after)
  {
  }

  lemma CommitKeepsPurchases(c: Config, s: State, r: RequestId, id: OutboxId, now: int)
    requires TicketsNamed(c, s) && PurchasesInOutbox(s) && PurchasesOwned(c, s) && CanCommitPurchase(s, r, id)
    ensures PurchasesOwned(c, CommitPurchase(c, s, r, id, now))
  {
    var after := CommitPurchase(c, s, r, id, now);
    forall i | i in s.past.purchases
      ensures s.past.purchases[i].request != r && after.past.purchases[i] == s.past.purchases[i]
    {
    }
  }

  lemma CommitKeepsKeysTraced(c: Config, s: State, r: RequestId, id: OutboxId, now: int)
    requires PurchasesInOutbox(s) && KeysTraced(s) && CanCommitPurchase(s, r, id)
    ensures KeysTraced(CommitPurchase(c, s, r, id, now))
  {
    var after := CommitPurchase(c, s, r, id, now);
    assert id !in s.past.purchases;
    forall k | k in s.past.origin ensures k in after.past.origin && after.past.origin[k] == s.past.origin[k] {
    }
  }

  lemma CommitKeepsReplies(c: Config, s: State, r: RequestId, id: OutboxId, now: int)
    requires KeysAgree(c, s) && RepliesHonest(c, s) && CanCommitPurchase(s, r, id)
    ensures var after := CommitPurchase(c, s, r, id, now);
            KeysAgree(c, after) && RepliesHonest(c, after)
  {
  }

  lemma RegisterKeepsLedger(c: Config, s: State, r: RequestId, step: RegisterStep)
    requires Ledger(c, s) && CanRegister(c, s, r, step)
    ensures Ledger(c, RegisterTo(c, s, r, step))
  {
    if step.DoCommitPurchase? {
      CommitKeepsTables(c, s, r, step.id, step.now);
      CommitKeepsPurchases(c, s, r, step.id, step.now);
      CommitKeepsPayloads(c, s, r, step.id, step.now);
      CommitKeepsTicketsTraced(c, s, r, step.id, step.now);
      CommitKeepsKeysTraced(c, s, r, step.id, step.now);
      CommitKeepsReplies(c, s, r, step.id, step.now);
    } else {
      RegisterIsMild(c, s, r, step);
      MildKeepsPurchases(c, s, RegisterTo(c, s, r, step), r);
      MildKeepsTables(c, s, RegisterTo(c, s, r, step), r);
      MildKeepsPayloads(c, s, RegisterTo(c, s, r, step), r);
      MildKeepsTicketsTraced(c, s, RegisterTo(c, s, r, step), r);
      RegisterKeepsKeysAgree(c, s, r, step);
      if step.DoCheckKey? {
        CheckKeyKeepsRepliesHonest(c, s, r);
      } else {
        RegisterKeepsRepliesHonest(c, s, r, step);
      }
    }
  }

  /** Cancellations and publishing leave registrations, keys and purchases alone. */
  ghost predicate OutsideLedger(s: State, after: State) {
    && after.db.keys == s.db.keys
    && after.past.purchases == s.past.purchases && after.past.origin == s.past.origin
    && after.past.sold == s.past.sold
    && after.past.replies == s.past.replies
    && (forall t :: t in after.db.tickets ==> t in s.db.tickets && after.db.tickets[t] == s.db.tickets[t])
    && (forall r :: r in after.requests && after.requests[r].Register? ==>
         r in s.requests && after.requests[r] == s.requests[r])
    && (forall r :: r in s.requests && s.requests[r].Register? ==>
         r in after.requests && after.requests[r] == s.requests[r])
    && (forall id :: id in s.db.outbox ==>
          id in after.db.outbox && after.db.outbox[id].eventType == s.db.outbox[id].eventType
          && after.db.outbox[id].payload == s.db.outbox[id].payload)
    && (forall id :: id in after.db.outbox && id !in s.db.outbox ==> !after.db.outbox[id].eventType.TicketPurchased?)
  }

  lemma OutsideKeepsPurchases(c: Config, s: State, after: State)
    requires TicketsNamed(c, s) && PurchasesInOutbox(s) && PurchasesOwned(c, s) && OutsideLedger(s, after)
    ensures TicketsNamed(c, after) && PurchasesInOutbox(after) && PurchasesOwned(c, after)
  {
  }

  lemma OutsideKeepsKeys(c: Config, s: State, after: State)
    requires KeysTraced(s) && KeysAgree(c, s) && RepliesHonest(c, s) && OutsideLedger(s, after)
    ensures KeysTraced(after) && KeysAgree(c, after) && RepliesHonest(c, after)
  {
  }

  lemma CancelIsOutside(s: State, r: RequestId, step: CancelStep)
    requires CanCancel(s, r, step)
    ensures OutsideLedger(s, CancelTo(s, r, step))
  {
  }

  lemma PublishIsOutside(c: Config, s: State, w: WorkerId, step: PublishStep)
    requires CanPublish(c, s, w, step)
    ensures OutsideLedger(s, PublishTo(c, s, w, step))
  {
  }

  lemma LedgerStep(c: Config, s: State, step: Step)
    requires Ledger(c, s) && Enabled(c, s, step)
    ensures Ledger(c, Do(c, s, step))
  {
    match step {
      case Registering(r, register) =>
        RegisterKeepsLedger(c, s, r, register);
      case Cancelling(r, cancel) =>
        CancelIsOutside(s, r, cancel);
        OutsideKeepsPurchases(c, s, CancelTo(s, r, cancel));
        OutsideKeepsPayloads(s, CancelTo(s, r, cancel));
        OutsideKeepsTicketsTraced(s, CancelTo(s, r, cancel));
        OutsideKeepsKeys(c, s, CancelTo(s, r, cancel));
      case Publishing(w, publish) =>
        PublishIsOutside(c, s, w, publish);
        OutsideKeepsPurchases(c, s, PublishTo(c, s, w, publish));
        OutsideKeepsPayloads(s, PublishTo(c, s, w, publish));
        OutsideKeepsTicketsTraced(s, PublishTo(c, s, w, publish));
        OutsideKeepsKeys(c, s, PublishTo(c, s, w, publish));
    }
  }

  // ---- what was vetted ----

  /** What a registration must see: an event that is published, open and has the seat. */
  predicate Allows(view: EventView, form: Form, eventName: string) {
    && view.Event? && view.name == eventName
    && view.published && !view.deadlinePassed
    && view.seats.Seats? && form.seat in view.seats.seats
  }

  /** Whoever is past the checks, and whoever bought, saw an event that allowed it; the
      purchase row carries the name of that event. */
  ghost predicate Vetting(s: State) {
    && (forall r :: r in s.requests && s.requests[r].Register? && PastChecks(s.requests[r].phase) ==>
          r in s.past.views && Allows(s.past.views[r], s.requests[r].form, s.requests[r].phase.eventName))
    && (forall id :: id in s.past.purchases ==>
          && id in s.db.outbox && s.db.outbox[id].payload.Purchase?
          && var r := s.past.purchases[id].request;
          && r in s.past.views && r in s.requests && s.requests[r].Register?
          && Allows(s.past.views[r], s.requests[r].form, s.db.outbox[id].payload.eventName))
  }

  predicate PastChecks(phase: Phase) {
    phase.Admitted? || phase.Granted?
  }

  lemma VettedIff(form: Form, view: EventView)
    ensures Vetted(form, view).Admitted? <==> Allows(view, form, if view.Event? then view.name else "")
    ensures Vetted(form, view).Admitted? ==> Vetted(form, view).eventName == view.name
    ensures !PastChecks(Vetted(form, view)) ==> Vetted(form, view).Denied?
  {
  }

  lemma VetKeepsVetting(c: Config, s: State, r: RequestId, view: EventView)
    requires Vetting(s) && PurchasesOwned(c, s) && CanVet(s, r)
    ensures Vetting(Vet(s, r, view))
  {
    VettedIff(s.requests[r].form, view);
    var after := Vet(s, r, view);
    forall q | q in after.requests && after.requests[q].Register? && PastChecks(after.requests[q].phase)
      ensures q in after.past.views &&
              Allows(after.past.views[q], after.requests[q].form, after.requests[q].phase.eventName)
    {
      assert q != r ==> after.requests[q] == s.requests[q];
    }
    forall id | id in s.past.purchases ensures s.past.purchases[id].request != r {
      assert Obtained(s.requests[s.past.purchases[id].request]).Some?;
    }
  }

  lemma CommitKeepsVetting(c: Config, s: State, r: RequestId, id: OutboxId, now: int)
    requires Vetting(s) && CanCommitPurchase(s, r, id)
    ensures Vetting(CommitPurchase(c, s, r, id, now))
  {
    var after := CommitPurchase(c, s, r, id, now);
    assert Allows(s.past.views[r], s.requests[r].form, s.requests[r].phase.eventName);
    forall i | i in s.past.purchases
      ensures after.past.purchases[i] == s.past.purchases[i] && after.db.outbox[i] == s.db.outbox[i]
    {
      assert i != id;
    }
  }

  lemma RegisterKeepsVetting(c: Config, s: State, r: RequestId, step: RegisterStep)
    requires Vetting(s) && TicketsNamed(c, s) && PurchasesOwned(c, s) && CanRegister(c, s, r, step)
    ensures Vetting(RegisterTo(c, s, r, step))
  {
    if step.DoVet? {
      VetKeepsVetting(c, s, r, step.view);
    } else if step.DoCommitPurchase? {
      CommitKeepsVetting(c, s, r, step.id, step.now);
    } else {
      RegisterIsMild(c, s, r, step);
      OthersPassNoCheck(c, s, r, step);
      MildKeepsVetting(c, s, RegisterTo(c, s, r, step), r);
    }
  }

  /** No other step brings a registration past the checks or changes the name that it saw. */
  lemma OthersPassNoCheck(c: Config, s: State, r: RequestId, step: RegisterStep)
    requires CanRegister(c, s, r, step) && !step.DoVet? && !step.DoCommitPurchase?
    ensures RegisterTo(c, s, r, step).past.views == s.past.views
    ensures r in RegisterTo(c, s, r, step).requests
    ensures NoNewCheck(s, RegisterTo(c, s, r, step), r)
  {
    if step.DoAskProvider? {
    } else if step.DoLoseConnection? {
    } else {
      assert !PastChecks(RegisterTo(c, s, r, step).requests[r].phase);
    }
  }

  ghost predicate NoNewCheck(s: State, after: State, r: RequestId)
    requires r in after.requests
  {
    after.requests[r].Register? && PastChecks(after.requests[r].phase) ==>
      && r in s.requests && s.requests[r].Register? && PastChecks(s.requests[r].phase)
      && after.requests[r].phase.eventName == s.requests[r].phase.eventName
  }

  lemma MildKeepsVetting(c: Config, s: State, after: State, r: RequestId)
    requires Vetting(s) && Mild(c, s, after, r) && after.past.views == s.past.views && NoNewCheck(s, after, r)
    ensures Vetting(after)
  {
  }

  lemma OutsideKeepsVetting(s: State, after: State)
    requires Vetting(s) && OutsideLedger(s, after) && after.past.views == s.past.views
    ensures Vetting(after)
  {
  }

  lemma CancelKeepsVetting(s: State, r: RequestId, step: CancelStep)
    requires Vetting(s) && CanCancel(s, r, step)
    ensures Vetting(CancelTo(s, r, step))
  {
    CancelIsOutside(s, r, step);
    OutsideKeepsVetting(s, CancelTo(s, r, step));
  }

  lemma PublishKeepsVetting(c: Config, s: State, w: WorkerId, step: PublishStep)
    requires Vetting(s) && CanPublish(c, s, w, step)
    ensures Vetting(PublishTo(c, s, w, step))
  {
    PublishIsOutside(c, s, w, step);
    OutsideKeepsVetting(s, PublishTo(c, s, w, step));
  }

  lemma VettingStep(c: Config, s: State, step: Step)
    requires Vetting(s) && TicketsNamed(c, s) && PurchasesOwned(c, s) && Enabled(c, s, step)
    ensures Vetting(Do(c, s, step))
  {
    match step {
      case Registering(r, register) => RegisterKeepsVetting(c, s, r, register);
      case Cancelling(r, cancel) =>
        CancelKeepsVetting(s, r, cancel);
      case Publishing(w, publish) =>
        PublishKeepsVetting(c, s, w, publish);
    }
  }
}
