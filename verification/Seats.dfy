/** The seats cache, the lookup through it, and the machine of interleaved lookups, fills and
    invalidations. */
module Seats {
  import opened Wrappers

  datatype Entry = Entry(seats: seq<string>, storedAt: int)

  /** An expired entry is never returned. */
  function Lookup(entries: map<string, Entry>, ttl: int, eventId: string, now: int): Option<seq<string>> {
    if eventId in entries && now < entries[eventId].storedAt + ttl then Some(entries[eventId].seats) else None
  }

  class SeatsCache {
    var entries: map<string, Entry>
    const ttl: int

    constructor (ttl: int)
      ensures this.ttl == ttl && entries == map[]
    {
      this.ttl := ttl;
      entries := map[];
    }

    method Get(eventId: string, now: int) returns (seats: Option<seq<string>>)
      ensures seats.Some? <==> eventId in entries && now < entries[eventId].storedAt + ttl
      ensures seats.Some? ==> seats.value == entries[eventId].seats
      ensures seats == Lookup(entries, ttl, eventId, now)
    {
      if eventId !in entries || entries[eventId].storedAt + ttl <= now {
        return None;
      }
      return Some(entries[eventId].seats);
    }

    /** `evicted` are the entries that make room for the new one. */
    method Set(eventId: string, seats: seq<string>, now: int, evicted: set<string>)
      modifies this
      ensures entries == (old(entries) - evicted)[eventId := Entry(seats, now)]
    {
      entries := entries - evicted;
      entries := entries[eventId := Entry(seats, now)];
    }

    method Invalidate(eventId: string)
      modifies this
      ensures entries == old(entries) - {eventId}
    {
      entries := entries - {eventId};
    }

    method Clear()
      modifies this
      ensures entries == map[]
    {
      entries := map[];
    }
  }

  /** A list that is set is given out until its time limit, and not from then on. */
  lemma GetAfterSet(entries: map<string, Entry>, ttl: int, eventId: string, seats: seq<string>, storedAt: int,
                    evicted: set<string>, now: int)
    ensures Lookup((entries - evicted)[eventId := Entry(seats, storedAt)], ttl, eventId, now)
            == if now < storedAt + ttl then Some(seats) else None
  {
  }

  /** After an invalidation nothing is given out; other events are not touched. */
  lemma GetAfterInvalidate(entries: map<string, Entry>, ttl: int, eventId: string, other: string, now: int)
    ensures Lookup(entries - {eventId}, ttl, eventId, now) == None
    ensures other != eventId ==> Lookup(entries - {eventId}, ttl, other, now) == Lookup(entries, ttl, other, now)
  {
  }

  datatype SeatsError = EventNotPublished | NoAvailableSeats | ProviderFailure
  datatype ProviderSeats = Listed(seats: seq<string>) | NotFound | Failure

  /** `resolve_available_seats` when nothing else runs during the provider call, which
      returns at `later`. */
  method ResolveAvailableSeats(cache: SeatsCache, eventId: string, published: bool, now: int, later: int,
                               provider: ProviderSeats, evicted: set<string>)
    returns (r: Result<seq<string>, SeatsError>)
    modifies cache
    ensures !published ==> r == Err(EventNotPublished)
    ensures var hit := eventId in old(cache.entries) && now < old(cache.entries)[eventId].storedAt + cache.ttl;
            && (published && hit ==> r == Ok(old(cache.entries)[eventId].seats))
            && (published && !hit ==>
                  r == match provider
                       case Listed(seats) => Ok(seats)
                       case NotFound => Err(NoAvailableSeats)
                       case Failure => Err(ProviderFailure))
            && cache.entries == if published && !hit && provider.Listed?
                                then (old(cache.entries) - evicted)[eventId := Entry(provider.seats, later)]
                                else old(cache.entries)
  {
    if !published {
      return Err(EventNotPublished);
    }
    var cached := cache.Get(eventId, now);
    if cached.Some? {
      return Ok(cached.value);
    }
    match provider {
      case NotFound => return Err(NoAvailableSeats);
      case Failure => return Err(ProviderFailure);
      case Listed(seats) =>
        cache.Set(eventId, seats, later, evicted);
        return Ok(seats);
    }
  }

  // ---- interleaved calls ----

  type CallId = nat

  /** One answer of the provider: `epoch` counts the registrations and cancellations of the
      event that had taken effect there when it was given. */
  datatype Answer = Answer(eventId: string, seats: seq<string>, at: int, epoch: nat)

  datatype Call =
    | Waiting(eventId: string, since: int)
    | Answered(eventId: string, since: int, answer: Answer)
    | ReturnedFresh(eventId: string, since: int, answer: Answer, at: int)
    | ReturnedCached(eventId: string, seats: seq<string>, answer: Answer, storedAt: int, at: int)
    | Raised

  datatype Stored = Stored(answer: Answer, storedAt: int)

  datatype State = State(now: int, ttl: int, cache: map<string, Stored>, epochs: map<string, nat>,
                         answers: set<Answer>, calls: map<CallId, Call>)

  function Init(ttl: int): State {
    State(0, ttl, map[], map[], {}, map[])
  }

  /** The cache as `SeatsCache` holds it. */
  function Entries(s: State): map<string, Entry> {
    map e | e in s.cache :: Entry(s.cache[e].answer.seats, s.cache[e].storedAt)
  }

  function Epoch(s: State, eventId: string): nat {
    if eventId in s.epochs then s.epochs[eventId] else 0
  }

  /** `Take` is a registration or cancellation that takes effect at the provider, whatever
      becomes of it here; `Invalidate` is what a completed one does to the cache. */
  datatype Step =
    | Tick(now: int)
    | Start(call: CallId, eventId: string)
    | Reply(call: CallId, seats: seq<string>)
    | Fill(call: CallId, evicted: set<string>)
    | Raise(call: CallId)
    | Take(eventId: string)
    | Invalidate(eventId: string)
    | Vanish(eventId: string)

  predicate Enabled(s: State, step: Step) {
    match step
    case Tick(now) => s.now <= now
    case Start(call, _) => call !in s.calls
    case Reply(call, _) => call in s.calls && s.calls[call].Waiting?
    case Fill(call, _) => call in s.calls && s.calls[call].Answered?
    case Raise(call) => call in s.calls && (s.calls[call].Waiting? || s.calls[call].Answered?)
    case Take(_) => true
    case Invalidate(_) => true
    case Vanish(_) => true
  }

  function Do(s: State, step: Step): State
    requires Enabled(s, step)
  {
    match step
    case Tick(now) => s.(now := now)
    case Start(call, eventId) =>
      var hit := Lookup(Entries(s), s.ttl, eventId, s.now);
      if hit.Some? then
        var Stored(answer, storedAt) := s.cache[eventId];
        s.(calls := s.calls[call := ReturnedCached(eventId, hit.value, answer, storedAt, s.now)])
      else
        s.(calls := s.calls[call := Waiting(eventId, s.now)])
    case Reply(call, seats) =>
      var Waiting(eventId, since) := s.calls[call];
      var answer := Answer(eventId, seats, s.now, Epoch(s, eventId));
      s.(calls := s.calls[call := Answered(eventId, since, answer)], answers := s.answers + {answer})
    case Fill(call, evicted) =>
      var Answered(eventId, since, answer) := s.calls[call];
      s.(cache := (s.cache - evicted)[eventId := Stored(answer, s.now)],
         calls := s.calls[call := ReturnedFresh(eventId, since, answer, s.now)])
    case Raise(call) => s.(calls := s.calls[call := Raised])
    case Take(eventId) => s.(epochs := s.epochs[eventId := Epoch(s, eventId) + 1])
    case Invalidate(eventId) => s.(cache := s.cache - {eventId})
    case Vanish(eventId) => s.(cache := s.cache - {eventId})
  }

  ghost predicate Run(s: State, steps: seq<Step>)
    decreases |steps|
  {
    steps == [] || (Enabled(s, steps[0]) && Run(Do(s, steps[0]), steps[1..]))
  }

  ghost function Exec(s: State, steps: seq<Step>): State
    requires Run(s, steps)
    decreases |steps|
  {
    if steps == [] then s else Exec(Do(s, steps[0]), steps[1..])
  }

  /** A list that a call returned was given by the provider for that very event: during
      the call, or stored less than the time limit before it was returned. */
  ghost predicate CallGenuine(s: State, call: Call) {
    match call
    case Waiting(_, since) => since <= s.now
    case Answered(eventId, since, answer) =>
      answer in s.answers && answer.eventId == eventId && since <= answer.at <= s.now
    case ReturnedFresh(eventId, since, answer, at) =>
      answer in s.answers && answer.eventId == eventId && since <= answer.at <= at
    case ReturnedCached(eventId, seats, answer, storedAt, at) =>
      && answer in s.answers && answer.eventId == eventId && answer.seats == seats
      && answer.at <= storedAt <= at < storedAt + s.ttl
    case Raised => true
  }

  ghost predicate Genuine(s: State) {
    && (forall e :: e in s.cache ==>
          s.cache[e].answer in s.answers && s.cache[e].answer.eventId == e
          && s.cache[e].answer.at <= s.cache[e].storedAt <= s.now)
    && (forall call :: call in s.calls ==> CallGenuine(s, s.calls[call]))
  }

  /** Nothing that happens later makes a list less genuine. */
  lemma StaysGenuine(s: State, after: State, call: Call)
    requires CallGenuine(s, call) && s.answers <= after.answers && s.now <= after.now && s.ttl == after.ttl
    ensures CallGenuine(after, call)
  {
  }

  lemma CallStep(s: State, step: Step, call: CallId)
    requires Genuine(s) && Enabled(s, step) && call in Do(s, step).calls
    ensures CallGenuine(Do(s, step), Do(s, step).calls[call])
  {
    if call in s.calls {
      assert CallGenuine(s, s.calls[call]);
      StaysGenuine(s, Do(s, step), s.calls[call]);
    }
  }

  lemma GenuineStep(s: State, step: Step)
    requires Genuine(s) && Enabled(s, step)
    ensures Genuine(Do(s, step))
  {
    forall call | call in Do(s, step).calls ensures CallGenuine(Do(s, step), Do(s, step).calls[call]) {
      CallStep(s, step, call);
    }
    if step.Fill? {
      assert CallGenuine(s, s.calls[step.call]);
    }
  }

  lemma {:induction false} GenuineAlong(s: State, steps: seq<Step>)
    requires Genuine(s) && Run(s, steps)
    ensures Genuine(Exec(s, steps)) && Exec(s, steps).ttl == s.ttl
    decreases |steps|
  {
    if steps == [] {
    } else {
      GenuineStep(s, steps[0]);
      GenuineAlong(Do(s, steps[0]), steps[1..]);
    }
  }

  /** The machine treats its entries as `SeatsCache` does: a lookup is a hit exactly while an
      entry is within its time limit, and then gives the stored list; otherwise it waits for
      the provider. Fills and invalidations leave what `Set` and `Invalidate` leave. */
  lemma MachineUsesCache(s: State, step: Step)
    requires Enabled(s, step)
    ensures step.Start? ==>
              var e, call := step.eventId, Do(s, step).calls[step.call];
              var hit := e in Entries(s) && s.now < Entries(s)[e].storedAt + s.ttl;
              && (hit ==> call.ReturnedCached? && call.seats == Entries(s)[e].seats)
              && (!hit ==> call == Waiting(e, s.now))
    ensures step.Fill? ==>
              var answer := s.calls[step.call].answer;
              Entries(Do(s, step)) ==
              (Entries(s) - step.evicted)[s.calls[step.call].eventId := Entry(answer.seats, s.now)]
    ensures step.Invalidate? ==> Entries(Do(s, step)) == Entries(s) - {step.eventId}
    ensures !step.Fill? && !step.Invalidate? && !step.Vanish? ==> Entries(Do(s, step)) == Entries(s)
  {
  }

  /** Bounded staleness, over every interleaving of lookups, fills and invalidations. */
  lemma ReturnedListsAreGenuine(ttl: int, steps: seq<Step>, call: CallId)
    requires Run(Init(ttl), steps) && call in Exec(Init(ttl), steps).calls
    ensures var s := Exec(Init(ttl), steps);
            && CallGenuine(s, s.calls[call])
            && (s.calls[call].ReturnedCached? ==> s.calls[call].at < s.calls[call].storedAt + ttl)
  {
    GenuineAlong(Init(ttl), steps);
  }
}
