/** Mutual exclusion of synchronisations in one process. Tasks of one event loop switch only
    where they wait; the lock is a class attribute, so all services share it. */
module SyncLock {
  import opened Wrappers

  type TaskId = nat

  datatype Outcome = Finished | Raised | WasCancelled | AlreadyRunning

  /** Where a call of `sync` stands. */
  datatype Place =
    | AtCheck
    | AtAcquire
    | Waiting
    | Inside
    | Done(outcome: Outcome)

  /** `running` is the task that the event loop is executing right now. */
  datatype State = State(tasks: map<TaskId, Place>, holder: Option<TaskId>, running: Option<TaskId>)

  function Init(): State {
    State(map[], None, None)
  }

  datatype Step =
    | Call(t: TaskId)
    | Check(t: TaskId)
    | Acquire(t: TaskId)
    | Suspend(t: TaskId)
    | Resume(t: TaskId)
    | Leave(t: TaskId, outcome: Outcome)

  predicate Enabled(s: State, step: Step) {
    match step
    case Call(t) => s.running.None? && t !in s.tasks
    case Check(t) => s.running == Some(t) && t in s.tasks && s.tasks[t].AtCheck?
    case Acquire(t) => s.running == Some(t) && t in s.tasks && s.tasks[t].AtAcquire?
    case Suspend(t) => s.running == Some(t) && t in s.tasks && s.tasks[t].Inside?
    case Resume(t) => s.running.None? && t in s.tasks && (s.tasks[t].Inside? || (s.tasks[t].Waiting? && s.holder.None?))
    case Leave(t, outcome) =>
      s.running == Some(t) && t in s.tasks && s.tasks[t].Inside? && !outcome.AlreadyRunning?
  }

  /** The check and the acquisition are two steps of one task; only waiting for the lock or
      for something inside the body gives the event loop back. */
  function Do(s: State, step: Step): State
    requires Enabled(s, step)
  {
    match step
    case Call(t) => s.(tasks := s.tasks[t := AtCheck], running := Some(t))
    case Check(t) =>
      if s.holder.Some? then s.(tasks := s.tasks[t := Done(AlreadyRunning)], running := None)
      else s.(tasks := s.tasks[t := AtAcquire])
    case Acquire(t) =>
      if s.holder.Some? then s.(tasks := s.tasks[t := Waiting], running := None)
      else s.(tasks := s.tasks[t := Inside], holder := Some(t))
    case Suspend(t) => s.(running := None)
    case Resume(t) => s.(tasks := s.tasks[t := Inside], holder := Some(t), running := Some(t))
    case Leave(t, outcome) => s.(tasks := s.tasks[t := Done(outcome)], holder := None, running := None)
  }

  ghost predicate Run(s: State, steps: seq<Step>)
    decreases |steps|
  {
    steps == [] || (Enabled(s, steps[0]) && Run(Do(s, steps[0]), steps[1..]))
  }

  ghost function Exec(s: State, steps: seq<Step>): State
    requires Run(s, steps)
    decreases |steps|
  {
    if steps == [] then s else Exec(Do(s, steps[0]), steps[1..])
  }

  /** At most one body is active and it holds the lock; nobody waits; a task that passed
      the check still runs, and the lock is still free. */
  ghost predicate Exclusive(s: State) {
    && (forall t :: t in s.tasks && s.tasks[t].Inside? <==> s.holder == Some(t))
    && (forall t :: t in s.tasks ==> !s.tasks[t].Waiting?)
    && (forall t :: t in s.tasks && s.tasks[t].AtAcquire? ==> s.running == Some(t) && s.holder.None?)
  }

  lemma ExclusiveStep(s: State, step: Step)
    requires Exclusive(s) && Enabled(s, step)
    ensures Exclusive(Do(s, step))
  {
  }

  lemma {:induction false} ExclusiveAlong(s: State, steps: seq<Step>)
    requires Exclusive(s) && Run(s, steps)
    ensures Exclusive(Exec(s, steps))
    decreases |steps|
  {
    if steps == [] {
    } else {
      ExclusiveStep(s, steps[0]);
      ExclusiveAlong(Do(s, steps[0]), steps[1..]);
    }
  }

  /** Over every run: two active bodies are the same, nobody ever waits for the lock, and
      the lock is free as soon as no body is active, however the last one ended. */
  lemma MutualExclusion(steps: seq<Step>)
    requires Run(Init(), steps)
    ensures var s := Exec(Init(), steps);
            && (forall t, u | t in s.tasks && u in s.tasks :: s.tasks[t].Inside? && s.tasks[u].Inside? ==> t == u)
            && (forall t :: t in s.tasks ==> !s.tasks[t].Waiting?)
            && ((forall t :: t in s.tasks ==> !s.tasks[t].Inside?) <==> s.holder.None?)
  {
    ExclusiveAlong(Init(), steps);
    var s := Exec(Init(), steps);
    if s.holder.Some? {
      assert s.tasks[s.holder.value].Inside?;
    }
  }

  /** A call is turned away exactly if a body is active when it arrives. */
  lemma TurnedAwayIff(steps: seq<Step>, t: TaskId)
    requires Run(Init(), steps) && Enabled(Exec(Init(), steps), Check(t))
    ensures var s := Exec(Init(), steps);
            Do(s, Check(t)).tasks[t] == Done(AlreadyRunning) <==> exists u :: u in s.tasks && s.tasks[u].Inside?
  {
    ExclusiveAlong(Init(), steps);
    var s := Exec(Init(), steps);
    if s.holder.Some? {
      assert s.holder.value in s.tasks && s.tasks[s.holder.value].Inside?;
    }
  }
}
