/** The concurrency permits under interleaving: scheduling a task is split into taking a
    permit, checking the target agent, launching, and storing the permit with the processing
    list, and any other activity may come in between. */
module PermitProtocol {
  import opened Scheduler

  datatype Flight = Flight(agent: string, plan: Plan, checked: bool)

  /** `inFlight` maps each thread that is between acquire and store to what it launches.
      `owed` records, per task id, the launches stored and not yet completed or cancelled. */
  datatype PermitState = PermitState(
    strategy: Strategy,
    available: nat,
    inFlight: map<nat, Flight>,
    processing: seq<Entry>,
    owed: map<string, nat>)

  datatype Step =
    | Acquire(thread: nat, agent: string, plan: Plan)
    | Check(thread: nat)
    | GiveUp(thread: nat)
    | Store(thread: nat)
    | Remove(id: string)

  predicate Enabled(s: PermitState, step: Step) {
    match step
    case Acquire(thread, _, _) => s.available > 0 && thread !in s.inFlight
    case Check(thread) =>
      thread in s.inFlight && (s.strategy == Parallel || !Busy(s.processing, s.inFlight[thread].agent))
    case GiveUp(thread) => thread in s.inFlight
    case Store(thread) => thread in s.inFlight && s.inFlight[thread].checked && LaunchAgents(s.inFlight[thread].plan, true).Some?
    case Remove(_) => true
  }

  function Owed(s: PermitState, id: string): nat {
    if id in s.owed then s.owed[id] else 0
  }

  /** Storing parses the launched agent ids back; without any, the permit is dropped. */
  function Apply(s: PermitState, step: Step): PermitState
    requires Enabled(s, step)
  {
    match step
    case Acquire(thread, agent, plan) =>
      s.(available := s.available - 1, inFlight := s.inFlight[thread := Flight(agent, plan, false)])
    case Check(thread) =>
      s.(inFlight := s.inFlight[thread := s.inFlight[thread].(checked := true)])
    case GiveUp(thread) =>
      s.(available := s.available + 1, inFlight := s.inFlight - {thread})
    case Store(thread) =>
      var plan := s.inFlight[thread].plan;
      var entries := StoredEntries(LaunchAgents(plan, true).value, true);
      if entries == [] then s.(available := s.available + 1, inFlight := s.inFlight - {thread})
      else s.(inFlight := s.inFlight - {thread},
              processing := s.processing + entries,
              owed := s.owed[plan.id := Owed(s, plan.id) + 1])
    case Remove(id) =>
      s.(available := s.available + PermitsOf(s.processing, id),
         processing := WithoutEntries(s.processing, id),
         owed := s.owed - {id})
  }

  ghost predicate Inv(s: PermitState, limit: nat) {
    && s.available + |s.inFlight| + Permits(s.processing) == limit
    && forall id :: PermitsOf(s.processing, id) == Owed(s, id)
  }

  lemma RemoveKey(m: map<nat, Flight>, k: nat)
    requires k in m
    ensures |m - {k}| == |m| - 1
  {
    assert m == (m - {k})[k := m[k]];
  }

  /** A stored launch adds exactly one permit, under the id of its own task. */
  lemma StorePermits(plan: Plan)
    requires LaunchAgents(plan, true).Some?
    ensures var entries := StoredEntries(LaunchAgents(plan, true).value, true);
            && (entries == [] <==> plan.agents == [])
            && Permits(entries) == (if entries == [] then 0 else 1)
            && forall id :: PermitsOf(entries, id) == if entries != [] && id == plan.id then 1 else 0
  {
    if plan.agents != [] {
      StoredArePlanEntries(plan, true);
      PlanPermits(plan, true);
    }
  }

  lemma ReplaceKey(m: map<nat, Flight>, k: nat, f: Flight)
    requires k in m
    ensures |m[k := f]| == |m|
  {
    assert m[k := f] == (m - {k})[k := f];
    RemoveKey(m, k);
  }

  lemma StoreKeepsInv(s: PermitState, thread: nat, limit: nat)
    requires Inv(s, limit) && Enabled(s, Store(thread))
    ensures Inv(Apply(s, Store(thread)), limit)
  {
    hide Permits, PermitsOf, LaunchAgents, StoredEntries;
    var plan := s.inFlight[thread].plan;
    var entries := StoredEntries(LaunchAgents(plan, true).value, true);
    RemoveKey(s.inFlight, thread);
    StorePermits(plan);
    PermitsConcat(s.processing, entries);
  }

  lemma RemoveKeepsInv(s: PermitState, id: string, limit: nat)
    requires Inv(s, limit)
    ensures Inv(Apply(s, Remove(id)), limit)
  {
    hide Permits, PermitsOf, WithoutEntries;
    PermitsWithout(s.processing, id);
  }

  lemma StepKeepsInv(s: PermitState, step: Step, limit: nat)
    requires Inv(s, limit) && Enabled(s, step)
    ensures Inv(Apply(s, step), limit)
  {
    hide Permits, PermitsOf, LaunchAgents, StoredEntries, WithoutEntries, Busy;
    match step
    case Acquire(thread, _, _) =>
    case Check(thread) =>
      ReplaceKey(s.inFlight, thread, s.inFlight[thread].(checked := true));
    case GiveUp(thread) =>
      RemoveKey(s.inFlight, thread);
    case Store(thread) =>
      StoreKeepsInv(s, thread, limit);
    case Remove(id) =>
      RemoveKeepsInv(s, id, limit);
  }

  predicate CanRun(s: PermitState, steps: seq<Step>)
    decreases |steps|
  {
    steps == [] || (Enabled(s, steps[0]) && CanRun(Apply(s, steps[0]), steps[1..]))
  }

  function After(s: PermitState, steps: seq<Step>): PermitState
    requires CanRun(s, steps)
    decreases |steps|
  {
    if steps == [] then s else After(Apply(s, steps[0]), steps[1..])
  }

  lemma {:induction false} RunKeepsInv(s: PermitState, steps: seq<Step>, limit: nat)
    requires Inv(s, limit) && CanRun(s, steps)
    ensures Inv(After(s, steps), limit)
    decreases |steps|
  {
    if steps != [] {
      StepKeepsInv(s, steps[0], limit);
      RunKeepsInv(Apply(s, steps[0]), steps[1..], limit);
    }
  }

  function InitialState(strategy: Strategy, limit: nat): PermitState {
    PermitState(strategy, limit, map[], [], map[])
  }

  /** In every interleaving the permits in the semaphore, in flight and stored add up to the
      limit, and each task holds one permit per launch of its own that has not ended. */
  lemma PermitsConserved(strategy: Strategy, limit: nat, steps: seq<Step>)
    requires CanRun(InitialState(strategy, limit), steps)
    ensures var s := After(InitialState(strategy, limit), steps);
            && s.available + |s.inFlight| + Permits(s.processing) == limit
            && forall id :: PermitsOf(s.processing, id) == Owed(s, id)
  {
    RunKeepsInv(InitialState(strategy, limit), steps, limit);
  }

  /** Completing a task returns exactly the permits it owes, and touches no other task's. */
  lemma RemoveReturnsOwnPermits(strategy: Strategy, limit: nat, steps: seq<Step>, id: string)
    requires CanRun(InitialState(strategy, limit), steps)
    ensures var s := After(InitialState(strategy, limit), steps);
            var t := Apply(s, Remove(id));
            && t.available == s.available + Owed(s, id) && t.inFlight == s.inFlight
            && PermitsOf(t.processing, id) == 0
            && forall x :: x != id ==> PermitsOf(t.processing, x) == PermitsOf(s.processing, x)
  {
    PermitsConserved(strategy, limit, steps);
    var s := After(InitialState(strategy, limit), steps);
    PermitsWithout(s.processing, id);
  }
}
