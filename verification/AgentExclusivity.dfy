/** When no agent has two tasks: exactly as long as every store adds different agents of which none
    is busy at that moment. The scheduler checks less than that. */
module AgentExclusivity {
  import opened Text
  import opened Scheduler
  import opened PermitProtocol

  /** No agent has two entries. */
  predicate Exclusive(entries: seq<Entry>) {
    forall i, j :: 0 <= i < j < |entries| ==> entries[i].agent != entries[j].agent
  }

  predicate DifferentAgents(plan: Plan) {
    forall i, j :: 0 <= i < j < |plan.agents| ==> plan.agents[i] != plan.agents[j]
  }

  /** The check that keeps agents exclusive: all agents of the plan, not only the first. */
  predicate AllFree(entries: seq<Entry>, plan: Plan) {
    DifferentAgents(plan) && forall a :: a in plan.agents ==> !Busy(entries, a)
  }

  lemma ExclusiveConcat(a: seq<Entry>, b: seq<Entry>)
    ensures Exclusive(a + b) <==> Exclusive(a) && Exclusive(b) && forall j :: 0 <= j < |b| ==> !Busy(a, b[j].agent)
  {
    var all, n := a + b, |a|;
    if Exclusive(all) {
      forall i, j | 0 <= i < j < |a|
        ensures a[i].agent != a[j].agent
      {
        assert all[i].agent != all[j].agent;
      }
      forall i, j | 0 <= i < j < |b|
        ensures b[i].agent != b[j].agent
      {
        assert all[n + i].agent != all[n + j].agent;
      }
      forall i, j | 0 <= i < n && 0 <= j < |b|
        ensures a[i].agent != b[j].agent
      {
        assert all[i].agent != all[n + j].agent;
      }
    }
  }

  /** Storing a plan keeps agents exclusive exactly when its agents are different and all free. */
  lemma StoreExact(entries: seq<Entry>, plan: Plan)
    requires Exclusive(entries)
    ensures Exclusive(entries + PlanEntries(plan, true)) <==> AllFree(entries, plan)
  {
    hide Busy, PlanEntries;
    var added := PlanEntries(plan, true);
    ExclusiveConcat(entries, added);
    assert forall k :: 0 <= k < |added| ==> added[k].agent == plan.agents[k];
    assert Exclusive(added) <==> DifferentAgents(plan);
  }

  // ---------- one call at a time ----------

  /** A start keeps agents exclusive exactly when all agents of the plan are different and free. */
  lemma StartExact(c: Config, s: State, task: Task, plan: Plan, launches: bool)
    requires Exclusive(s.processing)
    ensures var d := Decide(c.strategy, s, task, Attempt(Some(plan), launches));
            Exclusive(AfterDecision(s, Some(plan), d).processing) <==> d != Started || AllFree(s.processing, plan)
  {
    hide LaunchAgents, PlanEntries, Busy;
    StoreExact(s.processing, plan);
  }

  /** Under a waiting strategy that is guaranteed for plans with one agent, the one that is checked. */
  lemma OneAgentIsSafe(c: Config, s: State, task: Task, plan: Plan, launches: bool)
    requires Exclusive(s.processing) && c.strategy != Parallel && plan.agents == [task.agent]
    ensures Exclusive(AfterDecision(s, Some(plan), Decide(c.strategy, s, task, Attempt(Some(plan), launches))).processing)
  {
    hide LaunchAgents, PlanEntries;
    StartExact(c, s, task, plan, launches);
  }

  /** A submission checks the first agent of its plan only: one uninterrupted call gives a second
      agent, which is busy, a second task. */
  lemma SecondAgentUnchecked(c: Config, s: State, plan: Plan, a: string, b: string, planFile: string, now: nat, priority: nat, writes: bool)
    requires Exclusive(s.processing) && s.available > 0
    requires plan.agents == [a, b] && !Busy(s.processing, a) && Busy(s.processing, b)
    requires LaunchAgents(plan, true).Some? && plan.id !in s.seen && |s.seen| < SEEN_IDS_CAP
    ensures var t := Submitted(c, s, plan, planFile, now, priority, true, writes);
            && t.processing == s.processing + [Entry(plan.id, a, true), Entry(plan.id, b, false)]
            && !Exclusive(t.processing)
  {
    hide LaunchAgents, Busy, Reloadable;
    var task := TaskOf(plan, planFile, now, priority);
    var t := Loaded(s).(seen := s.seen + {plan.id});
    StartExact(c, t, task, plan, true);
    assert b in plan.agents;
    assert PlanEntries(plan, true) == [Entry(plan.id, a, true), Entry(plan.id, b, false)];
  }

  // ---------- interleaved calls ----------

  /** The check on a step: only a store can give an agent a second task. */
  predicate StoreSafe(s: PermitState, step: Step) {
    step.Store? && step.thread in s.inFlight ==> AllFree(s.processing, s.inFlight[step.thread].plan)
  }

  lemma {:induction false} RemoveKeepsExclusive(entries: seq<Entry>, id: string)
    requires Exclusive(entries)
    ensures Exclusive(WithoutEntries(entries, id))
    ensures forall e :: e in WithoutEntries(entries, id) ==> e in entries
  {
    if entries != [] {
      var rest := WithoutEntries(entries[1..], id);
      assert forall i :: 0 <= i < |entries[1..]| ==> entries[1..][i] == entries[i + 1];
      RemoveKeepsExclusive(entries[1..], id);
      forall j | 0 <= j < |rest|
        ensures rest[j].agent != entries[0].agent
      {
        assert rest[j] in entries[1..];
      }
    }
  }

  /** In the interleaved protocol, a step keeps agents exclusive exactly when it is no store, or
      stores different agents that are all free at that moment. */
  lemma StepExact(s: PermitState, step: Step)
    requires Exclusive(s.processing) && Enabled(s, step)
    ensures Exclusive(Apply(s, step).processing) <==> StoreSafe(s, step)
  {
    hide LaunchAgents, PlanEntries, Busy, StoredEntries, WithoutEntries;
    match step
    case Store(thread) =>
      var plan := s.inFlight[thread].plan;
      StoredPlan(plan);
      StoreExact(s.processing, plan);
      assert s.processing + [] == s.processing;
    case Remove(id) => RemoveKeepsExclusive(s.processing, id);
    case Acquire(_, _, _) =>
    case Check(_) =>
    case GiveUp(_) =>
  }

  lemma StoredPlan(plan: Plan)
    requires LaunchAgents(plan, true).Some?
    ensures StoredEntries(LaunchAgents(plan, true).value, true) == PlanEntries(plan, true)
  {
    if plan.agents != [] { StoredArePlanEntries(plan, true); }
  }

  ghost predicate AlwaysExclusive(s: PermitState, steps: seq<Step>)
    requires CanRun(s, steps)
    decreases |steps|
  {
    Exclusive(s.processing) && (steps != [] ==> AlwaysExclusive(Apply(s, steps[0]), steps[1..]))
  }

  ghost predicate StoresSafe(s: PermitState, steps: seq<Step>)
    requires CanRun(s, steps)
    decreases |steps|
  {
    steps != [] ==> StoreSafe(s, steps[0]) && StoresSafe(Apply(s, steps[0]), steps[1..])
  }

  /** In every interleaving no agent ever has two tasks exactly when every store is safe. */
  lemma {:induction false} RunExact(s: PermitState, steps: seq<Step>)
    requires Exclusive(s.processing) && CanRun(s, steps)
    ensures AlwaysExclusive(s, steps) <==> StoresSafe(s, steps)
    decreases |steps|
  {
    hide Exclusive, StoreSafe;
    if steps != [] {
      StepExact(s, steps[0]);
      if StoreSafe(s, steps[0]) {
        RunExact(Apply(s, steps[0]), steps[1..]);
      }
    }
  }

  /** The check and the store are apart: two threads find an agent free, and the second store, which
      is not safe any more, gives it a second task under every strategy. */
  lemma AgentTakenTwice(strategy: Strategy, limit: nat, p: Plan, q: Plan, agent: string)
    requires limit >= 2 && p.agents == [agent] && q.agents == [agent]
    requires LaunchAgents(p, true).Some? && LaunchAgents(q, true).Some?
    ensures var steps := [Acquire(0, agent, p), Acquire(1, agent, q), Check(0), Check(1), Store(0), Store(1)];
            && CanRun(InitialState(strategy, limit), steps)
            && After(InitialState(strategy, limit), steps).processing == [Entry(p.id, agent, true), Entry(q.id, agent, true)]
            && !AlwaysExclusive(InitialState(strategy, limit), steps)
  {
    hide LaunchAgents, StoredEntries, Permits, PermitsOf;
    StoreOne(p, agent);
    StoreOne(q, agent);
    var s0 := InitialState(strategy, limit);
    var steps := [Acquire(0, agent, p), Acquire(1, agent, q), Check(0), Check(1), Store(0), Store(1)];
    var s1 := Apply(s0, steps[0]);
    var s2 := Apply(s1, steps[1]);
    var s3 := Apply(s2, steps[2]);
    var s4 := Apply(s3, steps[3]);
    var s5 := Apply(s4, steps[4]);
    var s6 := Apply(s5, steps[5]);
    RunOne(s5, steps[5..], s6);
    RunOne(s4, steps[4..], s6);
    RunOne(s3, steps[3..], s6);
    RunOne(s2, steps[2..], s6);
    RunOne(s1, steps[1..], s6);
    RunOne(s0, steps[0..], s6);
    assert steps[0..] == steps;
    assert s6.processing[0].agent == s6.processing[1].agent;
    ExclusiveAtEnd(s0, steps);
  }

  lemma StoreOne(plan: Plan, agent: string)
    requires plan.agents == [agent] && LaunchAgents(plan, true).Some?
    ensures StoredEntries(LaunchAgents(plan, true).value, true) == [Entry(plan.id, agent, true)]
  {
    StoredArePlanEntries(plan, true);
  }

  lemma RunOne(s: PermitState, steps: seq<Step>, end: PermitState)
    requires steps != [] && Enabled(s, steps[0])
    requires CanRun(Apply(s, steps[0]), steps[1..]) && After(Apply(s, steps[0]), steps[1..]) == end
    ensures CanRun(s, steps) && After(s, steps) == end
  {
  }

  lemma {:induction false} ExclusiveAtEnd(s: PermitState, steps: seq<Step>)
    requires CanRun(s, steps)
    ensures AlwaysExclusive(s, steps) ==> Exclusive(After(s, steps).processing)
    decreases |steps|
  {
    if steps != [] { ExclusiveAtEnd(Apply(s, steps[0]), steps[1..]); }
  }
}
