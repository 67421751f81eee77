/** Calls that are not interrupted: the steps of the runs, put together, are what the scheduler's
    methods do. */
module SchedulerCalls {
  import opened Text
  import opened Scheduler
  import opened SchedulerLaws
  import opened SchedulerRuns

  /** A submission alone is a read, an installation, a claim and a placement. */
  lemma SubmissionSteps(c: Config, w: World, plan: Plan, planFile: string, now: nat, priority: nat, launches: bool, writes: bool)
    requires plan.id !in w.entering
    ensures var task, s := TaskOf(plan, planFile, now, priority), Loaded(w.state);
            var d := DecisionFor(c, s, plan, planFile, now, priority, launches);
            After(w, [Read, Install(|w.loading|), Claim(plan.id), Place(task, plan, d, writes)])
              == w.(state := Submitted(c, w.state, plan, planFile, now, priority, launches, writes))
  {
    hide Loaded, Decide, Entered, Next, InsertSeen;
    var task := TaskOf(plan, planFile, now, priority);
    var d := DecisionFor(c, Loaded(w.state), plan, planFile, now, priority, launches);
    var e0, e1, e2, e3 := Read, Install(|w.loading|), Claim(plan.id), Place(task, plan, d, writes);
    ReloadIsLoaded(w);
    AfterCons(w, e0, [e1, e2, e3]);
    AfterThree(Next(w, e0), e1, e2, e3);
    assert [e0] + [e1, e2, e3] == [e0, e1, e2, e3];
    ClaimState(Reload(w), plan.id);
    EnterSteps(c, Reload(w), task, plan, launches, writes);
  }

  lemma ClaimState(w: World, id: string)
    ensures Next(w, Claim(id)).state == w.state.(seen := InsertSeen(w.state.seen, id).0)
  {
  }

  /** What the scheduler decides about a task that has just been claimed. */
  function DecisionFor(c: Config, s: State, plan: Plan, planFile: string, now: nat, priority: nat, launches: bool): Decision {
    var (seen, _) := InsertSeen(s.seen, plan.id);
    Decide(c.strategy, s.(seen := seen), TaskOf(plan, planFile, now, priority), Attempt(Some(plan), launches))
  }

  lemma DecisionEnabled(c: Config, s: State, task: Task, plan: Plan, launches: bool)
    ensures var d := Decide(c.strategy, s, task, Attempt(Some(plan), launches));
            d != ParseError && (d == Started ==> CanStart(s, Some(plan)))
  {
    hide Busy;
  }

  /** Behind the load, and for a delivered task, it is a claim and a placement. */
  lemma EnterSteps(c: Config, w: World, task: Task, plan: Plan, launches: bool, writes: bool)
    requires task.id !in w.entering && plan.id == task.id
    ensures var u := Next(w, Claim(task.id));
            var d := Decide(c.strategy, u.state, task, Attempt(Some(plan), launches));
            Next(u, Place(task, plan, d, writes)) == w.(state := Entered(c, w.state, task, plan, launches, writes))
  {
    hide Placed, Decide, CanStart;
    var u := Next(w, Claim(task.id));
    DecisionEnabled(c, u.state, task, plan, launches);
    assert (w.entering + multiset{task.id}) - multiset{task.id} == w.entering;
  }

  lemma AfterThree(w: World, e0: Event, e1: Event, e2: Event)
    ensures After(w, [e0, e1, e2]) == Next(Next(Next(w, e0), e1), e2)
  {
    hide Next;
    assert [e0, e1, e2][..2] == [e0, e1] && [e0, e1][..1] == [e0] && [e0][..0] == [];
    assert After(w, []) == w;
    assert After(w, [e0]) == Next(w, e0);
    assert After(w, [e0, e1]) == Next(Next(w, e0), e1);
  }

  lemma {:induction false} AfterCons(w: World, e: Event, events: seq<Event>)
    ensures After(w, [e] + events) == After(Next(w, e), events)
    decreases |events|
  {
    hide Next;
    var all := [e] + events;
    if events == [] {
      assert all == [e] && [e][..0] == [];
    } else {
      assert all[..|all| - 1] == [e] + events[..|events| - 1];
      AfterCons(w, e, events[..|events| - 1]);
    }
  }

  /** The attempts of a pass, each on the first task that was not tried yet: `kept` have stayed. */
  function TrySteps(strategy: Strategy, s: State, tasks: seq<Task>, attempts: nat -> Attempt, k: nat, kept: nat): seq<Event>
    requires k <= |tasks|
    decreases |tasks| - k
  {
    if k == |tasks| then []
    else
      var d := Decide(strategy, s, tasks[k], attempts(k));
      [Try(kept, attempts(k).plan, d)] +
        TrySteps(strategy, AfterDecision(s, attempts(k).plan, d), tasks, attempts, k + 1, if d == Started then kept else kept + 1)
  }

  lemma {:induction false} TryStepsRun(c: Config, w: World, tasks: seq<Task>, attempts: nat -> Attempt, k: nat, remaining: seq<Task>)
    requires k <= |tasks| && w.passes > 0 && w.held == remaining + tasks[k..]
    ensures var ds := Decisions(c.strategy, w.state, tasks, attempts, k);
            After(w, TrySteps(c.strategy, w.state, tasks, attempts, k, |remaining|))
              == w.(state := AfterPass(c.strategy, w.state, tasks, attempts, k), held := remaining + Select(tasks[k..], ds, false))
    decreases |tasks| - k
  {
    hide Decide, AfterDecision, Next, Select, After, AfterPass, Decisions;
    if k == |tasks| {
      NothingLeft(c, w, tasks, attempts, remaining);
    } else {
      var d := Decide(c.strategy, w.state, tasks[k], attempts(k));
      var left := if d == Started then remaining else remaining + [tasks[k]];
      var e := Try(|remaining|, attempts(k).plan, d);
      var u := Next(w, e);
      TryFirst(c, w, tasks, attempts(k), k, remaining);
      TryStepsRun(c, u, tasks, attempts, k + 1, left);
      AfterCons(w, e, TrySteps(c.strategy, u.state, tasks, attempts, k + 1, |left|));
      PassStep(c.strategy, w.state, tasks, attempts, k);
      SelectLeft(tasks, k, d, Decisions(c.strategy, u.state, tasks, attempts, k + 1), remaining);
    }
  }

  lemma NothingLeft(c: Config, w: World, tasks: seq<Task>, attempts: nat -> Attempt, remaining: seq<Task>)
    requires w.held == remaining + tasks[|tasks|..]
    ensures var ds := Decisions(c.strategy, w.state, tasks, attempts, |tasks|);
            && After(w, []) == w && w.held == remaining + Select(tasks[|tasks|..], ds, false)
            && AfterPass(c.strategy, w.state, tasks, attempts, |tasks|) == w.state
  {
  }

  lemma AttemptEnabled(strategy: Strategy, s: State, task: Task, attempt: Attempt)
    ensures Decide(strategy, s, task, attempt) == Started ==> CanStart(s, attempt.plan)
  {
    hide Busy;
  }

  /** One attempt on the first task that was not tried yet. */
  lemma TryFirst(c: Config, w: World, tasks: seq<Task>, attempt: Attempt, k: nat, remaining: seq<Task>)
    requires k < |tasks| && w.passes > 0 && w.held == remaining + tasks[k..]
    ensures var d := Decide(c.strategy, w.state, tasks[k], attempt);
            Next(w, Try(|remaining|, attempt.plan, d)) == w.(state := AfterDecision(w.state, attempt.plan, d),
              held := (if d == Started then remaining else remaining + [tasks[k]]) + tasks[k + 1..])
  {
    hide Decide, AfterDecision, CanStart;
    AttemptEnabled(c.strategy, w.state, tasks[k], attempt);
    var n := |remaining|;
    assert tasks[k..] == [tasks[k]] + tasks[k + 1..];
    assert w.held[n] == tasks[k];
    assert w.held[..n] == remaining && w.held[n + 1..] == tasks[k + 1..];
    assert w.held == (remaining + [tasks[k]]) + tasks[k + 1..];
    NotStartedKeeps(w.state, attempt.plan, Decide(c.strategy, w.state, tasks[k], attempt));
  }

  lemma SelectLeft(tasks: seq<Task>, k: nat, d: Decision, rest: seq<Decision>, remaining: seq<Task>)
    requires k < |tasks| && |rest| == |tasks| - k - 1
    ensures remaining + Select(tasks[k..], [d] + rest, false)
              == (if d == Started then remaining else remaining + [tasks[k]]) + Select(tasks[k + 1..], rest, false)
  {
    assert tasks[k..][1..] == tasks[k + 1..] && ([d] + rest)[1..] == rest;
  }

  lemma NotStartedKeeps(s: State, plan: Option<Plan>, d: Decision)
    ensures d != Started ==> AfterDecision(s, plan, d) == s
  {
  }

  /** A pass alone is draining, one attempt per task in queue order, and putting back what stayed. */
  lemma PassSteps(c: Config, w: World, attempts: nat -> Attempt, writes: bool)
    requires w.passes == 0 && w.held == []
    ensures var tasks, s := SortTasks(w.state.pending), w.state.(pending := []);
            var stayed := Select(tasks, Decisions(c.strategy, s, tasks, attempts, 0), false);
            var u := After(Next(w, Drain), TrySteps(c.strategy, s, tasks, attempts, 0, 0));
            u.held == stayed && Next(u, PutBack(stayed, [], writes)) == w.(state := Processed(c, w.state, attempts, writes))
  {
    hide SortTasks, Decisions, AfterPass, Select, TrySteps, After;
    var tasks, s := SortTasks(w.state.pending), w.state.(pending := []);
    var ds := Decisions(c.strategy, s, tasks, attempts, 0);
    var stayed := Select(tasks, ds, false);
    assert [] + tasks == tasks && tasks[0..] == tasks && [] + stayed == stayed;
    TryStepsRun(c, Next(w, Drain), tasks, attempts, 0, []);
    PassFrame(c.strategy, s, tasks, attempts, 0);
    assert multiset(stayed) + multiset([]) == multiset(stayed);
  }

  // ---------- the guard of a whole submission ----------

  /** A submission keeps the queue free of duplicates, after its load, its claim and its placement,
      exactly when what it reloads is safe and the dedup set is below its cap or nothing else is going on. */
  lemma SubmissionExact(w: World, plan: Plan, task: Task, d: Decision, writes: bool)
    requires Inv(w)
    ensures var w1 := Reload(w);
            var w2 := Next(w1, Claim(plan.id));
            var w3 := Next(w2, Place(task, plan, d, writes));
            Inv(w1) && Inv(w2) && Inv(w3) <==>
              (Loaded(w.state) == w.state || ReloadSafe(w, Reloadable(w.state))) && (|w.state.seen| < SEEN_IDS_CAP || Idle(w1))
  {
    hide Inv, Safe, Next, Idle, ReloadSafe, Reload, Reloadable;
    var w1 := Reload(w);
    var w2 := Next(w1, Claim(plan.id));
    var e := Place(task, plan, d, writes);
    LoadExact(w);
    ReloadIsLoaded(w);
    if Inv(w1) {
      StepExact(w1, Claim(plan.id));
      ClaimGuard(w1, plan.id);
      if Inv(w2) {
        StepExact(w2, e);
        OthersSafe(w2, e);
      }
    }
  }

  lemma ClaimGuard(w: World, id: string)
    ensures Safe(w, Claim(id)) <==> |w.state.seen| < SEEN_IDS_CAP || Idle(w)
  {
  }
}
