/** What the queue order, a single pass and a single submission guarantee. */
module SchedulerLaws {
  import opened Text
  import opened TaskFiles
  import opened Scheduler
  import TaskBags

  // ---------- the order of the queue ----------

  lemma {:induction false} InsertMultiset(t: Task, xs: seq<Task>)
    ensures multiset(Insert(t, xs)) == multiset{t} + multiset(xs)
  {
    if xs != [] && Before(xs[0], t) {
      InsertMultiset(t, xs[1..]);
      assert xs == [xs[0]] + xs[1..];
    }
  }

  lemma {:induction false} InsertMembers(t: Task, xs: seq<Task>)
    ensures forall x :: x in Insert(t, xs) <==> x == t || x in xs
  {
    if xs != [] && Before(xs[0], t) {
      InsertMembers(t, xs[1..]);
      assert xs == [xs[0]] + xs[1..];
    }
  }

  lemma {:induction false} InsertSorted(t: Task, xs: seq<Task>)
    requires Sorted(xs)
    ensures Sorted(Insert(t, xs))
  {
    if xs != [] && Before(xs[0], t) {
      var rest := Insert(t, xs[1..]);
      InsertSorted(t, xs[1..]);
      InsertMembers(t, xs[1..]);
      SortedCons(xs[0], rest);
    } else {
      SortedCons(t, xs);
    }
  }

  lemma SortedCons(x: Task, xs: seq<Task>)
    requires Sorted(xs) && forall y :: y in xs ==> !Before(y, x)
    ensures Sorted([x] + xs)
  {
  }

  lemma {:induction false} SortLaws(xs: seq<Task>)
    ensures Sorted(SortTasks(xs))
    ensures multiset(SortTasks(xs)) == multiset(xs)
  {
    if xs != [] {
      SortLaws(xs[1..]);
      InsertSorted(xs[0], SortTasks(xs[1..]));
      InsertMultiset(xs[0], SortTasks(xs[1..]));
      assert xs == [xs[0]] + xs[1..];
    }
  }

  predicate Precedes(xs: seq<Task>, x: Task, y: Task) {
    exists i, j :: 0 <= i < j < |xs| && xs[i] == x && xs[j] == y
  }

  lemma PrecedesCons(h: Task, xs: seq<Task>, x: Task, y: Task)
    requires Precedes(xs, x, y) || (h == x && y in xs)
    ensures Precedes([h] + xs, x, y)
  {
    var all := [h] + xs;
    if Precedes(xs, x, y) {
      var i, j :| 0 <= i < j < |xs| && xs[i] == x && xs[j] == y;
      assert all[i + 1] == x && all[j + 1] == y;
    } else {
      var j :| 0 <= j < |xs| && xs[j] == y;
      assert all[0] == x && all[j + 1] == y;
    }
  }

  lemma {:induction false} InsertKeepsOrder(t: Task, xs: seq<Task>, x: Task, y: Task)
    requires Precedes(xs, x, y)
    ensures Precedes(Insert(t, xs), x, y)
  {
    if !Before(xs[0], t) {
      PrecedesCons(t, xs, x, y);
    } else {
      var rest := xs[1..];
      assert xs == [xs[0]] + rest;
      var i, j :| 0 <= i < j < |xs| && xs[i] == x && xs[j] == y;
      if i > 0 {
        assert rest[i - 1] == x && rest[j - 1] == y;
        InsertKeepsOrder(t, rest, x, y);
      } else {
        assert rest[j - 1] == y;
        InsertMembers(t, rest);
      }
      PrecedesCons(xs[0], Insert(t, rest), x, y);
    }
  }

  lemma {:induction false} InsertedBefore(t: Task, xs: seq<Task>, y: Task)
    requires y in xs && !Before(y, t)
    ensures Precedes(Insert(t, xs), t, y)
  {
    if !Before(xs[0], t) {
      PrecedesCons(t, xs, t, y);
    } else {
      assert xs == [xs[0]] + xs[1..];
      InsertedBefore(t, xs[1..], y);
      PrecedesCons(xs[0], Insert(t, xs[1..]), t, y);
    }
  }

  /** Sorting is stable: a task that was queued earlier stays in front of a later one, unless that has a
      higher priority, or the same and an earlier time. */
  lemma {:induction false} SortKeepsOrder(xs: seq<Task>, i: nat, j: nat)
    requires i < j < |xs|
    requires xs[i].priority > xs[j].priority || (xs[i].priority == xs[j].priority && xs[i].submittedAt <= xs[j].submittedAt)
    ensures Precedes(SortTasks(xs), xs[i], xs[j])
  {
    var rest := xs[1..];
    if i > 0 {
      SortKeepsOrder(rest, i - 1, j - 1);
      InsertKeepsOrder(xs[0], SortTasks(rest), xs[i], xs[j]);
    } else {
      SortLaws(rest);
      assert rest[j - 1] == xs[j] && xs[j] in multiset(rest);
      InsertedBefore(xs[0], SortTasks(rest), xs[j]);
    }
  }

  // ---------- conservation ----------

  lemma {:induction false} SelectSplits(xs: seq<Task>, ds: seq<Decision>)
    requires |xs| == |ds|
    ensures multiset(Select(xs, ds, true)) + multiset(Select(xs, ds, false)) == multiset(xs)
  {
    if xs != [] {
      SelectSplits(xs[1..], ds[1..]);
      assert xs == [xs[0]] + xs[1..];
    }
  }

  lemma {:induction false} SelectSorted(xs: seq<Task>, ds: seq<Decision>, started: bool)
    requires |xs| == |ds| && Sorted(xs)
    ensures Sorted(Select(xs, ds, started))
    ensures forall x :: x in Select(xs, ds, started) ==> x in xs
  {
    if xs != [] {
      var rest := Select(xs[1..], ds[1..], started);
      SelectSorted(xs[1..], ds[1..], started);
      assert forall j :: 0 <= j < |rest| ==> rest[j] in xs[1..];
    }
  }

  /** The tasks started by a pass. */
  function StartedTasks(c: Config, s: State, attempts: nat -> Attempt): seq<Task> {
    var tasks := SortTasks(s.pending);
    Select(tasks, Decisions(c.strategy, s.(pending := []), tasks, attempts, 0), true)
  }

  /** A pass loses and invents nothing, and leaves the queue with the highest priority first
      and, among equals, the earliest submission first. */
  lemma PassConserves(c: Config, s: State, attempts: nat -> Attempt, writes: bool)
    ensures multiset(s.pending) == multiset(StartedTasks(c, s, attempts)) + multiset(Processed(c, s, attempts, writes).pending)
    ensures var rest := Processed(c, s, attempts, writes).pending;
            forall i, j :: 0 <= i < j < |rest| ==>
              rest[i].priority > rest[j].priority || (rest[i].priority == rest[j].priority && rest[i].submittedAt <= rest[j].submittedAt)
  {
    hide Decisions, AfterPass, Select, SortTasks;
    var tasks := SortTasks(s.pending);
    var ds := Decisions(c.strategy, s.(pending := []), tasks, attempts, 0);
    SortLaws(s.pending);
    SelectSplits(tasks, ds);
    SelectSorted(tasks, ds, false);
  }

  // ---------- where a new task ends up ----------

  /** The task is for the first agent of the plan, or for none by that name. */
  predicate IsSubmission(task: Task, plan: Plan, planFile: string, now: nat, priority: nat) {
    && task.id == plan.id && task.planFile == planFile && task.submittedAt == now && task.priority == priority
    && (if plan.agents == [] then task.agent == "unknown" else task.agent == plan.agents[0])
  }

  predicate LaunchedOnly(u: State, t: State, plan: Plan) {
    && t.processing == u.processing + PlanEntries(plan, true) && t.available == u.available - 1
    && t.pending == u.pending && t.file == u.file
  }

  /** One task more at the end of the queue, made of what was submitted. */
  predicate QueuedOnly(u: State, t: State, plan: Plan, planFile: string, now: nat, priority: nat, writes: bool) {
    && |t.pending| == |u.pending| + 1 && t.pending[..|u.pending|] == u.pending
    && IsSubmission(t.pending[|u.pending|], plan, planFile, now, priority)
    && t.processing == u.processing && t.available == u.available
    && t.file == if writes then Some(Versioned(QUEUE_FILE_VERSION, t.pending)) else u.file
  }

  /** A new task is launched with one permit, or queued and saved, or reported as an error. A plan
      without agents is reported as launched; of it, and of an error, only the id in the dedup set is left. */
  lemma SubmissionPlaced(c: Config, s: State, plan: Plan, planFile: string, now: nat, priority: nat, launches: bool, writes: bool)
    requires plan.id !in Loaded(s).seen
    ensures var t := Submitted(c, s, plan, planFile, now, priority, launches, writes);
            var u := Loaded(s);
            var ok := SubmitSucceeds(c, s, plan, planFile, now, priority, launches, writes);
            var launched, queued := t.processing != u.processing, t.pending != u.pending;
            && plan.id in t.seen
            && (launched ==> LaunchedOnly(u, t, plan) && ok)
            && (queued ==> QueuedOnly(u, t, plan, planFile, now, priority, writes) && (ok <==> writes))
            && (!launched && !queued ==> t == u.(seen := t.seen) && (ok ==> plan.agents == []))
  {
    hide Busy, LaunchAgents, InsertSeen, Reloadable;
    var u := Loaded(s);
    NewId(u.seen, plan.id);
    assert |PlanEntries(plan, true)| == |plan.agents|;
    assert |u.processing + PlanEntries(plan, true)| == |u.processing| + |plan.agents|;
    assert |u.pending + [TaskOf(plan, planFile, now, priority)]| > |u.pending|;
  }

  predicate SafeNames(plan: Plan) {
    (plan.agents != [] ==> ValidComponent(plan.id)) && forall a :: a in plan.agents ==> ValidComponent(a)
  }

  /** What becomes of a submission whose id is new: without a permit, or with the first agent busy under a
      waiting strategy, it is queued; else it is launched if the names are safe and the agents start. */
  lemma SubmissionOutcome(c: Config, s: State, plan: Plan, planFile: string, now: nat, priority: nat, launches: bool, writes: bool)
    requires InsertSeen(Loaded(s).seen, plan.id).1
    ensures var t, u := Submitted(c, s, plan, planFile, now, priority, launches, writes), Loaded(s);
            var ok := SubmitSucceeds(c, s, plan, planFile, now, priority, launches, writes);
            var agent := if plan.agents == [] then "unknown" else plan.agents[0];
            var stuck := u.available == 0 || (c.strategy != Parallel && exists k :: 0 <= k < |u.processing| && u.processing[k].agent == agent);
            && (t.pending != u.pending <==> stuck)
            && (t.processing != u.processing <==> !stuck && launches && SafeNames(plan) && plan.agents != [])
            && (ok <==> if stuck then writes else launches && SafeNames(plan))
            && (t.processing != u.processing ==>
                 && |t.processing| == |u.processing| + |plan.agents| && t.processing[..|u.processing|] == u.processing
                 && t.available == u.available - 1
                 && forall k :: 0 <= k < |plan.agents| ==> t.processing[|u.processing| + k] == Entry(plan.id, plan.agents[k], k == 0))
  {
    hide InsertSeen, Reloadable, ValidComponent;
    var u := Loaded(s);
    assert |u.processing + PlanEntries(plan, true)| == |u.processing| + |plan.agents|;
    assert |u.pending + [TaskOf(plan, planFile, now, priority)]| > |u.pending|;
  }

  // ---------- in which order queued submissions are tried ----------

  lemma SortedFirst(xs: seq<Task>, x: Task, y: Task)
    requires x in xs && y in xs && Before(x, y)
    ensures Precedes(SortTasks(xs), x, y)
  {
    SortLaws(xs);
    var s := SortTasks(xs);
    assert x in multiset(xs) && y in multiset(xs);
    var i :| 0 <= i < |s| && s[i] == x;
    var j :| 0 <= j < |s| && s[j] == y;
    assert i < j;
  }

  /** Of two submissions that are both queued, the one with the higher priority stands in front, and of equal
      ones the earlier, or the one that came first. */
  lemma SubmissionOrder(c: Config, s: State, p: Plan, pFile: string, pTime: nat, pPriority: nat, pLaunches: bool, pWrites: bool,
      q: Plan, qFile: string, qTime: nat, qPriority: nat, qLaunches: bool, qWrites: bool)
    requires var s1 := Submitted(c, s, p, pFile, pTime, pPriority, pLaunches, pWrites);
             s1.pending != Loaded(s).pending && Submitted(c, s1, q, qFile, qTime, qPriority, qLaunches, qWrites).pending != s1.pending
    ensures var s1 := Submitted(c, s, p, pFile, pTime, pPriority, pLaunches, pWrites);
            var s2 := Submitted(c, s1, q, qFile, qTime, qPriority, qLaunches, qWrites);
            exists x, y :: IsSubmission(x, p, pFile, pTime, pPriority) && IsSubmission(y, q, qFile, qTime, qPriority)
              && if pPriority > qPriority || (pPriority == qPriority && pTime <= qTime)
                 then Precedes(SortTasks(s2.pending), x, y) else Precedes(SortTasks(s2.pending), y, x)
  {
    hide Busy, LaunchAgents, InsertSeen, Reloadable, SortTasks, Precedes;
    var s1 := Submitted(c, s, p, pFile, pTime, pPriority, pLaunches, pWrites);
    var s2 := Submitted(c, s1, q, qFile, qTime, qPriority, qLaunches, qWrites);
    SubmissionQueues(c, s, p, pFile, pTime, pPriority, pLaunches, pWrites);
    SubmissionQueues(c, s1, q, qFile, qTime, qPriority, qLaunches, qWrites);
    var i, j := |s1.pending| - 1, |s1.pending|;
    var x, y := s2.pending[i], s2.pending[j];
    assert s1.pending != [] && Loaded(s1) == s1;
    if Before(y, x) { SortedFirst(s2.pending, y, x); } else { SortKeepsOrder(s2.pending, i, j); }
  }

  lemma SubmissionQueues(c: Config, s: State, plan: Plan, planFile: string, now: nat, priority: nat, launches: bool, writes: bool)
    ensures var t, u := Submitted(c, s, plan, planFile, now, priority, launches, writes), Loaded(s);
            t.pending != u.pending ==>
              |t.pending| == |u.pending| + 1 && t.pending[..|u.pending|] == u.pending
              && IsSubmission(t.pending[|u.pending|], plan, planFile, now, priority)
  {
    hide Busy, LaunchAgents, InsertSeen, Reloadable;
  }

  lemma {:induction false} WithoutKeepsOrder(xs: seq<Task>, id: string, x: Task, y: Task)
    ensures x in WithoutTask(xs, id) <==> x in xs && x.id != id
    ensures Precedes(WithoutTask(xs, id), x, y) <==> Precedes(xs, x, y) && x.id != id && y.id != id
  {
    if xs != [] {
      var h, rest := xs[0], xs[1..];
      assert xs == [h] + rest;
      WithoutKeepsOrder(rest, id, x, y);
      WithoutKeepsOrder(rest, id, y, x);
      PrecedesHead(h, rest, x, y);
      PrecedesHead(h, WithoutTask(rest, id), x, y);
      assert [] + WithoutTask(rest, id) == WithoutTask(rest, id);
    }
  }

  lemma PrecedesHead(h: Task, xs: seq<Task>, x: Task, y: Task)
    ensures Precedes([h] + xs, x, y) <==> Precedes(xs, x, y) || (h == x && y in xs)
  {
    if Precedes(xs, x, y) || (h == x && y in xs) { PrecedesCons(h, xs, x, y); }
    if Precedes([h] + xs, x, y) {
      var i, j :| 0 <= i < j < |[h] + xs| && ([h] + xs)[i] == x && ([h] + xs)[j] == y;
      assert xs[j - 1] == y;
      if i > 0 { assert xs[i - 1] == x; }
    }
  }

  /** Cancelling takes out the tasks with the id and leaves the others in their order. */
  lemma CancelKeepsOrder(s: State, id: string, writes: bool, x: Task, y: Task)
    ensures var t := Cancelled(s, id, writes);
            && (x in t.pending <==> x in s.pending && x.id != id)
            && (Precedes(t.pending, x, y) <==> Precedes(s.pending, x, y) && x.id != id && y.id != id)
            && t.processing == s.processing && t.available == s.available && t.seen == s.seen
  {
    hide WithoutTask, Precedes;
    WithoutKeepsOrder(s.pending, id, x, y);
    TaskBags.WithoutTaskCount(s.pending, id);
  }

  lemma NewId(seen: set<string>, id: string)
    requires id !in seen
    ensures var (now, isNew) := InsertSeen(seen, id); isNew && id in now
  {
  }

  // ---------- who may overtake whom ----------

  lemma {:induction false} NoPermitStays(strategy: Strategy, s: State, tasks: seq<Task>, attempts: nat -> Attempt, k: nat)
    requires k <= |tasks| && s.available == 0
    ensures forall m :: 0 <= m < |tasks| - k ==> Decisions(strategy, s, tasks, attempts, k)[m] != Started
    decreases |tasks| - k
  {
    if k < |tasks| {
      var d := Decide(strategy, s, tasks[k], attempts(k));
      assert AfterDecision(s, attempts(k).plan, d) == s;
      NoPermitStays(strategy, s, tasks, attempts, k + 1);
    }
  }

  lemma {:induction false} BusyStays(strategy: Strategy, s: State, tasks: seq<Task>, attempts: nat -> Attempt, k: nat, agent: string)
    requires k <= |tasks| && strategy != Parallel && Busy(s.processing, agent)
    ensures forall m :: 0 <= m < |tasks| - k && tasks[k + m].agent == agent ==> Decisions(strategy, s, tasks, attempts, k)[m] != Started
    decreases |tasks| - k
  {
    if k < |tasks| {
      var d := Decide(strategy, s, tasks[k], attempts(k));
      var t := AfterDecision(s, attempts(k).plan, d);
      var b :| 0 <= b < |s.processing| && s.processing[b].agent == agent;
      assert t.processing[b].agent == agent;
      BusyStays(strategy, t, tasks, attempts, k + 1, agent);
    }
  }

  /** Waiting strategies: a task that stays behind while a later one starts, without an error of
      its own, had a permit but found its agent busy, and the later task is for another agent. */
  lemma {:induction false} OvertakenWhenBusy(strategy: Strategy, s: State, tasks: seq<Task>, attempts: nat -> Attempt,
      k: nat, i: nat, j: nat)
    requires k <= i < j < |tasks| && strategy != Parallel
    requires var ds := Decisions(strategy, s, tasks, attempts, k);
             ds[i - k] !in {Started, ParseError, LaunchError} && ds[j - k] == Started
    ensures Decisions(strategy, s, tasks, attempts, k)[i - k] == AgentBusy
    ensures tasks[i].agent != tasks[j].agent
    decreases i - k
  {
    hide Decisions, LaunchAgents, PlanEntries;
    var d := Decide(strategy, s, tasks[k], attempts(k));
    var t := AfterDecision(s, attempts(k).plan, d);
    var ds, rest := Decisions(strategy, s, tasks, attempts, k), Decisions(strategy, t, tasks, attempts, k + 1);
    PassStep(strategy, s, tasks, attempts, k);
    if i > k {
      OvertakenWhenBusy(strategy, t, tasks, attempts, k + 1, i, j);
    } else if d == NoPermit {
      NoPermitStays(strategy, t, tasks, attempts, k + 1);
    } else {
      BusyStays(strategy, t, tasks, attempts, k + 1, tasks[k].agent);
      assert rest[j - k - 1] == Started && tasks[k + 1 + (j - k - 1)] == tasks[j];
    }
  }

  /** Parallel strategy: only an error of its own lets a later task start before an earlier one. */
  lemma {:induction false} ParallelStartsPrefix(s: State, tasks: seq<Task>, attempts: nat -> Attempt, k: nat, i: nat, j: nat)
    requires k <= i < j < |tasks|
    requires Decisions(Parallel, s, tasks, attempts, k)[j - k] == Started
    ensures Decisions(Parallel, s, tasks, attempts, k)[i - k] in {Started, ParseError, LaunchError}
    decreases i - k
  {
    hide Decisions, LaunchAgents, PlanEntries;
    var d := Decide(Parallel, s, tasks[k], attempts(k));
    var t := AfterDecision(s, attempts(k).plan, d);
    PassStep(Parallel, s, tasks, attempts, k);
    if i > k {
      ParallelStartsPrefix(t, tasks, attempts, k + 1, i, j);
    } else if d == NoPermit {
      NoPermitStays(Parallel, t, tasks, attempts, k + 1);
    }
  }

  /** A pass touches neither the queue, the dedup set nor the file before it ends. */
  lemma {:induction false} PassFrame(strategy: Strategy, s: State, tasks: seq<Task>, attempts: nat -> Attempt, k: nat)
    requires k <= |tasks|
    ensures var t := AfterPass(strategy, s, tasks, attempts, k); t.seen == s.seen && t.file == s.file && t.pending == s.pending
    decreases |tasks| - k
  {
    if k < |tasks| {
      var d := Decide(strategy, s, tasks[k], attempts(k));
      PassFrame(strategy, AfterDecision(s, attempts(k).plan, d), tasks, attempts, k + 1);
    }
  }
}
