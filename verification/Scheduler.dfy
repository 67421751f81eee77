/** The task scheduler: a pending queue, the list of running agents, a semaphore, the
    set of task ids already seen, and the queue file.

    Every method is proved against a function on the abstract state. What the outside
    world decides (whether a plan file parses, whether agents launch, whether a write
    succeeds) comes in as a parameter. */
module Scheduler {
  import opened Text
  import opened TaskFiles

  datatype Task = Task(id: string, planFile: string, agent: string, submittedAt: nat, priority: nat)

  datatype Plan = Plan(id: string, agents: seq<string>)

  /** The permit is held by the first agent of each task. */
  datatype Entry = Entry(id: string, agent: string, permit: bool)

  datatype Strategy = WaitForAgent | QueueTask | Parallel

  datatype Config = Config(strategy: Strategy, limit: nat)

  /** What the queue file holds: the versioned format, the bare list of older programs, or
      something that cannot be read or parsed. */
  datatype QueueFile = Versioned(version: nat, tasks: seq<Task>) | Legacy(tasks: seq<Task>) | Unreadable

  datatype State = State(
    pending: seq<Task>,
    processing: seq<Entry>,
    available: nat,
    seen: set<string>,
    file: Option<QueueFile>)

  /** One attempt: the parsed plan, if it parses, and whether the launch succeeds. */
  datatype Attempt = Attempt(plan: Option<Plan>, launches: bool)

  datatype Decision = Started | NoPermit | AgentBusy | LaunchError | ParseError

  const SEEN_IDS_CAP := 10_000
  const DEFAULT_CONCURRENCY_LIMIT := 8
  const QUEUE_FILE_VERSION := 1

  // ---------- launching ----------

  /** `launch_agents` names every agent after its task, and refuses unsafe names. */
  function LaunchAgents(plan: Plan, launches: bool): Option<seq<string>> {
    if (plan.agents != [] ==> ValidComponent(plan.id)) && (forall a :: a in plan.agents ==> ValidComponent(a)) && launches
    then Some(AgentIds(plan.id, plan.agents)) else None
  }

  function AgentIds(id: string, agents: seq<string>): (r: seq<string>)
    ensures |r| == |agents|
  {
    if agents == [] then [] else [MakeAgentId(id, agents[0])] + AgentIds(id, agents[1..])
  }

  /** The processing entries stored for the launched agent ids. */
  function StoredEntries(agentIds: seq<string>, permit: bool): seq<Entry> {
    if agentIds == [] then []
    else
      var parsed := ParseAgentId(agentIds[0]);
      if parsed.None? then StoredEntries(agentIds[1..], permit)
      else [Entry(parsed.value.0, parsed.value.1, permit)] + StoredEntries(agentIds[1..], false)
  }

  /** What the entries of a plan are: one per agent, the first with the permit. */
  function PlanEntries(plan: Plan, permit: bool): (r: seq<Entry>)
    ensures |r| == |plan.agents|
    ensures forall k :: 0 <= k < |r| ==> r[k] == Entry(plan.id, plan.agents[k], permit && k == 0)
    decreases |plan.agents|
  {
    if plan.agents == [] then []
    else [Entry(plan.id, plan.agents[0], permit)] + PlanEntries(Plan(plan.id, plan.agents[1..]), false)
  }

  lemma {:induction false} StoredArePlanEntries(plan: Plan, permit: bool)
    requires ValidComponent(plan.id)
    ensures StoredEntries(AgentIds(plan.id, plan.agents), permit) == PlanEntries(plan, permit)
    decreases |plan.agents|
  {
    hide ValidComponent, ParseAgentId;
    if plan.agents != [] {
      ParseMakeAgentId(plan.id, plan.agents[0]);
      StoredArePlanEntries(Plan(plan.id, plan.agents[1..]), false);
      assert AgentIds(plan.id, plan.agents)[1..] == AgentIds(plan.id, plan.agents[1..]);
    }
  }

  // ---------- scheduling decisions ----------

  predicate Busy(processing: seq<Entry>, agent: string) {
    exists k :: 0 <= k < |processing| && processing[k].agent == agent
  }

  function Decide(strategy: Strategy, s: State, task: Task, attempt: Attempt): Decision {
    if attempt.plan.None? then ParseError
    else if s.available == 0 then NoPermit
    else if Busy(s.processing, task.agent) && strategy != Parallel then AgentBusy
    else if LaunchAgents(attempt.plan.value, attempt.launches).None? then LaunchError
    else Started
  }

  /** A started task stores its agents and keeps the permit; a plan without agents returns it. */
  function AfterDecision(s: State, plan: Option<Plan>, d: Decision): State {
    if d == Started && plan.Some? && plan.value.agents != [] && s.available > 0 then
      s.(processing := s.processing + PlanEntries(plan.value, true), available := s.available - 1)
    else s
  }

  // ---------- queue order ----------

  /** Higher priority first, then earlier submission. */
  predicate Before(a: Task, b: Task) {
    a.priority > b.priority || (a.priority == b.priority && a.submittedAt < b.submittedAt)
  }

  function Insert(t: Task, sorted: seq<Task>): seq<Task> {
    if sorted == [] || !Before(sorted[0], t) then [t] + sorted
    else [sorted[0]] + Insert(t, sorted[1..])
  }

  /** The stable sort of the pending queue. */
  function SortTasks(tasks: seq<Task>): seq<Task> {
    if tasks == [] then [] else Insert(tasks[0], SortTasks(tasks[1..]))
  }

  predicate Sorted(tasks: seq<Task>) {
    forall i, j :: 0 <= i < j < |tasks| ==> !Before(tasks[j], tasks[i])
  }

  // ---------- one pass over the queue ----------

  /** The decisions of a pass, in queue order; attempt `k` is made for task `k`. */
  function Decisions(strategy: Strategy, s: State, tasks: seq<Task>, attempts: nat -> Attempt, k: nat): (r: seq<Decision>)
    requires k <= |tasks|
    ensures |r| == |tasks| - k
    decreases |tasks| - k
  {
    if k == |tasks| then []
    else
      var d := Decide(strategy, s, tasks[k], attempts(k));
      [d] + Decisions(strategy, AfterDecision(s, attempts(k).plan, d), tasks, attempts, k + 1)
  }

  function AfterPass(strategy: Strategy, s: State, tasks: seq<Task>, attempts: nat -> Attempt, k: nat): State
    requires k <= |tasks|
    decreases |tasks| - k
  {
    if k == |tasks| then s
    else
      var d := Decide(strategy, s, tasks[k], attempts(k));
      AfterPass(strategy, AfterDecision(s, attempts(k).plan, d), tasks, attempts, k + 1)
  }

  /** The tasks with (or without) the decision `Started`, in order. */
  function Select(tasks: seq<Task>, ds: seq<Decision>, started: bool): seq<Task>
    requires |tasks| == |ds|
  {
    if tasks == [] then []
    else (if (ds[0] == Started) == started then [tasks[0]] else []) + Select(tasks[1..], ds[1..], started)
  }

  // ---------- the operations on the abstract state ----------

  /** The tasks that a file yields: none if its version is newer, an error if it is unreadable. */
  function FileTasks(file: QueueFile): Option<seq<Task>> {
    match file
    case Versioned(version, tasks) => if version <= QUEUE_FILE_VERSION then Some(tasks) else Some([])
    case Legacy(tasks) => Some(tasks)
    case Unreadable => None
  }

  predicate LoadSucceeds(s: State) {
    s.file.Some? ==> FileTasks(s.file.value).Some?
  }

  /** What loading puts into an empty queue. */
  function Reloadable(s: State): seq<Task> {
    if s.file.Some? && FileTasks(s.file.value).Some? then FileTasks(s.file.value).value else []
  }

  function Loaded(s: State): State {
    if s.pending == [] then s.(pending := Reloadable(s)) else s
  }

  function Saved(s: State, writes: bool): State {
    if writes then s.(file := Some(Versioned(QUEUE_FILE_VERSION, s.pending))) else s
  }

  function InsertSeen(seen: set<string>, id: string): (set<string>, bool) {
    var kept := if |seen| >= SEEN_IDS_CAP then {} else seen;
    (kept + {id}, id !in kept)
  }

  /** Where a new task goes after a decision: it is launched, queued, or given up after a launch error. */
  function Placed(s: State, task: Task, plan: Plan, d: Decision, writes: bool): State {
    if d == Started then AfterDecision(s, Some(plan), d)
    else if d == LaunchError then s
    else Saved(s.(pending := s.pending + [task]), writes)
  }

  /** Schedules a new task at once or queues it; a launch error leaves only the id behind. */
  function Accepted(c: Config, s: State, task: Task, plan: Plan, launches: bool, writes: bool): State {
    Placed(s, task, plan, Decide(c.strategy, s, task, Attempt(Some(plan), launches)), writes)
  }

  /** Whether the caller hears of success: a launch error and a failed save are reported. */
  predicate Succeeds(c: Config, s: State, task: Task, plan: Plan, launches: bool, writes: bool) {
    var d := Decide(c.strategy, s, task, Attempt(Some(plan), launches));
    d == Started || (d != LaunchError && writes)
  }

  function TaskOf(plan: Plan, planFile: string, now: nat, priority: nat): Task {
    Task(plan.id, planFile, if plan.agents == [] then "unknown" else plan.agents[0], now, priority)
  }

  /** `submit_task_with_priority` once the queue file and the plan file have been read. */
  function Submitted(c: Config, s: State, plan: Plan, planFile: string, now: nat, priority: nat, launches: bool, writes: bool): State {
    Entered(c, Loaded(s), TaskOf(plan, planFile, now, priority), plan, launches, writes)
  }

  /** A task that is new to the dedup set is scheduled or queued; any other is dropped. */
  function Entered(c: Config, s: State, task: Task, plan: Plan, launches: bool, writes: bool): State {
    var (seen, isNew) := InsertSeen(s.seen, task.id);
    var t := s.(seen := seen);
    if isNew then Accepted(c, t, task, plan, launches, writes) else t
  }

  predicate SubmitSucceeds(c: Config, s: State, plan: Plan, planFile: string, now: nat, priority: nat, launches: bool, writes: bool) {
    var (seen, isNew) := InsertSeen(Loaded(s).seen, plan.id);
    isNew ==> Succeeds(c, Loaded(s).(seen := seen), TaskOf(plan, planFile, now, priority), plan, launches, writes)
  }

  /** `handle_nats_task` after the path checks: one agent, and nothing is loaded from disk. */
  function Delivered(c: Config, s: State, task: Task, launches: bool, writes: bool): State {
    Entered(c, s, task, Plan(task.id, [task.agent]), launches, writes)
  }

  predicate DeliverySucceeds(c: Config, s: State, task: Task, launches: bool, writes: bool) {
    var (seen, isNew) := InsertSeen(s.seen, task.id);
    isNew ==> Succeeds(c, s.(seen := seen), task, Plan(task.id, [task.agent]), launches, writes)
  }

  function Processed(c: Config, s: State, attempts: nat -> Attempt, writes: bool): State {
    var tasks := SortTasks(s.pending);
    var t := s.(pending := []);
    var ds := Decisions(c.strategy, t, tasks, attempts, 0);
    Saved(AfterPass(c.strategy, t, tasks, attempts, 0).(pending := Select(tasks, ds, false)), writes)
  }

  function WithoutTask(tasks: seq<Task>, id: string): seq<Task> {
    if tasks == [] then []
    else (if tasks[0].id == id then [] else [tasks[0]]) + WithoutTask(tasks[1..], id)
  }

  function Cancelled(s: State, id: string, writes: bool): State {
    var rest := WithoutTask(s.pending, id);
    if |rest| < |s.pending| then Saved(s.(pending := rest), writes) else s
  }

  function WithoutEntries(entries: seq<Entry>, id: string): seq<Entry> {
    if entries == [] then []
    else (if entries[0].id == id then [] else [entries[0]]) + WithoutEntries(entries[1..], id)
  }

  function Permits(entries: seq<Entry>): nat {
    if entries == [] then 0 else (if entries[0].permit then 1 else 0) + Permits(entries[1..])
  }

  function PermitsOf(entries: seq<Entry>, id: string): nat {
    if entries == [] then 0
    else (if entries[0].permit && entries[0].id == id then 1 else 0) + PermitsOf(entries[1..], id)
  }

  /** `mark_completed` and the state change of `cancel_running_task`. */
  function Terminated(s: State, id: string): State {
    s.(processing := WithoutEntries(s.processing, id),
       available := s.available + PermitsOf(s.processing, id),
       seen := s.seen - {id})
  }

  // ---------- the scheduler object ----------

  class TaskScheduler {
    const config: Config
    var pending: seq<Task>
    var processing: seq<Entry>
    var available: nat
    var seen: set<string>
    var file: Option<QueueFile>

    function Abstract(): State
      reads this
    {
      State(pending, processing, available, seen, file)
    }

    /** Permits are either in the semaphore or stored with a running task. */
    predicate Valid()
      reads this
    {
      available + Permits(processing) == config.limit
    }

    constructor (strategy: Strategy, concurrencyLimit: nat, queueFile: Option<QueueFile>)
      ensures Valid() && Abstract() == State([], [], config.limit, {}, queueFile)
      ensures config.strategy == strategy
      ensures config.limit == if concurrencyLimit == 0 then DEFAULT_CONCURRENCY_LIMIT else concurrencyLimit
    {
      var limit := if concurrencyLimit == 0 then DEFAULT_CONCURRENCY_LIMIT else concurrencyLimit;
      config := Config(strategy, limit);
      pending, processing, available, seen, file := [], [], limit, {}, queueFile;
    }

    /** An unreadable file is an error; a newer version yields no tasks. */
    method LoadFromDisk() returns (ok: bool)
      modifies this`pending
      ensures ok <==> LoadSucceeds(old(Abstract()))
      ensures Abstract() == Loaded(old(Abstract()))
      ensures old(pending) != [] ==> pending == old(pending)
      ensures old(pending) == [] ==>
                match old(file)
                case None => ok && pending == []
                case Some(Versioned(version, listed)) => ok && pending == if version <= 1 then listed else []
                case Some(Legacy(listed)) => ok && pending == listed
                case Some(Unreadable) => !ok && pending == []
    {
      if file.Some? {
        var tasks := [];
        match file.value {
          case Versioned(version, listed) =>
            if version <= QUEUE_FILE_VERSION {
              tasks := listed;
            }
          case Legacy(listed) =>
            tasks := listed;
          case Unreadable =>
            return false;
        }
        if pending == [] {
          pending := tasks;
        }
      }
      return true;
    }

    method SaveToDisk(writes: bool) returns (ok: bool)
      modifies this`file
      ensures ok == writes && Abstract() == Saved(old(Abstract()), writes)
    {
      if writes {
        file := Some(Versioned(QUEUE_FILE_VERSION, pending));
      }
      return writes;
    }

    method TryInsertSeen(id: string) returns (inserted: bool)
      modifies this`seen
      ensures (seen, inserted) == InsertSeen(old(seen), id)
    {
      if |seen| >= SEEN_IDS_CAP {
        seen := {};
      }
      inserted := id !in seen;
      seen := seen + {id};
    }

    method CheckAgentAvailability(agent: string) returns (busy: bool)
      ensures busy == Busy(processing, agent)
    {
      for k := 0 to |processing|
        invariant forall j :: 0 <= j < k ==> processing[j].agent != agent
      {
        if processing[k].agent == agent {
          return true;
        }
      }
      return false;
    }

    /** Takes a permit first; every way out but a stored launch puts it back. */
    method TrySchedule(task: Task, plan: Plan, launches: bool) returns (d: Decision)
      requires Valid()
      modifies this`processing, this`available
      ensures Valid()
      ensures d == Decide(config.strategy, old(Abstract()), task, Attempt(Some(plan), launches))
      ensures Abstract() == AfterDecision(old(Abstract()), Some(plan), d)
    {
      if available == 0 {
        return NoPermit;
      }
      available := available - 1;
      var busy := CheckAgentAvailability(task.agent);
      if busy && config.strategy != Parallel {
        available := available + 1;
        return AgentBusy;
      }
      var launched := LaunchAgents(plan, launches);
      if launched.None? {
        available := available + 1;
        return LaunchError;
      }
      var entries := StoredEntries(launched.value, true);
      if plan.agents == [] {
        assert entries == [];
      } else {
        StoredArePlanEntries(plan, true);
        PlanPermits(plan, true);
      }
      if entries == [] {
        available := available + 1;
      } else {
        PermitsConcat(processing, entries);
        processing := processing + entries;
      }
      return Started;
    }

    /** `submit_task_with_priority`; an unreadable queue file is reported before anything changes,
        a plan file that does not parse after the load. */
    method SubmitTask(planFile: string, plan: Option<Plan>, now: nat, priority: nat, launches: bool, writes: bool)
        returns (accepted: Option<string>)
      requires Valid()
      modifies this
      ensures Valid()
      ensures Abstract() == if plan.None? || !LoadSucceeds(old(Abstract())) then Loaded(old(Abstract()))
                            else Submitted(config, old(Abstract()), plan.value, planFile, now, priority, launches, writes)
      ensures !LoadSucceeds(old(Abstract())) ==> Abstract() == old(Abstract()) && accepted == None
      ensures accepted == if plan.Some? && LoadSucceeds(old(Abstract()))
                             && SubmitSucceeds(config, old(Abstract()), plan.value, planFile, now, priority, launches, writes)
                          then Some(plan.value.id) else None
    {
      var loaded := LoadFromDisk();
      if !loaded || plan.None? {
        return None;
      }
      var inserted := TryInsertSeen(plan.value.id);
      if !inserted {
        return Some(plan.value.id);
      }
      var task := TaskOf(plan.value, planFile, now, priority);
      var ok := ScheduleOrQueue(task, plan.value, launches, writes);
      return if ok then Some(plan.value.id) else None;
    }

    method HandleNatsTask(task: Task, launches: bool, writes: bool) returns (ok: bool)
      requires Valid()
      modifies this
      ensures Valid()
      ensures Abstract() == Delivered(config, old(Abstract()), task, launches, writes)
      ensures ok <==> DeliverySucceeds(config, old(Abstract()), task, launches, writes)
    {
      var inserted := TryInsertSeen(task.id);
      if !inserted {
        return true;
      }
      ok := ScheduleOrQueue(task, Plan(task.id, [task.agent]), launches, writes);
    }

    method ScheduleOrQueue(task: Task, plan: Plan, launches: bool, writes: bool) returns (ok: bool)
      requires Valid()
      modifies this
      ensures Valid()
      ensures Abstract() == Accepted(config, old(Abstract()), task, plan, launches, writes)
      ensures ok <==> Succeeds(config, old(Abstract()), task, plan, launches, writes)
    {
      var d := TrySchedule(task, plan, launches);
      if d == LaunchError {
        return false;
      }
      if d == Started {
        return true;
      }
      pending := pending + [task];
      ok := SaveToDisk(writes);
    }

    /** `process_pending`: sorts and drains the queue, tries each task once, puts the rest back. */
    method ProcessPending(attempts: nat -> Attempt, writes: bool) returns (scheduled: nat, ok: bool)
      requires Valid()
      modifies this
      ensures Valid()
      ensures ok == writes && Abstract() == Processed(config, old(Abstract()), attempts, writes)
      ensures var tasks := SortTasks(old(pending));
              scheduled == |Select(tasks, Decisions(config.strategy, old(Abstract()).(pending := []), tasks, attempts, 0), true)|
    {
      hide Busy, LaunchAgents, SortTasks, Permits, Select, Decisions, AfterPass, AfterDecision, Decide;
      var tasks := SortTasks(pending);
      pending := [];
      scheduled := 0;
      var remaining: seq<Task> := [];
      ghost var start := Abstract();
      ghost var ds := Decisions(config.strategy, start, tasks, attempts, 0);
      var k := 0;
      while k < |tasks|
        invariant 0 <= k <= |tasks|
        invariant Valid() && pending == []
        invariant AfterPass(config.strategy, start, tasks, attempts, 0) == AfterPass(config.strategy, Abstract(), tasks, attempts, k)
        invariant ds[k..] == Decisions(config.strategy, Abstract(), tasks, attempts, k)
        invariant remaining + Select(tasks[k..], ds[k..], false) == Select(tasks, ds, false)
        invariant scheduled + |Select(tasks[k..], ds[k..], true)| == |Select(tasks, ds, true)|
      {
        var task, attempt := tasks[k], attempts(k);
        SelectStep(tasks, ds, k);
        PassStep(config.strategy, Abstract(), tasks, attempts, k);
        if attempt.plan.None? {
          remaining := remaining + [task];
        } else {
          var d := TrySchedule(task, attempt.plan.value, attempt.launches);
          if d == Started {
            scheduled := scheduled + 1;
          } else {
            remaining := remaining + [task];
          }
        }
        k := k + 1;
      }
      PassEnd(config.strategy, Abstract(), tasks, attempts);
      SelectNone(tasks[k..], ds[k..]);
      assert remaining + [] == remaining;
      if remaining != [] {
        pending := pending + remaining;
      }
      ok := SaveToDisk(writes);
    }

    /** A failed save is reported, but the task stays removed. */
    method CancelTask(id: string, writes: bool) returns (removed: bool, ok: bool)
      requires Valid()
      modifies this`pending, this`file
      ensures Valid()
      ensures Abstract() == Cancelled(old(Abstract()), id, writes)
      ensures (removed <==> |pending| < |old(pending)|) && (ok <==> !removed || writes)
    {
      ok := true;
      var rest := WithoutTask(pending, id);
      removed := |rest| < |pending|;
      if removed {
        pending := rest;
        ok := SaveToDisk(writes);
      }
    }

    /** Dropping the entries of a task releases the permits they hold. */
    method MarkCompleted(id: string)
      requires Valid()
      modifies this`processing, this`available, this`seen
      ensures Valid()
      ensures Abstract() == Terminated(old(Abstract()), id)
    {
      PermitsWithout(processing, id);
      available := available + PermitsOf(processing, id);
      processing := WithoutEntries(processing, id);
      seen := seen - {id};
    }

    method CancelRunningTask(id: string) returns (found: bool)
      requires Valid()
      modifies this`processing, this`available, this`seen
      ensures Valid()
      ensures Abstract() == Terminated(old(Abstract()), id)
      ensures found <==> exists k :: 0 <= k < |old(processing)| && old(processing)[k].id == id
    {
      PermitsWithout(processing, id);
      WithoutShorter(processing, id);
      var rest := WithoutEntries(processing, id);
      found := |rest| < |processing|;
      available := available + PermitsOf(processing, id);
      processing := rest;
      seen := seen - {id};
    }
  }

  lemma PassStep(strategy: Strategy, s: State, tasks: seq<Task>, attempts: nat -> Attempt, k: nat)
    requires k < |tasks|
    ensures var d := Decide(strategy, s, tasks[k], attempts(k));
            var t := AfterDecision(s, attempts(k).plan, d);
            && Decisions(strategy, s, tasks, attempts, k) == [d] + Decisions(strategy, t, tasks, attempts, k + 1)
            && AfterPass(strategy, s, tasks, attempts, k) == AfterPass(strategy, t, tasks, attempts, k + 1)
            && (attempts(k).plan.None? ==> d == ParseError && t == s)
  {
  }

  lemma PassEnd(strategy: Strategy, s: State, tasks: seq<Task>, attempts: nat -> Attempt)
    ensures Decisions(strategy, s, tasks, attempts, |tasks|) == [] && AfterPass(strategy, s, tasks, attempts, |tasks|) == s
  {
  }

  lemma SelectStep(tasks: seq<Task>, ds: seq<Decision>, k: nat)
    requires |tasks| == |ds| && k < |tasks|
    ensures forall started :: Select(tasks[k..], ds[k..], started)
              == (if (ds[k] == Started) == started then [tasks[k]] else []) + Select(tasks[k + 1..], ds[k + 1..], started)
  {
    assert tasks[k..][1..] == tasks[k + 1..] && ds[k..][1..] == ds[k + 1..];
  }

  lemma SelectNone(tasks: seq<Task>, ds: seq<Decision>)
    requires tasks == [] && ds == []
    ensures forall started :: Select(tasks, ds, started) == []
  {
  }

  // ---------- permits ----------

  lemma {:induction false} PermitsConcat(a: seq<Entry>, b: seq<Entry>)
    ensures Permits(a + b) == Permits(a) + Permits(b)
    ensures forall id :: PermitsOf(a + b, id) == PermitsOf(a, id) + PermitsOf(b, id)
  {
    if a == [] {
      assert a + b == b;
    } else {
      assert (a + b)[1..] == a[1..] + b;
      PermitsConcat(a[1..], b);
    }
  }

  /** A plan with agents holds one permit, under its own id. */
  lemma {:induction false} PlanPermits(plan: Plan, permit: bool)
    ensures Permits(PlanEntries(plan, permit)) == if permit && plan.agents != [] then 1 else 0
    ensures forall id :: PermitsOf(PlanEntries(plan, permit), id) == if permit && plan.agents != [] && id == plan.id then 1 else 0
    decreases |plan.agents|
  {
    if plan.agents != [] {
      var rest := Plan(plan.id, plan.agents[1..]);
      PlanPermits(rest, false);
      assert PlanEntries(plan, permit)[1..] == PlanEntries(rest, false);
    }
  }

  lemma {:induction false} PermitsWithout(entries: seq<Entry>, id: string)
    ensures Permits(WithoutEntries(entries, id)) + PermitsOf(entries, id) == Permits(entries)
    ensures forall x :: PermitsOf(WithoutEntries(entries, id), x) == if x == id then 0 else PermitsOf(entries, x)
  {
    if entries != [] {
      PermitsWithout(entries[1..], id);
      PermitsConcat(if entries[0].id == id then [] else [entries[0]], WithoutEntries(entries[1..], id));
    }
  }

  lemma {:induction false} WithoutShorter(entries: seq<Entry>, id: string)
    ensures |WithoutEntries(entries, id)| <= |entries|
    ensures |WithoutEntries(entries, id)| < |entries| <==> exists k :: 0 <= k < |entries| && entries[k].id == id
  {
    if entries != [] {
      WithoutShorter(entries[1..], id);
      if exists k :: 0 <= k < |entries[1..]| && entries[1..][k].id == id {
        var k :| 0 <= k < |entries[1..]| && entries[1..][k].id == id;
        assert entries[k + 1].id == id;
      }
    }
  }
}
