/** Runs of a validated task graph: which operations a driver applies when, and what
    holds in every state that such runs reach. */
module TaskRuns {
  import opened Text
  import opened Graphs
  import opened TaskGraphs

  /** Node list, with how often each node has been started. */
  datatype Run = Run(nodes: seq<Node>, starts: seq<nat>)

  /** The driver's operations on node `i`. A late result may arrive for any node that was started. */
  datatype Step =
    | Start(i: nat)
    | Finish(i: nat, path: string)
    | Fail(i: nat)
    | Retry(i: nat)
    | Skip(i: nat)
    | LateResult(i: nat, path: string)

  predicate Initial(s: Run) {
    && |s.starts| == |s.nodes|
    && forall i :: 0 <= i < |s.nodes| ==>
         s.nodes[i].status == Pending && s.nodes[i].retryCount == 0 && s.starts[i] == 0
  }

  predicate Enabled(s: Run, step: Step) {
    && step.i < |s.nodes| && |s.starts| == |s.nodes|
    && var n := s.nodes[step.i];
       match step
       case Start(i) => IsReady(s.nodes, i)
       case Finish(_, _) => n.status == Running
       case Fail(_) => n.status == Running
       case Retry(_) => n.status == Failed && CanRetry(s.nodes, n.id)
       case Skip(_) => n.status == Pending
       case LateResult(i, _) => s.starts[i] > 0
  }

  function Apply(s: Run, step: Step): Run
    requires Enabled(s, step)
  {
    var id := s.nodes[step.i].id;
    match step
    case Start(i) => Run(WithStatus(s.nodes, id, Running), s.starts[i := s.starts[i] + 1])
    case Finish(_, path) => s.(nodes := WithResult(s.nodes, id, path))
    case Fail(_) => s.(nodes := WithStatus(s.nodes, id, Failed))
    case Retry(_) => s.(nodes := WithRetry(s.nodes, id))
    case Skip(_) => s.(nodes := WithStatus(s.nodes, id, Skipped))
    case LateResult(_, path) => s.(nodes := WithResult(s.nodes, id, path))
  }

  predicate CanRun(s: Run, steps: seq<Step>)
    decreases |steps|
  {
    steps == [] || (Enabled(s, steps[0]) && CanRun(Apply(s, steps[0]), steps[1..]))
  }

  function After(s: Run, steps: seq<Step>): Run
    requires CanRun(s, steps)
    decreases |steps|
  {
    if steps == [] then s else After(Apply(s, steps[0]), steps[1..])
  }

  // ---------- the invariant ----------

  predicate NodeInv(n: Node, starts: nat, completed: set<string>) {
    && n.retryCount <= n.maxRetries
    && starts <= n.retryCount + (if n.status == Pending then 0 else 1)
    && (n.status in {Running, Completed, Failed} ==> starts > 0)
    && (starts > 0 ==> forall d :: d in n.dependsOn ==> d in completed)
  }

  ghost predicate Inv(s: Run) {
    && Valid(s.nodes)
    && |s.starts| == |s.nodes|
    && forall i :: 0 <= i < |s.nodes| ==> NodeInv(s.nodes[i], s.starts[i], CompletedIds(s.nodes))
  }

  lemma ShapeKeepsValid(a: seq<Node>, b: seq<Node>)
    requires SameShape(a, b) && Valid(a)
    ensures Valid(b)
  {
    ShapeKeepsGraph(a, b);
    forall i, d | 0 <= i < |b| && d in b[i].dependsOn
      ensures d in Ids(b)
    {
      assert d in a[i].dependsOn;
    }
  }

  /** One step changes node `i` only, and keeps what is completed. */
  lemma StepEffect(s: Run, step: Step)
    requires Inv(s) && Enabled(s, step)
    ensures var t := Apply(s, step); var i := step.i;
            && |t.nodes| == |s.nodes| && |t.starts| == |s.starts|
            && t.nodes == s.nodes[i := t.nodes[i]] && t.starts == s.starts[i := t.starts[i]]
            && SameShape(s.nodes, t.nodes)
            && (s.nodes[i].status == Completed ==> t.nodes[i].status == Completed)
            && CompletedIds(s.nodes) <= CompletedIds(t.nodes)
  {
    hide IndexOf;
    UniqueIndex(s.nodes, step.i);
    var t := Apply(s, step);
    forall d | d in CompletedIds(s.nodes)
      ensures d in CompletedIds(t.nodes)
    {
      var k :| 0 <= k < |s.nodes| && s.nodes[k].status == Completed && s.nodes[k].id == d;
      assert t.nodes[k].status == Completed;
    }
  }

  /** What a step does to its node, and to no other. */
  lemma StepOutcome(s: Run, step: Step)
    requires Inv(s) && Enabled(s, step)
    ensures var t := Apply(s, step); var i := step.i;
            && |t.nodes| == |s.nodes| && (forall k :: 0 <= k < |s.nodes| && k != i ==> t.nodes[k] == s.nodes[k])
            && t.starts == s.starts[i := s.starts[i] + if step.Start? then 1 else 0]
            && var n := s.nodes[i];
               match step
               case Start(_) => t.nodes[i] == n.(status := Running)
               case Finish(_, path) => t.nodes[i] == n.(status := Completed, resultPath := Some(path))
               case Fail(_) => t.nodes[i] == n.(status := Failed)
               case Retry(_) => t.nodes[i] == n.(status := Pending, retryCount := n.retryCount + 1)
               case Skip(_) => t.nodes[i] == n.(status := Skipped)
               case LateResult(_, path) =>
                 t.nodes[i] == if n.status == Failed || n.status == Completed then n else n.(status := Completed, resultPath := Some(path))
  {
    hide IndexOf, CompletedIds, GraphOf;
    UniqueIndex(s.nodes, step.i);
  }

  lemma StepKeepsInv(s: Run, step: Step)
    requires Inv(s) && Enabled(s, step)
    ensures Inv(Apply(s, step))
  {
    hide IndexOf, CompletedIds, GraphOf;
    StepEffect(s, step);
    var t := Apply(s, step);
    ShapeKeepsValid(s.nodes, t.nodes);
    UniqueIndex(s.nodes, step.i);
    forall k | 0 <= k < |t.nodes|
      ensures NodeInv(t.nodes[k], t.starts[k], CompletedIds(t.nodes))
    {
      assert NodeInv(s.nodes[k], s.starts[k], CompletedIds(s.nodes));
    }
  }

  lemma {:induction false} RunKeepsInv(s: Run, steps: seq<Step>)
    requires Inv(s) && CanRun(s, steps)
    ensures Inv(After(s, steps))
    ensures SameShape(s.nodes, After(s, steps).nodes)
    decreases |steps|
  {
    if steps != [] {
      StepKeepsInv(s, steps[0]);
      StepEffect(s, steps[0]);
      RunKeepsInv(Apply(s, steps[0]), steps[1..]);
    }
  }

  // ---------- main results ----------

  /** In every reachable state, whatever a running or completed node depends on,
      directly or through others, is completed. */
  lemma DependenciesFirst(s: Run, steps: seq<Step>, i: nat, d: string)
    requires Valid(s.nodes) && Initial(s) && CanRun(s, steps) && i < |s.nodes|
    requires Reaches(GraphOf(s.nodes), s.nodes[i].id, d)
    ensures var t := After(s, steps);
            && SameShape(s.nodes, t.nodes)
            && (t.nodes[i].status in {Running, Completed} ==> d in CompletedIds(t.nodes))
  {
    hide IndexOf, Walk, CanRun, After, CompletedIds;
    RunKeepsInv(s, steps);
    var t := After(s, steps);
    ShapeKeepsGraph(s.nodes, t.nodes);
    var g, done := GraphOf(t.nodes), CompletedIds(t.nodes);
    if t.nodes[i].status in {Running, Completed} {
      CompletedClosed(t);
      var v := FirstStep(g, t.nodes[i].id, d);
      UniqueIndex(t.nodes, i);
      assert NodeInv(t.nodes[i], t.starts[i], done);
      if v != d { ClosedReaches(g, done, v, d); }
    }
  }

  lemma CompletedClosed(t: Run)
    requires Inv(t)
    ensures ClosedUnder(GraphOf(t.nodes), CompletedIds(t.nodes))
  {
    hide IndexOf;
    var g, done := GraphOf(t.nodes), CompletedIds(t.nodes);
    forall u, v | u in done && Edge(g, u, v)
      ensures v in done
    {
      var k :| 0 <= k < |t.nodes| && t.nodes[k].status == Completed && t.nodes[k].id == u;
      UniqueIndex(t.nodes, k);
      assert NodeInv(t.nodes[k], t.starts[k], done);
    }
  }

  /** No node is started more often than its retry budget allows, and the budget is not overdrawn. */
  lemma StartsBounded(s: Run, steps: seq<Step>, i: nat)
    requires Valid(s.nodes) && Initial(s) && CanRun(s, steps) && i < |s.nodes|
    ensures var t := After(s, steps);
            && SameShape(s.nodes, t.nodes) && |t.starts| == |t.nodes|
            && t.starts[i] <= s.nodes[i].maxRetries + 1
            && t.nodes[i].retryCount <= s.nodes[i].maxRetries
  {
    RunKeepsInv(s, steps);
    var t := After(s, steps);
    assert NodeInv(t.nodes[i], t.starts[i], CompletedIds(t.nodes));
  }

  // ---------- every run is short ----------

  /** How many state changes a node can still go through. */
  function Budget(n: Node): nat
    requires n.retryCount <= n.maxRetries
  {
    3 * (n.maxRetries - n.retryCount)
      + match n.status
        case Pending => 2
        case Running => 1
        case Skipped => 1
        case _ => 0
  }

  predicate WithinBudget(nodes: seq<Node>) {
    forall i :: 0 <= i < |nodes| ==> nodes[i].retryCount <= nodes[i].maxRetries
  }

  function TotalBudget(nodes: seq<Node>): nat
    requires WithinBudget(nodes)
  {
    if nodes == [] then 0 else Budget(nodes[0]) + TotalBudget(nodes[1..])
  }

  /** The bound stated on the retry settings alone. */
  function StepBound(nodes: seq<Node>): nat {
    if nodes == [] then 0 else 3 * nodes[0].maxRetries + 2 + StepBound(nodes[1..])
  }

  lemma {:induction false} BudgetUpdate(nodes: seq<Node>, i: nat, n: Node)
    requires WithinBudget(nodes) && i < |nodes| && n.retryCount <= n.maxRetries
    ensures WithinBudget(nodes[i := n])
    ensures TotalBudget(nodes[i := n]) + Budget(nodes[i]) == TotalBudget(nodes) + Budget(n)
  {
    var u := nodes[i := n];
    if i == 0 {
      assert u[1..] == nodes[1..];
    } else {
      BudgetUpdate(nodes[1..], i - 1, n);
      assert u[1..] == nodes[1..][i - 1 := n];
    }
  }

  lemma {:induction false} InitialBudget(nodes: seq<Node>)
    requires forall i :: 0 <= i < |nodes| ==> nodes[i].status == Pending && nodes[i].retryCount == 0
    ensures WithinBudget(nodes) && TotalBudget(nodes) == StepBound(nodes)
  {
    if nodes != [] { InitialBudget(nodes[1..]); }
  }

  /** The number of steps that changed a node. */
  function Changes(s: Run, steps: seq<Step>): nat
    requires CanRun(s, steps)
    decreases |steps|
  {
    if steps == [] then 0
    else
      var t := Apply(s, steps[0]);
      (if t.nodes != s.nodes then 1 else 0) + Changes(t, steps[1..])
  }

  lemma StepSpendsBudget(s: Run, step: Step)
    requires Inv(s) && Enabled(s, step) && WithinBudget(s.nodes)
    ensures WithinBudget(Apply(s, step).nodes)
    ensures Apply(s, step).nodes != s.nodes ==> TotalBudget(Apply(s, step).nodes) < TotalBudget(s.nodes)
  {
    hide IndexOf, CompletedIds;
    StepEffect(s, step);
    StepKeepsInv(s, step);
    UniqueIndex(s.nodes, step.i);
    var t := Apply(s, step);
    var i := step.i;
    assert NodeInv(t.nodes[i], t.starts[i], CompletedIds(t.nodes));
    BudgetUpdate(s.nodes, i, t.nodes[i]);
  }

  lemma {:induction false} RunSpendsBudget(s: Run, steps: seq<Step>)
    requires Inv(s) && CanRun(s, steps) && WithinBudget(s.nodes)
    ensures WithinBudget(After(s, steps).nodes)
    ensures Changes(s, steps) + TotalBudget(After(s, steps).nodes) <= TotalBudget(s.nodes)
    decreases |steps|
  {
    if steps != [] {
      var t := Apply(s, steps[0]);
      StepKeepsInv(s, steps[0]);
      StepSpendsBudget(s, steps[0]);
      RunSpendsBudget(t, steps[1..]);
    }
  }

  /** A run changes state at most `3 * max_retries + 2` times per node, in total. */
  lemma RunsAreShort(s: Run, steps: seq<Step>)
    requires Valid(s.nodes) && Initial(s) && CanRun(s, steps)
    ensures Changes(s, steps) <= StepBound(s.nodes)
  {
    InitialBudget(s.nodes);
    RunSpendsBudget(s, steps);
  }

  // ---------- why the guards matter ----------

  /** Running and completed nodes have their dependencies completed. */
  predicate Ordered(nodes: seq<Node>) {
    forall i, d :: 0 <= i < |nodes| && nodes[i].status in {Running, Completed} && d in nodes[i].dependsOn
      ==> d in CompletedIds(nodes)
  }

  lemma CompletedAfter(nodes: seq<Node>, i: nat, n: Node)
    requires UniqueIds(nodes) && i < |nodes| && n.id == nodes[i].id
    ensures CompletedIds(nodes[i := n]) ==
              if n.status == Completed then CompletedIds(nodes) + {n.id} else CompletedIds(nodes) - {n.id}
  {
    var u := nodes[i := n];
    forall d
      ensures d in CompletedIds(u) <==>
        if n.status == Completed then d in CompletedIds(nodes) || d == n.id else d in CompletedIds(nodes) && d != n.id
    {
      if d in CompletedIds(nodes) && d != n.id {
        var k :| 0 <= k < |nodes| && nodes[k].status == Completed && nodes[k].id == d;
        assert u[k] == nodes[k];
      }
      if d == n.id { assert u[i] == n; }
    }
  }

  /** `set_result` keeps the order exactly when it is ignored or all dependencies are completed. */
  lemma ResultKeepsOrder(nodes: seq<Node>, i: nat, path: string)
    requires Valid(nodes) && Ordered(nodes) && i < |nodes|
    ensures Ordered(WithResult(nodes, nodes[i].id, path)) <==>
              nodes[i].status in {Failed, Completed} || forall d :: d in nodes[i].dependsOn ==> d in CompletedIds(nodes)
  {
    UniqueIndex(nodes, i);
    var id := nodes[i].id;
    if nodes[i].status !in {Failed, Completed} {
      var n := nodes[i].(status := Completed, resultPath := Some(path));
      CompletedAfter(nodes, i, n);
      var u := nodes[i := n];
      assert WithResult(nodes, id, path) == u;
      NoSelfDependency(nodes, i);
      if Ordered(u) {
        assert forall d :: d in u[i].dependsOn ==> d in CompletedIds(u);
      }
    }
  }

  /** `retry_failed` keeps the order exactly when it does not send a completed node back that a
      running or completed node depends on; nothing in it tests that the node has failed. */
  lemma RetryKeepsOrder(nodes: seq<Node>, i: nat)
    requires Valid(nodes) && Ordered(nodes) && i < |nodes|
    ensures Ordered(WithRetry(nodes, nodes[i].id)) <==>
              !CanRetry(nodes, nodes[i].id) || nodes[i].status != Completed
              || forall k :: 0 <= k < |nodes| && nodes[k].status in {Running, Completed} ==> nodes[i].id !in nodes[k].dependsOn
  {
    hide IndexOf, GraphOf, CompletedIds, Cyclic, WithRetry, CanRetry;
    RetryUpdate(nodes, i);
    var id := nodes[i].id;
    if CanRetry(nodes, id) {
      var n := nodes[i].(status := Pending, retryCount := nodes[i].retryCount + 1);
      CompletedAfter(nodes, i, n);
      NoSelfDependency(nodes, i);
      var u := nodes[i := n];
      NotCompleted(nodes, i);
      if Ordered(u) {
        forall k | 0 <= k < |nodes| && nodes[k].status in {Running, Completed}
          ensures nodes[i].status == Completed ==> id !in nodes[k].dependsOn
        {
          if k != i { assert u[k] == nodes[k]; }
        }
      }
    }
  }

  lemma RetryUpdate(nodes: seq<Node>, i: nat)
    requires UniqueIds(nodes) && i < |nodes|
    ensures WithRetry(nodes, nodes[i].id) ==
              if CanRetry(nodes, nodes[i].id) then nodes[i := nodes[i].(status := Pending, retryCount := nodes[i].retryCount + 1)]
              else nodes
  {
    hide IndexOf, GraphOf, UniqueIds;
    UniqueIndex(nodes, i);
  }

  lemma NotCompleted(nodes: seq<Node>, i: nat)
    requires UniqueIds(nodes) && i < |nodes|
    ensures nodes[i].id in CompletedIds(nodes) <==> nodes[i].status == Completed
  {
  }

  lemma NoSelfDependency(nodes: seq<Node>, i: nat)
    requires Valid(nodes) && i < |nodes|
    ensures nodes[i].id !in nodes[i].dependsOn
  {
    UniqueIndex(nodes, i);
    if nodes[i].id in nodes[i].dependsOn {
      EdgeReaches(GraphOf(nodes), nodes[i].id, nodes[i].id);
    }
  }

  // ---------- progress ----------

  /** A node that explains why others wait: it can be started, is running, has failed or was skipped. */
  predicate Holding(nodes: seq<Node>, j: nat)
    requires j < |nodes|
  {
    nodes[j].status in {Running, Failed, Skipped} || IsReady(nodes, j)
  }

  /** A pending node that is not ready waits, through its dependencies, for such a node. */
  lemma BlockedByHolder(nodes: seq<Node>, i: nat) returns (j: nat)
    requires Valid(nodes) && i < |nodes| && nodes[i].status == Pending && !IsReady(nodes, i)
    ensures j < |nodes| && Holding(nodes, j) && Reaches(GraphOf(nodes), nodes[i].id, nodes[j].id)
  {
    j := FollowBlocked(nodes, i, {});
  }

  lemma {:induction false} FollowBlocked(nodes: seq<Node>, i: nat, seen: set<string>) returns (j: nat)
    requires Valid(nodes) && i < |nodes| && nodes[i].status == Pending && !IsReady(nodes, i)
    requires nodes[i].id !in seen
    requires forall x :: x in seen ==> Reaches(GraphOf(nodes), x, nodes[i].id)
    ensures j < |nodes| && Holding(nodes, j) && Reaches(GraphOf(nodes), nodes[i].id, nodes[j].id)
    decreases |Ids(nodes) - seen|
  {
    hide IndexOf, Walk;
    var g := GraphOf(nodes);
    var id := nodes[i].id;
    UniqueIndex(nodes, i);
    var d :| d in nodes[i].dependsOn && d !in CompletedIds(nodes);
    EdgeReaches(g, id, d);
    assert d in Ids(nodes);
    var k :| 0 <= k < |nodes| && nodes[k].id == d;
    if Holding(nodes, k) {
      j := k;
    } else {
      var now := seen + {id};
      forall x | x in now
        ensures Reaches(g, x, d) && x != d
      {
        if x != id { ReachesTransitive(g, x, id, d); }
      }
      SmallerRest(Ids(nodes), seen, id);
      j := FollowBlocked(nodes, k, now);
      ReachesTransitive(g, id, d, nodes[j].id);
    }
  }

  lemma SmallerRest(all: set<string>, seen: set<string>, id: string)
    requires id in all && id !in seen
    ensures |all - (seen + {id})| < |all - seen|
  {
    assert all - seen == (all - (seen + {id})) + {id};
  }

  /** Two fresh tasks, the second depending on the first: it is blocked although nothing runs, has
      failed or was skipped. What it waits for is ready. */
  lemma BlockedByReadyOnly(a: string, b: string, agent: string)
    requires a != b
    ensures var nodes := [Node(a, agent, Pending, [], None, 0, 0), Node(b, agent, Pending, [a], None, 0, 0)];
            && Valid(nodes) && nodes[1].status == Pending && !IsReady(nodes, 1) && IsReady(nodes, 0)
            && forall k :: 0 <= k < |nodes| ==> nodes[k].status !in {Running, Failed, Skipped}
  {
    hide Walk, IndexOf;
    var nodes := [Node(a, agent, Pending, [], None, 0, 0), Node(b, agent, Pending, [a], None, 0, 0)];
    var g := GraphOf(nodes);
    UniqueIndex(nodes, 0);
    UniqueIndex(nodes, 1);
    assert g[a] == [] && g[b] == [a] && g.Keys == {a, b};
    assert nodes[0].id == a;
    assert CompletedIds(nodes) == {};
    assert a in nodes[1].dependsOn;
    forall x
      ensures !Reaches(g, x, x)
    {
      if Reaches(g, x, x) {
        var v := FirstStep(g, x, x);
        assert v == a && x == b;
        var w := FirstStep(g, a, b);
      }
    }
  }

  predicate Blocked(nodes: seq<Node>, i: nat)
    requires i < |nodes|
  {
    nodes[i].status == Pending && !IsReady(nodes, i)
  }

  /** One of the node's own dependencies is neither completed nor ready. */
  predicate DirectlyHeld(nodes: seq<Node>, i: nat)
    requires i < |nodes|
  {
    exists k :: 0 <= k < |nodes| && nodes[k].id in nodes[i].dependsOn && nodes[k].status != Completed && !IsReady(nodes, k)
  }

  /** Through its dependencies the node waits for one that is running, has failed or was skipped. */
  ghost predicate WaitsForHeld(nodes: seq<Node>, i: nat)
    requires i < |nodes|
  {
    exists j :: 0 <= j < |nodes| && nodes[j].status in {Running, Failed, Skipped} && Reaches(GraphOf(nodes), nodes[i].id, nodes[j].id)
  }

  /** Every blocked node waits for a running, failed or skipped one exactly when every blocked node has a
      dependency of its own that is neither completed nor ready. */
  lemma BlockedExact(nodes: seq<Node>)
    requires Valid(nodes) && Ordered(nodes)
    ensures (forall i :: 0 <= i < |nodes| && Blocked(nodes, i) ==> WaitsForHeld(nodes, i)) <==>
            (forall i :: 0 <= i < |nodes| && Blocked(nodes, i) ==> DirectlyHeld(nodes, i))
  {
    hide Valid, Ordered, Blocked, DirectlyHeld, WaitsForHeld;
    if forall i :: 0 <= i < |nodes| && Blocked(nodes, i) ==> DirectlyHeld(nodes, i) {
      forall i | 0 <= i < |nodes| && Blocked(nodes, i)
        ensures WaitsForHeld(nodes, i)
      {
        FollowHeld(nodes, i, {});
      }
    }
    forall i | 0 <= i < |nodes| && Blocked(nodes, i) && WaitsForHeld(nodes, i)
      ensures DirectlyHeld(nodes, i)
    {
      WaitingIsHeld(nodes, i);
    }
  }

  lemma HeldDependency(nodes: seq<Node>, i: nat) returns (k: nat)
    requires Valid(nodes) && i < |nodes| && DirectlyHeld(nodes, i)
    ensures k < |nodes| && nodes[k].status != Completed && !IsReady(nodes, k)
    ensures nodes[i].id in Ids(nodes) && Reaches(GraphOf(nodes), nodes[i].id, nodes[k].id)
  {
    hide IndexOf, IsReady, Reaches;
    UniqueIndex(nodes, i);
    k :| 0 <= k < |nodes| && nodes[k].id in nodes[i].dependsOn && nodes[k].status != Completed && !IsReady(nodes, k);
    EdgeReaches(GraphOf(nodes), nodes[i].id, nodes[k].id);
  }

  lemma WaitsThrough(nodes: seq<Node>, i: nat, k: nat)
    requires i < |nodes| && k < |nodes| && Reaches(GraphOf(nodes), nodes[i].id, nodes[k].id)
    requires nodes[k].status in {Running, Failed, Skipped} || WaitsForHeld(nodes, k)
    ensures WaitsForHeld(nodes, i)
  {
    hide GraphOf, Reaches;
    if nodes[k].status !in {Running, Failed, Skipped} {
      var g := GraphOf(nodes);
      var j :| 0 <= j < |nodes| && nodes[j].status in {Running, Failed, Skipped} && Reaches(g, nodes[k].id, nodes[j].id);
      ReachesTransitive(g, nodes[i].id, nodes[k].id, nodes[j].id);
    }
  }

  lemma {:induction false} FollowHeld(nodes: seq<Node>, i: nat, seen: set<string>)
    requires Valid(nodes) && i < |nodes| && Blocked(nodes, i)
    requires forall k :: 0 <= k < |nodes| && Blocked(nodes, k) ==> DirectlyHeld(nodes, k)
    requires nodes[i].id !in seen && forall x :: x in seen ==> Reaches(GraphOf(nodes), x, nodes[i].id)
    ensures WaitsForHeld(nodes, i)
    decreases |Ids(nodes) - seen|
  {
    hide DirectlyHeld, WaitsForHeld, Ids, GraphOf, UniqueIds, DependenciesExist, IsReady, Reaches;
    var g, id := GraphOf(nodes), nodes[i].id;
    var k := HeldDependency(nodes, i);
    var d := nodes[k].id;
    if nodes[k].status == Pending {
      forall x | x in seen + {id}
        ensures Reaches(g, x, d) && x != d
      {
        if x != id { ReachesTransitive(g, x, id, d); }
        NoWayBack(nodes, d);
      }
      SmallerRest(Ids(nodes), seen, id);
      FollowHeld(nodes, k, seen + {id});
    }
    WaitsThrough(nodes, i, k);
  }

  lemma NoWayBack(nodes: seq<Node>, d: string)
    requires Valid(nodes)
    ensures !Reaches(GraphOf(nodes), d, d)
  {
    hide GraphOf, Reaches;
  }

  /** What completed and ready nodes depend on is completed, so only a held dependency leads further. */
  lemma WaitingIsHeld(nodes: seq<Node>, i: nat)
    requires Valid(nodes) && Ordered(nodes) && i < |nodes| && Blocked(nodes, i) && WaitsForHeld(nodes, i)
    ensures DirectlyHeld(nodes, i)
  {
    hide IndexOf, Reaches;
    var g, done := GraphOf(nodes), CompletedIds(nodes);
    UniqueIndex(nodes, i);
    if !DirectlyHeld(nodes, i) {
      var open := done + set d | d in nodes[i].dependsOn;
      forall u, v | u in open && Edge(g, u, v)
        ensures v in open
      {
        assert u in Ids(nodes);
        var k :| 0 <= k < |nodes| && nodes[k].id == u;
        UniqueIndex(nodes, k);
        NotCompleted(nodes, k);
      }
      var j :| 0 <= j < |nodes| && nodes[j].status in {Running, Failed, Skipped} && Reaches(g, nodes[i].id, nodes[j].id);
      var v := FirstStep(g, nodes[i].id, nodes[j].id);
      if v != nodes[j].id { ClosedReaches(g, open, v, nodes[j].id); }
      NotCompleted(nodes, j);
      assert false;
    }
  }

  lemma InvOrdered(s: Run)
    requires Inv(s)
    ensures Ordered(s.nodes)
  {
    hide CompletedIds, Valid;
    forall i, d | 0 <= i < |s.nodes| && s.nodes[i].status in {Running, Completed} && d in s.nodes[i].dependsOn
      ensures d in CompletedIds(s.nodes)
    {
      assert NodeInv(s.nodes[i], s.starts[i], CompletedIds(s.nodes));
    }
  }

  /** So in every reachable state: all blocked tasks wait for a running, failed or skipped one exactly
      when each has a dependency that is neither completed nor ready. */
  lemma BlockedInRuns(s: Run, steps: seq<Step>)
    requires Valid(s.nodes) && Initial(s) && CanRun(s, steps)
    ensures var nodes := After(s, steps).nodes;
            (forall i :: 0 <= i < |nodes| && Blocked(nodes, i) ==> WaitsForHeld(nodes, i)) <==>
            (forall i :: 0 <= i < |nodes| && Blocked(nodes, i) ==> DirectlyHeld(nodes, i))
  {
    hide Blocked, WaitsForHeld, DirectlyHeld, Ordered;
    RunKeepsInv(s, steps);
    InvOrdered(After(s, steps));
    BlockedExact(After(s, steps).nodes);
  }

  /** When nothing can be started, every pending node waits for one that is running, failed or skipped. */
  lemma StuckExplained(nodes: seq<Node>, i: nat) returns (j: nat)
    requires Valid(nodes) && i < |nodes| && nodes[i].status == Pending && ReadyTasks(nodes) == []
    ensures j < |nodes| && nodes[j].status in {Running, Failed, Skipped} && Reaches(GraphOf(nodes), nodes[i].id, nodes[j].id)
  {
    ReadyUpToMember(nodes, |nodes|, nodes[i]);
    j := BlockedByHolder(nodes, i);
    ReadyUpToMember(nodes, |nodes|, nodes[j]);
  }

  /** While nothing is running, failed or skipped, some task is ready until all are complete. */
  lemma ReadyUntilComplete(nodes: seq<Node>)
    requires Valid(nodes)
    requires forall i :: 0 <= i < |nodes| ==> nodes[i].status in {Pending, Completed}
    ensures ReadyTasks(nodes) != [] || IsComplete(nodes)
  {
    if !IsComplete(nodes) {
      var i :| 0 <= i < |nodes| && nodes[i].status == Pending;
      var j := i;
      if !IsReady(nodes, i) { j := BlockedByHolder(nodes, i); }
      ReadyUpToMember(nodes, |nodes|, nodes[j]);
    }
  }

  /** A graph is complete exactly when the driver can neither finish, fail nor skip any node. */
  lemma CompleteIsQuiet(s: Run)
    requires |s.starts| == |s.nodes|
    ensures IsComplete(s.nodes) <==>
      && (forall i: nat, path: string :: !Enabled(s, Finish(i, path)))
      && (forall i: nat :: !Enabled(s, Fail(i)))
      && (forall i: nat :: !Enabled(s, Skip(i)))
  {
    if !IsComplete(s.nodes) {
      var i: nat :| i < |s.nodes| && s.nodes[i].status !in {Completed, Failed, Skipped};
      if s.nodes[i].status == Running {
        assert Enabled(s, Finish(i, ""));
      } else {
        assert Enabled(s, Skip(i));
      }
    }
  }

  // ---------- executing whatever is ready ----------

  function Executed(nodes: seq<Node>, i: nat, path: string): seq<Node>
    requires i < |nodes|
  {
    WithResult(WithStatus(nodes, nodes[i].id, Running), nodes[i].id, path)
  }

  /** An order of executions, each of a node that is ready at its turn. */
  predicate GreedyOrder(nodes: seq<Node>, order: seq<nat>, path: string)
    decreases |order|
  {
    order == [] ||
    (order[0] < |nodes| && IsReady(nodes, order[0]) && GreedyOrder(Executed(nodes, order[0], path), order[1..], path))
  }

  function ExecuteAll(nodes: seq<Node>, order: seq<nat>, path: string): seq<Node>
    requires GreedyOrder(nodes, order, path)
    decreases |order|
  {
    if order == [] then nodes else ExecuteAll(Executed(nodes, order[0], path), order[1..], path)
  }

  predicate OnlyPendingOrCompleted(nodes: seq<Node>) {
    forall i :: 0 <= i < |nodes| ==> nodes[i].status in {Pending, Completed}
  }

  lemma ExecutedEffect(nodes: seq<Node>, i: nat, path: string)
    requires Valid(nodes) && OnlyPendingOrCompleted(nodes) && i < |nodes| && IsReady(nodes, i)
    ensures var u := Executed(nodes, i, path);
            && SameShape(nodes, u) && Valid(u) && OnlyPendingOrCompleted(u)
            && u == nodes[i := u[i]] && u[i].status == Completed
            && CompletedIds(u) == CompletedIds(nodes) + {nodes[i].id}
  {
    hide IndexOf, GraphOf, CompletedIds;
    UniqueIndex(nodes, i);
    var m := nodes[i := nodes[i].(status := Running)];
    assert SameShape(nodes, m);
    ShapeKeepsGraph(nodes, m);
    var n := m[i].(status := Completed, resultPath := Some(path));
    var u := nodes[i := n];
    assert Executed(nodes, i, path) == u by { assert m[i := n] == u; }
    assert SameShape(nodes, u);
    ShapeKeepsValid(nodes, u);
    CompletedAfter(nodes, i, n);
  }

  /** An order is topological: every dependency was completed before or is executed earlier. */
  predicate Topological(nodes: seq<Node>, order: seq<nat>) {
    && (forall k :: 0 <= k < |order| ==> order[k] < |nodes|)
    && (forall k, d :: 0 <= k < |order| && d in nodes[order[k]].dependsOn
          ==> d in CompletedIds(nodes) || exists m :: 0 <= m < k && nodes[order[m]].id == d)
  }

  predicate Distinct(order: seq<nat>) {
    forall k, m :: 0 <= k < m < |order| ==> order[k] != order[m]
  }

  lemma {:induction false} GreedyIsTopological(nodes: seq<Node>, order: seq<nat>, path: string)
    requires Valid(nodes) && OnlyPendingOrCompleted(nodes) && GreedyOrder(nodes, order, path)
    ensures Topological(nodes, order) && Distinct(order)
    ensures forall k :: 0 <= k < |order| ==> nodes[order[k]].status == Pending
    ensures var t := ExecuteAll(nodes, order, path);
            && SameShape(nodes, t) && Valid(t) && OnlyPendingOrCompleted(t)
            && forall i :: 0 <= i < |nodes| ==> (t[i].status == Completed <==> nodes[i].status == Completed || i in order)
    decreases |order|
  {
    hide Valid, IndexOf, CompletedIds, Executed;
    if order != [] {
      var i := order[0];
      var rest := order[1..];
      var u := Executed(nodes, i, path);
      ExecutedEffect(nodes, i, path);
      GreedyIsTopological(u, rest, path);
      assert order == [i] + rest;
      TopologicalStep(nodes, u, i, rest);
    }
  }

  lemma TopologicalStep(nodes: seq<Node>, u: seq<Node>, i: nat, rest: seq<nat>)
    requires SameShape(nodes, u) && i < |nodes|
    requires forall d :: d in nodes[i].dependsOn ==> d in CompletedIds(nodes)
    requires CompletedIds(u) == CompletedIds(nodes) + {nodes[i].id}
    requires Topological(u, rest)
    ensures Topological(nodes, [i] + rest)
  {
    hide CompletedIds;
    var order := [i] + rest;
    forall k, d | 0 <= k < |order| && d in nodes[order[k]].dependsOn
      ensures d in CompletedIds(nodes) || exists m :: 0 <= m < k && nodes[order[m]].id == d
    {
      if k > 0 && d !in CompletedIds(nodes) {
        assert order[k] == rest[k - 1] && d in u[rest[k - 1]].dependsOn;
        if d in CompletedIds(u) {
          assert nodes[order[0]].id == d;
        } else {
          var m :| 0 <= m < k - 1 && u[rest[m]].id == d;
          assert nodes[order[m + 1]].id == d;
        }
      }
    }
  }

  /** From a fresh valid graph, executing ready tasks until none is left completes every node,
      each exactly once and after everything it depends on. */
  lemma GreedyCompletes(nodes: seq<Node>, order: seq<nat>, path: string)
    requires Valid(nodes) && GreedyOrder(nodes, order, path)
    requires forall i :: 0 <= i < |nodes| ==> nodes[i].status == Pending
    requires ReadyTasks(ExecuteAll(nodes, order, path)) == []
    ensures Topological(nodes, order) && CompletedIds(nodes) == {}
    ensures Distinct(order) && forall i :: 0 <= i < |nodes| ==> i in order
    ensures var t := ExecuteAll(nodes, order, path);
            |t| == |nodes| && forall i :: 0 <= i < |t| ==> t[i].status == Completed
  {
    hide IndexOf, Valid;
    GreedyIsTopological(nodes, order, path);
    ReadyUntilComplete(ExecuteAll(nodes, order, path));
  }

  lemma GreedyCons(nodes: seq<Node>, i: nat, rest: seq<nat>, path: string)
    requires i < |nodes| && IsReady(nodes, i) && GreedyOrder(Executed(nodes, i, path), rest, path)
    ensures GreedyOrder(nodes, [i] + rest, path)
    ensures ExecuteAll(nodes, [i] + rest, path) == ExecuteAll(Executed(nodes, i, path), rest, path)
  {
    hide IndexOf, IsReady, Executed;
    assert ([i] + rest)[1..] == rest;
  }

  lemma SomeReady(nodes: seq<Node>) returns (i: nat)
    requires Valid(nodes) && OnlyPendingOrCompleted(nodes) && !IsComplete(nodes)
    ensures i < |nodes| && IsReady(nodes, i) && nodes[i].id in Ids(nodes) && nodes[i].id !in CompletedIds(nodes)
  {
    hide IndexOf, GraphOf;
    ReadyUntilComplete(nodes);
    var x := ReadyTasks(nodes)[0];
    ReadyUpToMember(nodes, |nodes|, x);
    i :| 0 <= i < |nodes| && IsReady(nodes, i) && nodes[i] == x;
  }

  /** Such an order exists for every valid graph. */
  lemma {:induction false} GreedyOrderExists(nodes: seq<Node>, path: string) returns (order: seq<nat>)
    requires Valid(nodes) && OnlyPendingOrCompleted(nodes)
    ensures GreedyOrder(nodes, order, path) && IsComplete(ExecuteAll(nodes, order, path))
    decreases |Ids(nodes) - CompletedIds(nodes)|
  {
    hide Valid, IndexOf, GraphOf, Executed, Ids, CompletedIds, IsReady;
    if IsComplete(nodes) {
      order := [];
    } else {
      var i := SomeReady(nodes);
      var u := Executed(nodes, i, path);
      ExecutedEffect(nodes, i, path);
      ShapeKeepsGraph(nodes, u);
      SmallerRest(Ids(nodes), CompletedIds(nodes), nodes[i].id);
      var rest := GreedyOrderExists(u, path);
      GreedyCons(nodes, i, rest, path);
      order := [i] + rest;
    }
  }
}
