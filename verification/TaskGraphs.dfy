/** The task graph: nodes with dependencies, validation by depth-first search,
    readiness, and the operations that change a node in place. */
module TaskGraphs {
  import opened Text
  import opened Graphs

  datatype Status = Pending | Running | Completed | Failed | Skipped

  datatype Node = Node(
    id: string,
    agent: string,
    status: Status,
    dependsOn: seq<string>,
    resultPath: Option<string>,
    maxRetries: nat,
    retryCount: nat)

  // ---------- views of a node list ----------

  /** The first node with the given id. */
  function IndexOf(nodes: seq<Node>, id: string): (r: Option<nat>)
    ensures r.Some? ==> r.value < |nodes| && nodes[r.value].id == id && forall j :: 0 <= j < r.value ==> nodes[j].id != id
    ensures r.None? ==> forall j :: 0 <= j < |nodes| ==> nodes[j].id != id
  {
    if nodes == [] then None
    else if nodes[0].id == id then Some(0)
    else
      var r := IndexOf(nodes[1..], id);
      assert forall j :: 1 <= j < |nodes| ==> nodes[j] == nodes[1..][j - 1];
      if r.Some? then Some(r.value + 1) else None
  }

  function Ids(nodes: seq<Node>): set<string> {
    set i | 0 <= i < |nodes| :: nodes[i].id
  }

  /** The dependency graph: what `find_node` sees under each id. */
  function GraphOf(nodes: seq<Node>): (g: Graph)
    ensures g.Keys == Ids(nodes)
  {
    map id | id in Ids(nodes) :: nodes[IndexOf(nodes, id).value].dependsOn
  }

  predicate UniqueIds(nodes: seq<Node>) {
    forall i, j :: 0 <= i < j < |nodes| ==> nodes[i].id != nodes[j].id
  }

  predicate DependenciesExist(nodes: seq<Node>) {
    forall i, d :: 0 <= i < |nodes| && d in nodes[i].dependsOn ==> d in Ids(nodes)
  }

  ghost predicate Valid(nodes: seq<Node>) {
    UniqueIds(nodes) && DependenciesExist(nodes) && !Cyclic(GraphOf(nodes))
  }

  lemma UniqueIndex(nodes: seq<Node>, i: nat)
    requires UniqueIds(nodes) && i < |nodes|
    ensures IndexOf(nodes, nodes[i].id) == Some(i)
    ensures GraphOf(nodes)[nodes[i].id] == nodes[i].dependsOn
  {
  }

  function CompletedIds(nodes: seq<Node>): set<string> {
    set i | 0 <= i < |nodes| && nodes[i].status == Completed :: nodes[i].id
  }

  predicate IsReady(nodes: seq<Node>, i: nat)
    requires i < |nodes|
  {
    nodes[i].status == Pending && forall d :: d in nodes[i].dependsOn ==> d in CompletedIds(nodes)
  }

  /** Pending nodes whose dependencies are all completed, in node order. */
  function ReadyTasks(nodes: seq<Node>): seq<Node> {
    ReadyUpTo(nodes, |nodes|)
  }

  function ReadyUpTo(nodes: seq<Node>, n: nat): seq<Node>
    requires n <= |nodes|
  {
    if n == 0 then []
    else ReadyUpTo(nodes, n - 1) + (if IsReady(nodes, n - 1) then [nodes[n - 1]] else [])
  }

  lemma {:induction false} ReadyUpToMember(nodes: seq<Node>, n: nat, x: Node)
    requires n <= |nodes|
    ensures x in ReadyUpTo(nodes, n) <==> exists i :: 0 <= i < n && IsReady(nodes, i) && nodes[i] == x
  {
    if n > 0 { ReadyUpToMember(nodes, n - 1, x); }
  }

  predicate IsComplete(nodes: seq<Node>) {
    forall i :: 0 <= i < |nodes| ==> nodes[i].status in {Completed, Failed, Skipped}
  }

  // ---------- what the mutating operations compute ----------

  function WithStatus(nodes: seq<Node>, id: string, status: Status): seq<Node> {
    var i := IndexOf(nodes, id);
    if i.None? then nodes else nodes[i.value := nodes[i.value].(status := status)]
  }

  /** A late result is dropped when the node already failed or completed. */
  function WithResult(nodes: seq<Node>, id: string, path: string): seq<Node> {
    var i := IndexOf(nodes, id);
    if i.None? || nodes[i.value].status in {Failed, Completed} then nodes
    else nodes[i.value := nodes[i.value].(status := Completed, resultPath := Some(path))]
  }

  predicate CanRetry(nodes: seq<Node>, id: string) {
    var i := IndexOf(nodes, id);
    i.Some? && nodes[i.value].retryCount < nodes[i.value].maxRetries
  }

  function WithRetry(nodes: seq<Node>, id: string): seq<Node> {
    if !CanRetry(nodes, id) then nodes
    else
      var i := IndexOf(nodes, id).value;
      nodes[i := nodes[i].(status := Pending, retryCount := nodes[i].retryCount + 1)]
  }

  /** Only statuses, results and retry counts differ. */
  predicate SameShape(a: seq<Node>, b: seq<Node>) {
    |a| == |b| && forall i :: 0 <= i < |a| ==>
      a[i].id == b[i].id && a[i].dependsOn == b[i].dependsOn && a[i].maxRetries == b[i].maxRetries
  }

  lemma ShapeKeepsGraph(a: seq<Node>, b: seq<Node>)
    requires SameShape(a, b)
    ensures Ids(a) == Ids(b) && GraphOf(a) == GraphOf(b)
    ensures forall id :: IndexOf(a, id) == IndexOf(b, id)
  {
    hide IndexOf, GraphOf;
    forall id
      ensures IndexOf(a, id) == IndexOf(b, id)
    {
      var i, j := IndexOf(a, id), IndexOf(b, id);
      if i.Some? { assert b[i.value].id == id; }
      if j.Some? { assert a[j.value].id == id; }
    }
    assert forall i :: 0 <= i < |a| ==> a[i].id == b[i].id;
    assert Ids(a) == Ids(b);
    SameLookups(a, b);
  }

  lemma SameLookups(a: seq<Node>, b: seq<Node>)
    requires SameShape(a, b) && Ids(a) == Ids(b)
    requires forall id :: IndexOf(a, id) == IndexOf(b, id)
    ensures GraphOf(a) == GraphOf(b)
  {
    hide IndexOf;
  }

  // ---------- the graph object ----------

  datatype ValidationError = DuplicateId(id: string) | MissingDependency(id: string, dep: string) | HasCycles

  datatype Result<+T, +E> = Ok(value: T) | Err(error: E)

  datatype Unit = Unit

  /** Visited nodes that are finished: closed under dependencies and on no cycle. */
  ghost predicate SearchState(g: Graph, visited: set<string>, stack: set<string>) {
    && stack <= visited
    && ClosedUnder(g, visited - stack)
    && forall x :: x in visited - stack ==> !Reaches(g, x, x)
  }

  class TaskGraph {
    var nodes: seq<Node>

    constructor (nodes: seq<Node>)
      ensures this.nodes == nodes
    {
      this.nodes := nodes;
    }

    /** `update_status`: changes one node, or reports that there is none. */
    method UpdateStatus(id: string, status: Status) returns (found: bool)
      modifies this
      ensures found <==> id in Ids(old(nodes))
      ensures nodes == WithStatus(old(nodes), id, status)
      ensures SameShape(old(nodes), nodes)
    {
      var i := IndexOf(nodes, id);
      if i.None? { return false; }
      nodes := nodes[i.value := nodes[i.value].(status := status)];
      return true;
    }

    /** `set_result`: completes a node unless it is already failed or completed. */
    method SetResult(id: string, path: string) returns (found: bool)
      modifies this
      ensures found <==> id in Ids(old(nodes))
      ensures nodes == WithResult(old(nodes), id, path)
      ensures SameShape(old(nodes), nodes)
    {
      var i := IndexOf(nodes, id);
      if i.None? { return false; }
      if nodes[i.value].status == Failed || nodes[i.value].status == Completed {
        return true;
      }
      nodes := nodes[i.value := nodes[i.value].(resultPath := Some(path))];
      nodes := nodes[i.value := nodes[i.value].(status := Completed)];
      return true;
    }

    /** `retry_failed`: sends a node back to pending while retries are left. */
    method RetryFailed(id: string) returns (r: Result<bool, Unit>)
      modifies this
      ensures r.Err? <==> id !in Ids(old(nodes))
      ensures r.Ok? ==> (r.value <==> CanRetry(old(nodes), id))
      ensures nodes == WithRetry(old(nodes), id)
      ensures SameShape(old(nodes), nodes)
    {
      var i := IndexOf(nodes, id);
      if i.None? { return Err(Unit); }
      var node := nodes[i.value];
      if node.retryCount < node.maxRetries {
        nodes := nodes[i.value := node.(retryCount := node.retryCount + 1, status := Pending)];
        return Ok(true);
      }
      return Ok(false);
    }

    /** One depth-first visit. `visited` and `stack` are handed back as the visit leaves them.
        The outer loop of `HasCycle` also enters nodes that are already visited. */
    method DfsCycle(id: string, visited: set<string>, stack: set<string>, ghost universe: set<string>)
        returns (cycle: bool, visited': set<string>, stack': set<string>)
      requires forall u, v :: Edge(GraphOf(nodes), u, v) ==> v in universe
      requires id in universe && id !in stack
      requires SearchState(GraphOf(nodes), visited, stack)
      requires forall x :: x in stack ==> Reaches(GraphOf(nodes), x, id)
      requires id in visited ==> stack == {}
      ensures cycle ==> Cyclic(GraphOf(nodes))
      ensures !cycle ==> stack' == stack && visited + {id} <= visited' && SearchState(GraphOf(nodes), visited', stack')
      decreases |universe - visited|, if id in visited then 1 else 0
    {
      hide IndexOf, Reaches, Cyclic;
      ghost var g := GraphOf(nodes);
      visited' := visited + {id};
      stack' := stack + {id};
      var found := IndexOf(nodes, id);
      if found.Some? {
        var deps := nodes[found.value].dependsOn;
        assert g[id] == deps;
        for k := 0 to |deps|
          invariant stack' == stack + {id}
          invariant visited + {id} <= visited'
          invariant id in visited ==> visited' == visited
          invariant id !in visited ==> SearchState(g, visited', stack')
          invariant id !in visited ==> forall j :: 0 <= j < k ==> deps[j] in visited' - stack'
        {
          var dep := deps[k];
          assert Edge(g, id, dep);
          StackReaches(g, stack, id, dep);
          if dep !in visited' {
            UniverseShrinks(universe, visited, visited', id, dep);
            var sub;
            sub, visited', stack' := DfsCycle(dep, visited', stack', universe);
            if sub {
              return true, visited', stack';
            }
          } else if dep in stack' {
            BackEdge(g, dep);
            return true, visited', stack';
          }
        }
      }
      if id !in visited {
        FinishNode(g, visited', stack', id);
      }
      stack' := stack' - {id};
      assert stack' == stack;
      return false, visited', stack';
    }

    method HasCycle() returns (cycle: bool)
      ensures cycle <==> Cyclic(GraphOf(nodes))
    {
      hide IndexOf, Walk;
      ghost var g := GraphOf(nodes);
      var visited: set<string> := {};
      var stack: set<string> := {};
      ghost var universe := Ids(nodes) + set i, k | 0 <= i < |nodes| && 0 <= k < |nodes[i].dependsOn| :: nodes[i].dependsOn[k];
      for n := 0 to |nodes|
        invariant stack == {} && SearchState(g, visited, stack)
        invariant forall i :: 0 <= i < n ==> nodes[i].id in visited
      {
        var sub;
        sub, visited, stack := DfsCycle(nodes[n].id, visited, stack, universe);
        if sub {
          return true;
        }
      }
      forall x
        ensures !Reaches(g, x, x)
      {
        if x in Ids(nodes) {
          assert x in visited - stack;
        } else if Reaches(g, x, x) {
          var y := FirstStep(g, x, x);
        }
      }
      return false;
    }

    /** `validate`: duplicate ids, then missing dependencies, then cycles. */
    method Validate() returns (r: Result<Unit, ValidationError>)
      ensures r.Ok? <==> Valid(nodes)
      ensures r.Err? && r.error.DuplicateId? <==> !UniqueIds(nodes)
      ensures r.Err? && r.error.MissingDependency? <==> UniqueIds(nodes) && !DependenciesExist(nodes)
      ensures r.Err? && r.error.MissingDependency? ==> r.error.dep !in Ids(nodes) && Edge(GraphOf(nodes), r.error.id, r.error.dep)
    {
      var seenIds: set<string> := {};
      for n := 0 to |nodes|
        invariant seenIds == set i | 0 <= i < n :: nodes[i].id
        invariant forall i, j :: 0 <= i < j < n ==> nodes[i].id != nodes[j].id
      {
        if nodes[n].id in seenIds {
          return Err(DuplicateId(nodes[n].id));
        }
        seenIds := seenIds + {nodes[n].id};
      }
      assert seenIds == Ids(nodes);
      for n := 0 to |nodes|
        invariant forall i, d :: 0 <= i < n && d in nodes[i].dependsOn ==> d in seenIds
      {
        var deps := nodes[n].dependsOn;
        for k := 0 to |deps|
          invariant forall j :: 0 <= j < k ==> deps[j] in seenIds
        {
          if deps[k] !in seenIds {
            UniqueIndex(nodes, n);
            return Err(MissingDependency(nodes[n].id, deps[k]));
          }
        }
      }
      var cycle := HasCycle();
      if cycle {
        return Err(HasCycles);
      }
      return Ok(Unit);
    }
  }

  lemma StackReaches(g: Graph, stack: set<string>, id: string, dep: string)
    requires Edge(g, id, dep) && forall x :: x in stack ==> Reaches(g, x, id)
    ensures forall x :: x in stack + {id} ==> Reaches(g, x, dep)
  {
    EdgeReaches(g, id, dep);
    forall x | x in stack
      ensures Reaches(g, x, dep)
    {
      ReachesTransitive(g, x, id, dep);
    }
  }

  lemma BackEdge(g: Graph, x: string)
    requires Reaches(g, x, x)
    ensures Cyclic(g)
  {
  }

  lemma UniverseShrinks(universe: set<string>, visited: set<string>, now: set<string>, id: string, dep: string)
    requires id in universe && visited + {id} <= now
    ensures |universe - now| < |universe - visited| || id in visited
    ensures |universe - now| <= |universe - visited|
  {
    SubsetSize(universe - now, universe - visited);
    if id !in visited {
      assert universe - now <= universe - visited - {id};
      SubsetSize(universe - now, universe - visited - {id});
    }
  }

  lemma {:induction false} SubsetSize<T>(a: set<T>, b: set<T>)
    requires a <= b
    ensures |a| <= |b|
  {
    if a != {} {
      var x :| x in a;
      SubsetSize(a - {x}, b - {x});
    }
  }

  /** When all dependencies of `id` are finished, so is `id`. */
  lemma FinishNode(g: Graph, visited: set<string>, stack: set<string>, id: string)
    requires SearchState(g, visited, stack) && id in stack
    requires forall v :: Edge(g, id, v) ==> v in visited - stack
    ensures SearchState(g, visited, stack - {id})
  {
    var done := visited - stack;
    assert visited - (stack - {id}) == done + {id};
    if Reaches(g, id, id) {
      var v := FirstStep(g, id, id);
      if v != id { ClosedReaches(g, done, v, id); }
      assert false;
    }
  }
}
