/** Who may talk to whom in a collaboration session: the policy, the pair sets that are computed
    once from the task graph, and the lookup that answers from them. */
module Mesh {
  import opened Text
  import opened Graphs
  import opened TaskGraphs
  import opened NameTranslation
  import DagYaml

  type Pair = (string, string)

  datatype MeshPolicy = Open | Adjacent | Star(hub: string) | Restricted(pairs: seq<Pair>)

  /** `MeshPolicy::parse`. */
  function ParsePolicy(s: string): Option<MeshPolicy> {
    var trimmed := Trim(s);
    if DagYaml.EqIgnoreCase(trimmed, "open") then Some(Open)
    else if DagYaml.EqIgnoreCase(trimmed, "adjacent") then Some(Adjacent)
    else if "star:" <= trimmed then
      var hub := Trim(trimmed[5..]);
      if hub == [] then None else Some(Star(hub))
    else None
  }

  /** The policy of a session: open if none is given, or none that parses. */
  function SessionPolicy(communication: Option<string>): MeshPolicy {
    if communication.Some? && ParsePolicy(communication.value).Some? then ParsePolicy(communication.value).value else Open
  }

  datatype Session = Session(participants: set<string>, policy: MeshPolicy, adjacentPairs: set<Pair>, restrictedPairs: set<Pair>)

  // ---------- what the policies mean on the raw graph ----------

  /** Node i depends on node j, as `find_node` resolves the dependency. */
  predicate DependsOn(nodes: seq<Node>, i: int, j: int) {
    0 <= i < |nodes| && 0 <= j < |nodes| && nodes[j].id in nodes[i].dependsOn && IndexOf(nodes, nodes[j].id) == Some(j)
  }

  /** Some node of one agent depends on some node of the other. */
  ghost predicate Linked(nodes: seq<Node>, a: string, b: string) {
    exists i, j :: DependsOn(nodes, i, j) && nodes[i].agent == a && nodes[j].agent == b
  }

  function Agents(nodes: seq<Node>): set<string> {
    set i | 0 <= i < |nodes| :: nodes[i].agent
  }

  ghost predicate Permitted(nodes: seq<Node>, policy: MeshPolicy, a: string, b: string) {
    && a in Agents(nodes) && b in Agents(nodes)
    && match policy
       case Open => true
       case Star(hub) => a == hub || b == hub
       case Adjacent => a != b && (Linked(nodes, a, b) || Linked(nodes, b, a))
       case Restricted(pairs) => (a, b) in pairs || (b, a) in pairs
  }

  // ---------- the computed session ----------

  /** Among the first n nodes, and the first k dependencies of the one after them, an edge
      joins an agent a to a different agent b. */
  ghost predicate LinkedUpTo(nodes: seq<Node>, n: nat, k: nat, a: string, b: string) {
    a != b && exists i, j :: DependsOn(nodes, i, j) && nodes[i].agent == a && nodes[j].agent == b && Seen(nodes, n, k, i, j)
  }

  predicate Seen(nodes: seq<Node>, n: nat, k: nat, i: int, j: int)
    requires 0 <= i < |nodes| && 0 <= j < |nodes|
  {
    i < n || (i == n && k <= |nodes[i].dependsOn| && nodes[j].id in nodes[i].dependsOn[..k])
  }

  ghost predicate Holds(pairs: set<Pair>, nodes: seq<Node>, n: nat, k: nat) {
    forall a, b :: (a, b) in pairs <==> LinkedUpTo(nodes, n, k, a, b) || LinkedUpTo(nodes, n, k, b, a)
  }

  /** `compute_adjacency`. */
  method ComputeAdjacency(nodes: seq<Node>) returns (pairs: set<Pair>)
    ensures forall a, b :: (a, b) in pairs <==> a != b && (Linked(nodes, a, b) || Linked(nodes, b, a))
  {
    hide IndexOf, LinkedUpTo, Linked, Holds;
    pairs := {};
    NothingSeen(nodes);
    for n := 0 to |nodes|
      invariant Holds(pairs, nodes, n, 0)
    {
      var deps := nodes[n].dependsOn;
      for k := 0 to |deps|
        invariant Holds(pairs, nodes, n, k)
      {
        var dep := IndexOf(nodes, deps[k]);
        ghost var before := pairs;
        if dep.Some? && nodes[n].agent != nodes[dep.value].agent {
          pairs := pairs + {(nodes[n].agent, nodes[dep.value].agent)};
          pairs := pairs + {(nodes[dep.value].agent, nodes[n].agent)};
        }
        OneMoreSeen(before, pairs, nodes, n, k);
      }
      NodeSeen(pairs, nodes, n);
    }
    AllSeen(pairs, nodes);
  }

  lemma NothingSeen(nodes: seq<Node>)
    ensures Holds({}, nodes, 0, 0)
  {
    hide IndexOf;
  }

  lemma OneMoreLinked(nodes: seq<Node>, n: nat, k: nat, a: string, b: string)
    requires n < |nodes| && k < |nodes[n].dependsOn|
    ensures var dep := IndexOf(nodes, nodes[n].dependsOn[k]);
            LinkedUpTo(nodes, n, k + 1, a, b) <==>
              LinkedUpTo(nodes, n, k, a, b) || (dep.Some? && a != b && a == nodes[n].agent && b == nodes[dep.value].agent)
  {
    hide IndexOf;
    var deps := nodes[n].dependsOn;
    var dep := IndexOf(nodes, deps[k]);
    assert deps[..k + 1] == deps[..k] + [deps[k]];
    assert deps[k] in deps;
    if dep.Some? && a != b && a == nodes[n].agent && b == nodes[dep.value].agent {
      assert DependsOn(nodes, n, dep.value) && Seen(nodes, n, k + 1, n, dep.value);
    }
    if LinkedUpTo(nodes, n, k + 1, a, b) {
      var i, j :| DependsOn(nodes, i, j) && nodes[i].agent == a && nodes[j].agent == b && Seen(nodes, n, k + 1, i, j);
      if !Seen(nodes, n, k, i, j) {
        assert i == n && nodes[j].id == deps[k] && dep == Some(j);
      }
    }
    if LinkedUpTo(nodes, n, k, a, b) {
      var i, j :| DependsOn(nodes, i, j) && nodes[i].agent == a && nodes[j].agent == b && Seen(nodes, n, k, i, j);
      assert Seen(nodes, n, k + 1, i, j);
    }
  }

  lemma OneMoreSeen(before: set<Pair>, pairs: set<Pair>, nodes: seq<Node>, n: nat, k: nat)
    requires n < |nodes| && k < |nodes[n].dependsOn| && Holds(before, nodes, n, k)
    requires var dep := IndexOf(nodes, nodes[n].dependsOn[k]);
             pairs == if dep.Some? && nodes[n].agent != nodes[dep.value].agent
               then before + {(nodes[n].agent, nodes[dep.value].agent)} + {(nodes[dep.value].agent, nodes[n].agent)}
               else before
    ensures Holds(pairs, nodes, n, k + 1)
  {
    hide IndexOf, LinkedUpTo;
    forall a, b
      ensures (a, b) in pairs <==> LinkedUpTo(nodes, n, k + 1, a, b) || LinkedUpTo(nodes, n, k + 1, b, a)
    {
      OneMoreLinked(nodes, n, k, a, b);
      OneMoreLinked(nodes, n, k, b, a);
    }
  }

  lemma NodeSeen(pairs: set<Pair>, nodes: seq<Node>, n: nat)
    requires n < |nodes| && Holds(pairs, nodes, n, |nodes[n].dependsOn|)
    ensures Holds(pairs, nodes, n + 1, 0)
  {
    hide IndexOf;
    var deps := nodes[n].dependsOn;
    assert deps[..|deps|] == deps;
    forall i, j | DependsOn(nodes, i, j)
      ensures Seen(nodes, n, |deps|, i, j) <==> Seen(nodes, n + 1, 0, i, j)
    {
    }
  }

  lemma AllSeen(pairs: set<Pair>, nodes: seq<Node>)
    requires Holds(pairs, nodes, |nodes|, 0)
    ensures forall a, b :: (a, b) in pairs <==> a != b && (Linked(nodes, a, b) || Linked(nodes, b, a))
  {
    hide IndexOf;
    forall i, j | DependsOn(nodes, i, j)
      ensures Seen(nodes, |nodes|, 0, i, j)
    {
    }
    forall a, b
      ensures LinkedUpTo(nodes, |nodes|, 0, a, b) <==> a != b && Linked(nodes, a, b)
    {
    }
  }

  /** `compute_restricted_pairs`. */
  method ComputeRestrictedPairs(policy: MeshPolicy) returns (pairs: set<Pair>)
    ensures forall a, b :: (a, b) in pairs <==> policy.Restricted? && ((a, b) in policy.pairs || (b, a) in policy.pairs)
  {
    pairs := {};
    if policy.Restricted? {
      for k := 0 to |policy.pairs|
        invariant forall a, b :: (a, b) in pairs <==> (a, b) in policy.pairs[..k] || (b, a) in policy.pairs[..k]
      {
        var (x, y) := policy.pairs[k];
        assert policy.pairs[..k + 1] == policy.pairs[..k] + [(x, y)];
        pairs := pairs + {(x, y)};
        pairs := pairs + {(y, x)};
      }
      assert policy.pairs[..|policy.pairs|] == policy.pairs;
    }
  }

  /** The pair sets of a session are those of its graph and policy. */
  ghost predicate Computed(s: Session, nodes: seq<Node>) {
    && s.participants == Agents(nodes)
    && (forall a, b :: (a, b) in s.adjacentPairs <==> a != b && (Linked(nodes, a, b) || Linked(nodes, b, a)))
    && forall a, b :: (a, b) in s.restrictedPairs <==>
         s.policy.Restricted? && ((a, b) in s.policy.pairs || (b, a) in s.policy.pairs)
  }

  /** `CollaborationSession::from_graph`. */
  method FromGraph(nodes: seq<Node>, policy: MeshPolicy) returns (s: Session)
    ensures s.policy == policy && Computed(s, nodes)
  {
    hide Linked;
    var adjacent := ComputeAdjacency(nodes);
    var restricted := ComputeRestrictedPairs(policy);
    return Session(Agents(nodes), policy, adjacent, restricted);
  }

  /** `allows`: participants only, then a lookup. */
  predicate Allows(s: Session, from: string, to: string) {
    && from in s.participants && to in s.participants
    && match s.policy
       case Open => true
       case Star(hub) => from == hub || to == hub
       case Adjacent => (from, to) in s.adjacentPairs
       case Restricted(_) => (from, to) in s.restrictedPairs
  }

  // ---------- the laws ----------

  /** The lookup answers what the policy means on the raw graph, and in both directions alike. */
  lemma AllowsIsPermitted(s: Session, nodes: seq<Node>, a: string, b: string)
    requires Computed(s, nodes)
    ensures Allows(s, a, b) <==> Permitted(nodes, s.policy, a, b)
    ensures Allows(s, a, b) <==> Allows(s, b, a)
  {
    hide Linked;
  }

  /** With unique ids, agents are linked exactly when an edge of the dependency graph joins nodes of theirs. */
  lemma LinkedIsEdge(nodes: seq<Node>, a: string, b: string)
    requires UniqueIds(nodes)
    ensures Linked(nodes, a, b) <==>
      exists i, j :: 0 <= i < |nodes| && 0 <= j < |nodes| && Edge(GraphOf(nodes), nodes[i].id, nodes[j].id)
        && nodes[i].agent == a && nodes[j].agent == b
  {
    hide IndexOf;
    forall i, j | 0 <= i < |nodes| && 0 <= j < |nodes|
      ensures DependsOn(nodes, i, j) <==> Edge(GraphOf(nodes), nodes[i].id, nodes[j].id)
    {
      UniqueIndex(nodes, i);
      UniqueIndex(nodes, j);
    }
  }

  /** A non-blank policy text is accepted with a DAG exactly when it parses and any hub is one
      of the tasks' agents; the stored text is the trimmed one and parses to the same policy. */
  lemma AcceptedPolicyParses(text: string, tasks: seq<DagYaml.YamlTask>)
    requires Trim(text) != []
    ensures DagYaml.ValidCommunication(Some(text), tasks) <==>
      ParsePolicy(text).Some? && (ParsePolicy(text).value.Star? ==> DagYaml.HasAgent(tasks, ParsePolicy(text).value.hub))
    ensures DagYaml.NonBlank(Some(text)) == Some(Trim(text)) && ParsePolicy(Trim(text)) == ParsePolicy(text)
  {
    hide Trim;
    TrimTwice(text);
    StarIsNoKeyword(Trim(text));
  }

  lemma StarIsNoKeyword(t: string)
    ensures "star:" <= t ==> !DagYaml.EqIgnoreCase(t, "open") && !DagYaml.EqIgnoreCase(t, "adjacent")
  {
    assert Lower("open")[0] == 'o' && Lower("adjacent")[0] == 'a';
    if "star:" <= t { assert t[0] == 's' && Lower(t)[0] == 's'; }
  }

  // ---------- from the text of a policy to who may talk ----------

  /** What each policy is written like; every other text is refused. */
  lemma ParsePolicyExact(text: string, policy: MeshPolicy)
    ensures ParsePolicy(text) == Some(policy) <==>
      match policy
      case Open => Writes(text, "open")
      case Adjacent => Writes(text, "adjacent")
      case Star(hub) => DagYaml.WritesStar(text, hub)
      case Restricted(_) => false
  {
    hide Trim, Around, Spells, Lower;
    forall s, x
      ensures Around(s, x) <==> x == Trim(s)
    {
      AroundIsTrim(s, x);
    }
    var t := Trim(text);
    SpellsIsLower(t, "open");
    SpellsIsLower(t, "adjacent");
    WordsAreLower();
    StarIsNoKeyword(t);
    if policy.Star? {
      DagYaml.StarParts(t, policy.hub);
      if ParsePolicy(text) == Some(policy) {
        assert "star:" + t[5..] == t;
        assert Around(text, "star:" + t[5..]) && Around(t[5..], policy.hub);
      }
    }
  }

  lemma WordsAreLower()
    ensures Lower("open") == "open" && Lower("adjacent") == "adjacent" && Lower("open") != Lower("adjacent")
  {
    assert |"open"| != |"adjacent"|;
  }

  /** The communication of an accepted definition is absent or blank, or open, adjacent or a star around
      the agent of a task; and the session built from it lets exactly the agents talk that this means. */
  lemma CommunicationAllows(y: DagYaml.YamlDag, ids: nat -> string, s: Session, a: string, b: string)
    requires DagYaml.Acceptable(y) && DistinctIds(|y.tasks|, ids)
    requires Computed(s, Translated(DagYaml.Entries(y.tasks), ids)) && s.policy == SessionPolicy(DagYaml.NonBlank(y.communication))
    ensures var text := if y.communication.Some? then y.communication.value else "";
            var both := DagYaml.HasAgent(y.tasks, a) && DagYaml.HasAgent(y.tasks, b);
            && (AllSpace(text) || Writes(text, "open") || Writes(text, "adjacent") || exists hub :: DagYaml.WritesStar(text, hub))
            && (AllSpace(text) || Writes(text, "open") ==> (Allows(s, a, b) <==> both))
            && (Writes(text, "adjacent") ==> (Allows(s, a, b) <==> a != b && (ListsTaskOf(y.tasks, a, b) || ListsTaskOf(y.tasks, b, a))))
            && (forall hub :: DagYaml.WritesStar(text, hub) ==>
                 DagYaml.HasAgent(y.tasks, hub) && (Allows(s, a, b) <==> both && (a == hub || b == hub)))
  {
    hide Trim, ParsePolicy, Writes, DagYaml.WritesStar, DagYaml.HasAgent, ListsTaskOf, Linked, DistinctIds, Translated;
    var text := if y.communication.Some? then y.communication.value else "";
    BlankIsSpace(text);
    AcceptedPolicy(y, text);
    ParticipantsAreAgents(y.tasks, ids, a);
    ParticipantsAreAgents(y.tasks, ids, b);
    forall p
      ensures ParsePolicy(text) == Some(p) <==>
        match p
        case Open => Writes(text, "open")
        case Adjacent => Writes(text, "adjacent")
        case Star(hub) => DagYaml.WritesStar(text, hub)
        case Restricted(_) => false
    {
      ParsePolicyExact(text, p);
    }
    assert Writes(text, "open") <==> ParsePolicy(text) == Some(Open);
    assert Writes(text, "adjacent") <==> ParsePolicy(text) == Some(Adjacent);
    if s.policy.Adjacent? { AdjacentByNames(y, ids, s, a, b); }
    forall hub | DagYaml.WritesStar(text, hub)
      ensures s.policy == Star(hub)
    {
      assert ParsePolicy(text) == Some(Star(hub));
    }
  }

  lemma AcceptedPolicy(y: DagYaml.YamlDag, text: string)
    requires DagYaml.Acceptable(y) && text == if y.communication.Some? then y.communication.value else ""
    ensures var policy := SessionPolicy(DagYaml.NonBlank(y.communication));
            if Trim(text) == [] then policy == Open && ParsePolicy(text).None?
            else ParsePolicy(text) == Some(policy) && (policy.Star? ==> DagYaml.HasAgent(y.tasks, policy.hub))
  {
    hide Trim, DagYaml.HasAgent, DagYaml.EqIgnoreCase, ParsePolicy;
    if Trim(text) == [] {
      BlankUnparsed(text);
      if y.communication.None? { TightEmpty(); }
    } else {
      if y.communication.None? { TightEmpty(); }
      AcceptedPolicyParses(text, y.tasks);
    }
  }

  lemma TightEmpty()
    ensures Trim("") == ""
  {
  }

  lemma BlankUnparsed(text: string)
    requires Trim(text) == []
    ensures ParsePolicy(text).None?
  {
    assert |Lower([])| == 0;
  }

  lemma ParticipantsAreAgents(tasks: seq<DagYaml.YamlTask>, ids: nat -> string, a: string)
    ensures a in Agents(Translated(DagYaml.Entries(tasks), ids)) <==> DagYaml.HasAgent(tasks, a)
  {
    hide LastIndexOf;
    var nodes := Translated(DagYaml.Entries(tasks), ids);
    assert forall k :: 0 <= k < |tasks| ==> nodes[k].agent == tasks[k].agent;
  }

  /** In the session of an accepted definition, adjacency is that of the names: two different
      agents may talk exactly when a task of one lists a task of the other, as a dependency or as its parent. */
  lemma AdjacentByNames(y: DagYaml.YamlDag, ids: nat -> string, s: Session, a: string, b: string)
    requires DagYaml.Acceptable(y) && DistinctIds(|y.tasks|, ids)
    requires Computed(s, Translated(DagYaml.Entries(y.tasks), ids)) && s.policy == Adjacent
    ensures Allows(s, a, b) <==> a != b && (ListsTaskOf(y.tasks, a, b) || ListsTaskOf(y.tasks, b, a))
  {
    hide Linked, IndexOf, LastIndexOf, DagYaml.Acceptable, ListsTaskOf, Allows;
    var nodes := Translated(DagYaml.Entries(y.tasks), ids);
    LinkedByNames(y, ids, a, b);
    LinkedByNames(y, ids, b, a);
    AllowsIsPermitted(s, nodes, a, b);
    ListedAgents(y.tasks, ids, a, b);
    ListedAgents(y.tasks, ids, b, a);
  }

  ghost predicate ListsTaskOf(tasks: seq<DagYaml.YamlTask>, a: string, b: string) {
    exists i, j :: 0 <= i < |tasks| && 0 <= j < |tasks| && tasks[i].agent == a && tasks[j].agent == b
      && (tasks[j].name in tasks[i].dependsOn || tasks[i].parent == Some(tasks[j].name))
  }

  lemma ListedAgents(tasks: seq<DagYaml.YamlTask>, ids: nat -> string, a: string, b: string)
    ensures ListsTaskOf(tasks, a, b) ==>
      a in Agents(Translated(DagYaml.Entries(tasks), ids)) && b in Agents(Translated(DagYaml.Entries(tasks), ids))
  {
    hide LastIndexOf;
    var nodes := Translated(DagYaml.Entries(tasks), ids);
    assert forall k :: 0 <= k < |tasks| ==> nodes[k].agent == tasks[k].agent;
  }

  lemma LinkedByNames(y: DagYaml.YamlDag, ids: nat -> string, a: string, b: string)
    requires DagYaml.Acceptable(y) && DistinctIds(|y.tasks|, ids)
    ensures Linked(Translated(DagYaml.Entries(y.tasks), ids), a, b) <==> ListsTaskOf(y.tasks, a, b)
  {
    hide IndexOf, LastIndexOf, DagYaml.Acceptable, Translated, DagYaml.MergedDeps, DistinctIds, DistinctNames, KnownDeps;
    var es := DagYaml.Entries(y.tasks);
    var nodes := Translated(es, ids);
    EntriesFit(y);
    if Linked(nodes, a, b) {
      var i, j :| DependsOn(nodes, i, j) && nodes[i].agent == a && nodes[j].agent == b;
      DependsByName(es, ids, i, j);
      MergedMembers(y.tasks[i], y.tasks[j].name);
      assert y.tasks[i].agent == a && y.tasks[j].agent == b;
    }
    if ListsTaskOf(y.tasks, a, b) {
      var i, j :| 0 <= i < |y.tasks| && 0 <= j < |y.tasks| && y.tasks[i].agent == a && y.tasks[j].agent == b
        && (y.tasks[j].name in y.tasks[i].dependsOn || y.tasks[i].parent == Some(y.tasks[j].name));
      MergedMembers(y.tasks[i], y.tasks[j].name);
      DependsByName(es, ids, i, j);
      assert nodes[i].agent == a && nodes[j].agent == b;
    }
  }

  lemma MergedMembers(t: DagYaml.YamlTask, name: string)
    ensures name in DagYaml.MergedDeps(t) <==> name in t.dependsOn || t.parent == Some(name)
  {
  }

  lemma EntriesFit(y: DagYaml.YamlDag)
    requires DagYaml.Acceptable(y)
    ensures DistinctNames(DagYaml.Entries(y.tasks)) && KnownDeps(DagYaml.Entries(y.tasks))
  {
    DagYaml.EntriesLaws(y.tasks);
  }

  lemma DependsByName(es: seq<Named>, ids: nat -> string, i: nat, j: nat)
    requires DistinctNames(es) && KnownDeps(es) && DistinctIds(|es|, ids) && i < |es| && j < |es|
    ensures DependsOn(Translated(es, ids), i, j) <==> es[j].name in es[i].deps
  {
    hide IndexOf, LastIndexOf;
    var nodes := Translated(es, ids);
    TranslatedUnique(es, ids);
    UniqueIndex(nodes, j);
    OnlyIndex(es, j);
    assert nodes[j].id == ids(j) == IdOf(es, ids, es[j].name);
    if nodes[j].id in nodes[i].dependsOn {
      var k :| 0 <= k < |es[i].deps| && nodes[i].dependsOn[k] == nodes[j].id;
      var name := es[i].deps[k];
      assert name in es[i].deps && name in Names(es);
      NameOfId(es, ids, name);
      NameOfId(es, ids, es[j].name);
    }
    if es[j].name in es[i].deps {
      var k :| 0 <= k < |es[i].deps| && es[i].deps[k] == es[j].name;
      assert nodes[i].dependsOn[k] == nodes[j].id;
    }
  }
}
