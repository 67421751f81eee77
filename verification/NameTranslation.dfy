/** From names to generated ids: how a list of named entries with dependencies by name
    becomes a task graph with dependencies by id. */
module NameTranslation {
  import opened Text
  import opened Graphs
  import opened TaskGraphs

  datatype Named = Named(name: string, agent: string, deps: seq<string>, maxRetries: nat)

  /** The last entry with the given name; inserting into a map keeps the last one. */
  function LastIndexOf(entries: seq<Named>, name: string): (r: Option<nat>)
    ensures r.Some? ==> r.value < |entries| && entries[r.value].name == name
    ensures r.Some? ==> forall j :: r.value < j < |entries| ==> entries[j].name != name
    ensures r.None? ==> forall j :: 0 <= j < |entries| ==> entries[j].name != name
  {
    if entries == [] then None
    else
      var n := |entries| - 1;
      if entries[n].name == name then Some(n) else LastIndexOf(entries[..n], name)
  }

  /** An unknown name stands for itself. */
  function IdOf(entries: seq<Named>, ids: nat -> string, name: string): string {
    var i := LastIndexOf(entries, name);
    if i.Some? then ids(i.value) else name
  }

  function MapIds(entries: seq<Named>, ids: nat -> string, names: seq<string>): (r: seq<string>)
    ensures |r| == |names| && forall k :: 0 <= k < |r| ==> r[k] == IdOf(entries, ids, names[k])
  {
    seq(|names|, k requires 0 <= k < |names| => IdOf(entries, ids, names[k]))
  }

  function NodeOf(entries: seq<Named>, ids: nat -> string, k: nat): Node
    requires k < |entries|
  {
    Node(ids(k), entries[k].agent, Pending, MapIds(entries, ids, entries[k].deps), None, entries[k].maxRetries, 0)
  }

  function Translated(entries: seq<Named>, ids: nat -> string): (r: seq<Node>)
    ensures |r| == |entries| && forall k :: 0 <= k < |r| ==> r[k] == NodeOf(entries, ids, k)
  {
    seq(|entries|, k requires 0 <= k < |entries| => NodeOf(entries, ids, k))
  }

  /** Both passes: the map from names to ids, then the nodes with translated dependencies. */
  method Translate(entries: seq<Named>, ids: nat -> string) returns (nodes: seq<Node>)
    ensures nodes == Translated(entries, ids)
  {
    hide LastIndexOf;
    var nameToId: map<string, string> := map[];
    for k := 0 to |entries|
      invariant forall name :: name in nameToId <==> LastIndexOf(entries[..k], name).Some?
      invariant forall name :: name in nameToId ==> nameToId[name] == ids(LastIndexOf(entries[..k], name).value)
    {
      LastIndexSnoc(entries, k);
      nameToId := nameToId[entries[k].name := ids(k)];
    }
    assert entries[..|entries|] == entries;
    nodes := [];
    for k := 0 to |entries|
      invariant |nodes| == k
      invariant forall j :: 0 <= j < k ==> nodes[j] == NodeOf(entries, ids, j)
    {
      var deps: seq<string> := [];
      for d := 0 to |entries[k].deps|
        invariant |deps| == d
        invariant forall j :: 0 <= j < d ==> deps[j] == IdOf(entries, ids, entries[k].deps[j])
      {
        var name := entries[k].deps[d];
        deps := deps + [if name in nameToId then nameToId[name] else name];
      }
      nodes := nodes + [Node(ids(k), entries[k].agent, Pending, deps, None, entries[k].maxRetries, 0)];
    }
  }

  lemma LastIndexSnoc(entries: seq<Named>, k: nat)
    requires k < |entries|
    ensures forall name :: LastIndexOf(entries[..k + 1], name)
              == if name == entries[k].name then Some(k) else LastIndexOf(entries[..k], name)
  {
    var t := entries[..k + 1];
    assert t[..k] == entries[..k];
    forall name
      ensures LastIndexOf(t, name) == if name == entries[k].name then Some(k) else LastIndexOf(entries[..k], name)
    {
      assert t[k] == entries[k];
    }
  }

  // ---------- the dependency graph is preserved ----------

  predicate DistinctNames(entries: seq<Named>) {
    forall i, j :: 0 <= i < j < |entries| ==> entries[i].name != entries[j].name
  }

  predicate DistinctIds(n: nat, ids: nat -> string) {
    forall i: nat, j: nat :: i < j < n ==> ids(i) != ids(j)
  }

  function Names(entries: seq<Named>): set<string> {
    set i | 0 <= i < |entries| :: entries[i].name
  }

  predicate KnownDeps(entries: seq<Named>) {
    forall i, d :: 0 <= i < |entries| && d in entries[i].deps ==> d in Names(entries)
  }

  /** The graph that the names describe. */
  function NameGraph(entries: seq<Named>): (g: Graph)
    ensures g.Keys == Names(entries)
  {
    map name | name in Names(entries) :: entries[LastIndexOf(entries, name).value].deps
  }

  lemma OnlyIndex(entries: seq<Named>, i: nat)
    requires DistinctNames(entries) && i < |entries|
    ensures LastIndexOf(entries, entries[i].name) == Some(i)
  {
  }

  lemma TranslatedUnique(entries: seq<Named>, ids: nat -> string)
    requires DistinctIds(|entries|, ids)
    ensures UniqueIds(Translated(entries, ids))
  {
  }

  lemma TranslatedDepsExist(entries: seq<Named>, ids: nat -> string)
    requires KnownDeps(entries)
    ensures DependenciesExist(Translated(entries, ids))
  {
    var nodes := Translated(entries, ids);
    forall i, d | 0 <= i < |nodes| && d in nodes[i].dependsOn
      ensures d in Ids(nodes)
    {
      var k :| 0 <= k < |entries[i].deps| && d == IdOf(entries, ids, entries[i].deps[k]);
      assert entries[i].deps[k] in Names(entries);
      var j := LastIndexOf(entries, entries[i].deps[k]).value;
      assert nodes[j].id == d;
    }
  }

  /** The name behind an id. */
  function NameOf(entries: seq<Named>, nodes: seq<Node>, id: string): string {
    var i := IndexOf(nodes, id);
    if i.Some? && i.value < |entries| then entries[i.value].name else id
  }

  lemma NameOfId(entries: seq<Named>, ids: nat -> string, name: string)
    requires DistinctNames(entries) && DistinctIds(|entries|, ids) && name in Names(entries)
    ensures NameOf(entries, Translated(entries, ids), IdOf(entries, ids, name)) == name
  {
    hide IndexOf, LastIndexOf;
    var nodes := Translated(entries, ids);
    TranslatedUnique(entries, ids);
    var i := LastIndexOf(entries, name).value;
    UniqueIndex(nodes, i);
  }

  /** A dependency between names is one between their ids. */
  lemma EdgesForward(entries: seq<Named>, ids: nat -> string)
    requires DistinctNames(entries) && DistinctIds(|entries|, ids)
    ensures Morphism(NameGraph(entries), GraphOf(Translated(entries, ids)), name => IdOf(entries, ids, name))
  {
    hide IndexOf, LastIndexOf;
    var nodes := Translated(entries, ids);
    var g, h := NameGraph(entries), GraphOf(nodes);
    TranslatedUnique(entries, ids);
    forall u, v | Edge(g, u, v)
      ensures Edge(h, IdOf(entries, ids, u), IdOf(entries, ids, v))
    {
      var i := LastIndexOf(entries, u).value;
      UniqueIndex(nodes, i);
      var k :| 0 <= k < |entries[i].deps| && entries[i].deps[k] == v;
      assert nodes[i].dependsOn[k] == IdOf(entries, ids, v);
    }
  }

  /** A dependency between ids is one between the names behind them. */
  lemma EdgesBack(entries: seq<Named>, ids: nat -> string)
    requires DistinctNames(entries) && DistinctIds(|entries|, ids) && KnownDeps(entries)
    ensures Morphism(GraphOf(Translated(entries, ids)), NameGraph(entries), id => NameOf(entries, Translated(entries, ids), id))
  {
    hide IndexOf, LastIndexOf;
    var nodes := Translated(entries, ids);
    var g, h := NameGraph(entries), GraphOf(nodes);
    TranslatedUnique(entries, ids);
    forall u, v | Edge(h, u, v)
      ensures Edge(g, NameOf(entries, nodes, u), NameOf(entries, nodes, v))
    {
      var i := IndexOf(nodes, u).value;
      UniqueIndex(nodes, i);
      OnlyIndex(entries, i);
      var k :| 0 <= k < |entries[i].deps| && nodes[i].dependsOn[k] == v;
      var dep := entries[i].deps[k];
      assert dep in Names(entries);
      NameOfId(entries, ids, dep);
      assert entries[i].name in Names(entries);
    }
  }

  /** Reachability between ids is reachability between names. */
  lemma ReachabilityPreserved(entries: seq<Named>, ids: nat -> string, a: string, b: string)
    requires DistinctNames(entries) && DistinctIds(|entries|, ids) && KnownDeps(entries)
    requires a in Names(entries) && b in Names(entries)
    ensures Reaches(GraphOf(Translated(entries, ids)), IdOf(entries, ids, a), IdOf(entries, ids, b)) <==> Reaches(NameGraph(entries), a, b)
  {
    var nodes := Translated(entries, ids);
    var g, h := NameGraph(entries), GraphOf(nodes);
    EdgesForward(entries, ids);
    EdgesBack(entries, ids);
    if Reaches(g, a, b) {
      MorphismReaches(g, h, name => IdOf(entries, ids, name), a, b);
    }
    if Reaches(h, IdOf(entries, ids, a), IdOf(entries, ids, b)) {
      MorphismReaches(h, g, id => NameOf(entries, nodes, id), IdOf(entries, ids, a), IdOf(entries, ids, b));
      NameOfId(entries, ids, a);
      NameOfId(entries, ids, b);
    }
  }

  /** The translated graph is valid exactly when the name graph is acyclic. */
  lemma ValidIffAcyclicNames(entries: seq<Named>, ids: nat -> string)
    requires DistinctNames(entries) && DistinctIds(|entries|, ids) && KnownDeps(entries)
    ensures Valid(Translated(entries, ids)) <==> !Cyclic(NameGraph(entries))
  {
    var nodes := Translated(entries, ids);
    var g, h := NameGraph(entries), GraphOf(nodes);
    TranslatedUnique(entries, ids);
    TranslatedDepsExist(entries, ids);
    EdgesForward(entries, ids);
    EdgesBack(entries, ids);
    if Cyclic(g) {
      var x :| Reaches(g, x, x);
      MorphismReaches(g, h, name => IdOf(entries, ids, name), x, x);
    }
    if Cyclic(h) {
      var x :| Reaches(h, x, x);
      MorphismReaches(h, g, id => NameOf(entries, nodes, id), x, x);
    }
  }
}
