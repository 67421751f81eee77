/** Building a task graph from a deserialised YAML definition: the checks, the translation of
    task names to generated ids, and the final validation. */
module DagYaml {
  import opened Text
  import opened Graphs
  import opened TaskGraphs
  import opened NameTranslation
  import Template
  import SnowflakeIds

  /** `targets` are the branch and default targets of conditional routing, `scopeOk` the
      outcome of checking the scope pattern. */
  datatype YamlTask = YamlTask(
    name: string,
    agent: string,
    dependsOn: seq<string>,
    parent: Option<string>,
    input: Option<string>,
    condition: Option<string>,
    priority: Option<string>,
    timeout: Option<nat>,
    retry: Option<nat>,
    targets: seq<string>,
    scopeOk: bool)

  /** `paramsOk` is the outcome of resolving the parameters. */
  datatype YamlDag = YamlDag(
    timeouts: seq<Option<nat>>,
    priority: Option<string>,
    parameters: set<string>,
    paramsOk: bool,
    tasks: seq<YamlTask>,
    communication: Option<string>)

  datatype YamlError =
    | NoTasks
    | TooManyTasks
    | BadParameters
    | EmptyName
    | DuplicateName(name: string)
    | BadCommunication
    | BadPriority
    | ZeroTimeout
    | UndeclaredVariable(name: string)
    | UnknownTask(name: string)
    | BadScope
    | InvalidGraph(error: ValidationError)

  datatype ParsedDag = ParsedDag(nodes: seq<Node>, communication: Option<string>)

  const MAX_TASK_COUNT := 1000

  // ---------- single checks ----------

  predicate EqIgnoreCase(a: string, b: string) { Lower(a) == Lower(b) }

  /** Trims an optional text; blank means absent. */
  function NonBlank(s: Option<string>): Option<string> {
    if s.Some? && Trim(s.value) != [] then Some(Trim(s.value)) else None
  }

  predicate HasAgent(tasks: seq<YamlTask>, agent: string) {
    exists k :: 0 <= k < |tasks| && tasks[k].agent == agent
  }

  /** `validate_communication`: open, adjacent, or a star around one of the tasks' agents. */
  predicate ValidCommunication(communication: Option<string>, tasks: seq<YamlTask>) {
    var policy := NonBlank(communication);
    || policy.None?
    || EqIgnoreCase(policy.value, "open") || EqIgnoreCase(policy.value, "adjacent")
    || ("star:" <= policy.value && Trim(policy.value[5..]) != [] && HasAgent(tasks, Trim(policy.value[5..])))
  }

  predicate ValidPriority(priority: Option<string>) {
    var p := NonBlank(priority);
    p.None? || EqIgnoreCase(p.value, "low") || EqIgnoreCase(p.value, "medium") || EqIgnoreCase(p.value, "high")
  }

  predicate ValidPriorities(y: YamlDag) {
    ValidPriority(y.priority) && forall k :: 0 <= k < |y.tasks| ==> ValidPriority(y.tasks[k].priority)
  }

  predicate ValidTimeouts(y: YamlDag) {
    && (forall k :: 0 <= k < |y.timeouts| ==> y.timeouts[k] != Some(0))
    && forall k :: 0 <= k < |y.tasks| ==> y.tasks[k].timeout != Some(0)
  }

  /** The variables of a template are all declared parameters. */
  predicate VarsDeclared(template: Option<string>, declared: set<string>) {
    template.Some? ==> forall v :: v in Template.HeadsOfBlocks(Template.Parse(template.value)) ==> v in declared
  }

  predicate AllVarsDeclared(y: YamlDag) {
    y.parameters == {} ||
    forall k :: 0 <= k < |y.tasks| ==> VarsDeclared(y.tasks[k].input, y.parameters) && VarsDeclared(y.tasks[k].condition, y.parameters)
  }

  // ---------- names ----------

  /** `depends_on` plus the parent, if it is not listed already. */
  function MergedDeps(t: YamlTask): seq<string> {
    if t.parent.Some? && t.parent.value !in t.dependsOn then t.dependsOn + [t.parent.value] else t.dependsOn
  }

  function Entry(t: YamlTask): Named {
    Named(t.name, t.agent, MergedDeps(t), if t.retry.Some? then t.retry.value else 0)
  }

  function Entries(tasks: seq<YamlTask>): (r: seq<Named>)
    ensures |r| == |tasks| && forall k :: 0 <= k < |r| ==> r[k] == Entry(tasks[k])
  {
    seq(|tasks|, k requires 0 <= k < |tasks| => Entry(tasks[k]))
  }

  function TaskNames(tasks: seq<YamlTask>): set<string> {
    set k | 0 <= k < |tasks| :: tasks[k].name
  }

  predicate KnownReferences(t: YamlTask, names: set<string>) {
    && (forall d :: d in t.dependsOn ==> d in names)
    && (t.parent.Some? ==> t.parent.value in names)
    && (forall d :: d in t.targets ==> d in names)
  }

  predicate GoodNames(tasks: seq<YamlTask>) {
    && (forall k :: 0 <= k < |tasks| ==> Trim(tasks[k].name) != [])
    && (forall i, j :: 0 <= i < j < |tasks| ==> tasks[i].name != tasks[j].name)
  }

  predicate AllReferencesKnown(tasks: seq<YamlTask>) {
    forall k :: 0 <= k < |tasks| ==> KnownReferences(tasks[k], TaskNames(tasks))
  }

  /** Everything that is checked before the graph itself. */
  predicate Acceptable(y: YamlDag) {
    && y.tasks != [] && |y.tasks| <= MAX_TASK_COUNT && y.paramsOk
    && GoodNames(y.tasks)
    && ValidCommunication(y.communication, y.tasks)
    && ValidPriorities(y) && ValidTimeouts(y) && AllVarsDeclared(y)
    && AllReferencesKnown(y.tasks)
    && forall k :: 0 <= k < |y.tasks| ==> y.tasks[k].scopeOk
  }

  // ---------- which definitions are accepted ----------

  /** `star:` and the name of a hub, each between white space. */
  ghost predicate WritesStar(text: string, hub: string) {
    hub != [] && exists rest :: Around(text, "star:" + rest) && Around(rest, hub)
  }

  lemma StarParts(t: string, hub: string)
    ensures (exists rest :: t == "star:" + rest && Trim(rest) == hub) <==> "star:" <= t && Trim(t[5..]) == hub
  {
    hide Trim;
    forall rest | t == "star:" + rest
      ensures t[5..] == rest
    {
    }
    if "star:" <= t { assert t == "star:" + t[5..]; }
  }

  lemma StarIsWritten(text: string, hub: string)
    ensures WritesStar(text, hub) <==> hub != [] && "star:" <= Trim(text) && Trim(Trim(text)[5..]) == hub
  {
    hide Trim, Around;
    var t := Trim(text);
    forall s, x
      ensures Around(s, x) <==> x == Trim(s)
    {
      AroundIsTrim(s, x);
    }
    StarParts(t, hub);
  }

  /** Absent, blank, or one of the three words. */
  ghost predicate PriorityText(p: Option<string>) {
    p.None? || AllSpace(p.value) || Writes(p.value, "low") || Writes(p.value, "medium") || Writes(p.value, "high")
  }

  /** Absent, blank, one of two words, or a star around the agent of a task. */
  ghost predicate CommunicationText(p: Option<string>, tasks: seq<YamlTask>) {
    || p.None? || AllSpace(p.value) || Writes(p.value, "open") || Writes(p.value, "adjacent")
    || exists k :: 0 <= k < |tasks| && WritesStar(p.value, tasks[k].agent)
  }

  lemma WordsAreLower()
    ensures Lower("low") == "low" && Lower("medium") == "medium" && Lower("high") == "high"
    ensures Lower("open") == "open" && Lower("adjacent") == "adjacent"
  {
  }

  lemma PriorityExact(p: Option<string>)
    ensures ValidPriority(p) <==> PriorityText(p)
  {
    hide Trim, Writes, Lower;
    WordsAreLower();
    if p.Some? {
      BlankIsSpace(p.value);
      WritesIsLower(p.value, "low");
      WritesIsLower(p.value, "medium");
      WritesIsLower(p.value, "high");
      TrimTwice(p.value);
    }
  }

  lemma CommunicationExact(p: Option<string>, tasks: seq<YamlTask>)
    ensures ValidCommunication(p, tasks) <==> CommunicationText(p, tasks)
  {
    hide Trim, Writes, WritesStar, Lower;
    WordsAreLower();
    if p.Some? {
      BlankIsSpace(p.value);
      WritesIsLower(p.value, "open");
      WritesIsLower(p.value, "adjacent");
      forall hub
        ensures WritesStar(p.value, hub) <==> hub != [] && "star:" <= Trim(p.value) && Trim(Trim(p.value)[5..]) == hub
      {
        StarIsWritten(p.value, hub);
      }
    }
  }

  /** The name of a task. */
  predicate IsTaskName(tasks: seq<YamlTask>, name: string) {
    exists k :: 0 <= k < |tasks| && tasks[k].name == name
  }

  /** What an acceptable definition is, field by field. */
  lemma AcceptableExact(y: YamlDag)
    ensures Acceptable(y) <==>
      && 1 <= |y.tasks| <= 1000 && y.paramsOk
      && CommunicationText(y.communication, y.tasks) && PriorityText(y.priority)
      && (forall t: nat :: Some(t) in y.timeouts ==> t > 0)
      && (forall i, j :: 0 <= i < |y.tasks| && 0 <= j < |y.tasks| && y.tasks[i].name == y.tasks[j].name ==> i == j)
      && forall k :: 0 <= k < |y.tasks| ==>
           var t := y.tasks[k];
           && !AllSpace(t.name) && PriorityText(t.priority) && (t.timeout.Some? ==> t.timeout.value > 0) && t.scopeOk
           && (forall d :: d in t.dependsOn || d in t.targets || t.parent == Some(d) ==> IsTaskName(y.tasks, d))
           && (y.parameters != {} ==> VarsDeclared(t.input, y.parameters) && VarsDeclared(t.condition, y.parameters))
  {
    hide Trim, ValidPriority, PriorityText, ValidCommunication, CommunicationText, VarsDeclared;
    CommunicationExact(y.communication, y.tasks);
    PriorityExact(y.priority);
    forall k | 0 <= k < |y.tasks|
      ensures ValidPriority(y.tasks[k].priority) <==> PriorityText(y.tasks[k].priority)
      ensures Trim(y.tasks[k].name) == [] <==> AllSpace(y.tasks[k].name)
    {
      PriorityExact(y.tasks[k].priority);
      BlankIsSpace(y.tasks[k].name);
    }
    assert forall d :: d in TaskNames(y.tasks) <==> IsTaskName(y.tasks, d);
  }

  // ---------- the parser ----------

  method CheckNames(tasks: seq<YamlTask>) returns (r: Option<YamlError>)
    ensures r.None? <==> GoodNames(tasks)
    ensures r.Some? ==> r.value.EmptyName? || r.value.DuplicateName?
  {
    var seen: set<string> := {};
    for k := 0 to |tasks|
      invariant seen == set i | 0 <= i < k :: tasks[i].name
      invariant forall i :: 0 <= i < k ==> Trim(tasks[i].name) != []
      invariant forall i, j :: 0 <= i < j < k ==> tasks[i].name != tasks[j].name
    {
      hide Trim;
      if Trim(tasks[k].name) == [] {
        return Some(EmptyName);
      }
      if tasks[k].name in seen {
        return Some(DuplicateName(tasks[k].name));
      }
      seen := seen + {tasks[k].name};
    }
    return None;
  }

  /** The first name that is not in the given collection. */
  method FirstUnknown(names: seq<string>, known: set<string>) returns (r: Option<string>)
    ensures r.None? <==> forall v :: v in names ==> v in known
    ensures r.Some? ==> r.value !in known
  {
    for k := 0 to |names|
      invariant forall i :: 0 <= i < k ==> names[i] in known
    {
      if names[k] !in known {
        assert names[k] in names;
        return Some(names[k]);
      }
    }
    return None;
  }

  method CheckTemplate(template: Option<string>, declared: set<string>) returns (r: Option<YamlError>)
    ensures r.None? <==> VarsDeclared(template, declared)
    ensures r.Some? ==> r.value.UndeclaredVariable? && r.value.name !in declared
  {
    hide Template.Parse, Template.HeadsOfBlocks, Dedup;
    if template.None? {
      return None;
    }
    var vars := Template.ExtractTemplateVars(template.value);
    var unknown := FirstUnknown(vars, declared);
    SameMembers(vars, Template.HeadsOfBlocks(Template.Parse(template.value)), declared);
    return if unknown.Some? then Some(UndeclaredVariable(unknown.value)) else None;
  }

  lemma SameMembers(vars: seq<string>, heads: seq<string>, declared: set<string>)
    requires vars == Dedup(heads)
    ensures (forall v :: v in vars ==> v in declared) <==> (forall v :: v in heads ==> v in declared)
  {
    assert forall v :: v in vars <==> v in heads;
  }

  method CheckTemplates(y: YamlDag) returns (r: Option<YamlError>)
    ensures r.None? <==> AllVarsDeclared(y)
    ensures r.Some? ==> r.value.UndeclaredVariable?
  {
    hide VarsDeclared;
    if y.parameters == {} {
      return None;
    }
    for k := 0 to |y.tasks|
      invariant forall i :: 0 <= i < k ==> VarsDeclared(y.tasks[i].input, y.parameters) && VarsDeclared(y.tasks[i].condition, y.parameters)
    {
      r := CheckTemplate(y.tasks[k].input, y.parameters);
      if r.Some? {
        return;
      }
      r := CheckTemplate(y.tasks[k].condition, y.parameters);
      if r.Some? {
        return;
      }
    }
    return None;
  }

  method CheckReferences(tasks: seq<YamlTask>) returns (r: Option<YamlError>)
    ensures r.None? <==> AllReferencesKnown(tasks)
    ensures r.Some? ==> r.value.UnknownTask? && r.value.name !in TaskNames(tasks)
  {
    var names := TaskNames(tasks);
    for k := 0 to |tasks|
      invariant forall i :: 0 <= i < k ==> KnownReferences(tasks[i], names)
    {
      var t := tasks[k];
      var unknown := FirstUnknown(t.dependsOn, names);
      if unknown.Some? {
        return Some(UnknownTask(unknown.value));
      }
      if t.parent.Some? && t.parent.value !in names {
        return Some(UnknownTask(t.parent.value));
      }
      unknown := FirstUnknown(t.targets, names);
      if unknown.Some? {
        return Some(UnknownTask(unknown.value));
      }
    }
    return None;
  }

  lemma EntriesLaws(tasks: seq<YamlTask>)
    requires GoodNames(tasks) && AllReferencesKnown(tasks)
    ensures DistinctNames(Entries(tasks)) && KnownDeps(Entries(tasks)) && Names(Entries(tasks)) == TaskNames(tasks)
  {
    var entries := Entries(tasks);
    assert forall k :: 0 <= k < |tasks| ==> entries[k].name == tasks[k].name;
    assert Names(entries) == TaskNames(tasks);
    forall i, d | 0 <= i < |entries| && d in entries[i].deps
      ensures d in Names(entries)
    {
      assert KnownReferences(tasks[i], TaskNames(tasks));
    }
  }

  /** The checks, in the order in which `parse_dag_yaml` makes them. */
  method CheckDefinition(y: YamlDag) returns (r: Option<YamlError>)
    ensures r.None? <==> Acceptable(y)
    ensures r.Some? ==> !r.value.InvalidGraph?
  {
    hide GoodNames, ValidCommunication, ValidPriorities, ValidTimeouts, AllVarsDeclared, AllReferencesKnown;
    if y.tasks == [] {
      return Some(NoTasks);
    }
    if |y.tasks| > MAX_TASK_COUNT {
      return Some(TooManyTasks);
    }
    if !y.paramsOk {
      return Some(BadParameters);
    }
    r := CheckNames(y.tasks);
    if r.Some? {
      return;
    }
    if !ValidCommunication(y.communication, y.tasks) {
      return Some(BadCommunication);
    }
    if !ValidPriorities(y) {
      return Some(BadPriority);
    }
    if !ValidTimeouts(y) {
      return Some(ZeroTimeout);
    }
    r := CheckTemplates(y);
    if r.Some? {
      return;
    }
    r := CheckReferences(y.tasks);
    if r.Some? {
      return;
    }
    if exists k :: 0 <= k < |y.tasks| && !y.tasks[k].scopeOk {
      return Some(BadScope);
    }
    return None;
  }

  lemma AcceptedGraph(y: YamlDag, ids: nat -> string)
    requires Acceptable(y) && DistinctIds(|y.tasks|, ids)
    ensures Valid(Translated(Entries(y.tasks), ids)) <==> !Cyclic(NameGraph(Entries(y.tasks)))
    ensures UniqueIds(Translated(Entries(y.tasks), ids)) && DependenciesExist(Translated(Entries(y.tasks), ids))
  {
    EntriesLaws(y.tasks);
    ValidIffAcyclicNames(Entries(y.tasks), ids);
    TranslatedUnique(Entries(y.tasks), ids);
    TranslatedDepsExist(Entries(y.tasks), ids);
  }

  /** `parse_dag_yaml` from the deserialised definition on, with distinct generated ids. The
      definition is accepted exactly when all checks pass and the graph of names is acyclic. */
  method ParseDagYaml(y: YamlDag, ids: nat -> string) returns (r: Result<ParsedDag, YamlError>)
    requires DistinctIds(|y.tasks|, ids)
    ensures r.Ok? <==> Acceptable(y) && !Cyclic(NameGraph(Entries(y.tasks)))
    ensures r.Ok? ==> r.value == ParsedDag(Translated(Entries(y.tasks), ids), NonBlank(y.communication)) && Valid(r.value.nodes)
    ensures r.Err? && Acceptable(y) ==> r.error == InvalidGraph(HasCycles)
  {
    hide Acceptable, Valid, Cyclic, NameGraph, UniqueIds, DependenciesExist, NonBlank, DistinctIds;
    var e := CheckDefinition(y);
    if e.Some? {
      return Err(e.value);
    }
    AcceptedGraph(y, ids);
    var nodes := Translate(Entries(y.tasks), ids);
    var graph := new TaskGraph(nodes);
    var v := graph.Validate();
    if v.Err? {
      return Err(InvalidGraph(v.error));
    }
    return Ok(ParsedDag(nodes, NonBlank(y.communication)));
  }

  /** Formatted task ids of different raw ids are different, so they can serve as node ids. */
  lemma FormattedIdsDistinct(n: nat, raw: nat -> SnowflakeIds.Id)
    requires forall i: nat :: raw(i) >= 0
    requires forall i: nat, j: nat :: i < j < n ==> raw(i) != raw(j)
    ensures DistinctIds(n, (k: nat) => SnowflakeIds.Format(raw(k), SnowflakeIds.Task))
  {
    forall i: nat, j: nat | i < j < n
      ensures SnowflakeIds.Format(raw(i), SnowflakeIds.Task) != SnowflakeIds.Format(raw(j), SnowflakeIds.Task)
    {
      if SnowflakeIds.Format(raw(i), SnowflakeIds.Task) == SnowflakeIds.Format(raw(j), SnowflakeIds.Task) {
        SnowflakeIds.FormatInjective(raw(i), SnowflakeIds.Task, raw(j), SnowflakeIds.Task);
      }
    }
  }

  /** In an accepted graph, one task waits for another exactly when the definition says so,
      directly or through others. */
  lemma ParsedReachability(y: YamlDag, ids: nat -> string, a: string, b: string)
    requires DistinctIds(|y.tasks|, ids) && Acceptable(y)
    requires a in TaskNames(y.tasks) && b in TaskNames(y.tasks)
    ensures var es := Entries(y.tasks);
            Reaches(GraphOf(Translated(es, ids)), IdOf(es, ids, a), IdOf(es, ids, b)) <==> Reaches(NameGraph(es), a, b)
  {
    EntriesLaws(y.tasks);
    ReachabilityPreserved(Entries(y.tasks), ids, a, b);
  }

  /** Each node depends on the images of the listed names, in order, and of the parent once; it starts
      pending, with the retries that the task asks for. */
  lemma ParsedDependencies(y: YamlDag, ids: nat -> string, k: nat)
    requires k < |y.tasks|
    ensures var t, es := y.tasks[k], Entries(y.tasks);
            Translated(es, ids)[k].dependsOn == MapIds(es, ids, t.dependsOn)
              + (if t.parent.Some? && t.parent.value !in t.dependsOn then [IdOf(es, ids, t.parent.value)] else [])
    ensures var t, n := y.tasks[k], Translated(Entries(y.tasks), ids)[k];
            && n.id == ids(k) && n.agent == t.agent && n.status == Pending && n.resultPath == None && n.retryCount == 0
            && (t.retry.Some? ==> n.maxRetries == t.retry.value) && (t.retry.None? ==> n.maxRetries == 0)
  {
    hide IdOf;
  }

  // ---------- task plans ----------

  /** One assignment of a plan: agents are the names that others depend on. */
  datatype Assignment = Assignment(agent: string, dependsOn: seq<string>)

  function PlanEntries(assignments: seq<Assignment>): (r: seq<Named>)
    ensures |r| == |assignments|
    ensures forall k :: 0 <= k < |r| ==> r[k] == Named(assignments[k].agent, assignments[k].agent, assignments[k].dependsOn, 0)
  {
    seq(|assignments|, k requires 0 <= k < |assignments| =>
      Named(assignments[k].agent, assignments[k].agent, assignments[k].dependsOn, 0))
  }

  /** `to_task_graph`: nothing is checked, so an unknown name stays as it is, and of two
      assignments to the same agent the last one is meant. */
  method ToTaskGraph(assignments: seq<Assignment>, ids: nat -> string) returns (nodes: seq<Node>)
    ensures nodes == Translated(PlanEntries(assignments), ids)
  {
    nodes := Translate(PlanEntries(assignments), ids);
  }

  /** With distinct agents and known names, a plan's graph is valid exactly when its names are acyclic. */
  lemma PlanGraphValid(assignments: seq<Assignment>, ids: nat -> string)
    requires DistinctNames(PlanEntries(assignments)) && KnownDeps(PlanEntries(assignments)) && DistinctIds(|assignments|, ids)
    ensures Valid(Translated(PlanEntries(assignments), ids)) <==> !Cyclic(NameGraph(PlanEntries(assignments)))
  {
    ValidIffAcyclicNames(PlanEntries(assignments), ids);
  }
}
