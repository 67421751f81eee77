/** Runs of the scheduler in which calls interleave: a submission is split into reading the queue file,
    installing what was read, claiming the id and placing the task, a pass into draining, the single
    attempts and putting back. A placement and an attempt may come to any decision, because permits and
    agents can be taken by calls that are under way. For every step it is stated exactly when the queue
    stays free of duplicates. */
module SchedulerRuns {
  import opened Text
  import opened Scheduler
  import opened SchedulerLaws
  import opened TaskBags

  /** `state.available` counts the permits that no stored task holds. `held` are the drained tasks that no
      pass has started or put back yet, `passes` the number of passes at work, `entering` the ids that
      submissions have claimed and not placed yet, `loading` what loads have read and not installed yet. */
  datatype World = World(state: State, held: seq<Task>, passes: nat, entering: multiset<string>, loading: seq<seq<Task>>)

  /** `Land` is a write that reaches the queue file late or from outside, with whatever content. */
  datatype Event =
    | Read
    | Install(k: nat)
    | Claim(id: string)
    | Place(task: Task, plan: Plan, d: Decision, writes: bool)
    | Drain
    | Try(i: nat, named: Option<Plan>, d: Decision)
    | PutBack(put: seq<Task>, kept: seq<Task>, writes: bool)
    | Cancel(id: string, writes: bool)
    | Terminate(id: string)
    | Land(file: QueueFile)

  // ---------- where ids are ----------

  function Bag(w: World): multiset<Task> { multiset(w.state.pending) + multiset(w.held) }

  function Waiting(w: World): set<string> { IdsOf(Bag(w)) }

  /** The ids with a processing entry. */
  function Live(s: State): set<string> { set k | 0 <= k < |s.processing| :: s.processing[k].id }

  function Entering(w: World): set<string> { set x | x in w.entering }

  /** Seen, but neither queued, held by a pass, entering nor running. */
  function Stranded(w: World): set<string> { w.state.seen - Waiting(w) - Live(w.state) - Entering(w) }

  /** Every running id holds one permit, and no other id does. */
  ghost predicate OnePermitEach(s: State) {
    forall id :: PermitsOf(s.processing, id) == if id in Live(s) then 1 else 0
  }

  /** No id is queued or held twice, or queued, running and entering at once; all of them are seen;
      none was launched again while it was running. */
  ghost predicate Inv(w: World) {
    && UniqueBag(Bag(w)) && (forall id :: w.entering[id] <= 1)
    && Waiting(w) !! Live(w.state) !! Entering(w)
    && Waiting(w) + Live(w.state) + Entering(w) <= w.state.seen
    && (w.passes == 0 ==> w.held == [])
    && OnePermitEach(w.state)
  }

  // ---------- steps ----------

  /** A start needs a permit and a plan with safe names; every other decision is always possible. */
  predicate CanStart(s: State, named: Option<Plan>) {
    s.available > 0 && named.Some? && LaunchAgents(named.value, true).Some?
  }

  /** Only a claimed id is placed, and its plan has been parsed; the last pass puts back all. */
  predicate Enabled(w: World, e: Event) {
    match e
    case Install(k) => k < |w.loading|
    case Place(task, plan, d, _) =>
      task.id in w.entering && plan.id == task.id && d != ParseError && (d == Started ==> CanStart(w.state, Some(plan)))
    case Try(i, named, d) => w.passes > 0 && i < |w.held| && (d == Started ==> CanStart(w.state, named))
    case PutBack(put, kept, _) =>
      w.passes > 0 && multiset(put) + multiset(kept) == multiset(w.held) && (w.passes == 1 ==> kept == [])
    case _ => true
  }

  /** A step that is not enabled does not happen. */
  function Next(w: World, e: Event): World {
    if !Enabled(w, e) then w
    else
      var s := w.state;
      match e
      case Read => w.(loading := w.loading + [Reloadable(s)])
      case Install(k) =>
        w.(state := if s.pending == [] then s.(pending := w.loading[k]) else s, loading := w.loading[..k] + w.loading[k + 1..])
      case Claim(id) =>
        var (seen, isNew) := InsertSeen(s.seen, id);
        w.(state := s.(seen := seen), entering := if isNew then w.entering + multiset{id} else w.entering)
      case Place(task, plan, d, writes) =>
        w.(state := Placed(s, task, plan, d, writes), entering := w.entering - multiset{task.id})
      case Drain =>
        w.(state := s.(pending := []), held := w.held + SortTasks(s.pending), passes := w.passes + 1)
      case Try(i, named, d) =>
        w.(state := AfterDecision(s, named, d), held := if d == Started then w.held[..i] + w.held[i + 1..] else w.held)
      case PutBack(put, kept, writes) =>
        w.(state := Saved(s.(pending := s.pending + put), writes), held := kept, passes := w.passes - 1)
      case Cancel(id, writes) => w.(state := Cancelled(s, id, writes))
      case Terminate(id) => w.(state := Terminated(s, id))
      case Land(file) => w.(state := s.(file := Some(file)))
  }

  /** What was read can be queued: distinct tasks that are seen and neither running, held nor entering. */
  predicate ReloadSafe(w: World, tasks: seq<Task>) {
    DistinctIds(tasks) && forall k :: 0 <= k < |tasks| ==>
      tasks[k].id in w.state.seen && tasks[k].id !in Live(w.state) + IdsOf(multiset(w.held)) + Entering(w)
  }

  predicate Idle(w: World) {
    w.state.pending == [] && w.held == [] && w.state.processing == [] && w.entering == multiset{}
  }

  /** What an attempt of a pass launches: the task that its plan file names now. */
  function TryLaunches(named: Option<Plan>, d: Decision): Option<string> {
    if d == Started && named.Some? && named.value.agents != [] then Some(named.value.id) else None
  }

  /** A check on the state before the step: only installing what was read, a claim at the cap, the end of
      an id that is still waiting and a plan file that names another task by now can do harm. */
  predicate Safe(w: World, e: Event) {
    !Enabled(w, e) ||
    match e
    case Install(k) => w.state.pending == [] ==> ReloadSafe(w, w.loading[k])
    case Claim(id) => |w.state.seen| < SEEN_IDS_CAP || Idle(w)
    case Terminate(id) => id !in Waiting(w) + Entering(w)
    case Try(i, named, d) =>
      var id := TryLaunches(named, d);
      id.None? || id.value == w.held[i].id || id.value in Stranded(w)
    case _ => true
  }

  // ---------- running ids ----------

  lemma {:induction false} WithoutEntriesIds(xs: seq<Entry>, id: string)
    ensures forall x :: x in WithoutEntries(xs, id) <==> x in xs && x.id != id
  {
    if xs != [] {
      WithoutEntriesIds(xs[1..], id);
      assert xs == [xs[0]] + xs[1..];
    }
  }

  lemma LiveAfterEntries(s: State, plan: Plan)
    ensures var t := s.(processing := s.processing + PlanEntries(plan, true));
            Live(t) == Live(s) + if plan.agents == [] then {} else {plan.id}
  {
    var es := PlanEntries(plan, true);
    var t := s.(processing := s.processing + es);
    forall k | 0 <= k < |t.processing|
      ensures t.processing[k].id in Live(s) + if plan.agents == [] then {} else {plan.id}
    {
      if k >= |s.processing| { assert t.processing[k] == es[k - |s.processing|]; }
    }
    forall k | 0 <= k < |s.processing|
      ensures s.processing[k].id in Live(t)
    {
      assert t.processing[k] == s.processing[k];
    }
    if plan.agents != [] { assert t.processing[|s.processing|] == es[0]; }
  }

  /** Storing a plan gives its id one permit more: one in all exactly when it was not running. */
  lemma PermitsAfterEntries(s: State, plan: Plan)
    requires OnePermitEach(s)
    ensures var t := s.(processing := s.processing + PlanEntries(plan, true));
            OnePermitEach(t) <==> plan.agents == [] || plan.id !in Live(s)
  {
    hide PlanEntries, Live, PermitsOf;
    var t := s.(processing := s.processing + PlanEntries(plan, true));
    LiveAfterEntries(s, plan);
    PermitsConcat(s.processing, PlanEntries(plan, true));
    PlanPermits(plan, true);
    if plan.agents != [] {
      assert PermitsOf(t.processing, plan.id) == PermitsOf(s.processing, plan.id) + 1;
    } else {
      assert forall id :: PermitsOf(t.processing, id) == PermitsOf(s.processing, id);
    }
  }

  lemma PermitsAfterTermination(s: State, id: string)
    requires OnePermitEach(s)
    ensures OnePermitEach(Terminated(s, id))
  {
    hide Live, PermitsOf;
    LiveAfterTermination(s, id);
    PermitsWithout(s.processing, id);
  }

  lemma LiveAfterTermination(s: State, id: string)
    ensures Live(Terminated(s, id)) == Live(s) - {id}
  {
    var t := Terminated(s, id);
    WithoutEntriesIds(s.processing, id);
    forall x
      ensures x in Live(t) <==> x in Live(s) && x != id
    {
      if x in Live(t) {
        var k :| 0 <= k < |t.processing| && t.processing[k].id == x;
        assert t.processing[k] in t.processing;
      }
      if x in Live(s) && x != id {
        var k :| 0 <= k < |s.processing| && s.processing[k].id == x;
        assert s.processing[k] in WithoutEntries(s.processing, id);
      }
    }
  }

  // ---------- every step, exactly ----------

  lemma ReadKeepsInv(w: World)
    requires Inv(w)
    ensures Inv(Next(w, Read))
  {
    hide UniqueBag, IdsOf, OnePermitEach;
    assert Bag(Next(w, Read)) == Bag(w);
  }

  lemma InstallExact(w: World, k: nat)
    requires Inv(w) && k < |w.loading|
    ensures Inv(Next(w, Install(k))) <==> Safe(w, Install(k))
    ensures Next(w, Install(k)).loading == w.loading[..k] + w.loading[k + 1..]
  {
    hide UniqueBag, IdsOf, OnePermitEach;
    var s, u, tasks := w.state, Next(w, Install(k)), w.loading[k];
    SamePermits(s, u.state);
    if s.pending == [] {
      var bag, kept := multiset(tasks), multiset(w.held);
      assert Bag(w) == kept;
      assert Bag(u) == bag + kept;
      UniqueSum(bag, kept);
      IdsOfSum(bag, kept);
      DistinctIsUnique(tasks);
      IdsOfSeq(tasks);
      var apart := forall id :: id in IdsOf(bag) ==> id in s.seen && id !in Live(s) + IdsOf(kept) + Entering(w);
      assert ReloadSafe(w, tasks) <==> DistinctIds(tasks) && apart;
    } else {
      assert Bag(u) == Bag(w);
    }
  }

  lemma ClaimEffect(w: World, id: string)
    ensures var u := Next(w, Claim(id));
            && Bag(u) == Bag(w) && Live(u.state) == Live(w.state) && u.held == w.held && u.passes == w.passes
            && (OnePermitEach(u.state) <==> OnePermitEach(w.state))
            && (|w.state.seen| < SEEN_IDS_CAP && id in w.state.seen ==> u == w)
            && (|w.state.seen| >= SEEN_IDS_CAP || id !in w.state.seen ==>
                  u.entering == w.entering + multiset{id} && Entering(u) == Entering(w) + {id})
            && (|w.state.seen| < SEEN_IDS_CAP ==> u.state.seen == w.state.seen + {id})
            && (|w.state.seen| >= SEEN_IDS_CAP ==> u.state.seen == {id})
  {
    hide OnePermitEach;
    var u := Next(w, Claim(id));
    SamePermits(w.state, u.state);
    assert id in w.state.seen ==> w.state.seen + {id} == w.state.seen;
  }

  lemma ClaimExact(w: World, id: string)
    requires Inv(w)
    ensures Inv(Next(w, Claim(id))) <==> Safe(w, Claim(id))
  {
    hide UniqueBag, IdsOf, Next, Bag, Live, Entering, Idle, OnePermitEach;
    var u := Next(w, Claim(id));
    ClaimEffect(w, id);
    EnteringMembers(w);
    if |w.state.seen| >= SEEN_IDS_CAP {
      IdleIffNothing(w);
      OnlyTheNew(Waiting(w), Live(w.state), Entering(w), id);
      EnteredOnce(w.entering, id);
    } else if id !in w.state.seen {
      assert id !in Waiting(w) + Live(w.state) + Entering(w);
      EnteredOnce(w.entering, id);
    }
  }

  lemma EnteredOnce(entering: multiset<string>, id: string)
    requires forall x :: entering[x] <= 1
    ensures (forall x :: (entering + multiset{id})[x] <= 1) <==> id !in entering
  {
    assert (entering + multiset{id})[id] == entering[id] + 1;
  }

  lemma OnlyTheNew(x: set<string>, l: set<string>, e: set<string>, id: string)
    ensures x !! l !! (e + {id}) && x + l + (e + {id}) <= {id} && id !in e <==> x + l + e == {}
  {
    if x + l + e == {} { assert x == {} && l == {} && e == {}; }
    if x !! l !! (e + {id}) && x + l + (e + {id}) <= {id} && id !in e {
      forall y
        ensures y !in x + l + e
      {
      }
    }
  }

  lemma EnteringMembers(w: World)
    ensures forall x :: x in Entering(w) <==> w.entering[x] > 0
  {
  }

  lemma IdleIffNothing(w: World)
    ensures Idle(w) <==> Waiting(w) + Live(w.state) + Entering(w) == {}
  {
    if w.state.pending != [] { assert w.state.pending[0] in Bag(w) && w.state.pending[0].id in Waiting(w); }
    if w.held != [] { assert w.held[0] in Bag(w) && w.held[0].id in Waiting(w); }
    if w.state.processing != [] { assert w.state.processing[0].id in Live(w.state); }
    if w.entering != multiset{} {
      var x :| x in w.entering;
      assert x in Entering(w);
    }
  }

  /** Where the placed id goes: it runs, waits or is left behind. */
  lemma PlaceEffect(w: World, e: Event)
    requires e.Place? && Enabled(w, e) && w.entering[e.task.id] == 1
    ensures var u, id := Next(w, e), e.task.id;
            && Entering(u) == Entering(w) - {id} && (forall x :: u.entering[x] <= w.entering[x])
            && u.state.seen == w.state.seen && u.held == w.held && u.passes == w.passes
            && Live(u.state) == Live(w.state) + (if e.d == Started && e.plan.agents != [] then {id} else {})
            && Bag(u) == Bag(w) + (if e.d in {NoPermit, AgentBusy} then multiset{e.task} else multiset{})
            && (OnePermitEach(w.state) && id !in Live(w.state) ==> OnePermitEach(u.state))
  {
    hide Placed, Bag, Live, OnePermitEach;
    PlacedMoves(w.state, e.task, e.plan, e.d, e.writes);
    BagGrows(w, Next(w, e), e.task);
    EnteringShrinks(w, e.task.id);
  }

  lemma PlacedMoves(s: State, task: Task, plan: Plan, d: Decision, writes: bool)
    requires plan.id == task.id && d != ParseError && (d == Started ==> s.available > 0)
    ensures var t := Placed(s, task, plan, d, writes);
            && t.seen == s.seen
            && t.pending == (if d in {NoPermit, AgentBusy} then s.pending + [task] else s.pending)
            && Live(t) == Live(s) + (if d == Started && plan.agents != [] then {task.id} else {})
            && (OnePermitEach(s) && task.id !in Live(s) ==> OnePermitEach(t))
  {
    hide PlanEntries, OnePermitEach;
    LiveAfterEntries(s, plan);
    if OnePermitEach(s) { PermitsAfterEntries(s, plan); }
    SamePermits(s, Placed(s, task, plan, d, writes));
    SamePermits(s.(processing := s.processing + PlanEntries(plan, true)), Placed(s, task, plan, d, writes));
    assert Live(s) + {} == Live(s);
  }

  lemma SamePermits(s: State, t: State)
    ensures s.processing == t.processing ==> Live(s) == Live(t) && (OnePermitEach(s) <==> OnePermitEach(t))
  {
    if s.processing == t.processing { assert Live(s) == Live(t); }
  }

  lemma BagGrows(w: World, u: World, x: Task)
    requires u.held == w.held
    ensures u.state.pending == w.state.pending + [x] ==> Bag(u) == Bag(w) + multiset{x}
    ensures u.state.pending == w.state.pending ==> Bag(u) == Bag(w) + multiset{}
  {
    assert multiset(w.state.pending + [x]) == multiset(w.state.pending) + multiset{x};
  }

  lemma EnteringShrinks(w: World, id: string)
    requires w.entering[id] == 1
    ensures (set x | x in w.entering - multiset{id}) == Entering(w) - {id}
    ensures forall x :: (w.entering - multiset{id})[x] <= w.entering[x]
  {
  }

  lemma PlaceKeepsInv(w: World, e: Event)
    requires Inv(w) && e.Place? && Enabled(w, e)
    ensures Inv(Next(w, e))
  {
    hide UniqueBag, IdsOf, Next, OnePermitEach;
    var id := e.task.id;
    assert id in Entering(w);
    PlaceEffect(w, e);
    var one := multiset{e.task};
    UniqueOne(e.task);
    UniqueSum(Bag(w), one);
    IdsOfSum(Bag(w), one);
    assert Bag(w) + multiset{} == Bag(w);
  }

  lemma DrainKeepsInv(w: World)
    requires Inv(w)
    ensures Inv(Next(w, Drain)) && Bag(Next(w, Drain)) == Bag(w)
  {
    hide SortTasks, UniqueBag, IdsOf, OnePermitEach;
    SortLaws(w.state.pending);
    var u := Next(w, Drain);
    assert Bag(u) == Bag(w) by {
      assert multiset(w.held + SortTasks(w.state.pending)) == multiset(w.held) + multiset(SortTasks(w.state.pending));
    }
    SamePermits(w.state, u.state);
  }

  lemma TryEffect(w: World, e: Event)
    requires e.Try? && Enabled(w, e)
    ensures var u, x, id := Next(w, e), w.held[e.i], TryLaunches(e.named, e.d);
            && u.state.seen == w.state.seen && u.entering == w.entering && u.passes == w.passes
            && (e.d != Started ==> u == w && id.None?)
            && (e.d == Started ==> Bag(w) == Bag(u) + multiset{x} && (w.held == [] ==> u.held == []))
            && Live(u.state) == Live(w.state) + (if id.Some? then {id.value} else {})
            && (OnePermitEach(w.state) ==> (OnePermitEach(u.state) <==> id.None? || id.value !in Live(w.state)))
  {
    hide LaunchAgents, PlanEntries, OnePermitEach;
    var x, i := w.held[e.i], e.i;
    assert w.held == w.held[..i] + [x] + w.held[i + 1..];
    assert multiset(w.held) == multiset(w.held[..i] + w.held[i + 1..]) + multiset{x};
    if e.named.Some? {
      LiveAfterEntries(w.state, e.named.value);
      if OnePermitEach(w.state) { PermitsAfterEntries(w.state, e.named.value); }
      var added := PlanEntries(e.named.value, true);
      SamePermits(w.state.(processing := w.state.processing + added), Next(w, e).state);
    }
    assert Live(w.state) + {} == Live(w.state);
  }

  /** An attempt keeps the queue free of duplicates exactly when it launches nothing, the task itself,
      or a task that was stranded. */
  lemma TryExact(w: World, e: Event)
    requires Inv(w) && e.Try? && Enabled(w, e)
    ensures Inv(Next(w, e)) <==> Safe(w, e)
  {
    hide UniqueBag, IdsOf, Next, OnePermitEach, TryLaunches, CanStart;
    TryEffect(w, e);
    var u, x := Next(w, e), w.held[e.i];
    if e.d == Started {
      UniqueOne(x);
      UniqueSum(Bag(u), multiset{x});
      IdsOfSum(Bag(u), multiset{x});
      assert Waiting(w) == Waiting(u) + {x.id} && x.id !in Waiting(u);
    }
  }

  lemma PutBackKeepsInv(w: World, e: Event)
    requires Inv(w) && e.PutBack? && Enabled(w, e)
    ensures Inv(Next(w, e)) && Bag(Next(w, e)) == Bag(w)
    ensures Next(w, e).state.pending == w.state.pending + e.put && Next(w, e).held == e.kept
  {
    hide UniqueBag, IdsOf, OnePermitEach;
    var u := Next(w, e);
    assert multiset(w.state.pending + e.put) == multiset(w.state.pending) + multiset(e.put);
    assert Bag(u) == Bag(w);
    SamePermits(w.state, u.state);
  }

  lemma CancelEffect(w: World, id: string, writes: bool)
    ensures var u := Next(w, Cancel(id, writes));
            && u == w.(state := w.state.(pending := u.state.pending, file := u.state.file)) && Live(u.state) == Live(w.state)
            && u.state.pending == WithoutTask(w.state.pending, id)
            && (id in IdsOf(multiset(w.state.pending)) <==> u.state.pending != w.state.pending)
            && (OnePermitEach(u.state) <==> OnePermitEach(w.state))
  {
    hide OnePermitEach;
    WithoutTaskBag(w.state.pending, id);
    SamePermits(w.state, Next(w, Cancel(id, writes)).state);
  }

  lemma CancelKeepsInv(w: World, id: string, writes: bool)
    requires Inv(w)
    ensures Inv(Next(w, Cancel(id, writes)))
    ensures Waiting(Next(w, Cancel(id, writes))) == Waiting(w) - if id in IdsOf(multiset(w.state.pending)) then {id} else {}
  {
    hide UniqueBag, IdsOf, WithoutTask, Next, OnePermitEach;
    var u := Next(w, Cancel(id, writes));
    var all, rest, held := multiset(w.state.pending), multiset(u.state.pending), multiset(w.held);
    CancelEffect(w, id, writes);
    WithoutTaskBag(w.state.pending, id);
    RemovedBag(all, rest, id);
    UniqueSum(all, held);
    UniqueSum(rest, held);
    IdsOfSum(all, held);
    IdsOfSum(rest, held);
  }

  lemma TerminateExact(w: World, id: string)
    requires Inv(w)
    ensures Inv(Next(w, Terminate(id))) <==> Safe(w, Terminate(id))
  {
    hide UniqueBag, IdsOf, OnePermitEach;
    LiveAfterTermination(w.state, id);
    PermitsAfterTermination(w.state, id);
    assert Bag(Next(w, Terminate(id))) == Bag(w);
  }

  lemma LandKeepsInv(w: World, file: QueueFile)
    requires Inv(w)
    ensures Inv(Next(w, Land(file))) && Next(w, Land(file)).state.file == Some(file)
  {
    hide UniqueBag, IdsOf, OnePermitEach;
    var u := Next(w, Land(file));
    assert Bag(u) == Bag(w);
    SamePermits(w.state, u.state);
  }

  /** A step keeps the queue free of duplicates exactly when it is safe. */
  lemma StepExact(w: World, e: Event)
    requires Inv(w)
    ensures Inv(Next(w, e)) <==> Safe(w, e)
  {
    hide Inv, Safe, Next;
    if !Enabled(w, e) {
      DisabledSafe(w, e);
    } else {
      match e
      case Read => ReadKeepsInv(w); OthersSafe(w, e);
      case Install(k) => InstallExact(w, k);
      case Claim(id) => ClaimExact(w, id);
      case Place(_, _, _, _) => PlaceKeepsInv(w, e); OthersSafe(w, e);
      case Drain => DrainKeepsInv(w); OthersSafe(w, e);
      case Try(_, _, _) => TryExact(w, e);
      case PutBack(_, _, _) => PutBackKeepsInv(w, e); OthersSafe(w, e);
      case Cancel(id, writes) => CancelKeepsInv(w, id, writes); OthersSafe(w, e);
      case Terminate(id) => TerminateExact(w, id);
      case Land(file) => LandKeepsInv(w, file); OthersSafe(w, e);
    }
  }

  lemma DisabledSafe(w: World, e: Event)
    requires !Enabled(w, e)
    ensures Safe(w, e) && Next(w, e) == w
  {
  }

  lemma OthersSafe(w: World, e: Event)
    ensures !e.Install? && !e.Claim? && !e.Terminate? && !e.Try? ==> Safe(w, e)
  {
  }

  // ---------- a load that is not interrupted ----------

  function Reload(w: World): World {
    Next(Next(w, Read), Install(|w.loading|))
  }

  lemma ReloadIsLoaded(w: World)
    ensures Reload(w) == w.(state := Loaded(w.state))
  {
    hide Reloadable;
    assert (w.loading + [Reloadable(w.state)])[..|w.loading|] == w.loading;
  }

  /** A load keeps the queue free of duplicates exactly when it changes nothing or what it reloads is safe. */
  lemma LoadExact(w: World)
    requires Inv(w)
    ensures Inv(Reload(w)) <==> Loaded(w.state) == w.state || ReloadSafe(w, Reloadable(w.state))
    ensures Loaded(w.state) != w.state <==> w.state.pending == [] && Reloadable(w.state) != []
  {
    hide Inv, Reloadable, IdsOf;
    var u := Next(w, Read);
    ReadKeepsInv(w);
    InstallExact(u, |w.loading|);
    assert w.state.pending == [] && Reloadable(w.state) == [] ==> Loaded(w.state) == w.state;
  }

  // ---------- runs ----------

  function After(w: World, events: seq<Event>): World
    decreases |events|
  {
    if events == [] then w else Next(After(w, events[..|events| - 1]), events[|events| - 1])
  }

  function At(w: World, events: seq<Event>, n: nat): World
    requires n <= |events|
  {
    After(w, events[..n])
  }

  lemma AtStep(w: World, events: seq<Event>, n: nat)
    requires n < |events|
    ensures At(w, events, 0) == w
    ensures At(w, events, n + 1) == Next(At(w, events, n), events[n])
  {
    assert events[..n + 1][..n] == events[..n];
  }

  ghost predicate SafeUpTo(w: World, events: seq<Event>, n: nat)
    requires n <= |events|
  {
    forall k :: 0 <= k < n ==> Safe(At(w, events, k), events[k])
  }

  lemma {:induction false} SafeRunKeepsInv(w: World, events: seq<Event>, n: nat)
    requires n <= |events| && Inv(w) && SafeUpTo(w, events, n)
    ensures Inv(At(w, events, n))
  {
    hide Inv, Safe, At, Next;
    if n > 0 {
      SafeRunKeepsInv(w, events, n - 1);
      AtStep(w, events, n - 1);
      StepExact(At(w, events, n - 1), events[n - 1]);
    } else {
      AtStart(w, events);
    }
  }

  lemma AtStart(w: World, events: seq<Event>)
    ensures At(w, events, 0) == w
  {
  }

  /** In every run, the queue is free of duplicates in every state exactly when every step is safe. */
  lemma RunExact(w: World, events: seq<Event>)
    requires Inv(w)
    ensures (forall n :: 0 <= n <= |events| ==> Inv(At(w, events, n))) <==> SafeUpTo(w, events, |events|)
  {
    hide Inv, Safe, At, Next;
    if forall n :: 0 <= n <= |events| ==> Inv(At(w, events, n)) {
      forall k | 0 <= k < |events|
        ensures Safe(At(w, events, k), events[k])
      {
        AtStep(w, events, k);
        assert Inv(At(w, events, k)) && Inv(At(w, events, k + 1));
        StepExact(At(w, events, k), events[k]);
      }
    }
    if SafeUpTo(w, events, |events|) {
      forall n | 0 <= n <= |events|
        ensures Inv(At(w, events, n))
      {
        SafeRunKeepsInv(w, events, n);
      }
    }
  }

  // ---------- what the invariant shows to a caller ----------

  function Initial(limit: nat, file: Option<QueueFile>): World {
    World(State([], [], limit, {}, file), [], 0, multiset{}, [])
  }

  lemma InitialInv(limit: nat, file: Option<QueueFile>)
    ensures Inv(Initial(limit, file)) && Stranded(Initial(limit, file)) == {}
  {
  }

  /** The ids that a step launches: those of the entries that it adds. */
  function Launched(w: World, e: Event): set<string> {
    var before, now := w.state.processing, Next(w, e).state.processing;
    set k | |before| <= k < |now| :: now[k].id
  }

  lemma AddedEntries(w: World, e: Event)
    ensures var id := if !Enabled(w, e) then None else match e
                        case Place(task, plan, d, _) => TryLaunches(Some(plan), d)
                        case Try(_, named, d) => TryLaunches(named, d)
                        case _ => None;
            Launched(w, e) == if id.Some? then {id.value} else {}
  {
    hide SortTasks, InsertSeen, Reloadable, WithoutTask, Busy, LaunchAgents;
    if Enabled(w, e) {
      match e
      case Place(_, plan, _, _) => PlanIds(w.state, plan);
      case Try(_, named, _) => if named.Some? { PlanIds(w.state, named.value); }
      case Terminate(id) => WithoutShorter(w.state.processing, id);
      case _ =>
    }
  }

  lemma PlanIds(s: State, plan: Plan)
    ensures var all := s.processing + PlanEntries(plan, true);
            (set k | |s.processing| <= k < |all| :: all[k].id) == if plan.agents == [] then {} else {plan.id}
  {
    var all := s.processing + PlanEntries(plan, true);
    if plan.agents != [] { assert all[|s.processing|].id == plan.id; }
  }

  lemma LaunchesAreNew(w: World, e: Event)
    requires Inv(w) && Safe(w, e)
    ensures Launched(w, e) !! Live(w.state)
  {
    hide UniqueBag, Next, Launched, CanStart;
    AddedEntries(w, e);
    if Enabled(w, e) && e.Place? { assert e.task.id in Entering(w); }
    if Enabled(w, e) && e.Try? { assert w.held[e.i] in Bag(w) && w.held[e.i].id in Waiting(w); }
  }

  /** From any queue file: as long as the steps were safe, no id is queued twice, held by a pass as
      well, or queued and running; all of them are in the dedup set; every running id holds one permit;
      and the next safe step launches nothing that still runs. */
  lemma NoDuplicateExecution(limit: nat, file: Option<QueueFile>, events: seq<Event>, e: Event)
    requires SafeUpTo(Initial(limit, file), events, |events|) && Safe(After(Initial(limit, file), events), e)
    ensures var w := After(Initial(limit, file), events);
            && DistinctIds(w.state.pending + w.held)
            && Waiting(w) !! Live(w.state) && Waiting(w) + Live(w.state) <= w.state.seen
            && (forall id :: PermitsOf(w.state.processing, id) == if id in Live(w.state) then 1 else 0)
            && Launched(w, e) !! Live(w.state)
  {
    hide Next, Safe, Launched;
    var w := After(Initial(limit, file), events);
    InitialInv(limit, file);
    assert events[..|events|] == events;
    SafeRunKeepsInv(Initial(limit, file), events, |events|);
    assert multiset(w.state.pending + w.held) == Bag(w);
    DistinctIsUnique(w.state.pending + w.held);
    LaunchesAreNew(w, e);
  }
}
