/** Ids that the dedup set keeps although nothing waits or runs under them: a submission of such
    an id is dropped. It is stated exactly which steps strand an id and which free it. */
module StrandedIds {
  import opened Text
  import opened Scheduler
  import opened TaskBags
  import opened SchedulerRuns

  /** A launch error outside a pass, a start that stores no agent of the task, and the cancellation of a
      queued task. */
  function Strands(w: World, e: Event): set<string> {
    if !Enabled(w, e) then {}
    else
      match e
      case Place(task, plan, d, _) => if d == LaunchError || (d == Started && plan.agents == []) then {task.id} else {}
      case Try(i, named, d) => if d == Started && TryLaunches(named, d) != Some(w.held[i].id) then {w.held[i].id} else {}
      case Cancel(id, _) => if id in IdsOf(multiset(w.state.pending)) then {id} else {}
      case _ => {}
  }

  /** Installing what was read queues ids again, a claim at the cap forgets all, ending an id forgets it,
      and a plan file that names another task by now can launch that. */
  function Frees(w: World, e: Event): set<string> {
    if !Enabled(w, e) then {}
    else
      match e
      case Install(k) => if w.state.pending == [] then IdsOf(multiset(w.loading[k])) else {}
      case Claim(_) => if |w.state.seen| >= SEEN_IDS_CAP then w.state.seen else {}
      case Terminate(id) => {id}
      case Try(i, named, d) =>
        var id := TryLaunches(named, d);
        if id.Some? && id.value != w.held[i].id then {id.value} else {}
      case _ => {}
  }

  // ---------- one step ----------

  lemma InstallStrands(w: World, k: nat)
    requires k < |w.loading|
    ensures Stranded(Next(w, Install(k))) == Stranded(w) - Frees(w, Install(k))
  {
    hide IdsOf;
    var u := Next(w, Install(k));
    assert Live(u.state) == Live(w.state) && Entering(u) == Entering(w);
    if w.state.pending == [] {
      IdsOfSum(multiset(w.loading[k]), multiset(w.held));
      assert Bag(w) == multiset(w.held);
    } else {
      assert Bag(u) == Bag(w);
    }
  }

  lemma ClaimStrands(w: World, id: string)
    requires Inv(w) && Safe(w, Claim(id))
    ensures Stranded(Next(w, Claim(id))) == Stranded(w) - Frees(w, Claim(id))
  {
    hide Next, Bag, Live, Entering, IdsOf, UniqueBag, OnePermitEach;
    ClaimEffect(w, id);
  }

  lemma PlaceStrands(w: World, e: Event)
    requires Inv(w) && e.Place? && Enabled(w, e)
    ensures Stranded(Next(w, e)) == Stranded(w) + Strands(w, e)
  {
    hide IdsOf, Next, UniqueBag, OnePermitEach;
    PlaceEffect(w, e);
    var u, id := Next(w, e), e.task.id;
    assert id in Entering(w);
    UniqueOne(e.task);
    IdsOfSum(Bag(w), multiset{e.task});
    assert Bag(w) + multiset{} == Bag(w);
    var queued := e.d in {NoPermit, AgentBusy};
    var launched := e.d == Started && e.plan.agents != [];
    assert Waiting(u) == Waiting(w) + (if queued then {id} else {});
    EntryLeft(w.state.seen, Waiting(w), Live(w.state), Entering(w), id, queued, launched);
    assert Strands(w, e) == if queued || launched then {} else {id};
  }

  lemma EntryLeft(seen: set<string>, waiting: set<string>, live: set<string>, entering: set<string>, id: string,
      queued: bool, launched: bool)
    requires id in seen && id in entering && id !in waiting + live
    ensures seen - (waiting + if queued then {id} else {}) - (live + if launched then {id} else {}) - (entering - {id})
              == (seen - waiting - live - entering) + if queued || launched then {} else {id}
  {
  }

  lemma TryStrands(w: World, e: Event)
    requires Inv(w) && e.Try? && Enabled(w, e) && Safe(w, e)
    ensures Stranded(Next(w, e)) == Stranded(w) - Frees(w, e) + Strands(w, e)
  {
    hide IdsOf, Next, UniqueBag, OnePermitEach, TryLaunches;
    TryEffect(w, e);
    var u, x := Next(w, e), w.held[e.i];
    if e.d == Started {
      UniqueOne(x);
      UniqueSum(Bag(u), multiset{x});
      IdsOfSum(Bag(u), multiset{x});
      assert Waiting(w) == Waiting(u) + {x.id} && x.id !in Waiting(u);
      AttemptLeft(w.state.seen, Waiting(u), Live(w.state), Entering(w), x.id, TryLaunches(e.named, e.d));
    } else {
      assert Stranded(w) - {} + {} == Stranded(w);
    }
  }

  lemma AttemptLeft(seen: set<string>, waiting: set<string>, live: set<string>, entering: set<string>, id: string, launched: Option<string>)
    requires id in seen && id !in waiting + live + entering
    requires launched.Some? && launched.value != id ==> launched.value in seen - (waiting + {id}) - live - entering
    ensures var was := seen - (waiting + {id}) - live - entering;
            var now := seen - waiting - (live + if launched.Some? then {launched.value} else {}) - entering;
            now == was - (if launched.Some? && launched.value != id then {launched.value} else {})
                     + (if launched == Some(id) then {} else {id})
  {
  }

  lemma CancelStrands(w: World, id: string, writes: bool)
    requires Inv(w)
    ensures Stranded(Next(w, Cancel(id, writes))) == Stranded(w) + Strands(w, Cancel(id, writes))
  {
    hide IdsOf, WithoutTask, Next, UniqueBag, OnePermitEach;
    CancelEffect(w, id, writes);
    CancelKeepsInv(w, id, writes);
    IdsOfSum(multiset(w.state.pending), multiset(w.held));
  }

  lemma TerminateStrands(w: World, id: string)
    ensures Stranded(Next(w, Terminate(id))) == Stranded(w) - {id}
  {
    hide IdsOf;
    LiveAfterTermination(w.state, id);
    assert Bag(Next(w, Terminate(id))) == Bag(w);
  }

  lemma QuietFrame(w: World, e: Event)
    requires Enabled(w, e) && (e.Read? || e.Drain? || e.PutBack? || e.Land?)
    ensures var u := Next(w, e);
            u.state.processing == w.state.processing && u.state.seen == w.state.seen && u.entering == w.entering
  {
    hide SortTasks, Reloadable;
  }

  lemma QuietStrands(w: World, e: Event)
    requires Inv(w) && Enabled(w, e) && (e.Read? || e.Drain? || e.PutBack? || e.Land?)
    ensures Stranded(Next(w, e)) == Stranded(w)
  {
    hide IdsOf, Next, UniqueBag, OnePermitEach;
    var u := Next(w, e);
    QuietFrame(w, e);
    if e.Drain? {
      DrainKeepsInv(w);
    } else if e.PutBack? {
      PutBackKeepsInv(w, e);
    } else {
      SameQueue(w, e);
    }
    assert Bag(u) == Bag(w) && Live(u.state) == Live(w.state);
  }

  lemma SameQueue(w: World, e: Event)
    requires e.Read? || e.Land?
    ensures Bag(Next(w, e)) == Bag(w)
  {
    hide Reloadable;
  }

  /** A safe step strands exactly the ids of its three causes and frees exactly those it forgets or queues again. */
  lemma StrandedStep(w: World, e: Event)
    requires Inv(w) && Safe(w, e)
    ensures Stranded(Next(w, e)) == Stranded(w) - Frees(w, e) + Strands(w, e)
  {
    hide Stranded, Inv, Safe, Next, IdsOf, CanStart;
    assert Stranded(w) - {} == Stranded(w) && forall x: set<string> :: x + {} == x;
    if Enabled(w, e) {
      match e
      case Read => QuietStrands(w, e);
      case Install(k) => InstallStrands(w, k);
      case Claim(id) => ClaimStrands(w, id);
      case Place(_, _, _, _) => PlaceStrands(w, e);
      case Try(_, _, _) => TryStrands(w, e);
      case Cancel(id, writes) => CancelStrands(w, id, writes);
      case Terminate(id) => TerminateStrands(w, id);
      case Drain => QuietStrands(w, e);
      case PutBack(_, _, _) => QuietStrands(w, e);
      case Land(_) => QuietStrands(w, e);
    } else {
      DisabledSafe(w, e);
    }
  }

  // ---------- whole runs ----------

  /** Step `n` strands the id and no later step of the first `m` frees it. */
  predicate StrandedSince(w: World, events: seq<Event>, n: nat, m: nat, id: string)
    requires n < m <= |events|
  {
    && id in Strands(At(w, events, n), events[n])
    && forall k :: n < k < m ==> id !in Frees(At(w, events, k), events[k])
  }

  /** In every safe run an id is stranded exactly when some step stranded it and no later one freed it. */
  lemma {:induction false} StrandedExactly(w: World, events: seq<Event>, m: nat, id: string)
    requires m <= |events| && Inv(w) && Stranded(w) == {} && SafeUpTo(w, events, |events|)
    ensures id in Stranded(At(w, events, m)) <==> exists n :: 0 <= n < m && StrandedSince(w, events, n, m, id)
  {
    hide Stranded, Inv, Safe, Next, At, Strands, Frees;
    AtStart(w, events);
    if m > 0 {
      var k := m - 1;
      var v, e := At(w, events, k), events[k];
      StrandedExactly(w, events, k, id);
      SafeRunKeepsInv(w, events, k);
      AtStep(w, events, k);
      StrandedStep(v, e);
      if id in Strands(v, e) {
        assert StrandedSince(w, events, k, m, id);
      } else if id in Stranded(v) && id !in Frees(v, e) {
        var n :| 0 <= n < k && StrandedSince(w, events, n, k, id);
        assert StrandedSince(w, events, n, m, id);
      }
      if exists n :: 0 <= n < m && StrandedSince(w, events, n, m, id) {
        var n :| 0 <= n < m && StrandedSince(w, events, n, m, id);
        if n < k { assert StrandedSince(w, events, n, k, id); }
      }
    }
  }

  // ---------- what a caller sees ----------

  /** A task is dropped exactly when its id is in the dedup set and the set is below its cap. */
  lemma DroppedExact(c: Config, s: State, task: Task, plan: Plan, launches: bool, writes: bool)
    ensures Entered(c, s, task, plan, launches, writes) == s <==> task.id in s.seen && |s.seen| < SEEN_IDS_CAP
    ensures InsertSeen(s.seen, task.id).1 <==> task.id !in s.seen || |s.seen| >= SEEN_IDS_CAP
  {
    hide Decide;
    var id := task.id;
    assert Entered(c, s, task, plan, launches, writes).seen == InsertSeen(s.seen, id).0;
    if id in s.seen && |s.seen| < SEEN_IDS_CAP {
      assert s.seen + {id} == s.seen;
    } else if |s.seen| >= SEEN_IDS_CAP {
      assert |{id}| == 1;
      assert s.seen != {id};
    } else {
      assert id in s.seen + {id};
    }
  }

  lemma StrandedIsSeen(w: World, id: string)
    ensures id !in Waiting(w) + Live(w.state) + Entering(w) ==> (id in Stranded(w) <==> id in w.state.seen)
    ensures id in Stranded(w) ==> id !in Waiting(w) + Live(w.state) + Entering(w)
  {
  }

  /** Submitting an id under which nothing waits, enters or runs changes nothing but what a reload
      brings exactly when the id is stranded and the dedup set is below its cap; the caller is told it succeeded. */
  lemma ResubmissionExact(c: Config, w: World, plan: Plan, planFile: string, now: nat, priority: nat, launches: bool, writes: bool)
    requires plan.id !in Waiting(w) + Live(w.state) + Entering(w)
    ensures var dropped := plan.id in Stranded(w) && |w.state.seen| < SEEN_IDS_CAP;
            && (Submitted(c, w.state, plan, planFile, now, priority, launches, writes) == Loaded(w.state) <==> dropped)
            && (dropped ==> SubmitSucceeds(c, w.state, plan, planFile, now, priority, launches, writes))
  {
    hide Waiting, Live, Entering, Stranded, Decide, Reloadable, Entered, InsertSeen;
    StrandedIsSeen(w, plan.id);
    assert Loaded(w.state).seen == w.state.seen;
    DroppedExact(c, Loaded(w.state), TaskOf(plan, planFile, now, priority), plan, launches, writes);
  }

  /** Likewise for a delivered task, for which nothing is loaded: it is acknowledged and lost. */
  lemma DeliveredExact(c: Config, w: World, task: Task, launches: bool, writes: bool)
    requires task.id !in Waiting(w) + Live(w.state) + Entering(w)
    ensures var dropped := task.id in Stranded(w) && |w.state.seen| < SEEN_IDS_CAP;
            && (Delivered(c, w.state, task, launches, writes) == w.state <==> dropped)
            && (dropped ==> DeliverySucceeds(c, w.state, task, launches, writes))
  {
    hide Waiting, Live, Entering, Stranded, Decide, Entered, InsertSeen;
    StrandedIsSeen(w, task.id);
    DroppedExact(c, w.state, task, Plan(task.id, [task.agent]), launches, writes);
  }

  /** A delivery whose launch fails is reported as an error, so it is delivered again; the second delivery
      changes nothing and reports success exactly when the dedup set is below its cap by then. */
  lemma RedeliveryLost(c: Config, s: State, task: Task, launches: bool, writes: bool, again: bool, writesAgain: bool)
    requires InsertSeen(s.seen, task.id).1
    requires var t := s.(seen := InsertSeen(s.seen, task.id).0);
             Decide(c.strategy, t, task, Attempt(Some(Plan(task.id, [task.agent])), launches)) == LaunchError
    ensures var t := Delivered(c, s, task, launches, writes);
            && t == s.(seen := InsertSeen(s.seen, task.id).0) && !DeliverySucceeds(c, s, task, launches, writes)
            && (Delivered(c, t, task, again, writesAgain) == t <==> |t.seen| < SEEN_IDS_CAP)
            && (|t.seen| < SEEN_IDS_CAP ==> DeliverySucceeds(c, t, task, again, writesAgain))
  {
    hide Decide;
    var t := s.(seen := InsertSeen(s.seen, task.id).0);
    assert task.id in t.seen;
    DroppedExact(c, t, task, Plan(task.id, [task.agent]), again, writesAgain);
  }

  /** A queued task that is cancelled leaves the queue, and its id is stranded: it cannot be submitted again. */
  lemma CancelledCannotReturn(c: Config, w: World, plan: Plan, planFile: string, now: nat, priority: nat,
      saved: bool, launches: bool, writes: bool)
    requires Inv(w) && plan.id in IdsOf(multiset(w.state.pending)) && |w.state.seen| < SEEN_IDS_CAP
    ensures var u := Next(w, Cancel(plan.id, saved));
            && plan.id !in Waiting(u) && |u.state.pending| < |w.state.pending|
            && plan.id in Stranded(u)
            && Submitted(c, u.state, plan, planFile, now, priority, launches, writes) == Loaded(u.state)
            && SubmitSucceeds(c, u.state, plan, planFile, now, priority, launches, writes)
  {
    hide IdsOf, WithoutTask, UniqueBag;
    var e := Cancel(plan.id, saved);
    var u := Next(w, e);
    CancelEffect(w, plan.id, saved);
    CancelKeepsInv(w, plan.id, saved);
    StrandedStep(w, e);
    WithoutTaskBag(w.state.pending, plan.id);
    IdsOfSum(multiset(w.state.pending), multiset(w.held));
    ResubmissionExact(c, u, plan, planFile, now, priority, launches, writes);
  }

  /** So is the id of a submission whose launch fails, or whose plan has no agents. */
  lemma NothingLaunchedStrands(c: Config, w: World, e: Event, planFile: string, now: nat, priority: nat, launches: bool, writes: bool)
    requires Inv(w) && e.Place? && Enabled(w, e) && |w.state.seen| < SEEN_IDS_CAP
    requires e.d == LaunchError || (e.d == Started && e.plan.agents == [])
    ensures var u := Next(w, e);
            && e.plan.id in Stranded(u)
            && Submitted(c, u.state, e.plan, planFile, now, priority, launches, writes) == Loaded(u.state)
            && SubmitSucceeds(c, u.state, e.plan, planFile, now, priority, launches, writes)
  {
    hide Decide, IdsOf, UniqueBag, Next, Stranded, CanStart;
    StrandedStep(w, e);
    PlaceEffect(w, e);
    StrandedIsSeen(Next(w, e), e.plan.id);
    ResubmissionExact(c, Next(w, e), e.plan, planFile, now, priority, launches, writes);
  }

  /** But a load that had read the file before the cancellation queues the cancelled task again, although
      every save succeeds. */
  lemma CancelledReturns(w: World, x: Task)
    requires w.state.pending == [x] && Reloadable(w.state) == [x]
    ensures var u := Next(Next(w, Read), Cancel(x.id, true));
            && u.state.pending == [] && Reloadable(u.state) == []
            && Next(u, Install(|w.loading|)).state.pending == [x]
  {
    assert WithoutTask([x], x.id) == [] by { assert [x][1..] == []; }
    assert (w.loading + [[x]])[|w.loading|] == [x];
  }
}
