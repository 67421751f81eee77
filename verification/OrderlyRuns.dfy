/** Conditions under which no run of the scheduler ever queues a task twice or beside a running one,
    and four runs that show what happens without them. */
module OrderlyRuns {
  import opened Text
  import opened Scheduler
  import opened SchedulerLaws
  import opened TaskBags
  import opened SchedulerRuns
  import opened SchedulerCalls

  /** Saves succeed and land at once, loads and passes do not overlap, the dedup set is below its cap, a
      plan file keeps naming its task, and only running tasks are ended. */
  predicate Orderly(w: World, e: Event) {
    match e
    case Read => w.passes == 0
    case Drain => w.loading == []
    case Claim(_) => |w.state.seen| < SEEN_IDS_CAP
    case Place(_, _, _, writes) => writes
    case Try(i, named, _) => i < |w.held| && named.Some? ==> named.value.id == w.held[i].id
    case PutBack(_, _, writes) => writes
    case Cancel(_, writes) => writes
    case Terminate(id) => id in Live(w.state)
    case Land(_) => false
    case Install(_) => true
  }

  /** Between passes the file holds the queue or nothing, and what loads have read can be queued. */
  predicate Mirrored(w: World) {
    && (w.passes == 0 ==> Reloadable(w.state) == [] || Reloadable(w.state) == w.state.pending)
    && (w.passes > 0 ==> w.loading == [])
    && forall k :: 0 <= k < |w.loading| ==> ReloadSafe(w, w.loading[k])
  }

  lemma OrderlySafe(w: World, e: Event)
    requires Inv(w) && Mirrored(w) && Orderly(w, e)
    ensures Safe(w, e)
  {
    hide CanStart, UniqueBag, OnePermitEach, IdsOf, ReloadSafe, Reloadable;
  }

  // ---------- what has been read stays fit to be queued ----------

  /** The ids that can be queued. */
  function Free(w: World): set<string> {
    w.state.seen - Live(w.state) - IdsOf(multiset(w.held)) - Entering(w)
  }

  lemma SafeAfter(w: World, u: World, tasks: seq<Task>)
    requires ReloadSafe(w, tasks) && Free(w) <= Free(u)
    ensures ReloadSafe(u, tasks)
  {
    hide Live, IdsOf, Entering;
    forall k | 0 <= k < |tasks|
      ensures tasks[k].id in Free(u)
    {
      assert tasks[k].id in Free(w);
    }
  }

  lemma FreeGrows(w: World, e: Event)
    requires Inv(w) && Orderly(w, e) && w.passes == 0 && (w.loading != [] || e.Read?)
    ensures Free(w) <= Free(Next(w, e))
  {
    hide Next, IdsOf, UniqueBag, OnePermitEach;
    if Enabled(w, e) {
      match e
      case Claim(id) => ClaimEffect(w, id);
      case Place(task, _, _, _) => assert task.id in Entering(w); PlaceEffect(w, e);
      case Cancel(id, writes) => CancelEffect(w, id, writes);
      case Terminate(id) => TerminateFrees(w, id);
      case Read => LoadingKeepsFree(w, e);
      case Install(_) => LoadingKeepsFree(w, e);
    } else {
      DisabledSafe(w, e);
    }
  }

  lemma TerminateFrees(w: World, id: string)
    requires id in Live(w.state)
    ensures Free(w) <= Free(Next(w, Terminate(id)))
  {
    hide Live, IdsOf;
    LiveAfterTermination(w.state, id);
  }

  lemma LoadingKeepsFree(w: World, e: Event)
    requires e.Read? || e.Install?
    ensures Free(Next(w, e)) == Free(w)
  {
    hide IdsOf, Reloadable;
    var u := Next(w, e);
    assert u.state.processing == w.state.processing && Live(u.state) == Live(w.state);
    assert u.state.seen == w.state.seen && u.held == w.held && Entering(u) == Entering(w);
  }

  lemma PendingIsSafe(w: World)
    requires Inv(w) && w.held == []
    ensures ReloadSafe(w, w.state.pending)
  {
    hide UniqueBag, OnePermitEach, IdsOf;
    var pending := w.state.pending;
    assert multiset(w.held) == multiset{} && Bag(w) == multiset(pending);
    assert IdsOf(multiset{}) == {} by { UniqueNone(); }
    DistinctIsUnique(pending);
    IdsOfSeq(pending);
  }

  lemma UniqueNone()
    ensures IdsOf(multiset{}) == {}
  {
  }

  lemma OrderlyKeepsLoads(w: World, e: Event)
    requires Inv(w) && Mirrored(w) && Orderly(w, e)
    ensures var u := Next(w, e); forall k :: 0 <= k < |u.loading| ==> ReloadSafe(u, u.loading[k])
  {
    hide Inv, Orderly, ReloadSafe, Reloadable, Free, Next;
    var u := Next(w, e);
    LoadingAfter(w, e);
    if u.loading != [] {
      FreeGrows(w, e);
      if e.Read? { ReadIsSafe(w); }
      forall k | 0 <= k < |u.loading|
        ensures ReloadSafe(u, u.loading[k])
      {
        var x := u.loading[k];
        assert x in u.loading;
        if x in w.loading { var m :| 0 <= m < |w.loading| && w.loading[m] == x; }
        SafeAfter(w, u, x);
      }
    }
  }

  /** Only reading adds a list, and no list is there while a pass is at work. */
  lemma LoadingAfter(w: World, e: Event)
    requires Mirrored(w) && Orderly(w, e)
    ensures var u := Next(w, e);
            && (forall x :: x in u.loading ==> x in w.loading || (e.Read? && x == Reloadable(w.state)))
            && (u.loading != [] ==> w.passes == 0 && (w.loading != [] || e.Read?))
            && (u.passes > 0 ==> u.loading == [])
  {
    hide ReloadSafe, Reloadable, Placed, InsertSeen, AfterDecision, Cancelled, Terminated, Saved, SortTasks, CanStart, Live;
  }

  lemma ReadIsSafe(w: World)
    requires Inv(w) && Mirrored(w) && w.passes == 0
    ensures ReloadSafe(w, Reloadable(w.state))
  {
    hide UniqueBag, OnePermitEach, IdsOf, Reloadable;
    PendingIsSafe(w);
  }

  // ---------- the file follows the queue ----------

  lemma SavedMirrors(s: State)
    ensures Reloadable(Saved(s, true)) == s.pending && Saved(s, true).pending == s.pending
  {
  }

  lemma OrderlyKeepsFile(w: World, e: Event)
    requires Inv(w) && Mirrored(w) && Orderly(w, e)
    ensures var u := Next(w, e); u.passes == 0 ==> Reloadable(u.state) == [] || Reloadable(u.state) == u.state.pending
  {
    hide CanStart, PlanEntries, SortTasks, WithoutTask, InsertSeen, Waiting, Live, Entering, UniqueBag, OnePermitEach, ReloadSafe;
    if Enabled(w, e) && e.Cancel? { WithoutTaskBag(w.state.pending, e.id); }
  }

  lemma OrderlyKeepsMirror(w: World, e: Event)
    requires Inv(w) && Mirrored(w) && Orderly(w, e)
    ensures Mirrored(Next(w, e))
  {
    hide Inv, Orderly, Next, ReloadSafe, Reloadable;
    OrderlyKeepsFile(w, e);
    OrderlyKeepsLoads(w, e);
    LoadingAfter(w, e);
  }

  lemma {:induction false} OrderlyRunKeepsAll(w: World, events: seq<Event>, n: nat)
    requires n <= |events| && Inv(w) && Mirrored(w)
    requires forall k :: 0 <= k < |events| ==> Orderly(At(w, events, k), events[k])
    ensures SafeUpTo(w, events, n) && Inv(At(w, events, n)) && Mirrored(At(w, events, n))
  {
    hide Inv, Safe, At, Next, Mirrored, Orderly;
    if n > 0 {
      OrderlyRunKeepsAll(w, events, n - 1);
      AtStep(w, events, n - 1);
      OrderlySafe(At(w, events, n - 1), events[n - 1]);
      OrderlyKeepsMirror(At(w, events, n - 1), events[n - 1]);
      StepExact(At(w, events, n - 1), events[n - 1]);
    } else {
      AtStart(w, events);
    }
  }

  /** From a file without tasks every orderly run is safe, whatever else interleaves. */
  lemma OrderlyRunsAreSafe(limit: nat, file: Option<QueueFile>, events: seq<Event>)
    requires Reloadable(Initial(limit, file).state) == []
    requires forall k :: 0 <= k < |events| ==> Orderly(At(Initial(limit, file), events, k), events[k])
    ensures SafeUpTo(Initial(limit, file), events, |events|)
    ensures forall n :: 0 <= n <= |events| ==> Inv(At(Initial(limit, file), events, n))
  {
    hide Inv, Safe, At, Next, Orderly;
    var w := Initial(limit, file);
    InitialInv(limit, file);
    forall n | 0 <= n <= |events|
      ensures Inv(At(w, events, n)) && SafeUpTo(w, events, n)
    {
      OrderlyRunKeepsAll(w, events, n);
    }
  }

  // ---------- four runs that are not ----------

  /** A load between a pass's draining and its putting back installs the drained tasks again: the whole
      queue is there twice if the pass finds no task to start. */
  lemma DrainWindowDuplicates(w: World, writes: bool)
    requires Inv(w) && w.passes == 0 && w.state.pending != [] && Reloadable(w.state) == w.state.pending
    ensures var u := Next(w, Drain);
            && Inv(u) && !Inv(Reload(u))
            && multiset(Next(Reload(u), PutBack(u.held, [], writes)).state.pending)
                 == multiset(w.state.pending) + multiset(w.state.pending)
  {
    hide SortTasks, UniqueBag, Inv, Next, Reload;
    HeldBetweenPasses(w);
    DrainKeepsInv(w);
    DrainEffect(w);
    var u := Next(w, Drain);
    ReloadIsLoaded(u);
    LoadWhileHeld(u, w.state.pending[0]);
    ReloadThenPutBack(u, writes);
  }

  lemma HeldBetweenPasses(w: World)
    requires Inv(w) && w.passes == 0
    ensures w.held == []
  {
  }

  lemma DrainEffect(w: World)
    requires w.held == []
    ensures var u := Next(w, Drain);
            && u == w.(state := w.state.(pending := []), held := SortTasks(w.state.pending), passes := w.passes + 1)
            && multiset(u.held) == multiset(w.state.pending)
  {
    hide SortTasks;
    SortLaws(w.state.pending);
    assert [] + SortTasks(w.state.pending) == SortTasks(w.state.pending);
  }

  lemma LoadWhileHeld(u: World, x: Task)
    requires Inv(u) && u.state.pending == [] && x in Reloadable(u.state) && x in multiset(u.held)
    ensures !Inv(Reload(u))
  {
    hide Reloadable, Inv, Reload;
    LoadExact(u);
    var k :| 0 <= k < |Reloadable(u.state)| && Reloadable(u.state)[k] == x;
    assert x.id in IdsOf(multiset(u.held));
  }

  lemma ReloadThenPutBack(u: World, writes: bool)
    requires u.state.pending == [] && u.passes > 0
    ensures multiset(Next(Reload(u), PutBack(u.held, [], writes)).state.pending)
              == multiset(Reloadable(u.state)) + multiset(u.held)
  {
    hide Reloadable, Reload;
    ReloadIsLoaded(u);
    assert multiset(u.held) + multiset([]) == multiset(u.held);
    assert multiset(Reloadable(u.state) + u.held) == multiset(Reloadable(u.state)) + multiset(u.held);
  }

  /** A pass that starts the only task of the queue. */
  function OneTaskPass(plan: Plan, writes: bool): seq<Event> {
    [Drain, Try(0, Some(plan), Started), PutBack([], [], writes)]
  }

  lemma OneTaskPassEffect(w: World, x: Task, plan: Plan, writes: bool)
    requires Inv(w) && w.passes == 0 && w.state.pending == [x]
    requires plan.id == x.id && plan.agents != [] && CanStart(w.state, Some(plan))
    ensures var u := After(w, OneTaskPass(plan, writes));
            && Inv(u) && u.state.pending == [] && x.id in Live(u.state) && u.loading == w.loading
            && u.state.file == if writes then Some(Versioned(QUEUE_FILE_VERSION, [])) else w.state.file
  {
    hide UniqueBag, PlanEntries, LaunchAgents, Inv;
    HeldBetweenPasses(w);
    assert SortTasks([x]) == [x] by { assert [x][1..] == []; }
    DrainEffect(w);
    var e1, e2 := Try(0, Some(plan), Started), PutBack([], [], writes);
    var u1 := Next(w, Drain);
    var u2 := Next(u1, e1);
    assert u2.held == [] && u2.loading == w.loading;
    AfterThree(w, Drain, e1, e2);
    DrainKeepsInv(w);
    TryExact(u1, e1);
    TryEffect(u1, e1);
    PutBackKeepsInv(u2, e2);
    var u := Next(u2, e2);
    assert Live(u.state) == Live(u2.state);
  }

  /** A pass starts the only task and its save fails: the next load queues the task while it runs. */
  lemma FailedSaveRequeues(w: World, x: Task, plan: Plan)
    requires Inv(w) && w.passes == 0 && w.state.pending == [x] && Reloadable(w.state) == [x]
    requires plan.id == x.id && plan.agents != [] && CanStart(w.state, Some(plan))
    ensures var u := After(w, OneTaskPass(plan, false));
            Inv(u) && Reload(u).state.pending == [x] && x.id in Live(Reload(u).state) && !Inv(Reload(u))
  {
    hide After, Inv, Live, CanStart, OneTaskPass, Reload;
    var u := After(w, OneTaskPass(plan, false));
    OneTaskPassEffect(w, x, plan, false);
    ReloadIsLoaded(u);
    assert Reloadable(u.state) == [x];
    SamePermits(u.state, Reload(u).state);
    QueuedAndLive(Reload(u), x);
  }

  lemma QueuedAndLive(w: World, x: Task)
    requires w.state.pending == [x] && x.id in Live(w.state)
    ensures !Inv(w)
  {
    assert x in Bag(w) && x.id in Waiting(w);
  }

  /** Although every save succeeds: a load that has read the file before such a pass and gets the lock
      behind it queues the task while it runs. */
  lemma StaleReadRequeues(w: World, x: Task, plan: Plan)
    requires Inv(w) && w.passes == 0 && w.state.pending == [x] && Reloadable(w.state) == [x]
    requires plan.id == x.id && plan.agents != [] && CanStart(w.state, Some(plan))
    ensures var u := After(Next(w, Read), OneTaskPass(plan, true));
            var v := Next(u, Install(|w.loading|));
            && Inv(u) && Reloadable(u.state) == u.state.pending == []
            && v.state.pending == [x] && x.id in Live(v.state) && !Inv(v)
  {
    hide After, Inv, Live, CanStart, OneTaskPass, Reloadable;
    ReadKeepsInv(w);
    var u := After(Next(w, Read), OneTaskPass(plan, true));
    OneTaskPassEffect(Next(w, Read), x, plan, true);
    assert Reloadable(u.state) == [] by { SavedMirrors(u.state); }
    assert u.loading[|w.loading|] == [x];
    var v := Next(u, Install(|w.loading|));
    SamePermits(u.state, v.state);
    QueuedAndLive(v, x);
  }

  /** The dedup set does not know what a restarted program finds in its queue file: a task that is
      submitted again is launched while it is still queued. */
  lemma RestartDuplicates(limit: nat, x: Task, task: Task, plan: Plan, writes: bool)
    requires limit > 0 && task.id == x.id && plan.id == x.id && plan.agents != [] && LaunchAgents(plan, true).Some?
    ensures var w := Initial(limit, Some(Versioned(QUEUE_FILE_VERSION, [x])));
            var u := Next(Next(Reload(w), Claim(x.id)), Place(task, plan, Started, writes));
            !Inv(Reload(w)) && u.state.pending == [x] && x.id in Live(u.state)
  {
    hide Placed, LaunchAgents, Inv, Next, Live, Reload;
    var w := Initial(limit, Some(Versioned(QUEUE_FILE_VERSION, [x])));
    RestartReloads(limit, x);
    var w2, e := Next(Reload(w), Claim(x.id)), Place(task, plan, Started, writes);
    PlaceState(w2, e);
    PlacedMoves(w2.state, task, plan, Started, writes);
  }

  lemma RestartReloads(limit: nat, x: Task)
    ensures var w := Initial(limit, Some(Versioned(QUEUE_FILE_VERSION, [x])));
            var u := Next(Reload(w), Claim(x.id));
            && !Inv(Reload(w)) && u.state.pending == [x] && u.state.available == limit && x.id in u.entering
  {
    hide UniqueBag, OnePermitEach;
    var w := Initial(limit, Some(Versioned(QUEUE_FILE_VERSION, [x])));
    ReloadIsLoaded(w);
    assert Reloadable(w.state) == [x];
    assert x in Bag(Reload(w)) && x.id in Waiting(Reload(w));
  }

  lemma PlaceState(w: World, e: Event)
    requires e.Place? && Enabled(w, e)
    ensures Next(w, e).state == Placed(w.state, e.task, e.plan, e.d, e.writes)
  {
    hide Placed;
  }
}
