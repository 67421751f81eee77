/** Hot reload of the configuration file: the manager object, and the protocol that many
    threads follow when they call `reload_if_changed` at the same time. */
module ConfigReload {
  import opened Text

  /** Everything ever written to the file, oldest first: modification time, and whether the
      content is a valid configuration. `present` is whether the file exists now. */
  datatype Disk = Disk(mtimes: seq<int>, valid: seq<bool>, present: bool)

  /** The installed configuration: the defaults, or the content of one version of the file. */
  datatype Config = Default | Version(k: nat)

  predicate DiskOk(d: Disk) {
    && |d.mtimes| == |d.valid| && (d.present ==> d.mtimes != [])
    && forall i, j :: 0 <= i < j < |d.mtimes| ==> d.mtimes[i] < d.mtimes[j]
  }

  function Newest(d: Disk): int
    requires DiskOk(d) && d.mtimes != []
  {
    d.mtimes[|d.mtimes| - 1]
  }

  // ---------- the manager, one call at a time ----------

  datatype Outcome = Unchanged | Reloaded | Failed

  predicate NotNewer(m: int, last: Option<int>) {
    last.Some? && m <= last.value
  }

  class ConfigManager {
    const reloadInterval: Option<nat>
    var config: Config
    var lastModified: Option<int>
    var lastCheck: int

    /** `new`: the time is read before the content, and stays unknown if it cannot be read; an
        invalid file is an error. What comes out is a start that the protocol below allows. */
    static method Create(disk: Disk, timeRead: bool, interval: Option<nat>, now: int) returns (r: Option<ConfigManager>)
      requires DiskOk(disk)
      ensures r.None? <==> disk.present && !disk.valid[|disk.valid| - 1]
      ensures r.Some? ==> fresh(r.value) && r.value.reloadInterval == interval && r.value.lastCheck == now
      ensures r.Some? && disk.present ==> r.value.config == Version(|disk.mtimes| - 1)
      ensures r.Some? && disk.present ==> r.value.lastModified == if timeRead then Some(Newest(disk)) else None
      ensures r.Some? && !disk.present ==> r.value.config == Default && r.value.lastModified == None
      ensures r.Some? ==> Fresh(State(disk, r.value.config, r.value.lastModified, None, map[]))
    {
      if disk.present {
        if !disk.valid[|disk.valid| - 1] {
          return None;
        }
        var time := if timeRead then Some(Newest(disk)) else None;
        var c := new ConfigManager(interval, Version(|disk.mtimes| - 1), time, now);
        return Some(c);
      }
      var c := new ConfigManager(interval, Default, None, now);
      return Some(c);
    }

    constructor (interval: Option<nat>, config: Config, lastModified: Option<int>, now: int)
      ensures this.reloadInterval == interval && this.config == config && this.lastModified == lastModified && lastCheck == now
    {
      this.reloadInterval := interval;
      this.config := config;
      this.lastModified := lastModified;
      lastCheck := now;
    }

    /** `timeRead` is whether the metadata of an existing file can be read. */
    method ReloadIfChanged(disk: Disk, timeRead: bool) returns (r: Outcome)
      requires DiskOk(disk)
      modifies this`config, this`lastModified
      ensures r == Reload(disk, timeRead, old(lastModified))
      ensures r == Reloaded ==> config == Version(|disk.mtimes| - 1) && lastModified == Some(Newest(disk))
      ensures r != Reloaded ==> config == old(config) && lastModified == old(lastModified)
    {
      if !disk.present {
        return Unchanged;
      }
      if !timeRead {
        return Failed;
      }
      var modified := Newest(disk);
      if NotNewer(modified, lastModified) {
        return Unchanged;
      }
      if !disk.valid[|disk.valid| - 1] {
        return Failed;
      }
      config := Version(|disk.mtimes| - 1);
      lastModified := Some(modified);
      return Reloaded;
    }

    /** `get_config`: checks the file at most once per interval, and ignores a failed reload. */
    method GetConfig(disk: Disk, timeRead: bool, now: int) returns (c: Config)
      requires DiskOk(disk)
      modifies this
      ensures c == config
      ensures var due := reloadInterval.Some? && now - old(lastCheck) >= reloadInterval.value;
              && lastCheck == (if due then now else old(lastCheck))
              && (if due && Reload(disk, timeRead, old(lastModified)) == Reloaded
                  then config == Version(|disk.mtimes| - 1) && lastModified == Some(Newest(disk))
                  else config == old(config) && lastModified == old(lastModified))
    {
      if reloadInterval.Some? {
        var shouldReload := false;
        if now - lastCheck >= reloadInterval.value {
          lastCheck := now;
          shouldReload := true;
        }
        if shouldReload {
          var _ := ReloadIfChanged(disk, timeRead);
        }
      }
      return config;
    }
  }

  function Reload(disk: Disk, timeRead: bool, last: Option<int>): Outcome
    requires DiskOk(disk)
  {
    if !disk.present then Unchanged
    else if !timeRead then Failed
    else if NotNewer(Newest(disk), last) then Unchanged
    else if !disk.valid[|disk.valid| - 1] then Failed
    else Reloaded
  }

  // ---------- many threads ----------

  /** Where a thread is in `reload_if_changed`: `m` is the modification time it read, `k` the
      version it loaded. `Finished` carries the outcome and, if read, the time. */
  datatype Pc =
    | Idle
    | Stamped(m: int)
    | Stale(m: int)
    | Loaded(m: int, k: nat)
    | Locked(m: int, k: nat)
    | Installed(m: int, k: nat)
    | Finished(ok: bool, seen: Option<int>)

  /** `writer` is the thread that holds the write lock on the recorded time. */
  datatype State = State(
    disk: Disk,
    config: Config,
    last: Option<int>,
    writer: Option<nat>,
    threads: map<nat, Pc>)

  datatype Step =
    | Write(mtime: int, valid: bool)
    | Delete
    | Begin(t: nat)
    | StatFails(t: nat)
    | FastCheck(t: nat)
    | Load(t: nat)
    | Recheck(t: nat)
    | Install(t: nat)
    | Record(t: nat)

  function PcOf(s: State, t: nat): Pc {
    if t in s.threads then s.threads[t] else Idle
  }

  predicate Enabled(s: State, step: Step)
    requires DiskOk(s.disk)
  {
    match step
    case Write(mtime, _) => s.disk.mtimes == [] || mtime > Newest(s.disk)
    case Delete => true
    case Begin(t) => PcOf(s, t).Idle? || PcOf(s, t).Finished?
    case StatFails(t) => PcOf(s, t).Idle? || PcOf(s, t).Finished?
    case FastCheck(t) => PcOf(s, t).Stamped? && s.writer.None?
    case Load(t) => PcOf(s, t).Stale?
    case Recheck(t) => PcOf(s, t).Loaded? && s.writer.None?
    case Install(t) => PcOf(s, t).Locked?
    case Record(t) => PcOf(s, t).Installed?
  }

  function Goto(s: State, t: nat, pc: Pc): State {
    s.(threads := s.threads[t := pc])
  }

  function Apply(s: State, step: Step): State
    requires DiskOk(s.disk) && Enabled(s, step)
  {
    match step
    case Write(mtime, valid) =>
      s.(disk := Disk(s.disk.mtimes + [mtime], s.disk.valid + [valid], true))
    case Delete => s.(disk := s.disk.(present := false))
    case Begin(t) =>
      if s.disk.present then Goto(s, t, Stamped(Newest(s.disk))) else Goto(s, t, Finished(true, None))
    case StatFails(t) => Goto(s, t, Finished(false, None))
    case FastCheck(t) =>
      var m := PcOf(s, t).m;
      if NotNewer(m, s.last) then Goto(s, t, Finished(true, Some(m))) else Goto(s, t, Stale(m))
    case Load(t) =>
      var m := PcOf(s, t).m;
      if s.disk.present && s.disk.valid[|s.disk.valid| - 1] then Goto(s, t, Loaded(m, |s.disk.mtimes| - 1))
      else Goto(s, t, Finished(false, Some(m)))
    case Recheck(t) =>
      var pc := PcOf(s, t);
      if NotNewer(pc.m, s.last) then Goto(s, t, Finished(true, Some(pc.m)))
      else Goto(s, t, Locked(pc.m, pc.k)).(writer := Some(t))
    case Install(t) =>
      var pc := PcOf(s, t);
      Goto(s, t, Installed(pc.m, pc.k)).(config := Version(pc.k))
    case Record(t) =>
      var pc := PcOf(s, t);
      Goto(s, t, Finished(true, Some(pc.m))).(last := Some(pc.m), writer := None)
  }

  // ---------- the invariant ----------

  /** Version `k` is at least as new as time `m`, and both were really written. */
  predicate Covers(d: Disk, k: nat, m: int) {
    k < |d.mtimes| && m in d.mtimes && d.mtimes[k] >= m
  }

  predicate ThreadInv(s: State, t: nat) {
    match PcOf(s, t)
    case Idle => true
    case Stamped(m) => m in s.disk.mtimes
    case Stale(m) => m in s.disk.mtimes
    case Loaded(m, k) => Covers(s.disk, k, m)
    case Locked(m, k) => Covers(s.disk, k, m) && !NotNewer(m, s.last) && s.writer == Some(t)
    case Installed(m, k) => Covers(s.disk, k, m) && !NotNewer(m, s.last) && s.writer == Some(t) && s.config == Version(k)
    case Finished(ok, seen) => ok && seen.Some? ==> NotNewer(seen.value, s.last)
  }

  predicate Inv(s: State) {
    && DiskOk(s.disk)
    && (s.last.Some? ==> s.config.Version? && Covers(s.disk, s.config.k, s.last.value))
    && (forall t :: t in s.threads ==> ThreadInv(s, t))
    && (s.writer.Some? ==> PcOf(s, s.writer.value).Locked? || PcOf(s, s.writer.value).Installed?)
  }

  /** A fresh manager: no thread is inside, and a recorded time is covered by the installed version, as
      it is when the time was read before the content. */
  predicate Fresh(s: State): (yes: bool)
    ensures yes ==> Inv(s)
  {
    && DiskOk(s.disk) && s.threads == map[] && s.writer.None?
    && (s.last.Some? ==> s.config.Version? && Covers(s.disk, s.config.k, s.last.value))
  }

  predicate Holds(pc: Pc) { pc.Locked? || pc.Installed? }

  predicate Extends(d: Disk, e: Disk) {
    |d.mtimes| <= |e.mtimes| && e.mtimes[..|d.mtimes|] == d.mtimes
  }

  lemma CoversExtends(d: Disk, e: Disk, k: nat, m: int)
    requires Extends(d, e)
    ensures m in d.mtimes ==> m in e.mtimes
    ensures Covers(d, k, m) ==> Covers(e, k, m)
  {
    if m in d.mtimes {
      var i :| 0 <= i < |d.mtimes| && d.mtimes[i] == m;
      assert e.mtimes[i] == e.mtimes[..|d.mtimes|][i];
    }
    if k < |d.mtimes| { assert e.mtimes[k] == e.mtimes[..|d.mtimes|][k]; }
  }

  predicate LastGrows(s: State, u: State) {
    s.last.Some? ==> u.last.Some? && s.last.value <= u.last.value
  }

  /** A thread keeps its invariant while others act, as long as the lock protects what it relies on. */
  lemma Unaffected(s: State, u: State, x: nat)
    requires ThreadInv(s, x) && PcOf(u, x) == PcOf(s, x)
    requires Extends(s.disk, u.disk) && LastGrows(s, u)
    requires Holds(PcOf(s, x)) ==> u.last == s.last && u.writer == s.writer && u.config == s.config
    ensures ThreadInv(u, x)
  {
    hide Covers, Extends;
    match PcOf(s, x)
    case Idle =>
    case Stamped(m) => CoversExtends(s.disk, u.disk, 0, m);
    case Stale(m) => CoversExtends(s.disk, u.disk, 0, m);
    case Loaded(m, k) => CoversExtends(s.disk, u.disk, k, m);
    case Locked(m, k) => CoversExtends(s.disk, u.disk, k, m);
    case Installed(m, k) => CoversExtends(s.disk, u.disk, k, m);
    case Finished(_, _) =>
  }

  lemma DiskStep(s: State, step: Step)
    requires Inv(s) && (step.Write? || step.Delete?) && Enabled(s, step)
    ensures Inv(Apply(s, step))
  {
    hide Covers, ThreadInv;
    var u := Apply(s, step);
    assert Extends(s.disk, u.disk);
    if s.last.Some? { CoversExtends(s.disk, u.disk, s.config.k, s.last.value); }
    forall x | x in u.threads
      ensures ThreadInv(u, x)
    {
      Unaffected(s, u, x);
    }
  }

  /** Only the holder of the lock changes the shared fields; the lock is taken when it is free. */
  predicate LockStep(s: State, u: State, t: nat) {
    if s.writer == Some(t) then u.writer.None? || (u.writer == s.writer && Holds(PcOf(u, t)))
    else && u.config == s.config && u.last == s.last
         && (u.writer == s.writer || (s.writer.None? && u.writer == Some(t) && Holds(PcOf(u, t))))
  }

  /** The effect of a thread's step on itself, on the lock and on the shared fields. */
  lemma OwnStep(s: State, step: Step)
    requires Inv(s) && !step.Write? && !step.Delete? && Enabled(s, step)
    ensures var u := Apply(s, step);
            && u.disk == s.disk && u.threads == s.threads[step.t := PcOf(u, step.t)] && LastGrows(s, u)
            && ThreadInv(u, step.t)
            && (u.last.Some? ==> u.config.Version? && Covers(u.disk, u.config.k, u.last.value))
            && LockStep(s, u, step.t)
  {
    var t := step.t;
    if t in s.threads { assert ThreadInv(s, t); }
    if s.disk.mtimes != [] { assert Newest(s.disk) in s.disk.mtimes; }
    if PcOf(s, t).Stale? {
      var m := PcOf(s, t).m;
      var i :| 0 <= i < |s.disk.mtimes| && s.disk.mtimes[i] == m;
      assert Newest(s.disk) >= m;
    }
  }

  lemma StepKeepsInv(s: State, step: Step)
    requires Inv(s) && Enabled(s, step)
    ensures Inv(Apply(s, step))
    ensures LastGrows(s, Apply(s, step))
  {
    if step.Write? || step.Delete? {
      DiskStep(s, step);
    } else {
      OwnStep(s, step);
      var u := Apply(s, step);
      ThreadStep(s, u, step.t);
    }
  }

  lemma ThreadStep(s: State, u: State, t: nat)
    requires Inv(s) && u.disk == s.disk && u.threads == s.threads[t := PcOf(u, t)] && LastGrows(s, u)
    requires ThreadInv(u, t)
    requires u.last.Some? ==> u.config.Version? && Covers(u.disk, u.config.k, u.last.value)
    requires LockStep(s, u, t)
    ensures Inv(u)
  {
    hide Covers, NotNewer;
    forall x | x in u.threads && x != t
      ensures ThreadInv(u, x)
    {
      assert ThreadInv(s, x);
      Unaffected(s, u, x);
    }
  }

  predicate CanRun(s: State, steps: seq<Step>)
    requires Inv(s)
    decreases |steps|
  {
    steps == [] || (Enabled(s, steps[0]) && (StepKeepsInv(s, steps[0]); CanRun(Apply(s, steps[0]), steps[1..])))
  }

  function After(s: State, steps: seq<Step>): (u: State)
    requires Inv(s) && CanRun(s, steps)
    ensures Inv(u)
    decreases |steps|
  {
    if steps == [] then s
    else
      StepKeepsInv(s, steps[0]);
      After(Apply(s, steps[0]), steps[1..])
  }

  // ---------- main results ----------

  lemma {:induction false} TimeGrows(s: State, steps: seq<Step>)
    requires Inv(s) && CanRun(s, steps)
    ensures LastGrows(s, After(s, steps))
    decreases |steps|
  {
    if steps != [] {
      StepKeepsInv(s, steps[0]);
      TimeGrows(Apply(s, steps[0]), steps[1..]);
    }
  }

  /** From a fresh manager, at any point of any run: the recorded time never goes back from there, and
      the installed configuration is never older than it. */
  lemma NeverOlder(s: State, before: seq<Step>, steps: seq<Step>)
    requires Fresh(s) && CanRun(s, before) && CanRun(After(s, before), steps)
    ensures var u := After(After(s, before), steps);
            && LastGrows(After(s, before), u)
            && (u.last.Some? ==> u.config.Version? && u.config.k < |u.disk.mtimes| && u.disk.mtimes[u.config.k] >= u.last.value)
  {
    TimeGrows(After(s, before), steps);
  }

  predicate NoWrites(steps: seq<Step>) {
    forall i :: 0 <= i < |steps| ==> !steps[i].Write? && !steps[i].Delete?
  }

  /** The time that a thread read, if it read one in its current or last call. */
  function TimeRead(pc: Pc): Option<int> {
    match pc
    case Idle => None
    case Finished(_, seen) => seen
    case _ => Some(pc.m)
  }

  /** Once writes have stopped, the thread's call works with the newest time. */
  predicate ReadsNewest(s: State, t: nat)
    requires DiskOk(s.disk)
  {
    s.disk.present && (TimeRead(PcOf(s, t)) == Some(Newest(s.disk)) || PcOf(s, t) == Finished(false, None))
  }

  lemma QuietStep(s: State, step: Step, t: nat)
    requires Inv(s) && Enabled(s, step) && !step.Write? && !step.Delete? && ReadsNewest(s, t)
    ensures Apply(s, step).disk == s.disk && ReadsNewest(Apply(s, step), t)
  {
    hide ThreadInv, Covers;
    if step.t != t { assert PcOf(Apply(s, step), t) == PcOf(s, t); }
  }

  lemma {:induction false} QuietRun(s: State, steps: seq<Step>, t: nat)
    requires Inv(s) && CanRun(s, steps) && NoWrites(steps) && ReadsNewest(s, t)
    ensures After(s, steps).disk == s.disk && ReadsNewest(After(s, steps), t)
    decreases |steps|
  {
    if steps != [] {
      hide Inv, Apply, Enabled, ReadsNewest;
      StepKeepsInv(s, steps[0]);
      QuietStep(s, steps[0], t);
      assert forall i :: 0 <= i < |steps[1..]| ==> steps[1..][i] == steps[i + 1];
      QuietRun(Apply(s, steps[0]), steps[1..], t);
    }
  }

  lemma NewestCovered(s: State)
    requires Inv(s) && s.disk.mtimes != [] && NotNewer(Newest(s.disk), s.last)
    ensures s.config == Version(|s.disk.mtimes| - 1)
  {
    var k := s.config.k;
    assert s.disk.mtimes[k] >= s.last.value >= Newest(s.disk);
  }

  /** From a fresh manager: a call that begins after the last write and returns without an error leaves
      the final content installed, and no later step of any thread removes it. */
  lemma FinalContentStays(start: State, before: seq<Step>, t: nat, call: seq<Step>, later: seq<Step>)
    requires Fresh(start) && CanRun(start, before)
    requires var s := After(start, before);
             s.disk.present && NoWrites(call) && NoWrites(later) && CanRun(s, [Begin(t)] + call)
    requires var u := After(After(start, before), [Begin(t)] + call);
             PcOf(u, t).Finished? && PcOf(u, t).ok && CanRun(u, later)
    ensures var s := After(start, before);
            After(After(s, [Begin(t)] + call), later).config == Version(|s.disk.mtimes| - 1)
  {
    hide Covers, Fresh;
    var s := After(start, before);
    assert ([Begin(t)] + call)[1..] == call;
    var v := Apply(s, Begin(t));
    StepKeepsInv(s, Begin(t));
    var u := After(v, call);
    QuietRun(v, call, t);
    assert ThreadInv(u, t);
    QuietRun(u, later, t);
    TimeGrows(u, later);
    NewestCovered(After(u, later));
  }

  /** A call that runs alone does what the sequential method does. */
  lemma SoloCall(s: State, t: nat, timeRead: bool)
    requires Inv(s) && s.writer.None? && (PcOf(s, t).Idle? || PcOf(s, t).Finished?)
    ensures var r := Reload(s.disk, timeRead, s.last);
            var u := Alone(s, t, timeRead);
            && u.disk == s.disk && PcOf(u, t).Finished? && (PcOf(u, t).ok <==> r != Failed)
            && (if r == Reloaded then u.config == Version(|s.disk.mtimes| - 1) && u.last == Some(Newest(s.disk))
                else u.config == s.config && u.last == s.last)
  {
    hide ThreadInv, Covers;
  }

  /** So what was written last is installed by the next call that runs alone, if it is valid; an invalid file is
      reported, and a missing one is not. */
  lemma WriteThenCall(s: State, t: nat, mtime: int, valid: bool)
    requires Inv(s) && s.writer.None? && (PcOf(s, t).Idle? || PcOf(s, t).Finished?) && Enabled(s, Write(mtime, valid))
    ensures Inv(Apply(s, Write(mtime, valid))) && Inv(Apply(s, Delete))
    ensures var u := Alone(Apply(s, Write(mtime, valid)), t, true);
            && PcOf(u, t).Finished? && PcOf(u, t).ok == valid
            && (if valid then u.config == Version(|s.disk.mtimes|) && u.last == Some(mtime) else u.config == s.config && u.last == s.last)
    ensures var u := Alone(Apply(s, Delete), t, true);
            PcOf(u, t).Finished? && PcOf(u, t).ok && u.config == s.config && u.last == s.last
  {
    hide ThreadInv, Covers, Alone;
    StepKeepsInv(s, Write(mtime, valid));
    StepKeepsInv(s, Delete);
    if s.last.Some? { RecordedIsWritten(s); }
    SoloCall(Apply(s, Write(mtime, valid)), t, true);
    SoloCall(Apply(s, Delete), t, true);
  }

  lemma RecordedIsWritten(s: State)
    requires Inv(s) && s.last.Some?
    ensures s.last.value in s.disk.mtimes && s.last.value <= Newest(s.disk)
  {
  }

  /** A call ends with an error exactly when the time of the file cannot be read, or when the file is gone or
      invalid by the time it is loaded; losing against another thread is none. */
  lemma FailsExactly(s: State, step: Step)
    requires Inv(s) && Enabled(s, step) && !step.Write? && !step.Delete?
    ensures var pc := PcOf(Apply(s, step), step.t);
            pc.Finished? && !pc.ok <==>
              step.StatFails? || (step.Load? && !(s.disk.present && s.disk.valid[|s.disk.valid| - 1]))
  {
  }

  /** The steps of one call, taken without interruption until it finishes. */
  function Alone(s: State, t: nat, timeRead: bool): State
    requires Inv(s) && s.writer.None? && (PcOf(s, t).Idle? || PcOf(s, t).Finished?)
  {
    var s1 := Apply(s, if s.disk.present && !timeRead then StatFails(t) else Begin(t));
    if PcOf(s1, t).Finished? then s1
    else
      var s2 := Apply(s1, FastCheck(t));
      if PcOf(s2, t).Finished? then s2
      else
        var s3 := Apply(s2, Load(t));
        if PcOf(s3, t).Finished? then s3
        else
          var s4 := Apply(s3, Recheck(t));
          if PcOf(s4, t).Finished? then s4
          else Apply(Apply(s4, Install(t)), Record(t))
  }
}
