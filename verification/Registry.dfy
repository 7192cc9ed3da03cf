/** The daemon's registry of mounts and shared buffer managers
    (crates/omnifuse-app/src/daemon/server.rs:91-109, 170-216): starting a mount and the
    exit of a hosting task, step by step under the lifecycle lock. */
module Registry {
  import opened Common

  type Instance = string

  /** A hosting task: running, ended but not yet cleaned up, or done. */
  datatype Task = Task(mountPoint: Path, instance: Instance, manager: nat, ended: bool, done: bool)

  datatype Entry = Entry(instance: Instance, task: nat)

  datatype Starting = Checking | Sharing | Spawning(manager: nat) | Inserting(task: nat)

  datatype Cleaning = Removing | Dropping

  /** Who holds the lifecycle lock, and how far it has come. */
  datatype Holder =
    | Free
    | Starter(mountPoint: Path, instance: Instance, start: Starting)
    | Cleaner(task: nat, clean: Cleaning)

  datatype Daemon = Daemon(
    mounts: map<Path, Entry>,
    managers: map<Instance, nat>,
    created: nat,
    tasks: seq<Task>,
    holder: Holder)

  datatype Label =
    | Start(mountPoint: Path, instance: Instance)
    | Ends(task: nat)
    | Clean(task: nat)
    | CleanUnlocked(task: nat) // not in the code: the same clean-up without the lock
    | Continue

  predicate Live(d: Daemon, t: nat) {
    t < |d.tasks| && !d.tasks[t].done
  }

  predicate InUse(d: Daemon, instance: Instance) {
    exists p | p in d.mounts :: d.mounts[p].instance == instance
  }

  /** `drop_buffer_manager_if_idle`, and the end of the hosting task. */
  function Dropped(d: Daemon, t: nat): Daemon
    requires t < |d.tasks|
  {
    var task := d.tasks[t];
    d.(managers := if InUse(d, task.instance) then d.managers else d.managers - {task.instance},
       tasks := d.tasks[t := task.(done := true)])
  }

  /** A task's end changes nothing the registry looks at. */
  function Ended(d: Daemon, t: nat): Daemon
    requires t < |d.tasks|
  {
    d.(tasks := d.tasks[t := d.tasks[t].(ended := true)])
  }

  function StarterStep(d: Daemon, p: Path, instance: Instance, start: Starting): Daemon {
    match start
    case Checking =>
      d.(holder := if p in d.mounts then Free else Starter(p, instance, Sharing))
    case Sharing =>
      if instance in d.managers then d.(holder := Starter(p, instance, Spawning(d.managers[instance])))
      else d.(managers := d.managers[instance := d.created], created := d.created + 1,
              holder := Starter(p, instance, Spawning(d.created)))
    case Spawning(m) =>
      d.(tasks := d.tasks + [Task(p, instance, m, false, false)], holder := Starter(p, instance, Inserting(|d.tasks|)))
    case Inserting(t) => d.(mounts := d.mounts[p := Entry(instance, t)], holder := Free)
  }

  function CleanerStep(d: Daemon, t: nat, clean: Cleaning): Daemon
    requires t < |d.tasks|
  {
    match clean
    case Removing => d.(mounts := d.mounts - {d.tasks[t].mountPoint}, holder := Cleaner(t, Dropping))
    case Dropping => Dropped(d, t).(holder := Free)
  }

  function Take(d: Daemon, l: Label): Daemon {
    match l
    case Start(p, instance) => if d.holder.Free? then d.(holder := Starter(p, instance, Checking)) else d
    case Ends(t) => if t < |d.tasks| then Ended(d, t) else d
    case Clean(t) => if d.holder.Free? && Live(d, t) && d.tasks[t].ended then d.(holder := Cleaner(t, Removing)) else d
    case CleanUnlocked(t) =>
      if Live(d, t) && d.tasks[t].ended then Dropped(d.(mounts := d.mounts - {d.tasks[t].mountPoint}), t) else d
    case Continue =>
      match d.holder
      case Free => d
      case Starter(p, instance, start) => StarterStep(d, p, instance, start)
      case Cleaner(t, clean) => if t < |d.tasks| then CleanerStep(d, t, clean) else d
  }

  function Run(d: Daemon, run: seq<Label>): Daemon {
    if run == [] then d else Take(Run(d, run[..|run| - 1]), run[|run| - 1])
  }

  predicate Locked(run: seq<Label>) {
    forall i | 0 <= i < |run| :: !run[i].CleanUnlocked?
  }

  const EMPTY := Daemon(map[], map[], 0, [], Free)

  // ----- the invariant -----

  /** The task's entry is not in the registry yet, or no longer. */
  predicate BetweenEntries(d: Daemon, t: nat) {
    match d.holder
    case Free => false
    case Starter(_, _, start) => start == Inserting(t)
    case Cleaner(c, clean) => c == t && clean == Dropping
  }

  ghost predicate Listed(d: Daemon, t: nat)
    requires Live(d, t)
  {
    Lookup(d.mounts, d.tasks[t].mountPoint) == Some(Entry(d.tasks[t].instance, t))
  }

  ghost predicate TasksOk(d: Daemon) {
    forall t: nat | Live(d, t) ::
      && (if BetweenEntries(d, t) then d.tasks[t].mountPoint !in d.mounts else Listed(d, t))
      && Lookup(d.managers, d.tasks[t].instance) == Some(d.tasks[t].manager)
  }

  ghost predicate EntriesOk(d: Daemon) {
    forall p | p in d.mounts ::
      var t := d.mounts[p].task; Live(d, t) && d.tasks[t].mountPoint == p && d.tasks[t].instance == d.mounts[p].instance
  }

  /** The lock's holder is about to use the manager of this instance, or to drop it. */
  predicate Handled(d: Daemon, instance: Instance) {
    match d.holder
    case Free => false
    case Starter(_, i, start) => i == instance && (start.Spawning? || start.Inserting?)
    case Cleaner(t, clean) => clean == Dropping && t < |d.tasks| && d.tasks[t].instance == instance
  }

  ghost predicate ManagersOk(d: Daemon) {
    forall i | i in d.managers :: InUse(d, i) || Handled(d, i)
  }

  ghost predicate HolderOk(d: Daemon) {
    match d.holder
    case Free => true
    case Starter(p, i, start) =>
      (match start
       case Checking => true
       case Sharing => p !in d.mounts
       case Spawning(m) => p !in d.mounts && Lookup(d.managers, i) == Some(m)
       case Inserting(t) => Live(d, t) && d.tasks[t].mountPoint == p && d.tasks[t].instance == i)
    case Cleaner(t, _) => Live(d, t)
  }

  ghost predicate Inv(d: Daemon) {
    TasksOk(d) && EntriesOk(d) && ManagersOk(d) && HolderOk(d)
  }

  /** More entries leave the managers accounted for. */
  lemma ManagersStay(a: Daemon, b: Daemon)
    requires ManagersOk(a)
    requires forall p | p in a.mounts :: p in b.mounts && b.mounts[p] == a.mounts[p]
    requires forall i | i in b.managers :: i in a.managers || Handled(b, i)
    requires forall i | i in b.managers && Handled(a, i) :: Handled(b, i) || InUse(b, i)
    ensures ManagersOk(b)
  {
    forall i | i in b.managers
      ensures InUse(b, i) || Handled(b, i)
    {
      if i in a.managers && InUse(a, i) {
        var q :| q in a.mounts && a.mounts[q].instance == i;
        assert q in b.mounts;
      }
    }
  }

  lemma SharingKeeps(d: Daemon, p: Path, instance: Instance)
    requires Inv(d) && d.holder == Starter(p, instance, Sharing)
    ensures Inv(StarterStep(d, p, instance, Sharing))
  {
    ManagersStay(d, StarterStep(d, p, instance, Sharing));
    SharedTasks(d, p, instance);
    hide ManagersOk, InUse, TasksOk;
  }

  lemma SharedTasks(d: Daemon, p: Path, instance: Instance)
    requires TasksOk(d) && d.holder == Starter(p, instance, Sharing)
    ensures TasksOk(StarterStep(d, p, instance, Sharing))
  {
    var after := StarterStep(d, p, instance, Sharing);
    forall t: nat | Live(after, t)
      ensures !BetweenEntries(after, t) && Listed(after, t)
      ensures Lookup(after.managers, after.tasks[t].instance) == Some(after.tasks[t].manager)
    {
      assert Live(d, t) && !BetweenEntries(d, t);
    }
  }

  lemma SpawningKeeps(d: Daemon, p: Path, instance: Instance, m: nat)
    requires Inv(d) && d.holder == Starter(p, instance, Spawning(m))
    ensures Inv(StarterStep(d, p, instance, Spawning(m)))
  {
    var after := StarterStep(d, p, instance, Spawning(m));
    ManagersStay(d, after);
    SpawnedTasks(d, p, instance, m);
    hide ManagersOk, InUse, TasksOk;
  }

  lemma SpawnedTasks(d: Daemon, p: Path, instance: Instance, m: nat)
    requires TasksOk(d) && HolderOk(d) && d.holder == Starter(p, instance, Spawning(m))
    ensures TasksOk(StarterStep(d, p, instance, Spawning(m)))
  {
    var after := StarterStep(d, p, instance, Spawning(m));
    forall t: nat | Live(after, t)
      ensures if BetweenEntries(after, t) then after.tasks[t].mountPoint !in after.mounts else Listed(after, t)
      ensures Lookup(after.managers, after.tasks[t].instance) == Some(after.tasks[t].manager)
    {
      if t < |d.tasks| {
        assert Live(d, t) && !BetweenEntries(d, t) && after.tasks[t] == d.tasks[t];
      }
    }
  }

  lemma InsertingKeeps(d: Daemon, p: Path, instance: Instance, t: nat)
    requires Inv(d) && d.holder == Starter(p, instance, Inserting(t))
    ensures Inv(StarterStep(d, p, instance, Inserting(t)))
  {
    var after := StarterStep(d, p, instance, Inserting(t));
    assert BetweenEntries(d, t);
    assert p in after.mounts && after.mounts[p].instance == instance;
    ManagersStay(d, after);
    InsertedTasks(d, p, instance, t);
    hide ManagersOk, InUse, TasksOk;
  }

  lemma InsertedTasks(d: Daemon, p: Path, instance: Instance, t: nat)
    requires TasksOk(d) && HolderOk(d) && d.holder == Starter(p, instance, Inserting(t))
    ensures TasksOk(StarterStep(d, p, instance, Inserting(t)))
  {
    var after := StarterStep(d, p, instance, Inserting(t));
    assert BetweenEntries(d, t) && p !in d.mounts;
    forall u: nat | Live(after, u)
      ensures !BetweenEntries(after, u) && Listed(after, u)
      ensures Lookup(after.managers, after.tasks[u].instance) == Some(after.tasks[u].manager)
    {
      assert Live(d, u) && (u != t ==> !BetweenEntries(d, u) && Listed(d, u));
    }
  }

  lemma StarterKeeps(d: Daemon, p: Path, instance: Instance, start: Starting)
    requires Inv(d) && d.holder == Starter(p, instance, start)
    ensures Inv(StarterStep(d, p, instance, start))
  {
    match start
    case Checking => ManagersStay(d, StarterStep(d, p, instance, start));
    case Sharing => SharingKeeps(d, p, instance);
    case Spawning(m) => SpawningKeeps(d, p, instance, m);
    case Inserting(t) => InsertingKeeps(d, p, instance, t);
  }

  lemma RemovingKeeps(d: Daemon, t: nat)
    requires Inv(d) && d.holder == Cleaner(t, Removing)
    ensures Inv(CleanerStep(d, t, Removing))
  {
    assert Listed(d, t);
    RemovedManagers(d, t);
    RemovedTasks(d, t);
    hide ManagersOk, InUse, TasksOk;
  }

  lemma RemovedManagers(d: Daemon, t: nat)
    requires ManagersOk(d) && Live(d, t) && Listed(d, t) && d.holder == Cleaner(t, Removing)
    ensures ManagersOk(CleanerStep(d, t, Removing))
  {
    var after := CleanerStep(d, t, Removing);
    forall i | i in after.managers
      ensures InUse(after, i) || Handled(after, i)
    {
      if i != d.tasks[t].instance {
        var q :| q in d.mounts && d.mounts[q].instance == i;
        assert q in after.mounts;
      }
    }
  }

  lemma RemovedTasks(d: Daemon, t: nat)
    requires TasksOk(d) && Live(d, t) && d.holder == Cleaner(t, Removing)
    ensures TasksOk(CleanerStep(d, t, Removing))
  {
    var after := CleanerStep(d, t, Removing);
    assert Listed(d, t);
    forall u: nat | Live(after, u)
      ensures if BetweenEntries(after, u) then after.tasks[u].mountPoint !in after.mounts else Listed(after, u)
      ensures Lookup(after.managers, after.tasks[u].instance) == Some(after.tasks[u].manager)
    {
      assert Live(d, u) && Listed(d, u);
    }
  }

  lemma DroppingKeeps(d: Daemon, t: nat)
    requires Inv(d) && d.holder == Cleaner(t, Dropping)
    ensures Inv(CleanerStep(d, t, Dropping))
  {
    DroppedManagers(d, t);
    DroppedTasks(d, t);
    hide ManagersOk, InUse, TasksOk;
  }

  lemma DroppedManagers(d: Daemon, t: nat)
    requires Inv(d) && d.holder == Cleaner(t, Dropping)
    ensures ManagersOk(CleanerStep(d, t, Dropping))
  {
    var after := CleanerStep(d, t, Dropping);
    forall i | i in after.managers
      ensures InUse(after, i)
    {
      if i != d.tasks[t].instance {
        assert InUse(d, i);
      }
      var q :| q in d.mounts && d.mounts[q].instance == i;
      assert q in after.mounts;
    }
  }

  lemma DroppedTasks(d: Daemon, t: nat)
    requires Inv(d) && d.holder == Cleaner(t, Dropping)
    ensures TasksOk(CleanerStep(d, t, Dropping))
  {
    var after := CleanerStep(d, t, Dropping);
    forall u: nat | Live(after, u)
      ensures !BetweenEntries(after, u) && Listed(after, u)
      ensures Lookup(after.managers, after.tasks[u].instance) == Some(after.tasks[u].manager)
    {
      assert u != t && Live(d, u) && Listed(d, u) && after.tasks[u] == d.tasks[u];
      assert d.mounts[d.tasks[u].mountPoint].instance == d.tasks[u].instance;
    }
  }

  lemma CleanerKeeps(d: Daemon, t: nat, clean: Cleaning)
    requires Inv(d) && d.holder == Cleaner(t, clean)
    ensures Inv(CleanerStep(d, t, clean))
  {
    hide Inv, CleanerStep;
    CleanerIsLive(d, t, clean);
    match clean
    case Removing => RemovingKeeps(d, t);
    case Dropping => DroppingKeeps(d, t);
  }

  /** A free lock is taken; nothing else changes. */
  lemma TakingTheLockKeeps(d: Daemon, after: Daemon)
    requires Inv(d) && d.holder.Free? && after == d.(holder := after.holder) && HolderOk(after)
    requires after.holder.Starter? ==> after.holder.start.Checking?
    requires after.holder.Cleaner? ==> after.holder.clean.Removing?
    ensures Inv(after)
  {
    ManagersStay(d, after);
    hide ManagersOk, InUse;
    forall t: nat | Live(after, t)
      ensures !BetweenEntries(after, t) && Listed(after, t)
      ensures Lookup(after.managers, after.tasks[t].instance) == Some(after.tasks[t].manager)
    {
      assert Live(d, t) && !BetweenEntries(d, t) && Listed(d, t);
    }
  }

  lemma EndingShows(d: Daemon, t: nat, u: nat)
    requires t < |d.tasks|
    ensures Live(Ended(d, t), u) <==> Live(d, u)
    ensures Live(d, u) ==>
              && Ended(d, t).tasks[u].mountPoint == d.tasks[u].mountPoint && Ended(d, t).tasks[u].instance == d.tasks[u].instance
              && Ended(d, t).tasks[u].manager == d.tasks[u].manager && BetweenEntries(Ended(d, t), u) == BetweenEntries(d, u)
  {
  }

  lemma EndingKeepsTasks(d: Daemon, t: nat)
    requires TasksOk(d) && t < |d.tasks|
    ensures TasksOk(Ended(d, t))
  {
    var after := Ended(d, t);
    forall u: nat | Live(after, u)
      ensures if BetweenEntries(after, u) then after.tasks[u].mountPoint !in after.mounts else Listed(after, u)
      ensures Lookup(after.managers, after.tasks[u].instance) == Some(after.tasks[u].manager)
    {
      EndingShows(d, t, u);
    }
  }

  lemma EndingKeepsEntries(d: Daemon, t: nat)
    requires EntriesOk(d) && t < |d.tasks|
    ensures EntriesOk(Ended(d, t))
  {
    forall p | p in d.mounts
      ensures var u := d.mounts[p].task;
              Live(Ended(d, t), u) && Ended(d, t).tasks[u].mountPoint == p && Ended(d, t).tasks[u].instance == d.mounts[p].instance
    {
      EndingShows(d, t, d.mounts[p].task);
    }
  }

  lemma EndingKeeps(d: Daemon, t: nat)
    requires Inv(d) && t < |d.tasks|
    ensures Inv(Ended(d, t))
  {
    hide ManagersOk, TasksOk, EntriesOk, HolderOk, Ended;
    EndingKeepsManagers(d, t);
    EndingKeepsTasks(d, t);
    EndingKeepsEntries(d, t);
    EndingKeepsHolder(d, t);
  }

  lemma EndingKeepsManagers(d: Daemon, t: nat)
    requires ManagersOk(d) && t < |d.tasks|
    ensures ManagersOk(Ended(d, t))
  {
    ManagersStay(d, Ended(d, t));
  }

  lemma EndingKeepsHolder(d: Daemon, t: nat)
    requires HolderOk(d) && t < |d.tasks|
    ensures HolderOk(Ended(d, t))
  {
  }

  lemma OthersKeep(d: Daemon, l: Label)
    requires Inv(d) && (l.Start? || l.Ends? || l.Clean?)
    ensures Inv(Take(d, l))
  {
    hide TasksOk, EntriesOk, ManagersOk;
    match l
    case Start(p, instance) => if d.holder.Free? { TakingTheLockKeeps(d, Take(d, l)); }
    case Ends(t) => if t < |d.tasks| { EndingKeeps(d, t); }
    case Clean(t) =>
      if d.holder.Free? && Live(d, t) && d.tasks[t].ended {
        TakingTheLockKeeps(d, Take(d, l));
      }
  }

  lemma {:induction false} RunKeeps(run: seq<Label>)
    requires Locked(run)
    ensures Inv(Run(EMPTY, run))
  {
    if run != [] {
      var front, last := run[..|run| - 1], run[|run| - 1];
      RunKeeps(front);
      var before := Run(EMPTY, front);
      hide Inv, StarterStep, CleanerStep;
      if last.Continue? {
        match before.holder
        case Free =>
        case Starter(p, instance, start) => StarterKeeps(before, p, instance, start);
        case Cleaner(t, clean) =>
          assert t < |before.tasks| by { CleanerIsLive(before, t, clean); }
          CleanerKeeps(before, t, clean);
      } else {
        OthersKeep(before, last);
      }
    }
  }

  lemma CleanerIsLive(d: Daemon, t: nat, clean: Cleaning)
    requires Inv(d) && d.holder == Cleaner(t, clean)
    ensures t < |d.tasks|
  {
  }

  // ----- what the lock guarantees -----

  /** At every moment two live tasks of one instance share one buffer manager, and that
      manager is the one a new mount of the instance would get. */
  lemma {:induction false} LiveTasksShareTheirManager(run: seq<Label>, t: nat, u: nat)
    requires Locked(run)
    requires var d := Run(EMPTY, run); Live(d, t) && Live(d, u) && d.tasks[t].instance == d.tasks[u].instance
    ensures var d := Run(EMPTY, run);
            d.tasks[t].manager == d.tasks[u].manager
            && Lookup(d.managers, d.tasks[t].instance) == Some(d.tasks[t].manager)
  {
    RunKeeps(run);
  }

  /** At every moment a mount point has at most one live task. */
  lemma {:induction false} OneTaskPerMountPoint(run: seq<Label>, t: nat, u: nat)
    requires Locked(run)
    requires var d := Run(EMPTY, run); Live(d, t) && Live(d, u) && d.tasks[t].mountPoint == d.tasks[u].mountPoint
    ensures t == u
  {
    RunKeeps(run);
    var d := Run(EMPTY, run);
    assert BetweenEntries(d, t) || Listed(d, t);
    assert BetweenEntries(d, u) || Listed(d, u);
  }

  /** Whenever the lock is free, the registry lists exactly the live tasks, and a buffer
      manager is kept exactly for the instances in use. */
  lemma {:induction false} RegistryMatchesTasks(run: seq<Label>, p: Path, instance: Instance)
    requires Locked(run) && Run(EMPTY, run).holder.Free?
    ensures var d := Run(EMPTY, run);
            && (p in d.mounts <==> exists t: nat :: Live(d, t) && d.tasks[t].mountPoint == p)
            && (p in d.mounts ==> Live(d, d.mounts[p].task) && d.tasks[d.mounts[p].task].mountPoint == p)
            && (instance in d.managers <==> exists t: nat :: Live(d, t) && d.tasks[t].instance == instance)
  {
    RunKeeps(run);
    var d := Run(EMPTY, run);
    if instance in d.managers {
      var q :| q in d.mounts && d.mounts[q].instance == instance;
      assert Live(d, d.mounts[q].task);
    }
    forall t: nat | Live(d, t)
      ensures Listed(d, t)
    {
      assert !BetweenEntries(d, t);
    }
  }

  /** A start under the lock, all of it: a free mount point gets a new task, listed under its
      instance's manager, which is made only if the instance had none; an occupied one is
      refused and nothing changes. */
  lemma {:induction false} StartMountsExactly(run: seq<Label>, p: Path, instance: Instance)
    requires Locked(run) && Run(EMPTY, run).holder.Free?
    ensures var d := Run(EMPTY, run);
            var m := if instance in d.managers then d.managers[instance] else d.created;
            Take(Take(Take(Take(Take(d, Start(p, instance)), Continue), Continue), Continue), Continue)
            == if exists t: nat :: Live(d, t) && d.tasks[t].mountPoint == p then d
               else Daemon(d.mounts[p := Entry(instance, |d.tasks|)], d.managers[instance := m],
                           if instance in d.managers then d.created else d.created + 1,
                           d.tasks + [Task(p, instance, m, false, false)], Free)
  {
    RegistryMatchesTasks(run, p, instance);
    StartRuns(Run(EMPTY, run), p, instance);
  }

  lemma StartRuns(d: Daemon, p: Path, instance: Instance)
    requires d.holder.Free?
    ensures var m := if instance in d.managers then d.managers[instance] else d.created;
            Take(Take(Take(Take(Take(d, Start(p, instance)), Continue), Continue), Continue), Continue)
            == if p in d.mounts then d
               else Daemon(d.mounts[p := Entry(instance, |d.tasks|)], d.managers[instance := m],
                           if instance in d.managers then d.created else d.created + 1,
                           d.tasks + [Task(p, instance, m, false, false)], Free)
  {
    var checking := Take(d, Start(p, instance));
    assert checking == d.(holder := Starter(p, instance, Checking));
    var sharing := Take(checking, Continue);
    if p in d.mounts {
      assert sharing == d;
    } else {
      var spawning := Take(sharing, Continue);
      var m := if instance in d.managers then d.managers[instance] else d.created;
      assert d.managers[instance := m] == spawning.managers;
      assert spawning.holder == Starter(p, instance, Spawning(m));
    }
  }

  /** The clean-up of an ended task under the lock, all of it: its mount point is free, and
      its instance's manager goes exactly when no other live task uses it. */
  lemma {:induction false} CleanUpUnmountsExactly(run: seq<Label>, t: nat)
    requires Locked(run) && Run(EMPTY, run).holder.Free?
    requires Live(Run(EMPTY, run), t) && Run(EMPTY, run).tasks[t].ended
    ensures var d := Run(EMPTY, run);
            var task := d.tasks[t];
            Take(Take(Take(d, Clean(t)), Continue), Continue)
            == Daemon(d.mounts - {task.mountPoint},
                      if exists u: nat :: u != t && Live(d, u) && d.tasks[u].instance == task.instance
                      then d.managers else d.managers - {task.instance},
                      d.created, d.tasks[t := task.(done := true)], Free)
  {
    RunKeeps(run);
    var d := Run(EMPTY, run);
    CleanUpRuns(d, t);
    OthersInUse(d, t);
    hide Take, Run, Inv;
  }

  lemma CleanUpRuns(d: Daemon, t: nat)
    requires d.holder.Free? && Live(d, t) && d.tasks[t].ended
    ensures var task, removed := d.tasks[t], d.(mounts := d.mounts - {d.tasks[t].mountPoint});
            Take(Take(Take(d, Clean(t)), Continue), Continue)
            == Daemon(removed.mounts,
                      if InUse(removed, task.instance) then d.managers else d.managers - {task.instance},
                      d.created, d.tasks[t := task.(done := true)], Free)
  {
    var removing := Take(d, Clean(t));
    assert removing == d.(holder := Cleaner(t, Removing));
    var dropping := Take(removing, Continue);
    assert dropping == d.(mounts := d.mounts - {d.tasks[t].mountPoint}, holder := Cleaner(t, Dropping));
    var removed := d.(mounts := dropping.mounts);
    assert InUse(dropping, d.tasks[t].instance) == InUse(removed, d.tasks[t].instance);
    hide InUse;
  }

  lemma OthersInUse(d: Daemon, t: nat)
    requires Inv(d) && d.holder.Free? && Live(d, t)
    ensures InUse(d.(mounts := d.mounts - {d.tasks[t].mountPoint}), d.tasks[t].instance)
            <==> exists u: nat :: u != t && Live(d, u) && d.tasks[u].instance == d.tasks[t].instance
  {
    var removed := d.(mounts := d.mounts - {d.tasks[t].mountPoint});
    assert Listed(d, t);
    if InUse(removed, d.tasks[t].instance) {
      var p :| p in removed.mounts && removed.mounts[p].instance == d.tasks[t].instance;
      var u := d.mounts[p].task;
      assert p in d.mounts && Live(d, u) && d.tasks[u].mountPoint == p;
    }
    if u: nat :| u != t && Live(d, u) && d.tasks[u].instance == d.tasks[t].instance {
      assert Listed(d, u);
      assert d.tasks[u].mountPoint in removed.mounts;
    }
  }

  /** The labels of a start whose task ends, and cleans up without the lock, before the
      entry is inserted. */
  function EarlyEnd(p: Path, instance: Instance, t: nat): seq<Label> {
    [Start(p, instance), Continue, Continue, Continue, Ends(t), CleanUnlocked(t), Continue]
  }

  /** The mount point is registered to a task that is done, and nobody is about to change that. */
  ghost predicate Stranded(d: Daemon, p: Path, instance: Instance, t: nat) {
    && Lookup(d.mounts, p) == Some(Entry(instance, t)) && t < |d.tasks|
    && (forall u: nat | Live(d, u) :: d.tasks[u].mountPoint != p)
    && (match d.holder
        case Free => true
        case Starter(q, _, start) => q == p ==> start.Checking?
        case Cleaner(c, _) => c < |d.tasks| && d.tasks[c].mountPoint != p)
  }

  lemma StaysStranded(d: Daemon, l: Label, p: Path, instance: Instance, t: nat)
    requires Stranded(d, p, instance, t)
    ensures Stranded(Take(d, l), p, instance, t)
  {
    hide InUse;
  }

  lemma {:induction false} RunStaysStranded(d: Daemon, run: seq<Label>, p: Path, instance: Instance, t: nat)
    requires Stranded(d, p, instance, t)
    ensures Stranded(Run(d, run), p, instance, t)
  {
    if run != [] {
      hide Take, Stranded;
      RunStaysStranded(d, run[..|run| - 1], p, instance, t);
      StaysStranded(Run(d, run[..|run| - 1]), run[|run| - 1], p, instance, t);
    }
  }

  /** Without the lock a task that ends before its entry is inserted strands the mount point
      for good: from every reachable state, and whatever happens afterwards, the entry stays
      and belongs to a task that is done. */
  lemma {:induction false} WithoutLockAnEntryIsStranded(run: seq<Label>, p: Path, instance: Instance, later: seq<Label>)
    requires Locked(run)
    requires var d := Run(EMPTY, run); d.holder.Free? && p !in d.mounts
    ensures var d := Run(EMPTY, run);
            var t := |d.tasks|;
            var after := Run(Run(d, EarlyEnd(p, instance, t)), later);
            Lookup(after.mounts, p) == Some(Entry(instance, t)) && !Live(after, t)
            && forall u: nat | Live(after, u) :: after.tasks[u].mountPoint != p
  {
    var d := Run(EMPTY, run);
    var t := |d.tasks|;
    RunKeeps(run);
    NoneLiveThere(d, p);
    EarlyEndStrands(d, p, instance);
    hide Run, Take;
    RunStaysStranded(Run(d, EarlyEnd(p, instance, t)), later, p, instance, t);
    RunDoneStays(Run(d, EarlyEnd(p, instance, t)), later, t);
  }

  lemma NoneLiveThere(d: Daemon, p: Path)
    requires Inv(d) && d.holder.Free? && p !in d.mounts
    ensures forall u: nat | Live(d, u) :: d.tasks[u].mountPoint != p
  {
    forall u: nat | Live(d, u)
      ensures d.tasks[u].mountPoint != p
    {
      assert Listed(d, u);
    }
  }

  lemma DoneStays(d: Daemon, l: Label, t: nat)
    requires t < |d.tasks| && d.tasks[t].done
    ensures var after := Take(d, l); t < |after.tasks| && after.tasks[t].done
  {
    hide InUse;
  }

  lemma {:induction false} RunDoneStays(d: Daemon, run: seq<Label>, t: nat)
    requires t < |d.tasks| && d.tasks[t].done
    ensures var after := Run(d, run); t < |after.tasks| && after.tasks[t].done
  {
    if run != [] {
      hide Take;
      RunDoneStays(d, run[..|run| - 1], t);
      DoneStays(Run(d, run[..|run| - 1]), run[|run| - 1], t);
    }
  }

  /** The run, step by step. */
  lemma EarlyEndRuns(d: Daemon, p: Path, instance: Instance)
    ensures var t := |d.tasks|;
            Run(d, EarlyEnd(p, instance, t))
            == Take(Take(Take(Take(Take(Take(Take(d, Start(p, instance)), Continue), Continue), Continue),
                                   Ends(t)), CleanUnlocked(t)), Continue)
  {
    var t := |d.tasks|;
    var run := EarlyEnd(p, instance, t);
    hide Run, Take;
    RunNothing(d);
    assert run[..0] == [] && run[..7] == run;
    RunPrefix(d, run, 0);
    RunPrefix(d, run, 1);
    RunPrefix(d, run, 2);
    RunPrefix(d, run, 3);
    RunPrefix(d, run, 4);
    RunPrefix(d, run, 5);
    RunPrefix(d, run, 6);
  }

  lemma EarlyEndStrands(d: Daemon, p: Path, instance: Instance)
    requires d.holder.Free? && p !in d.mounts && forall u: nat | Live(d, u) :: d.tasks[u].mountPoint != p
    ensures var after := Run(d, EarlyEnd(p, instance, |d.tasks|));
            Stranded(after, p, instance, |d.tasks|) && after.tasks[|d.tasks|].done
  {
    EarlyEndRuns(d, p, instance);
    hide Run, Take;
    StartReachesInsert(d, p, instance);
    LateInsert(Take(Take(Take(Take(d, Start(p, instance)), Continue), Continue), Continue), p, instance, |d.tasks|);
  }

  lemma StartReachesInsert(d: Daemon, p: Path, instance: Instance)
    requires d.holder.Free? && p !in d.mounts && forall u: nat | Live(d, u) :: d.tasks[u].mountPoint != p
    ensures var t, after := |d.tasks|, Take(Take(Take(Take(d, Start(p, instance)), Continue), Continue), Continue);
            after.holder == Starter(p, instance, Inserting(t)) && Live(after, t) && after.tasks[t].instance == instance
            && forall u: nat | Live(after, u) && u != t :: after.tasks[u].mountPoint != p
  {
    assert Take(d, Start(p, instance)) == d.(holder := Starter(p, instance, Checking));
    var sharing := d.(holder := Starter(p, instance, Sharing));
    assert Take(Take(d, Start(p, instance)), Continue) == sharing;
    var spawning := Take(sharing, Continue);
    assert spawning.holder.Starter? && spawning.holder.start.Spawning? && spawning.tasks == d.tasks;
    var inserting := Take(spawning, Continue);
    assert inserting.tasks[..|d.tasks|] == d.tasks;
    assert forall u: nat | Live(inserting, u) && u != |d.tasks| :: Live(d, u) && inserting.tasks[u] == d.tasks[u];
  }

  lemma LateInsert(d: Daemon, p: Path, instance: Instance, t: nat)
    requires d.holder == Starter(p, instance, Inserting(t)) && Live(d, t)
    requires forall u: nat | Live(d, u) && u != t :: d.tasks[u].mountPoint != p
    ensures var after := Take(Take(Take(d, Ends(t)), CleanUnlocked(t)), Continue);
            Stranded(after, p, instance, t) && after.tasks[t].done
  {
    var ended := Take(d, Ends(t));
    assert Live(ended, t) && ended.tasks[t].ended && ended.holder == d.holder;
    var cleaned := Take(ended, CleanUnlocked(t));
    assert cleaned.holder == d.holder && |cleaned.tasks| == |d.tasks| && cleaned.tasks[t].done;
    assert forall u: nat | Live(cleaned, u) :: u != t && Live(d, u) && cleaned.tasks[u].mountPoint == d.tasks[u].mountPoint;
    hide InUse;
  }

  lemma RunNothing(d: Daemon)
    ensures Run(d, []) == d
  {
  }

  lemma RunPrefix(d: Daemon, run: seq<Label>, i: nat)
    requires i < |run|
    ensures Run(d, run[..i + 1]) == Take(Run(d, run[..i]), run[i])
  {
    hide Take;
    assert run[..i + 1][..i] == run[..i];
  }
}
