/**
 What the in-memory store does to stored stamps: once a route is stored with a stamp no older than a
 published observation, every later step keeps it so until the route's removal is published.
 */
module StoredStamps {
  import opened Routes
  import opened RouteTable
  import opened Registry
  import opened RegistryAdmission
  import opened RegistryPublication
  import opened RegistryAgreement
  import T = Tracker

  /** The steps the in-memory store can take: it never fails, and writes exactly what it was given. */
  predicate MemoryAct(task: Task, a: Action) {
    && !a.Fail? && !a.Lose? && !a.Panic?
    && (a.Sample? ==> task.phase.Running?)
    && (a.Commit? ==>
          match task.op
          case Put(_, data) =>
            task.phase.Sampled? && a.record == data.(lastActivity := Raise(data.lastActivity, task.phase.floor))
          case Update(_, at) => a.record.lastActivity == at
          case Persist(_, _) => task.phase.Fetched? && a.record.lastActivity == task.phase.stamp
          case _ => true)
  }

  predicate MemoryStep(s: Reg, e: Event) {
    e.Act? && e.t in s.tasks ==> MemoryAct(s.tasks[e.t], e.action)
  }

  /** Neither a management stamp update nor a terminal failure is anywhere in the registry. */
  ghost predicate Plain(s: Reg) {
    && !T.Terminal(s.tracker.seal)
    && forall t :: t in s.tasks ==>
         && !s.tasks[t].op.Update? && !Unsure(s.tasks[t].phase)
         && (s.tasks[t].op.Persist? && s.tasks[t].phase.Fetched? ==> s.tasks[t].phase.stamp >= s.tasks[t].op.at)
  }

  lemma PlainStep(s: Reg, e: Event)
    requires Plain(s) && Enabled(s, e) && MemoryStep(s, e) && !(e.Admit? && e.op.Update?)
    ensures Plain(Next(s, e))
  {
    if e.Act? {
      PlainAct(s, e.t, s.tasks[e.t], e.action);
      hide PhaseAfter, StoreAfter, RoutesAfter, TrackerAfter, Publishes;
    }
  }

  lemma PlainAct(s: Reg, t: nat, task: Task, a: Action)
    requires Plain(s) && CanAct(s, task, a) && MemoryAct(task, a) && !Unsure(task.phase) && !task.op.Update?
    requires task.op.Persist? && task.phase.Fetched? ==> task.phase.stamp >= task.op.at
    ensures var phase := PhaseAfter(s, task, a);
            && !Unsure(phase) && TrackerAfter(s, t, task, a).seal == s.tracker.seal
            && (task.op.Persist? && phase.Fetched? ==> phase.stamp >= task.op.at)
  {
  }

  predicate Stored(store: map<Key, RouteData>, key: Key, at: Stamp) {
    key in store && store[key].lastActivity >= at
  }

  /** The lock holder has removed the route from the store and not yet published the removal. */
  predicate Removing(phase: Phase, key: Key) {
    Owes(phase) && phase.change == Remove(key)
  }

  /** What a task has already read for its own write of this route is no older. */
  predicate ReadKeeps(task: Task, key: Key, at: Stamp) {
    && (task.phase.Sampled? && task.op.key == key ==> task.phase.floor.Some? && task.phase.floor.value >= at)
    && (task.phase.Fetched? && task.op.key == key ==> task.phase.stamp >= at)
  }

  /** The route is stored with a stamp at least `at`, or is being removed, and nobody is about to lower it. */
  ghost predicate Safe(s: Reg, key: Key, at: Stamp) {
    && (Stored(s.store, key, at) || Removing(HolderPhase(s), key))
    && forall t :: t in s.tasks ==> ReadKeeps(s.tasks[t], key, at)
  }

  predicate Visible(s: Reg, key: Key, at: Stamp) {
    key in s.routes.byKey && s.routes.byKey[key].lastActivity >= at
  }

  /** A read the task takes now sees the published stamp. */
  lemma ReadSeesPublished(s: Reg, task: Task, a: Action, key: Key, at: Stamp)
    requires CanAct(s, task, a) && ReadKeeps(task, key, at) && Visible(s, key, at) && !s.tracker.seal.Indeterminate?
    ensures ReadKeeps(task.(phase := PhaseAfter(s, task, a)), key, at)
  {
  }

  /** A write keeps the stamp, or removes the route under the writer's own lock. */
  lemma WriteKeeps(s: Reg, task: Task, a: Action, key: Key, at: Stamp)
    requires CanAct(s, task, a) && MemoryAct(task, a) && !task.op.Update? && ReadKeeps(task, key, at)
    requires Stored(s.store, key, at)
    ensures Stored(StoreAfter(s, task, a), key, at) || Removing(PhaseAfter(s, task, a), key)
  {
  }

  /** A pending removal stays pending until it is published. */
  lemma RemovalPends(s: Reg, task: Task, a: Action, key: Key)
    requires CanAct(s, task, a) && MemoryAct(task, a) && Removing(task.phase, key) && Publishes(s, task, a) != Some(Remove(key))
    ensures Removing(PhaseAfter(s, task, a), key)
  {
  }

  /** A task that does not hold the lock neither writes the store nor ends up owing a change. */
  lemma OutsidersKeepOff(s: Reg, t: nat, task: Task, a: Action)
    requires CanAct(s, task, a) && !Holds(task.phase)
    ensures StoreAfter(s, task, a) == s.store && !Owes(PhaseAfter(s, task, a)) && !a.Release?
  {
  }

  lemma StoredAct(s: Reg, t: nat, a: Action, key: Key, at: Stamp)
    requires Locking(s) && Plain(s) && Safe(s, key, at)
    requires t in s.tasks && CanAct(s, s.tasks[t], a) && MemoryAct(s.tasks[t], a)
    requires Publishes(s, s.tasks[t], a) != Some(Remove(key))
    ensures var s' := ActAfter(s, t, a); Stored(s'.store, key, at) || Removing(HolderPhase(s'), key)
  {
    var task := s.tasks[t];
    if !Holds(task.phase) {
      OutsidersKeepOff(s, t, task, a);
    } else {
      assert s.lock == Some(t) && HolderPhase(s) == task.phase;
      if Stored(s.store, key, at) {
        WriteKeeps(s, task, a, key, at);
      } else {
        RemovalPends(s, task, a, key);
      }
      assert a.Release? ==> StoreAfter(s, task, a) == s.store && task.phase.Finished?;
      assert !a.Acquire?;
    }
    assert a.Acquire? ==> s.lock == None;
    hide PhaseAfter, StoreAfter, RoutesAfter, TrackerAfter, Publishes, Stored;
  }

  lemma SafeAct(s: Reg, t: nat, a: Action, key: Key, at: Stamp)
    requires Locking(s) && Plain(s) && Safe(s, key, at) && Visible(s, key, at)
    requires t in s.tasks && CanAct(s, s.tasks[t], a) && MemoryAct(s.tasks[t], a)
    requires Publishes(s, s.tasks[t], a) != Some(Remove(key))
    ensures Safe(ActAfter(s, t, a), key, at)
  {
    StoredAct(s, t, a, key, at);
    ReadSeesPublished(s, s.tasks[t], a, key, at);
    hide PhaseAfter, StoreAfter, RoutesAfter, TrackerAfter, Publishes, ReadKeeps, Stored, HolderPhase, Locking, Plain;
  }

  lemma SafeElse(s: Reg, e: Event, key: Key, at: Stamp)
    requires Safe(s, key, at) && Enabled(s, e) && !e.Act?
    ensures Safe(Next(s, e), key, at)
  {
    hide Stored;
    TasksElse(s, e);
    hide Next;
  }

  /** Every other step leaves the store and the tasks' phases alone, and starts nothing that has read. */
  lemma TasksElse(s: Reg, e: Event)
    requires Enabled(s, e) && !e.Act?
    ensures var s' := Next(s, e);
            && s'.store == s.store && s'.lock == s.lock
            && (forall t :: t in s.tasks ==>
                  t in s'.tasks && s'.tasks[t].phase == s.tasks[t].phase && s'.tasks[t].op == s.tasks[t].op)
            && (forall t :: t in s'.tasks && t !in s.tasks ==> !s'.tasks[t].phase.Sampled? && !s'.tasks[t].phase.Fetched?)
            && (s.lock.Some? && s.lock.value !in s.tasks ==> HolderPhase(s') in {Queued, NoRuntime})
  {
  }

  lemma SafeStep(s: Reg, e: Event, key: Key, at: Stamp)
    requires Locking(s) && Plain(s) && Safe(s, key, at) && Visible(s, key, at)
    requires Enabled(s, e) && MemoryStep(s, e)
    requires e.Act? ==> Publishes(s, s.tasks[e.t], e.action) != Some(Remove(key))
    ensures Safe(Next(s, e), key, at)
  {
    if e.Act? {
      SafeAct(s, e.t, e.action, key, at);
      hide ActAfter, Safe;
    } else {
      SafeElse(s, e, key, at);
    }
  }

  /** A persist that completes while its route is visible leaves the route stored with its stamp. */
  lemma PersistMakesSafe(s: Reg, t: nat, a: Action, key: Key, at: Stamp)
    requires Locking(s) && Plain(s) && Agreement(s) && Visible(s, key, at)
    requires t in s.tasks && CanAct(s, s.tasks[t], a) && MemoryAct(s.tasks[t], a)
    requires s.tasks[t].op.Persist? && s.tasks[t].op.key == key && s.tasks[t].op.at >= at
    requires InStore(s.tasks[t].phase) && PhaseAfter(s, s.tasks[t], a) == Returned(Done)
    ensures Safe(ActAfter(s, t, a), key, at)
  {
    var task := s.tasks[t];
    assert a.Commit? && s.lock == Some(t) && HolderPhase(s) == task.phase;
    assert Agree(s.store, s.routes.byKey);
    assert Stored(StoreAfter(s, task, a), key, at);
    forall u | u in s.tasks && u != t ensures ReadKeeps(s.tasks[u], key, at) {
      assert !Holds(s.tasks[u].phase);
    }
    hide StoreAfter, RoutesAfter, TrackerAfter, Publishes, Agree;
  }

  /**
   Why management updates are set apart: the in-memory store takes their stamp as it comes, so a stored
   bound survives one exactly when the update's own stamp reaches it, while the published stamp never falls.
   */
  lemma ManagementUpdateOverwrites(s: Reg, t: nat, record: RouteData, bound: Stamp)
    requires t in s.tasks && s.tasks[t].op.Update? && s.tasks[t].op.key in s.store
    requires CanAct(s, s.tasks[t], Commit(record)) && MemoryAct(s.tasks[t], Commit(record))
    ensures var op := s.tasks[t].op;
            && (Stored(ActAfter(s, t, Commit(record)).store, op.key, bound) <==> op.at >= bound)
            && (Visible(s, op.key, bound) ==> Visible(ActAfter(s, t, Commit(record)), op.key, bound))
  {
    hide PhaseAfter, TrackerAfter;
  }
}
