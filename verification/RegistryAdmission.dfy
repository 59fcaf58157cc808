/** Who holds the lock, who may touch the store, what the seal and the active count mean. */
module RegistryAdmission {
  import opened Routes
  import opened Registry
  import T = Tracker

  predicate Holds(phase: Phase) {
    !phase.NoRuntime? && !phase.Queued? && !phase.Released?
  }

  /** Past the fence with an outcome not yet known to the tracker. */
  predicate Exposed(phase: Phase) {
    || InStore(phase) || phase.Committed? || phase.Loaded? || phase.Unwound?
    || phase == Returned(Reply.Indeterminate)
  }

  predicate Unfinished(phase: Phase) {
    !phase.Finished? && !phase.Released?
  }

  /** The lock has exactly one holder, and only a task past the fence can still reach the store. */
  ghost predicate Locking(s: Reg) {
    && (forall t :: t in s.tasks && Holds(s.tasks[t].phase) ==> s.lock == Some(t))
    && (s.lock.Some? ==> s.lock.value in s.tasks && Holds(s.tasks[s.lock.value].phase))
    && (forall t :: t in s.tasks && Exposed(s.tasks[t].phase) ==> !T.Terminal(s.tracker.seal))
  }

  lemma ActPhase(s: Reg, t: nat, a: Action)
    requires t in s.tasks && CanAct(s, s.tasks[t], a)
    ensures var task := s.tasks[t];
            var phase := PhaseAfter(s, task, a);
            && Holds(phase) == (a.Acquire? || (Holds(task.phase) && !a.Release?))
            && (Exposed(phase) ==> Exposed(task.phase) || (a.Fence? && !T.Terminal(s.tracker.seal)))
  {
  }

  lemma LockingAct(s: Reg, t: nat, a: Action)
    requires Locking(s) && t in s.tasks && CanAct(s, s.tasks[t], a)
    ensures Locking(ActAfter(s, t, a))
  {
    ActPhase(s, t, a);
    hide PhaseAfter, StoreAfter, RoutesAfter, Publishes, Unheard;
  }

  lemma LockingStep(s: Reg, e: Event)
    requires Locking(s) && Enabled(s, e)
    ensures Locking(Next(s, e))
  {
    if e.Act? {
      hide ActAfter;
      LockingAct(s, e.t, e.action);
    }
  }

  function ActiveTasks(tasks: map<nat, Task>): set<nat> {
    set t | t in tasks && Unfinished(tasks[t].phase)
  }

  /** The count is the number of admitted unfinished mutations. */
  ghost predicate Counting(s: Reg) {
    s.tracker.active == |ActiveTasks(s.tasks)|
  }

  lemma ActiveUpdate(tasks: map<nat, Task>, t: nat, task: Task)
    ensures var before := ActiveTasks(tasks);
            var after := ActiveTasks(tasks[t := task]);
            && (Unfinished(task.phase) ==> |after| == |before| + if t in before then 0 else 1)
            && (!Unfinished(task.phase) ==> |after| == |before| - if t in before then 1 else 0)
  {
    var before := ActiveTasks(tasks);
    if Unfinished(task.phase) {
      assert ActiveTasks(tasks[t := task]) == before + {t};
    } else {
      assert ActiveTasks(tasks[t := task]) == before - {t};
    }
  }

  lemma CountingAct(s: Reg, t: nat, a: Action)
    requires Counting(s) && t in s.tasks && CanAct(s, s.tasks[t], a)
    ensures Counting(ActAfter(s, t, a))
    ensures a.Finish? ==> s.tracker.active > 0
  {
    var task := s.tasks[t];
    var task' := task.(phase := PhaseAfter(s, task, a));
    assert Unfinished(task.phase) <==> !a.Release?;
    assert Unfinished(task'.phase) <==> !a.Release? && !a.Finish?;
    ActiveUpdate(s.tasks, t, task');
    assert t in ActiveTasks(s.tasks) <==> Unfinished(task.phase);
    hide PhaseAfter, StoreAfter, RoutesAfter, Publishes, ActiveTasks;
  }

  /** An admission at the largest count, where the counter saturates. */
  predicate Overfull(s: Reg, e: Event) {
    e.Admit? && s.tracker.active >= T.USIZE_MAX
  }

  /** One step keeps the count exact if and only if it is not an admission at the largest count. */
  lemma CountingStep(s: Reg, e: Event)
    requires Counting(s) && Enabled(s, e)
    ensures Counting(Next(s, e)) <==> !Overfull(s, e)
  {
    match e
    case Act(t, a) =>
      hide ActAfter;
      CountingAct(s, t, a);
    case Admit(t, _, _) =>
      ActiveUpdate(s.tasks, t, Next(s, e).tasks[t]);
    case Cancel(t) =>
      ActiveUpdate(s.tasks, t, Next(s, e).tasks[t]);
    case Receive(t) =>
      ActiveUpdate(s.tasks, t, Next(s, e).tasks[t]);
    case _ =>
  }

  // ---------- Nobody is stuck ----------

  /** Inside its store call a task can read, write, fail or panic, as its operation has it. */
  lemma StoreCallGoesOn(s: Reg, task: Task, record: RouteData, wrote: bool, left: map<Key, RouteData>)
    requires InStore(task.phase)
    ensures CanAct(s, task, Fail) && CanAct(s, task, Panic(left))
    ensures CanAct(s, task, Commit(record)) <==> CanAct(s, task, Lose(wrote, record))
    ensures task.op.Put? || task.op.Add? ==>
              && (!task.phase.Fetched? ==> CanAct(s, task, Sample))
              && (task.phase.Sampled? ==> (CanAct(s, task, Commit(record)) <==> Commits(task.op, task.phase.floor, record)))
    ensures task.op.Persist? && task.phase.Running? ==> CanAct(s, task, Fetch)
    ensures task.op.Persist? && task.phase.Fetched? ==> CanAct(s, task, Commit(record))
    ensures (task.op.Update? || task.op.Delete?) && task.phase.Running? ==> CanAct(s, task, Commit(record))
  {
  }

  /** Everywhere else a task can take its one next step; it waits only for the lock and for its caller. */
  lemma TaskGoesOn(s: Reg, t: nat, left: map<Key, RouteData>)
    requires t in s.tasks && !InStore(s.tasks[t].phase)
    ensures var task := s.tasks[t];
            match task.phase
            case NoRuntime => CanAct(s, task, Finish)
            case Queued => CanAct(s, task, Acquire) <==> s.lock == None
            case Locked => CanAct(s, task, Fence)
            case Committed(_) => CanAct(s, task, Load) && CanAct(s, task, Panic(left))
            case Loaded(_, _, _) => CanAct(s, task, Swap) && CanAct(s, task, Panic(left))
            case Replying(_) => CanAct(s, task, Send)
            case AwaitingAck(_) => if task.caller.Waiting? then Enabled(s, Receive(t)) else CanAct(s, task, Settle)
            case Settled(_) => CanAct(s, task, Finish)
            case Finished(_) => CanAct(s, task, Release)
            case Released(_) => true
            case _ => CanAct(s, task, SealOutcome)
  {
  }

  /** Mutations are admitted while the seal is open, callers may leave while they wait, and drains may always be asked for. */
  lemma AlwaysPossible(s: Reg, t: nat, op: Op, runtime: bool, deadline: bool)
    ensures t !in s.tasks ==> (Enabled(s, Admit(t, op, runtime)) <==> s.tracker.seal.Open?)
    ensures t in s.tasks && s.tasks[t].caller.Waiting? ==> Enabled(s, Cancel(t))
    ensures Enabled(s, DrainSeal)
    ensures !s.tracker.seal.Open? ==> (Enabled(s, DrainPoll(deadline)) <==> deadline || s.tracker.active == 0)
  {
  }

  // ---------- Seal order ----------

  /** The seal's only moves: open to shutdown, and either of them to a terminal seal. */
  predicate SealMoves(a: T.Seal, b: T.Seal) {
    a == b || (a.Open? && b.Shutdown?) || (!T.Terminal(a) && T.Terminal(b))
  }

  lemma SealAct(s: Reg, t: nat, a: Action)
    requires Locking(s) && t in s.tasks && CanAct(s, s.tasks[t], a)
    ensures SealMoves(s.tracker.seal, TrackerAfter(s, t, s.tasks[t], a).seal)
    ensures T.Terminal(s.tracker.seal) ==> StoreAfter(s, s.tasks[t], a) == s.store
    ensures T.Terminal(s.tracker.seal) ==> !a.Sample? && !a.Fetch? && !a.Commit? && !a.Fail? && !a.Lose? && !a.Panic?
  {
    assert Exposed(s.tasks[t].phase) ==> !T.Terminal(s.tracker.seal);
  }

  lemma SealStep(s: Reg, e: Event)
    requires Locking(s) && Enabled(s, e)
    ensures SealMoves(s.tracker.seal, Next(s, e).tracker.seal)
    ensures T.Terminal(s.tracker.seal) ==> Next(s, e).store == s.store
  {
    if e.Act? {
      SealAct(s, e.t, e.action);
      hide PhaseAfter, StoreAfter, RoutesAfter, Publishes, TrackerAfter;
    }
  }

  lemma {:induction false} LockingRun(s: Reg, es: seq<Event>)
    requires Locking(s) && Legal(s, es)
    ensures Locking(After(s, es))
  {
    if es != [] {
      LockingRun(s, es[..|es| - 1]);
      LockingStep(After(s, es[..|es| - 1]), es[|es| - 1]);
    }
  }

  /**
   Over every run the seal moves forward only, a terminal seal never changes again, and from the
   moment it is set no task is in or past its store call without an answer, so the store never changes.
   */
  lemma {:induction false} SealOrder(s: Reg, es: seq<Event>)
    requires Locking(s) && Legal(s, es)
    ensures SealMoves(s.tracker.seal, After(s, es).tracker.seal)
    ensures T.Terminal(s.tracker.seal) ==>
              && After(s, es).tracker.seal == s.tracker.seal && After(s, es).store == s.store
              && forall t :: t in After(s, es).tasks ==> !Exposed(After(s, es).tasks[t].phase)
  {
    LockingRun(s, es);
    if es != [] {
      var front := es[..|es| - 1];
      SealOrder(s, front);
      LockingRun(s, front);
      SealStep(After(s, front), es[|es| - 1]);
    }
  }

  // ---------- Drain is final ----------

  ghost predicate NeverOverfull(s: Reg, es: seq<Event>)
    requires Legal(s, es)
  {
    es == [] || (NeverOverfull(s, es[..|es| - 1]) && !Overfull(After(s, es[..|es| - 1]), es[|es| - 1]))
  }

  lemma {:induction false} CountingRun(s: Reg, es: seq<Event>)
    requires Counting(s) && Legal(s, es) && NeverOverfull(s, es)
    ensures Counting(After(s, es))
  {
    if es != [] {
      CountingRun(s, es[..|es| - 1]);
      CountingStep(After(s, es[..|es| - 1]), es[|es| - 1]);
    }
  }

  predicate Drained(s: Reg) {
    !s.tracker.seal.Open? && s.tracker.active == 0
  }

  lemma NobodyActive(s: Reg, t: nat)
    requires Counting(s) && s.tracker.active == 0 && t in s.tasks
    ensures !Unfinished(s.tasks[t].phase)
  {
    assert Unfinished(s.tasks[t].phase) ==> t in ActiveTasks(s.tasks);
  }

  lemma DrainedStep(s: Reg, e: Event)
    requires Counting(s) && Drained(s) && Enabled(s, e)
    ensures Drained(Next(s, e)) && Next(s, e).store == s.store && Next(s, e).tasks.Keys == s.tasks.Keys
  {
    if e.Act? {
      NobodyActive(s, e.t);
      assert e.action.Release?;
    }
  }

  lemma {:induction false} DrainedRun(s: Reg, es: seq<Event>)
    requires Counting(s) && Drained(s) && Legal(s, es)
    ensures var s' := After(s, es); Counting(s') && Drained(s') && s'.store == s.store && s'.tasks.Keys == s.tasks.Keys
    ensures forall t :: t in After(s, es).tasks ==> !Unfinished(After(s, es).tasks[t].phase)
  {
    if es != [] {
      var front := es[..|es| - 1];
      DrainedRun(s, front);
      CountingStep(After(s, front), es[|es| - 1]);
      DrainedStep(After(s, front), es[|es| - 1]);
    }
    forall t | t in After(s, es).tasks ensures !Unfinished(After(s, es).tasks[t].phase) {
      NobodyActive(After(s, es), t);
    }
  }

  /** The step reports a finished drain that did not time out. */
  ghost predicate ReportsDrained(s: Reg, e: Event)
    requires Enabled(s, e)
  {
    var s' := Next(s, e);
    |s'.drains| > |s.drains| && !s'.drains[|s'.drains| - 1].outcome.timedOut
  }

  /** A drain reports how many mutations are unfinished; it has timed out exactly when there are any. */
  lemma DrainReportsActive(s: Reg, e: Event)
    requires Counting(s) && Enabled(s, e) && |Next(s, e).drains| > |s.drains|
    ensures var outcome := Next(s, e).drains[|s.drains|].outcome;
            && outcome.active == |ActiveTasks(s.tasks)| && (outcome.timedOut <==> outcome.active > 0)
            && (outcome.timedOut ==> e == DrainPoll(true))
  {
    hide ActiveTasks;
  }

  /** After a drain that did not time out, nothing is ever admitted and the store is never written. */
  lemma DrainIsFinal(s: Reg, e: Event, es: seq<Event>)
    requires Counting(s) && Enabled(s, e) && ReportsDrained(s, e) && Legal(Next(s, e), es)
    ensures var s' := After(Next(s, e), es);
            && s'.store == s.store && s'.tasks.Keys == s.tasks.Keys && !s'.tracker.seal.Open?
            && forall t :: t in s'.tasks ==> !Unfinished(s'.tasks[t].phase)
  {
    CountingStep(s, e);
    assert Drained(Next(s, e)) && Next(s, e).store == s.store && Next(s, e).tasks == s.tasks;
    DrainedRun(Next(s, e), es);
  }

  lemma InitiallyAdmitting(s: Reg)
    requires Initial(s)
    ensures Locking(s) && Counting(s)
  {
    assert ActiveTasks(s.tasks) == {};
  }
}
