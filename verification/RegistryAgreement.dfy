/** The published routes and the stored routes agree on everything but activity stamps. */
module RegistryAgreement {
  import opened Routes
  import opened RouteTable
  import opened Registry
  import opened RegistryAdmission
  import opened RegistryPublication
  import T = Tracker

  predicate SameRoute(a: RouteData, b: RouteData) {
    a.target == b.target && a.extra == b.extra
  }

  ghost predicate Agree(a: map<Key, RouteData>, b: map<Key, RouteData>) {
    && (forall k :: k in a <==> k in b)
    && forall k :: k in a && k in b ==> SameRoute(a[k], b[k])
  }

  lemma ApplyAgrees(a: Ordered, b: Ordered, c: Change)
    requires Agree(a.byKey, b.byKey)
    ensures Agree(Apply(a, c).byKey, Apply(b, c).byKey)
  {
  }

  /** The lock holder's phase decides what the store should hold. */
  function HolderPhase(s: Reg): Phase {
    if s.lock.Some? && s.lock.value in s.tasks then s.tasks[s.lock.value].phase else Queued
  }

  predicate Owes(phase: Phase) {
    phase.Committed? || phase.Loaded?
  }

  /** A store call ended without saying whether it wrote, and the tracker has not been told yet. */
  predicate Unsure(phase: Phase) {
    phase.Unwound? || phase == Returned(Reply.Indeterminate)
  }

  /** The published routes with the change the lock holder still owes. */
  function Expected(s: Reg): Ordered {
    if Owes(HolderPhase(s)) then Apply(s.routes, HolderPhase(s).change) else s.routes
  }

  ghost predicate Agreement(s: Reg) {
    !T.Terminal(s.tracker.seal) && !Unsure(HolderPhase(s)) ==> Agree(s.store, Expected(s).byKey)
  }

  lemma CommitAgrees(op: Op, store: map<Key, RouteData>, routes: Ordered, record: RouteData)
    requires Agree(store, routes.byKey)
    ensures var phase := AfterWrite(op, record);
            Agree(Effect(op, store, record), (if Owes(phase) then Apply(routes, phase.change) else routes).byKey)
  {
  }

  lemma AgreementCommit(s: Reg, t: nat, record: RouteData)
    requires Agreement(s) && Locking(s) && t in s.tasks && CanAct(s, s.tasks[t], Commit(record))
    ensures Agreement(ActAfter(s, t, Commit(record)))
  {
    var task := s.tasks[t];
    assert Exposed(task.phase) && s.lock == Some(t);
    CommitAgrees(task.op, s.store, s.routes, record);
    hide Agree, Effect, Apply;
  }

  lemma AgreementSwap(s: Reg, t: nat)
    requires Agreement(s) && Locking(s) && Linear(s) && t in s.tasks && CanAct(s, s.tasks[t], Swap)
    ensures Agreement(ActAfter(s, t, Swap))
  {
    var task := s.tasks[t];
    assert s.lock == Some(t);
    assert TaskViews(s, task) && s.swaps[..|s.swaps|] == s.swaps;
    hide Agree, Apply, Run;
  }

  /** Any other step keeps what is owed, and one that may have written leaves its outcome unsure until it is sealed. */
  lemma OtherAct(s: Reg, t: nat, task: Task, a: Action)
    requires CanAct(s, task, a) && !a.Commit? && !a.Swap?
    ensures var phase := PhaseAfter(s, task, a);
            && (|| Unsure(phase)
                || (&& StoreAfter(s, task, a) == s.store && (Owes(phase) <==> Owes(task.phase))
                    && (Owes(phase) ==> phase.change == task.phase.change)))
            && (Unsure(task.phase) ==> T.Terminal(TrackerAfter(s, t, task, a).seal))
            && (T.Terminal(s.tracker.seal) ==> T.Terminal(TrackerAfter(s, t, task, a).seal))
            && RoutesAfter(s, task, a) == s.routes
  {
  }

  lemma AgreementAct(s: Reg, t: nat, a: Action)
    requires Agreement(s) && Locking(s) && Linear(s) && t in s.tasks && CanAct(s, s.tasks[t], a)
    ensures Agreement(ActAfter(s, t, a))
  {
    hide Agree, Apply, Run, Effect;
    if a.Commit? {
      AgreementCommit(s, t, a.record);
    } else if a.Swap? {
      AgreementSwap(s, t);
    } else {
      OtherAct(s, t, s.tasks[t], a);
      assert a.Acquire? ==> PhaseAfter(s, s.tasks[t], a) == Locked;
      hide PhaseAfter, StoreAfter, RoutesAfter, TrackerAfter, Publishes;
      assert a.Acquire? || s.tasks[t].phase.NoRuntime? || (s.lock == Some(t) && HolderPhase(s) == s.tasks[t].phase);
    }
  }

  /** Raising a stamp, under whatever change is still owed, changes no route. */
  lemma BumpAgrees(store: map<Key, RouteData>, routes: Ordered, key: Key, at: Stamp, owed: Option<Change>)
    requires Agree(store, (if owed.Some? then Apply(routes, owed.value) else routes).byKey)
    ensures var bumped := Apply(routes, Bump(key, at));
            Agree(store, (if owed.Some? then Apply(bumped, owed.value) else bumped).byKey)
  {
    var bumped := Apply(routes, Bump(key, at));
    assert Agree(routes.byKey, bumped.byKey);
    if owed.Some? {
      ApplyAgrees(routes, bumped, owed.value);
      hide Apply;
    }
  }

  lemma AgreementLook(s: Reg, o: nat)
    requires Agreement(s) && Linear(s) && Enabled(s, Look(o))
    ensures Agreement(LookAfter(s, o))
  {
    var w := s.observers[o];
    hide Agree, Apply, Run;
    if w.Holding? && w.view == |s.swaps| {
      assert ObserverViews(s, w) && s.swaps[..|s.swaps|] == s.swaps;
      if !T.Terminal(s.tracker.seal) && !Unsure(HolderPhase(s)) {
        var owed := if Owes(HolderPhase(s)) then Some(HolderPhase(s).change) else None;
        BumpAgrees(s.store, s.routes, w.key, w.at, owed);
      }
    }
  }

  lemma AgreementStep(s: Reg, e: Event)
    requires Agreement(s) && Locking(s) && Linear(s) && Enabled(s, e)
    ensures Agreement(Next(s, e))
  {
    match e {
      case Act(t, a) =>
        hide ActAfter;
        AgreementAct(s, t, a);
      case Look(o) =>
        hide LookAfter;
        AgreementLook(s, o);
      case _ =>
        hide Agree, Apply, Run;
        var s' := Next(s, e);
        assert s'.store == s.store && s'.routes == s.routes;
        assert HolderPhase(s') == HolderPhase(s);
    }
  }

  lemma {:induction false} AgreementRun(s: Reg, es: seq<Event>)
    requires Agreement(s) && Locking(s) && Linear(s) && Legal(s, es)
    ensures Agreement(After(s, es))
  {
    if es != [] {
      var front := es[..|es| - 1];
      AgreementRun(s, front);
      LockingRun(s, front);
      LinearRun(s, front);
      hide Enabled, Next, Agreement, Locking, Linear;
      AgreementStep(After(s, front), es[|es| - 1]);
    }
  }

  /** No task is between its commit and its publication, or holds an outcome it has not reported. */
  ghost predicate Quiet(s: Reg) {
    forall t :: t in s.tasks ==> !Owes(s.tasks[t].phase) && !Unsure(s.tasks[t].phase)
  }

  /** In every run, in every quiet state short of a terminal seal, store and snapshot hold the same routes. */
  lemma StoreMatchesSnapshot(s: Reg, es: seq<Event>)
    requires Initial(s) && Legal(s, es)
    ensures var s' := After(s, es);
            Quiet(s') && !T.Terminal(s'.tracker.seal) ==> Agree(s'.store, s'.routes.byKey)
  {
    InitiallyAdmitting(s);
    InitiallyLinear(s);
    AgreementRun(s, es);
  }
}
