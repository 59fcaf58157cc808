/** The published snapshot is the swapped changes applied one by one, in swap order. */
module RegistryPublication {
  import opened Routes
  import opened RouteTable
  import opened Registry

  /** What snapshot number `view` published. */
  function Viewed(s: Reg, view: nat): Ordered
    requires view <= |s.swaps|
  {
    Run(s.origin, s.swaps[..view])
  }

  /** A publisher holding a snapshot holds exactly the one with that number. */
  ghost predicate TaskViews(s: Reg, task: Task) {
    && (task.phase.Loaded? ==> task.phase.view <= |s.swaps| && task.phase.routes == Viewed(s, task.phase.view))
    && (task.phase.Loaded? || task.phase.Committed? ==> !task.phase.change.Replace?)
  }

  /** An observer's standing: what it holds, or what its answer was true of. */
  ghost predicate ObserverViews(s: Reg, w: Observer) {
    match w
    case Holding(key, at, view, routes) =>
      && view <= |s.swaps| && routes == Viewed(s, view)
      && key in routes.byKey && routes.byKey[key].lastActivity < at
    case Hit(key, at, swap) =>
      && swap < |s.swaps| && s.swaps[swap] == Bump(key, at) && key in Viewed(s, swap).byKey
    case Missed(key, at, view) =>
      && view <= |s.swaps|
      && (key in Viewed(s, view).byKey ==> Viewed(s, view).byKey[key].lastActivity >= at)
    case _ => true
  }

  ghost predicate Linear(s: Reg) {
    && s.routes == Run(s.origin, s.swaps)
    && (forall i :: 0 <= i < |s.swaps| ==> !s.swaps[i].Replace?)
    && (forall t :: t in s.tasks ==> TaskViews(s, s.tasks[t]))
    && (forall o :: o in s.observers ==> ObserverViews(s, s.observers[o]))
  }

  /** The history grew by at most one change, which was applied to the published routes. */
  ghost predicate Grows(s: Reg, s': Reg) {
    && s'.origin == s.origin
    && (|| (s'.swaps == s.swaps && s'.routes == s.routes)
        || exists c :: s'.swaps == s.swaps + [c] && s'.routes == Apply(s.routes, c) && !c.Replace?)
  }

  lemma GrowsRun(s: Reg, s': Reg)
    requires Grows(s, s') && s.routes == Run(s.origin, s.swaps)
    ensures s'.routes == Run(s'.origin, s'.swaps)
    ensures |s.swaps| <= |s'.swaps| && forall v: nat | v <= |s.swaps| :: s'.swaps[..v] == s.swaps[..v]
  {
    if s'.swaps != s.swaps {
      var c :| s'.swaps == s.swaps + [c];
      assert s'.swaps[..|s.swaps|] == s.swaps;
    }
    forall v: nat | v <= |s.swaps| ensures s'.swaps[..v] == s.swaps[..v] {
    }
  }

  /** Growth disturbs nobody's standing. */
  lemma ViewsSurvive(s: Reg, s': Reg)
    requires Grows(s, s') && s.routes == Run(s.origin, s.swaps)
    ensures forall task :: TaskViews(s, task) ==> TaskViews(s', task)
    ensures forall w :: ObserverViews(s, w) ==> ObserverViews(s', w)
  {
    GrowsRun(s, s');
    hide Run;
    forall v: nat | v <= |s.swaps| ensures Viewed(s', v) == Viewed(s, v) {
      assert s'.swaps[..v] == s.swaps[..v];
    }
  }

  lemma ActGrows(s: Reg, t: nat, a: Action)
    requires Linear(s) && t in s.tasks && CanAct(s, s.tasks[t], a)
    ensures Grows(s, ActAfter(s, t, a))
    ensures TaskViews(s, s.tasks[t].(phase := PhaseAfter(s, s.tasks[t], a)))
  {
    var task := s.tasks[t];
    assert s.swaps[..|s.swaps|] == s.swaps;
    var c := Publishes(s, task, a);
    if c.Some? {
      assert s.swaps + AsSeq(c) == s.swaps + [c.value];
    } else {
      assert s.swaps + AsSeq(c) == s.swaps;
    }
  }

  lemma LookGrows(s: Reg, o: nat)
    requires Linear(s) && Enabled(s, Look(o))
    ensures Grows(s, LookAfter(s, o))
    ensures ObserverViews(LookAfter(s, o), LookAfter(s, o).observers[o])
  {
    var w := s.observers[o];
    assert s.swaps[..|s.swaps|] == s.swaps;
    if w.Holding? && w.view == |s.swaps| {
      var s' := LookAfter(s, o);
      assert s'.swaps[..|s.swaps|] == s.swaps;
    }
  }

  /** What is left to check of a step whose history grows: the one task or observer it moved. */
  lemma LinearFrom(s: Reg, s': Reg)
    requires Linear(s) && Grows(s, s')
    requires forall t :: t in s'.tasks ==> (t in s.tasks && s'.tasks[t] == s.tasks[t]) || TaskViews(s, s'.tasks[t])
    requires forall o :: o in s'.observers ==>
               (o in s.observers && s'.observers[o] == s.observers[o]) || ObserverViews(s', s'.observers[o])
    ensures Linear(s')
  {
    GrowsRun(s, s');
    ViewsSurvive(s, s');
    hide Run, Viewed, TaskViews, ObserverViews;
  }

  lemma LinearAct(s: Reg, t: nat, a: Action)
    requires Linear(s) && t in s.tasks && CanAct(s, s.tasks[t], a)
    ensures Linear(ActAfter(s, t, a))
  {
    ActGrows(s, t, a);
    hide Run, Viewed, TaskViews, ObserverViews, PhaseAfter, StoreAfter, RoutesAfter, TrackerAfter, Publishes;
    LinearFrom(s, ActAfter(s, t, a));
  }

  lemma LinearLook(s: Reg, o: nat)
    requires Linear(s) && Enabled(s, Look(o))
    ensures Linear(LookAfter(s, o))
  {
    hide Run, Viewed, TaskViews, ObserverViews;
    LookGrows(s, o);
    assert LookAfter(s, o).tasks == s.tasks && LookAfter(s, o).observers.Keys == s.observers.Keys;
    assert forall p :: p in s.observers && p != o ==> LookAfter(s, o).observers[p] == s.observers[p];
    hide LookAfter, Linear, Grows;
    LinearFrom(s, LookAfter(s, o));
  }

  lemma StepGrows(s: Reg, e: Event)
    requires Linear(s) && Enabled(s, e)
    ensures Grows(s, Next(s, e))
    ensures e.Act? && Publishes(s, s.tasks[e.t], e.action).Some? ==>
              Next(s, e).swaps == s.swaps + [Publishes(s, s.tasks[e.t], e.action).value]
  {
    match e {
      case Act(t, a) => ActGrows(s, t, a);
      case Look(o) => LookGrows(s, o);
      case _ =>
    }
    hide Run, Apply, PhaseAfter, StoreAfter, TrackerAfter;
  }

  lemma LinearStep(s: Reg, e: Event)
    requires Linear(s) && Enabled(s, e)
    ensures Linear(Next(s, e))
  {
    match e {
      case Act(t, a) =>
        hide ActAfter;
        LinearAct(s, t, a);
      case Look(o) =>
        hide LookAfter;
        LinearLook(s, o);
      case _ =>
        LinearFrom(s, Next(s, e));
    }
  }

  lemma {:induction false} LinearRun(s: Reg, es: seq<Event>)
    requires Linear(s) && Legal(s, es)
    ensures Linear(After(s, es))
  {
    if es != [] {
      LinearRun(s, es[..|es| - 1]);
      hide Enabled, Next;
      LinearStep(After(s, es[..|es| - 1]), es[|es| - 1]);
    }
  }

  // ---------- What linearity gives ----------

  predicate Unremoved(cs: seq<Change>, key: Key) {
    forall i :: 0 <= i < |cs| ==> cs[i] != Remove(key)
  }

  /** While a key is not removed it stays published and its stamp never falls. */
  lemma {:induction false} StampNeverFalls(init: Ordered, cs: seq<Change>, p: nat, key: Key)
    requires p <= |cs| && key in Run(init, cs[..p]).byKey
    requires Unremoved(cs[p..], key) && forall i :: p <= i < |cs| ==> !cs[i].Replace?
    ensures key in Run(init, cs).byKey
    ensures Run(init, cs).byKey[key].lastActivity >= Run(init, cs[..p]).byKey[key].lastActivity
  {
    if p == |cs| {
      assert cs[..p] == cs;
    } else {
      var front := cs[..|cs| - 1];
      assert front[..p] == cs[..p];
      assert cs[p..][|cs| - 1 - p] == cs[|cs| - 1];
      forall i | 0 <= i < |front[p..]| ensures front[p..][i] != Remove(key) {
        assert front[p..][i] == cs[p..][i];
      }
      StampNeverFalls(init, front, p, key);
    }
  }

  /** The routes published between two points of a run never show an older stamp for a key not removed meanwhile. */
  lemma PublishedStampMonotone(s: Reg, p: nat, key: Key)
    requires Linear(s) && p <= |s.swaps| && key in Viewed(s, p).byKey && Unremoved(s.swaps[p..], key)
    ensures key in s.routes.byKey && s.routes.byKey[key].lastActivity >= Viewed(s, p).byKey[key].lastActivity
  {
    StampNeverFalls(s.origin, s.swaps, p, key);
  }

  /** An observation that reported success stays visible for as long as its route is not removed. */
  lemma NoObservationLost(s: Reg, o: nat)
    requires Linear(s) && o in s.observers && s.observers[o].Hit?
    requires Unremoved(s.swaps[s.observers[o].swap + 1..], s.observers[o].key)
    ensures var w := s.observers[o];
            w.key in s.routes.byKey && s.routes.byKey[w.key].lastActivity >= w.at
  {
    var w := s.observers[o];
    assert ObserverViews(s, w);
    var through := s.swaps[..w.swap + 1];
    assert through[..|through| - 1] == s.swaps[..w.swap];
    assert Viewed(s, w.swap + 1) == Apply(Viewed(s, w.swap), Bump(w.key, w.at));
    PublishedStampMonotone(s, w.swap + 1, w.key);
  }

  /** An observer is refused exactly when it looks under an indeterminate seal. */
  lemma LookRefuses(s: Reg, o: nat)
    requires Enabled(s, Look(o)) && s.observers[o].Checking?
    ensures Next(s, Look(o)).observers[o] ==
            if s.tracker.seal.Indeterminate? then Refused(s.observers[o].key, s.observers[o].at)
            else Observing(s.observers[o].key, s.observers[o].at)
  {
  }

  /** An observer answers for the key and stamp it was asked about. */
  lemma {:induction false} ObserverAsked(s: Reg, es: seq<Event>, o: nat)
    requires Initial(s) && Legal(s, es) && o in After(s, es).observers
    ensures var w := After(s, es).observers[o]; Observe(o, w.key, w.at) in es
  {
    if es != [] {
      var front, e := es[..|es| - 1], es[|es| - 1];
      assert es == front + [e];
      ObserverKept(After(s, front), e, o);
      hide Next;
      if o in After(s, front).observers {
        ObserverAsked(s, front, o);
      }
    }
  }

  lemma ObserverKept(s: Reg, e: Event, o: nat)
    requires Enabled(s, e) && o in Next(s, e).observers
    ensures var w := Next(s, e).observers[o];
            if o in s.observers then w.key == s.observers[o].key && w.at == s.observers[o].at else e == Observe(o, w.key, w.at)
  {
    hide PhaseAfter, StoreAfter, RoutesAfter, TrackerAfter, Publishes, Apply;
    if e.Look? {
      LookMoves(s, e.o);
      hide LookAfter;
    }
  }

  lemma LookMoves(s: Reg, o: nat)
    requires Enabled(s, Look(o))
    ensures var w, w' := s.observers[o], LookAfter(s, o).observers[o];
            LookAfter(s, o).observers == s.observers[o := w'] && w'.key == w.key && w'.at == w.at
  {
    hide Apply;
  }

  /** The stamp a change gives this key, if it replaces or raises it. */
  function Gives(c: Change, key: Key): Option<Stamp> {
    match c
    case Replace(k, data) => if k == key then Some(data.lastActivity) else None
    case ReplacePreserving(k, data) => if k == key then Some(data.lastActivity) else None
    case Bump(k, at) => if k == key then Some(at) else None
    case Remove(_) => None
  }

  /** A published stamp is one that was loaded with the route or that some change gave it. */
  lemma {:induction false} StampWasGiven(init: Ordered, cs: seq<Change>, key: Key)
    requires key in Run(init, cs).byKey
    ensures var at := Run(init, cs).byKey[key].lastActivity;
            || (key in init.byKey && at == init.byKey[key].lastActivity)
            || exists i: nat :: i < |cs| && Gives(cs[i], key) == Some(at)
  {
    if cs != [] {
      var front, c := cs[..|cs| - 1], cs[|cs| - 1];
      if Gives(c, key) != Some(Run(init, cs).byKey[key].lastActivity) {
        StampWasGiven(init, front, key);
        if i: nat :| i < |front| && Gives(front[i], key) == Some(Run(init, front).byKey[key].lastActivity) {
          assert cs[i] == front[i];
        }
      }
    }
  }

  /** The registry's answer to a request: none once a commit may have happened without being published. */
  function ResolveRoute(s: Reg, path: string): Option<RouteMatch> {
    if s.tracker.seal.Indeterminate? then None else Resolved(Snapshot(s.routes), path)
  }

  lemma InitiallyLinear(s: Reg)
    requires Initial(s)
    ensures Linear(s)
  {
  }

  /**
   Every run, whatever publishers and observers interleave: the published routes are the swapped
   changes applied in swap order, every answer an observer gave was true of a snapshot it names, and
   requests resolve as that history of changes says, until an indeterminate seal makes the registry answer
   nothing.
   */
  lemma PublicationIsLinearizable(s: Reg, es: seq<Event>, path: string)
    requires Initial(s) && Legal(s, es)
    ensures var s' := After(s, es);
            && s'.routes == Run(s'.origin, s'.swaps)
            && (forall o :: o in s'.observers ==> ObserverViews(s', s'.observers[o]))
            && WellFormed(s'.routes)
            && if s'.tracker.seal.Indeterminate? then ResolveRoute(s', path) == None
               else IsResolution(s'.origin, s'.swaps, path, ResolveRoute(s', path))
  {
    InitiallyLinear(s);
    LinearRun(s, es);
    OriginKept(s, es);
    var s' := After(s, es);
    HistoryOrder(s'.origin, s'.swaps);
    ResolveRefinesHistory(s'.origin, s'.swaps, path);
  }

  lemma {:induction false} OriginKept(s: Reg, es: seq<Event>)
    requires Legal(s, es)
    ensures After(s, es).origin == s.origin
  {
    if es != [] {
      OriginKept(s, es[..|es| - 1]);
    }
  }
}
