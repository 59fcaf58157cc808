/**
 What a mutation's caller is told, against what its task did. The deeds of a task are read off the event list:
 its store call failed, was lost or panicked, it was refused, it wrote a record, a change was swapped in for it,
 or it found no route to persist.
 */
module RegistryReplies {
  import opened Routes
  import opened RouteTable
  import opened Registry
  import opened RegistryAdmission
  import T = Tracker

  datatype Deed =
    | Failed
    | Lost
    | Crashed
    | TurnedAway
    | Wrote(record: RouteData)
    | Swapped(change: Change)
    | Absent

  /** The step is this deed of the task. */
  ghost predicate Does(s: Reg, e: Event, t: nat, d: Deed)
    requires Enabled(s, e)
  {
    && e.Act? && e.t == t
    && match d
       case Failed => e.action.Fail?
       case Lost => e.action.Lose?
       case Crashed => e.action.Panic?
       case TurnedAway =>
         (e.action.Fence? && T.Terminal(s.tracker.seal)) || (e.action.Finish? && s.tasks[t].phase.NoRuntime?)
       case Wrote(record) => e.action == Commit(record)
       case Swapped(change) => e.action.Swap? && Next(s, e).swaps == s.swaps + [change]
       case Absent => e.action.Fetch? && Get(s, s.tasks[t].op.key) == None
  }

  ghost function Deeds(s: Reg, e: Event, t: nat): iset<Deed>
    requires Enabled(s, e)
  {
    iset d: Deed | Does(s, e, t, d)
  }

  /** Everything the task has done in the run. */
  ghost function Past(s: Reg, es: seq<Event>, t: nat): iset<Deed>
    requires Legal(s, es)
  {
    if es == [] then iset{}
    else Past(s, es[..|es| - 1], t) + Deeds(After(s, es[..|es| - 1]), es[|es| - 1], t)
  }

  /** The change that publishes what an operation wrote; a persisted stamp is published already. */
  function ChangeOf(op: Op, record: RouteData): Option<Change> {
    match op
    case Put(key, _) => Some(ReplacePreserving(key, record))
    case Add(key, _, _) => Some(ReplacePreserving(key, record))
    case Update(key, at) => Some(Bump(key, at))
    case Delete(key) => Some(Remove(key))
    case Persist(_, _) => None
  }

  ghost predicate Swaps(past: iset<Deed>) {
    exists c :: Swapped(c) in past
  }

  ghost predicate Writes(past: iset<Deed>) {
    exists r :: Wrote(r) in past
  }

  /** The task's operation took effect: its record was written and published, or there was nothing to persist. */
  ghost predicate Succeeds(past: iset<Deed>, op: Op) {
    || (op.Persist? && Absent in past)
    || exists r :: Wrote(r) in past && (ChangeOf(op, r).Some? ==> Swapped(ChangeOf(op, r).value) in past)
  }

  ghost predicate Unended(past: iset<Deed>) {
    Failed !in past && Lost !in past && Crashed !in past && TurnedAway !in past && Absent !in past && !Swaps(past)
  }

  /** What a reply stands for. */
  ghost predicate Earned(past: iset<Deed>, op: Op, reply: Reply) {
    && (Crashed in past <==> reply.Panicked?)
    && (Lost in past <==> reply.Indeterminate?)
    && (Failed in past || TurnedAway in past <==> reply.Ordinary?)
    && (reply.Done? ==> Succeeds(past, op))
    && (!reply.Done? ==> !Swaps(past) && Absent !in past)
    && (reply.Ordinary? || reply.Indeterminate? ==> !Writes(past))
  }

  ghost predicate Fits(past: iset<Deed>, op: Op, phase: Phase) {
    match phase
    case NoRuntime => Unended(past) && !Writes(past)
    case Queued => Unended(past) && !Writes(past)
    case Locked => Unended(past) && !Writes(past)
    case Running => Unended(past) && !Writes(past)
    case Sampled(_) => Unended(past) && !Writes(past)
    case Fetched(_) => Unended(past) && !Writes(past)
    case Committed(change) => Unended(past) && exists r :: Wrote(r) in past && ChangeOf(op, r) == Some(change)
    case Loaded(change, _, _) => Unended(past) && exists r :: Wrote(r) in past && ChangeOf(op, r) == Some(change)
    case Unwound => Earned(past, op, Reply.Panicked)
    case Returned(reply) => Earned(past, op, reply)
    case Replying(reply) => Earned(past, op, reply)
    case AwaitingAck(reply) => Earned(past, op, reply)
    case Settled(reply) => Earned(past, op, reply)
    case Finished(reply) => Earned(past, op, reply)
    case Released(reply) => Earned(past, op, reply)
  }

  /** The deeds of one task step, one by one. */
  lemma ActDeeds(s: Reg, t: nat, a: Action)
    requires t in s.tasks && CanAct(s, s.tasks[t], a)
    ensures var task, now := s.tasks[t], Deeds(s, Act(t, a), t);
            && (Failed in now <==> a.Fail?) && (Lost in now <==> a.Lose?) && (Crashed in now <==> a.Panic?)
            && (TurnedAway in now <==> (a.Fence? && T.Terminal(s.tracker.seal)) || (a.Finish? && task.phase.NoRuntime?))
            && (Absent in now <==> a.Fetch? && Get(s, task.op.key) == None)
            && (forall r :: Wrote(r) in now <==> a == Commit(r))
            && (forall c :: Swapped(c) in now <==> Publishes(s, task, a) == Some(c))
  {
    var task := s.tasks[t];
    var swaps' := Next(s, Act(t, a)).swaps;
    assert swaps' == s.swaps + AsSeq(Publishes(s, task, a));
    forall c ensures swaps' == s.swaps + [c] <==> Publishes(s, task, a) == Some(c) {
      assert swaps' == s.swaps + [c] ==> swaps'[|s.swaps|] == c;
    }
    hide PhaseAfter, StoreAfter, RoutesAfter, TrackerAfter;
  }

  lemma FitsAct(s: Reg, t: nat, a: Action, past: iset<Deed>)
    requires t in s.tasks && CanAct(s, s.tasks[t], a) && Fits(past, s.tasks[t].op, s.tasks[t].phase)
    ensures Fits(past + Deeds(s, Act(t, a), t), s.tasks[t].op, PhaseAfter(s, s.tasks[t], a))
  {
    ActDeeds(s, t, a);
    hide Deeds, SampledFloor;
  }

  lemma FitsStep(s: Reg, e: Event, t: nat, past: iset<Deed>)
    requires Enabled(s, e) && t in Next(s, e).tasks
    requires if t in s.tasks then Fits(past, s.tasks[t].op, s.tasks[t].phase) else past == iset{}
    ensures Fits(past + Deeds(s, e, t), Next(s, e).tasks[t].op, Next(s, e).tasks[t].phase)
  {
    if e.Act? && e.t == t {
      FitsAct(s, t, e.action, past);
    } else {
      assert past + Deeds(s, e, t) == past;
    }
    hide PhaseAfter, StoreAfter, RoutesAfter, TrackerAfter, Publishes, Fits, Deeds;
  }

  lemma {:induction false} NothingBefore(s: Reg, es: seq<Event>, t: nat)
    requires Initial(s) && Legal(s, es) && t !in After(s, es).tasks
    ensures Past(s, es, t) == iset{}
  {
    if es != [] {
      var front, e := es[..|es| - 1], es[|es| - 1];
      assert t !in After(s, front).tasks;
      NothingBefore(s, front, t);
    }
  }

  lemma {:induction false} FitsRun(s: Reg, es: seq<Event>, t: nat)
    requires Initial(s) && Legal(s, es) && t in After(s, es).tasks
    ensures Fits(Past(s, es, t), After(s, es).tasks[t].op, After(s, es).tasks[t].phase)
  {
    if es != [] {
      var front, e := es[..|es| - 1], es[|es| - 1];
      if t in After(s, front).tasks {
        FitsRun(s, front, t);
      } else {
        NothingBefore(s, front, t);
      }
      hide Fits, Enabled, Next, Deeds;
      FitsStep(After(s, front), e, t, Past(s, front, t));
    }
  }

  predicate HasReply(phase: Phase) {
    phase.Returned? || phase.Replying? || phase.AwaitingAck? || phase.Settled? || phase.Finished? || phase.Released?
  }

  /** The task did something that must not be answered with success. */
  ghost predicate Fell(past: iset<Deed>) {
    Failed in past || Lost in past || Crashed in past || TurnedAway in past
  }

  /**
   In every run a reply says what happened: success, that the record was written and its change published, or that
   there was nothing to persist; an ordinary error, that the store call failed or the mutation was refused, with
   nothing written; an indeterminate one, that the call's outcome was lost; and a panic, that the task panicked.
   */
  lemma ReplyIsEarned(s: Reg, es: seq<Event>, t: nat)
    requires Initial(s) && Legal(s, es) && t in After(s, es).tasks && HasReply(After(s, es).tasks[t].phase)
    ensures var task, past := After(s, es).tasks[t], Past(s, es, t);
            var reply := task.phase.reply;
            && (reply.Done? <==> !Fell(past))
            && (reply.Done? ==> Succeeds(past, task.op))
            && (reply.Panicked? <==> Crashed in past)
            && (reply.Indeterminate? <==> Lost in past)
            && (reply.Ordinary? <==> Failed in past || TurnedAway in past)
            && (reply.Ordinary? ==> !Writes(past) && !Swaps(past))
  {
    FitsRun(s, es, t);
    hide Legal, Past, Succeeds, Writes, Swaps;
  }

  // ---------- What the seal stands for ----------

  /** The tracker has been told the task's reply. */
  predicate Told(phase: Phase) {
    phase.Replying? || phase.AwaitingAck? || phase.Settled? || phase.Finished? || phase.Released?
  }

  predicate Has(s: Reg, t: nat, reply: Reply) {
    t in s.tasks && Told(s.tasks[t].phase) && s.tasks[t].phase.reply == reply
  }

  /** A terminal seal names a reply somebody was given, and every such reply has set it. */
  ghost predicate SealNamed(s: Reg) {
    && (forall t :: Has(s, t, Reply.Indeterminate) ==> s.tracker.seal.Indeterminate?)
    && (forall t :: Has(s, t, Reply.Panicked) ==> s.tracker.seal.BackendPanic?)
    && (s.tracker.seal.Indeterminate? ==> exists t :: Has(s, t, Reply.Indeterminate))
    && (s.tracker.seal.BackendPanic? ==> exists t :: Has(s, t, Reply.Panicked))
    && (forall o :: o in s.observers && s.observers[o].Refused? ==> s.tracker.seal.Indeterminate?)
    && (forall t :: t in s.tasks ==> s.tasks[t].phase != Returned(Reply.Panicked))
  }

  lemma TellsAct(s: Reg, t: nat, a: Action)
    requires Locking(s) && t in s.tasks && CanAct(s, s.tasks[t], a) && s.tasks[t].phase != Returned(Reply.Panicked)
    ensures var task, seal, seal' := s.tasks[t], s.tracker.seal, TrackerAfter(s, t, s.tasks[t], a).seal;
            var phase' := PhaseAfter(s, task, a);
            && phase' != Returned(Reply.Panicked)
            && (Told(task.phase) ==> Told(phase') && phase'.reply == task.phase.reply)
            && (Told(phase') && !Told(task.phase) ==>
                  && (phase'.reply.Indeterminate? ==> !T.Terminal(seal) && seal'.Indeterminate?)
                  && (phase'.reply.Panicked? ==> !T.Terminal(seal) && seal'.BackendPanic?))
            && (seal' == seal
                || (!T.Terminal(seal) && seal'.Indeterminate? && Told(phase') && phase'.reply.Indeterminate?)
                || (!T.Terminal(seal) && seal'.BackendPanic? && Told(phase') && phase'.reply.Panicked?))
  {
    assert Exposed(s.tasks[t].phase) ==> !T.Terminal(s.tracker.seal);
  }

  lemma NamedAfter(s: Reg, s': Reg, t: nat, reply: Reply)
    requires forall u :: u != t ==> (Has(s', u, reply) <==> Has(s, u, reply))
    requires Has(s, t, reply) ==> Has(s', t, reply)
    ensures (exists u :: Has(s, u, reply)) ==> exists u :: Has(s', u, reply)
  {
    if u :| Has(s, u, reply) {
      assert Has(s', u, reply);
    }
  }

  lemma SealNamedAct(s: Reg, t: nat, a: Action)
    requires SealNamed(s) && Locking(s) && t in s.tasks && CanAct(s, s.tasks[t], a)
    ensures SealNamed(ActAfter(s, t, a))
  {
    hide PhaseAfter, StoreAfter, RoutesAfter, TrackerAfter, Publishes, Told, Locking;
    TellsAct(s, t, a);
    var s' := ActAfter(s, t, a);
    assert forall u, reply :: u != t ==> (Has(s', u, reply) <==> Has(s, u, reply));
    assert forall reply :: Has(s, t, reply) ==> Has(s', t, reply);
    assert s'.observers == s.observers && s'.tasks.Keys == s.tasks.Keys;
    NamedAfter(s, s', t, Reply.Indeterminate);
    NamedAfter(s, s', t, Reply.Panicked);
    assert s'.tracker.seal.Indeterminate? && s.tracker.seal != s'.tracker.seal ==> Has(s', t, Reply.Indeterminate);
    assert s'.tracker.seal.BackendPanic? && s.tracker.seal != s'.tracker.seal ==> Has(s', t, Reply.Panicked);
    assert Has(s', t, Reply.Indeterminate) ==> Has(s, t, Reply.Indeterminate) || s'.tracker.seal.Indeterminate?;
    assert Has(s', t, Reply.Panicked) ==> Has(s, t, Reply.Panicked) || s'.tracker.seal.BackendPanic?;
    assert T.Terminal(s.tracker.seal) ==> s'.tracker.seal == s.tracker.seal;
    hide Has, ActAfter;
  }

  lemma SealNamedStep(s: Reg, e: Event)
    requires SealNamed(s) && Locking(s) && Enabled(s, e)
    ensures SealNamed(Next(s, e))
  {
    if e.Act? {
      SealNamedAct(s, e.t, e.action);
      assert Next(s, e) == ActAfter(s, e.t, e.action);
    } else {
      ElseTells(s, e);
      hide Next;
      SealNamedElse(s, Next(s, e));
    }
    hide ActAfter, SealNamed;
  }

  /** A step of no task tells the tracker nothing and answers nobody. */
  ghost predicate Tells(s: Reg, s': Reg) {
    && (T.Terminal(s'.tracker.seal) || T.Terminal(s.tracker.seal) ==> s'.tracker.seal == s.tracker.seal)
    && (forall t :: t in s.tasks ==> t in s'.tasks && s'.tasks[t].phase == s.tasks[t].phase)
    && (forall t :: t in s'.tasks && t !in s.tasks ==> s'.tasks[t].phase.Queued? || s'.tasks[t].phase.NoRuntime?)
    && (forall o :: o in s'.observers && s'.observers[o].Refused? ==>
          (o in s.observers && s.observers[o].Refused?) || s.tracker.seal.Indeterminate?)
  }

  lemma ElseTells(s: Reg, e: Event)
    requires Enabled(s, e) && !e.Act?
    ensures Tells(s, Next(s, e))
  {
  }

  lemma SealNamedElse(s: Reg, s': Reg)
    requires SealNamed(s) && Tells(s, s')
    ensures SealNamed(s')
  {
    forall t, reply ensures Has(s', t, reply) <==> Has(s, t, reply) {
    }
    hide Has;
  }

  lemma {:induction false} SealNamedRun(s: Reg, es: seq<Event>)
    requires Initial(s) && Legal(s, es)
    ensures SealNamed(After(s, es)) && Locking(After(s, es))
  {
    InitiallyAdmitting(s);
    if es != [] {
      var front := es[..|es| - 1];
      SealNamedRun(s, front);
      hide Enabled, Next, SealNamed, Locking;
      SealNamedStep(After(s, front), es[|es| - 1]);
      LockingStep(After(s, front), es[|es| - 1]);
    }
  }

  lemma ShutdownStep(s: Reg, e: Event)
    requires Locking(s) && Enabled(s, e)
    ensures e.DrainSeal? ==> !Next(s, e).tracker.seal.Open?
    ensures Next(s, e).tracker.seal.Open? ==> s.tracker.seal.Open?
    ensures Next(s, e).tracker.seal.Shutdown? ==> s.tracker.seal.Shutdown? || e.DrainSeal?
  {
    if e.Act? {
      SealAct(s, e.t, e.action);
      assert TrackerAfter(s, e.t, s.tasks[e.t], e.action).seal.Shutdown? ==> s.tracker.seal.Shutdown?;
      hide PhaseAfter, StoreAfter, RoutesAfter, TrackerAfter, Publishes;
    }
  }

  /** The seal is shut for shutdown exactly when a drain was asked for, unless it is terminal. */
  predicate ShutBy(seal: T.Seal, es: seq<Event>) {
    (seal.Open? ==> DrainSeal !in es) && (seal.Shutdown? ==> DrainSeal in es)
  }

  lemma ShutNext(seal: T.Seal, seal': T.Seal, front: seq<Event>, e: Event, es: seq<Event>)
    requires ShutBy(seal, front) && es != [] && es[..|es| - 1] == front && es[|es| - 1] == e
    requires (e.DrainSeal? ==> !seal'.Open?) && (seal'.Open? ==> seal.Open?)
    requires seal'.Shutdown? ==> seal.Shutdown? || e.DrainSeal?
    ensures ShutBy(seal', es)
  {
    assert es == front + [e];
  }

  lemma {:induction false} ShutdownTells(s: Reg, es: seq<Event>)
    requires Initial(s) && Legal(s, es)
    ensures ShutBy(After(s, es).tracker.seal, es)
  {
    if es != [] {
      hide Enabled, Next, Locking;
      var front, e := es[..|es| - 1], es[|es| - 1];
      ShutdownTells(s, front);
      InitiallyAdmitting(s);
      LockingRun(s, front);
      ShutdownStep(After(s, front), e);
      ShutNext(After(s, front).tracker.seal, After(s, es).tracker.seal, front, e, es);
    }
    hide ShutBy;
  }

  /**
   In every run the registry is sealed as indeterminate exactly when some mutation's outcome was lost and its reply
   given, and as panicked when one panicked; short of that it is sealed for shutdown exactly when a drain was asked
   for; and an observer is refused only under an indeterminate seal.
   */
  lemma SealHasItsCause(s: Reg, es: seq<Event>)
    requires Initial(s) && Legal(s, es)
    ensures var s' := After(s, es);
            && (s'.tracker.seal.Indeterminate? <==>
                  exists t :: t in s'.tasks && Told(s'.tasks[t].phase) && Lost in Past(s, es, t))
            && (s'.tracker.seal.BackendPanic? <==>
                  exists t :: t in s'.tasks && Told(s'.tasks[t].phase) && Crashed in Past(s, es, t))
            && ShutBy(s'.tracker.seal, es)
            && (forall o :: o in s'.observers && s'.observers[o].Refused? ==> s'.tracker.seal.Indeterminate?)
  {
    SealNamedRun(s, es);
    ShutdownTells(s, es);
    var s' := After(s, es);
    forall t | t in s'.tasks && Told(s'.tasks[t].phase)
      ensures Has(s', t, Reply.Indeterminate) <==> Lost in Past(s, es, t)
      ensures Has(s', t, Reply.Panicked) <==> Crashed in Past(s, es, t)
    {
      ReplyIsEarned(s, es, t);
    }
    hide Legal, Past, Locking;
  }
}
