/** Every failed mutation is heard by its caller or recorded once, and nothing recorded goes missing. */
module RegistryDiagnostics {
  import opened Routes
  import opened Registry
  import opened RegistryReplies
  import T = Tracker

  // ---------- Each mutation's fate ----------

  function EntriesOf(ds: seq<T.Diagnostic>, t: nat): seq<T.Diagnostic> {
    if ds == [] then []
    else EntriesOf(ds[..|ds| - 1], t) + (if ds[|ds| - 1].task == t then [ds[|ds| - 1]] else [])
  }

  predicate Over(phase: Phase) {
    phase.Finished? || phase.Released?
  }

  /** What the record should hold about a task: nothing, or its one unheard failure or panic. */
  function Fate(t: nat, task: Task): seq<T.Diagnostic> {
    if Over(task.phase) && task.caller.Cancelled? && !task.phase.reply.Done?
    then [T.Diagnostic(if task.phase.reply.Panicked? then T.Panic else T.Failure, OperationOf(task.op), t)]
    else []
  }

  /** A caller is gone or answered before its task settles. */
  predicate CallerDecided(task: Task) {
    && (Over(task.phase) || task.phase.Settled? ==> !task.caller.Waiting?)
    && (task.phase.NoRuntime? ==> task.caller.Acked?)
  }

  ghost predicate Fated(recorded: seq<T.Diagnostic>, tasks: map<nat, Task>) {
    && (forall t :: t in tasks ==> EntriesOf(recorded, t) == Fate(t, tasks[t]) && CallerDecided(tasks[t]))
    && (forall t :: t !in tasks ==> EntriesOf(recorded, t) == [])
  }

  lemma EntriesAppend(ds: seq<T.Diagnostic>, more: Option<T.Diagnostic>, t: nat)
    ensures EntriesOf(ds + AsSeq(more), t) ==
            EntriesOf(ds, t) + if more.Some? && more.value.task == t then [more.value] else []
  {
    if more.Some? {
      assert (ds + [more.value])[..|ds|] == ds;
    } else {
      assert ds + [] == ds;
    }
  }

  /** One task moves, and the record grows by what its new fate adds. */
  lemma FatedMove(recorded: seq<T.Diagnostic>, tasks: map<nat, Task>, t: nat, task: Task, more: Option<T.Diagnostic>)
    requires Fated(recorded, tasks) && CallerDecided(task)
    requires Fate(t, task) == (if t in tasks then Fate(t, tasks[t]) else []) + AsSeq(more)
    requires more.Some? ==> more.value.task == t
    ensures Fated(recorded + AsSeq(more), tasks[t := task])
  {
    forall u ensures EntriesOf(recorded + AsSeq(more), u) == EntriesOf(recorded, u) + if u == t then AsSeq(more) else [] {
      EntriesAppend(recorded, more, u);
    }
    hide EntriesOf, Fate;
  }

  lemma FateAct(s: Reg, t: nat, task: Task, a: Action)
    requires CanAct(s, task, a) && CallerDecided(task)
    ensures var task' := task.(phase := PhaseAfter(s, task, a));
            && Fate(t, task') == Fate(t, task) + AsSeq(if a.Finish? then Unheard(t, task) else None)
            && CallerDecided(task')
  {
  }

  lemma FatedAct(s: Reg, t: nat, a: Action)
    requires Fated(s.recorded, s.tasks) && t in s.tasks && CanAct(s, s.tasks[t], a)
    ensures Fated(ActAfter(s, t, a).recorded, ActAfter(s, t, a).tasks)
  {
    var task := s.tasks[t];
    var more := if a.Finish? then Unheard(t, task) else None;
    FateAct(s, t, task, a);
    FatedMove(s.recorded, s.tasks, t, task.(phase := PhaseAfter(s, task, a)), more);
    assert s.recorded + AsSeq(more) == s.recorded + if a.Finish? then AsSeq(Unheard(t, task)) else [];
    hide Fated, PhaseAfter, StoreAfter, RoutesAfter, TrackerAfter, Publishes, Unheard;
  }

  lemma LookKeepsRecord(s: Reg, o: nat)
    requires Enabled(s, Look(o))
    ensures LookAfter(s, o).recorded == s.recorded && LookAfter(s, o).tasks == s.tasks
    ensures LookAfter(s, o).drains == s.drains && LookAfter(s, o).tracker == s.tracker
  {
  }

  lemma FatedStep(s: Reg, e: Event)
    requires Fated(s.recorded, s.tasks) && Enabled(s, e)
    ensures Fated(Next(s, e).recorded, Next(s, e).tasks)
  {
    match e {
      case Act(t, a) =>
        FatedAct(s, t, a);
        hide ActAfter, Fated;
      case Look(o) =>
        LookKeepsRecord(s, o);
        hide LookAfter, Fated;
      case Admit(t, _, _) => FatedIdle(s, t, Next(s, e).tasks[t]);
      case Cancel(t) => FatedIdle(s, t, Next(s, e).tasks[t]);
      case Receive(t) => FatedIdle(s, t, Next(s, e).tasks[t]);
      case _ =>
    }
  }

  lemma FatedIdle(s: Reg, t: nat, task: Task)
    requires Fated(s.recorded, s.tasks) && CallerDecided(task) && !Over(task.phase)
    requires t in s.tasks ==> task.phase == s.tasks[t].phase
    ensures Fated(s.recorded, s.tasks[t := task])
  {
    FatedMove(s.recorded, s.tasks, t, task, None);
    assert s.recorded + [] == s.recorded;
  }

  // ---------- The record, the ring and the drains ----------

  /** Where the batch of drain number `i` starts; `|drains|` stands for what no drain has taken yet. */
  function From(drains: seq<Drain>, i: nat): nat
    requires i <= |drains|
  {
    if i == 0 then 0 else drains[i - 1].upTo
  }

  ghost predicate Returns(outcome: T.Outcome, batch: seq<T.Diagnostic>) {
    && outcome.failures == T.OfKind(T.Newest(batch), T.Failure)
    && outcome.panics == T.OfKind(T.Newest(batch), T.Panic)
    && outcome.droppedFailures == T.Cap(|T.OfKind(T.Older(batch), T.Failure)|)
    && outcome.droppedPanics == T.Cap(|T.OfKind(T.Older(batch), T.Panic)|)
  }

  /** Drain number `i` returned its own stretch of the record. */
  ghost predicate Batch(recorded: seq<T.Diagnostic>, drains: seq<Drain>, i: nat)
    requires i < |drains|
  {
    && From(drains, i) <= drains[i].upTo <= |recorded|
    && Returns(drains[i].outcome, recorded[From(drains, i)..drains[i].upTo])
  }

  /** Every drain returned its stretch, and the ring stands for the stretch after the last. */
  ghost predicate Books(tracker: T.State, recorded: seq<T.Diagnostic>, drains: seq<Drain>) {
    && (forall i :: 0 <= i < |drains| ==> Batch(recorded, drains, i))
    && From(drains, |drains|) <= |recorded|
    && T.Retains(tracker, recorded[From(drains, |drains|)..])
  }

  lemma BatchGrows(recorded: seq<T.Diagnostic>, drains: seq<Drain>, i: nat, more: seq<T.Diagnostic>)
    requires i < |drains| && Batch(recorded, drains, i)
    ensures Batch(recorded + more, drains, i)
  {
    assert (recorded + more)[From(drains, i)..drains[i].upTo] == recorded[From(drains, i)..drains[i].upTo];
  }

  lemma BooksRecord(tracker: T.State, recorded: seq<T.Diagnostic>, drains: seq<Drain>, d: T.Diagnostic)
    requires Books(tracker, recorded, drains)
    ensures Books(T.Pushed(tracker, d), recorded + [d], drains)
  {
    var from := From(drains, |drains|);
    T.PushRetains(tracker, recorded[from..], d);
    assert (recorded + [d])[from..] == recorded[from..] + [d];
    forall i | 0 <= i < |drains| ensures Batch(recorded + [d], drains, i) {
      BatchGrows(recorded, drains, i, [d]);
    }
    hide T.Retains, Batch, T.Pushed;
  }

  lemma ReportReturns(tracker: T.State, batch: seq<T.Diagnostic>, timedOut: bool)
    requires T.Retains(tracker, batch)
    ensures Returns(T.OutcomeOf(tracker, timedOut), batch) && T.Retains(T.Emptied(tracker), [])
  {
  }

  lemma BooksReport(tracker: T.State, recorded: seq<T.Diagnostic>, drains: seq<Drain>, timedOut: bool)
    requires Books(tracker, recorded, drains)
    ensures Books(T.Emptied(tracker), recorded, drains + [Drain(|recorded|, T.OutcomeOf(tracker, timedOut))])
  {
    var n := |drains|;
    var from := From(drains, n);
    var drains' := drains + [Drain(|recorded|, T.OutcomeOf(tracker, timedOut))];
    hide Returns, T.Retains, T.OutcomeOf, T.Emptied;
    ReportReturns(tracker, recorded[from..], timedOut);
    assert recorded[from..|recorded|] == recorded[from..];
    assert recorded[|recorded|..] == [];
    forall i | 0 <= i < |drains'| ensures Batch(recorded, drains', i) {
      assert From(drains', i) == From(drains, i);
      if i < n {
        assert Batch(recorded, drains, i) && drains'[i] == drains[i];
      }
    }
  }

  /** Neither the seal nor the active count is part of the books. */
  lemma BooksIgnore(tracker: T.State, tracker': T.State, recorded: seq<T.Diagnostic>, drains: seq<Drain>)
    requires Books(tracker, recorded, drains)
    requires tracker'.ring == tracker.ring
    requires tracker'.droppedFailures == tracker.droppedFailures && tracker'.droppedPanics == tracker.droppedPanics
    ensures Books(tracker', recorded, drains)
  {
    hide Batch, T.OfKind;
  }

  ghost predicate Recording(s: Reg) {
    Books(s.tracker, s.recorded, s.drains)
  }

  lemma RecordingAct(s: Reg, t: nat, a: Action)
    requires Recording(s) && t in s.tasks && CanAct(s, s.tasks[t], a)
    ensures Recording(ActAfter(s, t, a))
  {
    var task := s.tasks[t];
    if a.Finish? {
      BooksIgnore(s.tracker, T.Released(s.tracker), s.recorded, s.drains);
      if Unheard(t, task).Some? {
        BooksRecord(T.Released(s.tracker), s.recorded, s.drains, Unheard(t, task).value);
      } else {
        assert s.recorded + [] == s.recorded;
      }
    } else {
      assert s.recorded + [] == s.recorded;
      BooksIgnore(s.tracker, TrackerAfter(s, t, task, a), s.recorded, s.drains);
    }
    hide Books, PhaseAfter, StoreAfter, RoutesAfter, Publishes;
  }

  lemma RecordingStep(s: Reg, e: Event)
    requires Recording(s) && Enabled(s, e)
    ensures Recording(Next(s, e))
  {
    match e {
      case Act(t, a) =>
        RecordingAct(s, t, a);
        hide ActAfter, Books;
      case Look(o) =>
        LookKeepsRecord(s, o);
        hide LookAfter, Books;
      case DrainPoll(_) =>
        BooksReport(s.tracker, s.recorded, s.drains, s.tracker.active != 0);
        hide Books;
      case _ =>
        var sealed := T.SealedForShutdown(s.tracker);
        BooksIgnore(s.tracker, sealed, s.recorded, s.drains);
        BooksIgnore(s.tracker, T.Begun(s.tracker), s.recorded, s.drains);
        BooksReport(sealed, s.recorded, s.drains, false);
        hide Books;
    }
  }

  // ---------- Over every run ----------

  lemma {:induction false} DiagnosticsRun(s: Reg, es: seq<Event>)
    requires Fated(s.recorded, s.tasks) && Recording(s) && Legal(s, es)
    ensures Fated(After(s, es).recorded, After(s, es).tasks) && Recording(After(s, es))
  {
    if es != [] {
      var front := es[..|es| - 1];
      DiagnosticsRun(s, front);
      hide Enabled, Next, Fated, Recording;
      FatedStep(After(s, front), es[|es| - 1]);
      RecordingStep(After(s, front), es[|es| - 1]);
    }
  }

  /** Who stopped waiting and who was answered, by the event list. */
  ghost predicate Told(es: seq<Event>, t: nat, caller: Caller) {
    && (caller.Cancelled? <==> Cancel(t) in es)
    && (caller.Acked? <==> Receive(t) in es || exists op :: Admit(t, op, false) in es)
  }

  lemma {:induction false} NeverMentioned(s: Reg, es: seq<Event>, t: nat)
    requires Initial(s) && Legal(s, es) && t !in After(s, es).tasks
    ensures Cancel(t) !in es && Receive(t) !in es && forall op, runtime :: Admit(t, op, runtime) !in es
  {
    if es != [] {
      var front, e := es[..|es| - 1], es[|es| - 1];
      Unmentioned(After(s, front), e, t);
      hide Next, Enabled;
      NeverMentioned(s, front, t);
      assert es == front + [e];
      hide Legal;
    }
  }

  lemma Unmentioned(s: Reg, e: Event, t: nat)
    requires Enabled(s, e) && t !in Next(s, e).tasks
    ensures t !in s.tasks && e != Cancel(t) && e != Receive(t) && !(e.Admit? && e.t == t)
  {
    hide PhaseAfter, StoreAfter, RoutesAfter, TrackerAfter, Publishes;
  }

  lemma {:induction false} CallerRun(s: Reg, es: seq<Event>, t: nat)
    requires Initial(s) && Legal(s, es) && t in After(s, es).tasks
    ensures Told(es, t, After(s, es).tasks[t].caller)
  {
    if es != [] {
      var front, e := es[..|es| - 1], es[|es| - 1];
      var before := After(s, front);
      assert Enabled(before, e) && After(s, es) == Next(before, e);
      hide Legal, After, Next, Enabled;
      if t in before.tasks {
        CallerRun(s, front, t);
        CallerStep(before, e, t);
        ToldNext(front, e, es, t, before.tasks[t].caller, Next(before, e).tasks[t].caller);
      } else {
        NeverMentioned(s, front, t);
        CallerStart(before, e, t);
        if !e.runtime {
          assert Admit(t, e.op, false) in es;
        }
        assert es == front + [e];
      }
    }
  }

  lemma CallerStart(s: Reg, e: Event, t: nat)
    requires Enabled(s, e) && t !in s.tasks && t in Next(s, e).tasks
    ensures e.Admit? && e.t == t && Next(s, e).tasks[t].caller == if e.runtime then Waiting else Acked
  {
    hide PhaseAfter, StoreAfter, RoutesAfter, TrackerAfter, Publishes;
  }

  lemma ToldNext(front: seq<Event>, e: Event, es: seq<Event>, t: nat, caller: Caller, caller': Caller)
    requires es == front + [e] && Told(front, t, caller) && !(e.Admit? && e.t == t)
    requires caller' == if e == Cancel(t) then Cancelled else if e == Receive(t) then Acked else caller
    requires e == Cancel(t) || e == Receive(t) ==> caller.Waiting?
    ensures Told(es, t, caller')
  {
    assert forall op :: Admit(t, op, false) in es <==> Admit(t, op, false) in front;
  }

  lemma CallerStep(s: Reg, e: Event, t: nat)
    requires Enabled(s, e) && t in s.tasks
    ensures t in Next(s, e).tasks && !(e.Admit? && e.t == t)
    ensures Next(s, e).tasks[t].caller == if e == Cancel(t) then Cancelled else if e == Receive(t) then Acked else s.tasks[t].caller
    ensures e == Cancel(t) || e == Receive(t) ==> s.tasks[t].caller.Waiting?
  {
    hide PhaseAfter, StoreAfter, RoutesAfter, TrackerAfter, Publishes;
  }

  /** The name a diagnostic gives an operation. */
  predicate Labels(operation: T.Operation, op: Op) {
    && (operation.Put? <==> op.Put?) && (operation.Add? <==> op.Add?) && (operation.Delete? <==> op.Delete?)
    && (operation.UpdateActivity? <==> op.Update? || op.Persist?)
  }

  /**
   A finished mutation whose store call failed, was lost or panicked, or that was refused, by the event list: its
   caller was answered with that, or stopped waiting and the record holds it exactly once, as a panic exactly when
   the task panicked. One that did none of these leaves no entry.
   */
  lemma HeardOrRecordedOnce(s: Reg, es: seq<Event>, t: nat)
    requires Initial(s) && Legal(s, es) && t in After(s, es).tasks && Over(After(s, es).tasks[t].phase)
    ensures var s', past := After(s, es), Past(s, es, t);
            var task := s'.tasks[t];
            && (task.phase.reply.Done? <==> !Fell(past))
            && Told(es, t, task.caller) && !task.caller.Waiting?
            && if Fell(past) && task.caller.Cancelled?
               then exists operation :: Labels(operation, task.op) && EntriesOf(s'.recorded, t) ==
                      [T.Diagnostic(if Crashed in past then T.Panic else T.Failure, operation, t)]
               else EntriesOf(s'.recorded, t) == []
  {
    var s' := After(s, es);
    var task := s'.tasks[t];
    assert Labels(OperationOf(task.op), task.op);
    hide Legal, After, EntriesOf, Past, Told, Recording, Succeeds, Writes, Swaps, Labels, OperationOf;
    InitiallyFated(s);
    DiagnosticsRun(s, es);
    ReplyIsEarned(s, es, t);
    CallerRun(s, es, t);
    assert EntriesOf(s'.recorded, t) == Fate(t, task) && CallerDecided(task);
    hide Fated;
  }

  lemma InitiallyFated(s: Reg)
    requires Initial(s)
    ensures Fated(s.recorded, s.tasks) && Recording(s)
  {
  }

  function Returned(outcome: T.Outcome, kind: T.Kind): nat {
    match kind
    case Failure => |outcome.failures| + outcome.droppedFailures
    case Panic => |outcome.panics| + outcome.droppedPanics
  }

  function ReturnedByAll(drains: seq<Drain>, kind: T.Kind): nat {
    if drains == [] then 0
    else ReturnedByAll(drains[..|drains| - 1], kind) + Returned(drains[|drains| - 1].outcome, kind)
  }

  lemma {:induction false} OfKindBound(ds: seq<T.Diagnostic>, kind: T.Kind)
    ensures |T.OfKind(ds, kind)| <= |ds|
  {
    if ds != [] {
      OfKindBound(ds[..|ds| - 1], kind);
    }
  }

  lemma BatchTotal(outcome: T.Outcome, batch: seq<T.Diagnostic>, kind: T.Kind)
    requires Returns(outcome, batch) && |batch| <= T.USIZE_MAX
    ensures Returned(outcome, kind) == |T.OfKind(batch, kind)|
  {
    T.RingConserves(batch, kind);
    OfKindBound(T.Older(batch), kind);
    hide T.OfKind;
  }

  lemma {:induction false} TotalTo(recorded: seq<T.Diagnostic>, drains: seq<Drain>, i: nat, kind: T.Kind)
    requires i <= |drains| && |recorded| <= T.USIZE_MAX
    requires forall j :: 0 <= j < |drains| ==> Batch(recorded, drains, j)
    ensures From(drains, i) <= |recorded|
    ensures |T.OfKind(recorded[..From(drains, i)], kind)| == ReturnedByAll(drains[..i], kind)
  {
    if i > 0 {
      var from, drain := From(drains, i - 1), drains[i - 1];
      hide T.OfKind, Returns, Returned, ReturnedByAll;
      assert Batch(recorded, drains, i - 1);
      TotalTo(recorded, drains, i - 1, kind);
      TotalNext(recorded, from, drain.upTo, drain.outcome, kind);
      ReturnedNext(drains, i, kind);
    }
  }

  lemma ReturnedNext(drains: seq<Drain>, i: nat, kind: T.Kind)
    requires 0 < i <= |drains|
    ensures ReturnedByAll(drains[..i], kind) == ReturnedByAll(drains[..i - 1], kind) + Returned(drains[i - 1].outcome, kind)
  {
    assert drains[..i][..i - 1] == drains[..i - 1];
  }

  lemma TotalNext(recorded: seq<T.Diagnostic>, from: nat, upTo: nat, outcome: T.Outcome, kind: T.Kind)
    requires from <= upTo <= |recorded| <= T.USIZE_MAX && Returns(outcome, recorded[from..upTo])
    ensures |T.OfKind(recorded[..upTo], kind)| == |T.OfKind(recorded[..from], kind)| + Returned(outcome, kind)
  {
    hide T.OfKind, Returns, Returned;
    BatchTotal(outcome, recorded[from..upTo], kind);
    T.OfKindConcat(recorded[..from], recorded[from..upTo], kind);
    assert recorded[..from] + recorded[from..upTo] == recorded[..upTo];
  }

  /**
   Of each kind, everything recorded is what drains returned, plus what they counted as dropped, plus
   what the ring still holds, plus what the tracker has counted as dropped since the last drain.
   */
  lemma NothingRecordedGoesMissing(s: Reg, es: seq<Event>, kind: T.Kind)
    requires Initial(s) && Legal(s, es) && |After(s, es).recorded| <= T.USIZE_MAX
    ensures var s' := After(s, es);
            |T.OfKind(s'.recorded, kind)| ==
              ReturnedByAll(s'.drains, kind) + Returned(T.OutcomeOf(s'.tracker, false), kind)
  {
    DiagnosticsRun(s, es);
    var s' := After(s, es);
    hide Legal;
    TotalAll(s'.tracker, s'.recorded, s'.drains, kind);
  }

  lemma TotalAll(tracker: T.State, recorded: seq<T.Diagnostic>, drains: seq<Drain>, kind: T.Kind)
    requires Books(tracker, recorded, drains) && |recorded| <= T.USIZE_MAX
    ensures |T.OfKind(recorded, kind)| ==
            ReturnedByAll(drains, kind) + Returned(T.OutcomeOf(tracker, false), kind)
  {
    var n := |drains|;
    var from := From(drains, n);
    TotalTo(recorded, drains, n, kind);
    assert drains[..n] == drains;
    assert Returns(T.OutcomeOf(tracker, false), recorded[from..]);
    hide T.OfKind, Batch, Returns, Returned, T.OutcomeOf;
    assert recorded[from..] == recorded[from..|recorded|] && recorded[..|recorded|] == recorded;
    TotalNext(recorded, from, |recorded|, T.OutcomeOf(tracker, false), kind);
  }

  /** The ring holds the newest recorded diagnostics, at most its capacity, in order. */
  lemma RingIsNewest(s: Reg, es: seq<Event>)
    requires Initial(s) && Legal(s, es)
    ensures var s' := After(s, es);
            && From(s'.drains, |s'.drains|) <= |s'.recorded|
            && s'.tracker.ring == T.Newest(s'.recorded[From(s'.drains, |s'.drains|)..])
  {
    DiagnosticsRun(s, es);
    hide Legal;
  }
}
