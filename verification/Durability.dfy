/**
 The activity writer running on the registry, over any store that keeps the contract. A recorder's
 observation is the registry's compare-and-swap first and the queue's acceptance afterwards; the worker's
 attempt is a registry mutation. Everything else of both machines interleaves freely. Durability is stated
 for runs over the in-memory store.

 `seen` is history: the place in the registry's swap history of each accepted observation.
 */
module Durability {
  import opened Routes
  import opened RouteTable
  import R = Registry
  import W = ActivityWriter
  import P = PendingActivities
  import T = Tracker
  import opened RegistryAdmission
  import opened RegistryPublication
  import opened RegistryAgreement
  import opened StoredStamps

  datatype Flight = Idle | Launched(t: nat) | Answered(ok: bool)

  datatype Sys = Sys(reg: R.Reg, writer: W.Writer, flight: Flight, spent: set<nat>, seen: seq<nat>)

  ghost predicate Initial(s: Sys) {
    R.Initial(s.reg) && W.Initial(s.writer) && s.flight == Idle && s.spent == {} && s.seen == []
  }

  datatype Event =
    | Reg(step: R.Event)          // any registry step but the worker's own calls
    | Wr(move: W.Event)           // any writer step but an acceptance or a landing
    | Record(o: nat)              // a successful observer enters the queue's critical section
    | Launch(t: nat)              // the worker's persist is admitted
    | Refuse                      // the worker's persist is turned away by the seal
    | Join                        // the worker receives its answer
    | Land                        // the worker's second critical section

  // ---------- Which steps are possible ----------

  predicate Foreign(s: Sys, e: R.Event) {
    && (e.Admit? ==> !e.op.Persist?)
    && (e.Cancel? || e.Receive? ==> s.flight != Launched(e.t))
  }

  predicate Enabled(s: Sys, e: Event) {
    match e
    case Reg(step) => R.Enabled(s.reg, step) && Foreign(s, step)
    case Wr(move) => W.Enabled(s.writer, move) && !move.Record? && !move.Land?
    case Record(o) => o in s.reg.observers && s.reg.observers[o].Hit? && o !in s.spent
    case Launch(t) =>
      && s.writer.worker.Flying? && s.flight == Idle
      && R.Enabled(s.reg, R.Admit(t, R.Persist(s.writer.worker.key, s.writer.worker.at), true))
    case Refuse => s.writer.worker.Flying? && s.flight == Idle && !s.reg.tracker.seal.Open?
    case Join => s.flight.Launched? && R.Enabled(s.reg, R.Receive(s.flight.t))
    case Land => s.writer.worker.Flying? && s.flight.Answered?
  }

  /** The registry step inside a step of the whole. */
  function RegPart(s: Sys, e: Event): Option<R.Event>
    requires Enabled(s, e)
  {
    match e
    case Reg(step) => Some(step)
    case Launch(t) => Some(R.Admit(t, R.Persist(s.writer.worker.key, s.writer.worker.at), true))
    case Join => Some(R.Receive(s.flight.t))
    case _ => None
  }

  /** The writer step inside a step of the whole. */
  function WriterPart(s: Sys, e: Event): Option<W.Event>
    requires Enabled(s, e)
  {
    match e
    case Wr(move) => Some(move)
    case Record(o) => Some(W.Record(s.reg.observers[o].key, s.reg.observers[o].at))
    case Refuse => Some(W.Land(false))
    case Land => Some(W.Land(s.flight.ok))
    case _ => None
  }

  function FlightAfter(s: Sys, e: Event): Flight
    requires Enabled(s, e)
  {
    match e
    case Launch(t) => Launched(t)
    case Join => Answered(s.reg.tasks[s.flight.t].phase.reply.Done?)
    case Land => Idle
    case _ => s.flight
  }

  ghost function Next(s: Sys, e: Event): Sys
    requires Enabled(s, e)
  {
    var writer := if WriterPart(s, e).Some? then W.Next(s.writer, WriterPart(s, e).value) else s.writer;
    Sys(if RegPart(s, e).Some? then R.Next(s.reg, RegPart(s, e).value) else s.reg,
        writer,
        FlightAfter(s, e),
        if e.Record? then s.spent + {e.o} else s.spent,
        if e.Record? && |writer.accepted| > |s.writer.accepted| then s.seen + [s.reg.observers[e.o].swap] else s.seen)
  }

  ghost predicate Legal(s: Sys, es: seq<Event>)
    decreases |es|, 0
  {
    es == [] || (Legal(s, es[..|es| - 1]) && Enabled(After(s, es[..|es| - 1]), es[|es| - 1]))
  }

  ghost function After(s: Sys, es: seq<Event>): Sys
    requires Legal(s, es)
    decreases |es|, 1
  {
    if es == [] then s else Next(After(s, es[..|es| - 1]), es[|es| - 1])
  }

  /** Not a management stamp update, which writes the store whatever stamp it is given. */
  predicate NotManagementUpdate(e: Event) {
    !(e.Reg? && e.step.Admit? && e.step.op.Update?)
  }

  /** If the step is a store call, it is one of the in-memory store. */
  predicate OverMemory(s: Sys, e: Event) {
    e.Reg? ==> MemoryStep(s.reg, e.step)
  }

  /** Every store call of the run is one of the in-memory store. */
  ghost predicate MemoryRun(s: Sys, es: seq<Event>)
    requires Legal(s, es)
  {
    es == [] || (MemoryRun(s, es[..|es| - 1]) && OverMemory(After(s, es[..|es| - 1]), es[|es| - 1]))
  }

  /** The two machines restrict each other only in the worker's own calls: nobody else makes, cancels or receives them. */
  lemma RunsFreely(s: Sys, step: R.Event, move: W.Event, t: nat)
    ensures Enabled(s, Reg(step)) <==>
              && R.Enabled(s.reg, step) && !(step.Admit? && step.op.Persist?)
              && !(s.flight.Launched? && (step == R.Cancel(s.flight.t) || step == R.Receive(s.flight.t)))
    ensures Enabled(s, Wr(move)) <==> W.Enabled(s.writer, move) && !move.Record? && !move.Land?
    ensures s.writer.worker.Flying? && s.flight.Idle? && t !in s.reg.tasks ==>
              if s.reg.tracker.seal.Open? then Enabled(s, Launch(t)) else Enabled(s, Refuse)
    ensures s.flight.Launched? && s.flight.t in s.reg.tasks && s.reg.tasks[s.flight.t].caller.Waiting?
            && s.reg.tasks[s.flight.t].phase.AwaitingAck? ==>
              Enabled(s, Join)
    ensures s.writer.worker.Flying? && s.flight.Answered? ==> Enabled(s, Land)
    ensures t in s.reg.observers && s.reg.observers[t].Hit? && t !in s.spent ==> Enabled(s, Record(t))
  {
  }

  // ---------- What holds throughout ----------

  /** Accepted observation `i` is that swap of the registry's history. */
  ghost predicate SeenAt(reg: R.Reg, o: W.Observation, swap: nat) {
    && swap < |reg.swaps| && reg.swaps[swap] == Bump(o.key, o.at)
    && o.key in Viewed(reg, swap).byKey
  }

  ghost predicate RegGrounded(reg: R.Reg) {
    Locking(reg) && Linear(reg) && Agreement(reg) && Plain(reg)
  }

  ghost predicate WriterGrounded(writer: W.Writer) {
    && W.Integrity(writer) && W.Accounted(writer) && W.FlushesHold(writer)
    && forall j :: 0 <= j < |writer.attempts| ==> writer.attempts[j].through <= |writer.accepted|
  }

  ghost predicate SeenAll(reg: R.Reg, accepted: seq<W.Observation>, seen: seq<nat>) {
    |seen| == |accepted| && forall i :: 0 <= i < |seen| ==> SeenAt(reg, accepted[i], seen[i])
  }

  /** The worker's call, while it is out, is a persist of exactly what the worker carries. */
  ghost predicate InFlight(reg: R.Reg, worker: W.Worker, flight: Flight) {
    match flight
    case Idle => true
    case Launched(t) => worker.Flying? && t in reg.tasks && reg.tasks[t].op == R.Persist(worker.key, worker.at)
    case Answered(_) => worker.Flying?
  }

  ghost predicate Grounded(s: Sys) {
    && RegGrounded(s.reg) && WriterGrounded(s.writer)
    && SeenAll(s.reg, s.writer.accepted, s.seen)
    && InFlight(s.reg, s.writer.worker, s.flight)
  }

  lemma RegGroundedStep(reg: R.Reg, e: R.Event)
    requires RegGrounded(reg) && R.Enabled(reg, e) && MemoryStep(reg, e) && !(e.Admit? && e.op.Update?)
    ensures RegGrounded(R.Next(reg, e))
  {
    LockingStep(reg, e);
    LinearStep(reg, e);
    AgreementStep(reg, e);
    PlainStep(reg, e);
    hide Locking, Linear, Agreement, Plain, R.Next, R.Enabled;
  }

  lemma WriterGroundedStep(writer: W.Writer, e: W.Event)
    requires WriterGrounded(writer) && W.Enabled(writer, e)
    ensures WriterGrounded(W.Next(writer, e))
    ensures writer.accepted <= W.Next(writer, e).accepted && writer.attempts <= W.Next(writer, e).attempts
  {
    W.IntegrityStep(writer, e);
    W.AccountedStep(writer, e);
    W.FlushesHoldStep(writer, e);
    HistoriesGrow(writer, e);
    hide W.Integrity, W.Accounted, W.FlushesHold, W.Next, W.Enabled;
  }

  lemma HistoriesGrow(writer: W.Writer, e: W.Event)
    requires W.Integrity(writer) && W.Enabled(writer, e)
    ensures var writer' := W.Next(writer, e);
            && writer.accepted <= writer'.accepted && writer.attempts <= writer'.attempts
            && (|writer'.attempts| > |writer.attempts| ==>
                  && writer.worker.Flying? && |writer'.attempts| == |writer.attempts| + 1
                  && writer'.attempts[|writer.attempts|].through <= |writer.accepted|)
            && (!e.Record? ==> writer'.accepted == writer.accepted)
            && (!e.Land? ==> writer'.attempts == writer.attempts && (writer.worker.Flying? ==> writer'.worker == writer.worker))
  {
    hide P.Sound, P.Complete, P.Recorded, P.Popped, P.Completed, W.FlusherAfter;
  }

  lemma SeenGrows(reg: R.Reg, reg': R.Reg, accepted: seq<W.Observation>, seen: seq<nat>)
    requires Grows(reg, reg') && reg.routes == Run(reg.origin, reg.swaps) && SeenAll(reg, accepted, seen)
    ensures SeenAll(reg', accepted, seen)
  {
    GrowsRun(reg, reg');
    forall i | 0 <= i < |seen| ensures SeenAt(reg', accepted[i], seen[i]) {
      assert SeenAt(reg, accepted[i], seen[i]);
      assert reg'.swaps[..seen[i]] == reg.swaps[..seen[i]];
      assert reg'.swaps[..|reg.swaps|] == reg.swaps[..|reg.swaps|];
      assert reg'.swaps[seen[i]] == reg'.swaps[..|reg.swaps|][seen[i]] == reg.swaps[seen[i]];
    }
  }

  lemma GroundedReg(s: Sys, e: Event)
    requires Grounded(s) && Enabled(s, e) && OverMemory(s, e) && NotManagementUpdate(e) && RegPart(s, e).Some?
    ensures Grounded(Next(s, e))
  {
    var step := RegPart(s, e).value;
    RegGroundedStep(s.reg, step);
    StepGrows(s.reg, step);
    SeenGrows(s.reg, R.Next(s.reg, step), s.writer.accepted, s.seen);
    OpsKept(s.reg, step);
    hide RegGrounded, WriterGrounded, SeenAll, R.Next, Grows;
  }

  lemma OpsKept(reg: R.Reg, e: R.Event)
    requires R.Enabled(reg, e)
    ensures forall t :: t in reg.tasks ==> t in R.Next(reg, e).tasks && R.Next(reg, e).tasks[t].op == reg.tasks[t].op
    ensures e.Admit? ==> e.t in R.Next(reg, e).tasks && R.Next(reg, e).tasks[e.t].op == e.op
  {
    hide R.PhaseAfter, R.StoreAfter, R.RoutesAfter, R.TrackerAfter, R.Publishes;
  }

  lemma GroundedWriter(s: Sys, e: Event)
    requires Grounded(s) && Enabled(s, e) && RegPart(s, e).None?
    ensures Grounded(Next(s, e))
  {
    var move := WriterPart(s, e).value;
    WriterGroundedStep(s.writer, move);
    HistoriesGrow(s.writer, move);
    if e.Record? {
      assert ObserverViews(s.reg, s.reg.observers[e.o]);
      RecordSeen(s, e.o);
    }
    hide RegGrounded, WriterGrounded, SeenAt, W.Next;
  }

  lemma RecordSeen(s: Sys, o: nat)
    requires Grounded(s) && Enabled(s, Record(o))
    ensures SeenAll(s.reg, Next(s, Record(o)).writer.accepted, Next(s, Record(o)).seen)
  {
    var w := s.reg.observers[o];
    assert ObserverViews(s.reg, w);
    assert SeenAt(s.reg, W.Observation(w.key, w.at), w.swap);
    var s' := Next(s, Record(o));
    assert s'.writer == W.RecordAfter(s.writer, w.key, w.at);
    assert s'.writer.accepted == s.writer.accepted || s'.writer.accepted == s.writer.accepted + [W.Observation(w.key, w.at)];
    assert s'.seen == if |s'.writer.accepted| > |s.writer.accepted| then s.seen + [w.swap] else s.seen;
    hide Next, Enabled, RegGrounded, WriterGrounded, SeenAt, W.RecordAfter;
  }

  lemma GroundedStep(s: Sys, e: Event)
    requires Grounded(s) && Enabled(s, e) && OverMemory(s, e) && NotManagementUpdate(e)
    ensures Grounded(Next(s, e))
  {
    if RegPart(s, e).Some? {
      GroundedReg(s, e);
    } else {
      GroundedWriter(s, e);
    }
  }

  // ---------- Durable observations ----------

  /** The route of accepted observation `i` has not been removed since the observation was published. */
  ghost predicate Live(s: Sys, i: nat)
    requires i < |s.seen| && i < |s.writer.accepted|
  {
    s.seen[i] < |s.reg.swaps| && Unremoved(s.reg.swaps[s.seen[i] + 1..], s.writer.accepted[i].key)
  }

  predicate Aboard(worker: W.Worker, o: W.Observation, sequence: nat) {
    worker.Flying? && worker.key == o.key && worker.at >= o.at && worker.through >= sequence
  }

  predicate Succeeded(phase: R.Phase) {
    match phase
    case Returned(reply) => reply.Done?
    case Replying(reply) => reply.Done?
    case AwaitingAck(reply) => reply.Done?
    case Settled(reply) => reply.Done?
    case Finished(reply) => reply.Done?
    case Released(reply) => reply.Done?
    case _ => false
  }

  predicate FlightSucceeded(reg: R.Reg, flight: Flight) {
    match flight
    case Idle => false
    case Launched(t) => t in reg.tasks && Succeeded(reg.tasks[t].phase)
    case Answered(ok) => ok
  }

  /** A successful attempt covering the observation has been made, even if the worker has yet to hear of it. */
  ghost predicate Due(s: Sys, i: nat)
    requires i < |s.writer.accepted|
  {
    var o := s.writer.accepted[i];
    || (exists j :: 0 <= j < |s.writer.attempts| && s.writer.attempts[j].ok && W.Covers(s.writer.attempts[j], o, i + 1))
    || (Aboard(s.writer.worker, o, i + 1) && FlightSucceeded(s.reg, s.flight))
  }

  ghost predicate Kept(s: Sys) {
    |s.seen| == |s.writer.accepted| &&
    forall i :: 0 <= i < |s.seen| && Live(s, i) && Due(s, i) ==>
      Safe(s.reg, s.writer.accepted[i].key, s.writer.accepted[i].at)
  }

  /** A live observation shows in the published routes. */
  lemma LiveIsVisible(s: Sys, i: nat)
    requires Grounded(s) && i < |s.seen| && Live(s, i)
    ensures Visible(s.reg, s.writer.accepted[i].key, s.writer.accepted[i].at)
  {
    var o, n := s.writer.accepted[i], s.seen[i];
    assert SeenAt(s.reg, o, n) && Linear(s.reg);
    hide Grounded, Linear;
    var through := s.reg.swaps[..n + 1];
    assert through[..|through| - 1] == s.reg.swaps[..n];
    assert Viewed(s.reg, n + 1) == Apply(Viewed(s.reg, n), Bump(o.key, o.at));
    PublishedStampMonotone(s.reg, n + 1, o.key);
  }

  /** Liveness only ever ends, and the step that publishes the removal ends it. */
  lemma LiveBefore(s: Sys, reg': R.Reg, i: nat)
    requires i < |s.seen| && i < |s.writer.accepted| && s.seen[i] < |s.reg.swaps|
    requires s.reg.swaps <= reg'.swaps && Live(s.(reg := reg'), i)
    ensures Live(s, i)
    ensures forall n :: |s.reg.swaps| <= n < |reg'.swaps| ==> reg'.swaps[n] != Remove(s.writer.accepted[i].key)
  {
    var from := s.seen[i] + 1;
    var tail, tail' := s.reg.swaps[from..], reg'.swaps[from..];
    forall n | 0 <= n < |tail| ensures tail[n] != Remove(s.writer.accepted[i].key) {
      assert tail[n] == reg'.swaps[from + n] == tail'[n];
    }
    forall n | |s.reg.swaps| <= n < |reg'.swaps| ensures reg'.swaps[n] != Remove(s.writer.accepted[i].key) {
      assert tail'[n - from] == reg'.swaps[n];
    }
  }

  /** How a task comes to have succeeded: a persist by its own write, or by finding no route to stamp. */
  lemma SuccessIsEarned(reg: R.Reg, t: nat, a: R.Action)
    requires Plain(reg) && t in reg.tasks && R.CanAct(reg, reg.tasks[t], a) && reg.tasks[t].op.Persist?
    requires TaskViews(reg, reg.tasks[t]) && PersistOwesNothing(reg.tasks[t])
    requires Succeeded(R.PhaseAfter(reg, reg.tasks[t], a)) && !Succeeded(reg.tasks[t].phase)
    ensures R.InStore(reg.tasks[t].phase) && R.PhaseAfter(reg, reg.tasks[t], a) == R.Returned(R.Done)
  {
  }

  predicate PersistOwesNothing(task: R.Task) {
    task.op.Persist? ==> !Owes(task.phase)
  }

  ghost predicate PersistsOweNothing(reg: R.Reg) {
    forall t :: t in reg.tasks ==> PersistOwesNothing(reg.tasks[t])
  }

  lemma PersistsOweNothingStep(reg: R.Reg, e: R.Event)
    requires PersistsOweNothing(reg) && R.Enabled(reg, e)
    ensures PersistsOweNothing(R.Next(reg, e))
  {
    if e.Act? {
      assert PersistOwesNothing(reg.tasks[e.t].(phase := R.PhaseAfter(reg, reg.tasks[e.t], e.action)));
      hide R.PhaseAfter, R.StoreAfter, R.RoutesAfter, R.TrackerAfter, R.Publishes;
    }
  }

  /** What is live after a registry step was live before, and the step did not publish its removal. */
  lemma StillLive(s: Sys, e: Event, i: nat)
    requires Grounded(s) && Enabled(s, e) && RegPart(s, e).Some? && i < |s.seen| && Live(Next(s, e), i)
    ensures Live(s, i)
    ensures var step := RegPart(s, e).value;
            step.Act? ==> R.Publishes(s.reg, s.reg.tasks[step.t], step.action) != Some(Remove(s.writer.accepted[i].key))
  {
    var step := RegPart(s, e).value;
    assert SeenAt(s.reg, s.writer.accepted[i], s.seen[i]) && i < |s.writer.accepted|;
    hide Grounded, R.Next, R.Publishes;
    PublishedLast(s.reg, step);
    assert Live(s.(reg := R.Next(s.reg, step)), i);
    hide Next, Live;
    LiveBefore(s, R.Next(s.reg, step), i);
  }

  lemma PublishedLast(reg: R.Reg, step: R.Event)
    requires R.Enabled(reg, step)
    ensures reg.swaps <= R.Next(reg, step).swaps
    ensures step.Act? && R.Publishes(reg, reg.tasks[step.t], step.action).Some? ==>
              && |reg.swaps| < |R.Next(reg, step).swaps|
              && R.Next(reg, step).swaps[|reg.swaps|] == R.Publishes(reg, reg.tasks[step.t], step.action).value
  {
    hide R.PhaseAfter, R.StoreAfter, R.RoutesAfter, R.TrackerAfter, R.Publishes;
  }

  /** One registry step and one live observation: safe stays safe, and newly due is made safe. */
  lemma KeptReg(s: Sys, e: Event, i: nat)
    requires Grounded(s) && Kept(s) && PersistsOweNothing(s.reg)
    requires Enabled(s, e) && OverMemory(s, e) && NotManagementUpdate(e) && RegPart(s, e).Some?
    requires i < |s.seen| && Live(Next(s, e), i) && Due(Next(s, e), i)
    ensures Safe(Next(s, e).reg, s.writer.accepted[i].key, s.writer.accepted[i].at)
  {
    var step, o := RegPart(s, e).value, s.writer.accepted[i];
    StillLive(s, e, i);
    LiveIsVisible(s, i);
    hide R.Next, Safe, Due, Live, Visible;
    if Due(s, i) {
      SafeStep(s.reg, step, o.key, o.at);
    } else {
      NewlyDue(s, e, i);
      SuccessIsEarned(s.reg, step.t, step.action);
      PersistMakesSafe(s.reg, step.t, step.action, o.key, o.at);
    }
    hide Grounded;
  }

  lemma SuccessNeedsAct(reg: R.Reg, step: R.Event, t: nat)
    requires R.Enabled(reg, step) && t in R.Next(reg, step).tasks && Succeeded(R.Next(reg, step).tasks[t].phase)
    ensures t in reg.tasks
    ensures Succeeded(reg.tasks[t].phase) ||
            (step.Act? && step.t == t && Succeeded(R.PhaseAfter(reg, reg.tasks[t], step.action)))
  {
    hide R.PhaseAfter, R.StoreAfter, R.RoutesAfter, R.TrackerAfter, R.Publishes;
  }

  lemma FlightNeedsAct(s: Sys, e: Event)
    requires Grounded(s) && Enabled(s, e) && RegPart(s, e).Some?
    requires FlightSucceeded(Next(s, e).reg, Next(s, e).flight) && !FlightSucceeded(s.reg, s.flight)
    ensures var step := RegPart(s, e).value;
            && e.Reg? && step.Act? && s.flight == Launched(step.t) && !Succeeded(s.reg.tasks[step.t].phase)
            && Succeeded(R.PhaseAfter(s.reg, s.reg.tasks[step.t], step.action))
  {
    var step := RegPart(s, e).value;
    if Next(s, e).flight.Launched? {
      SuccessNeedsAct(s.reg, step, Next(s, e).flight.t);
    }
    hide R.Next, R.PhaseAfter, Grounded;
  }

  /** A registry step makes an observation due only by ending the worker's own persist. */
  lemma NewlyDue(s: Sys, e: Event, i: nat)
    requires Grounded(s) && Enabled(s, e) && RegPart(s, e).Some? && i < |s.writer.accepted|
    requires Due(Next(s, e), i) && !Due(s, i)
    ensures var step := RegPart(s, e).value;
            && e.Reg? && step.Act? && s.flight == Launched(step.t)
            && Aboard(s.writer.worker, s.writer.accepted[i], i + 1)
            && !Succeeded(s.reg.tasks[step.t].phase)
            && Succeeded(R.PhaseAfter(s.reg, s.reg.tasks[step.t], step.action))
  {
    assert Next(s, e).writer == s.writer;
    hide Grounded, R.Next, FlightSucceeded;
    FlightNeedsAct(s, e);
  }

  /** A writer step leaves what is live alone, and a landing hands an earned success to the history. */
  lemma KeptWriter(s: Sys, e: Event, i: nat)
    requires Grounded(s) && Kept(s) && Enabled(s, e) && RegPart(s, e).None?
    requires i < |Next(s, e).seen| && i < |Next(s, e).writer.accepted| && Live(Next(s, e), i) && Due(Next(s, e), i)
    ensures Safe(s.reg, Next(s, e).writer.accepted[i].key, Next(s, e).writer.accepted[i].at)
  {
    hide RegGrounded, Safe, Due;
    var s', move := Next(s, e), WriterPart(s, e).value;
    HistoriesGrow(s.writer, move);
    assert s'.reg == s.reg && |s.seen| == |s.writer.accepted|;
    assert i < |s.seen| ==> s'.seen[i] == s.seen[i];
    hide Grounded, W.Next, Safe, Due, Next, WriterPart;
    if i < |s.writer.accepted| {
      assert s'.writer.accepted[i] == s.writer.accepted[i];
      DueBefore(s, e, i);
    } else {
      NotYetDue(s, e, i);
      assert false;
    }
  }

  lemma LandingIsAboard(s: Sys, e: Event)
    requires Grounded(s) && Enabled(s, e) && RegPart(s, e).None?
    ensures var w, w' := s.writer, Next(s, e).writer;
            |w'.attempts| > |w.attempts| ==>
              && (e.Land? || e.Refuse?)
              && w'.attempts == w.attempts + [W.Attempt(w.worker.key, w.worker.at, w.worker.through, e.Land? && s.flight.ok)]
  {
    hide Grounded, W.Next;
    W.AttemptsStep(s.writer, WriterPart(s, e).value);
  }

  lemma DueBefore(s: Sys, e: Event, i: nat)
    requires Grounded(s) && Enabled(s, e) && RegPart(s, e).None? && i < |s.writer.accepted|
    requires s.writer.accepted <= Next(s, e).writer.accepted && Due(Next(s, e), i)
    ensures Due(s, i)
  {
    hide RegGrounded, SeenAll;
    var w, w', o := s.writer, Next(s, e).writer, s.writer.accepted[i];
    HistoriesGrow(w, WriterPart(s, e).value);
    LandingIsAboard(s, e);
    hide W.Next, Grounded, WriterPart;
    if j :| 0 <= j < |w'.attempts| && w'.attempts[j].ok && W.Covers(w'.attempts[j], o, i + 1) {
      if j < |w.attempts| {
        assert w.attempts[j] == w'.attempts[j];
      }
    }
  }

  /** What was just accepted is newer than anything carried or attempted. */
  lemma NotYetDue(s: Sys, e: Event, i: nat)
    requires Grounded(s) && Enabled(s, e) && RegPart(s, e).None?
    requires |s.writer.accepted| <= i < |Next(s, e).writer.accepted|
    ensures !Due(Next(s, e), i)
  {
    hide RegGrounded, SeenAll;
    var w, w' := s.writer, Next(s, e).writer;
    HistoriesGrow(w, WriterPart(s, e).value);
    assert e.Record? && w'.attempts == w.attempts;
    assert w'.worker == w.worker;
    assert w.worker.Flying? ==> w.worker.through <= |w.accepted|;
    hide W.Next, Grounded, Next, WriterPart, FlightSucceeded;
  }

  lemma KeptStep(s: Sys, e: Event)
    requires Grounded(s) && Kept(s) && PersistsOweNothing(s.reg)
    requires Enabled(s, e) && OverMemory(s, e) && NotManagementUpdate(e)
    ensures Kept(Next(s, e)) && PersistsOweNothing(Next(s, e).reg)
  {
    var s' := Next(s, e);
    GroundedStep(s, e);
    if RegPart(s, e).Some? {
      PersistsOweNothingStep(s.reg, RegPart(s, e).value);
      forall i | 0 <= i < |s'.seen| && Live(s', i) && Due(s', i)
        ensures Safe(s'.reg, s'.writer.accepted[i].key, s'.writer.accepted[i].at)
      {
        KeptReg(s, e, i);
      }
    } else {
      forall i | 0 <= i < |s'.seen| && Live(s', i) && Due(s', i)
        ensures Safe(s'.reg, s'.writer.accepted[i].key, s'.writer.accepted[i].at)
      {
        KeptWriter(s, e, i);
      }
    }
    hide RegGrounded, WriterGrounded, SeenAt, R.Next, W.Next, Live, Due, Safe, PersistsOweNothing;
  }

  lemma {:induction false} KeptRun(s: Sys, es: seq<Event>)
    requires Grounded(s) && Kept(s) && PersistsOweNothing(s.reg) && Legal(s, es)
    requires MemoryRun(s, es) && forall n :: 0 <= n < |es| ==> NotManagementUpdate(es[n])
    ensures Grounded(After(s, es)) && Kept(After(s, es)) && PersistsOweNothing(After(s, es).reg)
  {
    if es != [] {
      var front := es[..|es| - 1];
      KeptRun(s, front);
      GroundedStep(After(s, front), es[|es| - 1]);
      KeptStep(After(s, front), es[|es| - 1]);
      hide Grounded, Kept, PersistsOweNothing, Enabled, Next, OverMemory;
    }
  }

  lemma InitiallyGrounded(s: Sys)
    requires Initial(s)
    ensures Grounded(s) && Kept(s) && PersistsOweNothing(s.reg)
  {
    InitiallyAdmitting(s.reg);
    InitiallyLinear(s.reg);
  }

  ghost predicate PlainRun(s: Sys, es: seq<Event>)
    requires Legal(s, es)
  {
    MemoryRun(s, es) && forall n :: 0 <= n < |es| ==> NotManagementUpdate(es[n])
  }

  /**
   End to end, over the in-memory store, in every run without a management stamp update: when a flush has
   returned and every attempt succeeded, each observation accepted before it was called whose route has not been
   removed since is stored, with a stamp at least as new, whatever adds and puts interleaved.
   The one exception is a route whose deletion has reached the store and is about to be published.
   */
  lemma FlushedIsDurable(s: Sys, before: seq<Event>, f: nat, es: seq<Event>, i: nat)
    requires Initial(s) && Legal(s, before) && PlainRun(s, before) && Enabled(After(s, before), Wr(W.FlushStart(f)))
    requires var called := Next(After(s, before), Wr(W.FlushStart(f)));
             Legal(called, es) && PlainRun(called, es)
    requires var w := After(Next(After(s, before), Wr(W.FlushStart(f))), es).writer;
             && f in w.flushers && w.flushers[f].Flushed? && i < |After(s, before).writer.accepted|
             && forall j :: 0 <= j < |w.attempts| ==> w.attempts[j].ok
    ensures var s' := After(Next(After(s, before), Wr(W.FlushStart(f))), es);
            && i < |s'.writer.accepted| && i < |s'.seen|
            && var o := s'.writer.accepted[i];
               && o == After(s, before).writer.accepted[i]
               && (Live(s', i) ==> Stored(s'.reg.store, o.key, o.at) || Removing(HolderPhase(s'.reg), o.key))
  {
    hide Legal, After, Enabled, Next, MemoryRun, Live, Due, Grounded, PersistsOweNothing, Stored, Removing, HolderPhase, Initial;
    var now := After(s, before);
    var called := Next(now, Wr(W.FlushStart(f)));
    InitiallyGrounded(s);
    KeptRun(s, before);
    FlushCalled(now, f);
    KeptRun(called, es);
    WriterKept(called, es, f);
    FlushedIsDue(After(called, es), f, i);
    DueIsStored(After(called, es), i);
  }

  lemma FlushCalled(s: Sys, f: nat)
    requires Grounded(s) && Kept(s) && PersistsOweNothing(s.reg) && Enabled(s, Wr(W.FlushStart(f)))
    ensures var called := Next(s, Wr(W.FlushStart(f)));
            && Grounded(called) && Kept(called) && PersistsOweNothing(called.reg)
            && called.writer.accepted == s.writer.accepted && f in called.writer.flushers
            && called.writer.flushers[f].watermark == |s.writer.accepted|
  {
    hide RegGrounded, SeenAll, Live, Due, Safe, PersistsOweNothing;
    GroundedStep(s, Wr(W.FlushStart(f)));
    KeptStep(s, Wr(W.FlushStart(f)));
    hide Kept;
  }

  lemma DueIsStored(s: Sys, i: nat)
    requires Kept(s) && i < |s.writer.accepted| && Due(s, i)
    ensures i < |s.seen|
    ensures var o := s.writer.accepted[i];
            Live(s, i) ==> Stored(s.reg.store, o.key, o.at) || Removing(HolderPhase(s.reg), o.key)
  {
    hide Live, Due;
  }

  lemma {:induction false} WriterKept(s: Sys, es: seq<Event>, f: nat)
    requires Grounded(s) && Kept(s) && PersistsOweNothing(s.reg) && Legal(s, es) && PlainRun(s, es) && f in s.writer.flushers
    ensures var w, w' := s.writer, After(s, es).writer;
            && w.accepted <= w'.accepted && f in w'.flushers && w'.flushers[f].watermark == w.flushers[f].watermark
  {
    if es != [] {
      var front, e := es[..|es| - 1], es[|es| - 1];
      WriterKept(s, front, f);
      KeptRun(s, front);
      WriterKeptStep(After(s, front), e, f);
      hide Grounded, Kept, PersistsOweNothing, Enabled, Next, OverMemory;
    }
  }

  lemma WriterKeptStep(s: Sys, e: Event, f: nat)
    requires Grounded(s) && Enabled(s, e) && f in s.writer.flushers
    ensures var w, w' := s.writer, Next(s, e).writer;
            && w.accepted <= w'.accepted && f in w'.flushers && w'.flushers[f].watermark == w.flushers[f].watermark
  {
    hide RegGrounded, SeenAll, R.Next;
    if WriterPart(s, e).Some? {
      HistoriesGrow(s.writer, WriterPart(s, e).value);
      W.WatermarkStep(s.writer, WriterPart(s, e).value, f);
      hide W.Next;
    }
  }

  lemma FlushedIsDue(s: Sys, f: nat, i: nat)
    requires Grounded(s) && f in s.writer.flushers && s.writer.flushers[f].Flushed? && i < s.writer.flushers[f].watermark
    requires forall j :: 0 <= j < |s.writer.attempts| ==> s.writer.attempts[j].ok
    ensures i < |s.writer.accepted| && Due(s, i)
  {
    assert W.FlushesHold(s.writer);
    assert W.Attempted(s.writer, i);
  }
}
