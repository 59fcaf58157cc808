/**
 The route registry as a step machine. A mutation is admitted, waits for the mutation lock, passes
 the terminal-failure fence, drives one store operation, publishes its change by compare-and-swap,
 answers its caller and is finished by the tracker; a caller may stop waiting at any point. Request
 threads bump activity stamps by compare-and-swap at the same time. Every interleaving is a legal
 event list. The store is any store that keeps the documented error contract.

 `swaps`, `recorded`, `drains` and `origin` are history: nothing reads them to decide a step, except
 that the number of swaps is the identity of the published snapshot.
 */
module Registry {
  import opened Routes
  import opened RouteTable
  import T = Tracker

  // ---------- State ----------

  datatype Op =
    | Put(key: Key, data: RouteData)
    | Add(key: Key, target: string, extra: Extra)
    | Update(key: Key, at: Stamp)
    | Persist(key: Key, at: Stamp)
    | Delete(key: Key)

  datatype Reply = Done | Ordinary | Indeterminate | Panicked

  datatype Caller = Waiting | Acked | Cancelled

  datatype Phase =
    | NoRuntime                                   // admitted where no task can be spawned
    | Queued                                      // spawned, waiting for the mutation lock
    | Locked                                      // holds the lock, fence not yet checked
    | Running                                     // past the fence, store not yet written
    | Sampled(floor: Option<Stamp>)               // inside the store's transaction, floor read
    | Fetched(stamp: Stamp)                       // published stamp read for a persist
    | Committed(change: Change)                   // store written, change not yet published
    | Loaded(change: Change, view: nat, routes: Ordered) // snapshot number `view` loaded for the swap
    | Returned(reply: Reply)                      // store call and publication over
    | Unwound                                     // panic caught, not yet sealed
    | Replying(reply: Reply)
    | AwaitingAck(reply: Reply)
    | Settled(reply: Reply)
    | Finished(reply: Reply)                      // tracker told, lock still held
    | Released(reply: Reply)

  datatype Task = Task(op: Op, phase: Phase, caller: Caller)

  datatype Observer =
    | Checking(key: Key, at: Stamp)
    | Observing(key: Key, at: Stamp)
    | Holding(key: Key, at: Stamp, view: nat, routes: Ordered)
    | Hit(key: Key, at: Stamp, swap: nat)      // returned true: its swap's place in history
    | Missed(key: Key, at: Stamp, view: nat)     // returned false on that snapshot
    | Refused(key: Key, at: Stamp)                // returned false: registry indeterminate

  /** One finished drain: how much had been recorded by then, and what it returned. */
  datatype Drain = Drain(upTo: nat, outcome: T.Outcome)

  datatype Reg = Reg(
    store: map<Key, RouteData>,
    routes: Ordered,
    lock: Option<nat>,
    tracker: T.State,
    tasks: map<nat, Task>,
    observers: map<nat, Observer>,
    origin: Ordered,
    swaps: seq<Change>,
    recorded: seq<T.Diagnostic>,
    drains: seq<Drain>)

  ghost predicate Initial(s: Reg) {
    && WellFormed(s.origin) && s.routes == s.origin && s.store == s.origin.byKey
    && s.lock == None && s.tracker == T.FRESH && s.tasks == map[] && s.observers == map[]
    && s.swaps == [] && s.recorded == [] && s.drains == []
  }

  // ---------- The store contract ----------

  /** A record the store may commit for an operation whose floor sample was `floor`. */
  predicate Commits(op: Op, floor: Option<Stamp>, record: RouteData) {
    match op
    case Put(_, data) =>
      record.target == data.target && record.extra == data.extra && record.lastActivity == Raise(record.lastActivity, floor)
    case Add(_, target, extra) =>
      record.target == target && record.extra == extra && record.lastActivity == Raise(record.lastActivity, floor)
    case _ => true
  }

  /** The stored map after `op` commits `record`; a stamp update takes the record's stamp alone. */
  function Effect(op: Op, store: map<Key, RouteData>, record: RouteData): map<Key, RouteData> {
    match op
    case Put(key, _) => store[key := record]
    case Add(key, _, _) => store[key := record]
    case Update(key, _) => Stamped(store, key, record.lastActivity)
    case Persist(key, _) => Stamped(store, key, record.lastActivity)
    case Delete(key) => store - {key}
  }

  function Stamped(store: map<Key, RouteData>, key: Key, at: Stamp): map<Key, RouteData> {
    if key in store then store[key := store[key].(lastActivity := at)] else store
  }

  /** The operation has gone as far as its store write. */
  predicate AtWrite(op: Op, phase: Phase, record: RouteData) {
    match op
    case Put(_, _) => phase.Sampled? && Commits(op, phase.floor, record)
    case Add(_, _, _) => phase.Sampled? && Commits(op, phase.floor, record)
    case Persist(_, _) => phase.Fetched?
    case Update(_, _) => phase.Running?
    case Delete(_) => phase.Running?
  }

  function AfterWrite(op: Op, record: RouteData): Phase {
    match op
    case Put(key, _) => Committed(ReplacePreserving(key, record))
    case Add(key, _, _) => Committed(ReplacePreserving(key, record))
    case Update(key, at) => Committed(Bump(key, at))
    case Delete(key) => Committed(Remove(key))
    case Persist(_, _) => Returned(Done)
  }

  predicate InStore(phase: Phase) {
    phase.Running? || phase.Sampled? || phase.Fetched?
  }

  // ---------- Events ----------

  /** One step of a mutation's own task. */
  datatype Action =
    | Acquire
    | Fence
    | Sample
    | Fetch
    | Commit(record: RouteData)
    | Fail
    | Lose(wrote: bool, record: RouteData)
    | Panic(left: map<Key, RouteData>)
    | Load
    | Swap
    | SealOutcome
    | Send
    | Settle
    | Finish
    | Release

  datatype Event =
    | Admit(t: nat, op: Op, runtime: bool)
    | Act(t: nat, action: Action)
    | Cancel(t: nat)
    | Receive(t: nat)
    | Observe(o: nat, key: Key, at: Stamp)
    | Look(o: nat)
    | DrainSeal
    | DrainPoll(deadline: bool)

  /** What `RouteRegistry::get` returns. */
  function Get(s: Reg, key: Key): Option<RouteData> {
    if s.tracker.seal.Indeterminate? || key !in s.routes.byKey then None else Some(s.routes.byKey[key])
  }

  function SampledFloor(s: Reg, key: Key): Option<Stamp> {
    var seen := Get(s, key);
    if seen.Some? then Some(seen.value.lastActivity) else None
  }

  predicate CanAct(s: Reg, task: Task, a: Action) {
    match a
    case Acquire => task.phase.Queued? && s.lock == None
    case Fence => task.phase.Locked?
    case Sample => (task.op.Put? || task.op.Add?) && (task.phase.Running? || task.phase.Sampled?)
    case Fetch => task.op.Persist? && task.phase.Running?
    case Commit(record) => AtWrite(task.op, task.phase, record)
    case Fail => InStore(task.phase)
    case Lose(_, record) => AtWrite(task.op, task.phase, record)
    case Panic(_) => InStore(task.phase) || task.phase.Committed? || task.phase.Loaded?
    case Load => task.phase.Committed?
    case Swap => task.phase.Loaded?
    case SealOutcome => task.phase.Returned? || task.phase.Unwound?
    case Send => task.phase.Replying?
    case Settle => task.phase.AwaitingAck? && !task.caller.Waiting?
    case Finish => task.phase.Settled? || task.phase.NoRuntime?
    case Release => task.phase.Finished?
  }

  predicate Enabled(s: Reg, e: Event) {
    match e
    case Admit(t, _, _) => t !in s.tasks && s.tracker.seal.Open?
    case Act(t, a) => t in s.tasks && CanAct(s, s.tasks[t], a)
    case Cancel(t) => t in s.tasks && s.tasks[t].caller.Waiting?
    case Receive(t) => t in s.tasks && s.tasks[t].caller.Waiting? && s.tasks[t].phase.AwaitingAck?
    case Observe(o, _, _) => o !in s.observers
    case Look(o) => o in s.observers && (s.observers[o].Checking? || s.observers[o].Observing? || s.observers[o].Holding?)
    case DrainSeal => true
    case DrainPoll(deadline) => !s.tracker.seal.Open? && (deadline || s.tracker.active == 0)
  }

  // ---------- One task step, field by field ----------

  function PhaseAfter(s: Reg, task: Task, a: Action): Phase
    requires CanAct(s, task, a)
  {
    match a
    case Acquire => Locked
    case Fence => if T.Terminal(s.tracker.seal) then Returned(Ordinary) else Running
    case Sample => Sampled(SampledFloor(s, task.op.key))
    case Fetch =>
      var seen := Get(s, task.op.key);
      if seen.Some? then Fetched(Max(seen.value.lastActivity, task.op.at)) else Returned(Done)
    case Commit(record) => AfterWrite(task.op, record)
    case Fail => Returned(Ordinary)
    case Lose(_, _) => Returned(Reply.Indeterminate)
    case Panic(_) => Unwound
    case Load => Loaded(task.phase.change, |s.swaps|, s.routes)
    case Swap => if task.phase.view == |s.swaps| then Returned(Done) else Committed(task.phase.change)
    case SealOutcome => if task.phase.Unwound? then Replying(Panicked) else Replying(task.phase.reply)
    case Send => if task.caller.Cancelled? then Settled(task.phase.reply) else AwaitingAck(task.phase.reply)
    case Settle => Settled(task.phase.reply)
    case Finish => if task.phase.NoRuntime? then Released(Ordinary) else Finished(task.phase.reply)
    case Release => Released(task.phase.reply)
  }

  function StoreAfter(s: Reg, task: Task, a: Action): map<Key, RouteData> {
    match a
    case Commit(record) => Effect(task.op, s.store, record)
    case Lose(wrote, record) => if wrote then Effect(task.op, s.store, record) else s.store
    case Panic(left) => left
    case _ => s.store
  }

  function LockAfter(s: Reg, t: nat, a: Action): Option<nat> {
    match a
    case Acquire => Some(t)
    case Release => None
    case _ => s.lock
  }

  function TrackerAfter(s: Reg, t: nat, task: Task, a: Action): T.State
    requires CanAct(s, task, a)
  {
    match a
    case SealOutcome =>
      if task.phase.Unwound? then s.tracker.(seal := T.BackendPanic)
      else if task.phase.reply.Indeterminate? then s.tracker.(seal := T.Indeterminate)
      else s.tracker
    case Finish => T.Finished(s.tracker, Unheard(t, task))
    case _ => s.tracker
  }

  /** The change this step publishes, if its compare-and-swap succeeds. */
  function Publishes(s: Reg, task: Task, a: Action): Option<Change>
    requires CanAct(s, task, a)
  {
    if a.Swap? && task.phase.view == |s.swaps| then Some(task.phase.change) else None
  }

  function RoutesAfter(s: Reg, task: Task, a: Action): Ordered
    requires CanAct(s, task, a)
  {
    if Publishes(s, task, a).Some? then Apply(task.phase.routes, task.phase.change) else s.routes
  }

  function OperationOf(op: Op): T.Operation {
    match op
    case Put(_, _) => T.Put
    case Add(_, _, _) => T.Add
    case Delete(_) => T.Delete
    case _ => T.UpdateActivity
  }

  /** The diagnostic of a settled task: a failure or panic nobody acknowledged. */
  function Unheard(t: nat, task: Task): Option<T.Diagnostic> {
    if !task.phase.Settled? || !task.caller.Cancelled? || task.phase.reply.Done? then None
    else Some(T.Diagnostic(if task.phase.reply.Panicked? then T.Panic else T.Failure, OperationOf(task.op), t))
  }

  function AsSeq<X>(o: Option<X>): seq<X> {
    match o case None => [] case Some(x) => [x]
  }

  function ActAfter(s: Reg, t: nat, a: Action): Reg
    requires t in s.tasks && CanAct(s, s.tasks[t], a)
  {
    var task := s.tasks[t];
    s.(store := StoreAfter(s, task, a),
       routes := RoutesAfter(s, task, a),
       lock := LockAfter(s, t, a),
       tracker := TrackerAfter(s, t, task, a),
       tasks := s.tasks[t := task.(phase := PhaseAfter(s, task, a))],
       swaps := s.swaps + AsSeq(Publishes(s, task, a)),
       recorded := s.recorded + if a.Finish? then AsSeq(Unheard(t, task)) else [])
  }

  // ---------- One observer step ----------

  function LookAfter(s: Reg, o: nat): Reg
    requires Enabled(s, Look(o))
  {
    var w := s.observers[o];
    if w.Checking? then
      Watch(s, o, if s.tracker.seal.Indeterminate? then Refused(w.key, w.at) else Observing(w.key, w.at))
    else if w.Observing? then
      if w.key in s.routes.byKey && s.routes.byKey[w.key].lastActivity < w.at
      then Watch(s, o, Holding(w.key, w.at, |s.swaps|, s.routes))
      else Watch(s, o, Missed(w.key, w.at, |s.swaps|))
    else if w.view == |s.swaps| then
      Watch(s, o, Hit(w.key, w.at, |s.swaps|)).(
        routes := Apply(w.routes, Bump(w.key, w.at)), swaps := s.swaps + [Bump(w.key, w.at)])
    else Watch(s, o, Observing(w.key, w.at))
  }

  function Watch(s: Reg, o: nat, observer: Observer): Reg {
    s.(observers := s.observers[o := observer])
  }

  // ---------- Every step ----------

  function Reported(s: Reg, tracker: T.State, timedOut: bool): Reg {
    s.(tracker := T.Emptied(tracker),
       drains := s.drains + [Drain(|s.recorded|, T.OutcomeOf(tracker, timedOut))])
  }

  function Next(s: Reg, e: Event): Reg
    requires Enabled(s, e)
  {
    match e
    case Admit(t, op, runtime) =>
      s.(tracker := T.Begun(s.tracker),
         tasks := s.tasks[t := if runtime then Task(op, Queued, Waiting) else Task(op, NoRuntime, Acked)])
    case Act(t, a) => ActAfter(s, t, a)
    case Cancel(t) => s.(tasks := s.tasks[t := s.tasks[t].(caller := Cancelled)])
    case Receive(t) => s.(tasks := s.tasks[t := s.tasks[t].(caller := Acked)])
    case Observe(o, key, at) => Watch(s, o, Checking(key, at))
    case Look(o) => LookAfter(s, o)
    case DrainSeal =>
      var sealed := T.SealedForShutdown(s.tracker);
      if s.tracker.active == 0 then Reported(s, sealed, false) else s.(tracker := sealed)
    case DrainPoll(_) => Reported(s, s.tracker, s.tracker.active != 0)
  }

  // ---------- Runs ----------

  ghost predicate Legal(s: Reg, es: seq<Event>)
    decreases |es|, 0
  {
    es == [] || (Legal(s, es[..|es| - 1]) && Enabled(After(s, es[..|es| - 1]), es[|es| - 1]))
  }

  ghost function After(s: Reg, es: seq<Event>): Reg
    requires Legal(s, es)
    decreases |es|, 1
  {
    if es == [] then s else Next(After(s, es[..|es| - 1]), es[|es| - 1])
  }
}
