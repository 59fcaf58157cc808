/**
 The activity writer as a step machine: recorders accept observations into the bounded queue and
 send a wake-up through a one-slot channel, one worker pops, persists and lands routes, and flushes
 wait for their watermark. An attempt's result is left open here; `Durability` runs it on the registry.

 `accepted` and `attempts` are history: observation number `i` was accepted with sequence `i + 1`, and
 an attempt remembers the last sequence accepted when its route was popped.
 */
module ActivityWriter {
  import opened Routes
  import opened PendingActivities

  datatype Observation = Observation(key: Key, at: Stamp)
  datatype Attempt = Attempt(key: Key, at: Stamp, through: nat, ok: bool)

  datatype Worker =
    | Parked
    | Draining
    | Flying(key: Key, at: Stamp, sequence: nat, through: nat)
    | Landed                                    // attempt over, waiters not yet notified
    | Emptied                                   // nothing ready, waiters not yet notified
    | Crashed                                   // an expectation of the worker failed

  datatype Flusher =
    | Arming(watermark: nat)
    | Armed(watermark: nat, epoch: nat)         // registered for the next notification
    | Asleep(watermark: nat, epoch: nat)
    | Flushed(watermark: nat)

  datatype Writer = Writer(
    capacity: nat,
    queue: Queue,
    worker: Worker,
    token: bool,                                // the wake-up channel's one slot
    senders: nat,                               // recorders that accepted and have yet to send
    epoch: nat,                                 // notifications so far
    flushers: map<nat, Flusher>,
    errors: nat,
    dropped: nat,
    accepted: seq<Observation>,
    attempts: seq<Attempt>)

  predicate Initial(w: Writer) {
    && w.capacity >= 1 && w.queue == EMPTY && w.worker == Parked && !w.token && w.senders == 0
    && w.flushers == map[] && w.errors == 0 && w.dropped == 0 && w.accepted == [] && w.attempts == []
  }

  datatype Event =
    | Record(key: Key, at: Stamp)
    | Send
    | Wake
    | PopNext
    | Land(ok: bool)
    | Notify
    | FlushStart(f: nat)
    | FlushStep(f: nat)

  predicate CanFlush(w: Writer, flusher: Flusher) {
    match flusher
    case Arming(_) => true
    case Armed(_, _) => true
    case Asleep(_, epoch) => w.epoch > epoch
    case Flushed(_) => false
  }

  predicate Enabled(w: Writer, e: Event) {
    match e
    case Record(_, _) => true
    case Send => w.senders > 0
    case Wake => w.worker.Parked? && w.token
    case PopNext => w.worker.Draining?
    case Land(_) => w.worker.Flying?
    case Notify => w.worker.Landed? || w.worker.Emptied?
    case FlushStart(f) => f !in w.flushers
    case FlushStep(f) => f in w.flushers && CanFlush(w, w.flushers[f])
  }

  ghost function FlusherAfter(w: Writer, flusher: Flusher): Flusher {
    match flusher
    case Arming(watermark) => Armed(watermark, w.epoch)
    case Armed(watermark, epoch) => if Complete(w.queue, watermark) then Flushed(watermark) else Asleep(watermark, epoch)
    case Asleep(watermark, _) => Arming(watermark)
    case Flushed(_) => flusher
  }

  function RecordAfter(w: Writer, key: Key, at: Stamp): Writer {
    match Admits(w.queue, w.capacity, key)
    case Dropped => w.(dropped := w.dropped + 1)
    case Exhausted => w
    case Accepted(_) =>
      w.(queue := Recorded(w.queue, w.capacity, key, at),
         senders := w.senders + 1,
         accepted := w.accepted + [Observation(key, at)])
  }

  function PopAfter(w: Writer): Writer {
    match Head(w.queue)
    case Nothing => w.(worker := Emptied)
    case Broken => w.(worker := Crashed)
    case Taken(key, at, sequence) =>
      w.(queue := Popped(w.queue), worker := Flying(key, at, sequence, w.queue.acceptedThrough))
  }

  function LandAfter(w: Writer, ok: bool): Writer
    requires w.worker.Flying?
  {
    w.(queue := Completed(w.queue, w.worker.key),
       worker := Landed,
       errors := if ok then w.errors else w.errors + 1,
       attempts := w.attempts + [Attempt(w.worker.key, w.worker.at, w.worker.through, ok)])
  }

  ghost function Next(w: Writer, e: Event): Writer
    requires Enabled(w, e)
  {
    match e
    case Record(key, at) => RecordAfter(w, key, at)
    case Send => w.(senders := w.senders - 1, token := true)
    case Wake => w.(token := false, worker := Draining)
    case PopNext => PopAfter(w)
    case Land(ok) => LandAfter(w, ok)
    case Notify => w.(epoch := w.epoch + 1, worker := if w.worker.Landed? then Draining else Parked)
    case FlushStart(f) => w.(flushers := w.flushers[f := Arming(w.queue.acceptedThrough)])
    case FlushStep(f) => w.(flushers := w.flushers[f := FlusherAfter(w, w.flushers[f])])
  }

  ghost predicate Legal(w: Writer, es: seq<Event>)
    decreases |es|, 0
  {
    es == [] || (Legal(w, es[..|es| - 1]) && Enabled(After(w, es[..|es| - 1]), es[|es| - 1]))
  }

  ghost function After(w: Writer, es: seq<Event>): Writer
    requires Legal(w, es)
    decreases |es|, 1
  {
    if es == [] then w else Next(After(w, es[..|es| - 1]), es[|es| - 1])
  }

  // ---------- Integrity ----------

  function FlyingKey(worker: Worker): Option<Key> {
    if worker.Flying? then Some(worker.key) else None
  }

  /** The queue is sound, the worker has not crashed, and what it carries is what the queue says is in flight. */
  ghost predicate Integrity(w: Writer) {
    && Sound(w.queue, w.capacity, FlyingKey(w.worker))
    && !w.worker.Crashed?
    && w.queue.acceptedThrough == |w.accepted|
    && (w.worker.Flying? ==>
          && w.queue.byKey[w.worker.key].inFlight == Some(w.worker.sequence)
          && w.worker.through <= w.queue.acceptedThrough)
    && (forall f :: f in w.flushers ==> w.flushers[f].watermark <= w.queue.acceptedThrough)
  }

  lemma IntegrityRecord(w: Writer, key: Key, at: Stamp)
    requires Integrity(w)
    ensures Integrity(RecordAfter(w, key, at))
  {
    RecordSound(w.queue, w.capacity, FlyingKey(w.worker), key, at);
    hide Sound;
  }

  lemma IntegrityPop(w: Writer)
    requires Integrity(w) && w.worker.Draining?
    ensures Integrity(PopAfter(w))
  {
    HeadNeverBroken(w.queue, w.capacity, None);
    if Head(w.queue).Taken? {
      PopSound(w.queue, w.capacity);
    }
    hide Sound;
  }

  lemma IntegrityLand(w: Writer, ok: bool)
    requires Integrity(w) && w.worker.Flying?
    ensures Integrity(LandAfter(w, ok))
  {
    CompleteSound(w.queue, w.capacity, w.worker.key);
    hide Sound;
  }

  lemma IntegrityStep(w: Writer, e: Event)
    requires Integrity(w) && Enabled(w, e)
    ensures Integrity(Next(w, e))
  {
    hide Sound, Complete, RecordAfter, PopAfter, LandAfter;
    match e {
      case Record(key, at) => IntegrityRecord(w, key, at);
      case PopNext => IntegrityPop(w);
      case Land(ok) => IntegrityLand(w, ok);
      case _ =>
    }
  }

  lemma {:induction false} IntegrityRun(w: Writer, es: seq<Event>)
    requires Integrity(w) && Legal(w, es)
    ensures Integrity(After(w, es))
  {
    if es != [] {
      IntegrityRun(w, es[..|es| - 1]);
      IntegrityStep(After(w, es[..|es| - 1]), es[|es| - 1]);
      hide Integrity, Enabled, Next;
    }
  }

  // ---------- No lost wake-up ----------

  /** Ready work never waits on a parked worker that nobody will wake. */
  ghost predicate WorkerAwake(w: Writer) {
    w.worker.Parked? && w.queue.ready != [] ==> w.token || w.senders > 0
  }

  /** A sleeping flush whose watermark is complete has been notified, or the worker is about to notify it. */
  ghost predicate FlusherAwake(w: Writer, flusher: Flusher) {
    && (flusher.Armed? || flusher.Asleep? ==> flusher.epoch <= w.epoch)
    && (flusher.Asleep? && Complete(w.queue, flusher.watermark) ==> flusher.epoch < w.epoch || w.worker.Landed?)
  }

  ghost predicate Awake(w: Writer) {
    && (w.worker.Emptied? && w.queue.ready != [] ==> w.token || w.senders > 0)
    && WorkerAwake(w)
    && forall f :: f in w.flushers ==> FlusherAwake(w, w.flushers[f])
  }

  /** Only an attempt's landing can complete a watermark already read. */
  lemma CompletionNeedsLanding(w: Writer, e: Event, watermark: nat)
    requires Integrity(w) && Enabled(w, e) && watermark <= w.queue.acceptedThrough && !e.Land?
    ensures Complete(Next(w, e).queue, watermark) == Complete(w.queue, watermark)
  {
    var q' := Next(w, e).queue;
    match e {
      case Record(key, at) =>
        RecordKeepsComplete(w, key, at, watermark);
      case PopNext =>
        if Head(w.queue).Taken? {
          PopKeepsComplete(w, watermark);
        }
      case _ =>
    }
  }

  lemma RecordKeepsComplete(w: Writer, key: Key, at: Stamp, watermark: nat)
    requires Integrity(w) && watermark <= w.queue.acceptedThrough
    ensures Complete(Recorded(w.queue, w.capacity, key, at), watermark) == Complete(w.queue, watermark)
  {
    var q' := Recorded(w.queue, w.capacity, key, at);
    if q' != w.queue {
      assert key in w.queue.byKey ==> (EntryPast(w.queue.byKey[key], watermark) <==> EntryPast(q'.byKey[key], watermark));
      assert key !in w.queue.byKey ==> EntryPast(q'.byKey[key], watermark);
      assert forall k :: k != key && k in q'.byKey ==> k in w.queue.byKey && q'.byKey[k] == w.queue.byKey[k];
      assert forall k :: k in w.queue.byKey ==> k in q'.byKey;
      hide EntryPast, Recorded;
    }
  }

  lemma PopKeepsComplete(w: Writer, watermark: nat)
    requires Integrity(w) && w.worker.Draining? && Head(w.queue).Taken?
    ensures Complete(Popped(w.queue), watermark) == Complete(w.queue, watermark)
  {
    var key := w.queue.ready[0];
    var q' := Popped(w.queue);
    assert w.queue.byKey[key].inFlight.None? by {
      assert key in w.queue.ready;
    }
    assert EntryPast(w.queue.byKey[key], watermark) <==> EntryPast(q'.byKey[key], watermark);
    assert forall k :: k != key && k in q'.byKey ==> k in w.queue.byKey && q'.byKey[k] == w.queue.byKey[k];
    assert forall k :: k in w.queue.byKey ==> k in q'.byKey;
    hide EntryPast, Popped;
  }

  lemma FlusherAwakeStep(w: Writer, e: Event, flusher: Flusher)
    requires Integrity(w) && Enabled(w, e) && FlusherAwake(w, flusher) && flusher.watermark <= w.queue.acceptedThrough
    ensures FlusherAwake(Next(w, e), flusher)
  {
    if !e.Land? {
      CompletionNeedsLanding(w, e, flusher.watermark);
    }
    hide Complete;
  }

  lemma WorkerAwakeStep(w: Writer, e: Event)
    requires Awake(w) && Enabled(w, e)
    ensures var w' := Next(w, e);
            && (w'.worker.Emptied? && w'.queue.ready != [] ==> w'.token || w'.senders > 0)
            && WorkerAwake(w')
  {
    var w' := Next(w, e);
    assert e.Record? && w'.queue != w.queue ==> w'.senders > 0;
    hide Complete, Recorded, Completed, Popped, FlusherAwake, FlusherAfter;
  }

  lemma AwakeStep(w: Writer, e: Event)
    requires Integrity(w) && Awake(w) && Enabled(w, e)
    ensures Awake(Next(w, e))
  {
    hide Complete, Sound;
    var w' := Next(w, e);
    WorkerAwakeStep(w, e);
    forall f | f in w.flushers ensures FlusherAwake(w', w.flushers[f]) {
      FlusherAwakeStep(w, e, w.flushers[f]);
    }
    hide RecordAfter, PopAfter, LandAfter, WorkerAwake;
  }

  lemma {:induction false} AwakeRun(w: Writer, es: seq<Event>)
    requires Integrity(w) && Awake(w) && Legal(w, es)
    ensures Awake(After(w, es))
  {
    if es != [] {
      AwakeRun(w, es[..|es| - 1]);
      IntegrityRun(w, es[..|es| - 1]);
      AwakeStep(After(w, es[..|es| - 1]), es[|es| - 1]);
      hide Integrity, Awake, Enabled, Next;
    }
  }

  /** The worker, or a recorder on its way to waking it, can take a step. */
  predicate Progressing(w: Writer) {
    w.worker.Draining? || w.worker.Flying? || w.worker.Landed? || w.worker.Emptied? || w.token || w.senders > 0
  }

  /** The worker's next step, or a recorder's send if the worker has none. */
  function Mover(w: Writer): Event {
    match w.worker
    case Draining => PopNext
    case Flying(_, _, _, _) => Land(true)
    case Landed => Notify
    case Emptied => Notify
    case _ => if w.token then Wake else Send
  }

  /** Progressing means that such a step can be taken, whatever the outcome of the attempt. */
  lemma ProgressIsEnabled(w: Writer)
    requires Integrity(w) && Progressing(w)
    ensures Enabled(w, Mover(w)) && (w.worker.Flying? ==> Enabled(w, Land(false)))
  {
    hide Sound;
  }

  /**
   In every run the ready list, the residents and the capacity stay in step, no expectation of the worker
   fails, and an unfinished flush is never left waiting on a worker that nothing will move.
   */
  lemma QueueIntegrityAndWakeups(w: Writer, es: seq<Event>, f: nat)
    requires Initial(w) && Legal(w, es)
    ensures var w' := After(w, es);
            && Sound(w'.queue, w'.capacity, FlyingKey(w'.worker)) && !w'.worker.Crashed?
            && WorkerAwake(w')
            && (f in w'.flushers && w'.flushers[f].Asleep? ==>
                  if Complete(w'.queue, w'.flushers[f].watermark)
                  then w'.flushers[f].epoch < w'.epoch || w'.worker.Landed?
                  else Progressing(w'))
  {
    IntegrityRun(w, es);
    AwakeRun(w, es);
    var w' := After(w, es);
    if f in w'.flushers && !Complete(w'.queue, w'.flushers[f].watermark) {
      IncompleteProgresses(w', w'.flushers[f].watermark);
    }
    hide Complete, Legal, Sound;
  }

  lemma IncompleteProgresses(w: Writer, watermark: nat)
    requires Integrity(w) && Awake(w) && !Complete(w.queue, watermark)
    ensures Progressing(w)
  {
    var k :| k in w.queue.byKey && !EntryPast(w.queue.byKey[k], watermark);
    var e := w.queue.byKey[k];
    assert EntrySound(e, w.queue.acceptedThrough, FlyingKey(w.worker) == Some(k));
    if e.inFlight.None? {
      assert Ready(e);
      assert k in w.queue.ready;
    }
  }

  // ---------- The flush guarantee ----------

  predicate Covers(a: Attempt, o: Observation, sequence: nat) {
    a.key == o.key && a.at >= o.at && a.through >= sequence
  }

  /** A finished attempt, made after the acceptance, carried a stamp at least as new. */
  ghost predicate Attempted(w: Writer, i: nat)
    requires i < |w.accepted|
  {
    exists j :: 0 <= j < |w.attempts| && Covers(w.attempts[j], w.accepted[i], i + 1)
  }

  predicate Carried(worker: Worker, o: Observation, sequence: nat) {
    && worker.Flying? && worker.key == o.key && worker.at >= o.at
    && worker.sequence <= sequence <= worker.through
  }

  predicate Waiting(q: Queue, o: Observation, sequence: nat) {
    && o.key in q.byKey && q.byKey[o.key].latest >= o.at
    && q.byKey[o.key].pending.Some? && q.byKey[o.key].pending.value <= sequence
  }

  /** Every accepted observation has been attempted, is being attempted, or waits with a stamp at least as new. */
  ghost predicate Accounted(w: Writer) {
    forall i :: 0 <= i < |w.accepted| ==>
      Attempted(w, i) || Carried(w.worker, w.accepted[i], i + 1) || Waiting(w.queue, w.accepted[i], i + 1)
  }

  lemma AttemptedGrows(w: Writer, w': Writer, i: nat)
    requires i < |w.accepted| && w.accepted <= w'.accepted && w.attempts <= w'.attempts && Attempted(w, i)
    ensures Attempted(w', i)
  {
    var j :| 0 <= j < |w.attempts| && Covers(w.attempts[j], w.accepted[i], i + 1);
    assert w'.attempts[j] == w.attempts[j];
  }

  lemma AccountedRecord(w: Writer, key: Key, at: Stamp)
    requires Integrity(w) && Accounted(w)
    ensures Accounted(RecordAfter(w, key, at))
  {
    var w' := RecordAfter(w, key, at);
    forall i | 0 <= i < |w'.accepted|
      ensures Attempted(w', i) || Carried(w'.worker, w'.accepted[i], i + 1) || Waiting(w'.queue, w'.accepted[i], i + 1)
    {
      if i < |w.accepted| {
        assert w'.accepted[i] == w.accepted[i];
        if Attempted(w, i) {
          AttemptedGrows(w, w', i);
        }
      } else if key in w.queue.byKey {
        assert EntrySound(w.queue.byKey[key], w.queue.acceptedThrough, FlyingKey(w.worker) == Some(key));
      }
    }
  }

  lemma AccountedPop(w: Writer)
    requires Integrity(w) && Accounted(w) && w.worker.Draining?
    ensures Accounted(PopAfter(w))
  {
    var w' := PopAfter(w);
    forall i | 0 <= i < |w'.accepted|
      ensures Attempted(w', i) || Carried(w'.worker, w'.accepted[i], i + 1) || Waiting(w'.queue, w'.accepted[i], i + 1)
    {
      if Attempted(w, i) {
        AttemptedGrows(w, w', i);
      }
    }
  }

  lemma AccountedLand(w: Writer, ok: bool)
    requires Integrity(w) && Accounted(w) && w.worker.Flying?
    ensures Accounted(LandAfter(w, ok))
  {
    var w' := LandAfter(w, ok);
    forall i | 0 <= i < |w'.accepted|
      ensures Attempted(w', i) || Carried(w'.worker, w'.accepted[i], i + 1) || Waiting(w'.queue, w'.accepted[i], i + 1)
    {
      if Attempted(w, i) {
        AttemptedGrows(w, w', i);
      } else if Carried(w.worker, w.accepted[i], i + 1) {
        assert Covers(w'.attempts[|w.attempts|], w.accepted[i], i + 1);
      }
    }
  }

  lemma AccountedStep(w: Writer, e: Event)
    requires Integrity(w) && Accounted(w) && Enabled(w, e)
    ensures Accounted(Next(w, e))
  {
    match e {
      case Record(key, at) =>
        AccountedRecord(w, key, at);
        hide RecordAfter, Accounted;
      case PopNext =>
        AccountedPop(w);
        hide PopAfter, Accounted;
      case Land(ok) =>
        AccountedLand(w, ok);
        hide LandAfter, Accounted;
      case _ =>
        var w' := Next(w, e);
        forall i | 0 <= i < |w'.accepted| && Attempted(w, i) ensures Attempted(w', i) {
          AttemptedGrows(w, w', i);
        }
    }
  }

  /** A flush that returned had every observation up to its watermark attempted. */
  ghost predicate FlushesHold(w: Writer) {
    forall f, i :: f in w.flushers && w.flushers[f].Flushed? && 0 <= i < w.flushers[f].watermark && i < |w.accepted| ==>
      Attempted(w, i)
  }

  /** A complete watermark leaves no earlier observation merely carried or waiting. */
  lemma CompleteMeansAttempted(w: Writer, watermark: nat, i: nat)
    requires Integrity(w) && Accounted(w) && Complete(w.queue, watermark) && i < watermark && i < |w.accepted|
    ensures Attempted(w, i)
  {
    var key := w.accepted[i].key;
    assert key in w.queue.byKey ==> EntryPast(w.queue.byKey[key], watermark);
  }

  /** Histories only grow, and a flush ends only by seeing its watermark complete. */
  lemma FlushEnds(w: Writer, e: Event)
    requires Integrity(w) && Enabled(w, e)
    ensures w.accepted <= Next(w, e).accepted && w.attempts <= Next(w, e).attempts
    ensures var w' := Next(w, e);
            forall f :: f in w'.flushers && w'.flushers[f].Flushed? ==>
              && f in w.flushers && w.flushers[f].watermark == w'.flushers[f].watermark <= |w.accepted|
              && (w.flushers[f].Flushed? || (Complete(w.queue, w.flushers[f].watermark) && w'.accepted == w.accepted))
  {
    hide Complete, Recorded, Popped, Completed, Sound;
  }

  lemma FlushesHoldStep(w: Writer, e: Event)
    requires Integrity(w) && Accounted(w) && FlushesHold(w) && Enabled(w, e)
    ensures FlushesHold(Next(w, e))
  {
    var w' := Next(w, e);
    FlushEnds(w, e);
    hide Next, Integrity, Accounted, Complete;
    forall f, i | f in w'.flushers && w'.flushers[f].Flushed? && 0 <= i < w'.flushers[f].watermark && i < |w'.accepted|
      ensures Attempted(w', i)
    {
      if f in w.flushers && w.flushers[f].Flushed? {
        AttemptedGrows(w, w', i);
      } else {
        CompleteMeansAttempted(w, w.flushers[f].watermark, i);
        AttemptedGrows(w, w', i);
      }
    }
  }

  lemma {:induction false} FlushesHoldRun(w: Writer, es: seq<Event>)
    requires Integrity(w) && Accounted(w) && FlushesHold(w) && Legal(w, es)
    ensures Accounted(After(w, es)) && FlushesHold(After(w, es))
  {
    if es != [] {
      var front := es[..|es| - 1];
      FlushesHoldRun(w, front);
      IntegrityRun(w, front);
      AccountedStep(After(w, front), es[|es| - 1]);
      FlushesHoldStep(After(w, front), es[|es| - 1]);
      hide Integrity, Accounted, FlushesHold, Enabled, Next;
    }
  }

  lemma WatermarkStep(w: Writer, e: Event, f: nat)
    requires Enabled(w, e) && f in w.flushers
    ensures f in Next(w, e).flushers && Next(w, e).flushers[f].watermark == w.flushers[f].watermark
  {
    hide Recorded, Popped, Completed, Complete;
  }

  lemma {:induction false} WatermarkKept(w: Writer, es: seq<Event>, f: nat)
    requires Legal(w, es) && f in w.flushers
    ensures f in After(w, es).flushers && After(w, es).flushers[f].watermark == w.flushers[f].watermark
  {
    if es != [] {
      WatermarkKept(w, es[..|es| - 1], f);
      WatermarkStep(After(w, es[..|es| - 1]), es[|es| - 1], f);
      hide Enabled, Next;
    }
  }

  /** A flush waits for exactly what had been accepted when it was called. */
  lemma WatermarkIsStart(w: Writer, before: seq<Event>, f: nat, es: seq<Event>)
    requires Initial(w) && Legal(w, before) && Enabled(After(w, before), FlushStart(f))
    requires Legal(Next(After(w, before), FlushStart(f)), es)
    ensures var w' := After(Next(After(w, before), FlushStart(f)), es);
            f in w'.flushers && w'.flushers[f].watermark == |After(w, before).accepted|
  {
    IntegrityRun(w, before);
    WatermarkKept(Next(After(w, before), FlushStart(f)), es, f);
    hide Legal;
  }

  /**
   In every run, when a flush has returned, each observation accepted before it was called was covered by a
   finished attempt on its route with a stamp at least as new, started after the acceptance.
   */
  lemma FlushGuarantee(w: Writer, before: seq<Event>, f: nat, es: seq<Event>, i: nat)
    requires Initial(w) && Legal(w, before) && Enabled(After(w, before), FlushStart(f))
    requires Legal(Next(After(w, before), FlushStart(f)), es)
    requires var w' := After(Next(After(w, before), FlushStart(f)), es);
             f in w'.flushers && w'.flushers[f].Flushed? && i < |After(w, before).accepted|
    ensures var w' := After(Next(After(w, before), FlushStart(f)), es);
            i < |w'.accepted| && w'.accepted[i] == After(w, before).accepted[i] && Attempted(w', i)
  {
    var now := After(w, before);
    var called := Next(now, FlushStart(f));
    assert called.accepted == now.accepted;
    assert Integrity(w) && Accounted(w) && FlushesHold(w);
    hide Legal, After, Next, Accounted, Enabled, Integrity, Attempted;
    IntegrityRun(w, before);
    FlushesHoldRun(w, before);
    IntegrityStep(now, FlushStart(f));
    AccountedStep(now, FlushStart(f));
    FlushesHoldStep(now, FlushStart(f));
    IntegrityRun(called, es);
    FlushesHoldRun(called, es);
    WatermarkIsStart(w, before, f, es);
    AcceptedGrow(called, es);
  }

  lemma {:induction false} AcceptedGrow(w: Writer, es: seq<Event>)
    requires Integrity(w) && Legal(w, es)
    ensures w.accepted <= After(w, es).accepted && w.attempts <= After(w, es).attempts
  {
    if es != [] {
      var front := es[..|es| - 1];
      AcceptedGrow(w, front);
      IntegrityRun(w, front);
      FlushEnds(After(w, front), es[|es| - 1]);
      hide Integrity, Enabled, Next;
    }
  }

  // ---------- Nothing else is written ----------

  /** What the queue and the worker hold for a route is a stamp that was accepted for it. */
  ghost predicate WasAccepted(w: Writer, key: Key, at: Stamp) {
    Observation(key, at) in w.accepted
  }

  ghost predicate Honest(w: Writer) {
    && (forall k :: k in w.queue.byKey ==> WasAccepted(w, k, w.queue.byKey[k].latest))
    && (w.worker.Flying? ==> WasAccepted(w, w.worker.key, w.worker.at))
    && (forall j :: 0 <= j < |w.attempts| ==> WasAccepted(w, w.attempts[j].key, w.attempts[j].at))
  }

  lemma HonestStep(w: Writer, e: Event)
    requires Honest(w) && Enabled(w, e)
    ensures Honest(Next(w, e))
  {
    var w' := Next(w, e);
    assert forall o :: o in w.accepted ==> o in w'.accepted;
    if e.Record? && Admits(w.queue, w.capacity, e.key).Accepted? {
      assert w'.accepted[|w.accepted|] == Observation(e.key, e.at);
    }
    hide Complete, FlusherAfter;
  }

  /** Every attempt carries a stamp that some observation accepted for its route had. */
  lemma {:induction false} AttemptsWereObserved(w: Writer, es: seq<Event>)
    requires Initial(w) && Legal(w, es)
    ensures Honest(After(w, es))
  {
    if es != [] {
      AttemptsWereObserved(w, es[..|es| - 1]);
      HonestStep(After(w, es[..|es| - 1]), es[|es| - 1]);
      hide Honest, Enabled, Next;
    }
  }

  function Records(es: seq<Event>): seq<Observation> {
    if es == [] then []
    else Records(es[..|es| - 1]) + if es[|es| - 1].Record? then [Observation(es[|es| - 1].key, es[|es| - 1].at)] else []
  }

  /**
   While sequence numbers last, each recorded observation is accepted or counted as dropped, and what was
   accepted was recorded.
   */
  lemma {:induction false} RecordsAccounted(w: Writer, es: seq<Event>)
    requires Initial(w) && Legal(w, es)
    ensures var w' := After(w, es);
            && |w'.accepted| + w'.dropped <= |Records(es)| && (forall o :: o in w'.accepted ==> o in Records(es))
            && (|w'.accepted| < U64_MAX ==> |w'.accepted| + w'.dropped == |Records(es)|)
  {
    if es != [] {
      var front := es[..|es| - 1];
      RecordsAccounted(w, front);
      IntegrityRun(w, front);
      RecordCounts(After(w, front), es[|es| - 1]);
      hide Integrity, Enabled, Next;
    }
  }

  lemma RecordCounts(w: Writer, e: Event)
    requires Integrity(w) && Enabled(w, e)
    ensures var w' := Next(w, e);
            if e.Record?
            then || (w'.accepted == w.accepted + [Observation(e.key, e.at)] && w'.dropped == w.dropped)
                 || (w'.accepted == w.accepted && w'.dropped == w.dropped + 1 && |w.queue.byKey| == w.capacity)
                 || (w'.accepted == w.accepted && w'.dropped == w.dropped && |w.accepted| >= U64_MAX)
            else w'.accepted == w.accepted && w'.dropped == w.dropped
  {
    hide Recorded, Popped, Completed, Complete, FlusherAfter;
  }

  /** Errors count the attempts that failed. */
  lemma {:induction false} ErrorsCountFailures(w: Writer, es: seq<Event>)
    requires Initial(w) && Legal(w, es)
    ensures After(w, es).errors == Failures(After(w, es).attempts)
  {
    if es != [] {
      ErrorsCountFailures(w, es[..|es| - 1]);
      ErrorsStep(After(w, es[..|es| - 1]), es[|es| - 1]);
      hide Enabled, Next;
    }
  }

  function Failures(attempts: seq<Attempt>): nat {
    if attempts == [] then 0
    else Failures(attempts[..|attempts| - 1]) + if attempts[|attempts| - 1].ok then 0 else 1
  }

  lemma ErrorsStep(w: Writer, e: Event)
    requires Enabled(w, e) && w.errors == Failures(w.attempts)
    ensures Next(w, e).errors == Failures(Next(w, e).attempts)
  {
    AttemptsStep(w, e);
    hide Next;
    if e.Land? {
      assert Next(w, e).attempts[..|w.attempts|] == w.attempts;
    }
  }

  /** Only a landing adds an attempt, and only a failed one an error. */
  lemma AttemptsStep(w: Writer, e: Event)
    requires Enabled(w, e)
    ensures var w' := Next(w, e);
            if e.Land?
            then && w'.attempts == w.attempts + [Attempt(w.worker.key, w.worker.at, w.worker.through, e.ok)]
                 && w'.errors == w.errors + (if e.ok then 0 else 1)
            else w'.attempts == w.attempts && w'.errors == w.errors
  {
    hide Recorded, Popped, Completed, Complete, FlusherAfter, Admits, Head;
  }
}
