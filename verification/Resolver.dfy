/**
 The custom-error resolver's one-entry cache: a worker fills it, attempts lease it, and a leased entry
 outlives its expiry. The class is the code under the cache's lock; the machine interleaves it with the
 worker, any number of attempts, cancellation and the clock. Generations wrap at 64 bits.

 `installs` is history: every entry ever installed, in order; an entry's serial is its place there.
 */
module Resolver {
  import opened Routes

  const U64_MODULUS: nat := 0x1_0000_0000_0000_0000

  datatype Cached = Cached(addresses: seq<string>, generation: nat, expiresAt: int, serial: nat)

  datatype Cache = Cache(current: Option<Cached>, generation: nat, leased: Option<nat>)

  predicate Expired(c: Cache, now: int) {
    && c.current.Some? && c.current.value.expiresAt <= now
    && c.leased != Some(c.current.value.generation)
  }

  function Freshened(c: Cache, now: int): Cache {
    if Expired(c, now) then c.(current := None) else c
  }

  predicate Leasable(c: Cache, generation: nat) {
    c.current.Some? && c.current.value.generation == generation && c.leased == None
  }

  function LeaseEnded(c: Cache, generation: nat, succeeded: bool): Cache {
    var freed := if c.leased == Some(generation) then c.(leased := None) else c;
    if !succeeded && freed.current.Some? && freed.current.value.generation == generation then freed.(current := None)
    else freed
  }

  function Installed(c: Cache, addresses: seq<string>, expiresAt: int, serial: nat): Cache {
    var generation := (c.generation + 1) % U64_MODULUS;
    c.(generation := generation, current := Some(Cached(addresses, generation, expiresAt, serial)))
  }

  class ResolverCache {
    var current: Option<Cached>
    var generation: nat
    var leased: Option<nat>

    ghost function View(): Cache
      reads this
    {
      Cache(current, generation, leased)
    }

    constructor ()
      ensures View() == Cache(None, 0, None)
    {
      current, generation, leased := None, 0, None;
    }

    method Fresh(now: int) returns (cached: Option<Cached>)
      modifies this`current
      ensures View() == Freshened(old(View()), now) && cached == current
      ensures cached == if old(current).Some? && (now < old(current).value.expiresAt || leased == Some(old(current).value.generation))
                        then old(current) else None
    {
      if current.Some? && current.value.expiresAt <= now && leased != Some(current.value.generation) {
        current := None;
      }
      cached := current;
    }

    method Lease(wanted: nat) returns (granted: bool)
      modifies this`leased
      ensures granted <==> Leasable(old(View()), wanted)
      ensures View() == if granted then old(View()).(leased := Some(wanted)) else old(View())
    {
      granted := current.Some? && current.value.generation == wanted && leased == None;
      if granted {
        leased := Some(wanted);
      }
    }

    method FinishLease(held: nat, succeeded: bool)
      modifies this`current, this`leased
      ensures View() == LeaseEnded(old(View()), held, succeeded)
    {
      if leased == Some(held) {
        leased := None;
      }
      if !succeeded && current.Some? && current.value.generation == held {
        current := None;
      }
    }

    method Install(addresses: seq<string>, expiresAt: int, serial: nat) returns (cached: Cached)
      requires generation < U64_MODULUS
      modifies this`current, this`generation
      ensures View() == Installed(old(View()), addresses, expiresAt, serial) && current == Some(cached)
      ensures cached == Cached(addresses, generation, expiresAt, serial)
      ensures generation == if old(generation) + 1 == U64_MODULUS then 0 else old(generation) + 1
    {
      generation := (generation + 1) % U64_MODULUS;
      cached := Cached(addresses, generation, expiresAt, serial);
      current := Some(cached);
    }
  }

  // ---------- The machine ----------

  datatype Worker = Idle | Looking | Serving(generation: nat)

  datatype Attempt =
    | Starting
    | Requested                                 // its request is with the worker
    | Answered(generation: nat)                 // the worker's answer is in, the lease not yet tried
    | Holding(generation: nat, serial: nat)
    | Over

  datatype State = State(
    cache: Cache, now: int, worker: Worker, attempts: map<nat, Attempt>, installs: seq<Cached>)

  predicate Initial(s: State) {
    s.cache == Cache(None, 0, None) && s.worker == Idle && s.attempts == map[] && s.installs == []
  }

  datatype Event =
    | Tick(now: int)
    | Peek                                      // a connection attempt reads the cache
    | WorkerCheck                               // the worker picks up a request and looks in the cache
    | WorkerInstall(addresses: seq<string>, expiresAt: int)
    | WorkerFail                                // lookup failed or found nothing
    | WorkerDone
    | Begin(a: nat)
    | Ensure(a: nat, queued: bool)              // first critical section of ensure_cached
    | Answer(a: nat)
    | TakeLease(a: nat)                         // second critical section
    | Finish(a: nat, succeeded: bool)           // the attempt is dropped, by return or by cancellation
    | Cancel(a: nat)

  predicate Enabled(s: State, e: Event) {
    match e
    case WorkerCheck => s.worker.Idle?
    case WorkerInstall(addresses, _) => s.worker.Looking? && addresses != []
    case WorkerFail => s.worker.Looking?
    case WorkerDone => s.worker.Serving?
    case Begin(a) => a !in s.attempts
    case Ensure(a, _) => a in s.attempts && s.attempts[a].Starting?
    case Answer(a) => a in s.attempts && s.attempts[a].Requested? && s.worker.Serving?
    case TakeLease(a) => a in s.attempts && s.attempts[a].Answered?
    case Finish(a, _) => a in s.attempts && s.attempts[a].Holding?
    case Cancel(a) => a in s.attempts && !s.attempts[a].Holding?
    case _ => true
  }

  function Put(s: State, a: nat, attempt: Attempt): State {
    s.(attempts := s.attempts[a := attempt])
  }

  function Leased(s: State, a: nat, generation: nat): State {
    if Leasable(s.cache, generation)
    then Put(s, a, Holding(generation, s.cache.current.value.serial)).(cache := s.cache.(leased := Some(generation)))
    else Put(s, a, Over)
  }

  function Next(s: State, e: Event): State
    requires Enabled(s, e)
  {
    match e
    case Tick(now) => s.(now := now)
    case Peek => s.(cache := Freshened(s.cache, s.now))
    case WorkerCheck =>
      var cache := Freshened(s.cache, s.now);
      s.(cache := cache, worker := if cache.current.Some? then Serving(cache.current.value.generation) else Looking)
    case WorkerInstall(addresses, expiresAt) =>
      var cache := Installed(s.cache, addresses, expiresAt, |s.installs|);
      s.(cache := cache, worker := Serving(cache.generation), installs := s.installs + [cache.current.value])
    case WorkerFail => s.(worker := Idle)
    case WorkerDone => s.(worker := Idle)
    case Begin(a) => Put(s, a, Starting)
    case Ensure(a, queued) =>
      var looked := s.(cache := Freshened(s.cache, s.now));
      if looked.cache.current.Some? then Leased(looked, a, looked.cache.current.value.generation)
      else Put(looked, a, if queued then Requested else Over)
    case Answer(a) => Put(s, a, Answered(s.worker.generation))
    case TakeLease(a) => Leased(s, a, s.attempts[a].generation)
    case Finish(a, succeeded) =>
      Put(s, a, Over).(cache := LeaseEnded(s.cache, s.attempts[a].generation, succeeded))
    case Cancel(a) => Put(s, a, Over)
  }

  ghost predicate Legal(s: State, es: seq<Event>)
    decreases |es|, 0
  {
    es == [] || (Legal(s, es[..|es| - 1]) && Enabled(After(s, es[..|es| - 1]), es[|es| - 1]))
  }

  ghost function After(s: State, es: seq<Event>): State
    requires Legal(s, es)
    decreases |es|, 1
  {
    if es == [] then s else Next(After(s, es[..|es| - 1]), es[|es| - 1])
  }

  // ---------- What a lease means ----------

  /** A held lease is of the very entry in the cache. */
  predicate Backed(s: State, attempt: Attempt) {
    attempt.Holding? ==>
      && s.cache.leased == Some(attempt.generation)
      && s.cache.current.Some? && s.cache.current.value.generation == attempt.generation
      && s.cache.current.value.serial == attempt.serial
  }

  ghost predicate Leasing(s: State) {
    && (forall a :: a in s.attempts ==> Backed(s, s.attempts[a]))
    && (forall a, b :: a in s.attempts && b in s.attempts && s.attempts[a].Holding? && s.attempts[b].Holding? ==> a == b)
    && (s.cache.leased.Some? ==> exists a :: a in s.attempts && s.attempts[a].Holding?)
    && (s.worker.Looking? ==> s.cache.current == None && s.cache.leased == None)
    && (s.cache.current.Some? ==>
          s.cache.current.value.serial < |s.installs| && s.installs[s.cache.current.value.serial] == s.cache.current.value)
  }

  lemma LeasingStep(s: State, e: Event)
    requires Leasing(s) && Enabled(s, e)
    ensures Leasing(Next(s, e))
  {
    var s' := Next(s, e);
    if s'.cache.leased.Some? {
      if s.cache.leased.Some? {
        var h :| h in s.attempts && s.attempts[h].Holding?;
        assert s'.attempts[h].Holding?;
      } else {
        assert s'.attempts[e.a].Holding?;
      }
    }
  }

  lemma {:induction false} LeasingRun(s: State, es: seq<Event>)
    requires Leasing(s) && Legal(s, es)
    ensures Leasing(After(s, es))
  {
    if es != [] {
      LeasingRun(s, es[..|es| - 1]);
      LeasingStep(After(s, es[..|es| - 1]), es[|es| - 1]);
      hide Leasing, Next, Enabled;
    }
  }

  /**
   In every interleaving, even past expiry and across a wrap of the generation counter: a held lease is of the
   very entry in the cache, no other attempt holds one, and no entry can be installed meanwhile.
   */
  lemma HeldLeaseIsCurrent(s: State, es: seq<Event>, a: nat)
    requires Initial(s) && Legal(s, es) && a in After(s, es).attempts && After(s, es).attempts[a].Holding?
    ensures var s' := After(s, es);
            var held := s'.attempts[a];
            && held.serial < |s'.installs| && s'.cache.current == Some(s'.installs[held.serial])
            && s'.cache.leased == Some(held.generation)
            && Freshened(s'.cache, s'.now) == s'.cache
            && (forall b :: b in s'.attempts && s'.attempts[b].Holding? ==> b == a)
            && forall addresses, expiresAt :: !Enabled(s', WorkerInstall(addresses, expiresAt))
  {
    LeasingRun(s, es);
    assert Backed(After(s, es), After(s, es).attempts[a]);
    hide Legal;
  }

  lemma FinishFrees(s: State, a: nat, succeeded: bool)
    requires Leasing(s) && Enabled(s, Finish(a, succeeded))
    ensures var done := Next(s, Finish(a, succeeded)).cache;
            && done.leased == None
            && s.attempts[a].serial < |s.installs| && s.cache.current == Some(s.installs[s.attempts[a].serial])
            && done.current == if succeeded then s.cache.current else None
  {
    assert Backed(s, s.attempts[a]);
  }

  /** Ending an attempt frees its lease; a failed one evicts the entry it held, a successful one leaves it. */
  lemma FinishEvictsOwnEntry(s: State, es: seq<Event>, a: nat, succeeded: bool)
    requires Initial(s) && Legal(s, es) && Enabled(After(s, es), Finish(a, succeeded))
    ensures var s' := After(s, es);
            var done := Next(s', Finish(a, succeeded)).cache;
            && done.leased == None
            && s'.attempts[a].serial < |s'.installs|
            && s'.cache.current == Some(s'.installs[s'.attempts[a].serial])
            && done.current == if succeeded then s'.cache.current else None
  {
    LeasingRun(s, es);
    hide Legal, After, Leasing, Next;
    FinishFrees(After(s, es), a, succeeded);
  }

  /** What a look at the cache keeps: an entry that has not expired, or that is leased. */
  function Kept(c: Cache, now: int): Option<Cached> {
    if c.current.Some? && (now < c.current.value.expiresAt || c.leased == Some(c.current.value.generation)) then c.current
    else None
  }

  /** Every look at the cache drops exactly an expired entry that is not leased; nothing else on the way does. */
  lemma LooksKeep(s: State, e: Event)
    requires Enabled(s, e) && !e.WorkerInstall? && !e.Finish?
    ensures Next(s, e).cache.current == if e.Peek? || e.WorkerCheck? || e.Ensure? then Kept(s.cache, s.now) else s.cache.current
  {
  }

  /** The worker looks names up exactly when it finds the cache without a usable entry, and is done with either answer. */
  lemma WorkerLooks(s: State, e: Event)
    requires Enabled(s, e)
    ensures Next(s, e).worker ==
            if e.WorkerCheck? then
              (if Kept(s.cache, s.now).Some? then Serving(Kept(s.cache, s.now).value.generation) else Looking)
            else if e.WorkerInstall? then Serving((s.cache.generation + 1) % U64_MODULUS)
            else if e.WorkerFail? || e.WorkerDone? then Idle
            else s.worker
  {
  }

  /** Asking for the cached entry: leased if it is usable and free, refused if it is taken, else queued if there is room. */
  lemma EnsureEnds(s: State, a: nat, queued: bool)
    requires Enabled(s, Ensure(a, queued))
    ensures Next(s, Ensure(a, queued)).attempts[a] ==
            match Kept(s.cache, s.now)
            case Some(entry) => if s.cache.leased == None then Holding(entry.generation, entry.serial) else Over
            case None => if queued then Requested else Over
  {
  }

  /** After an answer, the lease is granted exactly if that generation is still cached and free. */
  lemma AnswerLeases(s: State, a: nat)
    requires Enabled(s, TakeLease(a))
    ensures var wanted := s.attempts[a].generation;
            Next(s, TakeLease(a)).attempts[a] ==
            if s.cache.leased == None && s.cache.current.Some? && s.cache.current.value.generation == wanted
            then Holding(wanted, s.cache.current.value.serial) else Over
  {
  }

  /** Time passes, attempts begin, ask and end, and the worker goes on, whatever else is under way. */
  lemma AlwaysPossible(s: State, a: nat, queued: bool, addresses: seq<string>, at: int)
    ensures Enabled(s, Tick(at)) && Enabled(s, Peek)
    ensures a !in s.attempts ==> Enabled(s, Begin(a))
    ensures a in s.attempts && s.attempts[a].Starting? ==> Enabled(s, Ensure(a, queued))
    ensures a in s.attempts && s.attempts[a].Requested? && s.worker.Serving? ==> Enabled(s, Answer(a))
    ensures a in s.attempts && s.attempts[a].Answered? ==> Enabled(s, TakeLease(a))
    ensures a in s.attempts ==> if s.attempts[a].Holding? then Enabled(s, Finish(a, queued)) else Enabled(s, Cancel(a))
    ensures match s.worker
            case Idle => Enabled(s, WorkerCheck)
            case Looking => Enabled(s, WorkerFail) && (Enabled(s, WorkerInstall(addresses, at)) <==> addresses != [])
            case Serving(_) => Enabled(s, WorkerDone)
  {
  }

  function LastTick(es: seq<Event>, now: int): int {
    if es == [] then now else if es[|es| - 1].Tick? then es[|es| - 1].now else LastTick(es[..|es| - 1], now)
  }

  lemma {:induction false} ClockTells(s: State, es: seq<Event>)
    requires Legal(s, es)
    ensures After(s, es).now == LastTick(es, s.now)
  {
    if es != [] {
      ClockTells(s, es[..|es| - 1]);
    }
  }

  /** An attempt that leases on its first look leases an entry that has not expired. */
  lemma FirstLookLeasesFresh(s: State, a: nat, queued: bool)
    requires Enabled(s, Ensure(a, queued)) && Next(s, Ensure(a, queued)).attempts[a].Holding?
    ensures s.cache.current.Some? && s.now < s.cache.current.value.expiresAt && s.cache.leased == None
    ensures Next(s, Ensure(a, queued)).attempts[a] == Holding(s.cache.current.value.generation, s.cache.current.value.serial)
  {
  }

  /** Entry number `k` of a run is what the worker's lookup number `k` found, and generations count them, wrapping. */
  ghost predicate LookedUp(es: seq<Event>, installs: seq<Cached>, k: nat)
    requires k < |installs|
  {
    && installs[k].serial == k && installs[k].generation == (k + 1) % U64_MODULUS
    && exists i: nat :: i < |es| && es[i] == WorkerInstall(installs[k].addresses, installs[k].expiresAt)
  }

  lemma {:induction false} InstallsAreLookups(s: State, es: seq<Event>)
    requires Initial(s) && Legal(s, es)
    ensures After(s, es).cache.generation == |After(s, es).installs| % U64_MODULUS
    ensures forall k :: 0 <= k < |After(s, es).installs| ==> LookedUp(es, After(s, es).installs, k)
  {
    if es != [] {
      var front, e := es[..|es| - 1], es[|es| - 1];
      InstallsAreLookups(s, front);
      var before, after := After(s, front), After(s, es);
      InstallStep(before, e);
      hide Next, Enabled, Legal;
      forall k | 0 <= k < |after.installs| ensures LookedUp(es, after.installs, k) {
        if k < |before.installs| {
          assert LookedUp(front, before.installs, k);
          var i: nat :| i < |front| && front[i] == WorkerInstall(before.installs[k].addresses, before.installs[k].expiresAt);
          assert es[i] == front[i];
        } else {
          assert es[|es| - 1] == WorkerInstall(after.installs[k].addresses, after.installs[k].expiresAt);
        }
      }
    }
  }

  lemma InstallStep(s: State, e: Event)
    requires Enabled(s, e)
    ensures var s' := Next(s, e);
            if e.WorkerInstall?
            then && s'.cache.generation == (s.cache.generation + 1) % U64_MODULUS
                 && s'.installs == s.installs + [Cached(e.addresses, s'.cache.generation, e.expiresAt, |s.installs|)]
            else s'.installs == s.installs && s'.cache.generation == s.cache.generation
  {
  }

  /** A lease never outlives its holder: with no attempt holding, any generation in the cache can be leased. */
  lemma NoLeaseLeaks(s: State, es: seq<Event>)
    requires Initial(s) && Legal(s, es)
    requires forall a :: a in After(s, es).attempts ==> !After(s, es).attempts[a].Holding?
    ensures var c := After(s, es).cache;
            c.current.Some? ==> Leasable(c, c.current.value.generation)
  {
    LeasingRun(s, es);
    hide Legal;
  }
}
