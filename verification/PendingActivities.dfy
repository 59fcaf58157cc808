/**
 The bounded, coalescing queue of activity observations awaiting persistence: one entry per route,
 a first-in first-out list of the routes that are ready, and acceptance sequence numbers.
 */
module PendingActivities {
  import opened Routes

  const U64_MAX: nat := 0xFFFF_FFFF_FFFF_FFFF

  /** A resident route: its newest stamp and the oldest acceptance not yet popped, and not yet persisted. */
  datatype Entry = Entry(latest: Stamp, pending: Option<nat>, inFlight: Option<nat>)

  datatype Queue = Queue(byKey: map<Key, Entry>, ready: seq<Key>, acceptedThrough: nat)

  const EMPTY := Queue(map[], [], 0)

  datatype Admission = Dropped | Exhausted | Accepted(sequence: nat)

  function Admits(q: Queue, capacity: nat, key: Key): Admission {
    if key !in q.byKey && |q.byKey| >= capacity then Dropped
    else if q.acceptedThrough >= U64_MAX then Exhausted
    else Accepted(q.acceptedThrough + 1)
  }

  function Coalesced(e: Entry, at: Stamp, sequence: nat): Entry {
    e.(latest := Max(e.latest, at), pending := if e.pending.Some? then e.pending else Some(sequence))
  }

  function Recorded(q: Queue, capacity: nat, key: Key, at: Stamp): Queue {
    var admission := Admits(q, capacity, key);
    if !admission.Accepted? then q
    else if key in q.byKey then
      Queue(q.byKey[key := Coalesced(q.byKey[key], at, admission.sequence)], q.ready, admission.sequence)
    else
      Queue(q.byKey[key := Entry(at, Some(admission.sequence), None)], q.ready + [key], admission.sequence)
  }

  /** `Broken` is where the worker's expectations of a ready key would fail. */
  datatype Pop = Nothing | Broken | Taken(key: Key, at: Stamp, sequence: nat)

  function Head(q: Queue): Pop {
    if q.ready == [] then Nothing
    else if q.ready[0] !in q.byKey || q.byKey[q.ready[0]].pending.None? then Broken
    else Taken(q.ready[0], q.byKey[q.ready[0]].latest, q.byKey[q.ready[0]].pending.value)
  }

  function Popped(q: Queue): Queue
    requires Head(q).Taken?
  {
    var key := q.ready[0];
    q.(ready := q.ready[1..],
       byKey := q.byKey[key := q.byKey[key].(pending := None, inFlight := q.byKey[key].pending)])
  }

  function Completed(q: Queue, key: Key): Queue {
    if key in q.byKey && q.byKey[key].pending.Some?
    then q.(byKey := q.byKey[key := q.byKey[key].(inFlight := None)], ready := q.ready + [key])
    else q.(byKey := q.byKey - {key})
  }

  predicate Past(sequence: Option<nat>, watermark: nat) {
    sequence.None? || sequence.value > watermark
  }

  predicate EntryPast(e: Entry, watermark: nat) {
    Past(e.inFlight, watermark) && Past(e.pending, watermark)
  }

  /** The condition a flush waits for. */
  ghost predicate Complete(q: Queue, watermark: nat) {
    forall k :: k in q.byKey ==> EntryPast(q.byKey[k], watermark)
  }

  // ---------- Integrity ----------

  predicate Within(sequence: Option<nat>, through: nat) {
    sequence.Some? ==> 1 <= sequence.value <= through
  }

  predicate Ready(e: Entry) {
    e.pending.Some? && e.inFlight.None?
  }

  predicate EntrySound(e: Entry, through: nat, flying: bool) {
    && (e.pending.Some? || e.inFlight.Some?)
    && (e.inFlight.Some? <==> flying)
    && Within(e.pending, through) && Within(e.inFlight, through)
  }

  /** The ready list holds each resident route that is pending and not in flight, once. */
  ghost predicate Listed(ready: seq<Key>, byKey: map<Key, Entry>) {
    && NoDuplicates(ready)
    && forall k :: k in ready <==> k in byKey && Ready(byKey[k])
  }

  ghost predicate EntriesSound(byKey: map<Key, Entry>, through: nat, flying: Option<Key>) {
    forall k :: k in byKey ==> EntrySound(byKey[k], through, flying == Some(k))
  }

  lemma EntriesMove(byKey: map<Key, Entry>, through: nat, flying: Option<Key>, key: Key, e: Entry, through': nat, flying': Option<Key>)
    requires EntriesSound(byKey, through, flying) && through <= through'
    requires EntrySound(e, through', flying' == Some(key))
    requires forall k :: k != key ==> (flying == Some(k) <==> flying' == Some(k))
    ensures EntriesSound(byKey[key := e], through', flying')
  {
  }

  lemma EntriesDrop(byKey: map<Key, Entry>, through: nat, key: Key)
    requires EntriesSound(byKey, through, Some(key))
    ensures EntriesSound(byKey - {key}, through, None)
  {
  }

  /** The queue is sound, and `flying` is the one route in flight. */
  ghost predicate Sound(q: Queue, capacity: nat, flying: Option<Key>) {
    && Listed(q.ready, q.byKey)
    && EntriesSound(q.byKey, q.acceptedThrough, flying)
    && (flying.Some? ==> flying.value in q.byKey)
    && |q.byKey| <= capacity
  }

  lemma MapSize<V>(m: map<Key, V>, key: Key, v: V)
    ensures |m[key := v]| == |m| + if key in m then 0 else 1
    ensures |m - {key}| == |m| - if key in m then 1 else 0
  {
    assert m[key := v].Keys == m.Keys + {key};
    assert (m - {key}).Keys == m.Keys - {key};
  }

  lemma ListedKept(ready: seq<Key>, byKey: map<Key, Entry>, key: Key, e: Entry)
    requires Listed(ready, byKey) && key in byKey && (Ready(e) <==> Ready(byKey[key]))
    ensures Listed(ready, byKey[key := e])
  {
  }

  lemma ListedAppend(ready: seq<Key>, byKey: map<Key, Entry>, key: Key, e: Entry)
    requires Listed(ready, byKey) && Ready(e) && !(key in byKey && Ready(byKey[key]))
    ensures Listed(ready + [key], byKey[key := e])
  {
  }

  lemma ListedPop(ready: seq<Key>, byKey: map<Key, Entry>, e: Entry)
    requires ready != [] && Listed(ready, byKey) && !Ready(e)
    ensures Listed(ready[1..], byKey[ready[0] := e])
  {
    assert ready == [ready[0]] + ready[1..];
    assert ready[0] !in ready[1..];
  }

  lemma ListedRemove(ready: seq<Key>, byKey: map<Key, Entry>, key: Key)
    requires Listed(ready, byKey) && !(key in byKey && Ready(byKey[key]))
    ensures Listed(ready, byKey - {key})
  {
  }

  lemma RecordSound(q: Queue, capacity: nat, flying: Option<Key>, key: Key, at: Stamp)
    requires Sound(q, capacity, flying)
    ensures Sound(Recorded(q, capacity, key, at), capacity, flying)
  {
    var q' := Recorded(q, capacity, key, at);
    if Admits(q, capacity, key).Accepted? {
      var e := q'.byKey[key];
      MapSize(q.byKey, key, e);
      assert key in q.byKey ==> EntrySound(q.byKey[key], q.acceptedThrough, flying == Some(key));
      EntriesMove(q.byKey, q.acceptedThrough, flying, key, e, q'.acceptedThrough, flying);
      if key in q.byKey {
        ListedKept(q.ready, q.byKey, key, e);
      } else {
        ListedAppend(q.ready, q.byKey, key, e);
      }
      hide Listed, EntriesSound;
    }
  }

  /** A ready key is always resident with a pending acceptance, so the worker's expectations hold. */
  lemma HeadNeverBroken(q: Queue, capacity: nat, flying: Option<Key>)
    requires Sound(q, capacity, flying)
    ensures !Head(q).Broken?
  {
    if q.ready != [] {
      assert q.ready[0] in q.ready;
    }
  }

  lemma PopSound(q: Queue, capacity: nat)
    requires Sound(q, capacity, None) && Head(q).Taken?
    ensures Sound(Popped(q), capacity, Some(Head(q).key))
  {
    var key := q.ready[0];
    var e := q.byKey[key].(pending := None, inFlight := q.byKey[key].pending);
    MapSize(q.byKey, key, e);
    ListedPop(q.ready, q.byKey, e);
    EntriesMove(q.byKey, q.acceptedThrough, None, key, e, q.acceptedThrough, Some(key));
    hide Listed, EntriesSound;
  }

  lemma CompleteSound(q: Queue, capacity: nat, key: Key)
    requires Sound(q, capacity, Some(key))
    ensures Sound(Completed(q, key), capacity, None)
  {
    var e := q.byKey[key].(inFlight := None);
    MapSize(q.byKey, key, e);
    if e.pending.Some? {
      ListedAppend(q.ready, q.byKey, key, e);
      EntriesMove(q.byKey, q.acceptedThrough, Some(key), key, e, q.acceptedThrough, None);
    } else {
      ListedRemove(q.ready, q.byKey, key);
      EntriesDrop(q.byKey, q.acceptedThrough, key);
    }
    hide Listed, EntriesSound;
  }

  // ---------- The code ----------

  class Pending {
    const capacity: nat
    var byKey: map<Key, Entry>
    var ready: seq<Key>
    var acceptedThrough: nat

    ghost function View(): Queue
      reads this
    {
      Queue(byKey, ready, acceptedThrough)
    }

    constructor (pendingCapacity: nat)
      ensures View() == EMPTY && capacity == (if pendingCapacity == 0 then 1 else pendingCapacity)
      ensures Sound(View(), capacity, None)
    {
      capacity := if pendingCapacity == 0 then 1 else pendingCapacity;
      byKey, ready, acceptedThrough := map[], [], 0;
    }

    /** The critical section of `record_at`. */
    method Record(key: Key, at: Stamp) returns (admission: Admission)
      modifies this
      ensures admission == Admits(old(View()), capacity, key)
      ensures View() == Recorded(old(View()), capacity, key, at)
      ensures admission.Dropped? <==> key !in old(byKey) && |old(byKey)| >= capacity
      ensures admission.Accepted? <==> (key in old(byKey) || |old(byKey)| < capacity) && old(acceptedThrough) < U64_MAX
    {
      if !(key in byKey || |byKey| < capacity) {
        return Dropped;
      }
      if acceptedThrough >= U64_MAX {
        return Exhausted;
      }
      acceptedThrough := acceptedThrough + 1;
      var sequence := acceptedThrough;
      if key in byKey {
        var existing := byKey[key];
        existing := existing.(latest := Max(existing.latest, at));
        if existing.pending == None {
          existing := existing.(pending := Some(sequence));
        }
        byKey := byKey[key := existing];
      } else {
        byKey := byKey[key := Entry(at, Some(sequence), None)];
        ready := ready + [key];
      }
      admission := Accepted(sequence);
    }

    /** The worker takes the next ready route; both of its expectations are proved. */
    method PopFront() returns (taken: Pop)
      requires Sound(View(), capacity, None)
      modifies this
      ensures taken == Head(old(View())) && !taken.Broken?
      ensures View() == if taken.Taken? then Popped(old(View())) else old(View())
      ensures Sound(View(), capacity, if taken.Taken? then Some(taken.key) else None)
    {
      HeadNeverBroken(View(), capacity, None);
      if ready == [] {
        return Nothing;
      }
      PopSound(View(), capacity);
      var key := ready[0];
      ready := ready[1..];
      var pending := byKey[key];
      var oldest := pending.pending.value;
      byKey := byKey[key := pending.(pending := None, inFlight := Some(oldest))];
      taken := Taken(key, pending.latest, oldest);
    }

    /** The worker's second critical section, after an attempt on `key`. */
    method Land(key: Key)
      requires Sound(View(), capacity, Some(key))
      modifies this
      ensures View() == Completed(old(View()), key) && Sound(View(), capacity, None)
    {
      CompleteSound(View(), capacity, key);
      var entries := byKey;
      var hasLater := false;
      if key in entries {
        entries := entries[key := entries[key].(inFlight := None)];
        hasLater := entries[key].pending.Some?;
      }
      assert entries - {key} == byKey - {key};
      hide Sound;
      if !hasLater {
        byKey := entries - {key};
      } else {
        byKey := entries;
        ready := ready + [key];
      }
    }

    /** What a flush computes under the lock. */
    method IsComplete(watermark: nat) returns (complete: bool)
      ensures complete <==> Complete(View(), watermark)
    {
      var rest := byKey.Keys;
      complete := true;
      while rest != {}
        invariant rest <= byKey.Keys
        invariant complete <==> forall k :: k in byKey && k !in rest ==> EntryPast(byKey[k], watermark)
        decreases rest
      {
        var k :| k in rest;
        if !EntryPast(byKey[k], watermark) {
          complete := false;
          return;
        }
        rest := rest - {k};
      }
    }
  }
}
