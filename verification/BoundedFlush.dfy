/** How many attempts a flush can be kept waiting for, whatever is recorded meanwhile. */
module BoundedFlush {
  import opened Routes
  import opened PendingActivities
  import opened ActivityWriter

  /** One more than the last place in the ready list holding a route still owed to the watermark. */
  function LastOwed(ready: seq<Key>, byKey: map<Key, Entry>, watermark: nat): (n: nat)
    ensures n <= |ready|
  {
    if ready == [] then 0
    else
      var key := ready[|ready| - 1];
      if key in byKey && !Past(byKey[key].pending, watermark) then |ready|
      else LastOwed(ready[..|ready| - 1], byKey, watermark)
  }

  /** Attempts still to land before the watermark is complete. */
  function Rank(w: Writer, watermark: nat): nat {
    var owed := LastOwed(w.queue.ready, w.queue.byKey, watermark);
    if !w.worker.Flying? || w.worker.key !in w.queue.byKey then owed
    else
      var e := w.queue.byKey[w.worker.key];
      if !Past(e.pending, watermark) then w.capacity + 1
      else if owed > 0 then owed + 1
      else if !Past(e.inFlight, watermark) then 1
      else 0
  }

  lemma {:induction false} NoDuplicatesSize(s: seq<Key>)
    requires NoDuplicates(s)
    ensures |set k | k in s| == |s|
  {
    if s != [] {
      var front := s[..|s| - 1];
      NoDuplicatesSize(front);
      assert s == front + [s[|s| - 1]];
      assert (set k | k in s) == (set k | k in front) + {s[|s| - 1]};
      assert s[|s| - 1] !in front;
    }
  }

  lemma SubsetSize(a: set<Key>, b: set<Key>)
    requires a <= b
    ensures |a| <= |b|
  {
    assert b == a + (b - a);
  }

  /** The ready list is no longer than the capacity, and one shorter while a route is in flight. */
  lemma ReadyFits(q: Queue, capacity: nat, flying: Option<Key>)
    requires Sound(q, capacity, flying)
    ensures |q.ready| + (if flying.Some? then 1 else 0) <= capacity
  {
    NoDuplicatesSize(q.ready);
    var listed := set k | k in q.ready;
    if flying.Some? {
      assert EntrySound(q.byKey[flying.value], q.acceptedThrough, true);
      assert flying.value !in q.ready;
      SubsetSize(listed + {flying.value}, q.byKey.Keys);
    } else {
      SubsetSize(listed, q.byKey.Keys);
    }
  }

  lemma {:induction false} LastOwedZero(ready: seq<Key>, byKey: map<Key, Entry>, watermark: nat)
    ensures LastOwed(ready, byKey, watermark) == 0 <==>
            forall k :: k in ready && k in byKey ==> Past(byKey[k].pending, watermark)
  {
    if ready != [] {
      LastOwedZero(ready[..|ready| - 1], byKey, watermark);
      assert ready == ready[..|ready| - 1] + [ready[|ready| - 1]];
    }
  }

  lemma RankZeroIsComplete(w: Writer, watermark: nat)
    requires Integrity(w) && Rank(w, watermark) == 0
    ensures Complete(w.queue, watermark)
  {
    var q := w.queue;
    LastOwedZero(q.ready, q.byKey, watermark);
    forall k | k in q.byKey ensures EntryPast(q.byKey[k], watermark) {
      assert EntrySound(q.byKey[k], q.acceptedThrough, FlyingKey(w.worker) == Some(k));
      if FlyingKey(w.worker) != Some(k) {
        assert Ready(q.byKey[k]);
      }
    }
  }

  lemma RankZero(w: Writer, watermark: nat)
    requires Integrity(w)
    ensures Rank(w, watermark) == 0 <==> Complete(w.queue, watermark)
    ensures Rank(w, watermark) <= w.capacity + 1
  {
    var q := w.queue;
    ReadyFits(q, w.capacity, FlyingKey(w.worker));
    if Complete(q, watermark) {
      assert w.worker.Flying? ==> EntryPast(q.byKey[w.worker.key], watermark);
      assert forall k :: k in q.ready && k in q.byKey ==> EntryPast(q.byKey[k], watermark);
      LastOwedZero(q.ready, q.byKey, watermark);
    } else if Rank(w, watermark) == 0 {
      RankZeroIsComplete(w, watermark);
    }
    hide LastOwed, Sound;
  }

  /** Routes whose standing with the watermark did not change keep their place. */
  lemma {:induction false} LastOwedSame(ready: seq<Key>, byKey: map<Key, Entry>, byKey': map<Key, Entry>, watermark: nat)
    requires forall k :: k in ready ==>
               (k in byKey && !Past(byKey[k].pending, watermark) <==> k in byKey' && !Past(byKey'[k].pending, watermark))
    ensures LastOwed(ready, byKey, watermark) == LastOwed(ready, byKey', watermark)
  {
    if ready != [] {
      assert ready[|ready| - 1] in ready;
      LastOwedSame(ready[..|ready| - 1], byKey, byKey', watermark);
    }
  }

  lemma {:induction false} LastOwedTail(ready: seq<Key>, byKey: map<Key, Entry>, watermark: nat)
    requires ready != []
    ensures var owed := LastOwed(ready, byKey, watermark);
            var key := ready[0];
            && LastOwed(ready[1..], byKey, watermark) == (if owed == 0 then 0 else owed - 1)
            && (owed == 0 ==> !(key in byKey && !Past(byKey[key].pending, watermark)))
            && (owed == 1 ==> key in byKey && !Past(byKey[key].pending, watermark))
  {
    if |ready| > 1 {
      var front := ready[..|ready| - 1];
      LastOwedTail(front, byKey, watermark);
      assert front[1..] == ready[1..][..|ready| - 2];
      assert ready[1..][|ready| - 2] == ready[|ready| - 1];
    }
  }

  lemma LastOwedAppend(ready: seq<Key>, byKey: map<Key, Entry>, watermark: nat, key: Key)
    ensures LastOwed(ready + [key], byKey, watermark) ==
            if key in byKey && !Past(byKey[key].pending, watermark) then |ready| + 1
            else LastOwed(ready, byKey, watermark)
  {
    assert (ready + [key])[..|ready|] == ready;
  }

  lemma RankCoalesce(w: Writer, key: Key, at: Stamp, watermark: nat)
    requires Integrity(w) && watermark <= w.queue.acceptedThrough && key in w.queue.byKey
    ensures Rank(RecordAfter(w, key, at), watermark) == Rank(w, watermark)
  {
    var q, q' := w.queue, Recorded(w.queue, w.capacity, key, at);
    assert q'.ready == q.ready;
    assert Past(q.byKey[key].pending, watermark) <==> Past(q'.byKey[key].pending, watermark);
    assert q'.byKey[key].inFlight == q.byKey[key].inFlight;
    assert forall k :: k in q.byKey <==> k in q'.byKey;
    assert forall k :: k in q.byKey && k != key ==> q'.byKey[k] == q.byKey[k];
    hide Sound, Recorded, Past;
    LastOwedSame(q.ready, q.byKey, q'.byKey, watermark);
    hide LastOwed;
  }

  lemma RankEnqueue(w: Writer, key: Key, at: Stamp, watermark: nat)
    requires Integrity(w) && watermark <= w.queue.acceptedThrough && key !in w.queue.byKey
    ensures Rank(RecordAfter(w, key, at), watermark) == Rank(w, watermark)
  {
    var q, q' := w.queue, Recorded(w.queue, w.capacity, key, at);
    if q' != q {
      assert key !in q.ready;
      assert Past(q'.byKey[key].pending, watermark);
      LastOwedSame(q.ready, q.byKey, q'.byKey, watermark);
      LastOwedAppend(q.ready, q'.byKey, watermark, key);
      hide LastOwed, Sound, Past;
    }
  }

  lemma RankRecord(w: Writer, key: Key, at: Stamp, watermark: nat)
    requires Integrity(w) && watermark <= w.queue.acceptedThrough
    ensures Rank(RecordAfter(w, key, at), watermark) == Rank(w, watermark)
  {
    if key in w.queue.byKey {
      RankCoalesce(w, key, at, watermark);
    } else {
      RankEnqueue(w, key, at, watermark);
    }
  }

  lemma RankPop(w: Writer, watermark: nat)
    requires Integrity(w) && w.worker.Draining?
    ensures Rank(PopAfter(w), watermark) == Rank(w, watermark)
  {
    var q, w' := w.queue, PopAfter(w);
    HeadNeverBroken(q, w.capacity, None);
    if Head(q).Taken? {
      var key := q.ready[0];
      var q' := w'.queue;
      LastOwedTail(q.ready, q.byKey, watermark);
      assert key !in q.ready[1..];
      LastOwedSame(q.ready[1..], q.byKey, q'.byKey, watermark);
      hide LastOwed, Sound;
    }
  }

  lemma RankLand(w: Writer, ok: bool, watermark: nat)
    requires Integrity(w) && w.worker.Flying?
    ensures var r := Rank(w, watermark);
            Rank(LandAfter(w, ok), watermark) <= if r == 0 then 0 else r - 1
  {
    var q, key := w.queue, w.worker.key;
    var q' := Completed(q, key);
    ReadyFits(q, w.capacity, Some(key));
    assert EntrySound(q.byKey[key], q.acceptedThrough, true);
    assert key !in q.ready;
    LastOwedSame(q.ready, q.byKey, q'.byKey, watermark);
    LastOwedAppend(q.ready, q'.byKey, watermark, key);
    hide LastOwed, Sound;
  }

  lemma RankStep(w: Writer, e: Event, watermark: nat)
    requires Integrity(w) && Enabled(w, e) && watermark <= w.queue.acceptedThrough
    ensures var r, r' := Rank(w, watermark), Rank(Next(w, e), watermark);
            r' <= if e.Land? && r > 0 then r - 1 else r
  {
    match e {
      case Record(key, at) =>
        RankRecord(w, key, at, watermark);
        hide Rank, RecordAfter;
      case PopNext =>
        RankPop(w, watermark);
        hide Rank, PopAfter;
      case Land(ok) =>
        RankLand(w, ok, watermark);
        hide Rank, LandAfter;
      case _ =>
        hide LastOwed;
    }
  }

  function Landings(es: seq<Event>): nat {
    if es == [] then 0 else Landings(es[..|es| - 1]) + if es[|es| - 1].Land? then 1 else 0
  }

  lemma {:induction false} RankRun(w: Writer, es: seq<Event>, watermark: nat)
    requires Integrity(w) && Legal(w, es) && watermark <= w.queue.acceptedThrough
    ensures watermark <= After(w, es).queue.acceptedThrough
    ensures Rank(After(w, es), watermark) == 0 || Rank(After(w, es), watermark) + Landings(es) <= Rank(w, watermark)
  {
    if es != [] {
      var front := es[..|es| - 1];
      RankRun(w, front, watermark);
      IntegrityRun(w, front);
      RankStep(After(w, front), es[|es| - 1], watermark);
      AcceptedGrows(After(w, front), es[|es| - 1]);
      hide Rank, Integrity, Enabled, Next;
    }
  }

  lemma AcceptedGrows(w: Writer, e: Event)
    requires Enabled(w, e)
    ensures w.queue.acceptedThrough <= Next(w, e).queue.acceptedThrough
  {
  }

  /**
   From any state of any run in which the watermark has been read: after at most capacity plus one landed
   attempts, successful or not and under any stream of new observations, the flush condition holds, and once
   it holds it holds for good.
   */
  lemma FlushIsBounded(w: Writer, before: seq<Event>, es: seq<Event>, watermark: nat)
    requires Initial(w) && Legal(w, before) && watermark <= After(w, before).queue.acceptedThrough
    requires Legal(After(w, before), es)
    ensures Landings(es) >= w.capacity + 1 || Complete(After(w, before).queue, watermark) ==>
              Complete(After(After(w, before), es).queue, watermark)
  {
    IntegrityRun(w, before);
    CapacityKept(w, before);
    var now := After(w, before);
    IntegrityRun(now, es);
    RankRun(now, es, watermark);
    RankZero(now, watermark);
    RankZero(After(now, es), watermark);
    hide Legal, Rank, Complete, Integrity;
  }

  lemma {:induction false} CapacityKept(w: Writer, es: seq<Event>)
    requires Legal(w, es)
    ensures After(w, es).capacity == w.capacity
  {
    if es != [] {
      CapacityKept(w, es[..|es| - 1]);
    }
  }
}
