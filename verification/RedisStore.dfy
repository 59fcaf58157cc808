/**
 Route persistence in one Redis hash, with other writers acting before every round trip and any reply
 lost. A script of rounds lists those choices and the deadline checks, so a claim about every script is a
 claim about every schedule; a script that ends is a deadline that has passed.

 `history` and `commits` are history: every value of the hash, after each turn of the other writers and each
 write of this store, and this store's own writes, each with the hash before and after it.
 */
module RedisStore {
  import opened Routes
  import K = RouteKeys

  type Hash = map<string, string>

  /** The JSON codec: text of a record, and the record of a text. */
  datatype Codec = Codec(encode: RouteData -> Option<string>, decode: string -> Option<RouteData>)

  /** An encoded record keeps its stamp. */
  ghost predicate KeepsStamp(codec: Codec) {
    forall d :: codec.encode(d).Some? ==>
      var back := codec.decode(codec.encode(d).value); back.Some? ==> back.value.lastActivity == d.lastActivity
  }

  datatype Error = Backend | Corrupt | Indeterminate
  datatype Result<T> = Ok(value: T) | Err(error: Error)

  /** How a write's reply comes back: as sent, or lost with the write run or not. */
  datatype Reply = Delivered | Lost(ran: bool)

  /** One turn of a transaction loop. `Some(h)` before a round trip is what other writers left behind. */
  datatype Round = Round(
    lateFirst: bool, firstEnv: Option<Hash>, firstOk: bool,
    floor: Option<Stamp>,
    lateRead: bool, readEnv: Option<Hash>, readOk: bool,
    lateWrite: bool, writeEnv: Option<Hash>, reply: Reply, strange: bool, unwatchOk: bool)

  function Or(env: Option<Hash>, h: Hash): Hash {
    if env.Some? then env.value else h
  }

  datatype Loop = Replacing | Stamping | Deleting

  /** The other writers' turns in a round: one before each round trip of the loop. */
  function Turns(loop: Loop, round: Round): seq<Option<Hash>> {
    match loop
    case Replacing => [round.firstEnv, round.writeEnv]
    case Stamping => [round.firstEnv, round.readEnv, round.writeEnv]
    case Deleting => [round.readEnv, round.writeEnv]
  }

  predicate InScript(loop: Loop, rounds: seq<Round>, n: nat, turn: nat) {
    n <= |rounds| && (turn > 0 ==> n < |rounds| && turn <= |Turns(loop, rounds[n])|)
  }

  /** What the other writers alone leave after `n` rounds and so many turns of the next. */
  function Left(loop: Loop, h: Hash, rounds: seq<Round>, n: nat, turn: nat): Hash
    requires InScript(loop, rounds, n, turn)
    decreases n, turn
  {
    if turn > 0 then Or(Turns(loop, rounds[n])[turn - 1], Left(loop, h, rounds, n, turn - 1))
    else if n == 0 then h
    else Left(loop, h, rounds, n - 1, |Turns(loop, rounds[n - 1])|)
  }

  /** Every value the other writers alone give the hash on the way there, one for each turn. */
  function Trail(loop: Loop, h: Hash, rounds: seq<Round>, n: nat, turn: nat): seq<Hash>
    requires InScript(loop, rounds, n, turn)
    decreases n, turn
  {
    if turn > 0 then Trail(loop, h, rounds, n, turn - 1) + [Left(loop, h, rounds, n, turn)]
    else if n == 0 then []
    else Trail(loop, h, rounds, n - 1, |Turns(loop, rounds[n - 1])|)
  }

  /** The hash has been through the other writers' turns up to this one, and through nothing else. */
  ghost predicate Alone(loop: Loop, rounds: seq<Round>, n: nat, turn: nat, past: seq<Hash>, history: seq<Hash>)
    requires past != []
  {
    InScript(loop, rounds, n, turn) && history == past + Trail(loop, Last(past), rounds, n, turn)
  }

  function Last(history: seq<Hash>): Hash
    requires history != []
  {
    history[|history| - 1]
  }

  /** The hash is what the other writers left at some turn: this store wrote nothing at all. */
  ghost predicate OthersOnly(loop: Loop, rounds: seq<Round>, past: seq<Hash>, history: seq<Hash>)
    requires past != []
  {
    exists n, turn :: Alone(loop, rounds, n, turn, past, history)
  }

  /** The one new commit fell at the end of round `n`, on what the other writers had left, and was the last write. */
  ghost predicate CommittedIn(loop: Loop, rounds: seq<Round>, n: nat, past: seq<Hash>, history: seq<Hash>,
                              before: seq<Commit>, after: seq<Commit>)
    requires past != []
  {
    && 0 < n <= |rounds| && |after| == |before| + 1 && after[..|before|] == before
    && after[|before|].before == Left(loop, Last(past), rounds, n, 0)
    && history == past + Trail(loop, Last(past), rounds, n, 0) + [after[|before|].after]
  }

  /** What the hash has been through in a call with this script: other writers' turns, and at most one commit. */
  ghost predicate Accounted(loop: Loop, rounds: seq<Round>, past: seq<Hash>, history: seq<Hash>,
                            before: seq<Commit>, after: seq<Commit>)
    requires past != []
  {
    if after == before then OthersOnly(loop, rounds, past, history)
    else exists n :: CommittedIn(loop, rounds, n, past, history, before, after)
  }

  lemma Starts(loop: Loop, rounds: seq<Round>, past: seq<Hash>)
    requires past != []
    ensures Alone(loop, rounds, 0, 0, past, past) && Left(loop, Last(past), rounds, 0, 0) == Last(past)
  {
    assert past + [] == past;
  }

  /** The other writers' next turn. */
  lemma TurnTaken(loop: Loop, rounds: seq<Round>, n: nat, turn: nat, past: seq<Hash>, history: seq<Hash>, h: Hash)
    requires past != [] && Alone(loop, rounds, n, turn, past, history) && InScript(loop, rounds, n, turn + 1)
    requires h == Or(Turns(loop, rounds[n])[turn], Left(loop, Last(past), rounds, n, turn))
    ensures Alone(loop, rounds, n, turn + 1, past, history + [h])
    ensures h == Left(loop, Last(past), rounds, n, turn + 1)
    ensures turn + 1 == |Turns(loop, rounds[n])| ==>
              Alone(loop, rounds, n + 1, 0, past, history + [h]) && h == Left(loop, Last(past), rounds, n + 1, 0)
  {
  }

  /** One commit on what the other writers have left. */
  lemma CommitTaken(loop: Loop, rounds: seq<Round>, n: nat, past: seq<Hash>, was: seq<Hash>, h: Hash, before: seq<Commit>)
    requires past != [] && 0 < n && Alone(loop, rounds, n, 0, past, was)
    ensures InScript(loop, rounds, n, 0)
    ensures var after := before + [Commit(Left(loop, Last(past), rounds, n, 0), h)];
            CommittedIn(loop, rounds, n, past, was + [h], before, after)
  {
  }

  /** A call that wrote nothing leaves what the other writers left, a call that committed its own change on top. */
  lemma {:induction false} HashAccounted(loop: Loop, rounds: seq<Round>, past: seq<Hash>, history: seq<Hash>,
                                         before: seq<Commit>, after: seq<Commit>)
    requires past != [] && history != [] && Accounted(loop, rounds, past, history, before, after)
    ensures after == before ==>
              exists n, turn :: InScript(loop, rounds, n, turn) && Last(history) == Left(loop, Last(past), rounds, n, turn)
    ensures after != before ==>
              && |after| == |before| + 1 && Last(history) == after[|before|].after
              && exists n :: 0 < n <= |rounds| && after[|before|].before == Left(loop, Last(past), rounds, n, 0)
  {
    if after == before {
      var n, turn :| Alone(loop, rounds, n, turn, past, history);
      TrailEnds(loop, rounds, n, turn, past);
    }
  }

  lemma {:induction false} TrailEnds(loop: Loop, rounds: seq<Round>, n: nat, turn: nat, past: seq<Hash>)
    requires past != [] && InScript(loop, rounds, n, turn)
    ensures Last(past + Trail(loop, Last(past), rounds, n, turn)) == Left(loop, Last(past), rounds, n, turn)
    decreases n, turn
  {
    if turn == 0 && n > 0 {
      TrailEnds(loop, rounds, n - 1, |Turns(loop, rounds[n - 1])|, past);
    }
  }

  /** A round nothing disturbs from its first command on. */
  predicate Calm(round: Round) {
    && !round.lateFirst && round.firstOk && !round.lateRead && round.readOk
    && !round.lateWrite && round.writeEnv == None && round.reply.Delivered? && !round.strange && round.unwatchOk
  }

  /** A record that can be stamped and written back. */
  predicate Writable(codec: Codec, h: Hash, key: Key, at: Stamp) {
    key in h ==> codec.decode(h[key]).Some? && codec.encode(codec.decode(h[key]).value.(lastActivity := at)).Some?
  }

  // ---------- How a round ends a call ----------

  /** A stamp update's round gets as far as what it read. */
  predicate StampReads(round: Round) {
    !round.lateFirst && round.firstOk && !round.lateRead && round.readOk
  }

  /** The round's write was sent, answered, and turned down because the hash changed since the WATCH. */
  predicate StampRetries(codec: Codec, seen: Hash, key: Key, at: Stamp, round: Round) {
    && StampReads(round) && key in seen && Writable(codec, seen, key, at)
    && !round.lateWrite && round.reply.Delivered? && (round.readEnv.Some? || round.writeEnv.Some?)
  }

  /** What a stamp update returns from the round that ends it. */
  predicate StampEnds(codec: Codec, seen: Hash, key: Key, at: Stamp, round: Round, r: Result<()>) {
    && (r == Err(Corrupt) <==> StampReads(round) && !Writable(codec, seen, key, at))
    && (r == Err(Indeterminate) <==>
          StampReads(round) && key in seen && Writable(codec, seen, key, at) && !round.lateWrite && round.reply.Lost?)
    && (r.Ok? <==>
          && StampReads(round) && Writable(codec, seen, key, at) && !round.lateWrite
          && if key in seen then round.reply.Delivered? && round.readEnv.None? && round.writeEnv.None? else round.unwatchOk)
  }

  /** The first `n` rounds were all turned down. */
  ghost predicate StampsRetry(codec: Codec, h: Hash, rounds: seq<Round>, n: nat, key: Key, at: Stamp)
    requires n <= |rounds|
  {
    forall i :: 0 <= i < n ==> StampRetries(codec, Left(Stamping, h, rounds, i, 2), key, at, rounds[i])
  }

  lemma StampsStart(codec: Codec, h: Hash, rounds: seq<Round>, key: Key, at: Stamp)
    ensures StampsRetry(codec, h, rounds, 0, key, at)
  {
  }

  lemma StampsNext(codec: Codec, h: Hash, rounds: seq<Round>, n: nat, key: Key, at: Stamp)
    requires n < |rounds| && StampsRetry(codec, h, rounds, n, key, at)
    requires StampRetries(codec, Left(Stamping, h, rounds, n, 2), key, at, rounds[n])
    ensures StampsRetry(codec, h, rounds, n + 1, key, at)
  {
    hide Left, StampRetries;
  }

  /** The record stamped with the floors of the first `n` rounds can be written and read back. */
  predicate Encodes(codec: Codec, data: RouteData, rounds: seq<Round>, n: nat)
    requires n <= |rounds|
  {
    var text := codec.encode(data.(lastActivity := Floored(data.lastActivity, rounds, n)));
    text.Some? && codec.decode(text.value).Some?
  }

  predicate ReplaceRetries(codec: Codec, data: RouteData, rounds: seq<Round>, i: nat)
    requires i < |rounds|
  {
    var round := rounds[i];
    && !round.lateFirst && round.firstOk && Encodes(codec, data, rounds, i + 1)
    && !round.lateWrite && round.reply.Delivered? && round.writeEnv.Some?
  }

  /** What a replacement returns from the round that ends it. */
  predicate ReplaceEnds(codec: Codec, data: RouteData, rounds: seq<Round>, i: nat, r: Result<RouteData>)
    requires i < |rounds|
  {
    var round := rounds[i];
    var watched := !round.lateFirst && round.firstOk;
    && (r == Err(Corrupt) <==> watched && !Encodes(codec, data, rounds, i + 1))
    && (r == Err(Indeterminate) <==>
          watched && Encodes(codec, data, rounds, i + 1) && !round.lateWrite && round.reply.Lost?)
    && (r.Ok? <==>
          && watched && Encodes(codec, data, rounds, i + 1)
          && !round.lateWrite && round.reply.Delivered? && round.writeEnv.None?)
  }

  predicate Decodes(codec: Codec, h: Hash, key: Key) {
    key in h ==> codec.decode(h[key]).Some?
  }

  predicate SameField(a: Hash, b: Hash, key: Key) {
    (key in a <==> key in b) && (key in a && key in b ==> a[key] == b[key])
  }

  predicate DeleteRetries(codec: Codec, seen: Hash, found: Hash, key: Key, round: Round) {
    && !round.lateRead && round.readOk && Decodes(codec, seen, key)
    && !round.lateWrite && round.reply.Delivered? && !round.strange && !SameField(seen, found, key)
  }

  ghost predicate DeletesRetry(codec: Codec, h: Hash, rounds: seq<Round>, n: nat, key: Key)
    requires n <= |rounds|
  {
    forall i :: 0 <= i < n ==>
      DeleteRetries(codec, Left(Deleting, h, rounds, i, 1), Left(Deleting, h, rounds, i, 2), key, rounds[i])
  }

  lemma DeletesStart(codec: Codec, h: Hash, rounds: seq<Round>, key: Key)
    ensures DeletesRetry(codec, h, rounds, 0, key)
  {
  }

  lemma DeletesNext(codec: Codec, h: Hash, rounds: seq<Round>, n: nat, key: Key)
    requires n < |rounds| && DeletesRetry(codec, h, rounds, n, key)
    requires DeleteRetries(codec, Left(Deleting, h, rounds, n, 1), Left(Deleting, h, rounds, n, 2), key, rounds[n])
    ensures DeletesRetry(codec, h, rounds, n + 1, key)
  {
    hide Left, DeleteRetries;
  }

  /** What a deletion returns from the round that ends it: `seen` was read and `found` was there at the script. */
  predicate DeleteEnds(codec: Codec, seen: Hash, found: Hash, key: Key, round: Round, r: Result<Option<RouteData>>) {
    var looked := !round.lateRead && round.readOk;
    && (r == Err(Corrupt) <==> looked && !Decodes(codec, seen, key))
    && (r == Err(Indeterminate) <==>
          looked && Decodes(codec, seen, key) && !round.lateWrite && (round.reply.Lost? || round.strange))
    && (r.Ok? <==>
          && looked && Decodes(codec, seen, key)
          && !round.lateWrite && round.reply.Delivered? && !round.strange && SameField(seen, found, key))
    && (r.Ok? ==> r.value == if key in seen then codec.decode(seen[key]) else None)
  }

  /** A stamp update ends in a calm round: done, or with the corrupt-data error exactly if it cannot write back. */
  lemma CalmStamp(codec: Codec, seen: Hash, key: Key, at: Stamp, round: Round, r: Result<()>)
    requires Calm(round) && round.readEnv == None
    ensures !StampRetries(codec, seen, key, at, round)
    ensures StampEnds(codec, seen, key, at, round, r) ==> if Writable(codec, seen, key, at) then r.Ok? else r == Err(Corrupt)
  {
  }

  /** A replacement ends in a calm round: done, or with the corrupt-data error exactly if it cannot be encoded. */
  lemma CalmReplace(codec: Codec, data: RouteData, rounds: seq<Round>, i: nat, r: Result<RouteData>)
    requires i < |rounds| && Calm(rounds[i])
    ensures !ReplaceRetries(codec, data, rounds, i)
    ensures ReplaceEnds(codec, data, rounds, i, r) ==> if Encodes(codec, data, rounds, i + 1) then r.Ok? else r == Err(Corrupt)
  {
    hide Encodes;
  }

  /** A deletion ends in a calm round: done, or with the corrupt-data error exactly if the record does not decode. */
  lemma CalmDelete(codec: Codec, seen: Hash, key: Key, round: Round, r: Result<Option<RouteData>>)
    requires Calm(round)
    ensures !DeleteRetries(codec, seen, seen, key, round)
    ensures DeleteEnds(codec, seen, seen, key, round, r) ==> if Decodes(codec, seen, key) then r.Ok? else r == Err(Corrupt)
  {
  }

  /** A connection as its server sees it: an outstanding WATCH, and whether the hash was written since. */
  datatype Connection = Connection(watching: bool, touched: bool)

  const NEW := Connection(false, false)

  datatype Commit = Commit(before: Hash, after: Hash)

  /** The newest stamp among a record's own and the floors of the first `n` rounds. */
  function Floored(at: Stamp, rounds: seq<Round>, n: nat): Stamp
    requires n <= |rounds|
  {
    if n == 0 then at else Raise(Floored(at, rounds, n - 1), rounds[n - 1].floor)
  }

  lemma {:induction false} FlooredReachesEach(at: Stamp, rounds: seq<Round>, n: nat, i: nat)
    requires i < n <= |rounds|
    ensures Floored(at, rounds, n) >= at
    ensures rounds[i].floor.Some? ==> Floored(at, rounds, n) >= rounds[i].floor.value
  {
    if i < n - 1 {
      FlooredReachesEach(at, rounds, n - 1, i);
    } else if n > 1 {
      FlooredReachesEach(at, rounds, n - 1, 0);
    }
  }

  /** One new commit, which set one field and nothing else. */
  ghost predicate Replaced(before: seq<Commit>, after: seq<Commit>, key: Key, text: string) {
    && |after| == |before| + 1 && after[..|before|] == before
    && after[|before|].after == after[|before|].before[key := text]
  }

  /** One new commit, which re-stamped the record it found and touched nothing else. */
  ghost predicate Restamped(codec: Codec, before: seq<Commit>, after: seq<Commit>, key: Key, at: Stamp) {
    && |after| == |before| + 1 && after[..|before|] == before
    && var found := after[|before|].before;
       && key in found
       && var record := codec.decode(found[key]);
          && record.Some?
          && var text := codec.encode(record.value.(lastActivity := at));
             text.Some? && after[|before|].after == found[key := text.value]
  }

  /** One new commit, which removed one field holding this record. */
  ghost predicate Deleted(codec: Codec, before: seq<Commit>, after: seq<Commit>, key: Key, record: RouteData) {
    && |after| == |before| + 1 && after[..|before|] == before
    && var found := after[|before|].before;
       && key in found && codec.decode(found[key]) == Some(record)
       && after[|before|].after == found - {key}
  }

  /** What a committed replacement stores is what it returns, stamped no older than any floor it sampled. */
  lemma ReplacementReachesFloors(codec: Codec, data: RouteData, rounds: seq<Round>, used: nat, text: string, record: RouteData, i: nat)
    requires KeepsStamp(codec) && i < used <= |rounds|
    requires codec.encode(data.(lastActivity := Floored(data.lastActivity, rounds, used))) == Some(text)
    requires codec.decode(text) == Some(record)
    ensures record.lastActivity >= data.lastActivity
    ensures rounds[i].floor.Some? ==> record.lastActivity >= rounds[i].floor.value
  {
    FlooredReachesEach(data.lastActivity, rounds, used, i);
  }

  class Store {
    const codec: Codec
    var hash: Hash
    var slot: Option<Connection>
    ghost var history: seq<Hash>
    ghost var commits: seq<Commit>

    /** The hash is the end of its history, and only connections without an outstanding WATCH wait in the slot. */
    ghost predicate Valid()
      reads this
    {
      history != [] && hash == Last(history) && (slot.Some? ==> !slot.value.watching)
    }

    constructor (codec: Codec, hash: Hash)
      ensures this.codec == codec && this.hash == hash && history == [hash] && commits == [] && Valid()
    {
      this.codec, this.hash := codec, hash;
      slot := Some(NEW);
      history, commits := [hash], [];
    }

    method TakeConnection(connects: bool) returns (conn: Option<Connection>)
      requires Valid()
      modifies this`slot
      ensures Valid() && slot == None && (conn.Some? ==> !conn.value.watching)
      ensures conn == None <==> old(slot) == None && !connects
    {
      conn := if slot.Some? then slot else if connects then Some(NEW) else None;
      slot := None;
    }

    method ReturnConnection(conn: Connection)
      requires Valid() && !conn.watching
      modifies this`slot
      ensures slot == Some(conn) && Valid()
    {
      slot := Some(conn);
    }

    /** Other writers go first. */
    method Others(conn: Connection, env: Option<Hash>) returns (conn': Connection)
      requires Valid()
      modifies this`hash, this`history
      ensures Valid() && hash == Or(env, old(hash)) && history == old(history) + [hash]
      ensures conn' == if env.Some? && conn.watching then conn.(touched := true) else conn
    {
      conn' := conn;
      if env.Some? {
        hash := env.value;
        if conn.watching {
          conn' := conn.(touched := true);
        }
      }
      history := history + [hash];
    }

    /** Other writers take the next turn of the script. */
    method Turn(conn: Connection, env: Option<Hash>, ghost loop: Loop, ghost rounds: seq<Round>, ghost n: nat, ghost turn: nat,
                ghost past: seq<Hash>) returns (conn': Connection)
      requires Valid() && past != [] && Alone(loop, rounds, n, turn, past, history) && InScript(loop, rounds, n, turn + 1)
      requires env == Turns(loop, rounds[n])[turn] && InScript(loop, rounds, n, turn)
      requires hash == Left(loop, Last(past), rounds, n, turn)
      modifies this`hash, this`history
      ensures Valid() && hash == Or(env, old(hash))
      ensures conn' == if env.Some? && conn.watching then conn.(touched := true) else conn
      ensures Alone(loop, rounds, n, turn + 1, past, history) && hash == Left(loop, Last(past), rounds, n, turn + 1)
      ensures turn + 1 == |Turns(loop, rounds[n])| ==>
                Alone(loop, rounds, n + 1, 0, past, history) && hash == Left(loop, Last(past), rounds, n + 1, 0)
    {
      hide Left, Alone;
      ghost var was := history;
      conn' := Others(conn, env);
      TurnTaken(loop, rounds, n, turn, past, was, hash);
    }

    /** MULTI, HSET, EXEC: runs only if the watched hash is untouched; any answer ends the WATCH. */
    method Exec(conn: Connection, key: Key, text: string, reply: Reply) returns (conn': Connection, done: Option<bool>)
      requires Valid()
      modifies this`hash, this`history, this`commits
      ensures Valid()
      ensures done == if reply.Delivered? then Some(!conn.touched) else None
      ensures !conn'.watching
      ensures if !conn.touched && (reply.Delivered? || reply.ran)
              then && hash == old(hash)[key := text] && history == old(history) + [hash]
                   && commits == old(commits) + [Commit(old(hash), hash)]
              else hash == old(hash) && history == old(history) && commits == old(commits)
    {
      if !conn.touched && (reply.Delivered? || reply.ran) {
        ghost var before := hash;
        hash := hash[key := text];
        history, commits := history + [hash], commits + [Commit(before, hash)];
      }
      conn' := NEW;
      done := if reply.Delivered? then Some(!conn.touched) else None;
    }

    /**
     The WATCH, sample, MULTI/EXEC loop of a complete replacement. Whatever the outcome, the hash has been through
     the other writers' turns and at most one commit, which set one field of what they had left.
     */
    method AtomicReplace(key: Key, data: RouteData, connects: bool, rounds: seq<Round>)
      returns (r: Result<RouteData>, used: nat, ghost n: nat)
      requires Valid()
      modifies this
      ensures Valid() && used <= |rounds| && (slot.Some? <==> r.Ok?)
      ensures n <= |rounds| && forall i :: 0 <= i < n ==> ReplaceRetries(codec, data, rounds, i)
      ensures if (connects || old(slot).Some?) && n < |rounds|
              then && ReplaceEnds(codec, data, rounds, n, r)
                   && used == if rounds[n].lateFirst || !rounds[n].firstOk then n else n + 1
              else r == Err(Backend) && used == n
      ensures r.Ok? ==>
                && used > 0
                && var stamped := data.(lastActivity := Floored(data.lastActivity, rounds, used));
                   && codec.encode(stamped).Some?
                   && codec.decode(codec.encode(stamped).value) == Some(r.value)
                   && Replaced(old(commits), commits, key, codec.encode(stamped).value)
                   && hash == commits[|old(commits)|].after
      ensures r.Err? && !r.error.Indeterminate? ==> commits == old(commits)
      ensures r.Err? && r.error.Indeterminate? ==>
                || commits == old(commits)
                || (used > 0
                    && var text := codec.encode(data.(lastActivity := Floored(data.lastActivity, rounds, used)));
                       text.Some? && Replaced(old(commits), commits, key, text.value))
      ensures if commits == old(commits) then OthersOnly(Replacing, rounds, old(history), history)
              else CommittedIn(Replacing, rounds, used, old(history), history, old(commits), commits)
    {
      hide Left, Trail, Alone, CommittedIn;
      used, n := 0, 0;
      ghost var past := history;
      Starts(Replacing, rounds, past);
      var taken := TakeConnection(connects);
      if taken.None? {
        return Err(Backend), used, n;
      }
      var conn := taken.value;
      var stamped := data;
      while used < |rounds|
        invariant 0 <= used == n <= |rounds| && forall i :: 0 <= i < n ==> ReplaceRetries(codec, data, rounds, i)
        invariant Valid() && slot == None && !conn.watching && commits == old(commits)
        invariant stamped == data.(lastActivity := Floored(data.lastActivity, rounds, used))
        invariant Alone(Replacing, rounds, used, 0, past, history) && hash == Left(Replacing, old(hash), rounds, used, 0)
      {
        var round := rounds[used];
        if round.lateFirst {
          return Err(Backend), used, n;
        }
        conn := Turn(conn, round.firstEnv, Replacing, rounds, used, 0, past);
        if !round.firstOk {
          return Err(Backend), used, n;
        }
        conn := Connection(true, false);
        used := used + 1;
        stamped := stamped.(lastActivity := Raise(stamped.lastActivity, round.floor));
        var text := codec.encode(stamped);
        if text.None? {
          return Err(Corrupt), used, n;
        }
        var committed := codec.decode(text.value);
        if committed.None? {
          return Err(Corrupt), used, n;
        }
        if round.lateWrite {
          return Err(Backend), used, n;
        }
        conn := Turn(conn, round.writeEnv, Replacing, rounds, used - 1, 1, past);
        var done;
        CommitTaken(Replacing, rounds, used, past, history, hash[key := text.value], commits);
        conn, done := Exec(conn, key, text.value, round.reply);
        if done.None? {
          return Err(Indeterminate), used, n;
        }
        if done.value {
          ReturnConnection(conn);
          return Ok(committed.value), used, n;
        }
        n := n + 1;
      }
      r := Err(Backend);
    }

    /**
     WATCH, read, re-stamp, EXEC. The record re-stamped is the one in the hash at the moment of the commit,
     because any write since the read would have aborted it.
     */
    method UpdateActivity(key: Key, at: Stamp, connects: bool, rounds: seq<Round>) returns (r: Result<()>, ghost n: nat)
      requires Valid()
      modifies this
      ensures Valid() && (slot.Some? <==> r.Ok?)
      ensures n <= |rounds| && StampsRetry(codec, old(hash), rounds, n, key, at)
      ensures if (connects || old(slot).Some?) && n < |rounds|
              then StampEnds(codec, Left(Stamping, old(hash), rounds, n, 2), key, at, rounds[n], r)
              else r == Err(Backend)
      ensures r.Ok? ==>
                || (commits == old(commits) && n < |rounds| && key !in Left(Stamping, old(hash), rounds, n, 2))
                || (Restamped(codec, old(commits), commits, key, at) && hash == commits[|old(commits)|].after)
      ensures r.Err? && !r.error.Indeterminate? ==> commits == old(commits)
      ensures r.Err? && r.error.Indeterminate? ==>
                commits == old(commits) || Restamped(codec, old(commits), commits, key, at)
      ensures if commits == old(commits) then OthersOnly(Stamping, rounds, old(history), history)
              else CommittedIn(Stamping, rounds, n + 1, old(history), history, old(commits), commits)
    {
      n := 0;
      ghost var past := history;
      Starts(Stamping, rounds, past);
      StampsStart(codec, hash, rounds, key, at);
      hide Left, Trail, Alone, CommittedIn, StampEnds, StampRetries, StampsRetry, Restamped;
      var taken := TakeConnection(connects);
      if taken.None? {
        return Err(Backend), n;
      }
      var conn := taken.value;
      var i := 0;
      while i < |rounds|
        invariant 0 <= i == n <= |rounds| && Valid() && slot == None && !conn.watching && commits == old(commits)
        invariant StampsRetry(codec, old(hash), rounds, i, key, at)
        invariant Alone(Stamping, rounds, i, 0, past, history) && hash == Left(Stamping, old(hash), rounds, i, 0)
      {
        var ended := StampOnce(conn, key, at, rounds, i, past);
        if ended.Some? {
          return ended.value, n;
        }
        StampsNext(codec, old(hash), rounds, i, key, at);
        conn := NEW;
        i, n := i + 1, n + 1;
      }
      r := Err(Backend);
    }

    /** One round of a stamp update: its result, or nothing if the hash changed and the round is to be repeated. */
    method StampOnce(conn: Connection, key: Key, at: Stamp, rounds: seq<Round>, i: nat, ghost past: seq<Hash>)
      returns (ended: Option<Result<()>>)
      requires Valid() && slot == None && !conn.watching && i < |rounds| && past != []
      requires Alone(Stamping, rounds, i, 0, past, history) && hash == Left(Stamping, Last(past), rounds, i, 0)
      modifies this
      ensures Valid()
      ensures var seen := Left(Stamping, Last(past), rounds, i, 2);
              match ended
              case None =>
                && StampRetries(codec, seen, key, at, rounds[i]) && slot == None && commits == old(commits)
                && Alone(Stamping, rounds, i + 1, 0, past, history) && hash == Left(Stamping, Last(past), rounds, i + 1, 0)
              case Some(r) =>
                && StampEnds(codec, seen, key, at, rounds[i], r) && (slot.Some? <==> r.Ok?)
                && (commits == old(commits) ==> OthersOnly(Stamping, rounds, past, history))
                && (commits != old(commits) ==>
                      && CommittedIn(Stamping, rounds, i + 1, past, history, old(commits), commits)
                      && Restamped(codec, old(commits), commits, key, at) && hash == commits[|old(commits)|].after)
                && (r.Ok? && commits == old(commits) ==> key !in seen)
                && (r.Err? && !r.error.Indeterminate? ==> commits == old(commits))
    {
      hide Left, Trail, Alone, CommittedIn;
      var round := rounds[i];
      if round.lateFirst {
        return Some(Err(Backend));
      }
      var conn := Turn(conn, round.firstEnv, Stamping, rounds, i, 0, past);
      if !round.firstOk {
        return Some(Err(Backend));
      }
      conn := Connection(true, false);
      if round.lateRead {
        return Some(Err(Backend));
      }
      conn := Turn(conn, round.readEnv, Stamping, rounds, i, 1, past);
      if !round.readOk {
        return Some(Err(Backend));
      }
      if key !in hash {
        if round.lateWrite {
          return Some(Err(Backend));
        }
        conn := Turn(conn, round.writeEnv, Stamping, rounds, i, 2, past);
        if !round.unwatchOk {
          return Some(Err(Backend));
        }
        ReturnConnection(NEW);
        return Some(Ok(()));
      }
      var record := codec.decode(hash[key]);
      if record.None? {
        return Some(Err(Corrupt));
      }
      var text := codec.encode(record.value.(lastActivity := at));
      if text.None? {
        return Some(Err(Corrupt));
      }
      if round.lateWrite {
        return Some(Err(Backend));
      }
      conn := Turn(conn, round.writeEnv, Stamping, rounds, i, 2, past);
      var done;
      CommitTaken(Stamping, rounds, i + 1, past, history, hash[key := text.value], commits);
      conn, done := Exec(conn, key, text.value, round.reply);
      if done.None? {
        return Some(Err(Indeterminate));
      }
      if done.value {
        ReturnConnection(conn);
        return Some(Ok(()));
      }
      ended := None;
    }

    /** The delete script: removes the field only if it still holds exactly the text that was read. */
    method EvalDelete(key: Key, current: Option<string>, reply: Reply) returns (done: Option<bool>)
      requires Valid()
      modifies this`hash, this`history, this`commits
      ensures Valid()
      ensures var same := if key in old(hash) then current == Some(old(hash)[key]) else current == None;
              && done == (if reply.Delivered? then Some(same) else None)
              && if same && key in old(hash) && (reply.Delivered? || reply.ran)
                 then && hash == old(hash) - {key} && history == old(history) + [hash]
                      && commits == old(commits) + [Commit(old(hash), hash)]
                 else hash == old(hash) && history == old(history) && commits == old(commits)
    {
      var same := if key in hash then current == Some(hash[key]) else current == None;
      if same && key in hash && (reply.Delivered? || reply.ran) {
        ghost var before := hash;
        hash := hash - {key};
        history, commits := history + [hash], commits + [Commit(before, hash)];
      }
      done := if reply.Delivered? then Some(same) else None;
    }

    /** Read, then delete if unchanged: a successful call returns exactly the record it removed. */
    method Delete(key: Key, connects: bool, rounds: seq<Round>) returns (r: Result<Option<RouteData>>, ghost n: nat)
      requires Valid()
      modifies this
      ensures Valid() && (slot.Some? <==> r.Ok?)
      ensures n <= |rounds| && DeletesRetry(codec, old(hash), rounds, n, key)
      ensures if (connects || old(slot).Some?) && n < |rounds|
              then DeleteEnds(codec, Left(Deleting, old(hash), rounds, n, 1), Left(Deleting, old(hash), rounds, n, 2), key, rounds[n], r)
              else r == Err(Backend)
      ensures r.Ok? ==> key !in hash
      ensures if commits == old(commits) then OthersOnly(Deleting, rounds, old(history), history)
              else CommittedIn(Deleting, rounds, n + 1, old(history), history, old(commits), commits)
      ensures r.Ok? && r.value.None? ==> commits == old(commits)
      ensures r.Ok? && r.value.Some? ==> Deleted(codec, old(commits), commits, key, r.value.value)
      ensures r.Err? && !r.error.Indeterminate? ==> commits == old(commits)
      ensures r.Err? && r.error.Indeterminate? ==>
                commits == old(commits) || exists record :: Deleted(codec, old(commits), commits, key, record)
    {
      n := 0;
      ghost var past := history;
      Starts(Deleting, rounds, past);
      DeletesStart(codec, hash, rounds, key);
      hide Left, Trail, Alone, CommittedIn, DeleteEnds, DeleteRetries, DeletesRetry, Deleted;
      var taken := TakeConnection(connects);
      if taken.None? {
        return Err(Backend), n;
      }
      var conn := taken.value;
      var i := 0;
      while i < |rounds|
        invariant 0 <= i == n <= |rounds| && Valid() && slot == None && !conn.watching && commits == old(commits)
        invariant DeletesRetry(codec, old(hash), rounds, i, key)
        invariant Alone(Deleting, rounds, i, 0, past, history) && hash == Left(Deleting, old(hash), rounds, i, 0)
      {
        var ended;
        ended, conn := DeleteOnce(conn, key, rounds, i, past);
        if ended.Some? {
          return ended.value, n;
        }
        DeletesNext(codec, old(hash), rounds, i, key);
        i, n := i + 1, n + 1;
      }
      r := Err(Backend);
    }

    /** One round of a deletion: its result, or nothing if the field changed and the round is to be repeated. */
    method DeleteOnce(conn: Connection, key: Key, rounds: seq<Round>, i: nat, ghost past: seq<Hash>)
      returns (ended: Option<Result<Option<RouteData>>>, conn': Connection)
      requires Valid() && slot == None && !conn.watching && i < |rounds| && past != []
      requires Alone(Deleting, rounds, i, 0, past, history) && hash == Left(Deleting, Last(past), rounds, i, 0)
      modifies this
      ensures Valid() && !conn'.watching
      ensures var seen, found := Left(Deleting, Last(past), rounds, i, 1), Left(Deleting, Last(past), rounds, i, 2);
              match ended
              case None =>
                && DeleteRetries(codec, seen, found, key, rounds[i]) && slot == None && commits == old(commits)
                && Alone(Deleting, rounds, i + 1, 0, past, history) && hash == Left(Deleting, Last(past), rounds, i + 1, 0)
              case Some(r) =>
                && DeleteEnds(codec, seen, found, key, rounds[i], r) && (slot.Some? <==> r.Ok?)
                && (r.Ok? ==> key !in hash)
                && (commits == old(commits) ==> OthersOnly(Deleting, rounds, past, history))
                && (commits != old(commits) ==>
                      && CommittedIn(Deleting, rounds, i + 1, past, history, old(commits), commits)
                      && exists record :: Deleted(codec, old(commits), commits, key, record))
                && (r.Ok? && r.value.None? ==> commits == old(commits))
                && (r.Ok? && r.value.Some? ==> Deleted(codec, old(commits), commits, key, r.value.value))
                && (r.Err? && !r.error.Indeterminate? ==> commits == old(commits))
    {
      hide Left, Trail, Alone, CommittedIn;
      var round := rounds[i];
      conn' := conn;
      if round.lateRead {
        return Some(Err(Backend)), conn';
      }
      conn' := Turn(conn', round.readEnv, Deleting, rounds, i, 0, past);
      if !round.readOk {
        return Some(Err(Backend)), conn';
      }
      var current := if key in hash then Some(hash[key]) else None;
      var prior := if current.Some? then codec.decode(current.value) else None;
      if current.Some? && prior.None? {
        return Some(Err(Corrupt)), conn';
      }
      if round.lateWrite {
        return Some(Err(Backend)), conn';
      }
      conn' := Turn(conn', round.writeEnv, Deleting, rounds, i, 1, past);
      CommitTaken(Deleting, rounds, i + 1, past, history, hash - {key}, commits);
      var done := EvalDelete(key, current, round.reply);
      assert commits != old(commits) ==> Deleted(codec, old(commits), commits, key, prior.value);
      if done.None? || round.strange {
        return Some(Err(Indeterminate)), conn';
      }
      if done.value {
        ReturnConnection(conn');
        return Some(Ok(prior)), conn';
      }
      ended := None;
    }

    method Snapshot(connects: bool, env: Option<Hash>, readOk: bool) returns (r: Result<map<Key, RouteData>>)
      requires Valid()
      modifies this
      ensures Valid() && commits == old(commits)
      ensures if connects || old(slot).Some?
              then hash == Or(env, old(hash)) && history == old(history) + [hash]
              else hash == old(hash) && history == old(history)
      ensures r.Ok? <==> (connects || old(slot).Some?) && readOk && forall k :: k in hash ==> Loads(codec, k, hash[k])
      ensures r.Ok? ==> r.value.Keys == hash.Keys && forall k :: k in hash ==> codec.decode(hash[k]) == Some(r.value[k])
      ensures r.Err? ==> r.error == if (connects || old(slot).Some?) && readOk then Corrupt else Backend
      ensures slot.Some? <==> r.Ok?
    {
      var taken := TakeConnection(connects);
      if taken.None? {
        return Err(Backend);
      }
      var conn := Others(taken.value, env);
      if !readOk {
        return Err(Backend);
      }
      r := LoadAll(codec, hash);
      if r.Ok? {
        ReturnConnection(conn);
      }
    }
  }

  /** A field that is a key, holding a record that decodes. */
  predicate Loads(codec: Codec, field: string, text: string) {
    field != "" && field[0] == '/' && codec.decode(text).Some?
  }

  /**
   Loads a whole hash: one route per field under exactly the field's text, so no two fields ever merge; or
   the corrupt-data error, exactly when some field is not a key or some record does not decode.
   */
  method LoadAll(codec: Codec, hash: Hash) returns (r: Result<map<Key, RouteData>>)
    ensures r.Ok? <==> forall k :: k in hash ==> Loads(codec, k, hash[k])
    ensures r.Ok? ==> r.value.Keys == hash.Keys && forall k :: k in hash ==> codec.decode(hash[k]) == Some(r.value[k])
    ensures r.Err? ==> r.error.Corrupt?
  {
    var rest := hash.Keys;
    var routes: map<Key, RouteData> := map[];
    while rest != {}
      invariant rest <= hash.Keys && routes.Keys == hash.Keys - rest
      invariant forall k :: k in hash && k !in rest ==> Loads(codec, k, hash[k]) && codec.decode(hash[k]) == Some(routes[k])
      decreases rest
    {
      var field :| field in rest;
      K.DecodeKeyIsExact(field);
      var key, record := K.DecodeKey(field), codec.decode(hash[field]);
      if key.None? || record.None? {
        assert !Loads(codec, field, hash[field]);
        return Err(Corrupt);
      }
      routes := routes[key.value := record.value];
      rest := rest - {field};
    }
    r := Ok(routes);
  }
}
