/** Each committed Redis transaction is one atomic operation of the store contract on the decoded routes. */
module RedisRefinement {
  import opened Routes
  import opened RedisStore
  import R = Registry

  /** The routes a hash stands for; a corrupt record stands for none. */
  function Decoded(codec: Codec, h: Hash): map<Key, RouteData> {
    map k | k in h && codec.decode(h[k]).Some? :: codec.decode(h[k]).value
  }

  /** A record that came from the hash survives being re-stamped and written back. */
  ghost predicate KeepsRecords(codec: Codec) {
    forall text: string, at: Stamp {:trigger codec.decode(text), Restamp(codec, text, at)} ::
      codec.decode(text).Some? && Restamp(codec, text, at).Some? ==>
        codec.decode(Restamp(codec, text, at).value) == Some(codec.decode(text).value.(lastActivity := at))
  }

  function Restamp(codec: Codec, text: string, at: Stamp): Option<string> {
    match codec.decode(text)
    case None => None
    case Some(d) => codec.encode(d.(lastActivity := at))
  }

  lemma ReplacedRefines(codec: Codec, before: seq<Commit>, after: seq<Commit>, key: Key, data: RouteData, text: string, record: RouteData)
    requires Replaced(before, after, key, text) && codec.decode(text) == Some(record)
    ensures var c := after[|before|];
            Decoded(codec, c.after) == R.Effect(R.Put(key, data), Decoded(codec, c.before), record)
  {
  }

  lemma RestampedRefines(codec: Codec, before: seq<Commit>, after: seq<Commit>, key: Key, at: Stamp)
    requires Restamped(codec, before, after, key, at) && KeepsRecords(codec)
    ensures var c := after[|before|];
            && key in Decoded(codec, c.before)
            && Decoded(codec, c.after) == R.Stamped(Decoded(codec, c.before), key, at)
  {
    var c := after[|before|];
    var text := Restamp(codec, c.before[key], at);
    assert text.Some? && c.after == c.before[key := text.value];
    assert codec.decode(text.value) == Some(codec.decode(c.before[key]).value.(lastActivity := at));
  }

  lemma DeletedRefines(codec: Codec, before: seq<Commit>, after: seq<Commit>, key: Key, record: RouteData)
    requires Deleted(codec, before, after, key, record)
    ensures var c := after[|before|];
            && key in Decoded(codec, c.before) && Decoded(codec, c.before)[key] == record
            && Decoded(codec, c.after) == R.Effect(R.Delete(key), Decoded(codec, c.before), record)
  {
  }

  /** A replacement's record is one the contract allows for every floor sampled on the way. */
  lemma ReplacementKeepsContract(codec: Codec, key: Key, data: RouteData, rounds: seq<Round>, used: nat, text: string, record: RouteData, i: nat)
    requires i < used <= |rounds|
    requires codec.encode(data.(lastActivity := Floored(data.lastActivity, rounds, used))) == Some(text)
    requires codec.decode(text) == Some(record) && record == data.(lastActivity := Floored(data.lastActivity, rounds, used))
    ensures R.Commits(R.Put(key, data), rounds[i].floor, record)
    ensures R.Commits(R.Add(key, data.target, data.extra), rounds[i].floor, record)
  {
    FlooredReachesEach(data.lastActivity, rounds, used, i);
  }
}
