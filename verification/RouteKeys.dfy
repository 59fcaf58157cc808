/** Route-key cleanup and its interplay with persisted hash fields. */
module RouteKeys {
  import opened Routes

  /** The input with the leading slash every key carries. */
  function Rooted(input: string): string {
    if input == "" || input[0] != '/' then "/" + input else input
  }

  predicate EndsWithSlash(s: string) {
    |s| > 0 && s[|s| - 1] == '/'
  }

  /**
   What cleanup makes of an input: nothing becomes a slash; otherwise the input gets a leading slash unless it has
   one, and then loses one trailing slash, unless that is all there is.
   */
  ghost predicate IsKeyOf(input: string, key: Key) {
    if input == "" || input == "/" then key == "/"
    else if input[0] == '/' then key == input || key + "/" == input
    else key == "/" + input || key + "/" == "/" + input
  }

  function Normalized(input: string): (key: Key)
    ensures IsKeyOf(input, key)
    ensures |key| > 0 && key[0] == '/'
    ensures input != "" && input != "/" ==> (|key| == |input| + (if input[0] == '/' then 0 else 1) <==> input[|input| - 1] != '/')
  {
    var rooted := Rooted(input);
    if |rooted| > 1 && EndsWithSlash(rooted) then rooted[..|rooted| - 1] else rooted
  }

  /** The edits `RouteKey::normalize` makes to its local string. */
  method Normalize(input: string) returns (key: Key)
    ensures key == Normalized(input)
  {
    key := input;
    if key == "" || key[0] != '/' {
      key := "/" + key;
    }
    if |key| > 1 && EndsWithSlash(key) {
      key := key[..|key| - 1];
    }
  }

  predicate EndsWithTwoSlashes(s: string) {
    |s| >= 3 && s[|s| - 2] == '/' && s[|s| - 1] == '/'
  }

  /** Cleanup is not idempotent, and this is exactly where it is. */
  lemma NormalizeTwice(input: string)
    ensures Normalized(Normalized(input)) == Normalized(input) <==> !EndsWithTwoSlashes(input)
  {
    var once := Normalized(input);
    assert Rooted(once) == once;
    assert |Normalized(once)| == |once| <==> !(|once| > 1 && EndsWithSlash(once));
    assert EndsWithTwoSlashes(Rooted(input)) <==> EndsWithTwoSlashes(input);
    assert |once| > 1 && EndsWithSlash(once) <==> EndsWithTwoSlashes(Rooted(input));
  }

  /** `None` stands for the corrupt-data error. */
  function DecodeKey(field: string): Option<Key> {
    if field == "" || field[0] != '/' then None
    else
      var parseInput := if |field| > 1 && EndsWithSlash(field) then field + "/" else field;
      Some(Normalized(parseInput))
  }

  /** A persisted field is rebuilt character for character, or refused. */
  lemma DecodeKeyIsExact(field: string)
    ensures DecodeKey(field) == if field != "" && field[0] == '/' then Some(field) else None
  {
    if field != "" && field[0] == '/' && |field| > 1 && EndsWithSlash(field) {
      assert Rooted(field + "/") == field + "/";
      assert (field + "/")[..|field|] == field;
    }
  }

  /** Every key survives being written as a hash field and read back. */
  lemma PersistedKeyRoundTrip(input: string)
    ensures DecodeKey(Normalized(input)) == Some(Normalized(input))
  {
    DecodeKeyIsExact(Normalized(input));
  }

  lemma DecodeKeyInjective(a: string, b: string)
    requires DecodeKey(a).Some? && DecodeKey(a) == DecodeKey(b)
    ensures a == b
  {
    DecodeKeyIsExact(a);
    DecodeKeyIsExact(b);
  }
}
