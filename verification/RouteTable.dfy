/**
 The route index: an insertion-ordered route map, the segment trie built from it, and
 request resolution. The reference is the history of changes alone: which keys are
 present, and which of two keys was replaced last.
 */
module RouteTable {
  import opened Routes

  // ---------- Path segments ----------

  function TrimLeft(s: string): (r: string)
    ensures r == [] || r[0] != '/'
  {
    if s != [] && s[0] == '/' then TrimLeft(s[1..]) else s
  }

  function TrimRight(s: string): (r: string)
    ensures r <= s && (r == [] || r[|r| - 1] != '/')
  {
    if s != [] && s[|s| - 1] == '/' then TrimRight(s[..|s| - 1]) else s
  }

  function Trim(s: string): string {
    TrimRight(TrimLeft(s))
  }

  predicate Slashes(s: string) {
    forall i :: 0 <= i < |s| ==> s[i] == '/'
  }

  predicate NoOuterSlash(s: string) {
    s == [] || (s[0] != '/' && s[|s| - 1] != '/')
  }

  lemma {:induction false} TrimLeftTakes(s: string) returns (left: string)
    ensures s == left + TrimLeft(s) && Slashes(left)
  {
    left := [];
    if s != [] && s[0] == '/' {
      var more := TrimLeftTakes(s[1..]);
      left := [s[0]] + more;
      assert s == [s[0]] + s[1..];
    }
  }

  lemma {:induction false} TrimRightTakes(s: string) returns (right: string)
    ensures s == TrimRight(s) + right && Slashes(right)
  {
    right := [];
    if s != [] && s[|s| - 1] == '/' {
      var more := TrimRightTakes(s[..|s| - 1]);
      right := more + [s[|s| - 1]];
      assert s == s[..|s| - 1] + [s[|s| - 1]];
    }
  }

  lemma {:induction false} TrimRightKeepsFirst(s: string)
    ensures TrimRight(s) != [] ==> s != [] && TrimRight(s)[0] == s[0]
  {
  }

  /** Trimming takes slashes off both ends, all of them, and nothing else. */
  lemma TrimTakes(s: string) returns (left: string, right: string)
    ensures s == left + Trim(s) + right && Slashes(left) && Slashes(right) && NoOuterSlash(Trim(s))
  {
    left := TrimLeftTakes(s);
    right := TrimRightTakes(TrimLeft(s));
    TrimRightKeepsFirst(TrimLeft(s));
    hide TrimLeft, TrimRight;
    assert s == left + (Trim(s) + right);
  }

  /** So the trimmed text is the one text without outer slashes that slashes surround. */
  lemma {:induction false} TrimIsUnique(s: string, left: string, middle: string, right: string)
    requires s == left + middle + right && Slashes(left) && Slashes(right) && NoOuterSlash(middle)
    ensures Trim(s) == middle
  {
    var l, r := TrimTakes(s);
    hide Trim;
    assert Trim(s) == [] ==> Slashes(s);
    assert middle == [] ==> Slashes(s);
    assert middle == [] || s[|left|] == middle[0];
    assert Trim(s) == [] || s[|l|] == Trim(s)[0];
    if !Slashes(s) {
      assert s[|left|] == middle[0] && s[|left| + |middle| - 1] == middle[|middle| - 1];
      assert s[|l|] == Trim(s)[0] && s[|l| + |Trim(s)| - 1] == Trim(s)[|Trim(s)| - 1];
      assert |l| == |left| && |r| == |right|;
      assert Trim(s) == s[|l|..|s| - |r|];
    }
  }

  /** Splitting at every slash; never empty. */
  function Split(s: string): (parts: seq<string>)
    ensures |parts| > 0
  {
    if s == [] then [[]]
    else
      var rest := Split(s[1..]);
      if s[0] == '/' then [[]] + rest else [[s[0]] + rest[0]] + rest[1..]
  }

  function Segments(path: string): seq<string> {
    if Trim(path) == [] then [] else Split(Trim(path))
  }

  /** The parts with one slash between neighbours. */
  function Join(parts: seq<string>): string {
    if parts == [] then []
    else if |parts| == 1 then parts[0]
    else parts[0] + "/" + Join(parts[1..])
  }

  lemma {:induction false} JoinSplit(s: string)
    ensures Join(Split(s)) == s
    ensures forall i :: 0 <= i < |Split(s)| ==> '/' !in Split(s)[i]
  {
    if s != [] {
      JoinSplit(s[1..]);
      var rest := Split(s[1..]);
      if s[0] == '/' {
        assert Split(s)[1..] == rest;
        assert Join(Split(s)) == [] + "/" + Join(rest);
      } else {
        assert Split(s)[1..] == rest[1..];
        assert Join(Split(s)) == [s[0]] + Join(rest);
      }
    }
  }

  /** Segments are slash-free and rebuild the trimmed path. */
  lemma SegmentsRebuild(path: string)
    ensures Join(Segments(path)) == Trim(path)
    ensures forall i :: 0 <= i < |Segments(path)| ==> '/' !in Segments(path)[i]
  {
    JoinSplit(Trim(path));
  }

  /** Two texts meet at one trie node exactly when they differ in outer slashes alone. */
  lemma SameNode(a: string, b: string)
    ensures Segments(a) == Segments(b) <==> Trim(a) == Trim(b)
  {
    SegmentsRebuild(a);
    SegmentsRebuild(b);
  }

  // ---------- The insertion-ordered route map ----------

  datatype Ordered = Ordered(byKey: map<Key, RouteData>, order: seq<Key>)

  function Without(order: seq<Key>, key: Key): (r: seq<Key>)
    ensures forall k :: k in r <==> k in order && k != key
  {
    if order == [] then []
    else
      var front := Without(order[..|order| - 1], key);
      if order[|order| - 1] == key then front else front + [order[|order| - 1]]
  }

  datatype Change =
    | Replace(key: Key, data: RouteData)
    | ReplacePreserving(key: Key, data: RouteData)
    | Bump(key: Key, at: Stamp)
    | Remove(key: Key)

  function Replaced(r: Ordered, key: Key, data: RouteData): Ordered {
    Ordered(r.byKey[key := data], Without(r.order, key) + [key])
  }

  /** The record that replaces `key`'s: never with an older stamp than the one it replaces. */
  function Preserving(r: Ordered, key: Key, data: RouteData): RouteData {
    if key in r.byKey then data.(lastActivity := Max(data.lastActivity, r.byKey[key].lastActivity)) else data
  }

  function Bumped(d: RouteData, at: Stamp): RouteData {
    d.(lastActivity := Max(d.lastActivity, at))
  }

  function Apply(r: Ordered, c: Change): Ordered {
    match c
    case Replace(key, data) => Replaced(r, key, data)
    case ReplacePreserving(key, data) => Replaced(r, key, Preserving(r, key, data))
    case Bump(key, at) =>
      if key in r.byKey then r.(byKey := r.byKey[key := Bumped(r.byKey[key], at)]) else r
    case Remove(key) => Ordered(r.byKey - {key}, Without(r.order, key))
  }

  function Run(init: Ordered, cs: seq<Change>): Ordered {
    if cs == [] then init else Apply(Run(init, cs[..|cs| - 1]), cs[|cs| - 1])
  }

  /** The order lists every stored key exactly once. */
  ghost predicate WellFormed(r: Ordered) {
    && NoDuplicates(r.order)
    && forall k :: k in r.order <==> k in r.byKey
  }

  function IndexOf(order: seq<Key>, key: Key): (i: int)
    ensures if key in order then 0 <= i < |order| && order[i] == key else i == -1
  {
    if order == [] then -1
    else if order[|order| - 1] == key then |order| - 1
    else IndexOf(order[..|order| - 1], key)
  }

  /** When the history last replaced `key`; before any replacement, its place in the initial order. */
  function Touched(init: Ordered, cs: seq<Change>, key: Key): (t: int)
    ensures t < |init.order| + |cs|
  {
    if cs == [] then IndexOf(init.order, key)
    else
      var c := cs[|cs| - 1];
      if (c.Replace? || c.ReplacePreserving?) && c.key == key then |init.order| + |cs| - 1
      else Touched(init, cs[..|cs| - 1], key)
  }

  ghost predicate ByRecency(order: seq<Key>, init: Ordered, cs: seq<Change>) {
    forall i, j :: 0 <= i < j < |order| ==> Touched(init, cs, order[i]) < Touched(init, cs, order[j])
  }

  /** Dropping a key keeps the relative place of all the others. */
  lemma {:induction false} WithoutKeepsRecency(order: seq<Key>, key: Key, init: Ordered, cs: seq<Change>)
    requires ByRecency(order, init, cs)
    ensures ByRecency(Without(order, key), init, cs)
  {
    if order != [] {
      var front := order[..|order| - 1];
      WithoutKeepsRecency(front, key, init, cs);
      forall k | k in Without(front, key)
        ensures Touched(init, cs, k) < Touched(init, cs, order[|order| - 1])
      {
        var i :| 0 <= i < |front| && front[i] == k;
        assert order[i] == k;
      }
    }
  }

  lemma RecencyIsDistinct(order: seq<Key>, init: Ordered, cs: seq<Change>)
    requires ByRecency(order, init, cs)
    ensures NoDuplicates(order)
  {
  }

  /** Appending the key just touched keeps a list ordered by recency. */
  lemma AppendTouched(order: seq<Key>, key: Key, init: Ordered, cs: seq<Change>)
    requires ByRecency(order, init, cs)
    requires forall k :: k in order ==> Touched(init, cs, k) < Touched(init, cs, key)
    ensures ByRecency(order + [key], init, cs)
  {
  }

  lemma RecencyStep(init: Ordered, cs: seq<Change>, c: Change, order: seq<Key>)
    requires ByRecency(order, init, cs)
    ensures c.Bump? ==> ByRecency(order, init, cs + [c])
    ensures c.Remove? ==> ByRecency(Without(order, c.key), init, cs + [c])
    ensures c.Replace? || c.ReplacePreserving? ==> ByRecency(Without(order, c.key) + [c.key], init, cs + [c])
  {
    assert (cs + [c])[..|cs|] == cs;
    var rest := if c.Bump? then order else Without(order, c.key);
    if !c.Bump? {
      WithoutKeepsRecency(order, c.key, init, cs);
    }
    assert forall k :: k in rest ==> Touched(init, cs + [c], k) == Touched(init, cs, k);
    assert c.Replace? || c.ReplacePreserving? ==> Touched(init, cs + [c], c.key) == |init.order| + |cs|;
    hide Touched, Without;
    assert ByRecency(rest, init, cs + [c]);
    if c.Replace? || c.ReplacePreserving? {
      AppendTouched(rest, c.key, init, cs + [c]);
    }
  }

  /** After every history the order is a duplicate-free list of the keys, oldest replacement first. */
  lemma {:induction false} HistoryOrder(init: Ordered, cs: seq<Change>)
    requires WellFormed(init)
    ensures WellFormed(Run(init, cs)) && ByRecency(Run(init, cs).order, init, cs)
  {
    if cs == [] {
      forall i | 0 <= i < |init.order| ensures IndexOf(init.order, init.order[i]) == i {
        assert IndexOf(init.order, init.order[i]) >= 0;
      }
    } else {
      var before := cs[..|cs| - 1];
      var c := cs[|cs| - 1];
      HistoryOrder(init, before);
      RecencyStep(init, before, c, Run(init, before).order);
      assert before + [c] == cs;
      RecencyIsDistinct(Run(init, cs).order, init, cs);
    }
  }

  // ---------- The trie ----------

  datatype RouteMatch = RouteMatch(key: Key, data: RouteData)
  datatype Node = Node(children: map<string, Node>, route: Option<RouteMatch>)

  const EMPTY := Node(map[], None)

  function Child(node: Node, segment: string): Node {
    if segment in node.children then node.children[segment] else EMPTY
  }

  function Insert(node: Node, path: seq<string>, m: RouteMatch): Node
    decreases |path|
  {
    if path == [] then node.(route := Some(m))
    else node.(children := node.children[path[0] := Insert(Child(node, path[0]), path[1..], m)])
  }

  /** The route stored at exactly this path. */
  function At(node: Node, path: seq<string>): Option<RouteMatch>
    decreases |path|
  {
    if path == [] then node.route
    else if path[0] in node.children then At(node.children[path[0]], path[1..])
    else None
  }

  lemma {:induction false} AtEmpty(path: seq<string>)
    ensures At(EMPTY, path) == None
  {
  }

  lemma {:induction false} AtInsert(node: Node, path: seq<string>, m: RouteMatch, q: seq<string>)
    ensures At(Insert(node, path, m), q) == if q == path then Some(m) else At(node, q)
    decreases |path|
  {
    if path != [] && q != [] && path[0] == q[0] {
      AtInsert(Child(node, path[0]), path[1..], m, q[1..]);
      AtEmpty(q[1..]);
      assert path == [path[0]] + path[1..] && q == [q[0]] + q[1..];
    }
  }

  function BuildTrie(byKey: map<Key, RouteData>, order: seq<Key>): Node {
    if order == [] then EMPTY
    else
      var front := BuildTrie(byKey, order[..|order| - 1]);
      var key := order[|order| - 1];
      if key in byKey then Insert(front, Segments(key), RouteMatch(key, byKey[key])) else front
  }

  /** No stored key listed at `from` or later has these segments. */
  ghost predicate NoneFrom(byKey: map<Key, RouteData>, order: seq<Key>, path: seq<string>, from: nat) {
    forall j :: from <= j < |order| && order[j] in byKey ==> Segments(order[j]) != path
  }

  ghost predicate HeldAt(byKey: map<Key, RouteData>, order: seq<Key>, path: seq<string>, hit: RouteMatch, i: nat) {
    && i < |order| && order[i] == hit.key && Segments(hit.key) == path
    && hit.key in byKey && hit.data == byKey[hit.key]
    && NoneFrom(byKey, order, path, i + 1)
  }

  /** A node holds the last listed key with its segments, and nothing when no key has them. */
  ghost predicate HoldsLast(byKey: map<Key, RouteData>, order: seq<Key>, path: seq<string>, m: Option<RouteMatch>) {
    match m
    case None => NoneFrom(byKey, order, path, 0)
    case Some(hit) => exists i :: HeldAt(byKey, order, path, hit, i)
  }

  /** The last listed stored key with these segments. */
  function LastListed(byKey: map<Key, RouteData>, order: seq<Key>, path: seq<string>): Option<RouteMatch> {
    if order == [] then None
    else
      var key := order[|order| - 1];
      if key in byKey && Segments(key) == path then Some(RouteMatch(key, byKey[key]))
      else LastListed(byKey, order[..|order| - 1], path)
  }

  lemma {:induction false} LastListedHolds(byKey: map<Key, RouteData>, order: seq<Key>, path: seq<string>)
    ensures HoldsLast(byKey, order, path, LastListed(byKey, order, path))
  {
    hide Segments;
    if order != [] {
      var front := order[..|order| - 1];
      var key := order[|order| - 1];
      var m := LastListed(byKey, order, path);
      if key in byKey && Segments(key) == path {
        assert HeldAt(byKey, order, path, m.value, |order| - 1);
      } else {
        LastListedHolds(byKey, front, path);
        if m.Some? {
          var i :| HeldAt(byKey, front, path, m.value, i);
          assert HeldAt(byKey, order, path, m.value, i);
        }
      }
    }
  }

  lemma {:induction false} AtBuildIsLast(byKey: map<Key, RouteData>, order: seq<Key>, path: seq<string>)
    ensures At(BuildTrie(byKey, order), path) == LastListed(byKey, order, path)
  {
    if order == [] {
      AtEmpty(path);
    } else {
      var key := order[|order| - 1];
      AtBuildIsLast(byKey, order[..|order| - 1], path);
      if key in byKey {
        AtInsert(BuildTrie(byKey, order[..|order| - 1]), Segments(key), RouteMatch(key, byKey[key]), path);
      }
    }
  }

  lemma AtBuild(byKey: map<Key, RouteData>, order: seq<Key>, path: seq<string>)
    ensures HoldsLast(byKey, order, path, At(BuildTrie(byKey, order), path))
  {
    AtBuildIsLast(byKey, order, path);
    LastListedHolds(byKey, order, path);
  }

  // ---------- Resolution ----------

  function Deepest(node: Node, path: seq<string>, best: Option<RouteMatch>): Option<RouteMatch>
    decreases |path|
  {
    var here := if node.route.Some? then node.route else best;
    if path != [] && path[0] in node.children then Deepest(node.children[path[0]], path[1..], here) else here
  }

  ghost predicate IsDeepest(node: Node, path: seq<string>, best: Option<RouteMatch>, m: Option<RouteMatch>) {
    || (m == best && forall j :: 0 <= j <= |path| ==> At(node, path[..j]) == None)
    || exists j :: 0 <= j <= |path| && m.Some? && At(node, path[..j]) == m
         && forall i :: j < i <= |path| ==> At(node, path[..i]) == None
  }

  lemma {:induction false} DeepestIsDeepest(node: Node, path: seq<string>, best: Option<RouteMatch>)
    ensures IsDeepest(node, path, best, Deepest(node, path, best))
    decreases |path|
  {
    var m := Deepest(node, path, best);
    assert path[..0] == [];
    forall j | 0 < j <= |path|
      ensures At(node, path[..j]) ==
              if path[0] in node.children then At(node.children[path[0]], path[1..][..j - 1]) else None
    {
      assert path[..j][1..] == path[1..][..j - 1];
    }
    if path != [] && path[0] in node.children {
      var here := if node.route.Some? then node.route else best;
      var child := node.children[path[0]];
      DeepestIsDeepest(child, path[1..], here);
      if m == here && forall j :: 0 <= j <= |path[1..]| ==> At(child, path[1..][..j]) == None {
        forall i | 0 < i <= |path| ensures At(node, path[..i]) == None {
        }
        if node.route.Some? {
          assert At(node, path[..0]) == m;
        }
      } else {
        var j :| 0 <= j <= |path[1..]| && m.Some? && At(child, path[1..][..j]) == m
          && forall i :: j < i <= |path[1..]| ==> At(child, path[1..][..i]) == None;
        assert At(node, path[..j + 1]) == m;
        forall i | j + 1 < i <= |path| ensures At(node, path[..i]) == None {
        }
      }
    } else if node.route.Some? {
      assert At(node, path[..0]) == m;
    }
  }

  /** Between outer slashes, the request is the key, or continues it after a slash; an empty key serves all. */
  ghost predicate Serves(key: Key, path: string) {
    Trim(key) == "" || Trim(path) == Trim(key) || Trim(key) + "/" <= Trim(path)
  }

  /** Splits are nested exactly when the texts are equal or one continues the other after a slash. */
  lemma {:induction false} SplitPrefix(a: string, b: string)
    ensures Split(a) <= Split(b) <==> a == b || a + "/" <= b
  {
    if a != [] && b != [] {
      SplitPrefix(a[1..], b[1..]);
      assert a == [a[0]] + a[1..] && b == [b[0]] + b[1..];
      assert a + "/" == [a[0]] + (a[1..] + "/");
      assert a + "/" <= b <==> a[0] == b[0] && a[1..] + "/" <= b[1..];
      SplitHeads(a, b);
      hide Split;
    } else if a == [] && b != [] {
      assert Split(b)[0] == [] <==> b[0] == '/';
      assert [] + "/" <= b <==> b[0] == '/';
    } else if a != [] {
      assert Split(a)[0] != [] || |Split(a)| > 1;
    }
  }

  lemma SplitHeads(a: string, b: string)
    requires a != [] && b != []
    ensures Split(a) <= Split(b) <==> a[0] == b[0] && Split(a[1..]) <= Split(b[1..])
  {
    var p, q := Split(a[1..]), Split(b[1..]);
    assert Split(a) == if a[0] == '/' then [[]] + p else [[a[0]] + p[0]] + p[1..];
    assert Split(b) == if b[0] == '/' then [[]] + q else [[b[0]] + q[0]] + q[1..];
    hide Split;
    if a[0] == '/' && b[0] == '/' {
      NestedTails([[]] + p, [[]] + q);
    } else if a[0] != '/' && b[0] != '/' {
      NestedTails([[a[0]] + p[0]] + p[1..], [[b[0]] + q[0]] + q[1..]);
      NestedTails(p, q);
      Prepended(a[0], p[0], b[0], q[0]);
    } else {
      assert Split(a)[0] != Split(b)[0];
    }
  }

  lemma Prepended(x: char, s: string, y: char, t: string)
    ensures [x] + s == [y] + t <==> x == y && s == t
  {
    assert ([x] + s)[1..] == s && ([y] + t)[1..] == t;
    assert ([x] + s)[0] == x && ([y] + t)[0] == y;
  }

  lemma NestedTails(p: seq<string>, q: seq<string>)
    requires p != [] && q != []
    ensures p <= q <==> p[0] == q[0] && p[1..] <= q[1..]
  {
    assert p == [p[0]] + p[1..] && q == [q[0]] + q[1..];
  }

  /** A key serves a request exactly when its segments are a prefix of the request's. */
  lemma ServesBySegments(key: Key, path: string)
    ensures Serves(key, path) <==> Segments(key) <= Segments(path)
  {
    SplitPrefix(Trim(key), Trim(path));
  }

  /** Of two keys that serve one request, the one with more segments has the longer trimmed text. */
  lemma DeeperIsLonger(a: Key, b: Key, path: string)
    requires Serves(a, path) && Serves(b, path)
    ensures |Segments(a)| < |Segments(b)| <==> |Trim(a)| < |Trim(b)|
    ensures |Segments(a)| == |Segments(b)| ==> Trim(a) == Trim(b)
  {
    ServesBySegments(a, path);
    ServesBySegments(b, path);
    ServesBySegments(a, b);
    ServesBySegments(b, a);
    SameNode(a, b);
    hide Segments, Trim;
    if |Segments(a)| <= |Segments(b)| {
      assert Segments(a) <= Segments(b);
    } else {
      assert Segments(b) <= Segments(a);
    }
  }

  /**
   What a request resolves to after a history of changes: among the stored keys that serve it, the one with
   the longest text between outer slashes, and of those the one replaced last; nothing exactly when none serves it.
   */
  ghost predicate IsResolution(init: Ordered, cs: seq<Change>, path: string, m: Option<RouteMatch>) {
    var routes := Run(init, cs).byKey;
    match m
    case None => forall k :: k in routes ==> !Serves(k, path)
    case Some(hit) =>
      && hit.key in routes && hit.data == routes[hit.key] && Serves(hit.key, path)
      && forall k :: k in routes && Serves(k, path) && k != hit.key ==>
           || |Trim(k)| < |Trim(hit.key)|
           || (Trim(k) == Trim(hit.key) && Touched(init, cs, k) < Touched(init, cs, hit.key))
  }

  function Snapshot(r: Ordered): Node {
    BuildTrie(r.byKey, r.order)
  }

  function Resolved(root: Node, path: string): Option<RouteMatch> {
    Deepest(root, Segments(path), None)
  }

  lemma ResolveRefinesHistory(init: Ordered, cs: seq<Change>, path: string)
    requires WellFormed(init)
    ensures IsResolution(init, cs, path, Resolved(Snapshot(Run(init, cs)), path))
  {
    var r := Run(init, cs);
    var root := Snapshot(r);
    var want := Segments(path);
    var m := Resolved(root, path);
    HistoryOrder(init, cs);
    DeepestIsDeepest(root, want, None);
    forall j | 0 <= j <= |want| ensures HoldsLast(r.byKey, r.order, want[..j], At(root, want[..j])) {
      AtBuild(r.byKey, r.order, want[..j]);
    }
    if m == None {
      forall k | k in r.byKey ensures !Serves(k, path) {
        ServesBySegments(k, path);
        NoneServes(r, want, k);
      }
    } else {
      var j :| 0 <= j <= |want| && At(root, want[..j]) == m
        && forall i :: j < i <= |want| ==> At(root, want[..i]) == None;
      HitIsBest(init, cs, path, m.value, j);
    }
  }

  lemma NoneServes(r: Ordered, want: seq<string>, k: Key)
    requires WellFormed(r) && k in r.byKey
    requires forall j :: 0 <= j <= |want| ==> At(Snapshot(r), want[..j]) == None
    ensures !(Segments(k) <= want)
  {
    if Segments(k) <= want {
      var j := |Segments(k)|;
      assert want[..j] == Segments(k);
      AtBuild(r.byKey, r.order, want[..j]);
      assert false;
    }
  }

  /** A serving key sits no deeper than the hit, and at the hit's own node it is listed earlier. */
  lemma HitComesLast(r: Ordered, want: seq<string>, hit: RouteMatch, j: nat, at: nat, k: Key, i: nat)
    requires j <= |want| && HeldAt(r.byKey, r.order, want[..j], hit, at)
    requires forall n :: j < n <= |want| ==> At(Snapshot(r), want[..n]) == None
    requires i < |r.order| && r.order[i] == k && k in r.byKey && Segments(k) <= want && k != hit.key
    ensures |Segments(k)| < j || (|Segments(k)| == j && i < at)
  {
    hide Segments;
    var n := |Segments(k)|;
    assert want[..n] == Segments(k);
    if n > j {
      AtBuild(r.byKey, r.order, want[..n]);
      assert false;
    }
  }

  lemma HitIsBest(init: Ordered, cs: seq<Change>, path: string, hit: RouteMatch, j: nat)
    requires WellFormed(Run(init, cs)) && ByRecency(Run(init, cs).order, init, cs)
    requires j <= |Segments(path)|
    requires At(Snapshot(Run(init, cs)), Segments(path)[..j]) == Some(hit)
    requires forall i :: j < i <= |Segments(path)| ==> At(Snapshot(Run(init, cs)), Segments(path)[..i]) == None
    ensures IsResolution(init, cs, path, Some(hit))
  {
    var r := Run(init, cs);
    var want := Segments(path);
    AtBuild(r.byKey, r.order, want[..j]);
    var at :| HeldAt(r.byKey, r.order, want[..j], hit, at);
    ServesBySegments(hit.key, path);
    forall k | k in r.byKey && Serves(k, path) && k != hit.key
      ensures || |Trim(k)| < |Trim(hit.key)|
              || (Trim(k) == Trim(hit.key) && Touched(init, cs, k) < Touched(init, cs, hit.key))
    {
      ServesBySegments(k, path);
      DeeperIsLonger(k, hit.key, path);
      var i :| 0 <= i < |r.order| && r.order[i] == k;
      HitComesLast(r, want, hit, j, at, k, i);
    }
  }
}
