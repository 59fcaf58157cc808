/** The route index as the proxy runs it: lists and maps updated in place, and loops over them. */
module RouteIndex {
  import opened Routes
  import opened RouteTable

  /** Key order: by characters, a proper prefix first. */
  predicate Less(a: Key, b: Key) {
    b != [] && (a == [] || a[0] < b[0] || (a[0] == b[0] && Less(a[1..], b[1..])))
  }

  lemma {:induction false} LessIrreflexive(a: Key)
    ensures !Less(a, a)
  {
    if a != [] {
      LessIrreflexive(a[1..]);
    }
  }

  lemma {:induction false} LessTransitive(a: Key, b: Key, c: Key)
    requires Less(a, b) && Less(b, c)
    ensures Less(a, c)
  {
    if a != [] && a[0] == b[0] == c[0] {
      LessTransitive(a[1..], b[1..], c[1..]);
    }
  }

  lemma {:induction false} LessTotal(a: Key, b: Key)
    requires a != b
    ensures Less(a, b) || Less(b, a)
  {
    if a != [] && b != [] && a[0] == b[0] {
      assert a == [a[0]] + a[1..] && b == [b[0]] + b[1..];
      LessTotal(a[1..], b[1..]);
    }
  }

  predicate Ascending(keys: seq<Key>) {
    forall i, j :: 0 <= i < j < |keys| ==> Less(keys[i], keys[j])
  }

  lemma AscendingIsDistinct(keys: seq<Key>)
    requires Ascending(keys)
    ensures NoDuplicates(keys)
  {
    forall i, j | 0 <= i < j < |keys| ensures keys[i] != keys[j] {
      LessIrreflexive(keys[i]);
    }
  }

  /** A set of keys has one ascending listing. */
  lemma {:induction false} AscendingIsUnique(a: seq<Key>, b: seq<Key>)
    requires Ascending(a) && Ascending(b) && forall k :: k in a <==> k in b
    ensures a == b
  {
    assert a == [] || a[0] in b;
    assert b == [] || b[0] in a;
    if a != [] && b != [] {
      FirstIsLeast(a, b[0]);
      FirstIsLeast(b, a[0]);
      forall k ensures k in a[1..] <==> k in b[1..] {
        TailDropsFirst(a, k);
        TailDropsFirst(b, k);
      }
      AscendingIsUnique(a[1..], b[1..]);
      assert a == [a[0]] + a[1..] && b == [b[0]] + b[1..];
    }
  }

  lemma FirstIsLeast(keys: seq<Key>, key: Key)
    requires Ascending(keys) && key in keys
    ensures key == keys[0] || !Less(key, keys[0])
  {
    if key != keys[0] && Less(key, keys[0]) {
      LessTransitive(key, keys[0], key);
      LessIrreflexive(key);
    }
  }

  lemma TailDropsFirst(keys: seq<Key>, key: Key)
    requires Ascending(keys) && keys != []
    ensures key in keys[1..] <==> key in keys && key != keys[0]
  {
    AscendingIsDistinct(keys);
  }

  method Least(keys: set<Key>) returns (least: Key)
    requires keys != {}
    ensures least in keys && forall k :: k in keys && k != least ==> Less(least, k)
  {
    least :| least in keys;
    var rest := keys - {least};
    while rest != {}
      invariant rest <= keys && least in keys
      invariant forall k :: k in keys && k !in rest && k != least ==> Less(least, k)
    {
      var key :| key in rest;
      if Less(key, least) {
        forall k | k in keys && k !in rest && k != least ensures Less(key, k) {
          LessTransitive(key, least, k);
        }
        least := key;
      } else if key != least {
        LessTotal(key, least);
      }
      rest := rest - {key};
    }
  }

  /** The keys of a sorted map in the order the map is walked. */
  method Walk(keys: set<Key>) returns (walked: seq<Key>)
    ensures Ascending(walked) && forall k :: k in walked <==> k in keys
  {
    walked := [];
    var rest := keys;
    while rest != {}
      invariant rest <= keys && Ascending(walked)
      invariant forall k :: k in walked <==> k in keys && k !in rest
      invariant forall a, b :: a in walked && b in rest ==> Less(a, b)
    {
      var least := Least(rest);
      walked := walked + [least];
      rest := rest - {least};
    }
  }

  class OrderedRoutes {
    var byKey: map<Key, RouteData>
    var mutationOrder: seq<Key>

    ghost function View(): Ordered
      reads this
    {
      Ordered(byKey, mutationOrder)
    }

    /** A loaded map, its keys listed in ascending order: `AscendingIsUnique` says there is one such list. */
    constructor FromSorted(routes: map<Key, RouteData>)
      ensures byKey == routes && Ascending(mutationOrder) && WellFormed(View())
    {
      byKey := routes;
      var walked := Walk(routes.Keys);
      mutationOrder := walked;
      new;
      AscendingIsDistinct(walked);
    }

    method Retain(key: Key)
      modifies this`mutationOrder
      ensures mutationOrder == Without(old(mutationOrder), key)
    {
      var kept: seq<Key> := [];
      var i := 0;
      while i < |mutationOrder|
        invariant 0 <= i <= |mutationOrder|
        invariant mutationOrder == old(mutationOrder)
        invariant kept == Without(mutationOrder[..i], key)
      {
        assert mutationOrder[..i + 1][..i] == mutationOrder[..i];
        if mutationOrder[i] != key {
          kept := kept + [mutationOrder[i]];
        }
        i := i + 1;
      }
      assert mutationOrder[..i] == mutationOrder;
      mutationOrder := kept;
    }

    method Replace(key: Key, data: RouteData)
      modifies this
      ensures View() == Apply(old(View()), Change.Replace(key, data))
    {
      Retain(key);
      mutationOrder := mutationOrder + [key];
      byKey := byKey[key := data];
    }

    method ReplacePreservingActivity(key: Key, data: RouteData)
      modifies this
      ensures View() == Apply(old(View()), ReplacePreserving(key, data))
    {
      var stamped := data;
      if key in byKey {
        stamped := stamped.(lastActivity := Max(stamped.lastActivity, byKey[key].lastActivity));
      }
      Replace(key, stamped);
    }

    method UpdateActivity(key: Key, at: Stamp)
      modifies this
      ensures View() == Apply(old(View()), Bump(key, at))
    {
      if key in byKey {
        var route := byKey[key];
        byKey := byKey[key := route.(lastActivity := Max(route.lastActivity, at))];
      }
    }

    method Remove(key: Key)
      modifies this
      ensures View() == Apply(old(View()), Change.Remove(key))
    {
      byKey := byKey - {key};
      Retain(key);
    }
  }

  /** Builds the trie one listed key at a time, passing over a key that has no record. */
  method BuildSnapshot(routes: Ordered) returns (root: Node)
    ensures root == Snapshot(routes)
  {
    root := EMPTY;
    var i := 0;
    while i < |routes.order|
      invariant 0 <= i <= |routes.order|
      invariant root == BuildTrie(routes.byKey, routes.order[..i])
    {
      var key := routes.order[i];
      assert routes.order[..i + 1][..i] == routes.order[..i];
      i := i + 1;
      if key !in routes.byKey {
        continue;
      }
      root := Insert(root, Segments(key), RouteMatch(key, routes.byKey[key]));
    }
    assert routes.order[..i] == routes.order;
  }

  /** Walks the trie along the request, remembering the last route passed. */
  method Resolve(root: Node, path: string) returns (matched: Option<RouteMatch>)
    ensures matched == Resolved(root, path)
  {
    var node := root;
    matched := node.route;
    var rest := Segments(path);
    while rest != []
      invariant node.route.Some? ==> matched == node.route
      invariant Resolved(root, path) == Deepest(node, rest, matched)
      decreases |rest|
    {
      if rest[0] !in node.children {
        break;
      }
      node := node.children[rest[0]];
      rest := rest[1..];
      if node.route.Some? {
        matched := node.route;
      }
    }
  }

  /** A request answered after any history of changes gets that history's resolution. */
  method ResolveAfter(init: Ordered, cs: seq<Change>, path: string) returns (matched: Option<RouteMatch>)
    requires WellFormed(init)
    ensures IsResolution(init, cs, path, matched)
  {
    var root := BuildSnapshot(Run(init, cs));
    matched := Resolve(root, path);
    ResolveRefinesHistory(init, cs, path);
  }
}
