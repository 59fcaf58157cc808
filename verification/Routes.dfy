/** Values shared by every component: route keys, route records and optional values. */
module Routes {

  datatype Option<+T> = None | Some(value: T)

  /** The text of a route key. `RouteKeys` says which texts the proxy itself builds. */
  type Key = string

  /** Extension fields of a record, field name to JSON text. */
  type Extra = map<string, string>

  datatype RouteData = RouteData(target: string, lastActivity: int, extra: Extra)

  /** An observed or persisted activity stamp, in any fixed unit since any fixed instant. */
  type Stamp = int

  function Max(a: int, b: int): int {
    if a < b then b else a
  }

  /** The later of a stamp and an optional floor. */
  function Raise(at: Stamp, floor: Option<Stamp>): Stamp {
    match floor
    case None => at
    case Some(f) => Max(at, f)
  }

  predicate NoDuplicates(s: seq<Key>) {
    forall i, j :: 0 <= i < j < |s| ==> s[i] != s[j]
  }
}
