/** The process-local store: one map changed in place, kept to the contract the registry relies on. */
module MemoryStore {
  import opened Routes
  import R = Registry

  class Store {
    var routes: map<Key, RouteData>

    constructor ()
      ensures routes == map[]
    {
      routes := map[];
    }

    /** `now` is the clock and `floor` the activity floor, both read under the write lock. */
    method Add(key: Key, target: string, extra: Extra, now: Stamp, floor: Option<Stamp>) returns (data: RouteData)
      modifies this
      ensures R.Commits(R.Add(key, target, extra), floor, data) && data.lastActivity == Raise(now, floor)
      ensures routes == R.Effect(R.Add(key, target, extra), old(routes), data)
    {
      data := RouteData(target, if floor.Some? && floor.value > now then floor.value else now, extra);
      routes := routes[key := data];
    }

    method Put(key: Key, data: RouteData)
      modifies this
      ensures routes == R.Effect(R.Put(key, data), old(routes), data)
    {
      routes := routes[key := data];
    }

    method PutPreservingActivity(key: Key, data: RouteData, floor: Option<Stamp>) returns (stored: RouteData)
      modifies this
      ensures R.Commits(R.Put(key, data), floor, stored)
      ensures stored == data.(lastActivity := Raise(data.lastActivity, floor))
      ensures routes == R.Effect(R.Put(key, data), old(routes), stored)
    {
      stored := data;
      if floor.Some? {
        stored := stored.(lastActivity := Max(stored.lastActivity, floor.value));
      }
      routes := routes[key := stored];
    }

    /** The stamp is overwritten, even by an older one. */
    method UpdateActivity(key: Key, at: Stamp)
      modifies this
      ensures routes == R.Stamped(old(routes), key, at)
    {
      if key in routes {
        routes := routes[key := routes[key].(lastActivity := at)];
      }
    }

    method Delete(key: Key) returns (removed: Option<RouteData>)
      modifies this
      ensures removed == if key in old(routes) then Some(old(routes)[key]) else None
      ensures routes == old(routes) - {key}
    {
      removed := if key in routes then Some(routes[key]) else None;
      routes := routes - {key};
    }
  }
}
