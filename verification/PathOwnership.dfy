/**
 Replacement-safe cleanup of an owned directory entry. A file system maps directories to entries and
 entries to inodes. Before every system call an adversary may rewrite the parent directory in any way,
 and any call may fail; a script lists those choices, so a claim about every script is a claim about every
 adversary. The adversary cannot reach into a private directory.

 Creating a private directory is one step that yields a fresh directory, and the identity check before a
 directory is removed is one step with the removal. `trace` is history: the calls that took effect and the
 adversary's moves, in order. The directories are always what replaying it gives.
 */
module PathOwnership {
  import opened Routes

  type Inode = int
  type Name = string
  type Entries = map<Name, Inode>
  type Dirs = map<Inode, Entries>

  const CANDIDATE: Name := "candidate"
  const QUARANTINE_ATTEMPTS: nat := 8

  /** What the adversary does to the parent directory before a call. */
  datatype Move = Quiet | Rewrite(entries: Entries)

  /** The choices around one try at creating a private directory. */
  datatype Try = Try(name: Name, before: Move, fails: bool)

  datatype Script = Script(
    atStart: Move, refused: bool, tries: seq<Try>,
    beforeRename: Move, renameFails: bool, beforeGuard: Move, guardRefused: bool,
    beforeStat: Move, statFails: bool,
    afterVerify: Move, unlinkFails: bool,
    beforeRestore: Move, restoreFails: bool,
    beforeRemove: Move, removeFails: bool)

  /** No interference, no failure, and the first private name is free. */
  predicate Undisturbed(script: Script, entries: Entries) {
    && script.atStart.Quiet? && !script.refused && script.tries != []
    && script.tries[0].before.Quiet? && !script.tries[0].fails && script.tries[0].name !in entries
    && script.beforeRename.Quiet? && !script.renameFails && script.beforeGuard.Quiet? && !script.guardRefused
    && script.beforeStat.Quiet? && !script.statFails
    && script.afterVerify.Quiet? && !script.unlinkFails && script.beforeRestore.Quiet? && !script.restoreFails
    && script.beforeRemove.Quiet? && !script.removeFails
  }

  /** A call that took effect, with the names it was given. */
  datatype Call =
    | Make(parent: Inode, name: Name, dir: Inode)
    | Rename(from: Inode, source: Name, to: Inode, target: Name, inode: Inode)
    | Unlink(dir: Inode, name: Name, inode: Inode)
    | Remove(parent: Inode, name: Name, dir: Inode)

  datatype Event = Own(call: Call) | Theirs(parent: Inode, move: Move)

  datatype Renamed = Moved(inode: Inode) | NotFound | Refused

  // ---------- Effects of the calls ----------

  function Interfered(dirs: Dirs, parent: Inode, move: Move): Dirs {
    if move.Quiet? then dirs else dirs[parent := move.entries]
  }

  function RenameResult(dirs: Dirs, from: Inode, source: Name, to: Inode, target: Name): Renamed
    requires from in dirs && to in dirs
  {
    if source !in dirs[from] then NotFound
    else if target in dirs[to] || dirs[from][source] == to then Refused
    else Moved(dirs[from][source])
  }

  /** The directories after an entry of this inode has left one name for another. */
  function Relinked(dirs: Dirs, from: Inode, source: Name, to: Inode, target: Name, inode: Inode): Dirs
    requires from in dirs && to in dirs
  {
    var left := dirs[from := dirs[from] - {source}];
    left[to := left[to][target := inode]]
  }

  /** A call names what is there, and takes no name and no directory that is in use. */
  predicate Allowed(dirs: Dirs, e: Event) {
    match e
    case Theirs(parent, _) => parent in dirs
    case Own(Make(parent, name, dir)) => parent in dirs && name !in dirs[parent] && dir !in dirs
    case Own(Rename(from, source, to, target, inode)) =>
      from in dirs && to in dirs && RenameResult(dirs, from, source, to, target) == Moved(inode)
    case Own(Unlink(dir, name, inode)) => dir in dirs && name in dirs[dir] && dirs[dir][name] == inode
    case Own(Remove(parent, name, dir)) =>
      && parent in dirs && dir in dirs && dir != parent
      && name in dirs[parent] && dirs[parent][name] == dir && dirs[dir] == map[]
  }

  function Applied(dirs: Dirs, e: Event): Dirs
    requires Allowed(dirs, e)
  {
    match e
    case Theirs(parent, move) => Interfered(dirs, parent, move)
    case Own(Make(parent, name, dir)) => dirs[parent := dirs[parent][name := dir]][dir := map[]]
    case Own(Rename(from, source, to, target, inode)) => Relinked(dirs, from, source, to, target, inode)
    case Own(Unlink(dir, name, _)) => dirs[dir := dirs[dir] - {name}]
    case Own(Remove(parent, name, dir)) => dirs[parent := dirs[parent] - {name}] - {dir}
  }

  ghost predicate Legal(origin: Dirs, trace: seq<Event>)
    decreases |trace|, 0
  {
    trace == [] || (Legal(origin, trace[..|trace| - 1]) && Allowed(Replay(origin, trace[..|trace| - 1]), trace[|trace| - 1]))
  }

  ghost function Replay(origin: Dirs, trace: seq<Event>): Dirs
    requires Legal(origin, trace)
    decreases |trace|, 1
  {
    if trace == [] then origin else Applied(Replay(origin, trace[..|trace| - 1]), trace[|trace| - 1])
  }

  lemma Replays(origin: Dirs, trace: seq<Event>, e: Event)
    requires Legal(origin, trace) && Allowed(Replay(origin, trace), e)
    ensures Legal(origin, trace + [e]) && Replay(origin, trace + [e]) == Applied(Replay(origin, trace), e)
  {
    assert (trace + [e])[..|trace|] == trace;
  }

  class FileSystem {
    ghost const origin: Dirs
    var dirs: Dirs
    var next: Inode
    ghost var trace: seq<Event>

    ghost predicate Valid()
      reads this
    {
      && (forall d :: d in dirs ==> d < next)
      && Legal(origin, trace) && dirs == Replay(origin, trace)
    }

    constructor (dirs: Dirs, next: Inode)
      requires forall d :: d in dirs ==> d < next
      ensures Valid() && this.dirs == dirs && this.next == next && origin == dirs && trace == []
    {
      this.dirs, this.next := dirs, next;
      origin, trace := dirs, [];
    }

    method Interfere(parent: Inode, move: Move)
      requires Valid() && parent in dirs
      modifies this`dirs, this`trace
      ensures Valid() && dirs == Interfered(old(dirs), parent, move) && trace == old(trace) + [Theirs(parent, move)]
    {
      Replays(origin, trace, Theirs(parent, move));
      hide Legal, Replay;
      if move.Rewrite? {
        dirs := dirs[parent := move.entries];
      }
      trace := trace + [Theirs(parent, move)];
    }

    /** Creates a fresh empty directory, unless the name is taken. */
    method MakeDirectory(parent: Inode, name: Name) returns (created: Option<Inode>)
      requires Valid() && parent in dirs
      modifies this`dirs, this`next, this`trace
      ensures Valid()
      ensures if name in old(dirs)[parent]
              then created == None && dirs == old(dirs) && next == old(next) && trace == old(trace)
              else && created == Some(old(next)) && next == old(next) + 1
                   && trace == old(trace) + [Own(Make(parent, name, old(next)))]
                   && dirs == old(dirs)[parent := old(dirs)[parent][name := old(next)]][old(next) := map[]]
    {
      if name in dirs[parent] {
        return None;
      }
      var d := next;
      Replays(origin, trace, Own(Make(parent, name, d)));
      hide Legal, Replay;
      dirs := dirs[parent := dirs[parent][name := d]][d := map[]];
      next := next + 1;
      trace := trace + [Own(Make(parent, name, d))];
      created := Some(d);
    }

    /** A rename that never replaces, and never moves a directory into itself. */
    method RenameNoReplace(from: Inode, source: Name, to: Inode, target: Name, fails: bool) returns (r: Renamed)
      requires Valid() && from in dirs && to in dirs
      modifies this`dirs, this`trace
      ensures Valid()
      ensures r == if fails then Refused else RenameResult(old(dirs), from, source, to, target)
      ensures if r.Moved?
              then && dirs == Relinked(old(dirs), from, source, to, target, r.inode)
                   && trace == old(trace) + [Own(Rename(from, source, to, target, r.inode))]
              else dirs == old(dirs) && trace == old(trace)
    {
      if fails {
        return Refused;
      }
      if source !in dirs[from] {
        return NotFound;
      }
      var inode := dirs[from][source];
      if target in dirs[to] || inode == to {
        return Refused;
      }
      Replays(origin, trace, Own(Rename(from, source, to, target, inode)));
      hide Legal, Replay;
      dirs := dirs[from := dirs[from] - {source}];
      dirs := dirs[to := dirs[to][target := inode]];
      trace := trace + [Own(Rename(from, source, to, target, inode))];
      r := Moved(inode);
    }

    method UnlinkAt(dir: Inode, name: Name, fails: bool) returns (ok: bool)
      requires Valid() && dir in dirs
      modifies this`dirs, this`trace
      ensures Valid()
      ensures ok <==> !fails && name in old(dirs)[dir]
      ensures if ok
              then && dirs == old(dirs)[dir := old(dirs)[dir] - {name}]
                   && trace == old(trace) + [Own(Unlink(dir, name, old(dirs)[dir][name]))]
              else dirs == old(dirs) && trace == old(trace)
    {
      ok := !fails && name in dirs[dir];
      if ok {
        ghost var call := Own(Unlink(dir, name, dirs[dir][name]));
        Replays(origin, trace, call);
        hide Legal, Replay;
        dirs := dirs[dir := dirs[dir] - {name}];
        trace := trace + [call];
      }
    }

    /** Removes a directory if the name still leads to it and it is empty. */
    method RemoveDirectory(parent: Inode, name: Name, identity: Inode, fails: bool) returns (ok: bool)
      requires Valid() && parent in dirs && identity in dirs && identity != parent
      modifies this`dirs, this`trace
      ensures Valid()
      ensures ok <==> !fails && name in old(dirs)[parent] && old(dirs)[parent][name] == identity && old(dirs)[identity] == map[]
      ensures if ok
              then && dirs == old(dirs)[parent := old(dirs)[parent] - {name}] - {identity}
                   && trace == old(trace) + [Own(Remove(parent, name, identity))]
              else dirs == old(dirs) && trace == old(trace)
    {
      ok := !fails && name in dirs[parent] && dirs[parent][name] == identity && dirs[identity] == map[];
      if ok {
        Replays(origin, trace, Own(Remove(parent, name, identity)));
        hide Legal, Replay;
        dirs := dirs[parent := dirs[parent] - {name}] - {identity};
        trace := trace + [Own(Remove(parent, name, identity))];
      }
    }
  }

  // ---------- What a cleanup may do ----------

  /** What became of the public entry; `Abandoned` is a private directory made for nothing. */
  datatype Fate =
    | Untouched
    | Abandoned
    | Unlinked(inode: Inode)
    | Restored(inode: Inode)
    | Held(inode: Inode)

  predicate Took(fate: Fate) {
    fate.Unlinked? || fate.Restored? || fate.Held?
  }

  /** The directory cleaned, the public name in it, and the private directory with its name. */
  datatype Place = Place(directory: Inode, publicName: Name, private: Inode, name: Name)

  /** The adversary's moves before the first `n` tries. */
  function Tried(directory: Inode, tries: seq<Try>, n: nat): seq<Event>
    requires n <= |tries|
  {
    if n == 0 then [] else Tried(directory, tries, n - 1) + [Theirs(directory, tries[n - 1].before)]
  }

  /** Try number `n` is the first that no failure and no taken name stopped. */
  predicate Reserves(tries: seq<Try>, n: nat, name: Name) {
    && 0 < n <= |tries| && n <= QUARANTINE_ATTEMPTS && name == tries[n - 1].name
    && forall i :: 0 <= i < n ==> !tries[i].fails
  }

  /** Reserving ends without a directory only at a failure or after the last try. */
  predicate GivesUp(tries: seq<Try>, n: nat) {
    && n <= |tries| && n <= QUARANTINE_ATTEMPTS && (forall i :: 0 <= i < n - 1 ==> !tries[i].fails)
    && (n == |tries| || n == QUARANTINE_ATTEMPTS || (n > 0 && tries[n - 1].fails))
  }

  function Gone(at: Place, removed: bool): seq<Event> {
    if removed then [Own(Remove(at.directory, at.name, at.private))] else []
  }

  function Taking(at: Place, inode: Inode): Call {
    Rename(at.directory, at.publicName, at.private, CANDIDATE, inode)
  }

  function Returning(at: Place, inode: Inode): Call {
    Rename(at.private, CANDIDATE, at.directory, at.publicName, inode)
  }

  /** What is done with a candidate once it is known whose it is. */
  function Closing(script: Script, at: Place, fate: Fate, removed: bool): seq<Event> {
    match fate
    case Unlinked(x) =>
      [Own(Unlink(at.private, CANDIDATE, x)), Theirs(at.directory, script.beforeRemove)] + Gone(at, removed)
    case Restored(x) =>
      [Own(Returning(at, x)), Theirs(at.directory, script.beforeRemove)] + Gone(at, removed)
    case _ => []
  }

  predicate Verified(script: Script, identity: Inode, inode: Inode) {
    !script.statFails && inode == identity
  }

  function Checking(script: Script, at: Place, identity: Inode, inode: Inode): seq<Event> {
    [Theirs(at.directory, script.beforeStat),
     Theirs(at.directory, if Verified(script, identity, inode) then script.afterVerify else script.beforeRestore)]
  }

  function Opening(script: Script, at: Place): seq<Event> {
    [Own(Make(at.directory, at.name, at.private)), Theirs(at.directory, script.beforeRename)]
  }

  /** Everything from the private directory on. */
  function Inside(script: Script, at: Place, identity: Inode, fate: Fate, removed: bool): seq<Event>
    requires !fate.Untouched?
  {
    Opening(script, at) +
    if fate.Abandoned? then [Theirs(at.directory, script.beforeGuard)] + Gone(at, removed)
    else [Own(Taking(at, fate.inode))] + Checking(script, at, identity, fate.inode) + Closing(script, at, fate, removed)
  }

  /** The whole of a quarantine and what follows it: calls made and moves met, in order. */
  ghost predicate Story(steps: seq<Event>, script: Script, at: Place, identity: Inode, n: nat, fate: Fate, removed: bool) {
    && n <= |script.tries|
    && (Took(fate) ==> fate == Fated(script, at, identity, fate.inode))
    && if fate.Untouched?
       then && removed && steps == Tried(at.directory, script.tries, n)
            && if script.refused then n == 0 else GivesUp(script.tries, n)
       else && !script.refused && Reserves(script.tries, n, at.name)
            && steps == Tried(at.directory, script.tries, n) + Inside(script, at, identity, fate, removed)
  }

  /** The adversary last left something at the public name before the entry is put back. */
  predicate PlaceTaken(script: Script, publicName: Name) {
    if script.beforeRestore.Rewrite? then publicName in script.beforeRestore.entries
    else script.beforeStat.Rewrite? && publicName in script.beforeStat.entries
  }

  /** The fate of an entry once taken: the owned one is unlinked, any other put back, unless that fails. */
  function Fated(script: Script, at: Place, identity: Inode, inode: Inode): Fate {
    if Verified(script, identity, inode) then if script.unlinkFails then Held(inode) else Unlinked(inode)
    else if script.restoreFails || inode == at.directory || PlaceTaken(script, at.publicName) then Held(inode)
    else Restored(inode)
  }

  lemma {:induction false} TriedIsTheirs(directory: Inode, tries: seq<Try>, n: nat)
    requires n <= |tries|
    ensures forall e :: e in Tried(directory, tries, n) ==> e.Theirs?
  {
    if n > 0 {
      TriedIsTheirs(directory, tries, n - 1);
    }
  }

  /** A call a cleanup may make: only the owned inode is unlinked, and only the private directory removed. */
  predicate Proper(c: Call, at: Place, identity: Inode) {
    match c
    case Make(parent, name, dir) => parent == at.directory && name == at.name && dir == at.private
    case Rename(_, _, _, _, x) => c == Taking(at, x) || c == Returning(at, x)
    case Unlink(dir, name, x) => dir == at.private && name == CANDIDATE && x == identity
    case Remove(parent, name, dir) => parent == at.directory && name == at.name && dir == at.private
  }

  /**
   What a story amounts to. Nothing is unlinked but the owned inode, nothing is taken but what the public name
   led to, no directory is removed but the private one by its own name; and any other entry taken was put back
   at the public name, or is held because the call failed or its place was taken.
   */
  lemma StoryIsSafe(steps: seq<Event>, script: Script, at: Place, identity: Inode, n: nat, fate: Fate, removed: bool)
    requires Story(steps, script, at, identity, n, fate, removed) && at.directory != at.private
    ensures forall c :: Own(c) in steps ==> Proper(c, at, identity)
    ensures forall x :: Own(Taking(at, x)) in steps && x != identity ==>
              || Own(Returning(at, x)) in steps
              || (fate == Held(x) && (script.restoreFails || x == at.directory || PlaceTaken(script, at.publicName)))
  {
    TriedIsTheirs(at.directory, script.tries, n);
    if !fate.Untouched? {
      var tried, inside := Tried(at.directory, script.tries, n), Inside(script, at, identity, fate, removed);
      assert forall e :: e in steps <==> e in tried || e in inside;
      InsideIsProper(script, at, identity, fate, removed);
      hide Inside, Tried, Proper;
    }
  }

  lemma InsideIsProper(script: Script, at: Place, identity: Inode, fate: Fate, removed: bool)
    requires !fate.Untouched? && at.directory != at.private
    requires Took(fate) ==> fate == Fated(script, at, identity, fate.inode)
    ensures forall c :: Own(c) in Inside(script, at, identity, fate, removed) ==> Proper(c, at, identity)
    ensures forall x :: Own(Taking(at, x)) in Inside(script, at, identity, fate, removed) ==> Took(fate) && fate.inode == x
    ensures fate.Restored? ==> Own(Returning(at, fate.inode)) in Inside(script, at, identity, fate, removed)
  {
    var inside := Inside(script, at, identity, fate, removed);
    assert forall e :: e in Gone(at, removed) ==> e == Own(Remove(at.directory, at.name, at.private));
    if fate.Abandoned? {
      assert forall e :: e in inside ==> e.Theirs? || e in Gone(at, removed) || e == inside[0];
    } else {
      ClosingIsProper(script, at, fate, removed);
      var closing := Closing(script, at, fate, removed);
      assert forall e :: e in inside <==>
        e in Opening(script, at) || e == Own(Taking(at, fate.inode)) || e in Checking(script, at, identity, fate.inode) || e in closing;
      hide Closing, Inside;
    }
  }

  lemma ClosingIsProper(script: Script, at: Place, fate: Fate, removed: bool)
    requires Took(fate)
    ensures forall e :: e in Closing(script, at, fate, removed) ==>
              || e.Theirs?
              || e == Own(Remove(at.directory, at.name, at.private))
              || (fate.Unlinked? && e == Own(Unlink(at.private, CANDIDATE, fate.inode)))
              || (fate.Restored? && e == Own(Returning(at, fate.inode)))
    ensures fate.Restored? ==> Own(Returning(at, fate.inode)) in Closing(script, at, fate, removed)
  {
  }

  // ---------- What the calls cannot do ----------

  /** Some name leads to the inode. */
  ghost predicate Linked(dirs: Dirs, x: Inode) {
    exists d, n :: d in dirs && n in dirs[d] && dirs[d][n] == x
  }

  /** A call drops the last name of nothing but what it unlinks or the directory it removes. */
  lemma CallKeepsLinks(dirs: Dirs, c: Call, x: Inode)
    requires Allowed(dirs, Own(c)) && Linked(dirs, x)
    requires (c.Unlink? ==> c.inode != x) && (c.Remove? ==> c.dir != x)
    ensures Linked(Applied(dirs, Own(c)), x)
  {
    var d, n :| d in dirs && n in dirs[d] && dirs[d][n] == x;
    var after := Applied(dirs, Own(c));
    if c.Rename? && d == c.from && n == c.source {
      assert after[c.to][c.target] == x;
    } else {
      assert after[d][n] == x;
    }
  }

  /** A name in a directory that a call gives up or takes. */
  predicate Names(c: Call, d: Inode, n: Name) {
    match c
    case Make(parent, name, dir) => d == parent && n == name
    case Rename(from, source, to, target, _) => (d == from && n == source) || (d == to && n == target)
    case Unlink(dir, name, _) => d == dir && n == name
    case Remove(parent, name, dir) => d == parent && n == name
  }

  /** Every entry of every directory stays what it was, but those at the names the call was given. */
  lemma CallKeepsEntries(dirs: Dirs, c: Call, d: Inode, n: Name)
    requires Allowed(dirs, Own(c)) && d in dirs && !Names(c, d, n)
    ensures var after := Applied(dirs, Own(c));
            if d in after then n in after[d] <==> n in dirs[d] else n !in dirs[d]
    ensures var after := Applied(dirs, Own(c));
            n in dirs[d] ==> d in after && after[d][n] == dirs[d][n]
  {
  }

  /** A foreign inode stays linked, and an entry of the parent at a foreign name stays what it was. */
  ghost predicate Kept(before: Dirs, after: Dirs, at: Place, identity: Inode, x: Inode, m: Name) {
    && (x != identity && x != at.private && Linked(before, x) ==> Linked(after, x))
    && (at.directory in before && m != at.publicName && m != at.name ==>
          && at.directory in after
          && (m in before[at.directory] <==> m in after[at.directory])
          && (m in before[at.directory] ==> before[at.directory][m] == after[at.directory][m]))
  }

  /**
   Against every adversary: no call of a cleanup takes its last name from any inode but the owned one and the
   private directory, or touches any entry of the parent but those at the public and the private name.
   */
  lemma CleanupLosesNothing(origin: Dirs, past: seq<Event>, steps: seq<Event>, script: Script, at: Place,
                            identity: Inode, n: nat, fate: Fate, removed: bool, i: nat, x: Inode, m: Name)
    requires Story(steps, script, at, identity, n, fate, removed) && at.directory != at.private
    requires i < |steps| && steps[i].Own? && Legal(origin, past + steps[..i]) && Legal(origin, past + steps[..i + 1])
    ensures Kept(Replay(origin, past + steps[..i]), Replay(origin, past + steps[..i + 1]), at, identity, x, m)
  {
    hide Story, Proper, Legal, Replay, Kept;
    StoryIsSafe(steps, script, at, identity, n, fate, removed);
    var c, earlier := steps[i].call, past + steps[..i];
    assert Own(c) in steps && past + steps[..i + 1] == earlier + [Own(c)];
    ReplayedLast(origin, earlier, Own(c));
    ProperKeeps(Replay(origin, earlier), c, at, identity, x, m);
  }

  lemma ReplayedLast(origin: Dirs, trace: seq<Event>, e: Event)
    requires Legal(origin, trace + [e])
    ensures Legal(origin, trace) && Allowed(Replay(origin, trace), e)
    ensures Replay(origin, trace + [e]) == Applied(Replay(origin, trace), e)
  {
    assert (trace + [e])[..|trace|] == trace;
  }

  lemma ProperKeeps(before: Dirs, c: Call, at: Place, identity: Inode, x: Inode, m: Name)
    requires Allowed(before, Own(c)) && Proper(c, at, identity) && at.directory != at.private
    ensures Kept(before, Applied(before, Own(c)), at, identity, x, m)
  {
    if x != identity && x != at.private && Linked(before, x) {
      CallKeepsLinks(before, c, x);
    }
    if m != at.publicName && m != at.name && at.directory in before {
      CallKeepsEntries(before, c, at.directory, m);
      assert at.directory in Applied(before, Own(c));
    }
    hide Linked, Applied;
  }

  /** Taking an entry through a private directory and back, or away, leaves no other trace. */
  lemma Undone(dirs: Dirs, directory: Inode, publicName: Name, name: Name, private: Inode, inode: Inode)
    requires directory in dirs && private !in dirs && private != directory
    requires publicName in dirs[directory] && dirs[directory][publicName] == inode && name !in dirs[directory]
    ensures var taken := dirs[directory][name := private] - {publicName};
            var held := dirs[directory := taken][private := map[CANDIDATE := inode]];
            && held[directory := taken - {name}] - {private} == dirs[directory := dirs[directory] - {publicName}]
            && held[directory := taken[publicName := inode] - {name}] - {private} == dirs
  {
    var taken := dirs[directory][name := private] - {publicName};
    assert taken - {name} == dirs[directory] - {publicName};
    assert taken[publicName := inode] - {name} == dirs[directory];
  }

  lemma PutBack(dirs: Dirs, directory: Inode, publicName: Name, name: Name, private: Inode, inode: Inode)
    requires directory in dirs && private in dirs && private != directory
    ensures var back := Relinked(dirs, private, CANDIDATE, directory, publicName, inode);
            && back[directory] == dirs[directory][publicName := inode]
            && back[directory := back[directory] - {name}] - {private} ==
                 dirs[directory := dirs[directory][publicName := inode] - {name}] - {private}
  {
  }

  /** Reserving a private directory and giving it up leaves no trace. */
  lemma Reserved(dirs: Dirs, directory: Inode, name: Name, private: Inode)
    requires directory in dirs && private !in dirs && name !in dirs[directory]
    ensures var made := dirs[directory := dirs[directory][name := private]][private := map[]];
            made[directory := made[directory] - {name}] - {private} == dirs
  {
    assert dirs[directory][name := private] - {name} == dirs[directory];
  }

  lemma TakenThrough(dirs: Dirs, directory: Inode, name: Name, private: Inode, publicName: Name, held: Entries)
    requires directory in dirs && private != directory
    ensures var made := dirs[directory := dirs[directory][name := private]][private := map[]];
            made[directory := made[directory] - {publicName}][private := held] ==
              dirs[directory := dirs[directory][name := private] - {publicName}][private := held]
  {
  }

  /** Nothing disturbs the calls after quarantine. */
  predicate Settling(script: Script) {
    && script.beforeStat.Quiet? && !script.statFails && script.afterVerify.Quiet? && !script.unlinkFails
    && script.beforeRestore.Quiet? && !script.restoreFails && script.beforeRemove.Quiet? && !script.removeFails
  }

  /** No directory but the parent and the private one is any different. */
  ghost predicate OthersKept(before: Dirs, after: Dirs, parent: Inode, private: Inode) {
    && parent in after
    && forall d :: d != parent && d != private ==> (d in before <==> d in after) && (d in before ==> after[d] == before[d])
  }

  lemma OthersKeptOn(before: Dirs, mid: Dirs, after: Dirs, parent: Inode, private: Inode)
    requires OthersKept(before, mid, parent, private) && OthersKept(mid, after, parent, private)
    ensures OthersKept(before, after, parent, private)
  {
  }

  /** What the calls after the check leave of the trace and of the private directory. */
  ghost predicate Closed(before: seq<Event>, after: seq<Event>, dirs: Dirs, script: Script, at: Place, fate: Fate) {
    && Took(fate) && after == before + Closing(script, at, fate, at.private !in dirs)
    && LeftBehind(dirs, script, at, fate)
  }

  /**
   The private directory at the end: gone, or empty because its removal failed or its name no longer led to it,
   or holding the entry.
   */
  ghost predicate LeftBehind(dirs: Dirs, script: Script, at: Place, fate: Fate) {
    && at.directory in dirs
    && (fate.Held? ==> at.private in dirs)
    && (fate.Untouched? ==> at.private !in dirs)
    && (at.private in dirs ==>
          if fate.Held? then dirs[at.private] == map[CANDIDATE := fate.inode]
          else && dirs[at.private] == map[]
               && (|| (if fate.Abandoned? then script.guardRefused else script.removeFails)
                   || !(at.name in dirs[at.directory] && dirs[at.directory][at.name] == at.private)))
  }

  /**
   A cleanup's whole effect on the trace: the adversary's first move, then a story, in which exactly what the
   public name led to when it was renamed is taken.
   */
  ghost predicate Cleaned(origin: Dirs, before: seq<Event>, after: seq<Event>, dirs: Dirs, script: Script, at: Place,
                          identity: Inode, n: nat, fate: Fate) {
    var start := before + [Theirs(at.directory, script.atStart)];
    && LeftBehind(dirs, script, at, fate)
    && start <= after && Story(after[|start|..], script, at, identity, n, fate, at.private !in dirs)
    && (!fate.Untouched? ==>
          var past := start + Tried(at.directory, script.tries, n) + Opening(script, at);
          && Legal(origin, past) && at.directory in Replay(origin, past) && at.private in Replay(origin, past)
          && var r := RenameResult(Replay(origin, past), at.directory, at.publicName, at.private, CANDIDATE);
             if Took(fate) then !script.renameFails && r == Moved(fate.inode) else script.renameFails || !r.Moved?)
  }

  lemma SeenAtRename(origin: Dirs, past: seq<Event>, tried: seq<Event>, trace: seq<Event>, dirs: Dirs, script: Script, at: Place)
    requires Legal(origin, trace) && dirs == Replay(origin, trace) && at.directory in dirs
    requires trace == past + tried + [Own(Make(at.directory, at.name, at.private))]
    ensures var seen := past + tried + Opening(script, at);
            Legal(origin, seen) && Replay(origin, seen) == Interfered(dirs, at.directory, script.beforeRename)
  {
    hide Legal, Replay;
    Replays(origin, trace, Theirs(at.directory, script.beforeRename));
    assert past + tried + Opening(script, at) == trace + [Theirs(at.directory, script.beforeRename)];
  }

  lemma {:induction false} TakenOrNot(past: seq<Event>, trace: seq<Event>, script: Script, at: Place, identity: Inode, n: nat,
                   inode: Option<Inode>, removed: bool)
    requires !script.refused && Reserves(script.tries, n, at.name)
    requires trace == past + Tried(at.directory, script.tries, n) + [Own(Make(at.directory, at.name, at.private))] +
                        [Theirs(at.directory, script.beforeRename)] +
                        if inode.Some? then [Own(Taking(at, inode.value))]
                        else [Theirs(at.directory, script.beforeGuard)] + Gone(at, removed)
    ensures if inode.Some?
            then trace == past + Tried(at.directory, script.tries, n) + Opening(script, at) + [Own(Taking(at, inode.value))]
            else past <= trace && Story(trace[|past|..], script, at, identity, n, Abandoned, removed)
  {
    var tried := Tried(at.directory, script.tries, n);
    if inode.None? {
      assert trace == past + (tried + Inside(script, at, identity, Abandoned, removed));
    }
  }

  lemma {:induction false} ClosedIsStory(past: seq<Event>, trace: seq<Event>, dirs: Dirs, script: Script, at: Place, identity: Inode,
                      n: nat, inode: Inode, fate: Fate)
    requires !script.refused && Reserves(script.tries, n, at.name) && fate == Fated(script, at, identity, inode)
    requires var taken := past + Tried(at.directory, script.tries, n) + Opening(script, at) + [Own(Taking(at, inode))];
             Closed(taken + Checking(script, at, identity, inode), trace, dirs, script, at, fate)
    ensures past <= trace && Story(trace[|past|..], script, at, identity, n, fate, at.private !in dirs)
    ensures Took(fate) && fate.inode == inode
    ensures LeftBehind(dirs, script, at, fate)
  {
    var removed := at.private !in dirs;
    assert trace == past + (Tried(at.directory, script.tries, n) + Inside(script, at, identity, fate, removed));
  }

  class OwnedPath {
    const fs: FileSystem
    const identity: Inode
    var directory: Inode
    var publicName: Name
    var active: bool

    ghost predicate Valid()
      reads this, fs
    {
      fs.Valid() && directory in fs.dirs
    }

    constructor (fs: FileSystem, directory: Inode, publicName: Name, identity: Inode)
      requires fs.Valid() && directory in fs.dirs
      ensures this.fs == fs && this.directory == directory && this.publicName == publicName
      ensures this.identity == identity && active && Valid()
    {
      this.fs, this.directory, this.publicName, this.identity := fs, directory, publicName, identity;
      active := true;
    }

    /** Reserves a private directory under the first of the tried names that is free. */
    method Reserve(tries: seq<Try>) returns (name: Option<Name>, ghost n: nat)
      requires Valid()
      modifies fs`dirs, fs`next, fs`trace
      ensures Valid() && OthersKept(old(fs.dirs), fs.dirs, directory, old(fs.next)) && n <= |tries|
      ensures if name.Some?
              then && Reserves(tries, n, name.value) && fs.next == old(fs.next) + 1
                   && fs.trace == old(fs.trace) + Tried(directory, tries, n) + [Own(Make(directory, name.value, old(fs.next)))]
                   && name.value in fs.dirs[directory] && fs.dirs[directory][name.value] == old(fs.next)
                   && old(fs.next) in fs.dirs && fs.dirs[old(fs.next)] == map[]
              else && GivesUp(tries, n) && fs.trace == old(fs.trace) + Tried(directory, tries, n)
                   && fs.next == old(fs.next) && old(fs.next) !in fs.dirs
      ensures tries != [] && tries[0].before.Quiet? && !tries[0].fails && tries[0].name !in old(fs.dirs)[directory] ==>
                && name == Some(tries[0].name)
                && fs.dirs == old(fs.dirs)[directory := old(fs.dirs)[directory][tries[0].name := old(fs.next)]][old(fs.next) := map[]]
    {
      hide Legal, Replay;
      n := 0;
      var i := 0;
      while i < QUARANTINE_ATTEMPTS
        invariant Valid() && fs.next == old(fs.next) && n == i <= |tries|
        invariant fs.trace == old(fs.trace) + Tried(directory, tries, i)
        invariant OthersKept(old(fs.dirs), fs.dirs, directory, old(fs.next)) && old(fs.next) !in fs.dirs
        invariant 0 <= i <= QUARANTINE_ATTEMPTS && (i == 0 ==> fs.dirs == old(fs.dirs))
        invariant i > 0 && tries[0].before.Quiet? && !tries[0].fails ==> tries[0].name in old(fs.dirs)[directory]
        invariant forall j :: 0 <= j < i ==> !tries[j].fails
      {
        if i >= |tries| {
          return None, n;
        }
        fs.Interfere(directory, tries[i].before);
        n := n + 1;
        assert fs.trace == old(fs.trace) + Tried(directory, tries, n);
        if tries[i].fails {
          return None, n;
        }
        var created := fs.MakeDirectory(directory, tries[i].name);
        if created.Some? {
          return Some(tries[i].name), n;
        }
        i := i + 1;
      }
      name := None;
    }

    /** Moves exactly what the public name leads to into a private directory, or gives that directory up. */
    method MoveIn(name: Name, private: Inode, script: Script) returns (inode: Option<Inode>)
      requires Valid() && private in fs.dirs && private != directory && fs.dirs[private] == map[]
      modifies fs`dirs, fs`trace
      ensures Valid() && OthersKept(old(fs.dirs), fs.dirs, directory, private)
      ensures var seen := Interfered(old(fs.dirs), directory, script.beforeRename);
              var r := RenameResult(seen, directory, publicName, private, CANDIDATE);
              inode == if !script.renameFails && r.Moved? then Some(r.inode) else None
      ensures var at := Place(directory, publicName, private, name);
              fs.trace == old(fs.trace) + [Theirs(directory, script.beforeRename)] +
                if inode.Some? then [Own(Taking(at, inode.value))]
                else [Theirs(directory, script.beforeGuard)] + Gone(at, private !in fs.dirs)
      ensures inode.Some? ==>
                && private in fs.dirs && fs.dirs[private] == map[CANDIDATE := inode.value]
                && publicName !in fs.dirs[directory]
      ensures inode.None? ==> LeftBehind(fs.dirs, script, Place(directory, publicName, private, name), Abandoned)
      ensures var entries := old(fs.dirs)[directory];
              script.beforeRename.Quiet? && !script.renameFails && publicName in entries && entries[publicName] != private ==>
                && inode == Some(entries[publicName])
                && fs.dirs == old(fs.dirs)[directory := entries - {publicName}][private := map[CANDIDATE := inode.value]]
      ensures var entries := old(fs.dirs)[directory];
              script.beforeRename.Quiet? && script.beforeGuard.Quiet? && !script.guardRefused && publicName !in entries
              && name in entries && entries[name] == private ==>
                inode == None && fs.dirs == old(fs.dirs)[directory := entries - {name}] - {private}
    {
      hide Legal, Replay;
      fs.Interfere(directory, script.beforeRename);
      var r := fs.RenameNoReplace(directory, publicName, private, CANDIDATE, script.renameFails);
      if r.Moved? {
        return Some(r.inode);
      }
      inode := None;
      DropNamespace(name, private, script);
    }

    /** The guard of a private directory nothing was moved into. */
    method DropNamespace(name: Name, private: Inode, script: Script)
      requires Valid() && private in fs.dirs && private != directory && fs.dirs[private] == map[]
      modifies fs`dirs, fs`trace
      ensures Valid() && OthersKept(old(fs.dirs), fs.dirs, directory, private)
      ensures fs.trace == old(fs.trace) +
                ([Theirs(directory, script.beforeGuard)] + Gone(Place(directory, publicName, private, name), private !in fs.dirs))
      ensures LeftBehind(fs.dirs, script, Place(directory, publicName, private, name), Abandoned)
      ensures private !in fs.dirs <==>
                && !script.guardRefused
                && var entries := Interfered(old(fs.dirs), directory, script.beforeGuard)[directory];
                   name in entries && entries[name] == private
      ensures script.beforeGuard.Quiet? && !script.guardRefused
              && name in old(fs.dirs)[directory] && old(fs.dirs)[directory][name] == private ==>
                fs.dirs == old(fs.dirs)[directory := old(fs.dirs)[directory] - {name}] - {private}
    {
      hide Legal, Replay;
      fs.Interfere(directory, script.beforeGuard);
      if !script.guardRefused {
        var ok := fs.RemoveDirectory(directory, name, private, false);
      }
    }

    /** Takes what the public name leads to, or leaves it untouched. */
    method Quarantine(script: Script) returns (name: Name, inode: Option<Inode>, made: bool, ghost n: nat)
      requires Valid()
      modifies fs`dirs, fs`next, fs`trace
      ensures Valid() && OthersKept(old(fs.dirs), fs.dirs, directory, old(fs.next)) && n <= |script.tries|
      ensures var at := Place(directory, publicName, old(fs.next), name);
              if inode.Some?
              then && made && !script.refused && Reserves(script.tries, n, name)
                   && fs.trace == old(fs.trace) + Tried(directory, script.tries, n) + Opening(script, at) + [Own(Taking(at, inode.value))]
                   && old(fs.next) in fs.dirs && fs.dirs[old(fs.next)] == map[CANDIDATE := inode.value]
                   && publicName !in fs.dirs[directory]
              else var fate := if made then Abandoned else Untouched;
                   && old(fs.trace) <= fs.trace
                   && Story(fs.trace[|old(fs.trace)|..], script, at, identity, n, fate, old(fs.next) !in fs.dirs)
                   && LeftBehind(fs.dirs, script, at, fate)
      ensures made ==>
                var past := old(fs.trace) + Tried(directory, script.tries, n) + Opening(script, Place(directory, publicName, old(fs.next), name));
                && Legal(fs.origin, past) && directory in Replay(fs.origin, past) && old(fs.next) in Replay(fs.origin, past)
                && var r := RenameResult(Replay(fs.origin, past), directory, publicName, old(fs.next), CANDIDATE);
                   inode == if !script.renameFails && r.Moved? then Some(r.inode) else None
      ensures var entries := old(fs.dirs)[directory];
              Undisturbed(script, entries) && publicName in entries && entries[publicName] < old(fs.next) ==>
                && inode == Some(entries[publicName]) && name == script.tries[0].name
                && fs.dirs == old(fs.dirs)[directory := entries[name := old(fs.next)] - {publicName}]
                                          [old(fs.next) := map[CANDIDATE := inode.value]]
      ensures var entries := old(fs.dirs)[directory];
              Undisturbed(script, entries) && publicName !in entries && publicName != script.tries[0].name ==>
                inode == None && fs.dirs == old(fs.dirs)
    {
      hide Legal, Replay;
      name, inode, made, n := "", None, false, 0;
      if script.refused {
        return;
      }
      var private := fs.next;
      ghost var past, dirs0 := fs.trace, fs.dirs;
      var reserved;
      reserved, n := Reserve(script.tries);
      if reserved.None? {
        assert fs.trace[|past|..] == Tried(directory, script.tries, n);
        return;
      }
      name, made := reserved.value, true;
      ghost var at := Place(directory, publicName, private, name);
      hide OthersKept;
      ghost var dirs1 := fs.dirs;
      SeenAtRename(fs.origin, past, Tried(directory, script.tries, n), fs.trace, fs.dirs, script, at);
      inode := MoveIn(name, private, script);
      OthersKeptOn(dirs0, dirs1, fs.dirs, directory, private);
      TakenOrNot(past, fs.trace, script, at, identity, n, inode, private !in fs.dirs);
      if Undisturbed(script, dirs0[directory]) {
        Reserved(dirs0, directory, name, private);
        if inode.Some? {
          TakenThrough(dirs0, directory, name, private, publicName, map[CANDIDATE := inode.value]);
        }
      }
      hide Story;
    }

    /** Removes the empty private directory if its name still leads to it. */
    method RemovePrivate(name: Name, private: Inode, script: Script) returns (ok: bool)
      requires Valid() && private in fs.dirs && private != directory && fs.dirs[private] == map[]
      modifies fs`dirs, fs`trace
      ensures Valid() && OthersKept(old(fs.dirs), fs.dirs, directory, private)
      ensures fs.trace == old(fs.trace) +
                ([Theirs(directory, script.beforeRemove)] + Gone(Place(directory, publicName, private, name), private !in fs.dirs))
      ensures private in fs.dirs ==>
                && fs.dirs[private] == map[]
                && (script.removeFails || !(name in fs.dirs[directory] && fs.dirs[directory][name] == private))
      ensures var entries := Interfered(old(fs.dirs), directory, script.beforeRemove)[directory];
              && (ok <==> private !in fs.dirs)
              && (ok <==> !script.removeFails && name in entries && entries[name] == private)
      ensures script.beforeRemove.Quiet? && ok ==>
                fs.dirs == old(fs.dirs)[directory := old(fs.dirs)[directory] - {name}] - {private}
    {
      hide Legal, Replay;
      fs.Interfere(directory, script.beforeRemove);
      ok := fs.RemoveDirectory(directory, name, private, script.removeFails);
    }

    /** Unlinks the verified candidate, then its directory. */
    method RemoveQuarantine(name: Name, private: Inode, script: Script) returns (ok: bool, fate: Fate)
      requires Valid() && private in fs.dirs && private != directory && fs.dirs[private] == map[CANDIDATE := identity]
      modifies fs`dirs, fs`trace
      ensures Valid() && OthersKept(old(fs.dirs), fs.dirs, directory, private)
      ensures fate == if script.unlinkFails then Held(identity) else Unlinked(identity)
      ensures Closed(old(fs.trace), fs.trace, fs.dirs, script, Place(directory, publicName, private, name), fate)
      ensures ok <==> private !in fs.dirs
      ensures script.beforeRemove.Quiet? && !script.unlinkFails && !script.removeFails
              && name in old(fs.dirs)[directory] && old(fs.dirs)[directory][name] == private ==>
                fs.dirs == old(fs.dirs)[directory := old(fs.dirs)[directory] - {name}] - {private}
    {
      hide Legal, Replay;
      var unlinked := fs.UnlinkAt(private, CANDIDATE, script.unlinkFails);
      if !unlinked {
        return false, Held(identity);
      }
      assert fs.dirs[private] == map[];
      ok := RemovePrivate(name, private, script);
      fate := Unlinked(identity);
    }

    /** Puts a foreign candidate back at the public name if that is free, then removes its directory. */
    method RestoreQuarantine(name: Name, private: Inode, inode: Inode, script: Script) returns (ok: bool, fate: Fate)
      requires Valid() && private in fs.dirs && private != directory && fs.dirs[private] == map[CANDIDATE := inode]
      modifies fs`dirs, fs`trace
      ensures Valid() && OthersKept(old(fs.dirs), fs.dirs, directory, private)
      ensures fate == if script.restoreFails || publicName in old(fs.dirs)[directory] || inode == directory
                      then Held(inode) else Restored(inode)
      ensures Closed(old(fs.trace), fs.trace, fs.dirs, script, Place(directory, publicName, private, name), fate)
      ensures ok <==> private !in fs.dirs
      ensures script.beforeRemove.Quiet? && !script.removeFails && fate.Restored?
              && name in old(fs.dirs)[directory] && old(fs.dirs)[directory][name] == private ==>
                fs.dirs == old(fs.dirs)[directory := old(fs.dirs)[directory][publicName := inode] - {name}] - {private}
    {
      hide Legal, Replay;
      var r := fs.RenameNoReplace(private, CANDIDATE, directory, publicName, script.restoreFails);
      if !r.Moved? {
        return false, Held(inode);
      }
      assert fs.dirs[private] == map[];
      PutBack(old(fs.dirs), directory, publicName, name, private, inode);
      ok := RemovePrivate(name, private, script);
      fate := Restored(inode);
    }

    /** Verifies what was taken and removes it or puts it back. */
    method Conclude(name: Name, private: Inode, inode: Inode, script: Script) returns (ok: bool, fate: Fate)
      requires Valid() && private in fs.dirs && private != directory && fs.dirs[private] == map[CANDIDATE := inode]
      requires publicName !in fs.dirs[directory]
      modifies fs`dirs, fs`trace
      ensures Valid() && OthersKept(old(fs.dirs), fs.dirs, directory, private)
      ensures var at := Place(directory, publicName, private, name);
              && fate == Fated(script, at, identity, inode)
              && Closed(old(fs.trace) + Checking(script, at, identity, inode), fs.trace, fs.dirs, script, at, fate)
      ensures ok <==> private !in fs.dirs
      ensures Settling(script) && name in old(fs.dirs)[directory] && old(fs.dirs)[directory][name] == private
              && (inode == identity || inode != directory) ==>
                && fate == (if inode == identity then Unlinked(inode) else Restored(inode))
                && var entries := old(fs.dirs)[directory];
                   fs.dirs == old(fs.dirs)[directory :=
                     if inode == identity then entries - {name} else entries[publicName := inode] - {name}] - {private}
    {
      hide Legal, Replay, Closed;
      ghost var at, past := Place(directory, publicName, private, name), fs.trace;
      fs.Interfere(directory, script.beforeStat);
      if !script.statFails && fs.dirs[private][CANDIDATE] == identity {
        fs.Interfere(directory, script.afterVerify);
        assert fs.trace == past + Checking(script, at, identity, inode);
        ok, fate := RemoveQuarantine(name, private, script);
      } else {
        fs.Interfere(directory, script.beforeRestore);
        assert fs.trace == past + Checking(script, at, identity, inode);
        ok, fate := RestoreQuarantine(name, private, inode, script);
      }
    }

    /**
     Cleanup against every adversary. The calls made and the moves met are exactly those of the story of one
     fate, so that the directories are what replaying it gives: what is taken is what the public name led to;
     the owned inode is unlinked; anything else is back at the public name, or held in the private directory,
     whose path is then returned, because the call failed or the adversary took its place; and the only
     directory ever removed is the empty private one made here. A second cleanup does nothing.
     */
    method Cleanup(script: Script) returns (kept: bool, fate: Fate)
      requires Valid()
      modifies this`active, fs`dirs, fs`next, fs`trace
      ensures Valid() && !active && OthersKept(old(fs.dirs), fs.dirs, directory, old(fs.next))
      ensures old(active) ==>
                exists name, n :: Cleaned(fs.origin, old(fs.trace), fs.trace, fs.dirs, script,
                                          Place(directory, publicName, old(fs.next), name), identity, n, fate)
      ensures kept <==> Took(fate) && old(fs.next) in fs.dirs
      ensures !old(active) ==> fate.Untouched? && fs.dirs == old(fs.dirs) && fs.trace == old(fs.trace)
      ensures old(active) && Undisturbed(script, old(fs.dirs)[directory]) && publicName in old(fs.dirs)[directory]
              && old(fs.dirs)[directory][publicName] < old(fs.next) && old(fs.dirs)[directory][publicName] != directory ==>
                var inode := old(fs.dirs)[directory][publicName];
                && !kept
                && if inode == identity
                   then fate == Unlinked(identity) && fs.dirs == old(fs.dirs)[directory := old(fs.dirs)[directory] - {publicName}]
                   else fate == Restored(inode) && fs.dirs == old(fs.dirs)
      ensures old(active) && Undisturbed(script, old(fs.dirs)[directory]) && publicName !in old(fs.dirs)[directory]
              && publicName != script.tries[0].name ==>
                !Took(fate) && fs.dirs == old(fs.dirs)
    {
      hide Legal, Replay, Story, Closed, Fated;
      if !active {
        return false, Untouched;
      }
      active := false;
      ghost var start := fs.trace;
      fs.Interfere(directory, script.atStart);
      var private := fs.next;
      ghost var past, dirs0 := fs.trace, fs.dirs;
      assert OthersKept(old(fs.dirs), dirs0, directory, private);
      var name, inode, made;
      ghost var n;
      name, inode, made, n := Quarantine(script);
      ghost var at := Place(directory, publicName, private, name);
      if inode.None? {
        kept, fate := false, if made then Abandoned else Untouched;
        assert Cleaned(fs.origin, start, fs.trace, fs.dirs, script, at, identity, n, fate);
        return;
      }
      hide OthersKept;
      ghost var dirs1 := fs.dirs;
      var ok;
      ok, fate := Conclude(name, private, inode.value, script);
      OthersKeptOn(dirs0, dirs1, fs.dirs, directory, private);
      OthersKeptOn(old(fs.dirs), dirs0, fs.dirs, directory, private);
      kept := !ok;
      ClosedIsStory(past, fs.trace, fs.dirs, script, at, identity, n, inode.value, fate);
      assert Cleaned(fs.origin, start, fs.trace, fs.dirs, script, at, identity, n, fate);
      if Undisturbed(script, dirs0[directory]) && publicName in dirs0[directory] && dirs0[directory][publicName] < private {
        Undone(dirs0, directory, publicName, name, private, inode.value);
      }
    }

    /**
     Moves the owned entry into a destination directory without replacing anything there, and only then
     adopts the new place. A failed publication changes nothing.
     */
    method PublishInto(destination: Inode, name: Name, refused: bool, before: Move, fails: bool) returns (ok: bool)
      requires Valid() && destination in fs.dirs
      modifies this, fs`dirs, fs`trace
      ensures Valid() && active == old(active)
      ensures var dirs := if refused then old(fs.dirs) else Interfered(old(fs.dirs), destination, before);
              var r := RenameResult(dirs, old(directory), old(publicName), destination, name);
              && (ok <==> !refused && !fails && r.Moved?)
              && if ok
                 then && directory == destination && publicName == name && name !in dirs[destination]
                      && fs.dirs == Relinked(dirs, old(directory), old(publicName), destination, name, r.inode)
                 else directory == old(directory) && publicName == old(publicName) && fs.dirs == dirs
    {
      hide Legal, Replay;
      if refused {
        return false;
      }
      fs.Interfere(destination, before);
      var r := fs.RenameNoReplace(directory, publicName, destination, name, fails);
      if !r.Moved? {
        return false;
      }
      directory, publicName := destination, name;
      ok := true;
    }
  }
}
