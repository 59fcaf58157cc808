/**
 Mutation admission: the seal, the count of unfinished mutations, and the bounded ring of
 diagnostics nobody was waiting for. The class below is the code; the functions say what each
 call does to the tracker's value, and the ring is specified by the full list of what was recorded.
 */
module Tracker {
  import opened Routes

  datatype Operation = Add | Put | UpdateActivity | Delete
  datatype Seal = Open | Shutdown | BackendPanic | Indeterminate
  datatype Kind = Failure | Panic

  /** One unobserved result: what went wrong, in which operation, of which admitted mutation. */
  datatype Diagnostic = Diagnostic(kind: Kind, operation: Operation, task: nat)

  const RING_CAPACITY: nat := 256
  const USIZE_MAX: nat := 0xFFFF_FFFF_FFFF_FFFF

  datatype State = State(
    seal: Seal, active: nat, ring: seq<Diagnostic>, droppedFailures: nat, droppedPanics: nat)

  datatype Outcome = Outcome(
    timedOut: bool, active: nat, failures: seq<Diagnostic>, panics: seq<Diagnostic>,
    droppedFailures: nat, droppedPanics: nat)

  const FRESH := State(Open, 0, [], 0, 0)

  predicate Terminal(seal: Seal) {
    seal.BackendPanic? || seal.Indeterminate?
  }

  function Cap(n: nat): nat {
    if n > USIZE_MAX then USIZE_MAX else n
  }

  function Pushed(s: State, d: Diagnostic): State {
    if |s.ring| == RING_CAPACITY then
      var room := s.(ring := s.ring[1..] + [d]);
      if s.ring[0].kind.Failure? then room.(droppedFailures := Cap(s.droppedFailures + 1))
      else room.(droppedPanics := Cap(s.droppedPanics + 1))
    else s.(ring := s.ring + [d])
  }

  function Begun(s: State): State {
    s.(active := Cap(s.active + 1))
  }

  function Released(s: State): State {
    s.(active := if s.active == 0 then 0 else s.active - 1)
  }

  function Finished(s: State, recorded: Option<Diagnostic>): State {
    match recorded
    case None => Released(s)
    case Some(d) => Pushed(Released(s), d)
  }

  function SealedForShutdown(s: State): State {
    if s.seal.Open? then s.(seal := Shutdown) else s
  }

  function OfKind(ds: seq<Diagnostic>, kind: Kind): seq<Diagnostic> {
    if ds == [] then []
    else OfKind(ds[..|ds| - 1], kind) + (if ds[|ds| - 1].kind == kind then [ds[|ds| - 1]] else [])
  }

  function OutcomeOf(s: State, timedOut: bool): Outcome {
    Outcome(timedOut, s.active, OfKind(s.ring, Failure), OfKind(s.ring, Panic), s.droppedFailures, s.droppedPanics)
  }

  function Emptied(s: State): State {
    s.(ring := [], droppedFailures := 0, droppedPanics := 0)
  }

  // ---------- What the ring stands for ----------

  function Newest(all: seq<Diagnostic>): seq<Diagnostic> {
    if |all| <= RING_CAPACITY then all else all[|all| - RING_CAPACITY..]
  }

  function Older(all: seq<Diagnostic>): seq<Diagnostic> {
    if |all| <= RING_CAPACITY then [] else all[..|all| - RING_CAPACITY]
  }

  /** The tracker after recording `all` since its last drain. */
  ghost predicate Retains(s: State, all: seq<Diagnostic>) {
    && s.ring == Newest(all)
    && s.droppedFailures == Cap(|OfKind(Older(all), Failure)|)
    && s.droppedPanics == Cap(|OfKind(Older(all), Panic)|)
  }

  lemma {:induction false} OfKindConcat(a: seq<Diagnostic>, b: seq<Diagnostic>, kind: Kind)
    ensures OfKind(a + b, kind) == OfKind(a, kind) + OfKind(b, kind)
  {
    if b == [] {
      assert a + b == a;
    } else {
      OfKindConcat(a, b[..|b| - 1], kind);
      assert (a + b)[..|a + b| - 1] == a + b[..|b| - 1];
    }
  }

  lemma OfKindAppend(a: seq<Diagnostic>, d: Diagnostic, kind: Kind)
    ensures |OfKind(a + [d], kind)| == |OfKind(a, kind)| + if d.kind == kind then 1 else 0
  {
    assert (a + [d])[..|a|] == a;
  }

  lemma RingShifts(all: seq<Diagnostic>, d: Diagnostic)
    ensures |Newest(all)| == if |all| >= RING_CAPACITY then RING_CAPACITY else |all|
    ensures if |all| >= RING_CAPACITY
            then && Newest(all)[0] == all[|all| - RING_CAPACITY]
                 && Newest(all + [d]) == Newest(all)[1..] + [d]
                 && Older(all + [d]) == Older(all) + [all[|all| - RING_CAPACITY]]
            else Newest(all + [d]) == Newest(all) + [d] && Older(all + [d]) == Older(all)
  {
    if |all| >= RING_CAPACITY {
      var n := |all| - RING_CAPACITY;
      assert (all + [d])[n + 1..] == all[n..][1..] + [d];
      assert (all + [d])[..n + 1] == all[..n] + [all[n]];
      assert Newest(all) == all[n..] && Older(all) == all[..n];
    }
  }

  lemma PushRetains(s: State, all: seq<Diagnostic>, d: Diagnostic)
    requires Retains(s, all)
    ensures Retains(Pushed(s, d), all + [d])
  {
    hide OfKind;
    RingShifts(all, d);
    if |all| >= RING_CAPACITY {
      var dropped := all[|all| - RING_CAPACITY];
      hide Older, Newest;
      OfKindAppend(Older(all), dropped, Failure);
      OfKindAppend(Older(all), dropped, Panic);
    }
  }

  /** Nothing recorded goes missing: of each kind, what is kept plus what is counted as dropped. */
  lemma RingConserves(all: seq<Diagnostic>, kind: Kind)
    ensures |OfKind(all, kind)| == |OfKind(Newest(all), kind)| + |OfKind(Older(all), kind)|
    ensures all == Older(all) + Newest(all)
  {
    assert all == Older(all) + Newest(all);
    OfKindConcat(Older(all), Newest(all), kind);
  }

  // ---------- The code ----------

  class MutationTracker {
    var seal: Seal
    var active: nat
    var diagnostics: seq<Diagnostic>
    var droppedFailures: nat
    var droppedPanics: nat

    ghost function View(): State
      reads this
    {
      State(seal, active, diagnostics, droppedFailures, droppedPanics)
    }

    constructor ()
      ensures View() == FRESH
    {
      seal, active, diagnostics, droppedFailures, droppedPanics := Open, 0, [], 0, 0;
    }

    /** Admits a mutation, or says which seal refused it. */
    method Begin() returns (refused: Option<Seal>)
      modifies this
      ensures refused == if old(seal).Open? then None else Some(old(seal))
      ensures View() == if refused == None then Begun(old(View())) else old(View())
    {
      if seal != Open {
        return Some(seal);
      }
      active := Cap(active + 1);
      refused := None;
    }

    method PushDiagnostic(d: Diagnostic)
      modifies this
      ensures View() == Pushed(old(View()), d)
    {
      if |diagnostics| == RING_CAPACITY {
        var dropped := diagnostics[0];
        diagnostics := diagnostics[1..];
        match dropped.kind {
          case Failure => droppedFailures := Cap(droppedFailures + 1);
          case Panic => droppedPanics := Cap(droppedPanics + 1);
        }
      }
      diagnostics := diagnostics + [d];
    }

    method Finish(recorded: Option<Diagnostic>)
      modifies this
      ensures View() == Finished(old(View()), recorded)
    {
      if active != 0 {
        active := active - 1;
      }
      if recorded.Some? {
        PushDiagnostic(recorded.value);
      }
    }

    method PanicSeal()
      modifies this
      ensures View() == old(View()).(seal := BackendPanic)
    {
      seal := BackendPanic;
    }

    method IndeterminateSeal()
      modifies this
      ensures View() == old(View()).(seal := Indeterminate)
    {
      seal := Indeterminate;
    }

    method TakeOutcome(timedOut: bool) returns (outcome: Outcome)
      modifies this
      ensures outcome == OutcomeOf(old(View()), timedOut) && View() == Emptied(old(View()))
    {
      var failures: seq<Diagnostic>, panics: seq<Diagnostic> := [], [];
      var ring := diagnostics;
      var i := 0;
      while i < |ring|
        invariant 0 <= i <= |ring|
        invariant failures == OfKind(ring[..i], Failure) && panics == OfKind(ring[..i], Panic)
      {
        assert ring[..i + 1][..i] == ring[..i];
        match ring[i].kind {
          case Failure => failures := failures + [ring[i]];
          case Panic => panics := panics + [ring[i]];
        }
        i := i + 1;
      }
      assert ring[..i] == ring;
      outcome := Outcome(timedOut, active, failures, panics, droppedFailures, droppedPanics);
      diagnostics, droppedFailures, droppedPanics := [], 0, 0;
    }

    /** The first critical section of a drain: seal, and report at once when nothing is active. */
    method SealForDrain() returns (outcome: Option<Outcome>)
      modifies this
      ensures var sealed := SealedForShutdown(old(View()));
              if old(active) == 0
              then outcome == Some(OutcomeOf(sealed, false)) && View() == Emptied(sealed)
              else outcome == None && View() == sealed
    {
      if seal == Open {
        seal := Shutdown;
      }
      if active == 0 {
        var taken := TakeOutcome(false);
        return Some(taken);
      }
      outcome := None;
    }

    /** A later critical section, after a change or at the deadline. */
    method PollDrain(deadline: bool) returns (outcome: Option<Outcome>)
      modifies this
      ensures if old(active) == 0 || deadline
              then outcome == Some(OutcomeOf(old(View()), old(active) != 0)) && View() == Emptied(old(View()))
              else outcome == None && View() == old(View())
    {
      if active == 0 || deadline {
        var taken := TakeOutcome(active != 0);
        return Some(taken);
      }
      outcome := None;
    }
  }
}
