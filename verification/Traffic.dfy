/**
 Public traffic admission and drain. Every atomic operation is one step: a request loads the accepting flag,
 counts itself, loads the flag again, and is admitted or backs out; a release loads the count and retries a
 compare-exchange. Waiters for the drain sleep on notifications.
 */
module Traffic {
  datatype Phase =
    | Arrived
    | Checked                                   // saw the flag up, not yet counted
    | Counted                                   // counted, flag not yet seen again
    | Admitted
    | Releasing                                 // finish called, count not yet loaded
    | Exchanging(seen: nat)                     // about to exchange the count it saw
    | Notifying                                 // brought the count to zero, waiters not yet notified
    | Released
    | OverReleased                              // finish found the count at zero

  datatype Waiter = Arming | Armed(epoch: nat) | Asleep(epoch: nat) | Drained

  /** `owners` are the requests whose context holds an admission. */
  datatype State = State(
    accepting: bool, stopped: bool, active: nat, epoch: nat,
    requests: map<nat, Phase>, owners: set<nat>, waiters: map<nat, Waiter>)

  predicate Initial(s: State) {
    && s.accepting && !s.stopped && s.active == 0 && s.epoch == 0
    && s.requests == map[] && s.owners == {} && s.waiters == map[]
  }

  datatype Event =
    | Arrive(r: nat)
    | Step(r: nat)                              // the request's next atomic operation
    | Spurious(r: nat)                          // a weak compare-exchange that fails for no reason
    | Release(r: nat)                           // a release or drop of the request's context, any number of times
    | StopAccepting
    | MarkStopped
    | NotifyStopped
    | Wait(w: nat)
    | WaitStep(w: nat)

  predicate Enabled(s: State, e: Event) {
    match e
    case Arrive(r) => r !in s.requests
    case Step(r) =>
      r in s.requests && !s.requests[r].Admitted? && !s.requests[r].Released? && !s.requests[r].OverReleased?
    case Spurious(r) => r in s.requests && s.requests[r].Exchanging?
    case Release(r) => r in s.requests
    case StopAccepting => true
    case MarkStopped => !s.accepting
    case NotifyStopped => s.stopped
    case Wait(w) => w !in s.waiters
    case WaitStep(w) =>
      w in s.waiters && !s.waiters[w].Drained? && (s.waiters[w].Asleep? ==> s.waiters[w].epoch < s.epoch)
  }

  /** What a release does with a count it has just seen. */
  function Seen(active: nat): Phase {
    if active == 0 then OverReleased else Exchanging(active)
  }

  /** The request's next operation; an exchange succeeds exactly when the count is what it saw. */
  function PhaseAfter(accepting: bool, active: nat, phase: Phase): Phase {
    match phase
    case Arrived => if accepting then Checked else Released
    case Checked => Counted
    case Counted => if accepting then Admitted else Releasing
    case Releasing => Seen(active)
    case Exchanging(seen) => if active != seen then Seen(active) else if seen == 1 then Notifying else Released
    case Notifying => Released
    case _ => phase
  }

  function ActiveAfter(active: nat, phase: Phase): nat {
    match phase
    case Checked => active + 1
    case Exchanging(seen) => if active == seen && seen > 0 then seen - 1 else active
    case _ => active
  }

  function StepAfter(s: State, r: nat): State
    requires r in s.requests
  {
    var phase := s.requests[r];
    var phase' := PhaseAfter(s.accepting, s.active, phase);
    s.(requests := s.requests[r := phase'],
       active := ActiveAfter(s.active, phase),
       owners := if phase'.Admitted? then s.owners + {r} else s.owners,
       epoch := if phase.Notifying? then s.epoch + 1 else s.epoch)
  }

  /** Taking an admission out of a context: whether finish is called, and whether the context still holds one. */
  function Taken(admitted: bool): (bool, bool) {
    (admitted, false)
  }

  function ReleaseAfter(s: State, r: nat): State
    requires r in s.requests
  {
    var (finishes, admitted) := Taken(r in s.owners);
    s.(requests := s.requests[r := if finishes then Releasing else s.requests[r]],
       owners := if admitted then s.owners + {r} else s.owners - {r})
  }

  function WaiterAfter(s: State, waiter: Waiter): Waiter {
    match waiter
    case Arming => Armed(s.epoch)
    case Armed(epoch) => if s.active == 0 then Drained else Asleep(epoch)
    case Asleep(_) => Arming
    case Drained => Drained
  }

  function Next(s: State, e: Event): State
    requires Enabled(s, e)
  {
    match e
    case Arrive(r) => s.(requests := s.requests[r := Arrived])
    case Step(r) => StepAfter(s, r)
    case Spurious(r) => s.(requests := s.requests[r := Seen(s.active)])
    case Release(r) => ReleaseAfter(s, r)
    case StopAccepting => s.(accepting := false)
    case MarkStopped => s.(stopped := true)
    case NotifyStopped => s.(epoch := s.epoch + 1)
    case Wait(w) => s.(waiters := s.waiters[w := Arming])
    case WaitStep(w) => s.(waiters := s.waiters[w := WaiterAfter(s, s.waiters[w])])
  }

  ghost predicate Legal(s: State, es: seq<Event>)
    decreases |es|, 0
  {
    es == [] || (Legal(s, es[..|es| - 1]) && Enabled(After(s, es[..|es| - 1]), es[|es| - 1]))
  }

  ghost function After(s: State, es: seq<Event>): State
    requires Legal(s, es)
    decreases |es|, 1
  {
    if es == [] then s else Next(After(s, es[..|es| - 1]), es[|es| - 1])
  }

  // ---------- The count ----------

  predicate Holding(phase: Phase) {
    phase.Counted? || phase.Admitted? || phase.Releasing? || phase.Exchanging?
  }

  function Holders(requests: map<nat, Phase>): set<nat> {
    set r | r in requests && Holding(requests[r])
  }

  predicate Sane(phase: Phase) {
    !phase.OverReleased? && (phase.Exchanging? ==> phase.seen > 0)
  }

  /** Contexts hold an admission exactly while their request is admitted; no release finds zero. */
  ghost predicate Owning(s: State) {
    && (forall r :: r in s.owners <==> r in s.requests && s.requests[r].Admitted?)
    && forall r :: r in s.requests ==> Sane(s.requests[r])
  }

  /** The count is the requests admitted and unreleased plus those between counting and backing out. */
  ghost predicate Counting(s: State) {
    s.active == |Holders(s.requests)| && Owning(s)
  }

  lemma HoldersMove(requests: map<nat, Phase>, r: nat, phase: Phase)
    ensures var before, after := Holders(requests), Holders(requests[r := phase]);
            |after| == |before| - (if r in before then 1 else 0) + (if Holding(phase) then 1 else 0)
  {
    hide Holding;
    HoldersOf(requests, r, phase);
    hide Holders;
    MemberMoves(Holders(requests), r, Holding(phase));
  }

  lemma MemberMoves(before: set<nat>, r: nat, stays: bool)
    ensures |before - {r} + if stays then {r} else {}| ==
            |before| - (if r in before then 1 else 0) + (if stays then 1 else 0)
  {
    var others := before - {r};
    assert r in before ==> before == others + {r};
    assert r !in before ==> before == others;
    assert others + {} == others;
  }

  lemma HoldersOf(requests: map<nat, Phase>, r: nat, phase: Phase)
    ensures Holders(requests[r := phase]) == Holders(requests) - {r} + if Holding(phase) then {r} else {}
  {
    hide Holding;
  }

  /** On its own values an operation moves the count as it moves the request in or out of the holders. */
  lemma PhaseMoves(accepting: bool, active: nat, phase: Phase)
    requires Sane(phase) && (Holding(phase) ==> active > 0)
    ensures var phase' := PhaseAfter(accepting, active, phase);
            && Sane(phase')
            && ActiveAfter(active, phase) == active - (if Holding(phase) then 1 else 0) + (if Holding(phase') then 1 else 0)
  {
  }

  lemma StepCounts(s: State, r: nat)
    requires Counting(s) && Enabled(s, Step(r))
    ensures Counting(StepAfter(s, r))
  {
    var phase := s.requests[r];
    var phase' := PhaseAfter(s.accepting, s.active, phase);
    hide Holding, Holders;
    HolderCounts(s.requests, r);
    PhaseMoves(s.accepting, s.active, phase);
    HoldersMove(s.requests, r, phase');
    hide PhaseAfter, ActiveAfter, Sane;
  }

  lemma CountingStep(s: State, e: Event)
    requires Counting(s) && Enabled(s, e)
    ensures Counting(Next(s, e))
  {
    hide Holders, StepAfter;
    match e
    case Arrive(r) =>
      HolderCounts(s.requests, r);
      HoldersMove(s.requests, r, Arrived);
    case Step(r) =>
      StepCounts(s, r);
    case Spurious(r) =>
      HolderCounts(s.requests, r);
      HoldersMove(s.requests, r, Seen(s.active));
    case Release(r) =>
      HolderCounts(s.requests, r);
      HoldersMove(s.requests, r, Next(s, e).requests[r]);
    case _ =>
  }

  lemma HolderCounts(requests: map<nat, Phase>, r: nat)
    ensures r in Holders(requests) <==> r in requests && Holding(requests[r])
    ensures r in Holders(requests) ==> |Holders(requests)| > 0
  {
  }

  lemma {:induction false} CountingRun(s: State, es: seq<Event>)
    requires Counting(s) && Legal(s, es)
    ensures Counting(After(s, es))
  {
    if es != [] {
      CountingRun(s, es[..|es| - 1]);
      CountingStep(After(s, es[..|es| - 1]), es[|es| - 1]);
      hide Counting, Enabled, Next;
    }
  }

  // ---------- Drain ----------

  /** Nobody is admitted and nobody will be. */
  ghost predicate Closed(s: State) {
    !s.accepting && forall r :: r in s.requests ==> !s.requests[r].Admitted?
  }

  lemma ClosedStep(s: State, e: Event)
    requires Closed(s) && Enabled(s, e)
    ensures Closed(Next(s, e))
  {
  }

  lemma {:induction false} ClosedRun(s: State, es: seq<Event>)
    requires Closed(s) && Legal(s, es)
    ensures Closed(After(s, es))
  {
    if es != [] {
      ClosedRun(s, es[..|es| - 1]);
      ClosedStep(After(s, es[..|es| - 1]), es[|es| - 1]);
      hide Closed, Enabled, Next;
    }
  }

  /** The step makes this waiter return. */
  predicate Returns(s: State, e: Event, w: nat)
    requires Enabled(s, e)
  {
    && w in Next(s, e).waiters && Next(s, e).waiters[w].Drained?
    && !(w in s.waiters && s.waiters[w].Drained?)
  }

  /** A waiter returns exactly when it looks, registered for notification, and finds the count at zero. */
  lemma ReturnsAtZero(s: State, e: Event, w: nat)
    requires Enabled(s, e)
    ensures Returns(s, e, w) <==> e == WaitStep(w) && s.waiters[w].Armed? && s.active == 0
    ensures w in s.waiters && s.waiters[w].Drained? ==> Next(s, e).waiters[w].Drained?
  {
  }

  /** A waiter falls asleep exactly when it looks and finds requests outstanding. */
  lemma SleepsAboveZero(s: State, e: Event, w: nat)
    requires Enabled(s, e) && w in s.waiters && !s.waiters[w].Asleep?
    ensures Next(s, e).waiters[w].Asleep? <==> e == WaitStep(w) && s.waiters[w].Armed? && s.active > 0
  {
  }

  /** With accepting down, a count of zero means nobody is admitted, and nobody ever will be. */
  lemma ClosedAtZero(s: State, es: seq<Event>)
    requires Counting(s) && !s.accepting && s.active == 0 && Legal(s, es)
    ensures forall r :: r in After(s, es).requests ==> !After(s, es).requests[r].Admitted?
  {
    forall r | r in s.requests ensures !s.requests[r].Admitted? {
      assert s.requests[r].Admitted? ==> r in Holders(s.requests);
    }
    ClosedRun(s, es);
    hide Legal;
  }

  /**
   Once accepting is down and a waiter for the drain then returns, no admitted request is outstanding, and none
   ever will be, whatever requests were already past their first look at the flag.
   */
  lemma DrainIsFinal(s: State, before: seq<Event>, e: Event, w: nat, es: seq<Event>)
    requires Initial(s) && Legal(s, before) && Enabled(After(s, before), e)
    requires !After(s, before).accepting && Returns(After(s, before), e, w) && Legal(Next(After(s, before), e), es)
    ensures forall r :: r in After(s, before).requests ==> !After(s, before).requests[r].Admitted?
    ensures var s' := After(Next(After(s, before), e), es);
            forall r :: r in s'.requests ==> !s'.requests[r].Admitted?
  {
    assert Holders(s.requests) == {};
    CountingRun(s, before);
    var now := After(s, before);
    ReturnsAtZero(now, e, w);
    ClosedAtZero(now, []);
    assert After(now, []) == now;
    CountingStep(now, e);
    ClosedAtZero(Next(now, e), es);
    hide Legal;
  }

  /**
   In every run, however often contexts are released and dropped, a finish finds the count above zero, the count
   is exactly the requests that hold it, and a context holds an admission exactly while its request is admitted.
   */
  lemma ReleaseNeverFindsZero(s: State, es: seq<Event>)
    requires Initial(s) && Legal(s, es)
    ensures var s' := After(s, es);
            && s'.active == |Holders(s'.requests)|
            && (forall r :: r in s'.owners <==> r in s'.requests && s'.requests[r].Admitted?)
            && (forall r :: r in s'.requests ==> !s'.requests[r].OverReleased?)
            && forall r :: r in s'.requests && Holding(s'.requests[r]) ==> s'.active > 0
  {
    assert Holders(s.requests) == {};
    CountingRun(s, es);
    var s' := After(s, es);
    forall r | r in s'.requests && Holding(s'.requests[r]) ensures s'.active > 0 {
      HolderCounts(s'.requests, r);
    }
    hide Legal;
  }

  // ---------- What try_admit and finish do, step by step ----------

  /** A request becomes admitted exactly when it looks the second time, counted, and sees the flag still up. */
  lemma AdmittedAtSecondLook(s: State, e: Event, r: nat)
    requires Enabled(s, e) && r in s.requests && !s.requests[r].Admitted?
    ensures Next(s, e).requests[r].Admitted? <==> e == Step(r) && s.requests[r].Counted? && s.accepting
  {
  }

  /** While accepting stays up an arriving request is admitted, and the count is one higher. */
  lemma AcceptingAdmits(s: State, r: nat)
    requires s.accepting && r !in s.requests
    ensures var arrived := Next(s, Arrive(r));
            var checked := StepAfter(arrived, r);
            var counted := StepAfter(checked, r);
            var done := StepAfter(counted, r);
            && Enabled(arrived, Step(r)) && Enabled(checked, Step(r)) && Enabled(counted, Step(r))
            && done.requests[r].Admitted? && done.active == s.active + 1 && done.owners == s.owners + {r}
  {
  }

  /** Anybody may arrive, release, stop accepting or wait at any time, and a notified waiter may always go on. */
  lemma AlwaysPossible(s: State, x: nat)
    ensures Enabled(s, StopAccepting) && (!s.accepting ==> Enabled(s, MarkStopped)) && (s.stopped ==> Enabled(s, NotifyStopped))
    ensures x !in s.requests ==> Enabled(s, Arrive(x))
    ensures x in s.requests ==> Enabled(s, Release(x))
    ensures x in s.requests && s.requests[x].Exchanging? ==> Enabled(s, Spurious(x))
    ensures x !in s.waiters ==> Enabled(s, Wait(x))
    ensures x in s.waiters && (s.waiters[x].Arming? || s.waiters[x].Armed?) ==> Enabled(s, WaitStep(x))
    ensures x in s.waiters && s.waiters[x].Asleep? ==> (Enabled(s, WaitStep(x)) <==> s.epoch > s.waiters[x].epoch)
  {
  }

  /** With accepting down an arriving request is turned away uncounted. */
  lemma StoppedRefuses(s: State, r: nat)
    requires !s.accepting && r !in s.requests
    ensures var done := StepAfter(Next(s, Arrive(r)), r);
            Enabled(Next(s, Arrive(r)), Step(r)) && done.requests[r].Released? && done.active == s.active
  {
  }

  /** How far a request is from its end when nobody interferes. */
  function Left(s: State, r: nat): nat
    requires r in s.requests
  {
    match s.requests[r]
    case Arrived => 7
    case Checked => 6
    case Counted => 5
    case Releasing => 4
    case Exchanging(seen) => if seen == s.active then 2 else 3
    case Notifying => 1
    case _ => 0
  }

  /** Each of its own operations brings a request nearer to being admitted or released. */
  lemma OwnStepsEnd(s: State, r: nat)
    requires Counting(s) && Enabled(s, Step(r))
    ensures Left(Next(s, Step(r)), r) < Left(s, r)
    ensures s.requests[r].Notifying? ==> Next(s, Step(r)).epoch == s.epoch + 1
    ensures s.requests[r].Exchanging? && s.requests[r].seen == s.active == 1 ==> Next(s, Step(r)).requests[r].Notifying?
  {
    HolderCounts(s.requests, r);
    hide Holders;
  }

  /** A spurious failure only makes the request look at the count again. */
  lemma SpuriousReloads(s: State, r: nat)
    requires Counting(s) && Enabled(s, Spurious(r))
    ensures Next(s, Spurious(r)).requests == s.requests[r := Exchanging(s.active)] && Next(s, Spurious(r)).active == s.active
  {
    HolderCounts(s.requests, r);
    hide Holders;
  }

  /** Notifications in a run: one for each last release and each stop announced. */
  ghost function Notifications(s: State, es: seq<Event>): nat
    requires Legal(s, es)
  {
    if es == [] then 0
    else
      var front, e := es[..|es| - 1], es[|es| - 1];
      Notifications(s, front) +
      if e.NotifyStopped? || (e.Step? && After(s, front).requests[e.r].Notifying?) then 1 else 0
  }

  /** The flags, the requests, the waiters and the notifications are what the event list says. */
  lemma {:induction false} StateTells(s: State, es: seq<Event>)
    requires Initial(s) && Legal(s, es)
    ensures var s' := After(s, es);
            && (s'.accepting <==> StopAccepting !in es) && (s'.stopped <==> MarkStopped in es)
            && (forall r :: r in s'.requests <==> Arrive(r) in es)
            && (forall w :: w in s'.waiters <==> Wait(w) in es)
            && s'.epoch == Notifications(s, es)
  {
    if es != [] {
      var front, e := es[..|es| - 1], es[|es| - 1];
      StateTells(s, front);
      TellsStep(After(s, front), e);
      assert es == front + [e];
      hide Next, Enabled, Legal;
    }
  }

  lemma TellsStep(s: State, e: Event)
    requires Enabled(s, e)
    ensures var s' := Next(s, e);
            && (s'.accepting <==> s.accepting && !e.StopAccepting?) && (s'.stopped <==> s.stopped || e.MarkStopped?)
            && s'.requests.Keys == s.requests.Keys + (if e.Arrive? then {e.r} else {})
            && s'.waiters.Keys == s.waiters.Keys + (if e.Wait? then {e.w} else {})
            && s'.epoch == s.epoch + if e.NotifyStopped? || (e.Step? && s.requests[e.r].Notifying?) then 1 else 0
  {
    hide PhaseAfter, ActiveAfter, Seen, WaiterAfter;
  }

  // ---------- No lost wake-up ----------

  ghost predicate WaiterAwake(s: State, waiter: Waiter) {
    && (waiter.Armed? || waiter.Asleep? ==> waiter.epoch <= s.epoch)
    && (waiter.Asleep? && s.active == 0 ==>
          waiter.epoch < s.epoch || exists r :: r in s.requests && s.requests[r].Notifying?)
  }

  ghost predicate Awake(s: State) {
    forall w :: w in s.waiters ==> WaiterAwake(s, s.waiters[w])
  }

  lemma WaiterAwakeStep(s: State, e: Event, waiter: Waiter)
    requires Counting(s) && Enabled(s, e) && WaiterAwake(s, waiter)
    ensures WaiterAwake(Next(s, e), waiter)
  {
    var s' := Next(s, e);
    if waiter.Asleep? && s'.active == 0 && waiter.epoch == s'.epoch {
      if s.active == 0 {
        var r :| r in s.requests && s.requests[r].Notifying?;
        assert s'.requests[r].Notifying?;
      } else {
        assert s'.requests[e.r].Notifying?;
      }
    }
  }

  lemma AwakeStep(s: State, e: Event)
    requires Counting(s) && Awake(s) && Enabled(s, e)
    ensures Awake(Next(s, e))
  {
    forall w | w in s.waiters ensures WaiterAwake(Next(s, e), s.waiters[w]) {
      WaiterAwakeStep(s, e, s.waiters[w]);
    }
    hide StepAfter;
  }

  /** In every run, a waiter asleep at a count of zero has been notified, or its notifier is on the way. */
  lemma {:induction false} DrainWakesWaiters(s: State, es: seq<Event>)
    requires Initial(s) && Legal(s, es)
    ensures Awake(After(s, es))
  {
    if es != [] {
      var front := es[..|es| - 1];
      assert Holders(s.requests) == {};
      DrainWakesWaiters(s, front);
      CountingRun(s, front);
      AwakeStep(After(s, front), es[|es| - 1]);
      hide Awake, Counting, Next, Enabled;
    }
  }

  // ---------- The admission's owner ----------

  /** Per-request state: each kind of activity is claimed once, and the admission is given up once. */
  class RequestContext {
    var requestPublished: bool
    var responsePublished: bool
    var admitted: bool

    constructor ()
      ensures !requestPublished && !responsePublished && !admitted
    {
      requestPublished, responsePublished, admitted := false, false, false;
    }

    method ClaimRequestActivity() returns (claimed: bool)
      modifies this`requestPublished
      ensures claimed == !old(requestPublished) && requestPublished
    {
      claimed := !requestPublished;
      requestPublished := true;
    }

    method ClaimResponseActivity(websocket: bool) returns (claimed: bool)
      modifies this`responsePublished
      ensures claimed == (websocket && !old(responsePublished)) && responsePublished == (old(responsePublished) || websocket)
    {
      if !websocket {
        return false;
      }
      claimed := !responsePublished;
      responsePublished := true;
    }

    method ClaimHttpCompletionActivity(successful: bool, websocket: bool) returns (claimed: bool)
      modifies this`requestPublished
      ensures claimed == (successful && !websocket && !old(requestPublished))
      ensures requestPublished == (old(requestPublished) || (successful && !websocket))
    {
      if !successful || websocket {
        return false;
      }
      claimed := ClaimRequestActivity();
    }

    /** Says whether the lifecycle's finish is called; also what dropping the context does. */
    method ReleaseAdmission() returns (finishes: bool)
      modifies this`admitted
      ensures (finishes, admitted) == Taken(old(admitted))
    {
      finishes := admitted;
      admitted := false;
    }
  }
}
