/**
 Shutdown seals mutation admission before it flushes activity. From then on every attempt is turned away
 and counted as an error, and the flush still ends within its bound: flushed means attempted, not persisted.
 */
module ShutdownFlush {
  import opened Routes
  import opened Durability
  import R = Registry
  import W = ActivityWriter
  import B = BoundedFlush
  import P = PendingActivities

  /** The writer steps inside a run of the whole. */
  ghost function WriterRun(s: Sys, es: seq<Event>): seq<W.Event>
    requires Legal(s, es)
  {
    if es == [] then []
    else
      var front := es[..|es| - 1];
      var part := WriterPart(After(s, front), es[|es| - 1]);
      WriterRun(s, front) + if part.Some? then [part.value] else []
  }

  lemma WriterMoves(s: Sys, e: Event)
    requires Enabled(s, e) && WriterPart(s, e).Some?
    ensures W.Enabled(s.writer, WriterPart(s, e).value)
  {
  }

  lemma {:induction false} WriterRunIsLegal(s: Sys, es: seq<Event>)
    requires Legal(s, es)
    ensures W.Legal(s.writer, WriterRun(s, es)) && W.After(s.writer, WriterRun(s, es)) == After(s, es).writer
  {
    if es != [] {
      var front, e := es[..|es| - 1], es[|es| - 1];
      WriterRunIsLegal(s, front);
      var part := WriterPart(After(s, front), e);
      if part.Some? {
        WriterMoves(After(s, front), e);
        var run := WriterRun(s, front);
        assert (run + [part.value])[..|run|] == run;
      } else {
        assert WriterRun(s, front) + [] == WriterRun(s, front);
      }
    }
  }

  lemma SealStaysShut(reg: R.Reg, e: R.Event)
    requires R.Enabled(reg, e) && !reg.tracker.seal.Open?
    ensures !R.Next(reg, e).tracker.seal.Open?
  {
    hide R.PhaseAfter, R.StoreAfter, R.RoutesAfter, R.Publishes;
  }

  predicate Sealed(s: Sys) {
    !s.reg.tracker.seal.Open?
  }

  /** Attempts admitted before the seal and not yet landed: at most one, as there is one worker. */
  function Admitted(s: Sys): nat {
    if s.flight.Idle? then 0 else 1
  }

  predicate Lands(s: Sys, e: Event)
    requires Enabled(s, e)
  {
    WriterPart(s, e).Some? && WriterPart(s, e).value.Land?
  }

  /** Under the seal a landing is the one admitted attempt, or one turned away. */
  lemma SealedStep(s: Sys, e: Event)
    requires Sealed(s) && Enabled(s, e)
    ensures Sealed(Next(s, e))
    ensures var s' := Next(s, e);
            var w, w' := s.writer, s'.writer;
            if Lands(s, e)
            then && Admitted(s') == 0 && w.attempts <= w'.attempts && |w'.attempts| == |w.attempts| + 1
                 && w'.errors == w.errors + (if w'.attempts[|w.attempts|].ok then 0 else 1)
                 && (Admitted(s) == 0 ==> !w'.attempts[|w.attempts|].ok)
            else Admitted(s') == Admitted(s) && w'.errors == w.errors && w'.attempts == w.attempts
  {
    if RegPart(s, e).Some? {
      SealStaysShut(s.reg, RegPart(s, e).value);
      hide R.Next;
    } else {
      hide P.Complete, P.Recorded, P.Popped, P.Completed, W.FlusherAfter;
    }
  }

  /**
   Between a sealed state and a later one, `n` attempts landed: all of them failed but one admitted before the
   seal, and each failure counted one persistence error.
   */
  ghost predicate Tally(s: Sys, s': Sys, n: nat) {
    var w, w' := s.writer, s'.writer;
    && Sealed(s') && w.attempts <= w'.attempts && |w'.attempts| - |w.attempts| == n
    && Admitted(s') <= Admitted(s) && (n > 0 ==> Admitted(s') == 0)
    && (forall j :: |w.attempts| + Admitted(s) <= j < |w'.attempts| ==> !w'.attempts[j].ok)
    && w'.errors - w.errors <= n <= w'.errors - w.errors + Admitted(s)
    && (n == 0 ==> w'.errors == w.errors)
  }

  lemma TallyStep(s: Sys, mid: Sys, n: nat, e: Event)
    requires Tally(s, mid, n) && Enabled(mid, e)
    ensures Tally(s, Next(mid, e), n + if Lands(mid, e) then 1 else 0)
  {
    SealedStep(mid, e);
    hide Enabled, Next, Lands, Admitted, Sealed;
  }

  lemma TallyNothing(s: Sys)
    requires Sealed(s)
    ensures Tally(s, s, B.Landings(WriterRun(s, [])))
  {
  }

  lemma LandingsAppend(run: seq<W.Event>, part: Option<W.Event>)
    ensures B.Landings(run + if part.Some? then [part.value] else []) ==
            B.Landings(run) + if part.Some? && part.value.Land? then 1 else 0
  {
    if part.Some? {
      assert (run + [part.value])[..|run|] == run;
    } else {
      assert run + [] == run;
    }
  }

  lemma LandingsStep(s: Sys, front: seq<Event>, e: Event, es: seq<Event>)
    requires es == front + [e] && Legal(s, es) && es[..|front|] == front && Legal(s, front) && Enabled(After(s, front), e)
    ensures B.Landings(WriterRun(s, es)) == B.Landings(WriterRun(s, front)) + if Lands(After(s, front), e) then 1 else 0
  {
    LandingsAppend(WriterRun(s, front), WriterPart(After(s, front), e));
    hide Enabled, Next, WriterPart, B.Landings;
  }

  lemma {:induction false} SealedAttemptsFail(s: Sys, es: seq<Event>)
    requires Sealed(s) && Legal(s, es)
    ensures Tally(s, After(s, es), B.Landings(WriterRun(s, es)))
  {
    hide Enabled, Next, Tally, WriterRun, B.Landings, Lands;
    if es == [] {
      TallyNothing(s);
    } else {
      var front, e := es[..|es| - 1], es[|es| - 1];
      SealedAttemptsFail(s, front);
      assert front + [e] == es;
      LandingsStep(s, front, e, es);
      TallyStep(s, After(s, front), B.Landings(WriterRun(s, front)), e);
    }
  }

  /** Still, capacity plus one landed attempts, failing as they do, complete any watermark read by then. */
  lemma SealedFlushIsBounded(s: Sys, before: seq<Event>, es: seq<Event>, watermark: nat)
    requires Initial(s) && Legal(s, before) && Sealed(After(s, before)) && Legal(After(s, before), es)
    requires watermark <= After(s, before).writer.queue.acceptedThrough
    requires |After(After(s, before), es).writer.attempts| - |After(s, before).writer.attempts| >= s.writer.capacity + 1
    ensures P.Complete(After(After(s, before), es).writer.queue, watermark)
  {
    var now := After(s, before);
    WriterRunIsLegal(s, before);
    WriterRunIsLegal(now, es);
    SealedAttemptsFail(now, es);
    hide Legal, W.Legal;
    B.FlushIsBounded(s.writer, WriterRun(s, before), WriterRun(now, es), watermark);
  }
}
