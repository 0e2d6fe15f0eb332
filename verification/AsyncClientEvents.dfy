/**
  What a request reports, from the events of the run alone: how its operations ended, and
  which of them a cancel ended.
 */
module AsyncClientEvents {
  import opened Bytes
  import opened AsyncClients

  /** How this step ends the operation of request id, if it does. */
  function Endings(s: State, e: Event, id: Id): seq<Outcome> {
    if e.Complete? && e.id == id then [Finished(e.code, e.line)]
    else if
      && e.AppStep? && e.a < |s.apps| && s.apps[e.a] == CancelSocket(id)
      && id in s.sessions && s.sessions[id].wait.Op? && s.sessions[id].wait.outcome.Pending?
    then [Finished(125, "")]
    else []
  }

  /** How the operations of request id have ended on a run, in order. */
  function EndingsOf(s: State, es: seq<Event>, id: Id): seq<Outcome>
    decreases |es|
  {
    if es == [] || !Enabled(s, es[0]) then []
    else Endings(s, es[0], id) + EndingsOf(Step(s, es[0]), es[1..], id)
  }

  predicate Ripe(w: Wait) {
    w.Op? && w.outcome.Finished?
  }

  /** The handlers have been called with these outcomes, in order, but for the last if it waits for its handler. */
  predicate Follows(x: Session, os: seq<Outcome>) {
    && |os| == |x.outcomes| + (if Ripe(x.wait) then 1 else 0)
    && (forall k | 0 <= k < |x.outcomes| :: os[k].Finished? && os[k].code == x.outcomes[k])
    && (Ripe(x.wait) ==> os[|x.outcomes|] == x.wait.outcome)
    && (|x.outcomes| == 3 ==> os[2].Finished? && x.answer == os[2].line)
  }

  predicate Accounted(s: State, id: Id, os: seq<Outcome>) {
    if id in s.sessions then Follows(s.sessions[id], os) else os == []
  }

  /** Only these parts of a session are followed. */
  lemma SameFollows(x: Session, y: Session, os: seq<Outcome>)
    requires Follows(x, os)
    requires y.outcomes == x.outcomes && y.answer == x.answer
    requires y.wait == x.wait || (!Ripe(x.wait) && !Ripe(y.wait))
    ensures Follows(y, os)
  {
  }

  lemma EndFollows(x: Session, y: Session, os: seq<Outcome>, o: Outcome)
    requires Follows(x, os) && !Ripe(x.wait) && o.Finished?
    requires y.outcomes == x.outcomes && y.answer == x.answer && y.wait.Op? && y.wait.outcome == o
    ensures Follows(y, os + [o])
  {
  }

  /** An application's thread starts an operation where there is none, and ends a pending one. */
  lemma AppFollows(s: State, a: nat, id: Id, os: seq<Outcome>)
    requires Lives(s) && AppEnabled(s, a) && Accounted(s, id, os)
    ensures Accounted(StepApp(s, a), id, os + Endings(s, AppStep(a), id))
  {
    AppTables(s, a);
    if id in s.sessions {
      var x := s.sessions[id];
      AppOperation(s, a, id);
      var y := StepApp(s, a).sessions[id];
      assert os + [] == os;
      hide Lives, StepApp, AppEnabled, Follows;
      if Endings(s, AppStep(a), id) == [] {
        SameFollows(x, y, os);
      } else {
        EndFollows(x, y, os, Finished(125, ""));
      }
    }
  }

  lemma AppOperation(s: State, a: nat, id: Id)
    requires Lives(s) && AppEnabled(s, a) && id in s.sessions
    ensures id in StepApp(s, a).sessions
    ensures
      var x, y := s.sessions[id], StepApp(s, a).sessions[id];
      && y.outcomes == x.outcomes && y.answer == x.answer
      && if Endings(s, AppStep(a), id) == [] then y.wait == x.wait || (!Ripe(x.wait) && !Ripe(y.wait))
         else !Ripe(x.wait) && y.wait.Op? && y.wait.outcome == Finished(125, "")
  {
    hide Inv;
    if s.apps[a] == StartConnect(id) {
      assert Life(id in s.active, s.sessions[id], s.apps, s.io, id);
      assert AppStarts(s.apps[a], id);
    }
    hide Lives;
  }

  /** The I/O thread starts an operation where there is none. */
  lemma IoFollows(s: State, id: Id, os: seq<Outcome>)
    requires Lives(s) && IoEnabled(s) && Accounted(s, id, os)
    ensures Accounted(StepIo(s), id, os)
  {
    KnownSession(s);
    if id in s.sessions {
      IoOperation(s, id);
      hide Lives, StepIo, IoEnabled, Follows;
      SameFollows(s.sessions[id], StepIo(s).sessions[id], os);
    }
  }

  lemma IoOperation(s: State, id: Id)
    requires Lives(s) && IoEnabled(s) && id in s.sessions
    ensures id in StepIo(s).sessions
    ensures
      var x, y := s.sessions[id], StepIo(s).sessions[id];
      && y.outcomes == x.outcomes && y.answer == x.answer
      && (y.wait == x.wait || (!Ripe(x.wait) && !Ripe(y.wait)))
  {
    if s.io.Decide? && s.io.id == id {
      assert IoRuns(s.io, id);
      assert Life(id in s.active, s.sessions[id], s.apps, s.io, id);
    }
    hide Lives;
  }

  /** The handler is called with the outcome that waited for it. */
  lemma DispatchFollows(s: State, id: Id, os: seq<Outcome>)
    requires Lives(s) && Enabled(s, Dispatch(id)) && Follows(s.sessions[id], os)
    ensures id in Step(s, Dispatch(id)).sessions && Follows(Step(s, Dispatch(id)).sessions[id], os)
  {
    assert Life(id in s.active, s.sessions[id], s.apps, s.io, id);
    hide Lives;
  }

  lemma StepFollows(s: State, e: Event, id: Id, os: seq<Outcome>)
    requires Lives(s) && Enabled(s, e) && Accounted(s, id, os)
    ensures Accounted(Step(s, e), id, os + Endings(s, e, id))
  {
    assert os + [] == os;
    match e
    case AppStep(a) => hide Lives; AppFollows(s, a, id, os);
    case IoStep => hide Lives; IoFollows(s, id, os);
    case Dispatch(d) => if d == id { DispatchFollows(s, id, os); }
    case Complete(d, code, line) =>
      if d == id {
        EndFollows(s.sessions[id], Step(s, e).sessions[id], os, Finished(code, line));
      }
    case _ =>
  }

  lemma {:induction false} RunFollows(s: State, es: seq<Event>, t: State, id: Id, os: seq<Outcome>)
    requires Inv(s) && Run(s, es, t) && Accounted(s, id, os)
    ensures Accounted(t, id, os + EndingsOf(s, es, id))
    decreases |es|
  {
    hide Locks, Lives, Cancels, Step, Enabled, Endings, Accounted;
    if es == [] {
      assert os + [] == os;
    } else {
      StepFollows(s, es[0], id, os);
      StepKeepsInv(s, es[0]);
      RunFollows(Step(s, es[0]), es[1..], t, id, os + Endings(s, es[0], id));
      assert os + Endings(s, es[0], id) + EndingsOf(Step(s, es[0]), es[1..], id) == os + EndingsOf(s, es, id);
    }
  }

  /**
    The report, from the events alone.  Of the at most three operations each but the last has
    succeeded.  A failed last one gives its code, and no response; otherwise the code says
    whether the request was cancelled, and the response is the line the third operation read.
   */
  lemma ReportFromEvents(n: nat, es: seq<Event>, s: State, id: Id, r: Report)
    requires Run(Initial(n), es, s) && id in s.sessions && s.sessions[id].reports == [r]
    ensures
      var os, cancelled := EndingsOf(Initial(n), es, id), s.sessions[id].cancelled;
      && |os| <= 3
      && (forall k | 0 <= k < |os| :: os[k].Finished? && (k < |os| - 1 ==> os[k].code == 0))
      && (if |os| > 0 && os[|os| - 1].code != 0 then r == Report("", os[|os| - 1].code)
          else r == Report(if |os| == 3 then os[2].line else "", if cancelled then 125 else 0)
               && (|os| < 3 ==> cancelled))
  {
    InitialInv(n);
    RunKeepsInv(Initial(n), es, s);
    RunFollows(Initial(n), es, s, id, []);
    assert [] + EndingsOf(Initial(n), es, id) == EndingsOf(Initial(n), es, id);
    assert Life(id in s.active, s.sessions[id], s.apps, s.io, id);
    DoneReports(s.sessions[id], EndingsOf(Initial(n), es, id), r);
  }

  lemma DoneReports(x: Session, os: seq<Outcome>, r: Report)
    requires Follows(x, os) && Ended(x) && x.wait.NoOp?
    requires r == Report(Reply(x), Code(x.ec, x.cancelled))
    ensures |os| <= 3 && forall k | 0 <= k < |os| :: os[k].Finished? && (k < |os| - 1 ==> os[k].code == 0)
    ensures
      if |os| > 0 && os[|os| - 1].code != 0 then r == Report("", os[|os| - 1].code)
      else r == Report(if |os| == 3 then os[2].line else "", if x.cancelled then 125 else 0)
           && (|os| < 3 ==> x.cancelled)
  {
    if x.ec != 0 {
      var k: nat :| k < 3 && x.outcomes == Zeros(k) + [x.ec];
      assert k == 2 ==> x.outcomes[2] != Zeros(3)[2];
    } else {
      var k: nat :| k <= 3 && x.outcomes == Zeros(k) && (k < 3 ==> x.cancelled);
    }
  }
}
