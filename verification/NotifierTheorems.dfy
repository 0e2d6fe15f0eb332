/** What every run of the socket-notifier protocol guarantees. */
module NotifierTheorems {
  import opened Bytes
  import opened NotifierMachine
  import opened NotifierSafety

  ghost predicate Trace(s: State, es: seq<Event>, t: State)
    decreases |es|
  {
    if es == [] then t == s else Enabled(s, es[0]) && Trace(Step(s, es[0]), es[1..], t)
  }

  lemma {:induction false} TraceKeepsInv(s: State, es: seq<Event>, t: State)
    requires Inv(s) && Trace(s, es, t)
    ensures Inv(t)
    decreases |es|
  {
    hide Inv, Step;
    if es != [] {
      StepKeepsInv(s, es[0]);
      TraceKeepsInv(Step(s, es[0]), es[1..], t);
    }
  }

  /**
    No misdelivery, on any run and whatever errors occur: no handler ever follows a pointer to
    a freed record or finds a null notifier, and every event goes to the very notifier whose
    registration began the chain of the handler that delivers it.
   */
  lemma NoMisdelivery(es: seq<Event>, t: State)
    requires Trace(INITIAL, es, t)
    ensures !t.misuse
    ensures forall d | d in t.delivered :: d.target == d.owner
  {
    TraceKeepsInv(INITIAL, es, t);
  }

  /**
    Revisions tell registrations apart: a kind's revision is odd exactly while a notifier is
    registered, and an outstanding handler, whose revision is odd and never ahead, has the
    current one only if the notifier that began its chain is the one now registered.
   */
  lemma RevisionsIdentify(es: seq<Event>, t: State, r: Record, k: Kind)
    requires Trace(INITIAL, es, t) && r in t.records
    ensures SlotOf(r, k).notif.Some? <==> SlotOf(r, k).revision % 2 == 1
    ensures forall h | h in t.handlers && h.rec == r.id && h.kind == k ::
              && h.revision % 2 == 1 && h.revision <= SlotOf(r, k).revision
              && (h.revision == SlotOf(r, k).revision ==> SlotOf(r, k).notif == Some(h.owner))
  {
    TraceKeepsInv(INITIAL, es, t);
    assert RecordInv(t.handlers, r);
    forall h | h in t.handlers && h.rec == r.id && h.kind == k ensures HandlerOn(r, h) {
      var r' :| r' in t.records && r'.id == h.rec && HandlerOn(r', h);
      IdsDistinct(t.records, r, r');
    }
  }

  /**
    Safe reclamation: pending_operations counts the outstanding handlers of a record, every
    outstanding handler's record is in the table, and cleanup leaves it there; a descriptor
    never has two records.
   */
  lemma SafeReclamation(es: seq<Event>, t: State)
    requires Trace(INITIAL, es, t)
    ensures forall r | r in t.records :: r.pending == Count(t.handlers, Of(r.id))
    ensures forall h | h in t.handlers :: exists r :: r in t.records && r in Kept(t.records) && r.id == h.rec
    ensures forall a, b | a in t.records && b in t.records && a.fd == b.fd :: a == b
  {
    TraceKeepsInv(INITIAL, es, t);
    KeptMembers(t.records);
    forall h | h in t.handlers
      ensures exists r :: r in t.records && r in Kept(t.records) && r.id == h.rec
    {
      var r :| r in t.records && r.id == h.rec && HandlerOn(r, h);
      PointedTo(t.handlers, h, r);
    }
    forall a, b | a in t.records && b in t.records && a.fd == b.fd ensures a == b {
      IdsDistinct(t.records, a, b);
    }
  }

  lemma {:induction false} ErrorFree(s: State, es: seq<Event>, t: State)
    requires Trace(s, es, t) && forall e | e in es :: !e.IoError?
    ensures t.errors == s.errors
    decreases |es|
  {
    if es != [] {
      assert es[0] in es;
      ErrorFree(Step(s, es[0]), es[1..], t);
    }
  }

  /**
    Liveness of the chains, whatever errors occur.  On every run, including re-registration
    before old handlers have drained, a registered notifier has exactly one outstanding handler
    with the current revision, unless an I/O error of that very handler has ended its chain,
    and then none; an unregistered kind has none.  Such a handler is for the registered
    notifier and has not been aborted.
   */
  lemma ChainAlive(es: seq<Event>, t: State, r: Record, k: Kind)
    requires Trace(INITIAL, es, t) && r in t.records
    ensures var slot := SlotOf(r, k);
            Count(t.handlers, Chain(r.id, k, slot.revision)) == (if slot.notif.Some? && !slot.broken then 1 else 0)
    ensures forall h | h in t.handlers && Matches(h, Chain(r.id, k, SlotOf(r, k).revision)) ::
              SlotOf(r, k).notif == Some(h.owner) && !h.status.Aborted?
  {
    TraceKeepsInv(INITIAL, es, t);
    assert RecordInv(t.handlers, r);
    forall h | h in t.handlers && Matches(h, Chain(r.id, k, SlotOf(r, k).revision))
      ensures SlotOf(r, k).notif == Some(h.owner) && !h.status.Aborted?
    {
      var r' :| r' in t.records && r'.id == h.rec && HandlerOn(r', h);
      IdsDistinct(t.records, r, r');
    }
  }

  /**
    If errors come only from cancellation then every chain is alive, its handler has not
    failed, and cleanup's assertion has never failed and would not now.
   */
  lemma ChainsAlive(es: seq<Event>, t: State, r: Record, k: Kind)
    requires Trace(INITIAL, es, t) && forall e | e in es :: !e.IoError?
    requires r in t.records
    ensures Count(t.handlers, Chain(r.id, k, SlotOf(r, k).revision)) == (if SlotOf(r, k).notif.Some? then 1 else 0)
    ensures forall h | h in t.handlers && Matches(h, Chain(r.id, k, SlotOf(r, k).revision)) ::
              SlotOf(r, k).notif == Some(h.owner) && (h.status.Waiting? || h.status.Fired?)
    ensures !t.assertFailed && CleanupAsserts(t.records)
  {
    TraceKeepsInv(INITIAL, es, t);
    ErrorFree(INITIAL, es, t);
    AssertionIffUnbroken(t);
    ChainAlive(es, t, r, k);
    hide RecordInv;
  }

  /** With an I/O error of its own the assertion can fail: one registration and one error suffice. */
  lemma IoErrorBreaksAssertion(n: Notifier)
    ensures exists t :: Trace(INITIAL, [Register(n), IoError(0), Run(0), Cleanup], t) && t.assertFailed
  {
    var es := [Register(n), IoError(0), Run(0), Cleanup];
    var s1 := Step(INITIAL, es[0]);
    var s2 := Step(s1, es[1]);
    var s3 := Step(s2, es[2]);
    assert s3.records == [WithSlot(FreshRecord(0, n.fd), n.kind, Slot(Some(n), 1, true))];
    assert s3.records[0].pending == 0 && !NoNotifiers(s3.records[0]);
    var t := Step(s3, es[3]);
    assert es[1..][1..][1..] == [Cleanup];
    assert Trace(s3, [Cleanup], t);
    assert Trace(s2, es[2..], t) by { assert es[2..][1..] == [Cleanup]; }
    assert Trace(s1, es[1..], t) by { assert es[1..][1..] == es[2..]; }
  }

  // ---------- Draining ----------

  /** A record's number of outstanding operations; none if it is not in the table. */
  ghost predicate Draining(s: State, r: Record) {
    r in s.records && NoNotifiers(r)
  }

  /**
    Once all notifiers of a descriptor are gone and until it is registered again, a step either
    runs one of the record's handlers and lowers its pending count by one, or leaves the
    record as it is, or is the cleanup that finds the count at zero and removes it.
   */
  lemma DrainStep(s: State, r: Record, e: Event)
    requires Inv(s) && Enabled(s, e) && Draining(s, r)
    requires !(e.Register? && e.n.fd == r.fd)
    ensures
      var t := Step(s, e);
      if e.Run? && s.handlers[e.i].rec == r.id then Draining(t, r.(pending := r.pending - 1)) && r.pending > 0
      else if e.Cleanup? && r.pending == 0 then forall x | x in t.records :: x.id != r.id
      else Draining(t, r)
  {
    hide RecordInv;
    match e
    case Register(n) => RegisterElsewhere(s, r, n);
    case Unregister(n) => UnregisterElsewhere(s, r, n);
    case Run(i) =>
      LiveRecord(s, i);
      var j := Lookup(s.records, ById(s.handlers[i].rec)).value;
      if s.handlers[i].rec == r.id {
        IdsDistinct(s.records, s.records[j], r);
        PointedTo(s.handlers, s.handlers[i], r);
        var t := Step(s, e);
        assert SlotOf(r, s.handlers[i].kind).revision != s.handlers[i].revision;
        assert t.records == s.records[j := r.(pending := r.pending - 1)];
        assert t.records[j] in t.records;
      } else {
        StaysInUpdated(s.records, j, Step(s, e).records[j], r);
        RunElsewhere(s, i, j);
      }
    case Cleanup =>
      KeptMembers(s.records);
      forall x | x in s.records && x.id == r.id ensures x == r { IdsDistinct(s.records, x, r); }
    case _ =>
  }

  lemma RunElsewhere(s: State, i: nat, j: nat)
    requires i < |s.handlers| && j < |s.records|
    ensures StepRun(s, i, j).records == s.records[j := StepRun(s, i, j).records[j]]
  {
  }

  lemma RegisterElsewhere(s: State, r: Record, n: Notifier)
    requires Inv(s) && r in s.records && n.fd != r.fd
    ensures r in StepRegister(s, n).records
  {
    hide RecordInv;
    EnsureKeepsInv(s, n.fd);
    var (s1, j) := Ensure(s, n.fd);
    assert r in s1.records;
    var t := StepRegister(s, n);
    assert t.records == s1.records[j := t.records[j]];
    var i :| 0 <= i < |s1.records| && s1.records[i] == r;
    assert t.records[i] == r;
  }

  lemma UnregisterElsewhere(s: State, r: Record, n: Notifier)
    requires Inv(s) && Draining(s, r) && Enabled(s, Unregister(n))
    ensures r in Step(s, Unregister(n)).records
  {
    hide RecordInv;
    var j := Lookup(s.records, ByFd(n.fd)).value;
    if s.records[j].id == r.id {
      IdsDistinct(s.records, s.records[j], r);
    } else {
      StaysInUpdated(s.records, j, Step(s, Unregister(n)).records[j], r);
    }
  }

  lemma {:induction false} FindHandler(hs: seq<Handler>, id: nat) returns (i: nat)
    requires Count(hs, Of(id)) > 0
    ensures i < |hs| && hs[i].rec == id
  {
    if hs[0].rec == id {
      i := 0;
    } else {
      var k := FindHandler(hs[1..], id);
      i := k + 1;
    }
  }

  lemma CleanupEnabled(s: State)
    ensures Enabled(s, Cleanup)
  {
  }

  lemma AllRun(s: State, r: Record)
    requires Inv(s) && Draining(s, r)
    ensures r.pending == Count(s.handlers, Of(r.id))
    ensures forall i | 0 <= i < |s.handlers| && s.handlers[i].rec == r.id :: Enabled(s, Run(i))
  {
    assert RecordInv(s.handlers, r);
    forall i | 0 <= i < |s.handlers| && s.handlers[i].rec == r.id ensures Enabled(s, Run(i)) {
      assert s.handlers[i] in s.handlers;
    }
  }

  /**
    Nothing leaks: every outstanding handler of a record without notifiers can run at once, and
    running as many handlers as it has operations pending, then cleaning up, removes it.
   */
  lemma {:induction false} DrainsAway(s: State, r: Record)
    requires Inv(s) && Draining(s, r)
    ensures forall i | 0 <= i < |s.handlers| && s.handlers[i].rec == r.id :: Enabled(s, Run(i))
    ensures exists es, t ::
              Trace(s, es, t) && |es| == r.pending + 1 && (forall x | x in t.records :: x.id != r.id)
    decreases r.pending
  {
    hide Inv, Enabled, Step, Draining, RunsOf;
    AllRun(s, r);
    if r.pending == 0 {
      assert Enabled(s, Cleanup) by { CleanupEnabled(s); }
      DrainStep(s, r, Cleanup);
      assert [Cleanup][1..] == [];
      assert Trace(s, [Cleanup], Step(s, Cleanup));
    } else {
      var i := FindHandler(s.handlers, r.id);
      DrainStep(s, r, Run(i));
      StepKeepsInv(s, Run(i));
      var s1, r1 := Step(s, Run(i)), r.(pending := r.pending - 1);
      DrainsAway(s1, r1);
      var es, t :| Trace(s1, es, t) && |es| == r1.pending + 1 && (forall x | x in t.records :: x.id != r1.id);
      assert ([Run(i)] + es)[1..] == es;
      assert Trace(s, [Run(i)] + es, t);
    }
  }

  // ---------- Every schedule ----------

  /** How many handlers of a record a run runs. */
  function RunsOf(s: State, es: seq<Event>, id: nat): nat
    decreases |es|
  {
    if es == [] || !Enabled(s, es[0]) then 0
    else (if es[0].Run? && s.handlers[es[0].i].rec == id then 1 else 0) + RunsOf(Step(s, es[0]), es[1..], id)
  }

  predicate Gone(s: State, id: nat) {
    id < s.nextId && forall x | x in s.records :: x.id != id
  }

  /** A record that has been removed is never seen again. */
  lemma {:induction false} StaysGone(s: State, es: seq<Event>, t: State, id: nat)
    requires Inv(s) && Gone(s, id) && Trace(s, es, t)
    ensures Gone(t, id) && RunsOf(s, es, id) == 0
    decreases |es|
  {
    hide Inv, Step, Enabled;
    if es != [] {
      GoneStep(s, id, es[0]);
      StepKeepsInv(s, es[0]);
      StaysGone(Step(s, es[0]), es[1..], t, id);
    }
  }

  lemma GoneStep(s: State, id: nat, e: Event)
    requires Inv(s) && Gone(s, id) && Enabled(s, e)
    ensures Gone(Step(s, e), id)
    ensures e.Run? ==> s.handlers[e.i].rec != id
  {
    hide RecordInv;
    match e
    case Register(n) =>
    case Unregister(n) =>
    case Run(i) => LiveRecord(s, i);
    case Cleanup => KeptMembers(s.records);
    case _ =>
  }

  /** A record without notifiers of which n handlers have been run. */
  ghost predicate Drained(t: State, r: Record, n: nat) {
    && n <= r.pending
    && (Draining(t, r.(pending := r.pending - n)) || (n == r.pending && Gone(t, r.id)))
  }

  /**
    On every schedule: until its descriptor is registered again, a record without notifiers
    has run no more handlers than were pending, and its count has fallen by as many, or all
    have run and cleanup has removed it for good.
   */
  lemma {:induction false} DrainsAlways(s: State, es: seq<Event>, t: State, r: Record)
    requires Inv(s) && Draining(s, r) && Trace(s, es, t)
    requires forall e | e in es :: !(e.Register? && e.n.fd == r.fd)
    ensures Drained(t, r, RunsOf(s, es, r.id))
    decreases |es|
  {
    hide Inv, Step, Lookup, Draining, Gone, Drained;
    if es == [] {
      DrainedNone(s, r);
    } else {
      var e, s1 := es[0], Step(s, es[0]);
      assert e in es;
      assert forall e | e in es[1..] :: e in es;
      StepKeepsInv(s, e);
      DrainedStep(s, r, e);
      if e.Run? && s.handlers[e.i].rec == r.id {
        DrainsAlways(s1, es[1..], t, r.(pending := r.pending - 1));
        DrainedMore(t, r, RunsOf(s1, es[1..], r.id));
      } else if e.Cleanup? && r.pending == 0 {
        StaysGone(s1, es[1..], t, r.id);
        DrainedGone(t, r);
      } else {
        DrainsAlways(s1, es[1..], t, r);
      }
    }
  }

  lemma DrainedNone(s: State, r: Record)
    requires Inv(s) && Draining(s, r)
    ensures Drained(s, r, 0)
  {
    assert RecordInv(s.handlers, r);
    hide RecordInv;
  }

  lemma DrainedMore(t: State, r: Record, n: nat)
    requires r.pending > 0 && Drained(t, r.(pending := r.pending - 1), n)
    ensures Drained(t, r, n + 1)
  {
    assert r.(pending := r.pending - 1).(pending := r.pending - 1 - n) == r.(pending := r.pending - (n + 1));
  }

  lemma DrainedGone(t: State, r: Record)
    requires r.pending == 0 && Gone(t, r.id)
    ensures Drained(t, r, 0)
  {
  }

  lemma DrainedStep(s: State, r: Record, e: Event)
    requires Inv(s) && Enabled(s, e) && Draining(s, r)
    requires !(e.Register? && e.n.fd == r.fd)
    ensures
      if e.Run? && s.handlers[e.i].rec == r.id then
        Draining(Step(s, e), r.(pending := r.pending - 1)) && r.pending > 0
      else if e.Cleanup? && r.pending == 0 then Gone(Step(s, e), r.id)
      else Draining(Step(s, e), r)
  {
    assert r.id < s.nextId;
    assert e.Cleanup? ==> Step(s, e).nextId == s.nextId;
    DrainStep(s, r, e);
    hide Inv, Step, Enabled;
  }
}
