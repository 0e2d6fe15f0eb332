/**
  The notifier protocol against what the application did: who is registered is read off the
  calls of registerSocketNotifier and unregisterSocketNotifier alone.
 */
module NotifierEvents {
  import opened Bytes
  import opened NotifierMachine
  import opened NotifierSafety
  import opened NotifierTheorems

  /** The last call for a descriptor and kind decides. */
  function Registered(es: seq<Event>, fd: int, kind: Kind): Option<Notifier>
    decreases |es|
  {
    if es == [] then None
    else
      var k := |es| - 1;
      match es[k]
      case Register(n) => if n.fd == fd && n.kind == kind then Some(n) else Registered(es[..k], fd, kind)
      case Unregister(n) => if n.fd == fd && n.kind == kind then None else Registered(es[..k], fd, kind)
      case _ => Registered(es[..k], fd, kind)
  }

  /** The slot of a descriptor and kind; null if there is no record. */
  function SlotAt(s: State, fd: int, kind: Kind): Option<Notifier> {
    match Lookup(s.records, ByFd(fd))
    case None => None
    case Some(j) => SlotOf(s.records[j], kind).notif
  }

  // ---------- What a step does to the slots ----------

  lemma {:induction false} LookupUpdated(rs: seq<Record>, j: nat, r: Record, fd: int)
    requires j < |rs| && r.fd == rs[j].fd
    ensures Lookup(rs[j := r], ByFd(fd)) == Lookup(rs, ByFd(fd))
  {
    if rs[0].fd != fd {
      if j == 0 {
        assert rs[j := r][1..] == rs[1..];
      } else {
        assert rs[j := r][1..] == rs[1..][j - 1 := r];
        LookupUpdated(rs[1..], j - 1, r, fd);
      }
    }
  }

  lemma {:induction false} LookupAppended(rs: seq<Record>, r: Record, fd: int)
    ensures Lookup(rs + [r], ByFd(fd))
         == if Lookup(rs, ByFd(fd)).Some? then Lookup(rs, ByFd(fd)) else if r.fd == fd then Some(|rs|) else None
  {
    if rs == [] {
      assert rs + [r] == [r];
    } else {
      assert (rs + [r])[1..] == rs[1..] + [r];
      LookupAppended(rs[1..], r, fd);
    }
  }

  lemma SlotAtRecord(s: State, r: Record, kind: Kind)
    requires Distinct(s.records) && r in s.records
    ensures SlotAt(s, r.fd, kind) == SlotOf(r, kind).notif
  {
    var j := Lookup(s.records, ByFd(r.fd)).value;
    IdsDistinct(s.records, s.records[j], r);
  }

  /** Record j changes, and no other slot does. */
  lemma SlotsUpdated(s: State, t: State, j: nat, fd: int, kind: Kind)
    requires Distinct(s.records) && j < |s.records| == |t.records|
    requires t.records == s.records[j := t.records[j]] && t.records[j].fd == s.records[j].fd
    ensures SlotAt(t, fd, kind)
         == if fd == s.records[j].fd then SlotOf(t.records[j], kind).notif else SlotAt(s, fd, kind)
  {
    LookupUpdated(s.records, j, t.records[j], fd);
    var k := Lookup(s.records, ByFd(fd));
    if fd == s.records[j].fd {
      assert s.records[j] in s.records && Named(s.records[j], ByFd(fd));
      assert k.value == j;
    } else if k.Some? {
      assert t.records[k.value] == s.records[k.value];
    }
  }

  lemma RegisterSlots(s: State, n: Notifier, fd: int, kind: Kind)
    requires Inv(s) && Enabled(s, Register(n))
    ensures SlotAt(Step(s, Register(n)), fd, kind)
         == if n.fd == fd && n.kind == kind then Some(n) else SlotAt(s, fd, kind)
  {
    hide Inv, Lookup;
    EnsureKeepsInv(s, n.fd);
    var (s1, j) := Ensure(s, n.fd);
    RecordsDistinct(s1);
    EnsureSlots(s, n.fd, fd, kind);
    EnsureSlots(s, n.fd, fd, n.kind);
    SlotAtRecord(s1, s1.records[j], kind);
    SlotsUpdated(s1, StepRegister(s, n), j, fd, kind);
  }

  lemma RecordsDistinct(s: State)
    requires Inv(s)
    ensures Distinct(s.records)
  {
  }

  lemma EnsureSlots(s: State, made: int, fd: int, kind: Kind)
    ensures SlotAt(Ensure(s, made).0, fd, kind) == SlotAt(s, fd, kind)
  {
    LookupAppended(s.records, FreshRecord(s.nextId, made), fd);
  }

  lemma UnregisterSlots(s: State, n: Notifier, fd: int, kind: Kind)
    requires Inv(s) && Enabled(s, Unregister(n))
    ensures SlotAt(Step(s, Unregister(n)), fd, kind)
         == if n.fd == fd && n.kind == kind then None else SlotAt(s, fd, kind)
  {
    hide Inv;
    RecordsDistinct(s);
    var j := Lookup(s.records, ByFd(n.fd)).value;
    SlotAtRecord(s, s.records[j], kind);
    SlotsUpdated(s, StepUnregister(s, n, j), j, fd, kind);
  }

  lemma RunSlots(s: State, i: nat, fd: int, kind: Kind)
    requires Inv(s) && Enabled(s, Run(i))
    ensures SlotAt(Step(s, Run(i)), fd, kind) == SlotAt(s, fd, kind)
  {
    hide Inv, StepRun, Lookup, SlotAt;
    RecordsDistinct(s);
    LiveRecord(s, i);
    var j := Lookup(s.records, ById(s.handlers[i].rec)).value;
    RunElsewhere(s, i, j);
    RunKeepsSlots(s, i, j, kind);
    SlotAtRecord(s, s.records[j], kind);
    SlotsUpdated(s, StepRun(s, i, j), j, fd, kind);
  }

  lemma RunKeepsSlots(s: State, i: nat, j: nat, kind: Kind)
    requires i < |s.handlers| && j < |s.records|
    ensures |StepRun(s, i, j).records| == |s.records| && StepRun(s, i, j).records[j].fd == s.records[j].fd
    ensures SlotOf(StepRun(s, i, j).records[j], kind).notif == SlotOf(s.records[j], kind).notif
  {
  }

  /** Cleanup empties a slot only where its assertion fails. */
  lemma CleanupSlots(s: State, fd: int, kind: Kind)
    requires Inv(s)
    ensures
      var t := Step(s, Cleanup);
      SlotAt(t, fd, kind) == SlotAt(s, fd, kind) || (SlotAt(t, fd, kind).None? && t.assertFailed)
  {
    var t := Step(s, Cleanup);
    KeptMembers(s.records);
    KeptDistinct(s.records);
    var k := Lookup(s.records, ByFd(fd));
    if k.Some? && s.records[k.value].pending != 0 {
      SlotAtRecord(t, s.records[k.value], kind);
    } else if Lookup(t.records, ByFd(fd)).Some? {
      var r := t.records[Lookup(t.records, ByFd(fd)).value];
      assert r in t.records && r in s.records;
      SlotAtRecord(s, r, kind);
    } else if k.Some? {
      assert s.records[k.value] in s.records;
    }
  }

  /** A slot changes only by a call for its descriptor and kind, or where cleanup's assertion fails. */
  lemma StepSlots(s: State, e: Event, fd: int, kind: Kind)
    requires Inv(s) && Enabled(s, e)
    ensures
      var before, after := SlotAt(s, fd, kind), SlotAt(Step(s, e), fd, kind);
      match e
      case Register(n) => after == if n.fd == fd && n.kind == kind then Some(n) else before
      case Unregister(n) => after == if n.fd == fd && n.kind == kind then None else before
      case Cleanup => after == before || (after.None? && Step(s, e).assertFailed)
      case _ => after == before
  {
    hide Inv;
    match e
    case Register(n) => RegisterSlots(s, n, fd, kind);
    case Unregister(n) => UnregisterSlots(s, n, fd, kind);
    case Run(i) => RunSlots(s, i, fd, kind);
    case Cleanup => CleanupSlots(s, fd, kind);
    case _ =>
  }

  lemma StaysFailed(s: State, e: Event)
    requires Enabled(s, e) && s.assertFailed
    ensures Step(s, e).assertFailed
  {
  }

  // ---------- Every run ----------

  /** A run up to its last event. */
  lemma {:induction false} TraceInit(s: State, es: seq<Event>, t: State) returns (m: State)
    requires Trace(s, es, t) && es != []
    ensures Trace(s, es[..|es| - 1], m) && Enabled(m, es[|es| - 1]) && t == Step(m, es[|es| - 1])
    decreases |es|
  {
    hide Step, Enabled;
    if |es| == 1 {
      m := s;
      assert Trace(Step(s, es[0]), [], t) by { assert es[1..] == []; }
      assert es[..0] == [];
    } else {
      m := TraceInit(Step(s, es[0]), es[1..], t);
      assert es[1..][..|es| - 2] == es[..|es| - 1][1..];
      assert es[1..][|es| - 2] == es[|es| - 1];
    }
  }

  /**
    On every run the slot of a descriptor and kind holds what was registered last and not
    unregistered since, or is empty because cleanup has failed its assertion and freed it.
   */
  lemma {:induction false} SlotIsRegistered(es: seq<Event>, t: State, fd: int, kind: Kind)
    requires Trace(INITIAL, es, t)
    ensures SlotAt(t, fd, kind) == Registered(es, fd, kind) || (SlotAt(t, fd, kind).None? && t.assertFailed)
    decreases |es|
  {
    hide Inv, Enabled, Step, Trace, SlotAt;
    if es == [] {
      NoSlots(es, t, fd, kind);
    } else {
      var k := |es| - 1;
      var s := TraceInit(INITIAL, es, t);
      SlotIsRegistered(es[..k], s, fd, kind);
      StartsInv(es[..k], s);
      StepSlots(s, es[k], fd, kind);
      if s.assertFailed { StaysFailed(s, es[k]); }
    }
  }

  lemma NoSlots(es: seq<Event>, t: State, fd: int, kind: Kind)
    requires Trace(INITIAL, es, t) && es == []
    ensures SlotAt(t, fd, kind).None?
  {
  }

  lemma StartsInv(es: seq<Event>, s: State)
    requires Trace(INITIAL, es, s)
    ensures Inv(s)
  {
    TraceKeepsInv(INITIAL, es, s);
  }

  /** If errors come only from cancellation, the slots are exactly what the calls say. */
  lemma SlotsExact(es: seq<Event>, t: State, fd: int, kind: Kind)
    requires Trace(INITIAL, es, t) && forall e | e in es :: !e.IoError?
    ensures SlotAt(t, fd, kind) == Registered(es, fd, kind)
  {
    SlotIsRegistered(es, t, fd, kind);
    TraceKeepsInv(INITIAL, es, t);
    ErrorFree(INITIAL, es, t);
  }

  // ---------- Deliveries ----------

  /** Handler i has completed without error, and its registration is still the current one. */
  predicate Current(s: State, i: nat)
    requires i < |s.handlers|
  {
    var h := s.handlers[i];
    var j := Lookup(s.records, ById(h.rec));
    h.status.Fired? && j.Some? && SlotOf(s.records[j.value], h.kind).revision == h.revision
  }

  lemma RunDelivers(s: State, i: nat)
    requires Inv(s) && Enabled(s, Run(i))
    ensures
      var d := s.handlers[i].owner;
      if Current(s, i) then
        && Step(s, Run(i)).delivered == s.delivered + [Delivery(d, d)]
        && SlotAt(s, d.fd, d.kind) == Some(d)
      else Step(s, Run(i)).delivered == s.delivered
  {
    LiveRecord(s, i);
    var h := s.handlers[i];
    var j := Lookup(s.records, ById(h.rec)).value;
    assert s.records[j] in s.records;
    if Current(s, i) {
      assert RecordInv(s.handlers, s.records[j]);
      SlotAtRecord(s, s.records[j], h.kind);
    }
  }

  lemma OthersDeliverNothing(s: State, e: Event)
    requires Enabled(s, e) && !e.Run?
    ensures Step(s, e).delivered == s.delivered
  {
  }

  /**
    An event is delivered by the run of a handler that has completed without error and is
    current, and by nothing else; and then to a notifier that at that moment is registered, by
    the calls that the application has made.
   */
  lemma DeliversToRegistered(es: seq<Event>, s: State, e: Event)
    requires Trace(INITIAL, es, s) && Enabled(s, e)
    ensures
      if e.Run? && Current(s, e.i) then
        var d := s.handlers[e.i].owner;
        && Step(s, e).delivered == s.delivered + [Delivery(d, d)]
        && Registered(es, d.fd, d.kind) == Some(d)
      else Step(s, e).delivered == s.delivered
  {
    hide Inv, Step, Registered, SlotAt, Trace;
    StartsInv(es, s);
    if e.Run? {
      RunDelivers(s, e.i);
      var d := s.handlers[e.i].owner;
      SlotIsRegistered(es, s, d.fd, d.kind);
    } else {
      OthersDeliverNothing(s, e);
    }
  }

  lemma {:induction false} FindMatching(hs: seq<Handler>, key: Key) returns (i: nat)
    requires Count(hs, key) > 0
    ensures i < |hs| && Matches(hs[i], key)
  {
    if Matches(hs[0], key) {
      i := 0;
    } else {
      var k := FindMatching(hs[1..], key);
      i := k + 1;
    }
  }

  /** The event loop reports handler i ready, if it has not done so, and runs it. */
  function Attended(s: State, i: nat): State
    requires i < |s.handlers|
  {
    var s1 := if s.handlers[i].status.Waiting? then Step(s, Fire(i)) else s;
    Step(s1, Run(i))
  }

  /**
    Readiness is not lost: if errors come only from cancellation, then for whoever is
    registered, by the calls, there is a handler whose next turn delivers to it.
   */
  lemma ReadyIsDelivered(es: seq<Event>, s: State, n: Notifier)
    requires Trace(INITIAL, es, s) && (forall e | e in es :: !e.IoError?)
    requires Registered(es, n.fd, n.kind) == Some(n)
    ensures exists i ::
      0 <= i < |s.handlers| && s.handlers[i].owner == n && Attended(s, i).delivered == s.delivered + [Delivery(n, n)]
  {
    SlotsExact(es, s, n.fd, n.kind);
    StartsInv(es, s);
    var r := s.records[Lookup(s.records, ByFd(n.fd)).value];
    assert r in s.records;
    ChainsAlive(es, s, r, n.kind);
    var i := FindMatching(s.handlers, Chain(r.id, n.kind, SlotOf(r, n.kind).revision));
    assert s.handlers[i] in s.handlers;
    AttendedDelivers(s, i, r);
  }

  lemma AttendedDelivers(s: State, i: nat, r: Record)
    requires Inv(s) && i < |s.handlers| && r in s.records
    requires Matches(s.handlers[i], Chain(r.id, s.handlers[i].kind, SlotOf(r, s.handlers[i].kind).revision))
    requires s.handlers[i].status.Waiting? || s.handlers[i].status.Fired?
    ensures
      var d := s.handlers[i].owner;
      Attended(s, i).delivered == s.delivered + [Delivery(d, d)]
  {
    var h := s.handlers[i];
    LiveRecord(s, i);
    IdsDistinct(s.records, r, s.records[Lookup(s.records, ById(h.rec)).value]);
    var s1 := if h.status.Waiting? then Step(s, Fire(i)) else s;
    if h.status.Waiting? { StepKeepsInv(s, Fire(i)); }
    hide Inv;
    RunDelivers(s1, i);
  }

  lemma {:induction false} TraceConcat(s: State, a: seq<Event>, m: State, b: seq<Event>, t: State)
    requires Trace(s, a, m) && Trace(m, b, t)
    ensures Trace(s, a + b, t)
    decreases |a|
  {
    hide Step, Enabled;
    if a == [] {
      assert a + b == b;
    } else {
      assert (a + b)[1..] == a[1..] + b;
      TraceConcat(Step(s, a[0]), a[1..], m, b, t);
    }
  }

  lemma {:induction false} StaysUnregistered(es: seq<Event>, more: seq<Event>, n: Notifier)
    requires Registered(es, n.fd, n.kind).None? && Register(n) !in more
    ensures Registered(es + more, n.fd, n.kind) != Some(n)
    decreases |more|
  {
    if more == [] {
      assert es + more == es;
    } else {
      var k := |more| - 1;
      assert (es + more)[..|es| + k] == es + more[..k];
      assert (es + more)[|es| + k] == more[k] && more[k] in more;
      StaysUnregistered(es, more[..k], n);
    }
  }

  /**
    Once unregistered, and until it is registered again, a notifier is delivered nothing, on
    any run: not by handlers that were already waiting, nor by those that had already fired.
   */
  lemma {:induction false} SilentOnceUnregistered(
    es: seq<Event>, s: State, more: seq<Event>, t: State, n: Notifier)
    requires Trace(INITIAL, es, s) && es != [] && es[|es| - 1] == Unregister(n)
    requires Trace(s, more, t) && Register(n) !in more
    ensures s.delivered <= t.delivered
    ensures forall d | d in t.delivered[|s.delivered|..] :: d.target != n
    decreases |more|
  {
    hide Inv, Step, Enabled, Registered;
    if more == [] {
      assert t == s;
    } else {
      var k := |more| - 1;
      var m := TraceInit(s, more, t);
      SilentOnceUnregistered(es, s, more[..k], m, n);
      TraceConcat(INITIAL, es, s, more[..k], m);
      DeliversToRegistered(es + more[..k], m, more[k]);
      assert Registered(es, n.fd, n.kind).None? by { LastUnregistered(es, n); }
      StaysUnregistered(es, more[..k], n);
    }
  }

  lemma LastUnregistered(es: seq<Event>, n: Notifier)
    requires es != [] && es[|es| - 1] == Unregister(n)
    ensures Registered(es, n.fd, n.kind).None?
  {
  }
}
