/** Safety of the socket-notifier protocol over every run. */
module NotifierSafety {
  import opened Bytes
  import opened NotifierMachine

  // ---------- Invariant ----------

  /**
    Revisions are odd exactly while a notifier is registered, and exactly one outstanding
    handler then carries the current one, unless an I/O error has ended the chain.
   */
  ghost predicate SlotInv(hs: seq<Handler>, r: Record, k: Kind) {
    var slot := SlotOf(r, k);
    && (slot.notif.Some? <==> slot.revision % 2 == 1)
    && (slot.broken ==> slot.notif.Some?)
    && (slot.notif.Some? ==> slot.notif.value.fd == r.fd && slot.notif.value.kind == k)
    && Count(hs, Chain(r.id, k, slot.revision)) == (if slot.notif.Some? && !slot.broken then 1 else 0)
  }

  ghost predicate NoneWaiting(hs: seq<Handler>, id: nat) {
    forall h | h in hs && h.rec == id :: !h.status.Waiting?
  }

  ghost predicate RecordInv(hs: seq<Handler>, r: Record) {
    && r.pending == Count(hs, Of(r.id))
    && SlotInv(hs, r, Read) && SlotInv(hs, r, Write)
    && (NoNotifiers(r) ==> NoneWaiting(hs, r.id))
  }

  /** A handler is never ahead of its record, and if it is current its notifier is the registered one. */
  ghost predicate HandlerOn(r: Record, h: Handler) {
    var slot := SlotOf(r, h.kind);
    && h.revision % 2 == 1 && h.revision <= slot.revision
    && (h.revision == slot.revision ==> slot.notif == Some(h.owner) && !h.status.Aborted?)
  }

  ghost predicate Live(rs: seq<Record>, h: Handler) {
    exists r :: r in rs && r.id == h.rec && HandlerOn(r, h)
  }

  ghost predicate Distinct(rs: seq<Record>) {
    forall i, j | 0 <= i < j < |rs| :: rs[i].id != rs[j].id && rs[i].fd != rs[j].fd
  }

  predicate Unbroken(r: Record) {
    !r.read.broken && !r.write.broken
  }

  ghost predicate Inv(s: State) {
    && Distinct(s.records)
    && (forall r | r in s.records :: r.id < s.nextId && RecordInv(s.handlers, r))
    && (forall h | h in s.handlers :: Live(s.records, h))
    && (forall d | d in s.delivered :: d.target == d.owner)
    && !s.misuse
    && (s.errors == 0 ==>
          && !s.assertFailed
          && (forall r | r in s.records :: Unbroken(r))
          && (forall h | h in s.handlers :: !h.status.Failed?))
  }

  // ---------- Lists of records ----------

  lemma IdsDistinct(rs: seq<Record>, a: Record, b: Record)
    requires Distinct(rs) && a in rs && b in rs && (a.id == b.id || a.fd == b.fd)
    ensures a == b
  {
    var i :| 0 <= i < |rs| && rs[i] == a;
    var j :| 0 <= j < |rs| && rs[j] == b;
  }

  /** Replacing record j leaves the others. */
  lemma InUpdated(rs: seq<Record>, j: nat, r': Record, r: Record)
    requires Distinct(rs) && j < |rs| && r'.id == rs[j].id
    requires r in rs[j := r']
    ensures r == r' || (r in rs && r.id != r'.id)
  {
    var i :| 0 <= i < |rs| && rs[j := r'][i] == r;
    if i != j {
      assert rs[i].id != rs[j].id;
    }
  }

  lemma StaysInUpdated(rs: seq<Record>, j: nat, r': Record, r: Record)
    requires j < |rs| && r in rs && r.id != rs[j].id
    ensures r in rs[j := r']
  {
    var i :| 0 <= i < |rs| && rs[i] == r;
    assert rs[j := r'][i] == r;
  }

  lemma DistinctUpdated(rs: seq<Record>, j: nat, r': Record)
    requires Distinct(rs) && j < |rs| && r'.id == rs[j].id && r'.fd == rs[j].fd
    ensures Distinct(rs[j := r'])
  {
  }

  /** A record is untouched by what happens to the handlers of others. */
  lemma OtherRecord(a: seq<Handler>, b: seq<Handler>, r: Record)
    requires RecordInv(a, r)
    requires Count(b, Of(r.id)) == Count(a, Of(r.id))
    requires forall k ::
               Count(b, Chain(r.id, k, SlotOf(r, k).revision)) == Count(a, Chain(r.id, k, SlotOf(r, k).revision))
    requires NoneWaiting(a, r.id) ==> NoneWaiting(b, r.id)
    ensures RecordInv(b, r)
  {
  }

  lemma {:induction false} ChainWithinRecord(hs: seq<Handler>, rec: nat, k: Kind, revision: nat)
    ensures Count(hs, Chain(rec, k, revision)) <= Count(hs, Of(rec))
  {
    if hs != [] {
      ChainWithinRecord(hs[1..], rec, k, revision);
    }
  }

  lemma InWithout(hs: seq<Handler>, i: nat)
    requires i < |hs|
    ensures forall h | h in Without(hs, i) :: h in hs
  {
  }

  /** The record a live handler points to, as the handler finds it. */
  lemma LiveRecord(s: State, i: nat)
    requires Inv(s) && i < |s.handlers|
    ensures Lookup(s.records, ById(s.handlers[i].rec)).Some?
    ensures var j := Lookup(s.records, ById(s.handlers[i].rec)).value;
            HandlerOn(s.records[j], s.handlers[i])
  {
    var h := s.handlers[i];
    assert h in s.handlers;
    var r :| r in s.records && r.id == h.rec && HandlerOn(r, h);
    var j := Lookup(s.records, ById(h.rec));
    assert j.Some?;
    IdsDistinct(s.records, r, s.records[j.value]);
  }

  // ---------- Replacing one record and some handlers ----------

  /**
    The proof obligation common to all steps that change record j: the new record is in
    order, other records see the same handlers, and every handler is live on its record.
   */
  lemma Replaced(s: State, t: State, j: nat)
    requires Inv(s) && j < |s.records| && j < |t.records|
    requires t.records == s.records[j := t.records[j]]
    requires t.records[j].id == s.records[j].id && t.records[j].fd == s.records[j].fd
    requires t.nextId == s.nextId
    requires RecordInv(t.handlers, t.records[j])
    requires forall r | r in s.records && r.id != s.records[j].id :: RecordInv(t.handlers, r)
    requires forall h | h in t.handlers ::
               if h.rec == t.records[j].id then HandlerOn(t.records[j], h) else Live(s.records, h)
    requires forall d | d in t.delivered :: d.target == d.owner
    requires !t.misuse
    requires t.errors == 0 ==>
               && s.errors == 0 && !t.assertFailed && Unbroken(t.records[j])
               && (forall h | h in t.handlers :: !h.status.Failed?)
    ensures Inv(t)
  {
    hide RecordInv, HandlerOn;
    var r' := t.records[j];
    DistinctUpdated(s.records, j, r');
    forall r | r in t.records
      ensures r.id < t.nextId && RecordInv(t.handlers, r) && (t.errors == 0 ==> Unbroken(r))
    {
      InUpdated(s.records, j, r', r);
      assert s.records[j] in s.records;
    }
    forall h | h in t.handlers ensures Live(t.records, h) {
      if h.rec == r'.id {
        assert r' in t.records;
      } else {
        var r :| r in s.records && r.id == h.rec && HandlerOn(r, h);
        StaysInUpdated(s.records, j, r', r);
      }
    }
  }

  // ---------- The steps ----------

  lemma RestatusKeepsInv(s: State, i: nat, status: Status, errors: nat)
    requires Inv(s) && i < |s.handlers| && s.handlers[i].status.Waiting?
    requires status.Fired? || (status.Failed? && errors > 0)
    requires errors >= s.errors
    ensures Inv(s.(handlers := s.handlers[i := s.handlers[i].(status := status)], errors := errors))
  {
    hide HandlerOn;
    var hs, h := s.handlers, s.handlers[i];
    var hs' := hs[i := h.(status := status)];
    forall r | r in s.records ensures RecordInv(hs', r) {
      SameCounts(hs, hs', r);
      OtherRecord(hs, hs', r);
    }
    forall g | g in hs' ensures Live(s.records, g) {
      if g !in hs {
        assert h in hs;
        var r :| r in s.records && r.id == h.rec && HandlerOn(r, h);
        RestatusOn(r, h, status);
      }
    }
  }

  lemma RestatusOn(r: Record, h: Handler, status: Status)
    requires HandlerOn(r, h) && !status.Aborted?
    ensures HandlerOn(r, h.(status := status))
  {
  }

  lemma SameCounts(a: seq<Handler>, b: seq<Handler>, r: Record)
    requires SameHandlers(a, b)
    ensures Count(b, Of(r.id)) == Count(a, Of(r.id))
    ensures forall k ::
              Count(b, Chain(r.id, k, SlotOf(r, k).revision)) == Count(a, Chain(r.id, k, SlotOf(r, k).revision))
  {
    CountSame(a, b, Of(r.id));
    forall k
      ensures Count(b, Chain(r.id, k, SlotOf(r, k).revision)) == Count(a, Chain(r.id, k, SlotOf(r, k).revision))
    {
      CountSame(a, b, Chain(r.id, k, SlotOf(r, k).revision));
    }
  }

  /** No outstanding handler carries a revision the slot has not reached. */
  lemma NoNewer(s: State, j: nat, k: Kind)
    requires Inv(s) && j < |s.records|
    ensures Count(s.handlers, Chain(s.records[j].id, k, SlotOf(s.records[j], k).revision + 1)) == 0
    ensures forall h | h in s.handlers && h.rec == s.records[j].id :: HandlerOn(s.records[j], h)
  {
    var rec := s.records[j];
    assert rec in s.records;
    forall h | h in s.handlers && h.rec == rec.id ensures HandlerOn(rec, h) {
      var r :| r in s.records && r.id == h.rec && HandlerOn(r, h);
      IdsDistinct(s.records, r, rec);
    }
    CountZero(s.handlers, Chain(rec.id, k, SlotOf(rec, k).revision + 1));
  }

  lemma AppendedElsewhere(hs: seq<Handler>, h: Handler, r: Record)
    requires RecordInv(hs, r) && r.id != h.rec
    ensures RecordInv(hs + [h], r)
  {
    CountAppend(hs, h, Of(r.id));
    forall k
      ensures Count(hs + [h], Chain(r.id, k, SlotOf(r, k).revision)) == Count(hs, Chain(r.id, k, SlotOf(r, k).revision))
    {
      CountAppend(hs, h, Chain(r.id, k, SlotOf(r, k).revision));
    }
    OtherRecord(hs, hs + [h], r);
  }

  lemma RemovedElsewhere(hs: seq<Handler>, i: nat, r: Record)
    requires i < |hs| && RecordInv(hs, r) && r.id != hs[i].rec
    ensures RecordInv(Without(hs, i), r)
  {
    CountRemove(hs, i, Of(r.id));
    forall k
      ensures Count(Without(hs, i), Chain(r.id, k, SlotOf(r, k).revision))
           == Count(hs, Chain(r.id, k, SlotOf(r, k).revision))
    {
      CountRemove(hs, i, Chain(r.id, k, SlotOf(r, k).revision));
    }
    InWithout(hs, i);
    OtherRecord(hs, Without(hs, i), r);
  }

  lemma EnsureKeepsInv(s: State, fd: int)
    requires Inv(s)
    ensures Inv(Ensure(s, fd).0)
  {
    if Lookup(s.records, ByFd(fd)).None? {
      var r0 := FreshRecord(s.nextId, fd);
      var t := Ensure(s, fd).0;
      forall h | h in s.handlers ensures h.rec != s.nextId && Live(t.records, h) {
        var r :| r in s.records && r.id == h.rec && HandlerOn(r, h);
        assert r in t.records;
      }
      CountZero(s.handlers, Of(s.nextId));
      forall k ensures Count(s.handlers, Chain(s.nextId, k, 0)) == 0 {
        CountZero(s.handlers, Chain(s.nextId, k, 0));
      }
      assert RecordInv(t.handlers, r0);
    }
  }

  /** A registration: a new revision and one new handler that carries it. */
  lemma RegisteredInv(hs: seq<Handler>, r: Record, n: Notifier)
    requires RecordInv(hs, r) && n.fd == r.fd && SlotOf(r, n.kind).notif.None?
    requires Count(hs, Chain(r.id, n.kind, SlotOf(r, n.kind).revision + 1)) == 0
    ensures var revision := SlotOf(r, n.kind).revision + 1;
            RecordInv(hs + [Handler(r.id, n.kind, revision, Waiting, n)],
                      WithSlot(r, n.kind, Slot(Some(n), revision, false)).(pending := r.pending + 1))
  {
    var revision := SlotOf(r, n.kind).revision + 1;
    var h := Handler(r.id, n.kind, revision, Waiting, n);
    CountAppend(hs, h, Of(r.id));
    CountAppend(hs, h, Chain(r.id, n.kind, revision));
    CountAppend(hs, h, Chain(r.id, Read, r.read.revision));
    CountAppend(hs, h, Chain(r.id, Write, r.write.revision));
  }

  lemma StaleOn(r: Record, n: Notifier, h: Handler)
    requires HandlerOn(r, h)
    ensures var r' := WithSlot(r, n.kind, Slot(Some(n), SlotOf(r, n.kind).revision + 1, false));
            HandlerOn(r'.(pending := r.pending + 1), h)
  {
  }

  lemma RegisterKeepsInv(s: State, n: Notifier)
    requires Inv(s) && Enabled(s, Register(n))
    ensures Inv(StepRegister(s, n))
  {
    hide Inv, Start, WithSlot;
    EnsureKeepsInv(s, n.fd);
    var (s1, j) := Ensure(s, n.fd);
    RegisterOnKeepsInv(s1, j, n);
  }

  lemma RegisterOnKeepsInv(s: State, j: nat, n: Notifier)
    requires Inv(s) && j < |s.records| && s.records[j].fd == n.fd && SlotOf(s.records[j], n.kind).notif.None?
    ensures var r := s.records[j];
            var r' := WithSlot(r, n.kind, Slot(Some(n), SlotOf(r, n.kind).revision + 1, false));
            Inv(Start(s.(records := s.records[j := r']), j, n.kind, n))
  {
    hide RecordInv;
    var r := s.records[j];
    assert r in s.records;
    NoNewer(s, j, n.kind);
    RegisteredInv(s.handlers, r, n);
    SlotOdd(s.handlers, r, n.kind);
    var r' := WithSlot(r, n.kind, Slot(Some(n), SlotOf(r, n.kind).revision + 1, false));
    var t := Start(s.(records := s.records[j := r']), j, n.kind, n);
    assert t.records == s.records[j := t.records[j]];
    forall o | o in s.records && o.id != r.id ensures RecordInv(t.handlers, o) {
      AppendedElsewhere(s.handlers, t.handlers[|s.handlers|], o);
    }
    forall h | h in t.handlers
      ensures if h.rec == r.id then HandlerOn(t.records[j], h) else Live(s.records, h)
    {
      if h in s.handlers && h.rec == r.id { StaleOn(r, n, h); }
    }
    Replaced(s, t, j);
  }

  lemma UnregisteredInv(hs: seq<Handler>, r: Record, k: Kind)
    requires RecordInv(hs, r) && SlotOf(r, k).notif.Some?
    requires Count(hs, Chain(r.id, k, SlotOf(r, k).revision + 1)) == 0
    ensures var r' := WithSlot(r, k, Slot(None, SlotOf(r, k).revision + 1, false));
            RecordInv(if NoNotifiers(r') then Cancelled(hs, r.id) else hs, r')
  {
    var r' := WithSlot(r, k, Slot(None, SlotOf(r, k).revision + 1, false));
    SameCounts(hs, Cancelled(hs, r.id), r);
    SameCounts(hs, Cancelled(hs, r.id), r');
  }

  /** After an unregistration every handler of its kind is stale, and an aborted one is not current. */
  lemma UnregisteredOn(r: Record, k: Kind, h: Handler)
    requires HandlerOn(r, h) && SlotOf(r, k).revision % 2 == 1
    ensures
      var r' := WithSlot(r, k, Slot(None, SlotOf(r, k).revision + 1, false));
      HandlerOn(r', h) && (NoNotifiers(r') ==> HandlerOn(r', h.(status := Aborted)))
  {
  }

  /** The handlers after an unregistration on record r. */
  lemma UnregisteredHandlers(hs: seq<Handler>, r: Record, k: Kind)
    requires SlotOf(r, k).revision % 2 == 1
    requires forall h | h in hs && h.rec == r.id :: HandlerOn(r, h)
    ensures
      var r' := WithSlot(r, k, Slot(None, SlotOf(r, k).revision + 1, false));
      forall h | h in (if NoNotifiers(r') then Cancelled(hs, r.id) else hs) ::
        && (if h.rec == r.id then HandlerOn(r', h) else h in hs)
        && (h.status.Failed? ==> h in hs)
  {
    hide HandlerOn, WithSlot, SlotOf;
    var r' := WithSlot(r, k, Slot(None, SlotOf(r, k).revision + 1, false));
    var t := if NoNotifiers(r') then Cancelled(hs, r.id) else hs;
    forall h | h in t
      ensures if h.rec == r.id then HandlerOn(r', h) else h in hs
      ensures h.status.Failed? ==> h in hs
    {
      var i :| 0 <= i < |t| && t[i] == h;
      assert hs[i] in hs;
      if h.rec == r.id { UnregisteredOn(r, k, hs[i]); }
    }
  }

  lemma UnregisterKeepsInv(s: State, n: Notifier)
    requires Inv(s) && Enabled(s, Unregister(n))
    ensures Inv(Step(s, Unregister(n)))
  {
    hide RecordInv, HandlerOn, Lookup, Cancelled;
    var j := Lookup(s.records, ByFd(n.fd)).value;
    var r := s.records[j];
    assert r in s.records;
    NoNewer(s, j, n.kind);
    UnregisteredInv(s.handlers, r, n.kind);
    SlotOdd(s.handlers, r, n.kind);
    UnregisteredHandlers(s.handlers, r, n.kind);
    var t := StepUnregister(s, n, j);
    forall o | o in s.records && o.id != r.id ensures RecordInv(t.handlers, o) {
      UnregisteredElsewhere(s.handlers, r.id, o);
    }
    Replaced(s, t, j);
  }

  lemma UnregisteredElsewhere(hs: seq<Handler>, id: nat, o: Record)
    requires RecordInv(hs, o) && o.id != id
    ensures RecordInv(Cancelled(hs, id), o)
  {
    SameCounts(hs, Cancelled(hs, id), o);
    OtherRecord(hs, Cancelled(hs, id), o);
  }

  lemma SlotOdd(hs: seq<Handler>, r: Record, k: Kind)
    requires RecordInv(hs, r)
    ensures SlotOf(r, k).notif.Some? <==> SlotOf(r, k).revision % 2 == 1
    ensures r.read.notif.Some? <==> r.read.revision % 2 == 1
    ensures r.write.notif.Some? <==> r.write.revision % 2 == 1
  {
  }

  lemma RunHandlers(hs: seq<Handler>, i: nat, r: Record)
    requires i < |hs| && hs[i].rec == r.id && RecordInv(hs, r) && HandlerOn(r, hs[i])
    ensures Count(Without(hs, i), Of(r.id)) == r.pending - 1
    ensures forall k :: Count(Without(hs, i), Chain(r.id, k, SlotOf(r, k).revision))
                     == Count(hs, Chain(r.id, k, SlotOf(r, k).revision))
                        - (if k == hs[i].kind && hs[i].revision == SlotOf(r, k).revision then 1 else 0)
    ensures SlotOf(r, hs[i].kind).revision == hs[i].revision ==> !SlotOf(r, hs[i].kind).broken
  {
    CountRemove(hs, i, Of(r.id));
    forall k ensures Count(Without(hs, i), Chain(r.id, k, SlotOf(r, k).revision))
                  == Count(hs, Chain(r.id, k, SlotOf(r, k).revision))
                     - (if k == hs[i].kind && hs[i].revision == SlotOf(r, k).revision then 1 else 0)
    {
      CountRemove(hs, i, Chain(r.id, k, SlotOf(r, k).revision));
    }
  }

  /** A handler that ends: it was stale, or its chain is broken. */
  lemma EndedInv(hs: seq<Handler>, i: nat, r: Record)
    requires i < |hs| && hs[i].rec == r.id && RecordInv(hs, r) && HandlerOn(r, hs[i])
    ensures
      var slot := SlotOf(r, hs[i].kind);
      var r1 := r.(pending := r.pending - 1);
      RecordInv(Without(hs, i),
        if slot.revision == hs[i].revision then WithSlot(r1, hs[i].kind, slot.(broken := true)) else r1)
  {
    RunHandlers(hs, i, r);
    InWithout(hs, i);
  }

  /** A handler that goes on: another with the same revision takes its place. */
  lemma RestartedInv(hs: seq<Handler>, i: nat, r: Record)
    requires i < |hs| && hs[i].rec == r.id && RecordInv(hs, r) && HandlerOn(r, hs[i])
    requires SlotOf(r, hs[i].kind).revision == hs[i].revision
    ensures RecordInv(Without(hs, i) + [Handler(r.id, hs[i].kind, hs[i].revision, Waiting, hs[i].owner)], r)
  {
    var h := Handler(r.id, hs[i].kind, hs[i].revision, Waiting, hs[i].owner);
    RunHandlers(hs, i, r);
    InWithout(hs, i);
    CountAppend(Without(hs, i), h, Of(r.id));
    CountAppend(Without(hs, i), h, Chain(r.id, Read, r.read.revision));
    CountAppend(Without(hs, i), h, Chain(r.id, Write, r.write.revision));
  }

  /** Neither the pending count nor the history of errors matters to a handler. */
  lemma StillOn(r: Record, h: Handler, k: Kind, pending: int, broken: bool)
    requires HandlerOn(r, h)
    ensures HandlerOn(r.(pending := pending), h)
    ensures HandlerOn(WithSlot(r.(pending := pending), k, SlotOf(r, k).(broken := broken)), h)
  {
  }

  lemma EndKeepsInv(s: State, i: nat)
    requires Inv(s) && Enabled(s, Run(i))
    requires var j := Lookup(s.records, ById(s.handlers[i].rec));
             j.Some? && !(SlotOf(s.records[j.value], s.handlers[i].kind).revision == s.handlers[i].revision
                          && s.handlers[i].status.Fired?)
    ensures Inv(Step(s, Run(i)))
  {
    hide RecordInv, HandlerOn, Lookup;
    var hs, h := s.handlers, s.handlers[i];
    var j := Lookup(s.records, ById(h.rec)).value;
    var r := s.records[j];
    assert h in hs && r in s.records;
    LiveRecord(s, i);
    EndedInv(hs, i, r);
    NoNewer(s, j, h.kind);
    InWithout(hs, i);
    var t := StepRun(s, i, j);
    forall o | o in s.records && o.id != r.id ensures RecordInv(t.handlers, o) {
      RemovedElsewhere(hs, i, o);
    }
    forall g | g in t.handlers
      ensures if g.rec == r.id then HandlerOn(t.records[j], g) else Live(s.records, g)
    {
      if g.rec == r.id { StillOn(r, g, h.kind, r.pending - 1, true); }
    }
    Replaced(s, t, j);
  }

  lemma CurrentNotifier(r: Record, h: Handler)
    requires HandlerOn(r, h) && SlotOf(r, h.kind).revision == h.revision
    ensures SlotOf(r, h.kind).notif == Some(h.owner)
    ensures HandlerOn(r, h.(status := Waiting))
  {
  }

  lemma RestartKeepsInv(s: State, i: nat)
    requires Inv(s) && Enabled(s, Run(i))
    requires var j := Lookup(s.records, ById(s.handlers[i].rec));
             j.Some? && SlotOf(s.records[j.value], s.handlers[i].kind).revision == s.handlers[i].revision
             && s.handlers[i].status.Fired?
    ensures Inv(Step(s, Run(i)))
  {
    hide RecordInv, HandlerOn, Lookup;
    var hs, h := s.handlers, s.handlers[i];
    var j := Lookup(s.records, ById(h.rec)).value;
    var r := s.records[j];
    assert h in hs && r in s.records;
    LiveRecord(s, i);
    CurrentNotifier(r, h);
    RestartedInv(hs, i, r);
    NoNewer(s, j, h.kind);
    InWithout(hs, i);
    var t := StepRun(s, i, j);
    assert t.records[j] == r;
    forall o | o in s.records && o.id != r.id ensures RecordInv(t.handlers, o) {
      RemovedElsewhere(hs, i, o);
      AppendedElsewhere(Without(hs, i), t.handlers[|t.handlers| - 1], o);
    }
    Replaced(s, t, j);
  }

  // ---------- Cleanup ----------

  lemma {:induction false} KeptMembers(rs: seq<Record>)
    ensures forall r :: r in Kept(rs) <==> r in rs && r.pending != 0
  {
    if rs != [] {
      KeptMembers(rs[1..]);
      assert forall r :: r in rs <==> r == rs[0] || r in rs[1..];
    }
  }

  lemma {:induction false} KeptDistinct(rs: seq<Record>)
    requires Distinct(rs)
    ensures Distinct(Kept(rs))
  {
    if rs != [] {
      assert Distinct(rs[1..]);
      KeptDistinct(rs[1..]);
      KeptMembers(rs[1..]);
    }
  }

  /** Cleanup's assertion fails exactly where an I/O error has ended the only chain of a registered notifier. */
  lemma AssertionIffUnbroken(s: State)
    requires Inv(s)
    ensures CleanupAsserts(s.records) <==> forall r | r in s.records && r.pending == 0 :: Unbroken(r)
  {
    forall r | r in s.records && r.pending == 0 ensures NoNotifiers(r) <==> Unbroken(r) {
      assert RecordInv(s.handlers, r);
      ChainWithinRecord(s.handlers, r.id, Read, r.read.revision);
      ChainWithinRecord(s.handlers, r.id, Write, r.write.revision);
    }
  }

  lemma CleanupKeepsInv(s: State)
    requires Inv(s)
    ensures Inv(Step(s, Cleanup))
  {
    hide RecordInv, HandlerOn;
    KeptMembers(s.records);
    KeptDistinct(s.records);
    AssertionIffUnbroken(s);
    var t := Step(s, Cleanup);
    forall h | h in t.handlers ensures Live(t.records, h) {
      var r :| r in s.records && r.id == h.rec && HandlerOn(r, h);
      PointedTo(s.handlers, h, r);
      assert r in t.records;
    }
  }

  lemma PointedTo(hs: seq<Handler>, h: Handler, r: Record)
    requires h in hs && h.rec == r.id && RecordInv(hs, r)
    ensures r.pending > 0
  {
    var i :| 0 <= i < |hs| && hs[i] == h;
    CountPositive(hs, i, Of(r.id));
  }

  lemma StepKeepsInv(s: State, e: Event)
    requires Inv(s) && Enabled(s, e)
    ensures Inv(Step(s, e))
  {
    hide Inv;
    match e
    case Register(n) => RegisterKeepsInv(s, n);
    case Unregister(n) => UnregisterKeepsInv(s, n);
    case Fire(i) => RestatusKeepsInv(s, i, Fired, s.errors);
    case IoError(i) => RestatusKeepsInv(s, i, Failed, s.errors + 1);
    case Run(i) =>
      LiveRecord(s, i);
      var j := Lookup(s.records, ById(s.handlers[i].rec)).value;
      if SlotOf(s.records[j], s.handlers[i].kind).revision == s.handlers[i].revision && s.handlers[i].status.Fired? {
        RestartKeepsInv(s, i);
      } else {
        EndKeepsInv(s, i);
      }
    case Cleanup => CleanupKeepsInv(s);
  }
}
