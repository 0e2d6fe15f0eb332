/**
  The dispatcher's table of socket notifiers, changed in place.  Every method is one step of
  the notifier machine, whose state is kept in the ghost field `model`.

  Outstanding handlers hold references to records; Valid says that every such record is still
  in the table, so no handler is ever run on a record that has been deleted.
 */
module DispatcherObjects {
  import opened Bytes
  import opened NotifierMachine
  import opened NotifierSafety

  /** One object per descriptor; the third slot, for exceptions, is never used. */
  class SockNotifier {
    ghost const id: nat
    const fd: int
    var notif: seq<Option<Notifier>>
    var revision: seq<nat>
    var pendingOperations: int

    constructor (ghost id: nat, fd: int)
      ensures this.id == id && this.fd == fd
      ensures notif == [None, None, None] && revision == [0, 0, 0] && pendingOperations == 0
    {
      this.id, this.fd := id, fd;
      notif, revision, pendingOperations := [None, None, None], [0, 0, 0], 0;
    }

    ghost predicate Shows(r: Record)
      reads this
    {
      && id == r.id && fd == r.fd && pendingOperations == r.pending
      && |notif| == |revision| == 3
      && notif[0] == r.read.notif && revision[0] == r.read.revision
      && notif[1] == r.write.notif && revision[1] == r.write.revision
      && notif[2] == None
    }
  }

  /** A bound completion handler in the event loop. */
  datatype Bound = Bound(sn: SockNotifier, kind: Kind, revision: nat, status: Status)

  function TypeOf(k: Kind): nat {
    if k.Read? then 0 else 1
  }

  ghost predicate BoundShows(b: Bound, h: Handler) {
    b.sn.id == h.rec && b.kind == h.kind && b.revision == h.revision && b.status == h.status
  }

  lemma BoundId(b: Bound, h: Handler)
    requires BoundShows(b, h)
    ensures b.sn.id == h.rec
  {
  }

  /** Handler i, whose record is j, is out of the event loop and done with its record. */
  function Taken(s: State, i: nat, j: nat): State
    requires i < |s.handlers| && j < |s.records|
  {
    s.(handlers := Without(s.handlers, i),
       records := s.records[j := s.records[j].(pending := s.records[j].pending - 1)])
  }

  /** What running a handler comes to, once it is taken. */
  lemma RunShape(m: State, i: nat)
    requires Enabled(m, Run(i)) && Lookup(m.records, ById(m.handlers[i].rec)).Some?
    ensures
      var h, j := m.handlers[i], Lookup(m.records, ById(m.handlers[i].rec)).value;
      var s, t, slot := Taken(m, i, j), Step(m, Run(i)), SlotOf(m.records[j], h.kind);
      && j < |s.records| && slot == SlotOf(s.records[j], h.kind)
      && if slot.revision == h.revision && h.status.Fired? then
           var u := Start(s, j, h.kind, h.owner);
           && t.records == u.records && t.handlers == u.handlers
           && (slot.notif.Some? ==> t.delivered == m.delivered + [Delivery(slot.notif.value, h.owner)])
         else
           && t.handlers == s.handlers && t.delivered == m.delivered
           && t.records == if slot.revision != h.revision then s.records
                           else s.records[j := WithSlot(s.records[j], h.kind, slot.(broken := true))]
  {
  }

  /** Slot t has been set and its revision stepped; the other slots are as they were. */
  twostate predicate SlotSet(sn: SockNotifier, t: nat, notif: Option<Notifier>)
    reads sn`notif, sn`revision
  {
    && t < 3 && |old(sn.notif)| == |old(sn.revision)| == 3
    && sn.notif == old(sn.notif)[t := notif]
    && sn.revision == old(sn.revision)[t := old(sn.revision)[t] + 1]
  }

  /** What cancelling the operations of sn does to a bound handler. */
  function CancelledOn(b: Bound, sn: SockNotifier): Bound {
    if b.sn == sn && b.status.Waiting? then b.(status := Aborted) else b
  }

  class Dispatcher {
    var socketNotifiers: seq<SockNotifier>
    var handlers: seq<Bound>
    ghost var model: State

    ghost predicate TableShows(rs: seq<Record>)
      reads `socketNotifiers, socketNotifiers
    {
      && |socketNotifiers| == |rs|
      && (forall i | 0 <= i < |rs| :: socketNotifiers[i].Shows(rs[i]))
      && (forall i, j | 0 <= i < j < |rs| :: socketNotifiers[i].id != socketNotifiers[j].id)
    }

    ghost predicate HandlersShow(hs: seq<Handler>)
      reads `handlers, `socketNotifiers
    {
      && |handlers| == |hs|
      && forall i | 0 <= i < |hs| :: BoundShows(handlers[i], hs[i]) && handlers[i].sn in socketNotifiers
    }

    /** The objects are in state s. */
    ghost predicate Shows(s: State)
      reads `socketNotifiers, `handlers, socketNotifiers
    {
      TableShows(s.records) && HandlersShow(s.handlers)
    }

    ghost predicate Valid()
      reads this, socketNotifiers
    {
      Inv(model) && Shows(model)
    }

    constructor ()
      ensures Valid() && model == INITIAL
    {
      socketNotifiers, handlers, model := [], [], INITIAL;
    }

    /** The search loop; -1 if there is none. */
    method Find(ghost s: State, fd: int) returns (at: int)
      requires Shows(s)
      ensures at == (match Lookup(s.records, ByFd(fd)) case None => -1 case Some(j) => j)
    {
      var i := 0;
      while i < |socketNotifiers|
        invariant 0 <= i <= |socketNotifiers|
        invariant forall k | 0 <= k < i :: s.records[k].fd != fd
      {
        assert socketNotifiers[i].Shows(s.records[i]);
        if socketNotifiers[i].fd == fd {
          FirstFd(s.records, fd, i);
          return i;
        }
        i := i + 1;
      }
      assert Lookup(s.records, ByFd(fd)).None?;
      return -1;
    }

    /** socketNotifierForFd(fd, true) */
    method SocketNotifierForFd(ghost s: State, fd: int) returns (j: nat)
      requires Shows(s) && forall r | r in s.records :: r.id < s.nextId
      modifies `socketNotifiers
      ensures Shows(Ensure(s, fd).0) && j == Ensure(s, fd).1
      ensures j < |socketNotifiers| && socketNotifiers[j].fd == fd
      ensures if j < |old(socketNotifiers)| then socketNotifiers == old(socketNotifiers)
              else
                && socketNotifiers == old(socketNotifiers) + [socketNotifiers[j]] && fresh(socketNotifiers[j])
                && socketNotifiers[j].notif == [None, None, None] && socketNotifiers[j].revision == [0, 0, 0]
                && socketNotifiers[j].pendingOperations == 0
    {
      var at := Find(s, fd);
      if at >= 0 {
        assert socketNotifiers[at].Shows(s.records[at]);
        return at;
      }
      var sn := new SockNotifier(s.nextId, fd);
      j := |socketNotifiers|;
      forall i | 0 <= i < j ensures socketNotifiers[i].id < s.nextId {
        assert socketNotifiers[i].Shows(s.records[i]) && s.records[i] in s.records;
      }
      socketNotifiers := socketNotifiers + [sn];
    }

    lemma SizeOfTable(s: State)
      requires Shows(s)
      ensures |socketNotifiers| == |s.records| && |handlers| == |s.handlers|
    {
    }

    /** Registers or, with None, unregisters on the record at position j, and steps its revision. */
    method SetSlot(ghost s: State, ghost j: nat, sn: SockNotifier, kind: Kind, notif: Option<Notifier>)
      requires Shows(s) && j < |socketNotifiers| && j < |s.records| && socketNotifiers[j] == sn
      modifies sn`notif, sn`revision
      ensures SlotSet(sn, TypeOf(kind), notif)
      ensures Shows(s.(records := s.records[j := WithSlot(s.records[j], kind,
                Slot(notif, SlotOf(s.records[j], kind).revision + 1, false))]))
    {
      var t := TypeOf(kind);
      ghost var r := s.records[j];
      assert sn.Shows(r);
      sn.notif := sn.notif[t := notif];
      sn.revision := sn.revision[t := sn.revision[t] + 1];
      assert sn.Shows(WithSlot(r, kind, Slot(notif, SlotOf(r, kind).revision + 1, false)));
    }

    /** fdReadStart and fdWriteStart, on the record at position j. */
    method Start(ghost s: State, ghost j: nat, sn: SockNotifier, kind: Kind, ghost owner: Notifier)
      requires Shows(s) && j < |socketNotifiers| && j < |s.records| && socketNotifiers[j] == sn
      requires SlotOf(s.records[j], kind).notif.Some?
      modifies `handlers, sn`pendingOperations
      ensures Shows(NotifierMachine.Start(s, j, kind, owner))
      ensures sn.pendingOperations == old(sn.pendingOperations) + 1 && |sn.revision| == 3
      ensures handlers == old(handlers) + [Bound(sn, kind, sn.revision[TypeOf(kind)], Waiting)]
    {
      ghost var r := s.records[j];
      assert sn.Shows(r);
      sn.pendingOperations := sn.pendingOperations + 1;
      assert sn.notif[TypeOf(kind)].Some?;
      assert sn.Shows(r.(pending := r.pending + 1));
      handlers := handlers + [Bound(sn, kind, sn.revision[TypeOf(kind)], Waiting)];
    }

    /** No other object is for the same descriptor. */
    lemma OneForFd(s: State, j: nat)
      requires Shows(s) && Distinct(s.records) && j < |s.records|
      ensures j < |socketNotifiers| && socketNotifiers[j].fd == s.records[j].fd
      ensures forall sn | sn in socketNotifiers && sn.fd == s.records[j].fd :: sn == socketNotifiers[j]
    {
      assert socketNotifiers[j].Shows(s.records[j]);
      forall sn | sn in socketNotifiers && sn.fd == s.records[j].fd ensures sn == socketNotifiers[j] {
        var k :| 0 <= k < |socketNotifiers| && socketNotifiers[k] == sn;
        assert socketNotifiers[k].Shows(s.records[k]);
      }
    }

    /** The slot is filled and the first wait of its chain begun. */
    method FillSlot(ghost s: State, ghost j: nat, sn: SockNotifier, n: Notifier)
      requires Shows(s) && j < |socketNotifiers| && j < |s.records| && socketNotifiers[j] == sn
      modifies `handlers, sn
      ensures Shows(Filled(s, j, n))
      ensures SlotSet(sn, TypeOf(n.kind), Some(n)) && sn.pendingOperations == old(sn.pendingOperations) + 1
      ensures handlers == old(handlers) + [Bound(sn, n.kind, sn.revision[TypeOf(n.kind)], Waiting)]
    {
      hide TableShows, HandlersShow;
      SetSlot(s, j, sn, n.kind, Some(n));
      ghost var r := s.records[j];
      ghost var s1 := s.(
        records := s.records[j := WithSlot(r, n.kind, Slot(Some(n), SlotOf(r, n.kind).revision + 1, false))]);
      Start(s1, j, sn, n.kind, n);
    }

    method RegisterSocketNotifier(n: Notifier)
      requires Valid() && Enabled(model, Register(n))
      modifies this, socketNotifiers
      ensures Valid() && model == Step(old(model), Register(n))
      ensures old(socketNotifiers) <= socketNotifiers && |socketNotifiers| <= |old(socketNotifiers)| + 1
      ensures exists sn :: sn in socketNotifiers && sn.fd == n.fd && |sn.revision| == 3
                && handlers == old(handlers) + [Bound(sn, n.kind, sn.revision[TypeOf(n.kind)], Waiting)]
      ensures forall sn | sn in old(socketNotifiers) ::
                if sn.fd == n.fd then
                  SlotSet(sn, TypeOf(n.kind), Some(n)) && sn.pendingOperations == old(sn.pendingOperations) + 1
                else
                  && sn.notif == old(sn.notif) && sn.revision == old(sn.revision)
                  && sn.pendingOperations == old(sn.pendingOperations)
      ensures forall sn | sn in socketNotifiers && sn !in old(socketNotifiers) ::
                && fresh(sn) && sn.fd == n.fd && sn.pendingOperations == 1
                && sn.notif == [None, None, None][TypeOf(n.kind) := Some(n)]
                && sn.revision == [0, 0, 0][TypeOf(n.kind) := 1]
    {
      hide Inv, TableShows, HandlersShow, Filled, Ensure;
      RegisterKeepsInv(model, n);
      RegisterOrdered(model);
      RegisterShape(model, n);
      var j := SocketNotifierForFd(model, n.fd);
      ghost var s := Ensure(model, n.fd).0;
      OneForFd(s, j);
      FillSlot(s, j, socketNotifiers[j], n);
      model := Step(model, Register(n));
    }

    /** sd->cancel() */
    method Cancel(ghost s: State, ghost j: nat, sn: SockNotifier)
      requires Shows(s) && j < |socketNotifiers| && j < |s.records| && socketNotifiers[j] == sn
      modifies `handlers
      ensures Shows(s.(handlers := Cancelled(s.handlers, s.records[j].id)))
      ensures |handlers| == |old(handlers)|
      ensures forall k | 0 <= k < |handlers| :: handlers[k] == CancelledOn(old(handlers)[k], sn)
    {
      hide TableShows, BoundShows;
      var i := 0;
      while i < |handlers|
        invariant 0 <= i <= |handlers| == |old(handlers)|
        invariant forall k | 0 <= k < i :: handlers[k] == CancelledOn(old(handlers)[k], sn)
        invariant forall k | i <= k < |handlers| :: handlers[k] == old(handlers)[k]
      {
        if handlers[i].sn == sn && handlers[i].status.Waiting? {
          handlers := handlers[i := handlers[i].(status := Aborted)];
        }
        i := i + 1;
      }
      forall k | 0 <= k < |handlers|
        ensures BoundShows(handlers[k], Cancelled(s.handlers, s.records[j].id)[k])
      {
        CancelShows(s, j, old(handlers)[k], s.handlers[k]);
      }
    }

    lemma CancelShows(s: State, j: nat, b: Bound, h: Handler)
      requires TableShows(s.records) && j < |s.records| && b.sn in socketNotifiers && BoundShows(b, h)
      ensures
        BoundShows(CancelledOn(b, socketNotifiers[j]),
                   if h.rec == s.records[j].id && h.status.Waiting? then h.(status := Aborted) else h)
    {
      assert socketNotifiers[j].Shows(s.records[j]);
    }

    /** The slot is emptied; with the last one, all operations of the descriptor are cancelled. */
    method ClearSlot(ghost s: State, ghost j: nat, sn: SockNotifier, n: Notifier)
      requires Shows(s) && j < |socketNotifiers| && j < |s.records| && socketNotifiers[j] == sn
      modifies `handlers, sn`notif, sn`revision
      ensures Shows(StepUnregister(s, n, j))
      ensures SlotSet(sn, TypeOf(n.kind), None) && |handlers| == |old(handlers)|
      ensures forall k | 0 <= k < |handlers| ::
                var b := old(handlers)[k];
                handlers[k] == if b.sn == sn && sn.notif == [None, None, None] && b.status.Waiting?
                               then b.(status := Aborted) else b
    {
      hide TableShows, HandlersShow;
      ghost var r := s.records[j];
      ghost var r' := WithSlot(r, n.kind, Slot(None, SlotOf(r, n.kind).revision + 1, false));
      ghost var s1 := s.(records := s.records[j := r']);
      SizeOfTable(s);
      SetSlot(s, j, sn, n.kind, None);
      Shown(s1, j);
      if sn.notif[0] == None && sn.notif[1] == None && sn.notif[2] == None {
        Cancel(s1, j, sn);
      }
    }

    method UnregisterSocketNotifier(n: Notifier)
      requires Valid() && Enabled(model, Unregister(n))
      modifies this, socketNotifiers
      ensures Valid() && model == Step(old(model), Unregister(n))
      ensures socketNotifiers == old(socketNotifiers) && exists sn :: sn in socketNotifiers && sn.fd == n.fd
      ensures forall sn | sn in socketNotifiers ::
                && sn.pendingOperations == old(sn.pendingOperations)
                && (if sn.fd == n.fd then SlotSet(sn, TypeOf(n.kind), None)
                    else sn.notif == old(sn.notif) && sn.revision == old(sn.revision))
      ensures |handlers| == |old(handlers)|
      ensures forall k | 0 <= k < |handlers| ::
                var b := old(handlers)[k];
                handlers[k] == if b.sn.fd == n.fd && b.sn.notif == [None, None, None] && b.status.Waiting?
                               then b.(status := Aborted) else b
    {
      hide Inv, TableShows, HandlersShow, StepUnregister;
      UnregisterKeepsInv(model, n);
      RecordsDistinct(model);
      var j := Find(model, n.fd);
      OneForFd(model, j);
      BoundsShown(model);
      var sn := socketNotifiers[j];
      ClearSlot(model, j, sn, n);
      model := Step(model, Unregister(n));
    }

    lemma BoundsShown(s: State)
      requires Shows(s)
      ensures forall k | 0 <= k < |handlers| :: handlers[k].sn in socketNotifiers
    {
    }

    lemma Shown(s: State, j: nat)
      requires Shows(s) && j < |s.records|
      ensures j < |socketNotifiers| && socketNotifiers[j].Shows(s.records[j])
    {
    }

    /** A descriptor becomes ready, or an operation completes with an error of its own. */
    method Complete(i: nat, failed: bool)
      requires Valid() && i < |handlers| && handlers[i].status.Waiting?
      modifies this
      ensures Valid() && socketNotifiers == old(socketNotifiers)
      ensures handlers == old(handlers)[i := old(handlers)[i].(status := if failed then Failed else Fired)]
      ensures Enabled(old(model), if failed then IoError(i) else Fire(i))
      ensures model == Step(old(model), if failed then IoError(i) else Fire(i))
    {
      hide Inv;
      StepKeepsInv(model, if failed then IoError(i) else Fire(i));
      model := Step(model, if failed then IoError(i) else Fire(i));
      handlers := handlers[i := handlers[i].(status := if failed then Failed else Fired)];
    }

    lemma TakenShows(s: State, i: nat)
      requires HandlersShow(s.handlers) && i < |s.handlers|
      ensures
        var bs, hs := handlers[..i] + handlers[i + 1..], Without(s.handlers, i);
        |bs| == |hs| && forall k | 0 <= k < |hs| :: BoundShows(bs[k], hs[k]) && bs[k].sn in socketNotifiers
    {
      hide BoundShows;
    }

    /** The event loop forgets a handler when it runs it; the handler says it is done with the record. */
    method Take(ghost s: State, i: nat, ghost j: nat, b: Bound)
      requires Shows(s) && i < |handlers| && i < |s.handlers| && j < |s.records|
      requires s.handlers[i].rec == s.records[j].id && b == handlers[i]
      modifies `handlers, b.sn`pendingOperations
      ensures j < |socketNotifiers| && b.sn == socketNotifiers[j]
      ensures BoundShows(b, s.handlers[i])
      ensures handlers == old(handlers)[..i] + old(handlers)[i + 1..]
      ensures b.sn.pendingOperations == old(b.sn.pendingOperations) - 1
      ensures Shows(Taken(s, i, j))
    {
      hide BoundShows;
      TakenShows(s, i);
      assert BoundShows(b, s.handlers[i]);
      assert b.sn.id == s.records[j].id by { BoundId(b, s.handlers[i]); }
      ghost var k :| 0 <= k < |socketNotifiers| && socketNotifiers[k] == b.sn;
      assert socketNotifiers[k].Shows(s.records[k]) && socketNotifiers[j].Shows(s.records[j]);
      handlers := handlers[..i] + handlers[i + 1..];
      b.sn.pendingOperations := b.sn.pendingOperations - 1;
      assert b.sn.Shows(s.records[j].(pending := s.records[j].pending - 1));
    }

    /**
      fdReadReady and fdWriteReady.  The reference held by the handler is to a live record, and
      the notifier returned for delivery is there and is the one that began the chain.  The
      handler waits again, and the notifier is delivered to, exactly if the operation has not
      failed and the revision is the handler's.
     */
    method Ready(i: nat) returns (event: Option<Notifier>)
      requires i < |handlers| && Valid() && Enabled(model, Run(i))
      modifies this, socketNotifiers
      ensures Valid() && model == Step(old(model), Run(i))
      ensures socketNotifiers == old(socketNotifiers)
      ensures model.delivered
           == old(model).delivered + (if event.Some? then [Delivery(event.value, event.value)] else [])
      ensures
        var b := old(handlers)[i];
        var t := TypeOf(b.kind);
        && b.sn in socketNotifiers && |b.sn.revision| == |b.sn.notif| == 3
        && event == (if b.sn.revision[t] == b.revision && b.status.Fired? then b.sn.notif[t] else None)
        && (b.sn.revision[t] == b.revision && b.status.Fired? ==> event.Some?)
        && handlers == old(handlers)[..i] + old(handlers)[i + 1..]
                       + (if event.Some? then [Bound(b.sn, b.kind, b.revision, Waiting)] else [])
        && b.sn.pendingOperations == old(b.sn.pendingOperations) - (if event.Some? then 0 else 1)
      ensures forall sn | sn in socketNotifiers ::
                && sn.notif == old(sn.notif) && sn.revision == old(sn.revision)
                && (sn != old(handlers)[i].sn ==> sn.pendingOperations == old(sn.pendingOperations))
    {
      hide Inv, TableShows, HandlersShow, Step, StepRun, NotifierMachine.Start, Lookup, WithSlot, Taken;
      ReadyFacts(model, i);
      SizeOfTable(model);
      ghost var j := Lookup(model.records, ById(model.handlers[i].rec)).value;
      ghost var r, h := model.records[j], model.handlers[i];
      ghost var s := Taken(model, i, j);
      RunShape(model, i);
      BoundsShown(model);
      var b := handlers[i];
      Take(model, i, j, b);
      Shown(s, j);
      var t := TypeOf(b.kind);
      var changed := b.sn.revision[t] != b.revision;
      if !changed && b.status.Fired? {
        Start(s, j, b.sn, b.kind, h.owner);
        event := b.sn.notif[t];
      } else {
        event := None;
        BrokenUnseen(s, j, h.kind);
      }
      model := Step(model, Run(i));
    }

    /** The history of I/O errors is not in the objects. */
    lemma BrokenUnseen(s: State, j: nat, k: Kind)
      requires Shows(s) && j < |s.records|
      ensures var r := s.records[j];
              Shows(s.(records := s.records[j := WithSlot(r, k, SlotOf(r, k).(broken := true))]))
    {
      assert socketNotifiers[j].Shows(s.records[j]);
      assert socketNotifiers[j].Shows(WithSlot(s.records[j], k, SlotOf(s.records[j], k).(broken := true)));
    }

    /** The loop of cleanupSocketNotifiers(false), which removes without advancing; asserted is its assertion. */
    method RemoveIdle(ghost rs: seq<Record>) returns (asserted: bool)
      requires TableShows(rs)
      modifies `socketNotifiers
      ensures TableShows(Kept(rs)) && asserted == CleanupAsserts(rs)
      ensures socketNotifiers == Busy(old(socketNotifiers))
      ensures
        asserted <==>
          forall sn | sn in old(socketNotifiers) && sn.pendingOperations == 0 :: sn.notif == [None, None, None]
      ensures forall sn | sn in old(socketNotifiers) && sn.pendingOperations != 0 :: sn in socketNotifiers
    {
      hide Kept, CleanupAsserts, NoNotifiers, Examined, Busy, SockNotifier.Shows;
      ghost var sns := socketNotifiers;
      ghost var n := 0;  // records examined
      var i := 0;
      asserted := true;
      NothingExamined(sns, rs);
      while i < |socketNotifiers|
        invariant n <= |rs| && asserted == CleanupAsserts(rs[..n])
        invariant Examined(socketNotifiers, sns, rs, n, i)
        decreases |socketNotifiers| - i
      {
        var sn := socketNotifiers[i];
        NextExamined(socketNotifiers, sns, rs, n, i);
        AssertsSnoc(rs, n);
        if sn.pendingOperations == 0 {
          NoneShown(sn, rs[n]);
          asserted := asserted && sn.notif[0] == None && sn.notif[1] == None && sn.notif[2] == None;
          RemovalExamined(socketNotifiers, sns, rs, n, i);
          socketNotifiers := socketNotifiers[..i] + socketNotifiers[i + 1..];
        } else {
          i := i + 1;
        }
        n := n + 1;
      }
      AllExamined(socketNotifiers, sns, rs, n, i);
      AssertsShown(sns, rs);
    }

    /**
      cleanupSocketNotifiers(false).  No outstanding handler loses its record, and as long as
      errors come only from cancellation its assertion holds.
     */
    method CleanupSocketNotifiers() returns (asserted: bool)
      requires Valid()
      modifies this
      ensures Valid() && model == Step(old(model), Cleanup)
      ensures asserted == CleanupAsserts(old(model).records)
      ensures old(model).errors == 0 ==> asserted
      ensures socketNotifiers == Busy(old(socketNotifiers)) && handlers == old(handlers)
    {
      hide Inv, Kept, Busy, CleanupAsserts, TableShows, StepRegister, StepUnregister, StepRun, Lookup;
      ghost var m := model;
      if m.errors == 0 { ErrorFreeAsserts(m); }
      forall i | 0 <= i < |handlers| ensures handlers[i].sn.pendingOperations != 0 {
        Pending(m, i);
      }
      CleanupKeepsInv(m);
      asserted := RemoveIdle(m.records);
      model := Step(m, Cleanup);
    }

    lemma Pending(s: State, i: nat)
      requires Inv(s) && Shows(s) && i < |handlers|
      ensures handlers[i].sn.pendingOperations > 0
    {
      LiveRecord(s, i);
      var j := Lookup(s.records, ById(s.handlers[i].rec)).value;
      assert s.handlers[i] in s.handlers && s.records[j] in s.records;
      PointedTo(s.handlers, s.handlers[i], s.records[j]);
      var k :| 0 <= k < |socketNotifiers| && socketNotifiers[k] == handlers[i].sn;
      assert socketNotifiers[k].Shows(s.records[k]) && socketNotifiers[j].Shows(s.records[j]);
    }
  }

  /** The objects with pending operations, in order. */
  ghost function Busy(sns: seq<SockNotifier>): seq<SockNotifier>
    reads sns
  {
    if sns == [] then []
    else
      var k := |sns| - 1;
      Busy(sns[..k]) + (if sns[k].pendingOperations == 0 then [] else [sns[k]])
  }

  lemma AssertsShown(sns: seq<SockNotifier>, rs: seq<Record>)
    requires |sns| == |rs| && forall k | 0 <= k < |rs| :: sns[k].Shows(rs[k])
    ensures CleanupAsserts(rs) <==> forall sn | sn in sns && sn.pendingOperations == 0 :: sn.notif == [None, None, None]
  {
    forall k | 0 <= k < |rs| ensures NoNotifiers(rs[k]) <==> sns[k].notif == [None, None, None] {
      NoneShown(sns[k], rs[k]);
    }
    if CleanupAsserts(rs) {
    } else {
      var r :| r in rs && r.pending == 0 && !NoNotifiers(r);
      var k :| 0 <= k < |rs| && rs[k] == r;
      assert sns[k] in sns && sns[k].pendingOperations == 0;
    }
  }

  /** The cleanup loop has examined n of the objects, which show the records rs, and kept i. */
  ghost predicate Examined(now: seq<SockNotifier>, was: seq<SockNotifier>, rs: seq<Record>, n: nat, i: nat)
    reads now, was
  {
    && n <= |rs| == |was|
    && (forall k | 0 <= k < |rs| :: was[k].Shows(rs[k]))
    && i == |Kept(rs[..n])| <= |now|
    && now[..i] == Busy(was[..n]) && now[i..] == was[n..]
    && (forall k | 0 <= k < i :: now[k].Shows(Kept(rs[..n])[k]))
    && (forall k, l | 0 <= k < l < |now| :: now[k].id != now[l].id)
    && (forall sn | sn in was && sn.pendingOperations != 0 :: sn in now)
  }

  lemma NothingExamined(was: seq<SockNotifier>, rs: seq<Record>)
    requires |was| == |rs| && forall k | 0 <= k < |rs| :: was[k].Shows(rs[k])
    requires forall k, l | 0 <= k < l < |was| :: was[k].id != was[l].id
    ensures Examined(was, was, rs, 0, 0) && CleanupAsserts(rs[..0])
  {
  }

  /** The next object shows the next record, and is passed over if operations are pending. */
  lemma NextExamined(now: seq<SockNotifier>, was: seq<SockNotifier>, rs: seq<Record>, n: nat, i: nat)
    requires Examined(now, was, rs, n, i) && i < |now|
    ensures n < |rs| && now[i].Shows(rs[n]) && now[i].pendingOperations == rs[n].pending
    ensures now[i].pendingOperations != 0 ==> Examined(now, was, rs, n + 1, i + 1)
  {
    hide Kept, Busy;
    assert now[i] == now[i..][0] == was[n..][0] == was[n];
    KeptSnoc(rs, n);
    BusySnoc(was, n);
    assert now[..i + 1] == now[..i] + [now[i]];
    assert now[i + 1..] == was[n + 1..] by { assert now[i..][1..] == was[n..][1..]; }
  }

  lemma BusySnoc(sns: seq<SockNotifier>, n: nat)
    requires n < |sns|
    ensures Busy(sns[..n + 1]) == Busy(sns[..n]) + (if sns[n].pendingOperations == 0 then [] else [sns[n]])
  {
    assert sns[..n + 1][..n] == sns[..n];
  }

  lemma RemovalExamined(now: seq<SockNotifier>, was: seq<SockNotifier>, rs: seq<Record>, n: nat, i: nat)
    requires Examined(now, was, rs, n, i) && i < |now| && n < |rs| && rs[n].pending == 0
    requires now[i].pendingOperations == 0
    ensures Examined(now[..i] + now[i + 1..], was, rs, n + 1, i)
  {
    hide Kept, Busy, SockNotifier.Shows;
    KeptSnoc(rs, n);
    BusySnoc(was, n);
    assert now[i] == now[i..][0] == was[n..][0] == was[n];
    Removal(now, i);
    assert (now[..i] + now[i + 1..])[..i] == now[..i];
    assert (now[..i] + now[i + 1..])[i..] == was[n + 1..] by { assert now[i..][1..] == was[n..][1..]; }
  }

  lemma AllExamined(now: seq<SockNotifier>, was: seq<SockNotifier>, rs: seq<Record>, n: nat, i: nat)
    requires Examined(now, was, rs, n, i) && i >= |now|
    ensures n == |rs| && rs[..n] == rs && |now| == |Kept(rs)| && now == Busy(was)
    ensures forall k | 0 <= k < |rs| :: was[k].Shows(rs[k])
    ensures forall k | 0 <= k < |now| :: now[k].Shows(Kept(rs)[k])
    ensures forall k, l | 0 <= k < l < |now| :: now[k].id != now[l].id
    ensures forall sn | sn in was && sn.pendingOperations != 0 :: sn in now
  {
    hide Kept, Busy, SockNotifier.Shows;
    assert |now[i..]| == 0 && now[..i] == now && was[..n] == was;
  }

  lemma Removal<T>(s: seq<T>, i: nat)
    requires i < |s|
    ensures forall x | x in s && x != s[i] :: x in s[..i] + s[i + 1..]
    ensures (s[..i] + s[i + 1..])[i..] == s[i..][1..]
  {
    forall x | x in s && x != s[i] ensures x in s[..i] + s[i + 1..] {
      var k :| 0 <= k < |s| && s[k] == x;
      if k < i {
        assert (s[..i] + s[i + 1..])[k] == x;
      } else {
        assert (s[..i] + s[i + 1..])[k - 1] == x;
      }
    }
  }

  lemma ErrorFreeAsserts(s: State)
    requires Inv(s) && s.errors == 0
    ensures CleanupAsserts(s.records)
  {
    AssertionIffUnbroken(s);
  }

  lemma {:induction false} KeptConcat(a: seq<Record>, b: seq<Record>)
    ensures Kept(a + b) == Kept(a) + Kept(b)
  {
    if a == [] {
      assert a + b == b;
    } else {
      assert (a + b)[1..] == a[1..] + b;
      KeptConcat(a[1..], b);
    }
  }

  lemma KeptSnoc(rs: seq<Record>, n: nat)
    requires n < |rs|
    ensures Kept(rs[..n + 1]) == Kept(rs[..n]) + (if rs[n].pending == 0 then [] else [rs[n]])
  {
    assert rs[..n + 1] == rs[..n] + [rs[n]];
    KeptConcat(rs[..n], [rs[n]]);
    assert Kept([rs[n]]) == if rs[n].pending == 0 then [] else [rs[n]];
  }

  lemma NoneShown(sn: SockNotifier, r: Record)
    requires sn.Shows(r)
    ensures |sn.notif| == 3
    ensures NoNotifiers(r) <==> sn.notif[0] == None && sn.notif[1] == None && sn.notif[2] == None
  {
  }

  lemma AssertsSnoc(rs: seq<Record>, n: nat)
    requires n < |rs|
    ensures CleanupAsserts(rs[..n + 1]) == (CleanupAsserts(rs[..n]) && (rs[n].pending == 0 ==> NoNotifiers(rs[n])))
  {
    assert rs[..n + 1] == rs[..n] + [rs[n]];
  }

  /** A registration on record j. */
  function Filled(s: State, j: nat, n: Notifier): State
    requires j < |s.records|
  {
    var r := s.records[j];
    var r' := WithSlot(r, n.kind, Slot(Some(n), SlotOf(r, n.kind).revision + 1, false));
    Start(s.(records := s.records[j := r']), j, n.kind, n)
  }

  lemma RegisterShape(s: State, n: Notifier)
    requires Inv(s) && Enabled(s, Register(n))
    ensures Step(s, Register(n)) == Filled(Ensure(s, n.fd).0, Ensure(s, n.fd).1, n)
    ensures Distinct(Ensure(s, n.fd).0.records)
  {
    EnsureKeepsInv(s, n.fd);
    hide Inv;
    RecordsDistinct(Ensure(s, n.fd).0);
  }

  lemma RecordsDistinct(s: State)
    requires Inv(s)
    ensures Distinct(s.records)
  {
  }

  lemma RegisterOrdered(s: State)
    requires Inv(s)
    ensures forall r | r in s.records :: r.id < s.nextId
  {
  }

  lemma ReadyFacts(s: State, i: nat)
    requires Inv(s) && Enabled(s, Run(i))
    ensures Lookup(s.records, ById(s.handlers[i].rec)).Some?
    ensures
      var j := Lookup(s.records, ById(s.handlers[i].rec)).value;
      var slot := SlotOf(s.records[j], s.handlers[i].kind);
      && (slot.revision == s.handlers[i].revision ==> slot.notif == Some(s.handlers[i].owner))
      && Inv(Step(s, Run(i)))
  {
    LiveRecord(s, i);
    StepKeepsInv(s, Run(i));
  }

  lemma {:induction false} FirstFd(rs: seq<Record>, fd: int, i: nat)
    requires i < |rs| && rs[i].fd == fd && forall k | 0 <= k < i :: rs[k].fd != fd
    ensures Lookup(rs, ByFd(fd)) == Some(i)
  {
    if i > 0 {
      assert rs[0].fd != fd;
      FirstFd(rs[1..], fd, i - 1);
    }
  }
}
