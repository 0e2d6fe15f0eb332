/**
  The client object and its sessions.  Each atomic action of a thread is one step of the
  client machine; the calls below them are what a thread does when no other interrupts it.
 */
module AsyncClientObjects {
  import opened Bytes
  import opened AsyncClients

  /** calls are the invocations of the session's callback. */
  class SessionRecord {
    var wait: Wait
    var ec: int
    var response: string
    var wasCancelled: bool
    var cancelGuard: Option<Thread>
    var calls: seq<Report>

    ghost predicate Shows(x: Session)
      reads this
    {
      && x.wait == wait && x.ec == ec && x.response == response && x.cancelled == wasCancelled
      && x.guard == cancelGuard && x.reports == calls
    }

    constructor ()
      ensures wait == NoOp && ec == 0 && response == "" && !wasCancelled && cancelGuard.None? && calls == []
    {
      wait, ec, response, wasCancelled, cancelGuard, calls := NoOp, 0, "", false, None, [];
    }
  }

  function Next(t: Thread): Event {
    if t.Io? then IoStep else AppStep(t.a)
  }

  /** What the next step of thread t is. */
  datatype Action =
    | LocksTable
    | UnlocksTable
    | LocksGuard(id: Id)
    | UnlocksGuard(id: Id)
    | Other

  function ActionOf(s: State, t: Thread): Action {
    if t.Io? then
      match s.io
      case WantErase(_, _) => LocksTable
      case LeaveErase(_, _) => UnlocksTable
      case NeedGuard(id, _) => LocksGuard(id)
      case LeaveHandler(id) => UnlocksGuard(id)
      case _ => Other
    else if t.a >= |s.apps| then Other
    else
      match s.apps[t.a]
      case WantInsert(_) => LocksTable
      case WantFind(_) => LocksTable
      case LeaveInsert(_) => UnlocksTable
      case LeaveFind => UnlocksTable
      case WantGuard(id) => LocksGuard(id)
      case LeaveGuard(id) => UnlocksGuard(id)
      case _ => Other
  }

  class AsyncTcpClient {
    var activeSessions: map<Id, SessionRecord>
    var activeSessionsGuard: Option<Thread>

    ghost var known: map<Id, SessionRecord>
    ghost var model: State

    ghost predicate Linked()
      reads this
    {
      && model.table == activeSessionsGuard
      && model.active == activeSessions.Keys
      && model.sessions.Keys == known.Keys
      && (forall id | id in activeSessions :: id in known && activeSessions[id] == known[id])
      && (forall a, b | a in known && b in known && a != b :: known[a] != known[b])
    }

    ghost predicate Valid()
      reads this, known.Values
    {
      Inv(model) && Linked() && forall id | id in known :: known[id].Shows(model.sessions[id])
    }

    constructor (ghost threads: nat)
      ensures Valid() && model == Initial(threads) && activeSessions == map[]
    {
      activeSessions, activeSessionsGuard := map[], None;
      known, model := map[], Initial(threads);
      new;
      InitialInv(threads);
    }

    /** A step that touches no session but id. */
    twostate lemma OnlyOne(id: Id)
      requires old(Valid()) && id in old(known) && known == old(known)
      requires Inv(model) && Linked()
      requires forall k | k in known && k != id :: model.sessions[k] == old(model).sessions[k]
      requires known[id].Shows(model.sessions[id])
      requires unchanged(known.Values - {known[id]})
      ensures Valid()
    {
      hide Inv;
      forall k | k in known && k != id ensures known[k].Shows(model.sessions[k]) {
        assert known[k] in known.Values - {known[id]};
      }
    }

    twostate lemma OneMoreLinked(new id: Id, new x: SessionRecord)
      requires old(Linked()) && id !in old(known) && fresh(x) && known == old(known)[id := x]
      requires unchanged(`activeSessions, `activeSessionsGuard)
      requires model.sessions.Keys == old(model).sessions.Keys + {id}
      requires model.active == old(model).active && model.table == old(model).table
      ensures Linked()
    {
    }

    /** A new session touches no other. */
    twostate lemma OneMore(new a: nat, new id: Id, new x: SessionRecord)
      requires old(Valid()) && id !in old(model).sessions && id !in old(known)
      requires fresh(x) && known == old(known)[id := x]
      requires unchanged(old(known.Values)) && unchanged(`activeSessions, `activeSessionsGuard)
      requires Inv(model) && model.sessions == old(model).sessions[id := NewSession(a)]
      requires model.active == old(model).active && model.table == old(model).table
      requires x.Shows(NewSession(a))
      ensures Valid()
    {
      hide Inv, SessionRecord.Shows;
      OneMoreLinked(id, x);
      hide Linked;
      forall k | k in old(known) ensures known[k].Shows(model.sessions[k]) {
        assert known[k] == old(known)[k] && known[k] in old(known.Values);
      }
    }

    // ---------- Atomic actions ----------

    lemma TableShown()
      requires Valid()
      ensures model.table == activeSessionsGuard
    {
    }

    method LockTable(t: Thread)
      requires Valid() && Enabled(model, Next(t)) && ActionOf(model, t) == LocksTable
      modifies `model, `activeSessionsGuard
      ensures Valid() && model == Step(old(model), Next(t)) && activeSessionsGuard == Some(t)
    {
      hide Inv;
      StepKeepsInv(model, Next(t));
      model := Step(model, Next(t));
      activeSessionsGuard := Some(t);
    }

    method UnlockTable(t: Thread)
      requires Valid() && Enabled(model, Next(t)) && ActionOf(model, t) == UnlocksTable
      modifies `model, `activeSessionsGuard
      ensures Valid() && model == Step(old(model), Next(t)) && activeSessionsGuard.None?
    {
      hide Inv;
      StepKeepsInv(model, Next(t));
      model := Step(model, Next(t));
      activeSessionsGuard := None;
    }

    method LockGuard(t: Thread, x: SessionRecord, ghost id: Id)
      requires Valid() && id in known && known[id] == x
      requires Enabled(model, Next(t)) && ActionOf(model, t) == LocksGuard(id)
      modifies `model, x`cancelGuard
      ensures Valid() && model == Step(old(model), Next(t)) && x.cancelGuard == Some(t)
    {
      hide Inv;
      StepKeepsInv(model, Next(t));
      model := Step(model, Next(t));
      x.cancelGuard := Some(t);
      OnlyOne(id);
    }

    method UnlockGuard(t: Thread, x: SessionRecord, ghost id: Id)
      requires Valid() && id in known && known[id] == x
      requires Enabled(model, Next(t)) && ActionOf(model, t) == UnlocksGuard(id)
      modifies `model, x`cancelGuard
      ensures Valid() && model == Step(old(model), Next(t)) && x.cancelGuard.None?
    {
      hide Inv;
      StepKeepsInv(model, Next(t));
      model := Step(model, Next(t));
      x.cancelGuard := None;
      OnlyOne(id);
    }

    method InsertSession(a: nat, x: SessionRecord, id: Id)
      requires Valid() && id in known && known[id] == x
      requires Enabled(model, AppStep(a)) && model.apps[a] == Insert(id)
      modifies `model, `activeSessions
      ensures Valid() && model == Step(old(model), AppStep(a))
      ensures activeSessions == old(activeSessions)[id := x]
    {
      hide Inv;
      StepKeepsInv(model, AppStep(a));
      model := Step(model, AppStep(a));
      activeSessions := activeSessions[id := x];
    }

    /** async_connect. */
    method ConnectSession(a: nat, x: SessionRecord, ghost id: Id)
      requires Valid() && id in known && known[id] == x
      requires Enabled(model, AppStep(a)) && model.apps[a] == StartConnect(id)
      modifies `model, x`wait
      ensures Valid() && model == Step(old(model), AppStep(a)) && x.wait == Op(Connect, Pending)
    {
      hide Inv;
      StepKeepsInv(model, AppStep(a));
      model := Step(model, AppStep(a));
      x.wait := Op(Connect, Pending);
      OnlyOne(id);
    }

    method FindSession(a: nat, id: Id) returns (found: bool)
      requires Valid() && Enabled(model, AppStep(a)) && model.apps[a] == Find(id)
      modifies `model
      ensures Valid() && model == Step(old(model), AppStep(a))
      ensures found <==> id in activeSessions
    {
      hide Inv;
      StepKeepsInv(model, AppStep(a));
      model := Step(model, AppStep(a));
      found := id in activeSessions;
    }

    method SetCancelled(a: nat, x: SessionRecord, ghost id: Id)
      requires Valid() && id in known && known[id] == x
      requires Enabled(model, AppStep(a)) && model.apps[a] == SetFlag(id)
      modifies `model, x`wasCancelled
      ensures Valid() && model == Step(old(model), AppStep(a)) && x.wasCancelled
    {
      hide Inv;
      StepKeepsInv(model, AppStep(a));
      model := Step(model, AppStep(a));
      x.wasCancelled := true;
      OnlyOne(id);
    }

    /** m_sock.cancel: an operation that has not ended will end as aborted. */
    method CancelSocket(a: nat, x: SessionRecord, ghost id: Id)
      requires Valid() && id in known && known[id] == x
      requires Enabled(model, AppStep(a)) && model.apps[a] == AppPc.CancelSocket(id)
      modifies `model, x`wait
      ensures Valid() && model == Step(old(model), AppStep(a))
      ensures if old(x.wait).Op? && old(x.wait).outcome.Pending?
              then x.wait == Op(old(x.wait).op, Finished(125, "")) else x.wait == old(x.wait)
    {
      hide Inv;
      StepKeepsInv(model, AppStep(a));
      model := Step(model, AppStep(a));
      if x.wait.Op? && x.wait.outcome.Pending? {
        x.wait := x.wait.(outcome := Finished(ABORTED, ""));
      }
      OnlyOne(id);
    }

    /** The operating system ends an operation. */
    method EndOperation(x: SessionRecord, ghost id: Id, code: int, line: string)
      requires Valid() && id in known && known[id] == x && Enabled(model, Complete(id, code, line))
      modifies `model, x`wait
      ensures Valid() && model == Step(old(model), Complete(id, code, line))
    {
      hide Inv;
      StepKeepsInv(model, Complete(id, code, line));
      model := Step(model, Complete(id, code, line));
      x.wait := x.wait.(outcome := Finished(code, line));
      OnlyOne(id);
    }

    /** The I/O thread calls the handler of an operation that has ended. */
    method Dispatch(x: SessionRecord, ghost id: Id) returns (op: Operation, code: int, line: string)
      requires Valid() && id in known && known[id] == x && Enabled(model, Event.Dispatch(id))
      modifies `model, x`wait
      ensures Valid() && model == Step(old(model), Event.Dispatch(id))
      ensures model.io == Entered(id, op, code, line) && old(x.wait) == Op(op, Finished(code, line)) && x.wait.NoOp?
    {
      hide Inv;
      StepKeepsInv(model, Event.Dispatch(id));
      model := Step(model, Event.Dispatch(id));
      op, code, line := x.wait.op, x.wait.outcome.code, x.wait.outcome.line;
      x.wait := NoOp;
      OnlyOne(id);
    }

    /** The first test of a handler: an error, or the end of the read, completes the request. */
    method TakeOutcome(x: SessionRecord, ghost id: Id, op: Operation, code: int, line: string) returns (over: bool)
      requires Valid() && id in known && known[id] == x
      requires Enabled(model, IoStep) && model.io == Entered(id, op, code, line)
      modifies `model, x`ec, x`response
      ensures Valid() && model == Step(old(model), IoStep)
      ensures over <==> code != 0 || op.Read?
      ensures x.ec == (if code != 0 then code else old(x.ec))
      ensures x.response == if code == 0 && op.Read? then line else old(x.response)
    {
      hide Inv;
      StepKeepsInv(model, IoStep);
      model := Step(model, IoStep);
      if code != 0 {
        x.ec := code;
      } else if op.Read? {
        x.response := line;
      }
      over := code != 0 || op.Read?;
      OnlyOne(id);
    }

    /** The second test, under the guard: a cancelled request goes no further. */
    method Continue(x: SessionRecord, ghost id: Id, op: Operation) returns (goesOn: bool)
      requires Valid() && id in known && known[id] == x
      requires Enabled(model, IoStep) && model.io == Decide(id, op)
      modifies `model, x`wait
      ensures Valid() && model == Step(old(model), IoStep)
      ensures goesOn <==> !x.wasCancelled
      ensures x.wait == if goesOn then Op(NextOp(op), Pending) else old(x.wait)
    {
      hide Inv;
      StepKeepsInv(model, IoStep);
      model := Step(model, IoStep);
      goesOn := !x.wasCancelled;
      if goesOn {
        x.wait := Op(NextOp(op), Pending);
      }
      OnlyOne(id);
    }

    method EraseSession(id: Id)
      requires Valid() && Enabled(model, IoStep) && model.io.Erase? && model.io.id == id
      modifies `model, `activeSessions
      ensures Valid() && model == Step(old(model), IoStep)
      ensures activeSessions == old(activeSessions) - {id}
    {
      hide Inv;
      StepKeepsInv(model, IoStep);
      model := Step(model, IoStep);
      activeSessions := activeSessions - {id};
    }

    method InvokeCallback(x: SessionRecord, ghost id: Id)
      requires Valid() && id in known && known[id] == x
      requires Enabled(model, IoStep) && model.io.Callback? && model.io.id == id
      modifies `model, x`calls
      ensures Valid() && model == Step(old(model), IoStep)
      ensures x.calls == old(x.calls) + [Report(x.response, Code(x.ec, x.wasCancelled))]
    {
      hide Inv;
      StepKeepsInv(model, IoStep);
      model := Step(model, IoStep);
      var code := if x.ec == 0 && x.wasCancelled then ABORTED else x.ec;
      x.calls := x.calls + [Report(x.response, code)];
      OnlyOne(id);
    }

    ghost method BeginCancel(a: nat, id: Id)
      requires Valid() && Enabled(model, Cancel(a, id))
      modifies `model
      ensures Valid() && model == Step(old(model), Cancel(a, id))
    {
      hide Inv;
      StepKeepsInv(model, Cancel(a, id));
      model := Step(model, Cancel(a, id));
    }

    /** The session of a new request. */
    method NewRequest(ghost a: nat, ghost id: Id) returns (x: SessionRecord)
      requires Valid() && Enabled(model, Start(a, id))
      modifies `model, `known
      ensures Valid() && model == Step(old(model), Start(a, id))
      ensures fresh(x) && known == old(known)[id := x] && x.calls == [] && x.cancelGuard.None?
    {
      hide Inv, Step, Enabled;
      StepKeepsInv(model, Start(a, id));
      StartShape(model, a, id);
      x := new SessionRecord();
      model := Step(model, Start(a, id));
      known := known[id := x];
      OneMore(a, id, x);
    }

    // ---------- Uninterrupted calls ----------

    lemma OthersApart(id: Id)
      requires Valid()
      ensures
        forall k | k in activeSessions && k != id && id in activeSessions :: activeSessions[k] != activeSessions[id]
    {
    }

    /** emulateLongComputationOp: the request is in the table, waiting for its connect. */
    method EmulateLongComputationOp(a: nat, id: Id) returns (x: SessionRecord)
      requires Valid() && Enabled(model, Start(a, id)) && activeSessionsGuard.None?
      modifies this
      ensures Valid() && activeSessionsGuard.None? && model.apps == old(model).apps && model.io == old(model).io
      ensures fresh(x) && activeSessions == old(activeSessions)[id := x] && x.wait == Op(Connect, Pending)
      ensures x.calls == [] && x.cancelGuard.None?
    {
      hide Inv, Step, Enabled, ActionOf, Next;
      StartPath(model, a, id);
      x := NewRequest(a, id);
      LockTable(App(a));
      InsertSession(a, x, id);
      UnlockTable(App(a));
      ConnectSession(a, x, id);
    }

    /** The inner block of cancelRequest. */
    method CancelFound(a: nat, x: SessionRecord, ghost id: Id)
      requires Valid() && id in known && known[id] == x
      requires a < |model.apps| && model.apps[a] == WantGuard(id) && x.cancelGuard.None?
      modifies `model, x
      ensures Valid() && model.apps == old(model).apps[a := LeaveFind] && model.io == old(model).io
      ensures x.wasCancelled && x.cancelGuard.None?
      ensures if old(x.wait).Op? && old(x.wait).outcome.Pending?
              then x.wait == Op(old(x.wait).op, Finished(125, "")) else x.wait == old(x.wait)
    {
      hide Inv, Step, Enabled, ActionOf, Next;
      assert model.sessions[id].guard.None? by { assert x.Shows(model.sessions[id]); }
      CancelPath(model, a, id);
      LockGuard(App(a), x, id);
      SetCancelled(a, x, id);
      CancelSocket(a, x, id);
      UnlockGuard(App(a), x, id);
    }

    /** cancelRequest, while it has the table. */
    method CancelLocked(a: nat, id: Id)
      requires Valid() && Enabled(model, AppStep(a)) && model.apps[a] == Find(id)
      requires id in activeSessions ==> activeSessions[id].cancelGuard.None?
      modifies `model, activeSessions.Values
      ensures Valid() && model.io == old(model).io
      ensures a < |old(model).apps| && model.apps == old(model).apps[a := LeaveFind]
      ensures id in activeSessions ==>
                var x := activeSessions[id];
                && x.wasCancelled && x.cancelGuard.None?
                && (if old(x.wait).Op? && old(x.wait).outcome.Pending?
                    then x.wait == Op(old(x.wait).op, Finished(125, "")) else x.wait == old(x.wait))
      ensures forall k | k in activeSessions && k != id :: unchanged(activeSessions[k])
    {
      hide Inv, Step, Enabled, ActionOf, Next;
      OthersApart(id);
      SearchPath(model, a, id);
      var found := FindSession(a, id);
      if found {
        var x := activeSessions[id];
        assert x in activeSessions.Values && known[id] == x && x.Shows(model.sessions[id]);
        CancelFound(a, x, id);
      }
    }

    /** cancelRequest: a request that is still active is flagged and its operation aborted. */
    method CancelRequest(a: nat, id: Id)
      requires Valid() && Enabled(model, Cancel(a, id)) && activeSessionsGuard.None?
      requires id in activeSessions ==> activeSessions[id].cancelGuard.None?
      modifies this, activeSessions.Values
      ensures Valid() && activeSessionsGuard.None? && model.apps == old(model).apps && model.io == old(model).io
      ensures activeSessions == old(activeSessions)
      ensures id in activeSessions ==>
                var x := activeSessions[id];
                && x.wasCancelled && x.cancelGuard.None?
                && (if old(x.wait).Op? && old(x.wait).outcome.Pending?
                    then x.wait == Op(old(x.wait).op, Finished(125, "")) else x.wait == old(x.wait))
      ensures forall k | k in activeSessions && k != id :: unchanged(activeSessions[k])
    {
      hide Valid, Inv, Step, Enabled, ActionOf, Next;
      TableShown();
      FindPath(model, a, id);
      BeginCancel(a, id);
      LockTable(App(a));
      CancelLocked(a, id);
      LeaveFindPath(model, a);
      UnlockTable(App(a));
      IdleAgain(old(model).apps, a, Find(id));
    }

    /** onRequestComplete. */
    method OnRequestComplete(x: SessionRecord, id: Id, ghost held: bool)
      requires Valid() && id in known && known[id] == x
      requires model.io == WantErase(id, held) && activeSessionsGuard.None?
      modifies this, x`calls
      ensures Valid() && activeSessionsGuard.None? && known == old(known)
      ensures activeSessions == old(activeSessions) - {id}
      ensures model.io == (if held then LeaveHandler(id) else Resting)
      ensures x.calls == old(x.calls) + [Report(x.response, Code(x.ec, x.wasCancelled))]
    {
      hide Inv, Step, Enabled, ActionOf, Next;
      CompletePath(model, id, held);
      LockTable(Io);
      EraseSession(id);
      UnlockTable(Io);
      InvokeCallback(x, id);
    }

    /** The request goes on, or is over because it has been cancelled. */
    method Settle(x: SessionRecord, id: Id, op: Operation)
      requires Valid() && id in known && known[id] == x
      requires model.io == Decide(id, op) && activeSessionsGuard.None?
      modifies this, x`wait, x`calls
      ensures Valid() && model.io == LeaveHandler(id) && activeSessionsGuard.None? && known == old(known)
      ensures if x.wasCancelled then
                && x.wait == old(x.wait) && activeSessions == old(activeSessions) - {id}
                && x.calls == old(x.calls) + [Report(x.response, Code(x.ec, true))]
              else x.wait == Op(NextOp(op), Pending) && x.calls == old(x.calls) && activeSessions == old(activeSessions)
    {
      hide Inv, Step, Enabled, ActionOf, Next, NextOp, Code;
      assert x.wasCancelled == model.sessions[id].cancelled by { assert x.Shows(model.sessions[id]); }
      DecidePath(model, id, op);
      var goesOn := Continue(x, id, op);
      if !goesOn {
        OnRequestComplete(x, id, true);
      }
    }

    /** The second half of the handlers of connect and write, under the guard. */
    method GoOn(x: SessionRecord, id: Id, op: Operation)
      requires Valid() && id in known && known[id] == x
      requires model.io == NeedGuard(id, op) && activeSessionsGuard.None? && x.cancelGuard.None?
      modifies this, x
      ensures Valid() && model.io.Resting? && activeSessionsGuard.None? && x.cancelGuard.None?
      ensures x.wasCancelled == old(x.wasCancelled) && x.ec == old(x.ec) && x.response == old(x.response)
      ensures if x.wasCancelled then
                && x.wait == old(x.wait) && activeSessions == old(activeSessions) - {id}
                && x.calls == old(x.calls) + [Report(x.response, Code(x.ec, true))]
              else x.wait == Op(NextOp(op), Pending) && x.calls == old(x.calls) && activeSessions == old(activeSessions)
    {
      hide Inv, Step, Enabled, ActionOf, Next;
      assert model.sessions[id].guard.None? by { assert x.Shows(model.sessions[id]); }
      GuardPath(model, id, op);
      LockGuard(Io, x, id);
      Settle(x, id, op);
      LeavePath(model, id);
      UnlockGuard(Io, x, id);
    }

    /**
      The handlers of connect, write and read: the request goes on to its next operation, or
      is erased and its callback called, once.
     */
    method RunHandler(x: SessionRecord, id: Id)
      requires Valid() && id in known && known[id] == x && Enabled(model, Event.Dispatch(id))
      requires activeSessionsGuard.None? && x.cancelGuard.None?
      modifies this, x
      ensures Valid() && model.io.Resting? && activeSessionsGuard.None? && x.cancelGuard.None?
      ensures x.wasCancelled == old(x.wasCancelled)
      ensures var op, code := old(x.wait.op), old(x.wait.outcome.code);
              if code == 0 && !op.Read? && !x.wasCancelled then
                && x.wait == Op(if op.Connect? then Write else Read, Pending)
                && x.calls == [] && activeSessions == old(activeSessions)
              else
                && x.wait.NoOp? && activeSessions == old(activeSessions) - {id}
                && x.calls == [Report(if code == 0 && op.Read? then old(x.wait.outcome.line) else "",
                                      if code != 0 then code else if x.wasCancelled then 125 else 0)]
    {
      hide Inv, Step, Enabled, ActionOf, Next;
      DispatchPath(model, id);
      Unreported(id);
      var op, code, line := Dispatch(x, id);
      EnteredPath(model, id, op, code, line);
      var over := TakeOutcome(x, id, op, code, line);
      if over {
        OnRequestComplete(x, id, false);
        return;
      }
      GoOn(x, id, op);
    }

    lemma Unreported(id: Id)
      requires Valid() && id in known && known[id].wait.Op?
      ensures known[id].calls == [] && known[id].ec == 0 && known[id].response == ""
    {
      assert known[id].Shows(model.sessions[id]);
      assert Life(id in model.active, model.sessions[id], model.apps, model.io, id);
    }
  }

  // ---------- The steps of a call, one after another ----------

  lemma StartShape(s: State, a: nat, id: Id)
    requires Enabled(s, Start(a, id))
    ensures id !in s.sessions
    ensures
      var t := Step(s, Start(a, id));
      t.sessions == s.sessions[id := NewSession(a)] && t.active == s.active && t.table == s.table
  {
  }

  /** The five steps of emulateLongComputationOp. */
  lemma StartPath(s: State, a: nat, id: Id)
    requires Enabled(s, Start(a, id)) && s.table.None?
    ensures
      var s1 := Step(s, Start(a, id));
      && Enabled(s1, Next(App(a))) && ActionOf(s1, App(a)) == LocksTable
      && var s2 := Step(s1, Next(App(a)));
      && Enabled(s2, AppStep(a)) && s2.apps[a] == Insert(id)
      && var s3 := Step(s2, AppStep(a));
      && Enabled(s3, Next(App(a))) && ActionOf(s3, App(a)) == UnlocksTable
      && var s4 := Step(s3, Next(App(a)));
      && Enabled(s4, AppStep(a)) && s4.apps[a] == StartConnect(id)
      && var s5 := Step(s4, AppStep(a));
      s5.apps == s.apps && s5.io == s.io && s5.table.None?
  {
  }

  lemma IdleAgain(apps: seq<AppPc>, a: nat, pc: AppPc)
    requires a < |apps| && apps[a].Idle?
    ensures apps[a := LeaveFind][a := Idle] == apps
    ensures apps[a := pc][a := LeaveFind][a := Idle] == apps
  {
  }

  /** A cancel locks the table. */
  lemma FindPath(s: State, a: nat, id: Id)
    requires Enabled(s, Cancel(a, id)) && s.table.None?
    ensures a < |s.apps| && s.apps[a].Idle?
    ensures
      var s1 := Step(s, Cancel(a, id));
      && Enabled(s1, Next(App(a))) && ActionOf(s1, App(a)) == LocksTable
      && var s2 := Step(s1, Next(App(a)));
      && Enabled(s2, AppStep(a)) && s2.apps == s.apps[a := Find(id)] && s2.io == s.io
  {
  }

  /** And searches it. */
  lemma SearchPath(s: State, a: nat, id: Id)
    requires Enabled(s, AppStep(a)) && s.apps[a] == Find(id)
    ensures a < |s.apps|
    ensures
      var t := Step(s, AppStep(a));
      && t.apps == s.apps[a := if id in s.active then WantGuard(id) else LeaveFind]
      && t.io == s.io && t.sessions == s.sessions && t.active == s.active
  {
  }

  /** Leaving the table, at the end of a cancel. */
  lemma LeaveFindPath(s: State, a: nat)
    requires a < |s.apps| && s.apps[a] == LeaveFind
    ensures Enabled(s, Next(App(a))) && ActionOf(s, App(a)) == UnlocksTable
    ensures
      var t := Step(s, Next(App(a)));
      t.apps == s.apps[a := Idle] && t.io == s.io && t.table.None?
  {
  }

  /** The four steps of the inner block of cancelRequest. */
  lemma CancelPath(s: State, a: nat, id: Id)
    requires a < |s.apps| && s.apps[a] == WantGuard(id) && id in s.sessions && s.sessions[id].guard.None?
    ensures Enabled(s, Next(App(a))) && ActionOf(s, App(a)) == LocksGuard(id)
    ensures
      var s1 := Step(s, Next(App(a)));
      && Enabled(s1, AppStep(a)) && s1.apps[a] == SetFlag(id)
      && var s2 := Step(s1, AppStep(a));
      && Enabled(s2, AppStep(a)) && s2.apps[a] == AppPc.CancelSocket(id)
      && var s3 := Step(s2, AppStep(a));
      && Enabled(s3, Next(App(a))) && ActionOf(s3, App(a)) == UnlocksGuard(id)
      && var s4 := Step(s3, Next(App(a)));
      s4.apps == s.apps[a := LeaveFind] && s4.io == s.io
  {
  }

  /** The four steps of onRequestComplete. */
  lemma CompletePath(s: State, id: Id, held: bool)
    requires s.io == WantErase(id, held) && s.table.None? && id in s.sessions
    ensures Enabled(s, Next(Io)) && ActionOf(s, Io) == LocksTable
    ensures
      var s1 := Step(s, Next(Io));
      && Enabled(s1, IoStep) && s1.io == Erase(id, held)
      && var s2 := Step(s1, IoStep);
      && Enabled(s2, Next(Io)) && ActionOf(s2, Io) == UnlocksTable
      && var s3 := Step(s2, Next(Io));
      && Enabled(s3, IoStep) && s3.io == Callback(id, held)
      && var s4 := Step(s3, IoStep);
      s4.io == (if held then LeaveHandler(id) else Resting) && s4.table.None?
  {
  }

  /** A handler is called. */
  lemma DispatchPath(s: State, id: Id)
    requires Enabled(s, Dispatch(id))
    ensures s.sessions[id].wait.Op? && s.sessions[id].wait.outcome.Finished?
    ensures Step(s, Dispatch(id)).table == s.table && id in Step(s, Dispatch(id)).sessions
  {
  }

  /** And makes its first test. */
  lemma EnteredPath(s: State, id: Id, op: Operation, code: int, line: string)
    requires s.io == Entered(id, op, code, line) && id in s.sessions
    ensures Enabled(s, IoStep)
    ensures
      var t := Step(s, IoStep);
      t.table == s.table && t.io == if code != 0 || op.Read? then WantErase(id, false) else NeedGuard(id, op)
  {
  }

  /** A handler takes the guard. */
  lemma GuardPath(s: State, id: Id, op: Operation)
    requires s.io == NeedGuard(id, op) && id in s.sessions && s.sessions[id].guard.None?
    ensures Enabled(s, Next(Io)) && ActionOf(s, Io) == LocksGuard(id)
    ensures Step(s, Next(Io)).io == Decide(id, op) && Step(s, Next(Io)).table == s.table
  {
  }

  /** And decides. */
  lemma DecidePath(s: State, id: Id, op: Operation)
    requires s.io == Decide(id, op) && id in s.sessions
    ensures Enabled(s, IoStep)
    ensures
      var t := Step(s, IoStep);
      && t.table == s.table
      && t.io == if s.sessions[id].cancelled then WantErase(id, true) else LeaveHandler(id)
  {
  }

  lemma LeavePath(s: State, id: Id)
    requires s.io == LeaveHandler(id) && id in s.sessions
    ensures Enabled(s, Next(Io)) && ActionOf(s, Io) == UnlocksGuard(id)
    ensures Step(s, Next(Io)).io.Resting? && Step(s, Next(Io)).table == s.table
  {
  }
}
