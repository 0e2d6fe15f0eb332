/**
  The cancellable asynchronous client, instruction by instruction: one I/O thread that runs
  completion handlers, and any number of application threads that start and cancel requests.

  A handler may hold a session's cancel guard when it locks the table of active sessions;
  cancelRequest locks the table first and the guard second.
 */
module AsyncClients {
  import opened Bytes

  type Id = int

  /** boost::asio::error::operation_aborted */
  const ABORTED: int := 125

  datatype Thread = Io | App(a: nat)

  datatype Operation = Connect | Write | Read

  datatype Outcome = Pending | Finished(code: int, line: string)

  /** The session's asynchronous operation, from its start to the call of its handler. */
  datatype Wait = NoOp | Op(op: Operation, outcome: Outcome)

  datatype Report = Report(response: string, code: int)

  /** Who drives the request on. */
  datatype Phase = Starting(a: nat) | Waiting | Running | Done

  /**
    phase, outcomes (the codes its handlers were called with), answer (the line that the handler
    of the read was called with) and reports are history.
   */
  datatype Session = Session(
    wait: Wait,
    ec: int,
    response: string,
    cancelled: bool,
    guard: Option<Thread>,
    phase: Phase,
    outcomes: seq<int>,
    answer: string,
    reports: seq<Report>)

  function NewSession(a: nat): Session {
    Session(NoOp, 0, "", false, None, Starting(a), [], "", [])
  }

  /** Where an application thread is in emulateLongComputationOp or cancelRequest. */
  datatype AppPc =
    | Idle
    | WantInsert(id: Id)
    | Insert(id: Id)
    | LeaveInsert(id: Id)
    | StartConnect(id: Id)
    | WantFind(id: Id)
    | Find(id: Id)
    | WantGuard(id: Id)
    | SetFlag(id: Id)
    | CancelSocket(id: Id)
    | LeaveGuard(id: Id)
    | LeaveFind

  /** Where the I/O thread is in a handler; held says that the handler holds the cancel guard. */
  datatype IoPc =
    | Resting
    | Entered(id: Id, op: Operation, code: int, line: string)
    | NeedGuard(id: Id, op: Operation)
    | Decide(id: Id, op: Operation)
    | WantErase(id: Id, held: bool)
    | Erase(id: Id, held: bool)
    | LeaveErase(id: Id, held: bool)
    | Callback(id: Id, held: bool)
    | LeaveHandler(id: Id)

  /** cancels, the calls of cancelRequest, is history. */
  datatype State = State(
    active: set<Id>,
    table: Option<Thread>,
    sessions: map<Id, Session>,
    apps: seq<AppPc>,
    io: IoPc,
    cancels: multiset<Id>)

  function Initial(n: nat): State {
    State({}, None, map[], seq(n, _ => Idle), Resting, multiset{})
  }

  datatype Event =
    | Start(a: nat, id: Id)
    | Cancel(a: nat, id: Id)
    | AppStep(a: nat)
    | Complete(id: Id, code: int, line: string)   // the operation of a session ends
    | Dispatch(id: Id)                            // the I/O thread calls its handler
    | IoStep

  predicate AppEnabled(s: State, a: nat) {
    && a < |s.apps|
    && match s.apps[a]
       case Idle => false
       case WantInsert(_) => s.table.None?
       case WantFind(_) => s.table.None?
       case WantGuard(id) => id in s.sessions && s.sessions[id].guard.None?
       case StartConnect(id) => id in s.sessions
       case SetFlag(id) => id in s.sessions
       case CancelSocket(id) => id in s.sessions
       case LeaveGuard(id) => id in s.sessions
       case _ => true
  }

  predicate IoEnabled(s: State) {
    match s.io
    case Resting => false
    case NeedGuard(id, _) => id in s.sessions && s.sessions[id].guard.None?
    case WantErase(_, _) => s.table.None?
    case Erase(_, _) => true
    case LeaveErase(_, _) => true
    case _ => s.io.id in s.sessions
  }

  predicate Enabled(s: State, e: Event) {
    match e
    case Start(a, id) => a < |s.apps| && s.apps[a].Idle? && id !in s.sessions
    case Cancel(a, _) => a < |s.apps| && s.apps[a].Idle?
    case AppStep(a) => AppEnabled(s, a)
    case Complete(id, _, _) => id in s.sessions && s.sessions[id].wait.Op? && s.sessions[id].wait.outcome.Pending?
    case Dispatch(id) =>
      s.io.Resting? && id in s.sessions && s.sessions[id].wait.Op? && s.sessions[id].wait.outcome.Finished?
    case IoStep => IoEnabled(s)
  }

  function With(s: State, id: Id, x: Session): State {
    s.(sessions := s.sessions[id := x])
  }

  function At(s: State, a: nat, pc: AppPc): State
    requires a < |s.apps|
  {
    s.(apps := s.apps[a := pc])
  }

  /** socket::cancel aborts an operation that has not ended. */
  function Aborted(w: Wait): Wait {
    if w.Op? && w.outcome.Pending? then w.(outcome := Finished(ABORTED, "")) else w
  }

  function StepApp(s: State, a: nat): State
    requires AppEnabled(s, a)
  {
    match s.apps[a]
    case WantInsert(id) => At(s, a, Insert(id)).(table := Some(App(a)))
    case Insert(id) => At(s, a, LeaveInsert(id)).(active := s.active + {id})
    case LeaveInsert(id) => At(s, a, StartConnect(id)).(table := None)
    case StartConnect(id) =>
      At(With(s, id, s.sessions[id].(wait := Op(Connect, Pending), phase := Waiting)), a, Idle)
    case WantFind(id) => At(s, a, Find(id)).(table := Some(App(a)))
    case Find(id) => At(s, a, if id in s.active then WantGuard(id) else LeaveFind)
    case WantGuard(id) => At(With(s, id, s.sessions[id].(guard := Some(App(a)))), a, SetFlag(id))
    case SetFlag(id) => At(With(s, id, s.sessions[id].(cancelled := true)), a, CancelSocket(id))
    case CancelSocket(id) =>
      At(With(s, id, s.sessions[id].(wait := Aborted(s.sessions[id].wait))), a, LeaveGuard(id))
    case LeaveGuard(id) => At(With(s, id, s.sessions[id].(guard := None)), a, LeaveFind)
    case LeaveFind => At(s, a, Idle).(table := None)
  }

  /** What onRequestComplete passes to the callback. */
  function Code(ec: int, cancelled: bool): int {
    if ec == 0 && cancelled then ABORTED else ec
  }

  function NextOp(op: Operation): Operation {
    if op.Connect? then Write else Read
  }

  function StepIo(s: State): State
    requires IoEnabled(s)
  {
    match s.io
    case Entered(id, op, code, line) =>
      var x := s.sessions[id];
      if code != 0 then With(s, id, x.(ec := code)).(io := WantErase(id, false))
      else if op.Read? then With(s, id, x.(response := line)).(io := WantErase(id, false))
      else s.(io := NeedGuard(id, op))
    case NeedGuard(id, op) => With(s, id, s.sessions[id].(guard := Some(Io))).(io := Decide(id, op))
    case Decide(id, op) =>
      var x := s.sessions[id];
      if x.cancelled then s.(io := WantErase(id, true))
      else With(s, id, x.(wait := Op(NextOp(op), Pending), phase := Waiting)).(io := LeaveHandler(id))
    case WantErase(id, held) => s.(table := Some(Io), io := Erase(id, held))
    case Erase(id, held) => s.(active := s.active - {id}, io := LeaveErase(id, held))
    case LeaveErase(id, held) => s.(table := None, io := Callback(id, held))
    case Callback(id, held) =>
      var x := s.sessions[id];
      With(s, id, x.(reports := x.reports + [Report(x.response, Code(x.ec, x.cancelled))], phase := Done)).(
        io := if held then LeaveHandler(id) else Resting)
    case LeaveHandler(id) => With(s, id, s.sessions[id].(guard := None)).(io := Resting)
  }

  function Step(s: State, e: Event): State
    requires Enabled(s, e)
  {
    match e
    case Start(a, id) => At(With(s, id, NewSession(a)), a, WantInsert(id))
    case Cancel(a, id) => At(s, a, WantFind(id)).(cancels := s.cancels + multiset{id})
    case AppStep(a) => StepApp(s, a)
    case Complete(id, code, line) =>
      var x := s.sessions[id];
      With(s, id, x.(wait := x.wait.(outcome := Finished(code, line))))
    case Dispatch(id) =>
      var x := s.sessions[id];
      With(s, id, x.(wait := NoOp, phase := Running, outcomes := x.outcomes + [x.wait.outcome.code],
                     answer := if x.wait.op.Read? then x.wait.outcome.line else x.answer)).(
        io := Entered(id, x.wait.op, x.wait.outcome.code, x.wait.outcome.line))
    case IoStep => StepIo(s)
  }

  // ---------- What each point of a program means ----------

  predicate AppHasTable(pc: AppPc) {
    !pc.Idle? && !pc.WantInsert? && !pc.StartConnect? && !pc.WantFind?
  }

  predicate AppHasGuard(pc: AppPc, id: Id) {
    pc == SetFlag(id) || pc == CancelSocket(id) || pc == LeaveGuard(id)
  }

  /** In emulateLongComputationOp, up to the start of the connect. */
  predicate AppStarts(pc: AppPc, id: Id) {
    pc == WantInsert(id) || pc == Insert(id) || pc == LeaveInsert(id) || pc == StartConnect(id)
  }

  /** In cancelRequest, before the flag is set. */
  predicate AppCancels(pc: AppPc, id: Id) {
    pc == WantFind(id) || pc == Find(id) || pc == WantGuard(id) || pc == SetFlag(id)
  }

  /** In cancelRequest, having found the session. */
  predicate AppFound(pc: AppPc, id: Id) {
    pc == WantGuard(id) || AppHasGuard(pc, id)
  }

  predicate IoHasTable(pc: IoPc) {
    pc.Erase? || pc.LeaveErase?
  }

  predicate Completing(pc: IoPc) {
    pc.WantErase? || pc.Erase? || pc.LeaveErase? || pc.Callback?
  }

  predicate IoHasGuard(pc: IoPc, id: Id) {
    (pc.Decide? || pc.LeaveHandler? || (Completing(pc) && pc.held)) && pc.id == id
  }

  /** The handler that drives request id. */
  predicate IoRuns(pc: IoPc, id: Id) {
    !pc.Resting? && !pc.LeaveHandler? && pc.id == id
  }

  predicate HasTable(s: State, t: Thread) {
    if t.Io? then IoHasTable(s.io) else t.a < |s.apps| && AppHasTable(s.apps[t.a])
  }

  predicate HasGuard(s: State, id: Id, t: Thread) {
    if t.Io? then IoHasGuard(s.io, id) else t.a < |s.apps| && AppHasGuard(s.apps[t.a], id)
  }

  // ---------- Invariant ----------

  ghost predicate TableLock(s: State) {
    forall t: Thread :: HasTable(s, t) <==> s.table == Some(t)
  }

  ghost predicate GuardLocks(s: State) {
    forall id, t: Thread | id in s.sessions :: HasGuard(s, id, t) <==> s.sessions[id].guard == Some(t)
  }

  ghost predicate Locks(s: State) {
    TableLock(s) && GuardLocks(s)
  }

  function Zeros(n: nat): (z: seq<int>)
    ensures |z| == n
  {
    seq(n, _ => 0)
  }

  function Index(op: Operation): nat {
    if op.Connect? then 0 else if op.Write? then 1 else 2
  }

  /** The request is over: an operation failed, or all succeeded, or it was cancelled. */
  predicate Ended(x: Session) {
    if x.ec != 0 then exists k: nat :: k < 3 && x.outcomes == Zeros(k) + [x.ec]
    else exists k: nat :: k <= 3 && x.outcomes == Zeros(k) && (k < 3 ==> x.cancelled)
  }

  /** The line that was read, if all three operations succeeded. */
  function Reply(x: Session): string {
    if x.outcomes == Zeros(3) then x.answer else ""
  }

  /** A request in the hands of its starter, its operation, its handler, or nobody. */
  ghost predicate Life(active: bool, x: Session, apps: seq<AppPc>, io: IoPc, id: Id) {
    match x.phase
    case Starting(a) =>
      && a < |apps| && AppStarts(apps[a], id)
      && x.wait.NoOp? && x.ec == 0 && x.outcomes == [] && x.reports == [] && x.response == ""
      && (active <==> apps[a].LeaveInsert? || apps[a].StartConnect?)
    case Waiting =>
      && x.wait.Op? && x.ec == 0 && x.outcomes == Zeros(Index(x.wait.op)) && x.reports == [] && x.response == ""
      && active
    case Running =>
      && IoRuns(io, id) && x.wait.NoOp? && x.reports == []
      && (active <==> !io.LeaveErase? && !io.Callback?)
      && x.response == (if Completing(io) then Reply(x) else "")
      && (if Completing(io) then Ended(x) && (io.held ==> x.cancelled)
          else if io.Entered? then
            && x.ec == 0 && x.outcomes == Zeros(Index(io.op)) + [io.code]
            && (io.op.Read? ==> x.answer == io.line)
          else x.ec == 0 && !io.op.Read? && x.outcomes == Zeros(Index(io.op) + 1))
    case Done =>
      && x.wait.NoOp? && !active && Ended(x) && x.response == Reply(x)
      && x.reports == [Report(x.response, Code(x.ec, x.cancelled))]
  }

  ghost predicate EachLives(s: State) {
    forall id | id in s.sessions :: Life(id in s.active, s.sessions[id], s.apps, s.io, id)
  }

  /** Nobody is busy with a request that is not his. */
  ghost predicate Starters(s: State) {
    forall a, id | 0 <= a < |s.apps| && AppStarts(s.apps[a], id) ::
      id in s.sessions && s.sessions[id].phase == Starting(a)
  }

  ghost predicate Finders(s: State) {
    forall a, id | 0 <= a < |s.apps| && AppFound(s.apps[a], id) :: id in s.active
  }

  ghost predicate Runner(s: State) {
    && (!s.io.Resting? ==> s.io.id in s.sessions)
    && (forall id | IoRuns(s.io, id) :: s.sessions[id].phase.Running?)
  }

  ghost predicate Lives(s: State) {
    s.active <= s.sessions.Keys && EachLives(s) && Starters(s) && Finders(s) && Runner(s)
  }

  /** A second cancel of the same request has been called. */
  ghost predicate Cancels(s: State) {
    && (forall id | id in s.sessions && s.sessions[id].cancelled :: s.cancels[id] >= 1)
    && (forall a, id | 0 <= a < |s.apps| && AppCancels(s.apps[a], id) :: s.cancels[id] >= 1)
    && (forall a, id | 0 <= a < |s.apps| && AppCancels(s.apps[a], id) && id in s.sessions && s.sessions[id].cancelled ::
          s.cancels[id] >= 2)
    && (forall a, b, id | 0 <= a < b < |s.apps| && AppCancels(s.apps[a], id) && AppCancels(s.apps[b], id) ::
          s.cancels[id] >= 2)
  }

  ghost predicate Inv(s: State) {
    Locks(s) && Lives(s) && Cancels(s)
  }

  // ---------- Every step keeps the locks ----------

  /** Nobody but thread u takes or leaves the table. */
  lemma OneTableMove(s: State, t: State, u: Thread)
    requires TableLock(s)
    requires forall v: Thread | v != u :: HasTable(t, v) <==> HasTable(s, v)
    requires if HasTable(t, u) then t.table == Some(u) && (HasTable(s, u) || s.table.None?)
             else t.table == if HasTable(s, u) then None else s.table
    ensures TableLock(t)
  {
    forall v: Thread ensures HasTable(t, v) <==> t.table == Some(v) {
      assert HasTable(s, v) <==> s.table == Some(v);
      assert HasTable(s, u) <==> s.table == Some(u);
    }
  }

  /** Nobody but thread u takes or leaves a guard. */
  lemma OneGuardMove(s: State, t: State, u: Thread)
    requires GuardLocks(s) && t.sessions.Keys == s.sessions.Keys
    requires forall id, v: Thread | v != u :: HasGuard(t, id, v) <==> HasGuard(s, id, v)
    requires forall id | id in s.sessions ::
      if HasGuard(t, id, u) then t.sessions[id].guard == Some(u) && (HasGuard(s, id, u) || s.sessions[id].guard.None?)
      else t.sessions[id].guard == if HasGuard(s, id, u) then None else s.sessions[id].guard
    ensures GuardLocks(t)
  {
    forall id, v: Thread | id in t.sessions ensures HasGuard(t, id, v) <==> t.sessions[id].guard == Some(v) {
      assert HasGuard(s, id, v) <==> s.sessions[id].guard == Some(v);
      assert HasGuard(s, id, u) <==> s.sessions[id].guard == Some(u);
    }
  }

  lemma AppKeepsTable(s: State, a: nat)
    requires TableLock(s) && AppEnabled(s, a)
    ensures TableLock(StepApp(s, a))
  {
    assert HasTable(s, App(a)) <==> s.table == Some(App(a));
    hide TableLock;
    OneTableMove(s, StepApp(s, a), App(a));
  }

  lemma AppKeepsGuards(s: State, a: nat)
    requires GuardLocks(s) && AppEnabled(s, a)
    ensures GuardLocks(StepApp(s, a))
  {
    hide StepApp, AppEnabled, HasGuard, AppFound, AppStarts;
    AppShape(s, a);
    forall id, v: Thread | v != App(a) ensures HasGuard(StepApp(s, a), id, v) <==> HasGuard(s, id, v) {
      OtherGuard(s, a, id, v);
    }
    forall id | id in s.sessions { AppGuard(s, a, id); }
    OneGuardMove(s, StepApp(s, a), App(a));
  }

  lemma OtherGuard(s: State, a: nat, id: Id, v: Thread)
    requires AppEnabled(s, a) && v != App(a)
    ensures HasGuard(StepApp(s, a), id, v) <==> HasGuard(s, id, v)
  {
    AppTables(s, a);
    hide StepApp, AppEnabled, AppHasGuard;
  }

  lemma AppGuard(s: State, a: nat, id: Id)
    requires AppEnabled(s, a) && id in s.sessions
    requires HasGuard(s, id, App(a)) <==> s.sessions[id].guard == Some(App(a))
    ensures
      var t, u := StepApp(s, a), App(a);
      && id in t.sessions
      && if HasGuard(t, id, u) then
           t.sessions[id].guard == Some(u) && (HasGuard(s, id, u) || s.sessions[id].guard.None?)
         else t.sessions[id].guard == if HasGuard(s, id, u) then None else s.sessions[id].guard
  {
  }

  lemma AppKeepsLocks(s: State, a: nat)
    requires Locks(s) && AppEnabled(s, a)
    ensures Locks(StepApp(s, a))
  {
    hide TableLock, GuardLocks, StepApp, AppEnabled;
    AppKeepsTable(s, a);
    AppKeepsGuards(s, a);
  }

  lemma IoKeepsTable(s: State)
    requires TableLock(s) && IoEnabled(s)
    ensures TableLock(StepIo(s))
  {
    assert HasTable(s, Io) <==> s.table == Some(Io);
    hide TableLock;
    OneTableMove(s, StepIo(s), Io);
  }

  lemma IoKeepsGuards(s: State)
    requires GuardLocks(s) && IoEnabled(s) && s.io.id in s.sessions
    ensures GuardLocks(StepIo(s))
  {
    hide StepIo, IoEnabled, IoHasGuard, AppHasGuard, IoRuns;
    IoShape(s);
    forall id | id in s.sessions { IoGuard(s, id); }
    OneGuardMove(s, StepIo(s), Io);
  }

  lemma IoGuard(s: State, id: Id)
    requires IoEnabled(s) && s.io.id in s.sessions && id in s.sessions
    requires HasGuard(s, id, Io) <==> s.sessions[id].guard == Some(Io)
    ensures
      var t := StepIo(s);
      && id in t.sessions
      && if HasGuard(t, id, Io) then
           t.sessions[id].guard == Some(Io) && (HasGuard(s, id, Io) || s.sessions[id].guard.None?)
         else t.sessions[id].guard == if HasGuard(s, id, Io) then None else s.sessions[id].guard
  {
  }

  lemma IoKeepsLocks(s: State)
    requires Locks(s) && IoEnabled(s) && s.io.id in s.sessions
    ensures Locks(StepIo(s))
  {
    hide TableLock, GuardLocks, StepIo, IoEnabled;
    IoKeepsTable(s);
    IoKeepsGuards(s);
  }

  lemma NobodyGuards(s: State, id: Id, v: Thread)
    requires Lives(s) && id !in s.sessions
    ensures !HasGuard(s, id, v)
  {
    assert v.App? && v.a < |s.apps| ==> !AppFound(s.apps[v.a], id);
  }

  lemma StartKeepsLocks(s: State, a: nat, id: Id)
    requires Locks(s) && Lives(s) && Enabled(s, Start(a, id))
    ensures Locks(Step(s, Start(a, id)))
  {
    var t := Step(s, Start(a, id));
    forall v: Thread ensures HasTable(t, v) <==> t.table == Some(v) {
      assert HasTable(s, v) <==> HasTable(t, v);
    }
    forall k, v: Thread | k in t.sessions ensures HasGuard(t, k, v) <==> t.sessions[k].guard == Some(v) {
      assert HasGuard(t, k, v) <==> HasGuard(s, k, v);
      if k == id {
        NobodyGuards(s, id, v);
      }
    }
  }

  lemma QuietKeepsLocks(s: State, e: Event)
    requires Locks(s) && Enabled(s, e) && (e.Cancel? || e.Complete? || e.Dispatch?)
    ensures Locks(Step(s, e))
  {
    var u := if e.Cancel? then App(e.a) else Io;
    assert HasTable(s, u) <==> s.table == Some(u);
    assert forall id | id in s.sessions :: HasGuard(s, id, u) <==> s.sessions[id].guard == Some(u);
    hide TableLock, GuardLocks;
    OneTableMove(s, Step(s, e), u);
    OneGuardMove(s, Step(s, e), u);
  }

  // ---------- Every step keeps the requests ----------

  lemma LifeElsewhere(active: bool, x: Session, apps: seq<AppPc>, io: IoPc, apps1: seq<AppPc>, io1: IoPc, id: Id)
    requires Life(active, x, apps, io, id)
    requires x.phase.Starting? ==> x.phase.a < |apps1| && apps1[x.phase.a] == apps[x.phase.a]
    requires x.phase.Running? ==> io1 == io
    ensures Life(active, x, apps1, io1, id)
  {
  }

  /** A session other than the one that thread a starts does not see a move. */
  lemma LifeBeside(s: State, a: nat, pc: AppPc, id: Id)
    requires Lives(s) && a < |s.apps| && id in s.sessions && !AppStarts(s.apps[a], id)
    ensures Life(id in s.active, s.sessions[id], s.apps[a := pc], s.io, id)
  {
    assert Life(id in s.active, s.sessions[id], s.apps, s.io, id);
    LifeElsewhere(id in s.active, s.sessions[id], s.apps, s.io, s.apps[a := pc], s.io, id);
  }

  /** What an application thread does to the session it is about. */
  lemma AppLife(s: State, a: nat, id: Id)
    requires Lives(s) && AppEnabled(s, a) && id in s.sessions
    requires AppStarts(s.apps[a], id) || AppFound(s.apps[a], id)
    ensures id in StepApp(s, a).sessions
    ensures Life(id in StepApp(s, a).active, StepApp(s, a).sessions[id], StepApp(s, a).apps, s.io, id)
  {
    assert Life(id in s.active, s.sessions[id], s.apps, s.io, id);
    assert AppStarts(s.apps[a], id) ==> s.sessions[id].phase == Starting(a);
    assert AppFound(s.apps[a], id) ==> id in s.active;
    hide Lives, Life, StepApp, AppEnabled;
    if AppStarts(s.apps[a], id) {
      StarterLife(s, a, id);
    } else {
      CancellerLife(s, a, id);
    }
  }

  lemma StarterLife(s: State, a: nat, id: Id)
    requires AppEnabled(s, a) && id in s.sessions && AppStarts(s.apps[a], id)
    requires Life(id in s.active, s.sessions[id], s.apps, s.io, id) && s.sessions[id].phase == Starting(a)
    ensures id in StepApp(s, a).sessions
    ensures Life(id in StepApp(s, a).active, StepApp(s, a).sessions[id], StepApp(s, a).apps, s.io, id)
  {
    hide Ended;
    assert Zeros(0) == [];
  }

  /** A cancel changes what no phase of the request looks at, except that it may end a waiting operation. */
  lemma CancellerLife(s: State, a: nat, id: Id)
    requires AppEnabled(s, a) && id in s.sessions && AppFound(s.apps[a], id) && id in s.active
    requires Life(id in s.active, s.sessions[id], s.apps, s.io, id)
    ensures id in StepApp(s, a).sessions
    ensures Life(id in StepApp(s, a).active, StepApp(s, a).sessions[id], StepApp(s, a).apps, s.io, id)
  {
    var x, t := s.sessions[id], StepApp(s, a);
    CancelSession(s, a, id);
    if x.phase.Starting? {
      assert x.phase.a != a;
    }
    hide StepApp, AppEnabled, AppFound;
    EndedCancelled(x, t.sessions[id]);
    hide Ended;
  }

  lemma CancelSession(s: State, a: nat, id: Id)
    requires AppEnabled(s, a) && id in s.sessions && AppFound(s.apps[a], id)
    ensures
      var x, t := s.sessions[id], StepApp(s, a);
      && t.apps == s.apps[a := t.apps[a]] && t.active == s.active && id in t.sessions
      && var y := t.sessions[id];
      && y.phase == x.phase && y.ec == x.ec && y.outcomes == x.outcomes && y.reports == x.reports
      && y.response == x.response
      && (y.wait == x.wait || y.wait == Aborted(x.wait)) && (x.cancelled ==> y.cancelled)
  {
  }

  lemma EndedCancelled(x: Session, y: Session)
    requires y.ec == x.ec && y.outcomes == x.outcomes && (x.cancelled ==> y.cancelled)
    ensures Ended(x) ==> Ended(y)
  {
  }

  lemma AppKeepsEach(s: State, a: nat)
    requires Lives(s) && AppEnabled(s, a)
    ensures EachLives(StepApp(s, a))
  {
    var t := StepApp(s, a);
    AppShape(s, a);
    hide Life, StepApp, AppEnabled, AppStarts, AppFound;
    forall id | id in t.sessions ensures Life(id in t.active, t.sessions[id], t.apps, t.io, id) {
      if AppStarts(s.apps[a], id) || AppFound(s.apps[a], id) {
        AppLife(s, a, id);
      } else {
        LifeBeside(s, a, t.apps[a], id);
      }
    }
  }

  lemma AppKeepsStarters(s: State, a: nat)
    requires Starters(s) && AppEnabled(s, a)
    ensures Starters(StepApp(s, a))
  {
    var t := StepApp(s, a);
    AppShape(s, a);
    if s.apps[a].StartConnect? { ConnectedLast(s, a); }
    hide StepApp, AppEnabled, AppStarts, AppFound;
    assert forall b | 0 <= b < |s.apps| && b != a :: t.apps[b] == s.apps[b];
    forall b, id | 0 <= b < |t.apps| && AppStarts(t.apps[b], id)
      ensures id in t.sessions && t.sessions[id].phase == Starting(b)
    {
      assert AppStarts(s.apps[b], id);
      assert s.apps[a] == StartConnect(id) ==> AppStarts(s.apps[a], id) by { StartsConnect(id); }
    }
  }

  lemma StartsConnect(id: Id)
    ensures AppStarts(StartConnect(id), id)
  {
  }

  lemma AppKeepsOwners(s: State, a: nat)
    requires Starters(s) && Finders(s) && Runner(s) && AppEnabled(s, a)
    ensures Finders(StepApp(s, a)) && Runner(StepApp(s, a))
  {
    var t := StepApp(s, a);
    AppShape(s, a);
    assert forall id | s.apps[a] == StartConnect(id) :: s.sessions[id].phase == Starting(a) by {
      assert s.apps[a].StartConnect? ==> AppStarts(s.apps[a], s.apps[a].id);
    }
    hide StepApp, AppEnabled, AppStarts, AppFound, Starters;
    assert forall b | 0 <= b < |s.apps| && b != a :: t.apps[b] == s.apps[b];
  }

  lemma ConnectedLast(s: State, a: nat)
    requires AppEnabled(s, a) && s.apps[a].StartConnect?
    ensures forall id :: !AppStarts(StepApp(s, a).apps[a], id)
  {
  }

  lemma AppKeepsLives(s: State, a: nat)
    requires Lives(s) && AppEnabled(s, a)
    ensures Lives(StepApp(s, a))
  {
    AppKeepsEach(s, a);
    AppKeepsStarters(s, a);
    AppKeepsOwners(s, a);
    AppShape(s, a);
    hide EachLives, Starters, Finders, Runner, StepApp;
  }

  lemma AppTables(s: State, a: nat)
    requires AppEnabled(s, a)
    ensures var t := StepApp(s, a);
            && t.apps == s.apps[a := t.apps[a]] && t.io == s.io && t.cancels == s.cancels
            && t.sessions.Keys == s.sessions.Keys
            && s.active <= t.active && (forall id | id in t.active :: id in s.active || s.apps[a] == Insert(id))
  {
  }

  lemma AppSession(s: State, a: nat, id: Id)
    requires AppEnabled(s, a) && id in s.sessions
    ensures var t := StepApp(s, a);
            && id in t.sessions
            && (!AppStarts(s.apps[a], id) && !AppFound(s.apps[a], id) ==>
                  t.sessions[id] == s.sessions[id] && (id in t.active <==> id in s.active))
            && (t.sessions[id].phase == s.sessions[id].phase || s.apps[a] == StartConnect(id))
  {
  }

  lemma AppNext(s: State, a: nat)
    requires AppEnabled(s, a)
    ensures var pc := StepApp(s, a).apps[a];
            && (forall id | AppStarts(pc, id) :: AppStarts(s.apps[a], id))
            && (forall id | AppFound(pc, id) :: id in s.active || AppFound(s.apps[a], id))
            && (forall id | s.apps[a] == Insert(id) :: AppStarts(s.apps[a], id))
  {
  }

  /** An application thread changes at most the session it is about. */
  lemma AppShape(s: State, a: nat)
    requires AppEnabled(s, a)
    ensures var t := StepApp(s, a);
            && t.apps == s.apps[a := t.apps[a]] && t.io == s.io && t.cancels == s.cancels
            && s.active <= t.active && (forall id | id in t.active :: id in s.active || AppStarts(s.apps[a], id))
            && (forall id | id in s.sessions ::
                  && id in t.sessions
                  && (!AppStarts(s.apps[a], id) && !AppFound(s.apps[a], id) ==>
                        t.sessions[id] == s.sessions[id] && (id in t.active <==> id in s.active))
                  && (t.sessions[id].phase == s.sessions[id].phase || s.apps[a] == StartConnect(id)))
            && t.sessions.Keys == s.sessions.Keys
            && (forall id | AppStarts(t.apps[a], id) :: AppStarts(s.apps[a], id))
            && (forall id | AppFound(t.apps[a], id) :: id in s.active || AppFound(s.apps[a], id))
  {
    hide StepApp, AppStarts, AppFound, AppEnabled;
    AppTables(s, a);
    AppNext(s, a);
    forall id | id in s.sessions { AppSession(s, a, id); }
  }

  /** What a step of the I/O thread does to the session of its handler. */
  lemma IoLife(s: State)
    requires Lives(s) && IoEnabled(s)
    ensures var t, id := StepIo(s), s.io.id;
            id in t.sessions && Life(id in t.active, t.sessions[id], s.apps, t.io, id)
  {
    var id := s.io.id;
    var x := s.sessions[id];
    assert Life(id in s.active, x, s.apps, s.io, id);
    assert IoRuns(s.io, id) ==> x.phase.Running?;
    hide Lives;
    if s.io.Entered? {
      EnteredLife(s);
    } else {
      hide Ended;
    }
  }

  /** The first test of a handler. */
  lemma EnteredLife(s: State)
    requires s.io.Entered? && s.io.id in s.sessions
    requires Life(s.io.id in s.active, s.sessions[s.io.id], s.apps, s.io, s.io.id)
    requires s.sessions[s.io.id].phase.Running?
    ensures
      var t, id := StepIo(s), s.io.id;
      id in t.sessions && Life(id in t.active, t.sessions[id], s.apps, t.io, id)
  {
    var z := Zeros(Index(s.io.op));
    assert z + [0] == Zeros(Index(s.io.op) + 1);
    assert s.io.code != 0 ==> (z + [s.io.code])[|z|] != 0;
    assert Zeros(3) == [0, 0, 0];
  }

  /** The I/O thread changes at most the session of its handler. */
  lemma IoShape(s: State)
    requires IoEnabled(s) && s.io.id in s.sessions
    ensures var t := StepIo(s);
            && t.apps == s.apps && t.cancels == s.cancels && t.sessions.Keys == s.sessions.Keys
            && t.active == (if s.io.Erase? then s.active - {s.io.id} else s.active)
            && (forall id | id in s.sessions && id != s.io.id :: t.sessions[id] == s.sessions[id])
            && (!t.io.Resting? ==> t.io.id == s.io.id)
            && (IoRuns(t.io, s.io.id) ==>
                  IoRuns(s.io, s.io.id) && t.sessions[s.io.id].phase == s.sessions[s.io.id].phase)
            && (!IoRuns(s.io, s.io.id) ==> t.sessions[s.io.id].phase == s.sessions[s.io.id].phase)
            && t.sessions[s.io.id].cancelled == s.sessions[s.io.id].cancelled
  {
  }

  lemma IoKeepsEach(s: State)
    requires Lives(s) && IoEnabled(s)
    ensures EachLives(StepIo(s))
  {
    var t := StepIo(s);
    IoShape(s);
    IoLife(s);
    hide Life, StepIo, IoEnabled;
    forall id | id in t.sessions ensures Life(id in t.active, t.sessions[id], t.apps, t.io, id) {
      if id != s.io.id {
        assert Life(id in s.active, s.sessions[id], s.apps, s.io, id);
        RunsOnly(id in s.active, s.sessions[id], s.apps, s.io, id);
        LifeElsewhere(id in s.active, s.sessions[id], s.apps, s.io, s.apps, t.io, id);
      }
    }
  }

  lemma RunsOnly(active: bool, x: Session, apps: seq<AppPc>, io: IoPc, id: Id)
    requires Life(active, x, apps, io, id)
    ensures x.phase.Running? ==> IoRuns(io, id)
  {
  }

  lemma IoKeepsOwners(s: State)
    requires Locks(s) && Lives(s) && IoEnabled(s)
    ensures Starters(StepIo(s)) && Finders(StepIo(s)) && Runner(StepIo(s))
  {
    hide StepIo, IoEnabled, EachLives, TableLock, GuardLocks;
    IoKnown(s);
    IoShape(s);
    IoKeepsFinders(s);
    hide AppStarts, Finders, IoHasTable, AppHasTable, IoRuns;
    assert forall a, id | 0 <= a < |s.apps| && AppStarts(s.apps[a], id) :: s.sessions[id].phase == Starting(a);
    assert IoRuns(s.io, s.io.id) ==> s.sessions[s.io.id].phase.Running?;
  }

  lemma IoKnown(s: State)
    requires Runner(s) && IoEnabled(s)
    ensures !s.io.Resting? && s.io.id in s.sessions
  {
  }

  /** The I/O thread erases only while it has the table, and then no cancel has found the session. */
  lemma IoKeepsFinders(s: State)
    requires TableLock(s) && Finders(s) && IoEnabled(s) && s.io.id in s.sessions
    ensures Finders(StepIo(s))
  {
    hide StepIo, IoEnabled;
    IoShape(s);
    var t := StepIo(s);
    forall a, id | 0 <= a < |t.apps| && AppFound(t.apps[a], id) ensures id in t.active {
      assert HasTable(s, App(a)) && (s.io.Erase? ==> HasTable(s, Io));
    }
  }

  lemma IoKeepsLives(s: State)
    requires Locks(s) && Lives(s) && IoEnabled(s)
    ensures Lives(StepIo(s))
  {
    IoKeepsEach(s);
    IoKeepsOwners(s);
    IoShape(s);
    hide EachLives, Starters, Finders, Runner, StepIo, IoEnabled, Locks;
  }

  lemma StartKeepsLives(s: State, a: nat, id: Id)
    requires Lives(s) && Enabled(s, Start(a, id))
    ensures Lives(Step(s, Start(a, id)))
  {
    hide Life;
    var t := Step(s, Start(a, id));
    forall k | k in t.sessions ensures Life(k in t.active, t.sessions[k], t.apps, t.io, k) {
      if k == id {
        BornAlive(t.apps, t.io, a, id);
      } else {
        LifeBeside(s, a, WantInsert(id), k);
      }
    }
  }

  lemma BornAlive(apps: seq<AppPc>, io: IoPc, a: nat, id: Id)
    requires a < |apps| && apps[a] == WantInsert(id)
    ensures Life(false, NewSession(a), apps, io, id)
  {
  }

  lemma CancelKeepsLives(s: State, a: nat, id: Id)
    requires Lives(s) && Enabled(s, Cancel(a, id))
    ensures Lives(Step(s, Cancel(a, id)))
  {
    hide Life;
    var t := Step(s, Cancel(a, id));
    forall k | k in t.sessions ensures Life(k in t.active, t.sessions[k], t.apps, t.io, k) {
      LifeBeside(s, a, WantFind(id), k);
    }
  }

  lemma CompleteKeepsLives(s: State, id: Id, code: int, line: string)
    requires Lives(s) && Enabled(s, Complete(id, code, line))
    ensures Lives(Step(s, Complete(id, code, line)))
  {
    var t := Step(s, Complete(id, code, line));
    assert Life(id in s.active, s.sessions[id], s.apps, s.io, id);
    assert Life(id in t.active, t.sessions[id], t.apps, t.io, id);
    hide Life;
  }

  lemma DispatchKeepsLives(s: State, id: Id)
    requires Lives(s) && Enabled(s, Dispatch(id))
    ensures Lives(Step(s, Dispatch(id)))
  {
    var t := Step(s, Dispatch(id));
    assert Life(id in s.active, s.sessions[id], s.apps, s.io, id);
    assert Life(id in t.active, t.sessions[id], t.apps, t.io, id);
    forall k | k in t.sessions ensures Life(k in t.active, t.sessions[k], t.apps, t.io, k) {
      if k != id {
        assert Life(k in s.active, s.sessions[k], s.apps, s.io, k);
        LifeElsewhere(k in s.active, s.sessions[k], s.apps, s.io, t.apps, t.io, k);
      }
    }
    hide Life;
  }

  // ---------- Every step keeps the count of cancels ----------

  lemma AppCancelShape(s: State, a: nat)
    requires AppEnabled(s, a)
    ensures var t := StepApp(s, a);
            && (forall id | AppCancels(t.apps[a], id) :: AppCancels(s.apps[a], id))
            && (forall id | id in t.sessions && t.sessions[id].cancelled ::
                  id in s.sessions
                  && (s.sessions[id].cancelled || (AppCancels(s.apps[a], id) && !AppCancels(t.apps[a], id))))
  {
  }

  lemma AppKeepsCancels(s: State, a: nat)
    requires Cancels(s) && AppEnabled(s, a)
    ensures Cancels(StepApp(s, a))
  {
    AppShape(s, a);
    AppCancelShape(s, a);
    hide StepApp, AppEnabled, AppCancels, AppStarts, AppFound;
    var t := StepApp(s, a);
    assert forall b | 0 <= b < |s.apps| && b != a :: t.apps[b] == s.apps[b];
    forall b, id | 0 <= b < |t.apps| && AppCancels(t.apps[b], id) && id in t.sessions && t.sessions[id].cancelled
      ensures t.cancels[id] >= 2
    {
      assert AppCancels(s.apps[b], id);
    }
    forall b, c, id | 0 <= b < c < |t.apps| && AppCancels(t.apps[b], id) && AppCancels(t.apps[c], id)
      ensures t.cancels[id] >= 2
    {
      assert AppCancels(s.apps[b], id) && AppCancels(s.apps[c], id);
    }
  }

  lemma CallKeepsCancels(s: State, a: nat, id: Id)
    requires Cancels(s) && Enabled(s, Cancel(a, id))
    ensures Cancels(Step(s, Cancel(a, id)))
  {
    hide AppCancels;
    CancelledBy(id);
    var t := Step(s, Cancel(a, id));
    assert !s.apps[a].WantFind? && forall b | 0 <= b < |s.apps| && b != a :: t.apps[b] == s.apps[b];
  }

  lemma CancelledBy(id: Id)
    ensures forall k :: AppCancels(WantFind(id), k) <==> k == id
  {
  }

  lemma QuietKeepsCancels(s: State, e: Event)
    requires Cancels(s) && Enabled(s, e) && (e.Start? || e.Complete? || e.Dispatch?)
    ensures Cancels(Step(s, e))
  {
    var t := Step(s, e);
    assert forall b, k | 0 <= b < |t.apps| && AppCancels(t.apps[b], k) :: AppCancels(s.apps[b], k);
    assert forall k | k in t.sessions && t.sessions[k].cancelled :: k in s.sessions && s.sessions[k].cancelled;
    hide AppCancels, Step, Enabled;
  }

  lemma IoKeepsCancels(s: State)
    requires Cancels(s) && Lives(s) && IoEnabled(s)
    ensures Cancels(StepIo(s))
  {
    IoShape(s);
    hide StepIo, IoEnabled, AppCancels, Lives, IoRuns;
    var t := StepIo(s);
    assert forall k | k in t.sessions :: t.sessions[k].cancelled == s.sessions[k].cancelled;
  }

  // ---------- Every run ----------

  lemma StepKeepsInv(s: State, e: Event)
    requires Inv(s) && Enabled(s, e)
    ensures Inv(Step(s, e))
  {
    hide Locks, Lives, Cancels, StepApp, StepIo;
    match e
    case AppStep(a) => AppKeepsLocks(s, a); AppKeepsLives(s, a); AppKeepsCancels(s, a);
    case IoStep => KnownSession(s); IoKeepsLocks(s); IoKeepsLives(s); IoKeepsCancels(s);
    case Start(a, id) => StartKeepsLocks(s, a, id); StartKeepsLives(s, a, id); QuietKeepsCancels(s, e);
    case Cancel(a, id) => QuietKeepsLocks(s, e); CancelKeepsLives(s, a, id); CallKeepsCancels(s, a, id);
    case Complete(id, code, line) =>
      QuietKeepsLocks(s, e); CompleteKeepsLives(s, id, code, line); QuietKeepsCancels(s, e);
    case Dispatch(id) => QuietKeepsLocks(s, e); DispatchKeepsLives(s, id); QuietKeepsCancels(s, e);
  }

  lemma KnownSession(s: State)
    requires Lives(s) && !s.io.Resting?
    ensures s.io.id in s.sessions
  {
  }

  ghost predicate Run(s: State, es: seq<Event>, t: State)
    decreases |es|
  {
    if es == [] then t == s else Enabled(s, es[0]) && Run(Step(s, es[0]), es[1..], t)
  }

  lemma {:induction false} RunKeepsInv(s: State, es: seq<Event>, t: State)
    requires Inv(s) && Run(s, es, t)
    ensures Inv(t)
    decreases |es|
  {
    hide Inv, Step, Enabled;
    if es != [] {
      StepKeepsInv(s, es[0]);
      RunKeepsInv(Step(s, es[0]), es[1..], t);
    }
  }

  ghost predicate Reachable(n: nat, s: State) {
    exists es :: Run(Initial(n), es, s)
  }

  lemma ReachableInv(n: nat, s: State)
    requires Reachable(n, s)
    ensures Inv(s)
  {
    hide Inv;
    var es :| Run(Initial(n), es, s);
    InitialInv(n);
    RunKeepsInv(Initial(n), es, s);
  }

  lemma InitialInv(n: nat)
    ensures Inv(Initial(n))
  {
  }

  predicate AllIdle(s: State) {
    s.io.Resting? && forall a | 0 <= a < |s.apps| :: s.apps[a].Idle?
  }

  /**
    Exactly once: no request is ever reported twice, and whenever all threads are idle each
    request either waits for its operation or has been reported; it waits at most three times.
   */
  lemma ExactlyOnce(n: nat, s: State, id: Id)
    requires Reachable(n, s) && id in s.sessions
    ensures |s.sessions[id].reports| <= 1
    ensures AllIdle(s) ==> (s.sessions[id].wait.Op? <==> s.sessions[id].reports == [])
    ensures |s.sessions[id].outcomes| <= 3 && (s.sessions[id].wait.Op? ==> |s.sessions[id].outcomes| < 3)
  {
    ReachableInv(n, s);
    assert Life(id in s.active, s.sessions[id], s.apps, s.io, id);
  }

  /**
    The report, judged by the session as it is at any later time: the code of the operation
    that failed, else that of an aborted operation exactly if the request has been cancelled;
    it is a success exactly if connect, write and read all succeeded and nobody cancelled.
   */
  lemma ReportedCode(n: nat, s: State, id: Id, r: Report)
    requires Reachable(n, s) && id in s.sessions && s.sessions[id].reports == [r]
    ensures var x := s.sessions[id];
            && r.response == (if x.outcomes == [0, 0, 0] then x.answer else "")
            && r.code == (if x.ec != 0 then x.ec else if x.cancelled then 125 else 0)
            && (x.ec != 0 ==> exists k: nat :: k < 3 && x.outcomes == Zeros(k) + [x.ec])
            && (r.code == 0 <==> x.outcomes == Zeros(3) && !x.cancelled)
  {
    ReachableInv(n, s);
    var x := s.sessions[id];
    assert Life(id in s.active, x, s.apps, s.io, id);
    assert forall k: nat :: k < 3 && x.ec != 0 ==> Zeros(3)[k] != (Zeros(k) + [x.ec])[k];
    assert Zeros(3) == [0, 0, 0];
  }

  // ---------- What a cancel does to the operation ----------

  /** A cancelled request has an operation pending only before the cancel reaches the socket, or in its connect. */
  ghost predicate Reached(s: State, id: Id) {
    id in s.sessions && s.sessions[id].cancelled && s.sessions[id].wait.Op? && s.sessions[id].wait.outcome.Pending? ==>
      s.sessions[id].wait.op.Connect? || exists a :: 0 <= a < |s.apps| && s.apps[a] == CancelSocket(id)
  }

  lemma StepReached(s: State, e: Event, id: Id)
    requires Enabled(s, e) && Reached(s, id)
    ensures Reached(Step(s, e), id)
  {
    if e.AppStep? {
      AppReached(s, e.a, id);
    } else {
      if id in Step(s, e).sessions {
        OtherWaits(s, e, id);
      }
      if a :| 0 <= a < |s.apps| && s.apps[a] == CancelSocket(id) {
        OtherCancels(s, e, a, id);
      }
      hide Step, Enabled;
    }
  }

  /** Away from the application's threads an operation starts only for a request not cancelled. */
  lemma OtherWaits(s: State, e: Event, id: Id)
    requires Enabled(s, e) && !e.AppStep? && id in Step(s, e).sessions
    ensures
      var y := Step(s, e).sessions[id];
      y.cancelled && y.wait.Op? && y.wait.outcome.Pending? ==>
        id in s.sessions && s.sessions[id].cancelled && s.sessions[id].wait == y.wait
  {
  }

  lemma OtherCancels(s: State, e: Event, a: nat, id: Id)
    requires Enabled(s, e) && !e.AppStep? && a < |s.apps| && s.apps[a] == CancelSocket(id)
    ensures a < |Step(s, e).apps| && Step(s, e).apps[a] == CancelSocket(id)
  {
  }

  lemma AppReached(s: State, a: nat, id: Id)
    requires AppEnabled(s, a) && Reached(s, id)
    ensures Reached(StepApp(s, a), id)
  {
    AppTables(s, a);
    if id in s.sessions {
      ToSocket(s, a, id);
      hide StepApp, AppEnabled;
      if b :| 0 <= b < |s.apps| && b != a && s.apps[b] == CancelSocket(id) {
        assert StepApp(s, a).apps[b] == CancelSocket(id);
      }
    }
  }

  /** What one step of an application thread does to a session whose operation is pending. */
  lemma ToSocket(s: State, a: nat, id: Id)
    requires AppEnabled(s, a) && id in s.sessions
    ensures
      var x, t := s.sessions[id], StepApp(s, a);
      && id in t.sessions && a < |t.apps|
      && var y := t.sessions[id];
      && (s.apps[a] == SetFlag(id) ==> t.apps[a] == CancelSocket(id))
      && (s.apps[a] == StartConnect(id) ==> y.wait.Op? ==> y.wait.op.Connect?)
      && (s.apps[a] == CancelSocket(id) ==> y.wait.Op? ==> !y.wait.outcome.Pending?)
      && (s.apps[a] != SetFlag(id) ==> y.cancelled == x.cancelled)
      && (s.apps[a] != StartConnect(id) && s.apps[a] != CancelSocket(id) ==> y.wait == x.wait)
  {
  }

  lemma {:induction false} RunReached(s: State, es: seq<Event>, t: State, id: Id)
    requires Reached(s, id) && Run(s, es, t)
    ensures Reached(t, id)
    decreases |es|
  {
    hide Reached, Step, Enabled;
    if es != [] {
      StepReached(s, es[0], id);
      RunReached(Step(s, es[0]), es[1..], t, id);
    }
  }

  /**
    A cancel does reach the operation.  Its step at the socket ends an operation that is
    pending, as aborted, and touches no other; and whenever a cancelled request has an operation
    pending, that step is still to come, or it is the connect, begun after the cancel.
   */
  lemma CancelReachesSocket(n: nat, s: State, id: Id)
    requires Reachable(n, s) && id in s.sessions
    ensures s.sessions[id].cancelled && s.sessions[id].wait.Op? && s.sessions[id].wait.outcome.Pending? ==>
              s.sessions[id].wait.op.Connect? || exists a :: 0 <= a < |s.apps| && s.apps[a] == CancelSocket(id)
    ensures forall a | 0 <= a < |s.apps| && s.apps[a] == CancelSocket(id) ::
              && AppEnabled(s, a) && id in StepApp(s, a).sessions
              && var w := s.sessions[id].wait;
                 StepApp(s, a).sessions[id].wait
                 == if w.Op? && w.outcome.Pending? then Op(w.op, Finished(125, "")) else w
  {
    var es :| Run(Initial(n), es, s);
    RunReached(Initial(n), es, s, id);
  }

  /** The table holds exactly the requests inserted by their starter and not yet erased. */
  lemma ActiveExactly(n: nat, s: State, id: Id)
    requires Reachable(n, s)
    ensures id in s.active <==>
            id in s.sessions
            && match s.sessions[id].phase
               case Starting(a) => a < |s.apps| && (s.apps[a] == LeaveInsert(id) || s.apps[a] == StartConnect(id))
               case Waiting => true
               case Running => !s.io.LeaveErase? && !s.io.Callback?
               case Done => false
  {
    ReachableInv(n, s);
    if id in s.sessions {
      assert Life(id in s.active, s.sessions[id], s.apps, s.io, id);
    }
  }

  // ---------- Lock order ----------

  /** The I/O thread holds the guard of id and wants the table; application thread a the other way round. */
  predicate Deadlocked(s: State, a: nat, id: Id) {
    s.io == WantErase(id, true) && a < |s.apps| && s.apps[a] == WantGuard(id)
  }

  ghost predicate ThreadCanMove(s: State) {
    IoEnabled(s) || exists a :: AppEnabled(s, a)
  }

  lemma TableHolder(s: State, t: Thread)
    requires Inv(s) && s.table == Some(t)
    ensures HasTable(s, t)
  {
  }

  lemma GuardHolder(s: State, id: Id, t: Thread)
    requires Inv(s) && id in s.sessions && s.sessions[id].guard == Some(t)
    ensures HasGuard(s, id, t) && (t.App? ==> s.table == Some(t))
  {
    assert HasGuard(s, id, t);
    assert t.App? ==> HasTable(s, t);
  }

  lemma IoMoves(s: State)
    requires Inv(s) && s.table.None? && !s.io.Resting?
    ensures IoEnabled(s)
  {
    if s.io.NeedGuard? && s.sessions[s.io.id].guard.Some? {
      GuardHolder(s, s.io.id, s.sessions[s.io.id].guard.value);
    }
  }

  lemma HolderMoves(s: State, a: nat)
    requires Inv(s) && s.table == Some(App(a))
    ensures AppEnabled(s, a) || IoEnabled(s) || exists id :: Deadlocked(s, a, id)
  {
    TableHolder(s, App(a));
    var pc := s.apps[a];
    if pc.WantGuard? {
      assert AppFound(pc, pc.id);
      if s.sessions[pc.id].guard.Some? {
        GuardHolder(s, pc.id, s.sessions[pc.id].guard.value);
        if !IoEnabled(s) {
          assert Deadlocked(s, a, pc.id);
        }
      }
    } else if !pc.LeaveFind? && !pc.Find? {
      assert AppStarts(pc, pc.id) || AppFound(pc, pc.id);
    }
  }

  lemma FreeTableMoves(s: State, a: nat)
    requires Inv(s) && s.table.None? && a < |s.apps| && !s.apps[a].Idle?
    ensures AppEnabled(s, a)
  {
    assert !HasTable(s, App(a));
    assert s.apps[a].StartConnect? ==> AppStarts(s.apps[a], s.apps[a].id);
  }

  /** The only way in which unfinished calls can all be stuck is that cycle of two locks. */
  lemma StuckIsCycle(n: nat, s: State)
    requires Reachable(n, s) && !AllIdle(s) && !ThreadCanMove(s)
    ensures exists a, id :: Deadlocked(s, a, id)
  {
    ReachableInv(n, s);
    hide Inv, AppEnabled, IoEnabled;
    match s.table
    case Some(App(a)) => HolderMoves(s, a);
    case Some(Io) => TableHolder(s, Io); HolderIo(s);
    case None =>
      if !s.io.Resting? {
        IoMoves(s);
      } else {
        var a :| 0 <= a < |s.apps| && !s.apps[a].Idle?;
        FreeTableMoves(s, a);
      }
  }

  lemma HolderIo(s: State)
    requires IoHasTable(s.io)
    ensures IoEnabled(s)
  {
  }

  /** It takes two calls of cancelRequest for the same request. */
  lemma CycleNeedsTwoCancels(n: nat, s: State, a: nat, id: Id)
    requires Reachable(n, s) && Deadlocked(s, a, id)
    ensures s.cancels[id] >= 2
  {
    ReachableInv(n, s);
    assert Life(id in s.active, s.sessions[id], s.apps, s.io, id);
    assert IoRuns(s.io, id) && AppCancels(s.apps[a], id);
  }

  /** If each request is cancelled at most once, some unfinished call can always go on. */
  lemma NoDeadlock(n: nat, s: State)
    requires Reachable(n, s) && forall id :: s.cancels[id] <= 1
    ensures AllIdle(s) || ThreadCanMove(s)
  {
    if !AllIdle(s) && !ThreadCanMove(s) {
      StuckIsCycle(n, s);
      var a, id :| Deadlocked(s, a, id);
      CycleNeedsTwoCancels(n, s, a, id);
    }
  }

  // ---------- Progress ----------

  /** A step that threads take, or that ends an operation, once requests and cancels have been called. */
  predicate Progress(e: Event) {
    !e.Start? && !e.Cancel?
  }

  /** Steps an application thread still owes to its call. */
  function AppOwes(pc: AppPc): nat {
    match pc
    case Idle => 0
    case StartConnect(_) => 1
    case LeaveInsert(_) => 2
    case Insert(_) => 3
    case WantInsert(_) => 4
    case LeaveFind => 1
    case LeaveGuard(_) => 2
    case CancelSocket(_) => 3
    case SetFlag(_) => 4
    case WantGuard(_) => 5
    case Find(_) => 6
    case WantFind(_) => 7
  }

  /** Ten steps are enough for the handler of an operation and the start of the next. */
  function OpsLeft(op: Operation): nat {
    10 * (3 - Index(op))
  }

  /** Steps still to come for a request that is not in the hands of a handler. */
  function SessionOwes(x: Session): nat {
    match x.phase
    case Starting(_) => 32
    case Waiting => if x.wait.NoOp? then 0 else OpsLeft(x.wait.op) + (if x.wait.outcome.Pending? then 1 else 0)
    case Running => 0
    case Done => 0
  }

  function IoOwes(pc: IoPc): nat {
    match pc
    case Resting => 0
    case LeaveHandler(_) => 1
    case Callback(_, _) => 2
    case LeaveErase(_, _) => 3
    case Erase(_, _) => 4
    case WantErase(_, _) => 5
    case Decide(_, op) => OpsLeft(op) - 3
    case NeedGuard(_, op) => OpsLeft(op) - 2
    case Entered(_, op, _, _) => OpsLeft(op) - 1
  }

  function AllAppsOwe(apps: seq<AppPc>): nat {
    if apps == [] then 0 else AppOwes(apps[0]) + AllAppsOwe(apps[1..])
  }

  /** ids lists the requests once each. */
  function AllSessionsOwe(sessions: map<Id, Session>, ids: seq<Id>): nat {
    if ids == [] then 0
    else (if ids[0] in sessions then SessionOwes(sessions[ids[0]]) else 0) + AllSessionsOwe(sessions, ids[1..])
  }

  ghost predicate Lists(s: State, ids: seq<Id>) {
    && (forall id :: id in ids <==> id in s.sessions)
    && (forall i, j | 0 <= i < j < |ids| :: ids[i] != ids[j])
  }

  function WorkLeft(s: State, ids: seq<Id>): nat {
    AllAppsOwe(s.apps) + IoOwes(s.io) + AllSessionsOwe(s.sessions, ids)
  }

  lemma {:induction false} AppsOweAt(apps: seq<AppPc>, a: nat, pc: AppPc)
    requires a < |apps|
    ensures AllAppsOwe(apps[a := pc]) + AppOwes(apps[a]) == AllAppsOwe(apps) + AppOwes(pc)
  {
    if a > 0 {
      AppsOweAt(apps[1..], a - 1, pc);
      assert apps[a := pc][1..] == apps[1..][a - 1 := pc];
    } else {
      assert apps[a := pc][1..] == apps[1..];
    }
  }

  lemma {:induction false} SessionsOweSame(a: map<Id, Session>, b: map<Id, Session>, ids: seq<Id>)
    requires forall id | id in ids :: id in a && id in b && a[id] == b[id]
    ensures AllSessionsOwe(a, ids) == AllSessionsOwe(b, ids)
  {
    hide SessionOwes;
    if ids == [] {
    } else {
      var id := ids[0];
      assert id in ids && a[id] == b[id];
      SessionsOweSame(a, b, ids[1..]);
      assert SessionOwes(a[id]) == SessionOwes(b[id]);
    }
  }

  lemma {:induction false} SessionsOweAt(a: map<Id, Session>, b: map<Id, Session>, ids: seq<Id>, id: Id)
    requires a.Keys == b.Keys && id in ids && (forall k | k in ids :: k in a)
    requires forall i, j | 0 <= i < j < |ids| :: ids[i] != ids[j]
    requires forall k | k in a && k != id :: a[k] == b[k]
    ensures AllSessionsOwe(b, ids) + SessionOwes(a[id]) == AllSessionsOwe(a, ids) + SessionOwes(b[id])
  {
    hide SessionOwes;
    if ids[0] == id {
      SessionsOweSame(a, b, ids[1..]);
    } else {
      assert ids[0] in ids && id in ids[1..];
      SessionsOweAt(a, b, ids[1..], id);
    }
  }

  /** The request that an application thread is starting, or has found. */
  predicate About(pc: AppPc, id: Id) {
    AppStarts(pc, id) || AppFound(pc, id)
  }

  lemma AppWorks(s: State, a: nat, id: Id)
    requires Lives(s) && AppEnabled(s, a) && About(s.apps[a], id)
    ensures id in s.sessions
    ensures var t := StepApp(s, a);
            && t.sessions.Keys == s.sessions.Keys
            && AppOwes(t.apps[a]) + SessionOwes(t.sessions[id]) < AppOwes(s.apps[a]) + SessionOwes(s.sessions[id])
  {
    assert AppStarts(s.apps[a], id) ==> s.sessions[id].phase == Starting(a);
    assert Life(id in s.active, s.sessions[id], s.apps, s.io, id) by { assert id in s.sessions; }
    hide Lives, Ended;
    if AppFound(s.apps[a], id) {
      CancelSession(s, a, id);
      CancelOwes(s, a, id);
      hide StepApp, AppEnabled, AppFound, AppStarts, AppOwes, Life, OpsLeft;
    } else {
      hide Life;
    }
  }

  lemma CancelOwes(s: State, a: nat, id: Id)
    requires AppEnabled(s, a) && AppFound(s.apps[a], id)
    ensures StepApp(s, a).sessions.Keys == s.sessions.Keys && AppOwes(StepApp(s, a).apps[a]) < AppOwes(s.apps[a])
  {
  }

  lemma AppAloneWorks(s: State, a: nat)
    requires AppEnabled(s, a) && forall id :: !About(s.apps[a], id)
    ensures var t := StepApp(s, a);
            t.sessions == s.sessions && AppOwes(t.apps[a]) < AppOwes(s.apps[a])
  {
    var pc := s.apps[a];
    assert !pc.LeaveFind? ==> !About(pc, pc.id);
  }

  lemma AppProgress(s: State, a: nat, ids: seq<Id>)
    requires Lives(s) && AppEnabled(s, a) && Lists(s, ids)
    ensures Lists(StepApp(s, a), ids) && WorkLeft(StepApp(s, a), ids) < WorkLeft(s, ids)
  {
    var t := StepApp(s, a);
    AppShape(s, a);
    AppsOweAt(s.apps, a, t.apps[a]);
    if id :| About(s.apps[a], id) {
      AppWorks(s, a, id);
      OnlyAbout(s, a, id);
      SessionsOweAt(s.sessions, t.sessions, ids, id);
    } else {
      AppAloneWorks(s, a);
    }
    hide StepApp, AppEnabled, AppStarts, AppFound, Lives, AllAppsOwe, AllSessionsOwe, AppOwes, SessionOwes;
  }

  lemma OnlyAbout(s: State, a: nat, id: Id)
    requires AppEnabled(s, a) && About(s.apps[a], id)
    ensures forall k | k in s.sessions && k != id ::
              k in StepApp(s, a).sessions && StepApp(s, a).sessions[k] == s.sessions[k]
  {
  }

  lemma IoWorks(s: State)
    requires Lives(s) && IoEnabled(s)
    ensures var t, id := StepIo(s), s.io.id;
            && id in s.sessions && id in t.sessions
            && IoOwes(t.io) + SessionOwes(t.sessions[id]) < IoOwes(s.io) + SessionOwes(s.sessions[id])
  {
    var id := s.io.id;
    assert IoRuns(s.io, id) ==> s.sessions[id].phase.Running?;
    assert Life(id in s.active, s.sessions[id], s.apps, s.io, id);
    hide Lives;
  }

  lemma IoProgress(s: State, ids: seq<Id>)
    requires Lives(s) && IoEnabled(s) && Lists(s, ids)
    ensures Lists(StepIo(s), ids) && WorkLeft(StepIo(s), ids) < WorkLeft(s, ids)
  {
    IoWorks(s);
    IoShape(s);
    hide StepIo, IoEnabled, Lives, AllAppsOwe, AllSessionsOwe, IoOwes, SessionOwes, IoRuns;
    SessionsOweAt(s.sessions, StepIo(s).sessions, ids, s.io.id);
  }

  lemma OperationProgress(s: State, e: Event, ids: seq<Id>)
    requires Lives(s) && Enabled(s, e) && Lists(s, ids) && (e.Complete? || e.Dispatch?)
    ensures Lists(Step(s, e), ids) && WorkLeft(Step(s, e), ids) < WorkLeft(s, ids)
  {
    assert Life(e.id in s.active, s.sessions[e.id], s.apps, s.io, e.id);
    hide Lives;
    SessionsOweAt(s.sessions, Step(s, e).sessions, ids, e.id);
  }

  lemma ProgressWorks(s: State, e: Event, ids: seq<Id>)
    requires Inv(s) && Enabled(s, e) && Progress(e) && Lists(s, ids)
    ensures Lists(Step(s, e), ids) && WorkLeft(Step(s, e), ids) < WorkLeft(s, ids)
  {
    hide Lives, Locks, Cancels, WorkLeft, Lists, StepApp, StepIo;
    match e
    case AppStep(a) => AppProgress(s, a, ids);
    case IoStep => IoProgress(s, ids);
    case _ => OperationProgress(s, e, ids);
  }

  /**
    Nothing runs for ever: without another call of either function, boundedly many steps can
    follow, counting the ends of operations.
   */
  lemma {:induction false} WorkEnds(s: State, es: seq<Event>, t: State, ids: seq<Id>)
    requires Inv(s) && Run(s, es, t) && (forall e | e in es :: Progress(e)) && Lists(s, ids)
    ensures Lists(t, ids) && |es| + WorkLeft(t, ids) <= WorkLeft(s, ids)
    decreases |es|
  {
    hide Inv, Step, Enabled, WorkLeft, Lists;
    if es != [] {
      assert es[0] in es;
      StepKeepsInv(s, es[0]);
      ProgressWorks(s, es[0], ids);
      WorkEnds(Step(s, es[0]), es[1..], t, ids);
    }
  }

  /**
    With at most one cancel per request, a run that only new calls could continue has reported
    every request, exactly once.
   */
  lemma AllReported(n: nat, s: State, id: Id)
    requires Reachable(n, s) && (forall k :: s.cancels[k] <= 1) && id in s.sessions
    requires forall e | Progress(e) :: !Enabled(s, e)
    ensures |s.sessions[id].reports| == 1 && s.sessions[id].phase.Done? && id !in s.active
  {
    hide Reachable;
    NoDeadlock(n, s);
    assert !Enabled(s, IoStep) && !Enabled(s, Complete(id, 0, "")) && !Enabled(s, Dispatch(id));
    forall a ensures !AppEnabled(s, a) {
      assert !Enabled(s, AppStep(a));
    }
    ReachableInv(n, s);
    assert Life(id in s.active, s.sessions[id], s.apps, s.io, id);
  }

  lemma CycleLocks(s: State, a: nat, id: Id)
    requires Inv(s) && Deadlocked(s, a, id)
    ensures s.table == Some(App(a)) && id in s.sessions && s.sessions[id].guard == Some(Io)
  {
    assert HasTable(s, App(a)) && HasGuard(s, id, Io);
    assert AppFound(s.apps[a], id);
  }

  lemma CycleStays(s: State, e: Event, a: nat, id: Id)
    requires Inv(s) && Deadlocked(s, a, id) && Enabled(s, e)
    ensures Deadlocked(Step(s, e), a, id) && Step(s, e).sessions.Keys >= s.sessions.Keys
  {
    hide Inv, StepApp, AppStarts, AppFound;
    CycleLocks(s, a, id);
    if e.AppStep? {
      AppTables(s, e.a);
    }
  }

  /** Once reached it is never left, so the request is never reported. */
  lemma {:induction false} DeadlockForever(s: State, es: seq<Event>, t: State, a: nat, id: Id)
    requires Inv(s) && Deadlocked(s, a, id) && Run(s, es, t)
    ensures Deadlocked(t, a, id) && id in t.sessions && t.sessions[id].reports == []
    decreases |es|
  {
    if es == [] {
      assert Life(id in s.active, s.sessions[id], s.apps, s.io, id);
    } else {
      hide Inv, Step, Enabled;
      StepKeepsInv(s, es[0]);
      CycleStays(s, es[0], a, id);
      DeadlockForever(Step(s, es[0]), es[1..], t, a, id);
    }
  }

  lemma {:induction false} RunSnoc(s: State, es: seq<Event>, t: State, e: Event)
    requires Run(s, es, t) && Enabled(t, e)
    ensures Run(s, es + [e], Step(t, e))
    decreases |es|
  {
    hide Step, Enabled;
    if es == [] {
      assert Run(Step(s, e), [], Step(s, e));
      assert (es + [e])[1..] == [];
    } else {
      RunSnoc(Step(s, es[0]), es[1..], t, e);
      assert (es + [e])[1..] == es[1..] + [e];
    }
  }

  lemma Reach(n: nat, s: State, e: Event)
    requires Reachable(n, s) && Enabled(s, e)
    ensures Reachable(n, Step(s, e))
  {
    var es :| Run(Initial(n), es, s);
    RunSnoc(Initial(n), es, s, e);
  }

  /** Request 7 of one application thread, in the table. */
  lemma WitnessInserted()
    ensures exists s ::
      && Reachable(1, s) && s.io.Resting? && s.table == Some(App(0)) && s.active == {7}
      && s.apps == [LeaveInsert(7)] && 7 in s.sessions && s.sessions[7] == NewSession(0)
  {
    var s0 := Initial(1);
    assert Reachable(1, s0) by { assert Run(s0, [], s0); }
    hide Reachable;
    Reach(1, s0, Start(0, 7));
    var s1 := Step(s0, Start(0, 7));
    Reach(1, s1, AppStep(0));
    var s2 := Step(s1, AppStep(0));
    Reach(1, s2, AppStep(0));
    var s3 := Step(s2, AppStep(0));
    assert s3.active == {7} && s3.apps == [LeaveInsert(7)];
  }

  /** It waits for its connect. */
  lemma WitnessStarted()
    ensures exists s ::
      && Reachable(1, s) && s.io.Resting? && s.table.None? && s.active == {7} && s.apps == [Idle]
      && 7 in s.sessions && s.sessions[7].guard.None? && s.sessions[7].wait == Op(Connect, Pending)
  {
    hide Reachable;
    WitnessInserted();
    var s3: State :|
      && Reachable(1, s3) && s3.io.Resting? && s3.table == Some(App(0)) && s3.active == {7}
      && s3.apps == [LeaveInsert(7)] && 7 in s3.sessions && s3.sessions[7] == NewSession(0);
    Reach(1, s3, AppStep(0));
    var s4 := Step(s3, AppStep(0));
    Reach(1, s4, AppStep(0));
    assert Step(s4, AppStep(0)).apps == [Idle];
  }

  /** The connect succeeds, and its handler is about to take the guard. */
  lemma WitnessConnected()
    ensures exists s ::
      && Reachable(1, s) && s.io == NeedGuard(7, Connect) && s.table.None? && s.active == {7}
      && s.apps == [Idle] && 7 in s.sessions && s.sessions[7].guard.None?
  {
    WitnessStarted();
    var s: State :|
      && Reachable(1, s) && s.io.Resting? && s.table.None? && s.active == {7} && s.apps == [Idle]
      && 7 in s.sessions && s.sessions[7].guard.None? && s.sessions[7].wait == Op(Connect, Pending);
    hide Reachable;
    Reach(1, s, Complete(7, 0, ""));
    var s1 := Step(s, Complete(7, 0, ""));
    Reach(1, s1, Dispatch(7));
    var s2 := Step(s1, Dispatch(7));
    Reach(1, s2, IoStep);
    var s3 := Step(s2, IoStep);
    assert s3.io == NeedGuard(7, Connect);
  }

  /** A cancel locks the table and finds the session. */
  lemma WitnessFound(s: State)
    requires Reachable(1, s) && s.apps == [Idle] && s.table.None? && 7 in s.active
    ensures exists t ::
      && Reachable(1, t) && t.apps == [WantGuard(7)] && t.table == Some(App(0))
      && t.io == s.io && t.active == s.active && t.sessions == s.sessions
  {
    hide Reachable;
    Reach(1, s, Cancel(0, 7));
    var s1 := Step(s, Cancel(0, 7));
    Reach(1, s1, AppStep(0));
    var s2 := Step(s1, AppStep(0));
    Reach(1, s2, AppStep(0));
    assert Step(s2, AppStep(0)).apps == [WantGuard(7)];
  }

  /** The first cancel sets the flag and returns. */
  lemma WitnessCancelled(s: State)
    requires Reachable(1, s) && s.io == NeedGuard(7, Connect) && s.table.None? && 7 in s.active
    requires s.apps == [Idle] && 7 in s.sessions && s.sessions[7].guard.None?
    ensures exists t ::
      && Reachable(1, t) && t.io == s.io && t.table.None? && 7 in t.active
      && t.apps == [Idle] && 7 in t.sessions && t.sessions[7].guard.None? && t.sessions[7].cancelled
  {
    hide Reachable;
    WitnessFound(s);
    var s3: State :|
      && Reachable(1, s3) && s3.apps == [WantGuard(7)] && s3.table == Some(App(0))
      && s3.io == s.io && s3.active == s.active && s3.sessions == s.sessions;
    Reach(1, s3, AppStep(0));
    var s4 := Step(s3, AppStep(0));
    Reach(1, s4, AppStep(0));
    var s5 := Step(s4, AppStep(0));
    Reach(1, s5, AppStep(0));
    var s6 := Step(s5, AppStep(0));
    Reach(1, s6, AppStep(0));
    var s7 := Step(s6, AppStep(0));
    Reach(1, s7, AppStep(0));
    var s8 := Step(s7, AppStep(0));
    assert s8.apps == [Idle];
  }

  /** The connect handler takes the guard, sees the flag and wants the table. */
  lemma WitnessStopping(s: State)
    requires Reachable(1, s) && s.io == NeedGuard(7, Connect) && s.table.None? && 7 in s.active
    requires s.apps == [Idle] && 7 in s.sessions && s.sessions[7].guard.None? && s.sessions[7].cancelled
    ensures exists t ::
      Reachable(1, t) && t.io == WantErase(7, true) && t.table.None? && 7 in t.active && t.apps == [Idle]
  {
    hide Reachable;
    Reach(1, s, IoStep);
    var s1 := Step(s, IoStep);
    Reach(1, s1, IoStep);
    assert Step(s1, IoStep).io == WantErase(7, true);
  }

  /**
    A second cancel of the same request can deadlock: it has the table and waits for the
    guard, while the connect handler, which has seen the flag, has the guard and waits for
    the table.
   */
  lemma SecondCancelDeadlocks()
    ensures exists s :: Reachable(1, s) && Deadlocked(s, 0, 7)
  {
    hide Reachable;
    WitnessConnected();
    var s: State :| Reachable(1, s) && s.io == NeedGuard(7, Connect) && s.table.None? && s.active == {7}
                    && s.apps == [Idle] && 7 in s.sessions && s.sessions[7].guard.None?;
    WitnessCancelled(s);
    var s0: State :| Reachable(1, s0) && s0.io == NeedGuard(7, Connect) && s0.table.None? && 7 in s0.active
                     && s0.apps == [Idle] && 7 in s0.sessions && s0.sessions[7].guard.None? && s0.sessions[7].cancelled;
    WitnessStopping(s0);
    var s2: State :|
      Reachable(1, s2) && s2.io == WantErase(7, true) && s2.table.None? && 7 in s2.active && s2.apps == [Idle];
    WitnessFound(s2);
    var t: State :|
      && Reachable(1, t) && t.apps == [WantGuard(7)] && t.table == Some(App(0))
      && t.io == s2.io && t.active == s2.active && t.sessions == s2.sessions;
    assert Deadlocked(t, 0, 7);
  }
}
