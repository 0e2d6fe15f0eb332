/**
  The socket-notifier protocol of the event dispatcher, as a machine.

  A record per file descriptor holds the registered notifiers and is shared by completion
  handlers that cannot be cancelled one by one: a revision number per kind tells a handler
  whether its registration is still the current one, and a record is freed only when no
  handler that points to it is outstanding.  Delivering an event is the last thing a handler
  does, so whatever the receiver re-enters (register, unregister, cleanup, further handlers)
  is simply the next steps of the machine.
 */
module NotifierMachine {
  import opened Bytes

  datatype Kind = Read | Write

  datatype Notifier = Notifier(id: nat, fd: int, kind: Kind)

  /** broken is history: the current handler chain ended because of an I/O error. */
  datatype Slot = Slot(notif: Option<Notifier>, revision: nat, broken: bool)

  datatype Record = Record(id: nat, fd: int, read: Slot, write: Slot, pending: int)

  datatype Status =
    | Waiting   // the descriptor is not ready
    | Fired     // completed, no error
    | Aborted   // completed by sd->cancel()
    | Failed    // completed with another error

  /** An outstanding completion handler; owner is the notifier whose registration began its chain. */
  datatype Handler = Handler(rec: nat, kind: Kind, revision: nat, status: Status, owner: Notifier)

  datatype Delivery = Delivery(target: Notifier, owner: Notifier)

  datatype State = State(
    records: seq<Record>,
    nextId: nat,               // allocation: ids stand for addresses
    handlers: seq<Handler>,    // outstanding, in no particular order
    delivered: seq<Delivery>,
    errors: nat,               // I/O errors other than cancellation so far
    misuse: bool,              // a freed record or a null notifier has been used
    assertFailed: bool)        // cleanup has found a registered notifier in a record it frees

  const INITIAL := State([], 0, [], [], 0, false, false)

  function SlotOf(r: Record, k: Kind): Slot {
    if k.Read? then r.read else r.write
  }

  function WithSlot(r: Record, k: Kind, s: Slot): Record {
    if k.Read? then r.(read := s) else r.(write := s)
  }

  predicate NoNotifiers(r: Record) {
    r.read.notif.None? && r.write.notif.None?
  }

  /** By what a record is looked up: its descriptor, or the pointer that a handler holds. */
  datatype Name = ByFd(fd: int) | ById(id: nat)

  predicate Named(r: Record, name: Name) {
    match name
    case ByFd(fd) => r.fd == fd
    case ById(id) => r.id == id
  }

  /** The first record so named. */
  function Lookup(rs: seq<Record>, name: Name): (i: Option<nat>)
    ensures i.Some? ==> i.value < |rs| && Named(rs[i.value], name)
    ensures i.None? ==> forall r | r in rs :: !Named(r, name)
  {
    if rs == [] then None
    else if Named(rs[0], name) then Some(0)
    else match Lookup(rs[1..], name) case None => None case Some(j) => Some(j + 1)
  }

  datatype Event =
    | Register(n: Notifier)
    | Unregister(n: Notifier)
    | Fire(i: nat)       // the descriptor becomes ready for handler i
    | IoError(i: nat)    // handler i completes with an error of its own
    | Run(i: nat)        // the event loop runs handler i
    | Cleanup

  /** Registering twice and unregistering what is not registered are excluded by assertions in the code. */
  predicate Enabled(s: State, e: Event) {
    match e
    case Register(n) =>
      (match Lookup(s.records, ByFd(n.fd))
       case None => true
       case Some(j) => SlotOf(s.records[j], n.kind).notif.None?)
    case Unregister(n) =>
      (match Lookup(s.records, ByFd(n.fd))
       case None => false
       case Some(j) => SlotOf(s.records[j], n.kind).notif == Some(n))
    case Fire(i) => i < |s.handlers| && s.handlers[i].status.Waiting?
    case IoError(i) => i < |s.handlers| && s.handlers[i].status.Waiting?
    case Run(i) => i < |s.handlers| && !s.handlers[i].status.Waiting?
    case Cleanup => true
  }

  function FreshRecord(id: nat, fd: int): Record {
    Record(id, fd, Slot(None, 0, false), Slot(None, 0, false), 0)
  }

  /** socketNotifierForFd(fd, true): the records, and the index of the one for fd. */
  function Ensure(s: State, fd: int): (p: (State, nat))
    ensures p.1 < |p.0.records| && p.0.records[p.1].fd == fd
  {
    match Lookup(s.records, ByFd(fd))
    case Some(j) => (s, j)
    case None => (s.(records := s.records + [FreshRecord(s.nextId, fd)], nextId := s.nextId + 1), |s.records|)
  }

  /** fdReadStart and fdWriteStart on record j. */
  function Start(s: State, j: nat, k: Kind, owner: Notifier): State
    requires j < |s.records|
  {
    var r := s.records[j];
    var h := Handler(r.id, k, SlotOf(r, k).revision, Waiting, owner);
    s.(records := s.records[j := r.(pending := r.pending + 1)],
       handlers := s.handlers + [h],
       misuse := s.misuse || SlotOf(r, k).notif.None?)
  }

  /** sd->cancel(): completions already queued keep their outcome. */
  function Cancelled(hs: seq<Handler>, id: nat): (t: seq<Handler>)
    ensures |t| == |hs|
  {
    seq(|hs|, i requires 0 <= i < |hs| =>
      if hs[i].rec == id && hs[i].status.Waiting? then hs[i].(status := Aborted) else hs[i])
  }

  function StepRegister(s: State, n: Notifier): State {
    var (s1, j) := Ensure(s, n.fd);
    var r := s1.records[j];
    var r' := WithSlot(r, n.kind, Slot(Some(n), SlotOf(r, n.kind).revision + 1, false));
    Start(s1.(records := s1.records[j := r']), j, n.kind, n)
  }

  function StepUnregister(s: State, n: Notifier, j: nat): State
    requires j < |s.records|
  {
    var r := s.records[j];
    var r' := WithSlot(r, n.kind, Slot(None, SlotOf(r, n.kind).revision + 1, false));
    s.(records := s.records[j := r'],
       handlers := if NoNotifiers(r') then Cancelled(s.handlers, r.id) else s.handlers)
  }

  function Without(hs: seq<Handler>, i: nat): seq<Handler>
    requires i < |hs|
  {
    hs[..i] + hs[i + 1..]
  }

  /** fdReadReady and fdWriteReady on record j. */
  function StepRun(s: State, i: nat, j: nat): State
    requires i < |s.handlers| && j < |s.records|
  {
    var h := s.handlers[i];
    var r := s.records[j];
    var slot := SlotOf(r, h.kind);
    var current := slot.revision == h.revision;
    var r1 := r.(pending := r.pending - 1);
    var s1 := s.(handlers := Without(s.handlers, i));
    if current && h.status.Fired? then
      var s2 := Start(s1.(records := s.records[j := r1]), j, h.kind, h.owner);
      if slot.notif.Some? then s2.(delivered := s.delivered + [Delivery(slot.notif.value, h.owner)])
      else s2.(misuse := true)
    else
      s1.(records := s.records[j := if current then WithSlot(r1, h.kind, slot.(broken := true)) else r1])
  }

  /** The records a non-forced cleanup leaves. */
  function Kept(rs: seq<Record>): seq<Record> {
    if rs == [] then []
    else if rs[0].pending == 0 then Kept(rs[1..])
    else [rs[0]] + Kept(rs[1..])
  }

  predicate CleanupAsserts(rs: seq<Record>) {
    forall r | r in rs && r.pending == 0 :: NoNotifiers(r)
  }

  function Step(s: State, e: Event): State
    requires Enabled(s, e)
  {
    match e
    case Register(n) => StepRegister(s, n)
    case Unregister(n) => StepUnregister(s, n, Lookup(s.records, ByFd(n.fd)).value)
    case Fire(i) => s.(handlers := s.handlers[i := s.handlers[i].(status := Fired)])
    case IoError(i) =>
      s.(handlers := s.handlers[i := s.handlers[i].(status := Failed)], errors := s.errors + 1)
    case Run(i) =>
      (match Lookup(s.records, ById(s.handlers[i].rec))
       case None => s.(handlers := Without(s.handlers, i), misuse := true)
       case Some(j) => StepRun(s, i, j))
    case Cleanup =>
      s.(records := Kept(s.records), assertFailed := s.assertFailed || !CleanupAsserts(s.records))
  }

  // ---------- Counting handlers ----------

  datatype Key = Of(rec: nat) | Chain(rec: nat, kind: Kind, revision: nat)

  predicate Matches(h: Handler, key: Key) {
    match key
    case Of(rec) => h.rec == rec
    case Chain(rec, kind, revision) => h.rec == rec && h.kind == kind && h.revision == revision
  }

  function Count(hs: seq<Handler>, key: Key): nat {
    if hs == [] then 0 else (if Matches(hs[0], key) then 1 else 0) + Count(hs[1..], key)
  }

  function One(h: Handler, key: Key): nat {
    if Matches(h, key) then 1 else 0
  }

  lemma {:induction false} CountConcat(a: seq<Handler>, b: seq<Handler>, key: Key)
    ensures Count(a + b, key) == Count(a, key) + Count(b, key)
  {
    if a == [] {
      assert a + b == b;
    } else {
      assert (a + b)[1..] == a[1..] + b;
      CountConcat(a[1..], b, key);
    }
  }

  lemma CountAppend(hs: seq<Handler>, h: Handler, key: Key)
    ensures Count(hs + [h], key) == Count(hs, key) + One(h, key)
  {
    CountConcat(hs, [h], key);
    assert Count([h], key) == One(h, key) + Count([], key);
  }

  lemma CountRemove(hs: seq<Handler>, i: nat, key: Key)
    requires i < |hs|
    ensures Count(hs, key) == Count(Without(hs, i), key) + One(hs[i], key)
  {
    assert hs == hs[..i] + ([hs[i]] + hs[i + 1..]);
    CountConcat(hs[..i], [hs[i]] + hs[i + 1..], key);
    CountConcat([hs[i]], hs[i + 1..], key);
    CountConcat(hs[..i], hs[i + 1..], key);
    assert Count([hs[i]], key) == One(hs[i], key) + Count([], key);
  }

  /** Outstanding handlers that differ only in how they completed. */
  ghost predicate SameHandlers(a: seq<Handler>, b: seq<Handler>) {
    && |a| == |b|
    && forall i | 0 <= i < |a| ::
         a[i].rec == b[i].rec && a[i].kind == b[i].kind && a[i].revision == b[i].revision && a[i].owner == b[i].owner
  }

  lemma {:induction false} CountSame(a: seq<Handler>, b: seq<Handler>, key: Key)
    requires SameHandlers(a, b)
    ensures Count(a, key) == Count(b, key)
  {
    if a != [] {
      CountSame(a[1..], b[1..], key);
    }
  }

  lemma {:induction false} CountZero(hs: seq<Handler>, key: Key)
    requires forall h | h in hs :: !Matches(h, key)
    ensures Count(hs, key) == 0
  {
    if hs != [] {
      assert hs[0] in hs;
      CountZero(hs[1..], key);
    }
  }

  lemma {:induction false} CountPositive(hs: seq<Handler>, i: nat, key: Key)
    requires i < |hs| && Matches(hs[i], key)
    ensures Count(hs, key) > 0
  {
    CountRemove(hs, i, key);
  }
}
