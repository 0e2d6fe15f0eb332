/**
  The thread-safe queue, instruction by instruction: any number of producer threads in
  push_back or push_front, and one consumer thread in Update, which may first wait.  A step
  of the machine is one lock, unlock, queue access, notify or sleep of one thread.

  push takes muxQueue, then muxBlocking; empty and pop_front take muxQueue only; wait tests
  empty, and only then takes muxBlocking and sleeps, so a notification can fall in between.
 */
module TsQueues {
  import opened Bytes

  datatype Thread = Consumer | Producer(i: nat)

  datatype End = Back | Front

  /** Where a producer is in push_back or push_front. */
  datatype Pushing<T> =
    | Idle
    | WantQueue(end: End, x: T)
    | Emplace(end: End, x: T)
    | WantBlocking
    | Notify
    | FreeBlocking
    | FreeQueue

  datatype Caller = InWait | InUpdate

  /** Where the consumer is in Update, in the wait, empty and pop_front that it calls. */
  datatype Consuming<T> =
    | Resting
    | WantEmpty(caller: Caller)
    | ReadEmpty(caller: Caller)
    | LeaveEmpty(caller: Caller, empty: bool)
    | WantSleep
    | Sleep
    | Asleep(signalled: bool)
    | Waking
    | LeaveSleep
    | WantPop
    | Pop
    | LeavePop(x: T)
    | Undefined             // front() of an empty deque

  /**
    left is how many more messages this Update may take.  History: delivered is what went to
    OnMessage, pushed what was emplaced, front whether push_front was used, lost how many
    notifications since wait last saw the queue empty found nobody asleep.
   */
  datatype State<T> = State(
    queue: seq<T>,
    muxQueue: Option<Thread>,
    muxBlocking: Option<Thread>,
    consumer: Consuming<T>,
    left: nat,
    producers: seq<Pushing<T>>,
    delivered: seq<T>,
    pushed: seq<T>,
    front: bool,
    lost: nat)

  function Initial<T>(n: nat): State<T> {
    State([], None, None, Resting, 0, seq(n, _ => Idle), [], [], false, 0)
  }

  datatype Event<T> =
    | Call(i: nat, end: End, x: T)      // producer i calls push
    | Push(i: nat)                      // producer i takes its next step
    | Update(max: nat, wait: bool)      // the consumer calls Update
    | Consume                           // the consumer takes its next step
    | Spurious                          // the consumer wakes without a signal

  predicate Enabled<T>(s: State<T>, e: Event<T>) {
    match e
    case Call(i, _, _) => i < |s.producers| && s.producers[i].Idle?
    case Push(i) =>
      && i < |s.producers|
      && !s.producers[i].Idle?
      && (s.producers[i].WantQueue? ==> s.muxQueue.None?)
      && (s.producers[i].WantBlocking? ==> s.muxBlocking.None?)
    case Update(_, _) => s.consumer.Resting?
    case Consume =>
      && !s.consumer.Resting? && !s.consumer.Undefined?
      && (s.consumer.WantEmpty? || s.consumer.WantPop? ==> s.muxQueue.None?)
      && (s.consumer.WantSleep? || s.consumer.Waking? ==> s.muxBlocking.None?)
      && (s.consumer.Asleep? ==> s.consumer.signalled)
    case Spurious => s.consumer == Asleep(false)
  }

  function At<T>(s: State<T>, i: nat, p: Pushing<T>): State<T>
    requires i < |s.producers|
  {
    s.(producers := s.producers[i := p])
  }

  function StepPush<T>(s: State<T>, i: nat): State<T>
    requires Enabled(s, Push(i))
  {
    match s.producers[i]
    case WantQueue(end, x) => At(s, i, Emplace(end, x)).(muxQueue := Some(Producer(i)))
    case Emplace(end, x) =>
      At(s, i, WantBlocking).(
        queue := if end.Back? then s.queue + [x] else [x] + s.queue,
        pushed := s.pushed + [x],
        front := s.front || end.Front?)
    case WantBlocking => At(s, i, Notify).(muxBlocking := Some(Producer(i)))
    case Notify =>
      var woken := s.consumer == Asleep(false);
      At(s, i, FreeBlocking).(
        consumer := if woken then Asleep(true) else s.consumer,
        lost := if woken then s.lost else s.lost + 1)
    case FreeBlocking => At(s, i, FreeQueue).(muxBlocking := None)
    case FreeQueue => At(s, i, Idle).(muxQueue := None)
  }

  /** The head of Update's loop. */
  function Loop<T>(s: State<T>): Consuming<T> {
    if s.left == 0 then Resting else WantEmpty(InUpdate)
  }

  function StepConsume<T>(s: State<T>): State<T>
    requires Enabled(s, Consume)
  {
    match s.consumer
    case WantEmpty(caller) => s.(consumer := ReadEmpty(caller), muxQueue := Some(Consumer))
    case ReadEmpty(caller) =>
      s.(consumer := LeaveEmpty(caller, s.queue == []),
         lost := if caller.InWait? && s.queue == [] then 0 else s.lost)
    case LeaveEmpty(caller, empty) =>
      s.(muxQueue := None,
         consumer := match caller
                     case InWait => if empty then WantSleep else Loop(s)
                     case InUpdate => if empty then Resting else WantPop)
    case WantSleep => s.(consumer := Sleep, muxBlocking := Some(Consumer))
    case Sleep => s.(consumer := Asleep(false), muxBlocking := None)
    case Asleep(_) => s.(consumer := Waking)
    case Waking => s.(consumer := LeaveSleep, muxBlocking := Some(Consumer))
    case LeaveSleep => s.(consumer := WantEmpty(InWait), muxBlocking := None)
    case WantPop => s.(consumer := Pop, muxQueue := Some(Consumer))
    case Pop =>
      if s.queue == [] then s.(consumer := Undefined)
      else s.(consumer := LeavePop(s.queue[0]), queue := s.queue[1..])
    case LeavePop(x) =>
      var s1 := s.(muxQueue := None, delivered := s.delivered + [x], left := if s.left == 0 then 0 else s.left - 1);
      s1.(consumer := Loop(s1))
  }

  function Step<T>(s: State<T>, e: Event<T>): State<T>
    requires Enabled(s, e)
  {
    match e
    case Call(i, end, x) => At(s, i, WantQueue(end, x))
    case Push(i) => StepPush(s, i)
    case Update(max, wait) =>
      var s1 := s.(left := max);
      s1.(consumer := if wait then WantEmpty(InWait) else Loop(s1))
    case Consume => StepConsume(s)
    case Spurious => s.(consumer := Waking)
  }

  // ---------- Who holds what ----------

  predicate HasQueue<T>(s: State<T>, t: Thread) {
    match t
    case Consumer => s.consumer.ReadEmpty? || s.consumer.LeaveEmpty? || s.consumer.Pop? || s.consumer.LeavePop?
                     || s.consumer.Undefined?
    case Producer(i) => i < |s.producers| && !s.producers[i].Idle? && !s.producers[i].WantQueue?
  }

  predicate HasBlocking<T>(s: State<T>, t: Thread) {
    match t
    case Consumer => s.consumer.Sleep? || s.consumer.LeaveSleep?
    case Producer(i) => i < |s.producers| && (s.producers[i].Notify? || s.producers[i].FreeBlocking?)
  }

  /** A push has emplaced its item and not yet notified. */
  predicate Unnotified<T>(s: State<T>) {
    s.muxQueue.Some? && s.muxQueue.value.Producer? && s.muxQueue.value.i < |s.producers|
    && var p := s.producers[s.muxQueue.value.i]; p.WantBlocking? || p.Notify?
  }

  /** wait has seen the queue empty, and no signal has reached it since. */
  predicate Drowsy<T>(c: Consuming<T>) {
    c == LeaveEmpty(InWait, true) || c.WantSleep? || c.Sleep? || c == Asleep(false)
  }

  function InHand<T>(c: Consuming<T>): seq<T> {
    if c.LeavePop? then [c.x] else []
  }

  ghost predicate Locks<T>(s: State<T>) {
    && (forall t: Thread :: HasQueue(s, t) <==> s.muxQueue == Some(t))
    && (forall t: Thread :: HasBlocking(s, t) <==> s.muxBlocking == Some(t))
  }

  /** Whoever is about to pop has seen an item, and nobody else takes one. */
  predicate Guarded<T>(s: State<T>) {
    && !s.consumer.Undefined?
    && (s.consumer.WantPop? || s.consumer.Pop? || (s.consumer.LeaveEmpty? && !s.consumer.empty) ==> s.queue != [])
    && (s.consumer.LeaveEmpty? && s.consumer.empty ==> s.queue == [])
  }

  /** What a drowsy consumer does not know of. */
  predicate Counted<T>(s: State<T>) {
    Drowsy(s.consumer) ==> |s.queue| == s.lost + (if Unnotified(s) then 1 else 0)
  }

  /** What has been delivered, is in hand, or is queued is what was pushed. */
  ghost predicate Balanced<T>(delivered: seq<T>, hand: seq<T>, queue: seq<T>, pushed: seq<T>, front: bool) {
    && (!front ==> delivered + hand + queue == pushed)
    && multiset(delivered) + multiset(hand) + multiset(queue) == multiset(pushed)
  }

  ghost predicate Conserved<T>(s: State<T>) {
    Balanced(s.delivered, InHand(s.consumer), s.queue, s.pushed, s.front)
  }

  ghost predicate Inv<T>(s: State<T>) {
    Locks(s) && Guarded(s) && Counted(s) && Conserved(s)
  }

  // ---------- Every step keeps it ----------

  lemma InitialInv<T>(n: nat)
    ensures Inv(Initial<T>(n))
  {
  }

  lemma PushKeepsLocks<T>(s: State<T>, i: nat)
    requires Locks(s) && Enabled(s, Push(i))
    ensures Locks(StepPush(s, i))
  {
    var t := StepPush(s, i);
    assert HasQueue(s, Producer(i)) || s.producers[i].WantQueue?;
    forall u: Thread
      ensures HasQueue(t, u) <==> t.muxQueue == Some(u)
      ensures HasBlocking(t, u) <==> t.muxBlocking == Some(u)
    {
      assert u != Producer(i) ==> (HasQueue(s, u) <==> HasQueue(t, u)) && (HasBlocking(s, u) <==> HasBlocking(t, u));
    }
  }

  lemma ConsumeKeepsLocks<T>(s: State<T>)
    requires Locks(s) && Enabled(s, Consume)
    ensures Locks(StepConsume(s))
  {
    var t := StepConsume(s);
    assert HasQueue(s, Consumer) <==> s.muxQueue == Some(Consumer);
    assert HasBlocking(s, Consumer) <==> s.muxBlocking == Some(Consumer);
    forall u: Thread
      ensures HasQueue(t, u) <==> t.muxQueue == Some(u)
      ensures HasBlocking(t, u) <==> t.muxBlocking == Some(u)
    {
      assert u != Consumer ==> (HasQueue(s, u) <==> HasQueue(t, u)) && (HasBlocking(s, u) <==> HasBlocking(t, u));
    }
  }

  lemma PushKeepsCounted<T>(s: State<T>, i: nat)
    requires Locks(s) && Counted(s) && Enabled(s, Push(i))
    ensures Counted(StepPush(s, i))
  {
    Holder(s, i);
    ConsumerHolds(s);
    hide Locks;
  }

  lemma EmplaceBalances<T>(
    delivered: seq<T>, hand: seq<T>, queue: seq<T>, pushed: seq<T>, front: bool, end: End, x: T)
    requires Balanced(delivered, hand, queue, pushed, front)
    ensures Balanced(delivered, hand, if end.Back? then queue + [x] else [x] + queue, pushed + [x], front || end.Front?)
  {
    var head := delivered + hand;
    assert head + (queue + [x]) == head + queue + [x];
  }

  lemma PopBalances<T>(delivered: seq<T>, queue: seq<T>, pushed: seq<T>, front: bool)
    requires Balanced(delivered, [], queue, pushed, front) && queue != []
    ensures Balanced(delivered, [queue[0]], queue[1..], pushed, front)
  {
    assert queue == [queue[0]] + queue[1..];
    assert delivered + [] + queue == delivered + [queue[0]] + queue[1..];
  }

  lemma HandBalances<T>(delivered: seq<T>, x: T, queue: seq<T>, pushed: seq<T>, front: bool)
    requires Balanced(delivered, [x], queue, pushed, front)
    ensures Balanced(delivered + [x], [], queue, pushed, front)
  {
    assert delivered + [x] + queue == delivered + [x] + [] + queue;
  }

  lemma PushKeepsConserved<T>(s: State<T>, i: nat)
    requires Conserved(s) && Enabled(s, Push(i))
    ensures Conserved(StepPush(s, i))
  {
    hide Balanced;
    var p := s.producers[i];
    if p.Emplace? {
      EmplaceBalances(s.delivered, InHand(s.consumer), s.queue, s.pushed, s.front, p.end, p.x);
    }
  }

  lemma PushKeepsInv<T>(s: State<T>, i: nat)
    requires Inv(s) && Enabled(s, Push(i))
    ensures Inv(StepPush(s, i))
  {
    PushKeepsLocks(s, i);
    PushKeepsCounted(s, i);
    PushKeepsConserved(s, i);
    PushKeepsGuarded(s, i);
    hide Locks, Counted, Conserved, Guarded, StepPush;
  }

  lemma PushKeepsGuarded<T>(s: State<T>, i: nat)
    requires Locks(s) && Guarded(s) && Enabled(s, Push(i))
    ensures Guarded(StepPush(s, i))
  {
    Holder(s, i);
    ConsumerHolds(s);
    hide Locks;
  }

  lemma Holder<T>(s: State<T>, i: nat)
    requires Locks(s) && Enabled(s, Push(i))
    ensures s.producers[i].WantQueue? || s.muxQueue == Some(Producer(i))
  {
    assert HasQueue(s, Producer(i)) || s.producers[i].WantQueue?;
  }

  lemma ConsumerHolds<T>(s: State<T>)
    requires Locks(s)
    ensures HasQueue(s, Consumer) ==> s.muxQueue == Some(Consumer)
  {
  }

  lemma ConsumeKeepsConserved<T>(s: State<T>)
    requires Guarded(s) && Conserved(s) && Enabled(s, Consume)
    ensures Conserved(StepConsume(s))
  {
    hide Balanced;
    if s.consumer.Pop? {
      PopBalances(s.delivered, s.queue, s.pushed, s.front);
    } else if s.consumer.LeavePop? {
      HandBalances(s.delivered, s.consumer.x, s.queue, s.pushed, s.front);
    }
  }

  lemma ConsumeKeepsCounted<T>(s: State<T>)
    requires Locks(s) && Guarded(s) && Counted(s) && Enabled(s, Consume)
    ensures Guarded(StepConsume(s)) && Counted(StepConsume(s))
  {
    ConsumerHolds(s);
    hide Locks;
  }

  lemma ConsumeKeepsInv<T>(s: State<T>)
    requires Inv(s) && Enabled(s, Consume)
    ensures Inv(StepConsume(s))
  {
    ConsumeKeepsLocks(s);
    ConsumeKeepsCounted(s);
    ConsumeKeepsConserved(s);
    hide Locks, Conserved, Guarded, Counted, StepConsume;
  }

  lemma StepKeepsInv<T>(s: State<T>, e: Event<T>)
    requires Inv(s) && Enabled(s, e)
    ensures Inv(Step(s, e))
  {
    match e
    case Push(i) => PushKeepsInv(s, i);
    case Consume => ConsumeKeepsInv(s);
    case Call(i, end, x) =>
      var t := Step(s, e);
      forall u: Thread
        ensures HasQueue(t, u) <==> t.muxQueue == Some(u)
        ensures HasBlocking(t, u) <==> t.muxBlocking == Some(u)
      {
        assert (HasQueue(s, u) <==> HasQueue(t, u)) && (HasBlocking(s, u) <==> HasBlocking(t, u));
      }
    case _ =>
      var t := Step(s, e);
      forall u: Thread
        ensures HasQueue(t, u) <==> t.muxQueue == Some(u)
        ensures HasBlocking(t, u) <==> t.muxBlocking == Some(u)
      {
        assert (HasQueue(s, u) <==> HasQueue(t, u)) && (HasBlocking(s, u) <==> HasBlocking(t, u));
      }
  }

  // ---------- Every run ----------

  ghost predicate Run<T(!new)>(s: State<T>, es: seq<Event<T>>, t: State<T>)
    decreases |es|
  {
    if es == [] then t == s else Enabled(s, es[0]) && Run(Step(s, es[0]), es[1..], t)
  }

  lemma {:induction false} RunKeepsInv<T(!new)>(s: State<T>, es: seq<Event<T>>, t: State<T>)
    requires Inv(s) && Run(s, es, t)
    ensures Inv(t)
    decreases |es|
  {
    hide Inv, Step;
    if es != [] {
      StepKeepsInv(s, es[0]);
      RunKeepsInv(Step(s, es[0]), es[1..], t);
    }
  }

  lemma {:induction false} RunSnoc<T(!new)>(s: State<T>, es: seq<Event<T>>, t: State<T>, e: Event<T>)
    requires Run(s, es, t) && Enabled(t, e)
    ensures Run(s, es + [e], Step(t, e))
    decreases |es|
  {
    hide Step;
    if es == [] {
      assert Run(Step(s, e), [], Step(s, e));
      assert (es + [e])[1..] == [];
    } else {
      RunSnoc(Step(s, es[0]), es[1..], t, e);
      assert (es + [e])[1..] == es[1..] + [e];
    }
  }

  ghost predicate Reachable<T(!new)>(n: nat, s: State<T>) {
    exists es :: Run(Initial(n), es, s)
  }

  lemma Reach<T(!new)>(n: nat, s: State<T>, e: Event<T>)
    requires Reachable(n, s) && Enabled(s, e)
    ensures Reachable(n, Step(s, e))
  {
    var es :| Run(Initial(n), es, s);
    RunSnoc(Initial(n), es, s, e);
  }

  lemma ReachableInv<T(!new)>(n: nat, s: State<T>)
    requires Reachable(n, s)
    ensures Inv(s)
  {
    var es :| Run(Initial(n), es, s);
    InitialInv<T>(n);
    RunKeepsInv(Initial(n), es, s);
  }

  /** No two threads are ever between the lock and the unlock of the same mutex. */
  lemma MutualExclusion<T(!new)>(n: nat, s: State<T>, a: Thread, b: Thread)
    requires Reachable(n, s)
    ensures HasQueue(s, a) && HasQueue(s, b) ==> a == b
    ensures HasBlocking(s, a) && HasBlocking(s, b) ==> a == b
  {
    ReachableInv(n, s);
  }

  /** A step that a thread takes by itself, once started. */
  predicate Progress<T>(e: Event<T>) {
    e.Push? || e.Consume?
  }

  /** Nothing is left to do: no push is under way, and the consumer is idle or asleep without a signal. */
  ghost predicate Quiescent<T>(s: State<T>) {
    && (forall i | 0 <= i < |s.producers| :: s.producers[i].Idle?)
    && (s.consumer.Resting? || s.consumer == Asleep(false))
  }

  /** The step of a thread that is not blocked. */
  function Mover<T>(s: State<T>): Event<T> {
    if s.muxBlocking.Some? then (if s.muxBlocking.value.Consumer? then Consume else Push(s.muxBlocking.value.i))
    else if s.muxQueue.Some? then (if s.muxQueue.value.Consumer? then Consume else Push(s.muxQueue.value.i))
    else Consume
  }

  /**
    The two mutexes never deadlock: in every reachable state either some thread can take its
    next step, or nothing is left to do.
   */
  lemma NoDeadlock<T(!new)>(n: nat, s: State<T>)
    requires Reachable(n, s)
    ensures Quiescent(s) <==> !exists e :: Progress(e) && Enabled(s, e)
  {
    ReachableInv(n, s);
    if !Quiescent(s) {
      if s.muxBlocking.Some? {
        assert HasBlocking(s, s.muxBlocking.value);
        assert Enabled(s, Mover(s)) && Progress(Mover(s));
      } else if s.muxQueue.Some? {
        assert HasQueue(s, s.muxQueue.value);
        assert Enabled(s, Mover(s)) && Progress(Mover(s));
      } else {
        FreeMover(s);
      }
    }
  }

  lemma FreeMover<T>(s: State<T>)
    requires Inv(s) && s.muxBlocking.None? && s.muxQueue.None? && !Quiescent(s)
    ensures exists e :: Progress(e) && Enabled(s, e)
  {
    assert !HasQueue(s, Consumer) && !HasBlocking(s, Consumer);
    if i :| 0 <= i < |s.producers| && !s.producers[i].Idle? {
      assert !HasQueue(s, Producer(i));
      assert Progress(Event<T>.Push(i)) && Enabled(s, Push(i));
    } else {
      assert Progress(Event<T>.Consume) && Enabled(s, Consume);
    }
  }

  /** Steps a producer can still cause: its own, and those of a consumer that it wakes. */
  function Owed<T>(p: Pushing<T>): nat {
    match p
    case Idle => 0
    case FreeQueue => 1
    case FreeBlocking => 2
    case Notify => 11
    case WantBlocking => 12
    case Emplace(_, _) => 13
    case WantQueue(_, _) => 14
  }

  function AllOwed<T>(ps: seq<Pushing<T>>): nat {
    if ps == [] then 0 else Owed(ps[0]) + AllOwed(ps[1..])
  }

  function ConsumerOwes<T>(c: Consuming<T>, left: nat): nat {
    match c
    case Resting => 0
    case Undefined => 0
    case LeavePop(_) => 6 * left + 1
    case Pop => 6 * left + 2
    case WantPop => 6 * left + 3
    case LeaveEmpty(caller, _) => 6 * left + if caller.InUpdate? then 4 else 10
    case ReadEmpty(caller) => 6 * left + if caller.InUpdate? then 5 else 11
    case WantEmpty(caller) => 6 * left + if caller.InUpdate? then 6 else 12
    case Asleep(signalled) => 6 * left + if signalled then 15 else 7
    case Sleep => 6 * left + 8
    case WantSleep => 6 * left + 9
    case LeaveSleep => 6 * left + 13
    case Waking => 6 * left + 14
  }

  function WorkLeft<T>(s: State<T>): nat {
    AllOwed(s.producers) + ConsumerOwes(s.consumer, s.left)
  }

  lemma {:induction false} OwedAt<T>(ps: seq<Pushing<T>>, i: nat, p: Pushing<T>)
    requires i < |ps|
    ensures AllOwed(ps[i := p]) + Owed(ps[i]) == AllOwed(ps) + Owed(p)
  {
    if i > 0 {
      OwedAt(ps[1..], i - 1, p);
      assert ps[i := p][1..] == ps[1..][i - 1 := p];
    } else {
      assert ps[i := p][1..] == ps[1..];
    }
  }

  lemma PushWorks<T>(s: State<T>, i: nat)
    requires Enabled(s, Push(i))
    ensures
      var t := StepPush(s, i);
      && |t.producers| == |s.producers| && t.producers == s.producers[i := t.producers[i]]
      && Owed(t.producers[i]) + ConsumerOwes(t.consumer, t.left)
         < Owed(s.producers[i]) + ConsumerOwes(s.consumer, s.left)
  {
  }

  lemma ConsumeWorks<T>(s: State<T>)
    requires Enabled(s, Consume)
    ensures
      var t := StepConsume(s);
      t.producers == s.producers && ConsumerOwes(t.consumer, t.left) < ConsumerOwes(s.consumer, s.left)
  {
    match s.consumer
    case LeavePop(_) =>
    case LeaveEmpty(_, _) =>
    case Pop =>
    case _ =>
  }

  lemma ProgressWorks<T>(s: State<T>, e: Event<T>)
    requires Enabled(s, e) && Progress(e)
    ensures WorkLeft(Step(s, e)) < WorkLeft(s)
  {
    hide Owed, ConsumerOwes, AllOwed, StepPush, StepConsume;
    if e.Push? {
      PushWorks(s, e.i);
      OwedAt(s.producers, e.i, StepPush(s, e.i).producers[e.i]);
    } else {
      ConsumeWorks(s);
    }
  }

  /**
    No thread runs for ever on what it has been asked to do: the steps that can follow
    without another call or spurious wake-up are bounded, so with NoDeadlock every run that
    cannot go on has come to rest.
   */
  lemma {:induction false} WorkEnds<T(!new)>(s: State<T>, es: seq<Event<T>>, t: State<T>)
    requires Run(s, es, t) && forall e | e in es :: Progress(e)
    ensures |es| + WorkLeft(t) <= WorkLeft(s)
    decreases |es|
  {
    hide WorkLeft, Step;
    if es != [] {
      assert es[0] in es;
      ProgressWorks(s, es[0]);
      WorkEnds(Step(s, es[0]), es[1..], t);
    }
  }

  /** wait returns only with the queue non-empty, and a pop guarded by empty finds an item. */
  lemma WaitAndPop<T(!new)>(n: nat, s: State<T>)
    requires Reachable(n, s)
    ensures s.consumer == LeaveEmpty(InWait, false) ==> s.queue != []
    ensures s.consumer.Pop? ==> s.queue != []
    ensures !s.consumer.Undefined?
  {
    ReachableInv(n, s);
  }

  /** Somewhere between the call of wait and its return. */
  predicate InsideWait<T>(c: Consuming<T>) {
    || ((c.WantEmpty? || c.ReadEmpty? || c.LeaveEmpty?) && c.caller.InWait?)
    || c.WantSleep? || c.Sleep? || c.Asleep? || c.Waking? || c.LeaveSleep?
  }

  /**
    Whatever woke it, wait returns only at a moment when the queue is not empty; and the loop
    of Update ends only there, when it has its maximum, or when it has found the queue empty.
   */
  lemma WaitReturns<T(!new)>(n: nat, s: State<T>, e: Event<T>)
    requires Reachable(n, s) && Enabled(s, e)
    ensures InsideWait(s.consumer) && !InsideWait(Step(s, e).consumer) ==> s.queue != [] && Step(s, e).queue == s.queue
    ensures !s.consumer.Resting? && Step(s, e).consumer.Resting? ==>
              Step(s, e).left == 0 || (s.queue == [] && Step(s, e).queue == [])
    ensures e.Spurious? ==> s.consumer == Asleep(false) && !Step(s, e).consumer.Asleep?
  {
    ReachableInv(n, s);
    hide Locks, Guarded, Counted, Conserved, Reachable, StepPush, StepConsume, InsideWait;
    match e
    case Push(i) => PushLeavesConsumer(s, i);
    case Consume => ConsumeReturns(s);
    case Call(_, _, _) =>
    case Update(_, _) => OutsideWait(s);
    case Spurious => AwakeInWait(s);
  }

  lemma ConsumeReturns<T>(s: State<T>)
    requires Guarded(s) && Enabled(s, Consume)
    ensures
      var t := StepConsume(s);
      && (InsideWait(s.consumer) && !InsideWait(t.consumer) ==> s.queue != [] && t.queue == s.queue)
      && (!s.consumer.Resting? && t.consumer.Resting? ==> t.left == 0 || (s.queue == [] && t.queue == []))
  {
  }

  lemma OutsideWait<T>(s: State<T>)
    requires s.consumer.Resting?
    ensures !InsideWait(s.consumer)
  {
  }

  lemma AwakeInWait<T>(s: State<T>)
    requires Enabled(s, Spurious)
    ensures InsideWait(Step(s, Spurious).consumer) && !Step(s, Spurious).consumer.Resting?
    ensures !Step(s, Spurious).consumer.Asleep?
  {
  }

  lemma PushLeavesConsumer<T>(s: State<T>, i: nat)
    requires Enabled(s, Push(i))
    ensures InsideWait(StepPush(s, i).consumer) == InsideWait(s.consumer)
    ensures StepPush(s, i).consumer.Resting? == s.consumer.Resting?
  {
  }

  /** Between the test of the loop's count in Update and the next message handed over. */
  predicate InsideLoop<T>(c: Consuming<T>) {
    || ((c.WantEmpty? || c.ReadEmpty? || c.LeaveEmpty?) && c.caller.InUpdate?)
    || c.WantPop? || c.Pop? || c.LeavePop?
  }

  /** What has been delivered since before, and what may still be, make up the maximum. */
  ghost predicate Metered<T>(s: State<T>, before: seq<T>, max: nat) {
    && before <= s.delivered
    && |s.delivered| - |before| + s.left == max
    && (InsideLoop(s.consumer) ==> s.left > 0)
  }

  lemma StepMeters<T>(s: State<T>, e: Event<T>, before: seq<T>, max: nat)
    requires Metered(s, before, max) && Enabled(s, e) && !e.Update?
    ensures Metered(Step(s, e), before, max)
  {
    hide StepPush, StepConsume, Metered;
    match e
    case Call(_, _, _) => Unmetered(s, Step(s, e), before, max);
    case Push(i) => PushUnmetered(s, i, before, max);
    case Consume => ConsumeMeters(s, before, max);
    case Spurious => Unmetered(s, Step(s, e), before, max);
  }

  lemma Unmetered<T>(s: State<T>, t: State<T>, before: seq<T>, max: nat)
    requires Metered(s, before, max) && t.delivered == s.delivered && t.left == s.left
    requires t.consumer == s.consumer || !InsideLoop(t.consumer)
    ensures Metered(t, before, max)
  {
  }

  lemma PushUnmetered<T>(s: State<T>, i: nat, before: seq<T>, max: nat)
    requires Metered(s, before, max) && Enabled(s, Push(i))
    ensures Metered(StepPush(s, i), before, max)
  {
  }

  lemma ConsumeMeters<T>(s: State<T>, before: seq<T>, max: nat)
    requires Metered(s, before, max) && Enabled(s, Consume)
    ensures Metered(StepConsume(s), before, max)
  {
  }

  lemma {:induction false} RunMeters<T(!new)>(
      s: State<T>, es: seq<Event<T>>, t: State<T>, before: seq<T>, max: nat)
    requires Metered(s, before, max) && Run(s, es, t) && forall e | e in es :: !e.Update?
    ensures Metered(t, before, max)
    decreases |es|
  {
    hide Metered, Step;
    if es != [] {
      assert es[0] in es;
      StepMeters(s, es[0], before, max);
      RunMeters(Step(s, es[0]), es[1..], t, before, max);
    }
  }

  /**
    However the threads interleave, one Update hands over at most its maximum, and when it
    has returned it has handed over exactly the maximum or, with WaitReturns, found the queue
    empty first.
   */
  lemma UpdateDelivers<T(!new)>(s: State<T>, max: nat, wait: bool, es: seq<Event<T>>, t: State<T>)
    requires Enabled(s, Update(max, wait)) && Run(Step(s, Update(max, wait)), es, t)
    requires forall e | e in es :: !e.Update?
    ensures s.delivered <= t.delivered && |t.delivered| + t.left == |s.delivered| + max
    ensures wait && es == [] ==> InsideWait(t.consumer)
  {
    RunMeters(Step(s, Update(max, wait)), es, t, s.delivered, max);
  }

  /** Until it has emplaced its item, a producer keeps the end and the item it was called with. */
  ghost predicate Holds<T>(s: State<T>, i: nat, end: End, x: T) {
    && i < |s.producers|
    && var p := s.producers[i];
       p == WantQueue(end, x) || p == Emplace(end, x) || !(p.WantQueue? || p.Emplace?)
  }

  lemma StepHolds<T>(s: State<T>, e: Event<T>, i: nat, end: End, x: T)
    requires Holds(s, i, end, x) && Enabled(s, e) && !(e.Call? && e.i == i)
    ensures Holds(Step(s, e), i, end, x)
  {
    hide StepConsume;
    if e.Consume? { ConsumeLeavesProducers(s); }
  }

  lemma ConsumeLeavesProducers<T>(s: State<T>)
    requires Enabled(s, Consume)
    ensures StepConsume(s).producers == s.producers
  {
  }

  lemma {:induction false} RunHolds<T(!new)>(s: State<T>, es: seq<Event<T>>, t: State<T>, i: nat, end: End, x: T)
    requires Run(s, es, t) && Holds(s, i, end, x)
    requires forall e | e in es :: !(e.Call? && e.i == i)
    ensures Holds(t, i, end, x)
    decreases |es|
  {
    hide Step, Holds;
    if es != [] {
      assert es[0] in es;
      StepHolds(s, es[0], i, end, x);
      RunHolds(Step(s, es[0]), es[1..], t, i, end, x);
    }
  }

  /**
    However the threads interleave, the item that a call of push gave is emplaced at the end
    that the call asked for, and nothing else in the queue moves.
   */
  lemma PushPlaces<T(!new)>(s: State<T>, i: nat, end: End, x: T, es: seq<Event<T>>, t: State<T>)
    requires Enabled(s, Call(i, end, x)) && Run(Step(s, Call(i, end, x)), es, t)
    requires forall e | e in es :: !(e.Call? && e.i == i)
    requires i < |t.producers| && t.producers[i].Emplace?
    ensures Enabled(t, Push(i))
    ensures Step(t, Push(i)).queue == match end case Back => t.queue + [x] case Front => [x] + t.queue
  {
    RunHolds(Step(s, Call(i, end, x)), es, t, i, end, x);
  }

  /** What is pushed is delivered once, and in order if nothing is pushed to the front. */
  lemma Delivery<T(!new)>(n: nat, s: State<T>)
    requires Reachable(n, s)
    ensures multiset(s.delivered) + multiset(InHand(s.consumer)) + multiset(s.queue) == multiset(s.pushed)
    ensures !s.front ==> s.delivered + InHand(s.consumer) + s.queue == s.pushed
  {
    ReachableInv(n, s);
  }

  /**
    What a sleeping consumer can miss: exactly the items whose notification fell between its
    test and its sleep, and the at most one whose notification is still to come.
   */
  lemma MissedItems<T(!new)>(n: nat, s: State<T>)
    requires Reachable(n, s) && s.consumer == Asleep(false)
    ensures |s.queue| == s.lost + (if Unnotified(s) then 1 else 0)
    ensures Quiescent(s) ==> (s.queue != [] <==> s.lost > 0)
  {
    ReachableInv(n, s);
  }

  /** Notifications given on a run. */
  function Notified<T(!new)>(s: State<T>, es: seq<Event<T>>): nat
    decreases |es|
  {
    if es == [] || !Enabled(s, es[0]) then 0
    else
      (if es[0].Push? && s.producers[es[0].i].Notify? then 1 else 0) + Notified(Step(s, es[0]), es[1..])
  }

  /** The next notification ends the sleep: while it lasts there has been none. */
  lemma {:induction false} NextPushSignals<T(!new)>(s: State<T>, es: seq<Event<T>>, t: State<T>)
    requires Run(s, es, t) && s.consumer == Asleep(false)
    requires forall e | e in es :: e.Call? || e.Push?
    ensures t.consumer == if Notified(s, es) == 0 then Asleep(false) else Asleep(true)
    ensures t.lost >= s.lost && (Notified(s, es) > 0 ==> Enabled(t, Consume))
    decreases |es|
  {
    if es != [] {
      assert es[0] in es;
      var s1 := Step(s, es[0]);
      if s1.consumer == Asleep(false) {
        NextPushSignals(s1, es[1..], t);
      } else {
        StaysSignalled(s1, es[1..], t);
      }
    }
  }

  lemma {:induction false} StaysSignalled<T(!new)>(s: State<T>, es: seq<Event<T>>, t: State<T>)
    requires Run(s, es, t) && s.consumer == Asleep(true)
    requires forall e | e in es :: e.Call? || e.Push?
    ensures t.consumer == Asleep(true) && t.lost >= s.lost
    decreases |es|
  {
    if es != [] {
      assert es[0] in es;
      StaysSignalled(Step(s, es[0]), es[1..], t);
    }
  }

  predicate BeforeNotify<T>(p: Pushing<T>) {
    p.WantQueue? || p.Emplace? || p.WantBlocking? || p.Notify?
  }

  lemma {:induction false} UnnotifiedPush<T(!new)>(s: State<T>, es: seq<Event<T>>, t: State<T>, i: nat)
    requires Run(s, es, t) && i < |s.producers| && BeforeNotify(s.producers[i]) && Notified(s, es) == 0
    ensures i < |t.producers| && BeforeNotify(t.producers[i])
    decreases |es|
  {
    if es != [] {
      UnnotifiedPush(Step(s, es[0]), es[1..], t, i);
    }
  }

  /** The next push to complete signals a sleeping consumer, whatever else the producers do. */
  lemma CompletedPushSignals<T(!new)>(s: State<T>, es: seq<Event<T>>, t: State<T>, i: nat)
    requires Run(s, es, t) && s.consumer == Asleep(false)
    requires forall e | e in es :: e.Call? || e.Push?
    requires i < |s.producers| && BeforeNotify(s.producers[i])
    requires i < |t.producers| && t.producers[i].Idle?
    ensures t.consumer == Asleep(true) && Enabled(t, Consume)
  {
    NextPushSignals(s, es, t);
    if Notified(s, es) == 0 {
      UnnotifiedPush(s, es, t, i);
    }
  }

  /** The consumer has seen the queue empty and has not yet gone to sleep. */
  function InGap<T>(): State<T> {
    Initial<T>(1).(consumer := WantSleep, left := 1)
  }

  lemma GapReached<T(!new)>()
    ensures Reachable(1, InGap<T>())
  {
    var s0 := Initial<T>(1);
    assert Reachable(1, s0) by {
      var es: seq<Event<T>> := [];
      assert Run(Initial(1), es, s0);
    }
    hide Reachable;
    Reach(1, s0, Update(1, true));
    var s1 := s0.(consumer := WantEmpty(InWait), left := 1);
    Reach(1, s1, Consume);
    var s2 := s1.(consumer := ReadEmpty(InWait), muxQueue := Some(Consumer));
    Reach(1, s2, Consume);
    Reach(1, s2.(consumer := LeaveEmpty(InWait, true)), Consume);
  }

  lemma PushInGap<T(!new)>(x: T)
    ensures Reachable(1, InGap<T>().(queue := [x], pushed := [x], lost := 1))
  {
    hide Reachable;
    GapReached<T>();
    var s0 := InGap<T>();
    Reach(1, s0, Call(0, Back, x));
    var s1 := At(s0, 0, WantQueue(Back, x));
    Reach(1, s1, Push(0));
    var s2 := At(s1, 0, Emplace(Back, x)).(muxQueue := Some(Producer(0)));
    Reach(1, s2, Push(0));
    var s3 := At(s2, 0, WantBlocking).(queue := s2.queue + [x], pushed := s2.pushed + [x]);
    Reach(1, s3, Push(0));
    var s4 := At(s3, 0, Notify).(muxBlocking := Some(Producer(0)));
    Reach(1, s4, Push(0));
    var s5 := At(s4, 0, FreeBlocking).(lost := 1);
    Reach(1, s5, Push(0));
    var s6 := At(s5, 0, FreeQueue).(muxBlocking := None);
    Reach(1, s6, Push(0));
    assert s3.queue == [x] && s3.pushed == [x] && s6.producers[0 := Idle] == s0.producers;
  }

  /**
    The gap is real: a push that runs between the consumer's test and its sleep leaves it
    asleep for good beside the pushed item.
   */
  lemma LostWakeup<T(!new)>(x: T)
    ensures exists s: State<T> ::
      Reachable(1, s) && Quiescent(s) && s.consumer == Asleep(false) && s.queue == [x]
  {
    hide Reachable;
    PushInGap(x);
    var s := InGap<T>().(queue := [x], pushed := [x], lost := 1);
    Reach(1, s, Consume);
    var s1 := s.(consumer := Sleep, muxBlocking := Some(Consumer));
    Reach(1, s1, Consume);
    assert Quiescent(StepConsume(s1));
  }
}
