/**
  The tsqueue object.  Each of its atomic operations, done by a thread at the right point of
  its program, is one step of the queue machine; the calls below them are what a thread does
  when no other interrupts it.
 */
module TsQueueObjects {
  import opened Bytes
  import opened TsQueues

  function Next<T>(t: Thread): Event<T> {
    if t.Consumer? then Consume else Push(t.i)
  }

  /** The next step of thread t locks or unlocks muxQueue or muxBlocking, or notifies. */
  datatype Operation = LocksQueue | UnlocksQueue | LocksBlocking | UnlocksBlocking | Notifies | Other

  function OperationOf<T>(s: State<T>, t: Thread): Operation {
    if t.Consumer? then
      match s.consumer
      case WantEmpty(_) => LocksQueue
      case WantPop => LocksQueue
      case LeaveEmpty(_, _) => UnlocksQueue
      case LeavePop(_) => UnlocksQueue
      case WantSleep => LocksBlocking
      case Waking => LocksBlocking
      case LeaveSleep => UnlocksBlocking
      case _ => Other
    else if t.i >= |s.producers| then Other
    else
      match s.producers[t.i]
      case WantQueue(_, _) => LocksQueue
      case FreeQueue => UnlocksQueue
      case WantBlocking => LocksBlocking
      case FreeBlocking => UnlocksBlocking
      case Notify => Notifies
      case _ => Other
  }

  class TsQueue<T> {
    var deqQueue: seq<T>
    var muxQueue: Option<Thread>
    var muxBlocking: Option<Thread>
    var cvBlocking: Option<bool>     // the consumer is asleep, and has been signalled or not

    ghost var model: State<T>

    ghost predicate Valid()
      reads this
    {
      && Inv(model)
      && model.queue == deqQueue
      && model.muxQueue == muxQueue
      && model.muxBlocking == muxBlocking
      && cvBlocking == (if model.consumer.Asleep? then Some(model.consumer.signalled) else None)
    }

    constructor (ghost producers: nat)
      ensures Valid() && model == Initial(producers)
    {
      deqQueue, muxQueue, muxBlocking, cvBlocking := [], None, None, None;
      model := Initial(producers);
      new;
      InitialInv<T>(producers);
    }

    // ---------- Atomic operations ----------

    method LockQueue(t: Thread)
      requires Valid() && Enabled(model, Next(t)) && OperationOf(model, t) == LocksQueue
      modifies this
      ensures Valid() && model == Step(old(model), Next(t))
    {
      hide Inv;
      StepKeepsInv(model, Next(t));
      model := Step(model, Next(t));
      muxQueue := Some(t);
    }

    method UnlockQueue(t: Thread)
      requires Valid() && Enabled(model, Next(t)) && OperationOf(model, t) == UnlocksQueue
      modifies this
      ensures Valid() && model == Step(old(model), Next(t))
    {
      hide Inv;
      StepKeepsInv(model, Next(t));
      model := Step(model, Next(t));
      muxQueue := None;
    }

    method LockBlocking(t: Thread)
      requires Valid() && Enabled(model, Next(t)) && OperationOf(model, t) == LocksBlocking
      modifies this
      ensures Valid() && model == Step(old(model), Next(t))
    {
      hide Inv;
      StepKeepsInv(model, Next(t));
      model := Step(model, Next(t));
      muxBlocking := Some(t);
    }

    method UnlockBlocking(t: Thread)
      requires Valid() && Enabled(model, Next(t)) && OperationOf(model, t) == UnlocksBlocking
      modifies this
      ensures Valid() && model == Step(old(model), Next(t))
    {
      hide Inv;
      StepKeepsInv(model, Next(t));
      model := Step(model, Next(t));
      muxBlocking := None;
    }

    method NotifyOne(t: Thread)
      requires Valid() && Enabled(model, Next(t)) && OperationOf(model, t) == Notifies
      modifies this
      ensures Valid() && model == Step(old(model), Next(t))
    {
      hide Inv;
      StepKeepsInv(model, Next(t));
      model := Step(model, Next(t));
      if cvBlocking == Some(false) {
        cvBlocking := Some(true);
      }
    }

    method Emplace(ghost i: nat, end: End, x: T)
      requires Valid() && Enabled(model, Push(i)) && model.producers[i] == Pushing.Emplace(end, x)
      modifies this
      ensures Valid() && model == Step(old(model), Push(i))
    {
      hide Inv;
      StepKeepsInv(model, Push(i));
      model := Step(model, Push(i));
      match end {
        case Back => deqQueue := deqQueue + [x];
        case Front => deqQueue := [x] + deqQueue;
      }
    }

    method DequeEmpty() returns (empty: bool)
      requires Valid() && Enabled(model, Consume) && model.consumer.ReadEmpty?
      modifies this
      ensures Valid() && model == Step(old(model), Consume)
      ensures empty == (deqQueue == []) && model.consumer == LeaveEmpty(old(model).consumer.caller, empty)
    {
      hide Inv;
      StepKeepsInv(model, Consume);
      model := Step(model, Consume);
      empty := |deqQueue| == 0;
    }

    lemma PopFindsItem()
      requires Valid() && model.consumer.Pop?
      ensures deqQueue != []
    {
    }

    /** front and pop_front of the deque; the machine shows that it is not empty here. */
    method DequePop() returns (x: T)
      requires Valid() && Enabled(model, Consume) && model.consumer.Pop?
      modifies this
      ensures Valid() && model == Step(old(model), Consume)
      ensures old(deqQueue) == [x] + deqQueue && model.consumer == LeavePop(x)
    {
      hide Inv;
      assert deqQueue != [] by { PopFindsItem(); }
      StepKeepsInv(model, Consume);
      model := Step(model, Consume);
      x := deqQueue[0];
      deqQueue := deqQueue[1..];
    }

    /** cvBlocking.wait releases muxBlocking and sleeps in one step. */
    method Wait()
      requires Valid() && Enabled(model, Consume) && model.consumer.Sleep?
      modifies this
      ensures Valid() && model == Step(old(model), Consume)
    {
      hide Inv;
      StepKeepsInv(model, Consume);
      model := Step(model, Consume);
      muxBlocking, cvBlocking := None, Some(false);
    }

    /** The sleep ends, by a signal or without one. */
    method Wake()
      requires Valid() && model.consumer.Asleep?
      modifies this
      ensures Valid() && model == Step(old(model), if old(cvBlocking) == Some(true) then Consume else Spurious)
    {
      hide Inv;
      ghost var e: Event<T> := if model.consumer.signalled then Consume else Spurious;
      StepKeepsInv(model, e);
      model := Step(model, e);
      cvBlocking := None;
    }

    ghost method Start(e: Event<T>)
      requires Valid() && Enabled(model, e) && (e.Call? || e.Update?)
      modifies `model
      ensures Valid() && model == Step(old(model), e)
    {
      hide Inv;
      StepKeepsInv(model, e);
      model := Step(model, e);
    }

    // ---------- Uninterrupted calls ----------

    /** The front half of a push, holding muxQueue from here on. */
    method Insert(i: nat, end: End, x: T)
      requires Valid() && i < |model.producers| && model.producers[i] == WantQueue(end, x) && muxQueue.None?
      modifies this
      ensures Valid() && muxQueue == Some(Producer(i)) && muxBlocking == old(muxBlocking)
      ensures deqQueue == if end.Back? then old(deqQueue) + [x] else [x] + old(deqQueue)
      ensures model.producers == old(model).producers[i := WantBlocking]
      ensures model.consumer == old(model).consumer && model.left == old(model).left
    {
      hide Inv, StepConsume;
      LockQueue(Producer(i));
      Emplace(i, end, x);
      assert model.producers == old(model).producers[i := WantBlocking];
    }

    /** The back half, up to the release of muxQueue. */
    method Signal(i: nat)
      requires Valid() && i < |model.producers| && model.producers[i].WantBlocking? && muxBlocking.None?
      modifies this
      ensures Valid() && muxQueue == old(muxQueue) && muxBlocking.None? && deqQueue == old(deqQueue)
      ensures cvBlocking == if old(cvBlocking).Some? then Some(true) else None
      ensures model.producers == old(model).producers[i := FreeQueue]
      ensures model.left == old(model).left && (!model.consumer.Asleep? ==> model.consumer == old(model).consumer)
    {
      hide Inv, StepConsume;
      LockBlocking(Producer(i));
      NotifyOne(Producer(i));
      UnlockBlocking(Producer(i));
      assert model.producers == old(model).producers[i := FreeQueue];
    }

    /** push_back and push_front: the item is in the queue, a sleeper is signalled, the mutexes are free. */
    method PushAt(i: nat, end: End, x: T)
      requires Valid() && i < |model.producers| && model.producers[i].Idle?
      requires muxQueue.None? && muxBlocking.None?
      modifies this
      ensures Valid() && muxQueue.None? && muxBlocking.None?
      ensures deqQueue == if end.Back? then old(deqQueue) + [x] else [x] + old(deqQueue)
      ensures cvBlocking == if old(cvBlocking).Some? then Some(true) else None
      ensures model.producers == old(model).producers && model.left == old(model).left
      ensures !model.consumer.Asleep? ==> model.consumer == old(model).consumer
    {
      hide Inv, StepConsume;
      Start(Call(i, end, x));
      Insert(i, end, x);
      Signal(i);
      UnlockQueue(Producer(i));
      assert model.producers == old(model).producers;
    }

    /** empty, and the branch its caller takes on the answer. */
    method Empty() returns (empty: bool)
      requires Valid() && model.consumer.WantEmpty? && muxQueue.None?
      modifies this
      ensures Valid() && muxQueue.None? && muxBlocking == old(muxBlocking) && deqQueue == old(deqQueue)
      ensures empty == (deqQueue == []) && model.left == old(model).left
      ensures model.producers == old(model).producers && model.delivered == old(model).delivered
      ensures model.consumer == match old(model).consumer.caller
                                case InWait => if empty then WantSleep else Loop(model)
                                case InUpdate => if empty then Resting else WantPop
    {
      hide Inv;
      LockQueue(Consumer);
      empty := DequeEmpty();
      UnlockQueue(Consumer);
    }

    method PopFront() returns (x: T)
      requires Valid() && model.consumer.WantPop? && muxQueue.None? && model.left > 0
      modifies this
      ensures Valid() && muxQueue.None? && muxBlocking == old(muxBlocking) && old(deqQueue) == [x] + deqQueue
      ensures model.left == old(model).left - 1 && model.consumer == Loop(model)
      ensures model.producers == old(model).producers && model.delivered == old(model).delivered + [x]
    {
      hide Inv;
      LockQueue(Consumer);
      x := DequePop();
      UnlockQueue(Consumer);
    }

    /**
      Update of a queue that nobody else touches: asked to wait on an empty queue it goes to
      sleep; otherwise it hands over the first max messages, in order, and no more.
     */
    method Update(max: nat, wait: bool) returns (handled: seq<T>, asleep: bool)
      requires Valid() && model.consumer.Resting? && muxQueue.None? && muxBlocking.None?
      modifies this
      ensures Valid() && muxQueue.None? && muxBlocking.None?
      ensures asleep == (wait && old(deqQueue) == [])
      ensures if asleep then cvBlocking == Some(false) else model.consumer.Resting?
      ensures handled == old(deqQueue)[..if max < |old(deqQueue)| then max else |old(deqQueue)|]
      ensures deqQueue == old(deqQueue)[|handled|..] && model.delivered == old(model).delivered + handled
    {
      hide Inv;
      handled, asleep := [], false;
      Start(Event.Update(max, wait));
      if wait {
        asleep := Empty();
        if asleep {
          LockBlocking(Consumer);
          Wait();
          return;
        }
      }
      var count := 0;
      while count < max
        invariant Valid() && muxQueue.None? && muxBlocking.None? && 0 <= count <= max
        invariant count == |handled| && model.left == max - count
        invariant model.consumer == Loop(model)
        invariant old(deqQueue) == handled + deqQueue
        invariant model.delivered == old(model).delivered + handled
      {
        var empty := Empty();
        if empty {
          return;
        }
        var x := PopFront();
        handled := handled + [x];
        count := count + 1;
      }
    }
  }
}
