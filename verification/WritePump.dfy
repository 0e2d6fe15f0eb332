/**
  The write pump shared by both protocols: a queue of messages, at most one of which has an
  asynchronous write outstanding, restarted from that write's completion handler.

  A message is a job: the non-empty list of buffers it is written from, one async_write
  each.  A framed-transport message is a header and, unless empty, a body; a chat message is
  a single buffer.  The socket puts bytes on the wire in the order in which the writes were
  initiated: `submitted` is everything handed to the socket so far and `moved` says how much
  of it has left.  `ops` holds the outstanding message writes by the position in `submitted`
  at which they end.  `done`, `prefix`, `mix`, `submitted` and `failed` are history.
 */
module WritePump {
  import opened Bytes
  import opened Framing

  type Job = j: seq<seq<byte>> | |j| > 0 witness [[]]

  /**
    Whether bytes were written outside the pump after its first job: not at all, once after
    `at` of the pump's own bytes, or more often.
   */
  datatype Mix = Clean | Cut(at: nat, word: seq<byte>) | Often

  datatype Writer = Writer(
    queue: seq<Job>,
    next: nat,             // buffers of queue[0] whose write has been initiated
    ops: seq<nat>,
    failed: bool,          // a message write has completed with an error
    done: seq<Job>,        // jobs popped from the queue
    prefix: seq<byte>,     // bytes written outside the pump before its first job
    mix: Mix,
    submitted: seq<byte>,
    moved: nat)
  {
    predicate Mixed() {
      !mix.Clean?
    }
  }

  const FRESH := Writer([], 0, [], false, [], [], Clean, [], 0)

  function Accepted(w: Writer): seq<Job> {
    w.done + w.queue
  }

  function Produced(w: Writer): seq<byte>
    requires w.moved <= |w.submitted|
  {
    w.submitted[..w.moved]
  }

  function Flat(jobs: seq<Job>): (fs: seq<Frame>)
    ensures |fs| == |jobs|
  {
    seq(|jobs|, i requires 0 <= i < |jobs| => Concat(jobs[i]))
  }

  datatype Event =
    | Offer(job: Job)             // the enqueueing closure, or deliver
    | Transfer(n: nat)            // n bytes leave the host
    | Written(i: nat)             // handler of outstanding write i, no error
    | WriteError(i: nat)          // handler of outstanding write i, with an error
    | Inject(bytes: seq<byte>)    // a write initiated outside the pump

  predicate Enabled(w: Writer, e: Event) {
    match e
    case Offer(_) => true
    case Transfer(n) => !w.failed && w.moved + n <= |w.submitted|
    case Written(i) => i < |w.ops| && w.ops[i] <= w.moved
    case WriteError(i) => i < |w.ops|
    case Inject(_) => true
  }

  /** Initiates the write of the next buffer of the front job. */
  function Submit(w: Writer): Writer
    requires w.queue != [] && w.next < |w.queue[0]|
  {
    var s := w.submitted + w.queue[0][w.next];
    w.(submitted := s, ops := w.ops + [|s|], next := w.next + 1)
  }

  function RemoveOp(w: Writer, i: nat): Writer
    requires i < |w.ops|
  {
    w.(ops := w.ops[..i] + w.ops[i + 1..])
  }

  /** What the front job has handed to the socket. */
  function Begun(w: Writer): seq<byte> {
    if w.queue == [] || w.next > |w.queue[0]| then [] else Concat(w.queue[0][..w.next])
  }

  /** What the pump itself has handed to the socket. */
  function Own(w: Writer): seq<byte> {
    Concat(Flat(w.done)) + Begun(w)
  }

  /** What a write outside the pump makes of the stream. */
  function Cutting(w: Writer, bytes: seq<byte>): Mix {
    if w.mix.Clean? then Cut(|Own(w)|, bytes) else Often
  }

  function Step(w: Writer, e: Event): Writer
    requires Enabled(w, e)
  {
    match e
    case Offer(job) =>
      var w1 := w.(queue := w.queue + [job]);
      if w.queue != [] then w1 else Submit(w1.(next := 0))
    case Transfer(n) => w.(moved := w.moved + n)
    case Written(i) =>
      var w1 := RemoveOp(w, i);
      if w.queue == [] then w1  // front() of an empty deque; Inv shows it cannot be
      else if w.next < |w.queue[0]| then Submit(w1)
      else
        var w2 := w1.(done := w.done + [w.queue[0]], queue := w.queue[1..], next := 0);
        if w2.queue == [] then w2 else Submit(w2)
    case WriteError(i) => RemoveOp(w, i).(failed := true)
    case Inject(bytes) =>
      var w1 := w.(submitted := w.submitted + bytes);
      if Accepted(w) == [] then w1.(prefix := w.prefix + bytes)
      else w1.(mix := Cutting(w, bytes))
  }

  ghost predicate Pumping(w: Writer) {
    && |w.ops| == (if w.queue != [] && !w.failed then 1 else 0)
    && (w.failed ==> w.queue != [])
    && w.moved <= |w.submitted|
    && (forall i | 0 <= i < |w.ops| :: w.ops[i] <= |w.submitted|)
    && (w.queue == [] ==> w.next == 0)
    && (w.queue != [] ==> 1 <= w.next <= |w.queue[0]|)
  }

  /** The socket has been handed the prefix and the pump's own bytes, perhaps cut once by a word. */
  ghost predicate Streaming(w: Writer) {
    && (w.mix.Clean? ==> w.submitted == w.prefix + Own(w))
    && (w.mix.Cut? ==>
          && Accepted(w) != [] && |Accepted(w)[0][0]| <= w.mix.at <= |Own(w)|
          && w.submitted == w.prefix + Own(w)[..w.mix.at] + w.mix.word + Own(w)[w.mix.at..])
    && (w.Mixed() ==> Accepted(w) != [] && w.prefix + Accepted(w)[0][0] <= w.submitted)
  }

  ghost predicate Inv(w: Writer) {
    Pumping(w) && Streaming(w)
  }

  lemma FlatSnoc(jobs: seq<Job>, job: Job)
    ensures Concat(Flat(jobs + [job])) == Concat(Flat(jobs)) + Concat(job)
  {
    assert Flat(jobs + [job]) == Flat(jobs) + [Concat(job)];
    ConcatSnoc(Flat(jobs), Concat(job));
  }

  lemma CutGrows(prefix: seq<byte>, own: seq<byte>, at: nat, word: seq<byte>, bytes: seq<byte>)
    requires at <= |own|
    ensures prefix + own[..at] + word + own[at..] + bytes
         == prefix + (own + bytes)[..at] + word + (own + bytes)[at..]
  {
    assert (own + bytes)[..at] == own[..at];
    assert (own + bytes)[at..] == own[at..] + bytes;
    var head := prefix + own[..at] + word;
    assert head + own[at..] + bytes == head + (own[at..] + bytes);
  }

  /** A stream goes on with bytes of the pump's own. */
  lemma StreamGrows(w: Writer, t: Writer, bytes: seq<byte>)
    requires Streaming(w)
    requires t.prefix == w.prefix && t.mix == w.mix && Accepted(w) <= Accepted(t)
    requires t.submitted == w.submitted + bytes && Own(t) == Own(w) + bytes
    ensures Streaming(t)
  {
    hide Own, Accepted;
    match w.mix
    case Cut(at, word) => CutGrows(w.prefix, Own(w), at, word, bytes);
    case Clean => assert w.prefix + Own(w) + bytes == w.prefix + (Own(w) + bytes);
    case Often =>
  }

  lemma StreamStays(w: Writer, t: Writer)
    requires Streaming(w)
    requires t.prefix == w.prefix && t.mix == w.mix && Accepted(w) <= Accepted(t)
    requires t.submitted == w.submitted && Own(t) == Own(w)
    ensures Streaming(t)
  {
    hide Own, Accepted;
  }

  lemma SubmitBegins(w: Writer)
    requires w.queue != [] && w.next < |w.queue[0]|
    ensures Submit(w).submitted == w.submitted + w.queue[0][w.next]
    ensures Own(Submit(w)) == Own(w) + w.queue[0][w.next] && Accepted(Submit(w)) == Accepted(w)
  {
    var j := w.queue[0];
    assert j[..w.next + 1] == j[..w.next] + [j[w.next]];
    ConcatSnoc(j[..w.next], j[w.next]);
    assert Own(Submit(w)) == Concat(Flat(w.done)) + (Begun(w) + j[w.next]);
  }

  lemma SubmitStreams(w: Writer)
    requires w.queue != [] && w.next < |w.queue[0]| && Streaming(w)
    ensures Streaming(Submit(w))
  {
    hide Streaming, Own, Accepted, Submit;
    SubmitBegins(w);
    SubmitKeeps(w);
    StreamGrows(w, Submit(w), w.queue[0][w.next]);
  }

  lemma SubmitKeeps(w: Writer)
    requires w.queue != [] && w.next < |w.queue[0]|
    ensures Submit(w).prefix == w.prefix && Submit(w).mix == w.mix
  {
  }

  lemma OfferKeepsInv(w: Writer, job: Job)
    requires Inv(w)
    ensures Inv(Step(w, Offer(job)))
    ensures Accepted(Step(w, Offer(job))) == Accepted(w) + [job]
  {
    var w1 := w.(queue := w.queue + [job]);
    assert Accepted(w1) == Accepted(w) + [job];
    if w.queue == [] {
      OfferedFirst(w, job);
      SubmitBegins(w1);
      SubmitStreams(w1);
    } else {
      assert w1.queue[0] == w.queue[0];
      assert Own(w1) == Own(w);
      StreamStays(w, w1);
    }
  }

  lemma OfferedFirst(w: Writer, job: Job)
    requires Inv(w) && w.queue == []
    ensures Streaming(w.(queue := [job]))
    ensures Step(w, Offer(job)) == Submit(w.(queue := [job])) && w.queue + [job] == [job]
  {
    var w1 := w.(queue := [job]);
    assert job[..0] == [];
    assert Own(w1) == Own(w) && Accepted(w1) == Accepted(w) + [job];
    StreamStays(w, w1);
  }

  /** The front job has another buffer to write. */
  lemma NextBuffer(w: Writer, i: nat)
    requires Inv(w) && i < |w.ops| && w.next < |w.queue[0]|
    ensures Inv(Submit(RemoveOp(w, i))) && Accepted(Submit(RemoveOp(w, i))) == Accepted(w)
  {
    var w1 := RemoveOp(w, i);
    assert w1.ops == [];
    assert Own(w1) == Own(w) && Accepted(w1) == Accepted(w);
    StreamStays(w, w1);
    SubmitBegins(w1);
    SubmitStreams(w1);
    hide Streaming;
  }

  /** The front job is written and leaves the queue. */
  function Popped(w: Writer): Writer
    requires w.queue != []
  {
    w.(done := w.done + [w.queue[0]], queue := w.queue[1..], next := 0)
  }

  lemma PopKeeps(w: Writer)
    requires w.queue != [] && w.next == |w.queue[0]|
    ensures Accepted(Popped(w)) == Accepted(w) && Own(Popped(w)) == Own(w)
  {
    var t := Popped(w);
    FlatSnoc(w.done, w.queue[0]);
    assert w.queue[0][..w.next] == w.queue[0];
    assert Begun(t) == [] by {
      assert t.queue != [] ==> t.queue[0][..0] == [];
    }
    assert Own(t) == Concat(Flat(w.done)) + Concat(w.queue[0]) + [];
  }

  lemma NextJob(w: Writer, i: nat)
    requires Inv(w) && i < |w.ops| && w.next == |w.queue[0]| && w.ops[i] <= w.moved
    ensures Inv(Step(w, Written(i))) && Accepted(Step(w, Written(i))) == Accepted(w)
  {
    var w1 := RemoveOp(w, i);
    var t := Popped(w1);
    assert w1.ops == [];
    assert Own(w1) == Own(w) && Accepted(w1) == Accepted(w);
    PopKeeps(w1);
    StreamStays(w, t);
    hide Streaming, Own, Accepted;
    if t.queue != [] {
      SubmitBegins(t);
      SubmitStreams(t);
    }
  }

  lemma WrittenKeepsInv(w: Writer, i: nat)
    requires Inv(w) && Enabled(w, Written(i))
    ensures Inv(Step(w, Written(i)))
    ensures Accepted(Step(w, Written(i))) == Accepted(w)
  {
    if w.next < |w.queue[0]| {
      NextBuffer(w, i);
    } else {
      NextJob(w, i);
    }
  }

  /** Before the first job the bytes join the prefix. */
  lemma InjectFirst(w: Writer, bytes: seq<byte>)
    requires Inv(w) && Accepted(w) == []
    ensures Streaming(Step(w, Inject(bytes)))
  {
    var t := Step(w, Inject(bytes));
    assert w.done == [] && w.queue == [] && t.done == [] && t.queue == [];
    assert Own(w) == [] && Own(t) == [] by { assert Concat(Flat([])) == []; }
    assert w.submitted == w.prefix;
  }

  lemma InjectLater(w: Writer, bytes: seq<byte>)
    requires Inv(w) && Accepted(w) != []
    ensures Streaming(Step(w, Inject(bytes)))
  {
    var t := Step(w, Inject(bytes));
    if w.mix.Clean? {
      FirstBufferLeads(w);
      assert |w.prefix + Accepted(w)[0][0]| <= |w.prefix + Own(w)|;
    }
    assert Own(t) == Own(w) && Accepted(t) == Accepted(w);
    hide Own, Accepted;
    assert Own(w)[..|Own(w)|] == Own(w) && Own(w)[|Own(w)|..] == [];
    assert w.submitted + bytes + [] == w.submitted + bytes;
  }

  lemma InjectKeepsInv(w: Writer, bytes: seq<byte>)
    requires Inv(w)
    ensures Inv(Step(w, Inject(bytes))) && Accepted(Step(w, Inject(bytes))) == Accepted(w)
  {
    if Accepted(w) == [] { InjectFirst(w, bytes); } else { InjectLater(w, bytes); }
    hide Streaming, Own;
  }

  /** In an unmixed stream the first buffer of the first job follows the prefix. */
  lemma FirstBufferLeads(w: Writer)
    requires Inv(w) && !w.Mixed() && Accepted(w) != []
    ensures w.prefix + Accepted(w)[0][0] <= w.submitted
  {
    if w.done == [] {
      assert Concat(Flat(w.done)) == [];
      assert w.queue[0][..w.next][0] == w.queue[0][0];
      assert w.submitted == w.prefix + Begun(w);
    } else {
      assert Flat(w.done)[0] == Concat(w.done[0]);
      var rest := Concat(w.done[0][1..]) + Concat(Flat(w.done)[1..]) + Begun(w);
      assert w.submitted == w.prefix + w.done[0][0] + rest;
    }
  }

  lemma QuietKeepsInv(w: Writer, e: Event)
    requires Inv(w) && Enabled(w, e) && (e.Transfer? || e.WriteError?)
    ensures Inv(Step(w, e)) && Accepted(Step(w, e)) == Accepted(w)
  {
    var t := Step(w, e);
    assert Own(t) == Own(w) && Accepted(t) == Accepted(w);
    StreamStays(w, t);
    hide Streaming;
  }

  lemma StepHistory(w: Writer, e: Event)
    requires Enabled(w, e)
    ensures Step(w, e).moved == if e.Transfer? then w.moved + e.n else w.moved
    ensures w.submitted <= Step(w, e).submitted
    ensures e.Inject? && Accepted(w) == [] ==> Step(w, e).prefix == w.prefix + e.bytes
    ensures !e.Inject? || Accepted(w) != [] ==> Step(w, e).prefix == w.prefix
    ensures Step(w, e).mix == if e.Inject? && Accepted(w) != [] then Cutting(w, e.bytes) else w.mix
    ensures Step(w, e).failed == (w.failed || e.WriteError?)
  {
  }

  lemma StepKeepsInv(w: Writer, e: Event)
    requires Inv(w) && Enabled(w, e)
    ensures Inv(Step(w, e))
    ensures Accepted(Step(w, e)) == Accepted(w) + Offered(e)
    ensures Step(w, e).moved == if e.Transfer? then w.moved + e.n else w.moved
    ensures w.submitted <= Step(w, e).submitted
    ensures e.Inject? && Accepted(w) == [] ==> Step(w, e).prefix == w.prefix + e.bytes
    ensures !e.Inject? || Accepted(w) != [] ==> Step(w, e).prefix == w.prefix
    ensures Step(w, e).mix == if e.Inject? && Accepted(w) != [] then Cutting(w, e.bytes) else w.mix
    ensures Step(w, e).failed == (w.failed || e.WriteError?)
  {
    StepHistory(w, e);
    hide Inv, Step, Accepted;
    assert !e.Offer? ==> Accepted(w) + Offered(e) == Accepted(w);
    match e
    case Offer(job) => OfferKeepsInv(w, job);
    case Written(i) => WrittenKeepsInv(w, i);
    case Inject(bytes) => InjectKeepsInv(w, bytes);
    case _ => QuietKeepsInv(w, e);
  }

  ghost predicate Run(w: Writer, es: seq<Event>, t: Writer)
    decreases |es|
  {
    if es == [] then t == w else Enabled(w, es[0]) && Run(Step(w, es[0]), es[1..], t)
  }

  function Offered(e: Event): seq<Job> {
    if e.Offer? then [e.job] else []
  }

  function Offers(es: seq<Event>): seq<Job> {
    if es == [] then [] else Offered(es[0]) + Offers(es[1..])
  }

  lemma {:induction false} RunFrom(w: Writer, es: seq<Event>, t: Writer)
    requires Inv(w) && Run(w, es, t)
    ensures Inv(t) && Accepted(t) == Accepted(w) + Offers(es)
    decreases |es|
  {
    hide Inv, Step, Accepted, Offered;
    if es == [] {
      assert Accepted(w) + Offers(es) == Accepted(w);
    } else {
      StepKeepsInv(w, es[0]);
      RunFrom(Step(w, es[0]), es[1..], t);
    }
  }

  /**
    On every run of the pump exactly one message write is outstanding while the queue is
    non-empty and no write has failed, otherwise none; what was offered is what was popped
    followed by what is queued.
   */
  lemma SinglePump(es: seq<Event>, t: Writer)
    requires Run(FRESH, es, t)
    ensures |t.ops| <= 1
    ensures |t.ops| == 1 <==> t.queue != [] && !t.failed
    ensures t.done + t.queue == Offers(es)
  {
    FreshInv();
    RunFrom(FRESH, es, t);
    assert Accepted(FRESH) == [];
  }

  lemma FreshInv()
    ensures Inv(FRESH)
  {
    assert Concat(Flat([])) == [];
  }

  /** After a failed message write no message byte is ever submitted or moved again. */
  lemma {:induction false} SilentAfterFailure(w: Writer, es: seq<Event>, t: Writer)
    requires Inv(w) && w.failed && Run(w, es, t)
    requires forall e | e in es :: !e.Inject?
    ensures t.failed && t.queue != [] && t.ops == []
    ensures t.submitted == w.submitted && t.moved == w.moved
    decreases |es|
  {
    if es != [] {
      StepKeepsInv(w, es[0]);
      assert es[0] in es;
      SilentAfterFailure(Step(w, es[0]), es[1..], t);
    }
  }

  /** Bytes of accepted jobs not yet handed to the socket. */
  function Unsent(w: Writer): seq<byte> {
    if w.queue == [] || w.next > |w.queue[0]| then []
    else Concat(w.queue[0][w.next..]) + Concat(Flat(w.queue[1..]))
  }

  lemma QueueBytes(w: Writer)
    requires Inv(w)
    ensures Concat(Flat(w.queue)) == Begun(w) + Unsent(w)
  {
    if w.queue != [] {
      var j := w.queue[0];
      assert Flat(w.queue)[0] == Concat(j) && Flat(w.queue)[1..] == Flat(w.queue[1..]);
      assert j == j[..w.next] + j[w.next..];
      ConcatAppend(j[..w.next], j[w.next..]);
    }
  }

  /** The pump's own bytes, then those still to be handed to the socket, are the accepted jobs'. */
  lemma OwnAndUnsent(w: Writer)
    requires Inv(w)
    ensures Own(w) + Unsent(w) == Concat(Flat(Accepted(w)))
  {
    assert Flat(Accepted(w)) == Flat(w.done) + Flat(w.queue);
    ConcatAppend(Flat(w.done), Flat(w.queue));
    QueueBytes(w);
  }

  /**
    Conservation: handed to the socket, then still to be handed, is exactly what was
    accepted; so the bytes on the wire are always a prefix of the accepted jobs' bytes.
   */
  lemma ProducedIsPrefix(w: Writer)
    requires Inv(w) && !w.Mixed()
    ensures w.submitted + Unsent(w) == w.prefix + Concat(Flat(Accepted(w)))
    ensures Produced(w) <= w.prefix + Concat(Flat(Accepted(w)))
  {
    OwnAndUnsent(w);
    hide Own, Unsent, Accepted, Flat, Concat;
    TailJoins(w.prefix, Own(w), Unsent(w), w.moved);
  }

  lemma TailJoins(prefix: seq<byte>, own: seq<byte>, rest: seq<byte>, n: nat)
    requires n <= |prefix + own|
    ensures (prefix + own) + rest == prefix + (own + rest)
    ensures (prefix + own)[..n] <= prefix + (own + rest)
  {
    assert (prefix + own)[..n] == (prefix + (own + rest))[..n];
  }

  lemma CutJoins(prefix: seq<byte>, own: seq<byte>, at: nat, word: seq<byte>, rest: seq<byte>)
    requires at <= |own|
    ensures (prefix + own[..at] + word + own[at..]) + rest == prefix + own[..at] + word + (own[at..] + rest)
    ensures own[..at] + (own[at..] + rest) == own + rest
  {
    assert own[..at] + own[at..] == own;
  }

  /** A stream cut once by a word is the accepted jobs' bytes but for that word. */
  lemma CutAccounts(w: Writer)
    requires Inv(w) && w.mix.Cut?
    ensures w.mix.at <= |Own(w)|
    ensures w.submitted + Unsent(w) == w.prefix + Own(w)[..w.mix.at] + w.mix.word + (Own(w)[w.mix.at..] + Unsent(w))
    ensures Own(w)[..w.mix.at] + (Own(w)[w.mix.at..] + Unsent(w)) == Concat(Flat(Accepted(w)))
  {
    OwnAndUnsent(w);
    hide Own, Unsent, Accepted, Flat, Concat;
    CutJoins(w.prefix, Own(w), w.mix.at, w.mix.word, Unsent(w));
  }
}
