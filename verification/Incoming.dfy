/**
  A server's incoming queue, which all its connections share: each message is enqueued with the
  connection it came from, and Update takes messages from the front.
 */
module IncomingQueues {
  import opened Bytes
  import opened Handshake
  import opened Messages
  import opened Transport
  import opened Endpoints
  import opened Network
  import W = WritePump
  import R = FrameReader

  datatype Owned = Owned(remote: nat, msg: Message)

  /** links are the connections with their clients and wires; handled is what Update has taken. */
  datatype Hub = Hub(links: seq<Net>, queue: seq<Owned>, handled: seq<Owned>)

  const EMPTY := Hub([], [], [])

  datatype HubEvent =
    | Accept(challenge: U64)
    | At(c: nat, ne: NetEvent)
    | PopFront

  predicate HubEnabled(h: Hub, e: HubEvent) {
    match e
    case Accept(_) => true
    case At(c, ne) => c < |h.links| && NetEnabled(h.links[c], ne)
    case PopFront => h.queue != []
  }

  function Tagged(c: nat, ms: seq<Message>): (os: seq<Owned>)
    ensures |os| == |ms|
  {
    seq(|ms|, i requires 0 <= i < |ms| => Owned(c, ms[i]))
  }

  /** What a step adds to a growing inbox. */
  function Added(before: seq<Message>, after: seq<Message>): seq<Message> {
    if |before| <= |after| then after[|before|..] else []
  }

  function HubStep(h: Hub, e: HubEvent): Hub
    requires HubEnabled(h, e)
  {
    match e
    case Accept(challenge) => h.(links := h.links + [Initial(challenge)])
    case At(c, ne) =>
      var n := NetStep(h.links[c], ne);
      h.(links := h.links[c := n],
         queue := h.queue + Tagged(c, Added(h.links[c].server.inbox, n.server.inbox)))
    case PopFront => h.(queue := h.queue[1..], handled := h.handled + [h.queue[0]])
  }

  /** The messages that came from connection c, in order. */
  function FromConnection(os: seq<Owned>, c: nat): seq<Message> {
    if os == [] then []
    else FromConnection(os[..|os| - 1], c) + (if os[|os| - 1].remote == c then [os[|os| - 1].msg] else [])
  }

  ghost predicate HubInv(h: Hub) {
    && (forall n | n in h.links :: NetInv(n))
    && (forall o | o in h.handled + h.queue :: o.remote < |h.links|)
    && forall c: nat | c < |h.links| :: FromConnection(h.handled + h.queue, c) == h.links[c].server.inbox
  }

  lemma {:induction false} FromConnectionConcat(a: seq<Owned>, b: seq<Owned>, c: nat)
    ensures FromConnection(a + b, c) == FromConnection(a, c) + FromConnection(b, c)
    decreases |b|
  {
    if b == [] {
      assert a + b == a;
    } else {
      var k := |b| - 1;
      assert (a + b)[..|a| + k] == a + b[..k];
      FromConnectionConcat(a, b[..k], c);
    }
  }

  lemma {:induction false} FromTagged(d: nat, ms: seq<Message>, c: nat)
    ensures FromConnection(Tagged(d, ms), c) == if c == d then ms else []
    decreases |ms|
  {
    if ms != [] {
      var k := |ms| - 1;
      TaggedSnoc(d, ms[..k], ms[k]);
      hide Tagged;
      FromTagged(d, ms[..k], c);
      assert ms[..k] + [ms[k]] == ms;
      FromConnectionConcat(Tagged(d, ms[..k]), [Owned(d, ms[k])], c);
      FromOne(Owned(d, ms[k]), c);
    }
  }

  lemma TaggedSnoc(d: nat, ms: seq<Message>, m: Message)
    ensures Tagged(d, ms + [m]) == Tagged(d, ms) + [Owned(d, m)]
  {
  }

  lemma FromOne(o: Owned, c: nat)
    ensures FromConnection([o], c) == if o.remote == c then [o.msg] else []
  {
    assert [o][..0] == [];
  }

  lemma {:induction false} NoneFrom(os: seq<Owned>, c: nat)
    requires forall o | o in os :: o.remote != c
    ensures FromConnection(os, c) == []
    decreases |os|
  {
    if os != [] {
      assert os[|os| - 1] in os;
      NoneFrom(os[..|os| - 1], c);
    }
  }

  /** An inbox only grows. */
  lemma InboxGrows(e: Endpoint, ev: Event)
    requires Enabled(e, ev)
    ensures e.inbox <= Step(e, ev).inbox
  {
    hide W.Step, W.Enabled, R.Step, R.Enabled, ReadHeader, WriteValidation;
    hide AnswerRead, ChallengeRead, MessageRead, Buffers;
    match ev
    case Start => StartGrows(e.(started := true, reader := R.Step(WIRE_FORMAT, e.reader, R.StartPreamble)));
    case ReadDone => ReadGrows(e);
    case _ =>
  }

  lemma StartGrows(e: Endpoint)
    ensures WriteValidation(e).inbox == e.inbox
  {
    hide W.Step, U64Bytes;
  }

  lemma ReadGrows(e: Endpoint)
    requires R.Enabled(WIRE_FORMAT, e.reader, R.Done)
    ensures !e.reader.phase.Preamble? ==> e.inbox <= MessageRead(e).inbox
    ensures e.reader.phase.Preamble? ==> AnswerRead(e).inbox == e.inbox && ChallengeRead(e).inbox == e.inbox
  {
    hide W.Step, R.Step, ReadHeader, U64Of, U64Bytes, Scramble;
  }

  lemma ServerInboxGrows(n: Net, ne: NetEvent)
    requires NetEnabled(n, ne)
    ensures n.server.inbox <= NetStep(n, ne).server.inbox
  {
    hide Step, Enabled;
    if ne.AtServer? { InboxGrows(n.server, ne.ev); }
  }

  lemma InitialEmpty(challenge: U64)
    ensures Initial(challenge).server.inbox == []
  {
    hide Scramble;
  }

  lemma AcceptKeepsInv(h: Hub, challenge: U64)
    requires HubInv(h)
    ensures HubInv(HubStep(h, Accept(challenge)))
  {
    hide NetInv, Initial, FromConnection;
    InitialInv(challenge);
    InitialEmpty(challenge);
    NoneFrom(h.handled + h.queue, |h.links|);
    var t := HubStep(h, Accept(challenge));
    assert forall c | 0 <= c < |h.links| :: t.links[c] == h.links[c] && h.links[c] in h.links;
  }

  lemma LinkKeepsInv(h: Hub, c: nat, ne: NetEvent)
    requires HubInv(h) && HubEnabled(h, At(c, ne))
    ensures HubInv(HubStep(h, At(c, ne)))
  {
    hide NetInv, NetStep, NetEnabled, FromConnection;
    var t := HubStep(h, At(c, ne));
    var before, after := h.links[c].server.inbox, t.links[c].server.inbox;
    var added := Added(before, after);
    assert h.links[c] in h.links;
    NetStepKeepsInv(h.links[c], ne);
    ServerInboxGrows(h.links[c], ne);
    assert t.handled + t.queue == (h.handled + h.queue) + Tagged(c, added);
    assert before + added == after;
    forall d: nat | d < |t.links| ensures FromConnection(t.handled + t.queue, d) == t.links[d].server.inbox {
      FromConnectionConcat(h.handled + h.queue, Tagged(c, added), d);
      FromTagged(c, added, d);
    }
  }

  lemma HubStepKeepsInv(h: Hub, e: HubEvent)
    requires HubInv(h) && HubEnabled(h, e)
    ensures HubInv(HubStep(h, e))
  {
    match e
    case Accept(challenge) => AcceptKeepsInv(h, challenge);
    case At(c, ne) => LinkKeepsInv(h, c, ne);
    case PopFront =>
      hide NetInv, FromConnection;
      assert h.handled + [h.queue[0]] + h.queue[1..] == h.handled + h.queue;
  }

  ghost predicate HubRun(h: Hub, es: seq<HubEvent>, t: Hub)
    decreases |es|
  {
    if es == [] then t == h else HubEnabled(h, es[0]) && HubRun(HubStep(h, es[0]), es[1..], t)
  }

  lemma {:induction false} HubRunKeepsInv(h: Hub, es: seq<HubEvent>, t: Hub)
    requires HubInv(h) && HubRun(h, es, t)
    ensures HubInv(t)
    decreases |es|
  {
    hide HubInv, HubStep, HubEnabled;
    if es != [] {
      HubStepKeepsInv(h, es[0]);
      HubRunKeepsInv(HubStep(h, es[0]), es[1..], t);
    }
  }

  function Accepts(es: seq<HubEvent>): nat
    decreases |es|
  {
    if es == [] then 0 else (if es[0].Accept? then 1 else 0) + Accepts(es[1..])
  }

  function Pops(es: seq<HubEvent>): nat
    decreases |es|
  {
    if es == [] then 0 else (if es[0].PopFront? then 1 else 0) + Pops(es[1..])
  }

  lemma HubStepTakes(h: Hub, e: HubEvent)
    requires HubEnabled(h, e)
    ensures
      var t := HubStep(h, e);
      && |t.links| == |h.links| + (if e.Accept? then 1 else 0)
      && |t.handled| == |h.handled| + (if e.PopFront? then 1 else 0)
      && h.handled + h.queue <= t.handled + t.queue
  {
    hide NetStep, NetEnabled, Initial, Added, Tagged;
    if e.PopFront? {
      assert h.handled + [h.queue[0]] + h.queue[1..] == h.handled + h.queue;
    }
  }

  /**
    The shared queue is first in, first out: what has been taken, followed by what is queued,
    only ever grows at its end, and each pop has moved exactly one message from one to the other.
   */
  lemma {:induction false} TakenInOrder(h: Hub, es: seq<HubEvent>, t: Hub)
    requires HubRun(h, es, t)
    ensures |t.links| == |h.links| + Accepts(es) && |t.handled| == |h.handled| + Pops(es)
    ensures h.handled + h.queue <= t.handled + t.queue && h.handled <= t.handled
    decreases |es|
  {
    hide HubStep, HubEnabled;
    if es != [] {
      HubStepTakes(h, es[0]);
      TakenInOrder(HubStep(h, es[0]), es[1..], t);
      var all := t.handled + t.queue;
      assert h.handled == all[..|h.handled|] && t.handled == all[..|t.handled|];
    }
  }

  /**
    However the connections of a server interleave, the messages in its shared queue and those
    already taken from it, seen by the connection they came from, are an in-order, exactly-once
    prefix of what that connection's client passed to Send.
   */
  lemma SharedDelivery(es: seq<HubEvent>, h: Hub, c: nat)
    requires HubRun(EMPTY, es, h) && c < |h.links|
    ensures var n := h.links[c];
            && FromConnection(h.handled + h.queue, c) == n.server.inbox
            && (AllConsistent(n.client.sent) && !Spoilt(n.server.handshakeOut, n.client)
                ==> Delivered(FromConnection(h.handled + h.queue, c), n.client.sent))
  {
    hide NetInv, Delivered, Spoilt, FromConnection, HubStep, HubEnabled;
    HubRunKeepsInv(EMPTY, es, h);
    var n := h.links[c];
    assert n in h.links;
    if AllConsistent(n.client.sent) && !Spoilt(n.server.handshakeOut, n.client) {
      UnspoiltDelivers(n);
    }
  }
}
