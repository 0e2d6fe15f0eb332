/**
  A server endpoint and a client endpoint joined by two byte wires.  Bytes stay in order on a
  wire and arrive in chunks of any size.
 */
module Network {
  import opened Bytes
  import opened Framing
  import opened Handshake
  import opened Messages
  import opened Transport
  import opened Endpoints
  import Link
  import W = WritePump
  import R = FrameReader

  datatype Net = Net(server: Endpoint, client: Endpoint, toClient: seq<byte>, toServer: seq<byte>)

  datatype NetEvent = AtServer(ev: Event) | AtClient(ev: Event)

  function Initial(challenge: U64): Net {
    Net(Create(Server, challenge), Create(Client, U64(0)), [], [])
  }

  predicate NetEnabled(n: Net, ne: NetEvent) {
    match ne
    case AtServer(ev) => Enabled(n.server, ev) && Arriving(ev) <= n.toServer
    case AtClient(ev) => Enabled(n.client, ev) && Arriving(ev) <= n.toClient
  }

  function NetStep(n: Net, ne: NetEvent): Net
    requires NetEnabled(n, ne)
  {
    match ne
    case AtServer(ev) =>
      Net(Step(n.server, ev), n.client,
          n.toClient + Departing(n.server, ev), n.toServer[|Arriving(ev)|..])
    case AtClient(ev) =>
      Net(n.server, Step(n.client, ev),
          n.toClient[|Arriving(ev)|..], n.toServer + Departing(n.client, ev))
  }

  /** The wire from one endpoint to the other carries what has left and has not arrived. */
  ghost predicate Wired(source: Endpoint, wire: seq<byte>, sink: Endpoint) {
    && source.writer.moved <= |source.writer.submitted|
    && W.Produced(source.writer) == sink.reader.consumed + wire
  }

  ghost predicate NetInv(n: Net) {
    && Inv(n.server) && n.server.owner.Server?
    && Inv(n.client) && n.client.owner.Client?
    && Wired(n.server, n.toClient, n.client)
    && Wired(n.client, n.toServer, n.server)
  }

  lemma InitialInv(challenge: U64)
    ensures NetInv(Initial(challenge))
  {
    CreateInv(Server, challenge);
    CreateInv(Client, U64(0));
  }

  lemma EndpointStep(e: Endpoint, ev: Event, peer: Endpoint, inWire: seq<byte>, outWire: seq<byte>)
    requires Inv(e) && Enabled(e, ev) && Arriving(ev) <= inWire
    requires Wired(e, outWire, peer) && Wired(peer, inWire, e)
    ensures var t := Step(e, ev);
            && Inv(t) && t.owner == e.owner
            && Wired(t, outWire + Departing(e, ev), peer)
            && Wired(peer, inWire[|Arriving(ev)|..], t)
  {
    hide Inv, Step, W.Inv, W.Produced, Enabled, Departing, Arriving;
    StepKeepsInv(e, ev);
    WriterInv(e);
    WriterStreams(e, ev);
    ReaderStreams(e, ev);
    Steady(e, ev);
    WireLonger(W.Produced(e.writer), peer.reader.consumed, outWire, Departing(e, ev));
    WireShorter(W.Produced(peer.writer), e.reader.consumed, inWire, Arriving(ev));
  }

  /** Bytes put on a wire, and bytes taken from it. */
  lemma WireLonger(produced: seq<byte>, consumed: seq<byte>, wire: seq<byte>, more: seq<byte>)
    requires produced == consumed + wire
    ensures produced + more == consumed + (wire + more)
  {
  }

  lemma WireShorter(produced: seq<byte>, consumed: seq<byte>, wire: seq<byte>, taken: seq<byte>)
    requires produced == consumed + wire && taken <= wire
    ensures produced == consumed + taken + wire[|taken|..]
  {
    assert wire == taken + wire[|taken|..];
  }

  lemma NetStepKeepsInv(n: Net, ne: NetEvent)
    requires NetInv(n) && NetEnabled(n, ne)
    ensures NetInv(NetStep(n, ne))
    ensures NetStep(n, ne).server.handshakeOut == n.server.handshakeOut
  {
    hide Inv, Step, Wired, Enabled, Departing, Arriving;
    match ne
    case AtServer(ev) =>
      EndpointStep(n.server, ev, n.client, n.toServer, n.toClient);
      Steady(n.server, ev);
    case AtClient(ev) =>
      EndpointStep(n.client, ev, n.server, n.toClient, n.toServer);
  }

  ghost predicate NetRun(n: Net, es: seq<NetEvent>, t: Net)
    decreases |es|
  {
    if es == [] then t == n else NetEnabled(n, es[0]) && NetRun(NetStep(n, es[0]), es[1..], t)
  }

  lemma {:induction false} NetRunFrom(n: Net, es: seq<NetEvent>, t: Net)
    requires NetInv(n) && NetRun(n, es, t)
    ensures NetInv(t) && t.server.handshakeOut == n.server.handshakeOut
    decreases |es|
  {
    hide NetInv, NetStep;
    if es != [] {
      NetStepKeepsInv(n, es[0]);
      NetRunFrom(NetStep(n, es[0]), es[1..], t);
    }
  }

  // ---------- Delivery ----------

  /** Some of the client's messages were written before its handshake answer. */
  predicate Early(client: Endpoint) {
    client.writer.Mixed() || (!client.handshakeBegun && W.Accepted(client.writer) != [])
  }

  /**
    One direction: if the sink's preamble is the source's prefix, the frames handed to the
    sink's application are a prefix of the frames of the messages taken from Send.
   */
  lemma FramesDelivered(source: Endpoint, wire: seq<byte>, sink: Endpoint)
    requires Inv(source) && Inv(sink) && Wired(source, wire, sink) && !source.writer.Mixed()
    requires sink.reader.preamble == source.writer.prefix
    requires AllConsistent(source.sent)
    ensures sink.reader.frames <= FramesOf(Taken(source))
  {
    hide Inv, W.Inv, W.Accepted, W.Produced, R.Inv, Received, Decoded, Jobs, FramesOf;
    SidesOf(source);
    SidesOf(sink);
    JobsAreFrames(Taken(source));
    TakenConsistent(source);
    ConsistentFrames(Taken(source));
    Link.FramesInOrder(WIRE_FORMAT, source.writer, sink.reader);
  }

  lemma TakenConsistent(e: Endpoint)
    requires |e.posted| <= |e.sent| && AllConsistent(e.sent)
    ensures AllConsistent(Taken(e))
  {
    forall m | m in Taken(e) ensures Consistent(m) { assert m in e.sent; }
  }

  lemma SidesOf(e: Endpoint)
    requires Inv(e)
    ensures W.Inv(e.writer) && |e.posted| <= |e.sent| && W.Accepted(e.writer) == Jobs(Taken(e))
    ensures R.Inv(WIRE_FORMAT, e.reader)
    ensures e.inbox == Received(EMPTY_SCRATCH, Decoded(e.reader.frames))
    ensures e.reader.frames != [] ==> |e.reader.preamble| == HANDSHAKE_SIZE
  {
    hide W.Inv, R.Inv, Received, Decoded, Jobs, W.Accepted;
  }

  /** What a sink enqueued, in terms of the messages sent to it. */
  ghost predicate Delivered(sink: seq<Message>, sent: seq<Message>) {
    && |sink| <= |sent|
    && sink == Received(EMPTY_SCRATCH, sent[..|sink|])
    && Views(sink) == sent[..|sink|]
  }

  lemma InboxDelivered(source: Endpoint, sink: Endpoint)
    requires Inv(source) && Inv(sink) && AllConsistent(source.sent)
    requires sink.reader.frames <= FramesOf(Taken(source))
    ensures Delivered(sink.inbox, source.sent)
    ensures |sink.inbox| <= |Taken(source)|
  {
    hide W.Inv, R.Inv, W.Accepted, Jobs, ServerSide, ClientSide, FrameOf, DecodeFrame;
    SidesOf(source);
    SidesOf(sink);
    var k := |sink.reader.frames|;
    var ms := source.sent[..k];
    assert FramesOf(ms) == sink.reader.frames;
    DecodedFrames(ms);
    forall m | m in ms ensures Consistent(m) { assert m in source.sent; }
    ReceivedViews(EMPTY_SCRATCH, ms);
  }

  /** The challenge reaches the client unspoilt, and the answer reaches the server unless Early. */
  lemma PreamblesMatch(n: Net)
    requires NetInv(n)
    ensures n.client.reader.frames != [] ==> n.client.reader.preamble == n.server.writer.prefix
    ensures n.server.reader.frames != [] && !Early(n.client)
            ==> n.server.reader.preamble == n.client.writer.prefix
  {
    hide W.Produced, W.Inv, R.Inv, W.Accepted, Received, Decoded, U64Of, U64Bytes, Scramble, Jobs;
    if |n.client.reader.preamble| == HANDSHAKE_SIZE {
      ChallengeArrives(n);
    }
    if |n.server.reader.preamble| == HANDSHAKE_SIZE && !Early(n.client) {
      AnswerArrives(n);
    }
    SidesOf(n.client);
    SidesOf(n.server);
  }

  lemma ProducedMoved(w: W.Writer)
    requires w.moved <= |w.submitted|
    ensures |W.Produced(w)| == w.moved
  {
  }

  lemma LeadingBytes(source: Endpoint, wire: seq<byte>, sink: Endpoint)
    requires Inv(source) && Inv(sink) && Wired(source, wire, sink) && !source.writer.Mixed()
    requires |sink.reader.preamble| == HANDSHAKE_SIZE
    requires
      || |source.writer.prefix| == HANDSHAKE_SIZE
      || (source.writer.prefix == [] && (W.Accepted(source.writer) == [] || source.writer.moved == 0))
    ensures sink.reader.preamble == source.writer.prefix
  {
    hide W.Produced, W.Inv, R.Inv, Received, Decoded, Jobs;
    SidesOf(source);
    SidesOf(sink);
    W.ProducedIsPrefix(source.writer);
    Link.AccountedFor(WIRE_FORMAT, sink.reader);
    var p := source.writer.prefix;
    var all := p + Concat(W.Flat(W.Accepted(source.writer)));
    assert W.Accepted(source.writer) == [] ==> W.Flat(W.Accepted(source.writer)) == [];
    assert sink.reader.preamble <= W.Produced(source.writer) <= all;
    assert |W.Produced(source.writer)| == source.writer.moved by { ProducedMoved(source.writer); }
    assert p == [] ==> all == [] || source.writer.moved == 0;
    assert p != [] ==> all[..HANDSHAKE_SIZE] == p;
  }

  lemma NothingMoved(e: Endpoint)
    requires Inv(e)
    ensures !e.started ==> e.writer.moved == 0
  {
    hide W.Inv, W.Accepted, ReadSide, ServerSide, ClientSide;
  }

  lemma ChallengeArrives(n: Net)
    requires NetInv(n) && |n.client.reader.preamble| == HANDSHAKE_SIZE
    ensures n.client.reader.preamble == n.server.writer.prefix == U64Bytes(n.server.handshakeOut)
    ensures n.client.handshakeOut == Scramble(n.server.handshakeOut)
  {
    hide W.Produced, W.Inv, R.Inv, Received, Decoded, U64Of, U64Bytes, Scramble, ReadSide, WriteSide;
    NothingMoved(n.server);

    LeadingBytes(n.server, n.toClient, n.client);
    U64RoundTrip(n.server.handshakeOut);
  }

  lemma AnswerArrives(n: Net)
    requires NetInv(n) && |n.server.reader.preamble| == HANDSHAKE_SIZE && !Early(n.client)
    ensures n.server.reader.preamble == n.client.writer.prefix == U64Bytes(n.client.handshakeOut)
    ensures n.client.handshakeOut == Scramble(n.server.handshakeOut)
    ensures n.server.validated && !n.server.rejected
  {
    hide W.Produced, W.Inv, R.Inv, Received, Decoded, U64Of, U64Bytes, Scramble, WriteSide, ReadSide;
    LeadingBytes(n.client, n.toServer, n.server);
    ChallengeArrives(n);
    U64RoundTrip(n.client.handshakeOut);
  }

  /**
    The client's first message was written before its answer, and the header of that message
    happens to be the answer.
   */
  predicate Forged(challenge: U64, client: Endpoint) {
    && Early(client) && client.sent != []
    && U64Of(HeaderBytes(client.sent[0].id, client.sent[0].size)) == Scramble(challenge)
  }

  /** The header of the first message a client sent. */
  function FirstHeaderOf(client: Endpoint): seq<byte> {
    if client.sent == [] then [] else HeaderBytes(client.sent[0].id, client.sent[0].size)
  }

  /**
    The bytes that the client wrote between the header of its first message and its answer read
    the same with the answer before them as after them; for instance, there are none.
   */
  predicate Harmless(w: W.Writer) {
    && w.mix.Cut? && HEADER_SIZE <= w.mix.at <= |W.Own(w)|
    && var between := W.Own(w)[HEADER_SIZE..w.mix.at];
       between + w.mix.word == w.mix.word + between
  }

  /** A forged answer that spoils the framing of what follows. */
  predicate Spoilt(challenge: U64, client: Endpoint) {
    Forged(challenge, client) && !Harmless(client.writer)
  }

  /**
    End-to-end delivery.  In every reachable state, however bytes were chunked and whatever
    failed or was closed, the messages an application has been given are, through their
    headers, the first ones the other passed to Send, in order and once each.  The one
    exception is a server that took the header of a client's early message for its answer, and
    then read on in the wrong place.
   */
  lemma EndToEnd(challenge: U64, es: seq<NetEvent>, n: Net)
    requires NetRun(Initial(challenge), es, n)
    ensures AllConsistent(n.server.sent) ==> Delivered(n.client.inbox, n.server.sent)
    ensures AllConsistent(n.client.sent) && !Spoilt(challenge, n.client) ==> Delivered(n.server.inbox, n.client.sent)
  {
    hide Inv, Spoilt;
    InitialInv(challenge);
    NetRunFrom(Initial(challenge), es, n);
    if AllConsistent(n.server.sent) { ToClient(n); }
    if AllConsistent(n.client.sent) && !Spoilt(challenge, n.client) { UnspoiltDelivers(n); }
  }

  lemma UnspoiltDelivers(n: Net)
    requires NetInv(n) && AllConsistent(n.client.sent) && !Spoilt(n.server.handshakeOut, n.client)
    ensures Delivered(n.server.inbox, n.client.sent)
  {
    hide NetInv, Delivered, Early, Harmless, U64Of, Scramble, HeaderBytes;
    if !Early(n.client) {
      ToServer(n);
    } else if !Forged(n.server.handshakeOut, n.client) {
      EarlyRefused(n);
    } else {
      assert n.client.writer.Mixed() by { HarmlessCut(n.client.writer); }
      HarmlessDelivers(n);
    }
  }

  lemma HarmlessCut(w: W.Writer)
    requires Harmless(w)
    ensures w.Mixed()
  {
  }

  /** The stream begins with h, and the word that cuts it later is h again. */
  predicate CutByItsHead(w: W.Writer, h: seq<byte>) {
    && w.mix.Cut? && w.mix.word == h && |h| == HEADER_SIZE <= w.mix.at <= |W.Own(w)|
    && W.Own(w)[..HEADER_SIZE] == h
  }

  /** A forged answer is the client's real answer, and leads what the client has written. */
  lemma ForgedWord(n: Net)
    requires n.client.writer.Mixed() && NetInv(n) && Forged(n.server.handshakeOut, n.client)
    ensures n.client.sent != []
    ensures CutByItsHead(n.client.writer, FirstHeaderOf(n.client))
  {
    hide Inv, W.Inv, U64Of, U64Bytes, Scramble, HeaderBytes, W.Own;
    CutByAnswer(n.client);
    AnsweredChallenge(n.client);
    ChallengeArrives(n);
    U64BytesRoundTrip(HeaderBytes(n.client.sent[0].id, n.client.sent[0].size));
    FirstHeader(n.client);
  }

  lemma AnsweredChallenge(c: Endpoint)
    requires Inv(c) && c.owner.Client? && c.writer.Mixed()
    ensures |c.reader.preamble| == HANDSHAKE_SIZE
  {
    hide W.Inv, R.Inv, U64Of, U64Bytes, Scramble, WriteSide, ReadSide;
  }

  lemma FirstHeader(c: Endpoint)
    requires Inv(c) && c.owner.Client? && c.writer.Mixed()
    ensures c.sent != [] && c.writer.mix.Cut? && HEADER_SIZE <= c.writer.mix.at <= |W.Own(c.writer)|
    ensures W.Own(c.writer)[..HEADER_SIZE] == HeaderBytes(c.sent[0].id, c.sent[0].size)
  {
    hide Inv, W.Inv, R.Inv, U64Bytes, HeaderBytes, W.Own;
    CutByAnswer(c);
    EarlyStream(c);
    SidesOf(c);
    CutLater(c.writer);
    assert W.Accepted(c.writer)[0] == Buffers(c.sent[0]);
    assert W.Own(c.writer)[..HEADER_SIZE] == c.writer.submitted[..HEADER_SIZE];
  }

  lemma CutLater(w: W.Writer)
    requires W.Inv(w) && w.mix.Cut? && w.prefix == []
    ensures W.Accepted(w) != [] && |W.Accepted(w)[0][0]| <= w.mix.at <= |W.Own(w)|
    ensures W.Own(w)[..w.mix.at] <= w.submitted
  {
    hide W.Own, W.Accepted;
  }


  /** Swapping a word with what precedes it. */
  lemma Swapped(word: seq<byte>, between: seq<byte>, rest: seq<byte>)
    ensures between + word == word + between
       <==> word + between + word + rest == word + (word + between + rest)
  {
    var k := |word + between|;
    assert (word + between + word + rest)[|word|..][..k] == between + word;
    assert (word + (word + between + rest))[|word|..][..k] == word + between;
    assert word + between + word + rest == word + ((between + word) + rest);
    assert word + (word + between + rest) == word + ((word + between) + rest);
  }

  /** What a forged answer leaves of the client's stream, after its first eight bytes. */
  lemma ForgedStream(n: Net)
    requires NetInv(n) && Forged(n.server.handshakeOut, n.client) && n.client.writer.Mixed()
    ensures
      var w := n.client.writer;
      && w.mix.Cut?
      && |w.submitted + W.Unsent(w)| == |w.mix.word| + |Concat(W.Flat(W.Accepted(w)))|
      && (Harmless(w) <==> w.submitted + W.Unsent(w) == w.mix.word + Concat(W.Flat(W.Accepted(w))))
  {
    hide Inv, Wired, Forged, Early, W.Inv, W.Own, W.Unsent, W.Flat, W.Accepted, HeaderBytes, U64Bytes, Concat;
    ForgedWord(n);
    CutByAnswer(n.client);
    var w := n.client.writer;
    W.CutAccounts(w);
    var own, at := W.Own(w), w.mix.at;
    var rest := own[at..] + W.Unsent(w);
    assert own[..at] == w.mix.word + own[HEADER_SIZE..at];
    assert [] + own[..at] == own[..at];
    Swapped(w.mix.word, own[HEADER_SIZE..at], rest);
  }

  lemma HarmlessDelivers(n: Net)
    requires NetInv(n) && AllConsistent(n.client.sent)
    requires Forged(n.server.handshakeOut, n.client) && Harmless(n.client.writer) && n.client.writer.Mixed()
    ensures Delivered(n.server.inbox, n.client.sent)
  {
    hide Inv, Delivered, Harmless, Early, W.Inv, R.Inv, W.Unsent, W.Accepted, W.Produced, Jobs, FramesOf, Concat;
    hide U64Of, Scramble, HeaderBytes, Received, Decoded;
    if n.server.reader.frames == [] {
      NothingDelivered(n.client, n.server);
    } else {
      ForgedStream(n);
      ForgedWord(n);
      SidesOf(n.client);
      SidesOf(n.server);
      HeaderLeads(n);
      var w, r := n.client.writer, n.server.reader;
      var fs := W.Flat(W.Accepted(w));
      JobsAreFrames(Taken(n.client));
      TakenConsistent(n.client);
      ConsistentFrames(Taken(n.client));
      Link.AccountedFor(WIRE_FORMAT, r);
      ProducedSubmitted(w);
      assert r.consumed <= w.submitted + W.Unsent(w) by {
        assert r.consumed <= W.Produced(w) <= w.submitted <= w.submitted + W.Unsent(w);
      }
      Link.CutPrefix(r.preamble, Concat(r.frames), r.header + r.got, Concat(fs));
      PrefixCode(WIRE_FORMAT, r.frames, fs);
      InboxDelivered(n.client, n.server);
    }
  }

  lemma ProducedSubmitted(w: W.Writer)
    requires w.moved <= |w.submitted|
    ensures W.Produced(w) <= w.submitted
  {
  }

  /** An early client that is not taken for an answering one delivers nothing. */
  lemma EarlyRefused(n: Net)
    requires NetInv(n) && Early(n.client) && !Forged(n.server.handshakeOut, n.client)
    ensures Delivered(n.server.inbox, n.client.sent)
  {
    hide Inv, Delivered, U64Of, Scramble, HeaderBytes, Early;
    SidesOf(n.server);
    if n.server.reader.frames != [] {
      ListeningValidated(n.server);
      VerdictGiven(n.server);
      HeaderLeads(n);
    }
    NothingDelivered(n.client, n.server);
  }

  lemma ListeningValidated(e: Endpoint)
    requires Inv(e) && e.owner.Server? && R.Listening(e.reader)
    ensures e.validated && |e.reader.preamble| == HANDSHAKE_SIZE
  {
    hide W.Inv, R.Inv, R.Listening, U64Of, Scramble, U64Bytes;
  }

  lemma NothingDelivered(source: Endpoint, sink: Endpoint)
    requires Inv(sink) && sink.reader.frames == []
    ensures Delivered(sink.inbox, source.sent)
  {
    SidesOf(sink);
    assert Views([]) == [];
  }

  lemma ToClient(n: Net)
    requires NetInv(n) && AllConsistent(n.server.sent)
    ensures Delivered(n.client.inbox, n.server.sent)
  {
    hide Inv, Delivered, W.Produced;
    if n.client.reader.frames == [] {
      NothingDelivered(n.server, n.client);
    } else {
      PreamblesMatch(n);
      Unmixed(n.server);
      FramesDelivered(n.server, n.toClient, n.client);
      InboxDelivered(n.server, n.client);
    }
  }

  lemma Unmixed(e: Endpoint)
    requires Inv(e) && e.owner.Server?
    ensures !e.writer.Mixed() && |e.posted| <= |e.sent|
  {
    hide W.Inv, W.Accepted;
  }

  lemma ToServer(n: Net)
    requires NetInv(n) && AllConsistent(n.client.sent) && !Early(n.client)
    ensures Delivered(n.server.inbox, n.client.sent)
  {
    hide Inv, Delivered, W.Produced;
    if n.server.reader.frames == [] {
      NothingDelivered(n.client, n.server);
    } else {
      PreamblesMatch(n);
      FramesDelivered(n.client, n.toServer, n.server);
      InboxDelivered(n.client, n.server);
    }
  }

  // ---------- Conservation ----------

  /**
    Nothing is lost, duplicated or invented on the way.  In each direction, what the receiver
    has consumed, what is on the wire, what the sender's socket holds, what its queue still
    holds and what is still posted are together exactly the handshake word, if written, and
    the frames of everything sent.  Of a client that wrote messages before its answer the
    same holds, but that the answer lies somewhere among the frames.
   */
  lemma Conservation(challenge: U64, es: seq<NetEvent>, n: Net)
    requires NetRun(Initial(challenge), es, n)
    ensures Balanced(n.server, n.toClient, n.client, if n.server.started then U64Bytes(challenge) else [])
    ensures !n.client.writer.Mixed() ==>
              Balanced(n.client, n.toServer, n.server,
                       if n.client.handshakeBegun then U64Bytes(n.client.handshakeOut) else [])
    ensures n.client.writer.Mixed() ==>
              Interrupted(n.client, n.toServer, n.server, U64Bytes(n.client.handshakeOut))
  {
    hide Inv, W.Unsent, U64Bytes, Jobs, Balanced, Interrupted;
    InitialInv(challenge);
    NetRunFrom(Initial(challenge), es, n);
    Unmixed(n.server);
    PrefixOf(n.server);
    BytesBalance(n.server, n.toClient, n.client);
    if !n.client.writer.Mixed() {
      PrefixOf(n.client);
      BytesBalance(n.client, n.toServer, n.server);
    } else {
      WordInterrupts(n.client, n.toServer, n.server);
    }
  }

  /** Where the messages of one direction are. */
  ghost predicate Queued(source: Endpoint) {
    && |source.posted| <= |source.sent| && Taken(source) + source.posted == source.sent
    && source.writer.done + source.writer.queue == Jobs(Taken(source))
    && source.writer.moved <= |source.writer.submitted|
  }

  /** All bytes of one direction: consumed, on the wire, in the socket, in the queue, posted. */
  function Stream(source: Endpoint, wire: seq<byte>, sink: Endpoint): seq<byte>
    requires source.writer.moved <= |source.writer.submitted|
  {
    sink.reader.consumed + wire
    + source.writer.submitted[source.writer.moved..]
    + W.Unsent(source.writer)
    + Concat(FramesOf(source.posted))
  }

  /** They are a handshake word and then everything sent. */
  ghost predicate Balanced(source: Endpoint, wire: seq<byte>, sink: Endpoint, word: seq<byte>) {
    Queued(source) && Stream(source, wire, sink) == word + Concat(FramesOf(source.sent))
  }

  /** They are everything sent, with a handshake word somewhere inside. */
  ghost predicate Interrupted(source: Endpoint, wire: seq<byte>, sink: Endpoint, word: seq<byte>) {
    && Queued(source)
    && exists a, b ::
         && a + b == Concat(FramesOf(source.sent))
         && Stream(source, wire, sink) == a + word + b
  }

  /** The stream, by what the pump has submitted. */
  lemma StreamOf(source: Endpoint, wire: seq<byte>, sink: Endpoint)
    requires Inv(source) && Wired(source, wire, sink)
    ensures Queued(source)
    ensures Stream(source, wire, sink)
         == source.writer.submitted + W.Unsent(source.writer) + Concat(FramesOf(source.posted))
    ensures Concat(FramesOf(source.sent))
         == Concat(W.Flat(W.Accepted(source.writer))) + Concat(FramesOf(source.posted))
  {
    hide W.Inv, W.Unsent, U64Bytes, U64Of, Scramble, Jobs, FrameOf, ReadSide, ServerSide, ClientSide;
    var w := source.writer;
    MovedWithinSubmitted(w);
    JobsAreFrames(Taken(source));
    assert FramesOf(source.sent) == FramesOf(Taken(source)) + FramesOf(source.posted);
    ConcatAppend(FramesOf(Taken(source)), FramesOf(source.posted));
    assert W.Produced(w) + w.submitted[w.moved..] == w.submitted;
  }

  lemma Regroup(a: seq<byte>, word: seq<byte>, b: seq<byte>, c: seq<byte>)
    ensures a + word + b + c == a + word + (b + c)
    ensures a + b + c == a + (b + c)
  {
  }

  lemma WordInterrupts(client: Endpoint, wire: seq<byte>, sink: Endpoint)
    requires Inv(client) && client.owner.Client? && client.writer.Mixed() && Wired(client, wire, sink)
    ensures Interrupted(client, wire, sink, U64Bytes(client.handshakeOut))
  {
    hide Inv, Wired, W.Inv, W.Own, W.Unsent, W.Accepted, W.Flat, FramesOf, Stream, U64Bytes, Queued, Concat;
    StreamOf(client, wire, sink);
    CutByAnswer(client);
    var w := client.writer;
    W.CutAccounts(w);
    var a, rest, posted := W.Own(w)[..w.mix.at], W.Own(w)[w.mix.at..] + W.Unsent(w), Concat(FramesOf(client.posted));
    Regroup(a, w.mix.word, rest, posted);
    assert [] + a == a;
  }

  lemma CutByAnswer(e: Endpoint)
    requires Inv(e) && e.owner.Client? && e.writer.Mixed()
    ensures W.Inv(e.writer) && e.writer.prefix == []
    ensures e.writer.mix.Cut? && e.writer.mix.word == U64Bytes(e.handshakeOut)
  {
    hide W.Inv, R.Inv, U64Bytes, U64Of, Scramble, W.Accepted;
  }

  lemma PrefixOf(e: Endpoint)
    requires Inv(e) && !e.writer.Mixed()
    ensures e.owner.Server? ==> e.writer.prefix == if e.started then U64Bytes(e.handshakeOut) else []
    ensures e.owner.Client? ==> e.writer.prefix == if e.handshakeBegun then U64Bytes(e.handshakeOut) else []
  {
    hide WriteSide, ReadSide, U64Bytes, U64Of, Scramble;
  }

  lemma BytesBalance(source: Endpoint, wire: seq<byte>, sink: Endpoint)
    requires Inv(source) && Wired(source, wire, sink) && !source.writer.Mixed()
    ensures Balanced(source, wire, sink, source.writer.prefix)
  {
    hide Inv, Wired, W.Inv, W.Unsent, W.Accepted, W.Flat, W.Produced, FramesOf, Stream, Queued, Concat;
    StreamOf(source, wire, sink);
    SidesOf(source);
    W.ProducedIsPrefix(source.writer);
    Regroup(source.writer.prefix, [], Concat(W.Flat(W.Accepted(source.writer))), Concat(FramesOf(source.posted)));
    assert source.writer.prefix + [] == source.writer.prefix;
  }

  // ---------- The handshake of two real endpoints ----------

  /**
    When the server has read eight bytes it has given its verdict, which depends on nothing
    but whether the client waited: a client that answered first is validated; a client that
    sent first is validated exactly if the header of its first message happens to be the answer.
   */
  lemma HandshakeVerdict(challenge: U64, es: seq<NetEvent>, n: Net)
    requires NetRun(Initial(challenge), es, n)
    requires |n.server.reader.preamble| == HANDSHAKE_SIZE
    ensures n.server.rejected == !n.server.validated
    ensures !Early(n.client) ==> n.server.validated
    ensures Early(n.client) ==>
              && n.client.sent != []
              && (n.server.validated <==>
                  U64Of(HeaderBytes(n.client.sent[0].id, n.client.sent[0].size)) == Scramble(challenge))
  {
    hide Inv, U64Of, Scramble, HeaderBytes;
    InitialInv(challenge);
    NetRunFrom(Initial(challenge), es, n);
    VerdictGiven(n.server);
    if Early(n.client) {
      HeaderLeads(n);
    } else {
      AnswerArrives(n);
    }
  }

  lemma VerdictGiven(e: Endpoint)
    requires Inv(e) && e.owner.Server? && |e.reader.preamble| == HANDSHAKE_SIZE
    ensures e.validated <==> U64Of(e.reader.preamble) == Scramble(e.handshakeOut)
    ensures e.rejected == !e.validated
  {
    hide W.Inv, R.Inv, U64Of, Scramble, U64Bytes;
  }

  lemma HeaderLeads(n: Net)
    requires NetInv(n) && Early(n.client) && |n.server.reader.preamble| == HANDSHAKE_SIZE
    ensures n.client.sent != []
    ensures n.server.reader.preamble == HeaderBytes(n.client.sent[0].id, n.client.sent[0].size)
  {
    hide Inv, W.Inv, R.Inv, U64Of, U64Bytes, Scramble, HeaderBytes;
    var w := n.client.writer;
    SidesOf(n.client);
    SidesOf(n.server);
    Link.AccountedFor(WIRE_FORMAT, n.server.reader);
    EarlyStream(n.client);
    assert n.server.reader.preamble <= W.Produced(w);
    assert W.Produced(w)[..HANDSHAKE_SIZE] == w.submitted[..HANDSHAKE_SIZE];
  }

  lemma EarlyStream(c: Endpoint)
    requires Inv(c) && c.owner.Client? && Early(c)
    ensures c.sent != []
    ensures HeaderBytes(c.sent[0].id, c.sent[0].size) <= c.writer.submitted
  {
    hide W.Inv, R.Inv, ReadSide, U64Of, U64Bytes, Scramble, HeaderBytes;
    SidesOf(c);
    FirstBuffer(c.writer);
    assert W.Accepted(c.writer)[0] == Buffers(c.sent[0]);
  }

  lemma FirstBuffer(w: W.Writer)
    requires W.Inv(w) && w.prefix == [] && (w.Mixed() || W.Accepted(w) != [])
    ensures W.Accepted(w) != [] && W.Accepted(w)[0][0] <= w.submitted
  {
    if !w.Mixed() {
      W.FirstBufferLeads(w);
    }
    assert [] + W.Accepted(w)[0][0] == W.Accepted(w)[0][0];
  }

  // ---------- Quiescence ----------

  /** The endpoint has nothing to do: no closure, no byte to move, no handler, no byte to take. */
  ghost predicate Quiet(e: Endpoint, inWire: seq<byte>) {
    && !Enabled(e, Start)
    && !Enabled(e, RunPosted)
    && !Enabled(e, Transfer(1))
    && (forall i :: !Enabled(e, MessageWritten(i)))
    && !Enabled(e, HandshakeWritten)
    && !Enabled(e, ReadDone)
    && (inWire != [] ==> !Enabled(e, Arrive(inWire[..1])))
  }

  /** A quiet endpoint whose socket is open has written everything and is waiting for bytes. */
  lemma QuietEndpoint(e: Endpoint, inWire: seq<byte>)
    requires Inv(e) && e.open && Quiet(e, inWire)
    ensures e.started && e.posted == [] && e.writer.moved == |e.writer.submitted|
    ensures W.Accepted(e.writer) == Jobs(e.sent) && e.writer.queue == []
    ensures inWire == [] && !e.reader.phase.Idle? && !R.Complete(WIRE_FORMAT, e.reader)
    ensures R.Inv(WIRE_FORMAT, e.reader)
  {
    hide R.Inv, R.Step, W.Step, Received, Decoded, U64Of, U64Bytes, Scramble, Jobs, ServerSide, ClientSide, W.Begun;
    QuietWriter(e, inWire);
    assert Taken(e) == e.sent;
    assert e.reader.phase.Idle? ==> Enabled(e, HandshakeWritten);
    Waiting(e.reader);
  }

  lemma Waiting(r: R.Reader)
    requires R.Inv(WIRE_FORMAT, r) && !r.phase.Idle? && !R.Complete(WIRE_FORMAT, r)
    ensures |r.got| < R.Need(WIRE_FORMAT, r)
  {
  }

  lemma QuietWriter(e: Endpoint, inWire: seq<byte>)
    requires Inv(e) && e.open && Quiet(e, inWire)
    ensures e.started && e.posted == [] && e.writer.moved == |e.writer.submitted| && e.writer.queue == []
  {
    hide R.Inv, R.Step, W.Step, Received, Decoded, U64Of, U64Bytes, Scramble, Jobs, W.Accepted, W.Begun;
    var w := e.writer;
    assert e.started;
    assert w.moved == |w.submitted|;
    assert w.ops != [] ==> Enabled(e, MessageWritten(0));
  }

  /** A settled direction: everything sent has been delivered. */
  lemma QuietDelivers(source: Endpoint, wire: seq<byte>, sink: Endpoint)
    requires Inv(source) && Inv(sink) && Wired(source, wire, sink) && wire == []
    requires !source.writer.Mixed() && source.writer.queue == [] && source.writer.moved == |source.writer.submitted|
    requires W.Accepted(source.writer) == Jobs(source.sent)
    requires sink.reader.preamble == source.writer.prefix && !sink.reader.phase.Preamble?
    requires !sink.reader.phase.Idle? && !R.Complete(WIRE_FORMAT, sink.reader)
    requires AllConsistent(source.sent)
    ensures sink.reader.frames == FramesOf(source.sent)
  {
    hide Inv, W.Inv, W.Accepted, W.Produced, R.Inv, R.Complete, Received, Decoded, Jobs, FramesOf;
    SidesOf(source);
    SidesOf(sink);
    JobsAreFrames(source.sent);
    ConsistentFrames(source.sent);
    assert sink.reader.consumed + [] == sink.reader.consumed;
    Link.Settled(WIRE_FORMAT, source.writer, sink.reader);
  }

  /** A quiet reader on a wire that began with a handshake word is past its preamble. */
  lemma PastPreamble(source: Endpoint, wire: seq<byte>, sink: Endpoint)
    requires Inv(source) && Inv(sink) && Wired(source, wire, sink) && wire == []
    requires source.writer.moved == |source.writer.submitted| && !source.writer.Mixed()
    requires |source.writer.prefix| == HANDSHAKE_SIZE
    requires !R.Complete(WIRE_FORMAT, sink.reader) && !sink.reader.phase.Idle?
    ensures R.Listening(sink.reader) && !sink.reader.phase.Preamble?
    ensures |sink.reader.preamble| == HANDSHAKE_SIZE
  {
    hide W.Inv, W.Accepted, Received, Decoded, Jobs, U64Of, U64Bytes, Scramble, WriteSide, ServerSide, ClientSide;
    SidesOf(source);
    SubmittedHasPrefix(source.writer);
    assert sink.reader.consumed + [] == source.writer.submitted;
  }

  lemma SubmittedHasPrefix(w: W.Writer)
    requires W.Inv(w) && !w.Mixed()
    ensures w.prefix <= w.submitted
  {
  }

  /** A settled server is past the eight bytes that it took for the answer. */
  lemma SettledServer(n: Net)
    requires NetInv(n) && Early(n.client) && n.toServer == []
    requires n.client.writer.moved == |n.client.writer.submitted|
    requires !n.server.reader.phase.Idle? && !R.Complete(WIRE_FORMAT, n.server.reader)
    ensures !n.server.reader.phase.Preamble? && |n.server.reader.preamble| == HANDSHAKE_SIZE
    ensures n.server.reader.preamble == HeaderBytes(n.client.sent[0].id, n.client.sent[0].size)
  {
    hide W.Inv, U64Of, U64Bytes, Scramble, HeaderBytes, WriteSide, ServerSide, ClientSide, Received, Decoded, Early;
    EarlyStream(n.client);
    SidesOf(n.server);
    assert n.server.reader.consumed + [] == n.client.writer.submitted;
    assert !n.server.reader.phase.Preamble?;
    ListeningValidated(n.server);
    HeaderLeads(n);
  }

  /** A settled early client has been taken for an answering one. */
  lemma EarlySettles(n: Net)
    requires NetInv(n) && Early(n.client) && n.toServer == []
    requires n.client.writer.moved == |n.client.writer.submitted|
    requires !n.server.reader.phase.Idle? && !R.Complete(WIRE_FORMAT, n.server.reader)
    ensures Forged(n.server.handshakeOut, n.client)
  {
    hide Inv, W.Inv, R.Inv, R.Complete, U64Of, Scramble, HeaderBytes, Early;
    SettledServer(n);
    EarlyStream(n.client);
    ListeningValidated(n.server);
    VerdictGiven(n.server);
  }

  /**
    In every failure-free run the handshake succeeds and everything is delivered exactly once:
    when nothing is left to do and the sockets are still open, the server has validated the
    client and each application has been given, in order, precisely the messages the other
    passed to Send; unless, again, an early message was taken for the answer.
   */
  lemma QuiescentExactlyOnce(challenge: U64, es: seq<NetEvent>, n: Net)
    requires NetRun(Initial(challenge), es, n)
    requires Quiet(n.server, n.toServer) && Quiet(n.client, n.toClient)
    requires n.server.open && n.client.open && !Forged(challenge, n.client)
    requires AllConsistent(n.server.sent) && AllConsistent(n.client.sent)
    ensures n.server.validated && !Early(n.client)
    ensures n.client.inbox == Received(EMPTY_SCRATCH, n.server.sent) && Views(n.client.inbox) == n.server.sent
    ensures n.server.inbox == Received(EMPTY_SCRATCH, n.client.sent) && Views(n.server.inbox) == n.client.sent
  {
    hide Inv, Quiet, Received, W.Produced, Forged, Early;
    InitialInv(challenge);
    NetRunFrom(Initial(challenge), es, n);
    QuietEndpoint(n.server, n.toServer);
    QuietEndpoint(n.client, n.toClient);
    if Early(n.client) { EarlySettles(n); }
    Prefixes(n);
    PastPreamble(n.server, n.toClient, n.client);
    ChallengeArrives(n);
    QuietDelivers(n.server, n.toClient, n.client);
    AnswerBegun(n.client);
    NotEarly(n.client);
    PastPreamble(n.client, n.toServer, n.server);
    AnswerArrives(n);
    QuietDelivers(n.client, n.toServer, n.server);
    SidesOf(n.client);
    SidesOf(n.server);
    DecodedFrames(n.server.sent);
    DecodedFrames(n.client.sent);
    ReceivedViews(EMPTY_SCRATCH, n.server.sent);
    ReceivedViews(EMPTY_SCRATCH, n.client.sent);
  }

  /**
    And exactly then: once nothing is left to do and the sockets are open, the server has
    what the client sent if and only if the exception has not occurred.
   */
  lemma QuiescentIff(challenge: U64, es: seq<NetEvent>, n: Net)
    requires NetRun(Initial(challenge), es, n)
    requires Quiet(n.server, n.toServer) && Quiet(n.client, n.toClient)
    requires n.server.open && n.client.open
    requires AllConsistent(n.server.sent) && AllConsistent(n.client.sent)
    ensures Views(n.server.inbox) == n.client.sent <==> !Spoilt(challenge, n.client)
  {
    hide Inv, Quiet, W.Produced, Forged, Harmless, Views, NetRun;
    if !Forged(challenge, n.client) {
      QuiescentExactlyOnce(challenge, es, n);
    } else {
      InitialInv(challenge);
      NetRunFrom(Initial(challenge), es, n);
      QuietEndpoint(n.server, n.toServer);
      QuietEndpoint(n.client, n.toClient);
      Prefixes(n);
      PastPreamble(n.server, n.toClient, n.client);
      ForgedMixed(n);
      ForgedSettled(n);
    }
  }

  /** A client that has been asked has answered. */
  lemma ForgedMixed(n: Net)
    requires NetInv(n) && Forged(n.server.handshakeOut, n.client)
    requires |n.client.reader.preamble| == HANDSHAKE_SIZE
    ensures n.client.writer.Mixed()
  {
    hide Wired, ServerSide, WriteSide, ReadSide, Scramble, U64Of, U64Bytes, HeaderBytes, W.Accepted;
  }

  lemma ForgedSettled(n: Net)
    requires NetInv(n) && AllConsistent(n.client.sent)
    requires Forged(n.server.handshakeOut, n.client) && n.client.writer.Mixed()
    requires W.Accepted(n.client.writer) == Jobs(n.client.sent) && n.client.writer.queue == []
    requires n.toServer == [] && n.client.writer.moved == |n.client.writer.submitted|
    requires !n.server.reader.phase.Idle? && !R.Complete(WIRE_FORMAT, n.server.reader)
    ensures Views(n.server.inbox) == n.client.sent <==> Harmless(n.client.writer)
  {
    hide Inv, Harmless, W.Inv, R.Inv, R.Complete, W.Unsent, W.Accepted, W.Produced, W.Flat, Jobs, FramesOf, Concat;
    hide U64Of, Scramble, HeaderBytes, Received, Decoded, Views;
    var w, r := n.client.writer, n.server.reader;
    SettledServer(n);
    ForgedStream(n);
    ForgedWord(n);
    JobsAreFrames(n.client.sent);
    ConsistentFrames(n.client.sent);
    Link.SettledBytes(w);
    assert r.consumed + [] == r.consumed;
    SidesOf(n.server);
    Link.AccountedFor(WIRE_FORMAT, r);
    if Harmless(w) {
      Link.SettledFrames(WIRE_FORMAT, r, FramesOf(n.client.sent));
      DecodedFrames(n.client.sent);
      ReceivedViews(EMPTY_SCRATCH, n.client.sent);
    }
    if Views(n.server.inbox) == n.client.sent {
      FramesDecoded(r.frames);
      ReceivedViews(EMPTY_SCRATCH, Decoded(r.frames));
      assert r.header + r.got == [];
    }
  }

  lemma NotEarly(client: Endpoint)
    requires !Early(client)
    ensures !client.writer.Mixed()
  {
  }

  lemma Prefixes(n: Net)
    requires NetInv(n) && n.server.started
    ensures |n.server.writer.prefix| == HANDSHAKE_SIZE && !n.server.writer.Mixed()
  {
    hide WriteSide, ReadSide, Scramble, U64Of, U64Bytes;
  }

  lemma AnswerBegun(c: Endpoint)
    requires Inv(c) && c.owner.Client? && |c.reader.preamble| == HANDSHAKE_SIZE && !Early(c)
    ensures |c.writer.prefix| == HANDSHAKE_SIZE
  {
    hide WriteSide, ReadSide, Scramble, U64Of, U64Bytes;
  }

  lemma StackDelivered(sent: seq<Message>, inbox: seq<Message>, i: nat, id: u32, values: seq<seq<byte>>)
    requires Delivered(inbox, sent) && i < |inbox|
    requires sent[i] == PushAll(Message(id, 0, []), values)
    ensures PopAll(View(inbox[i]), Sizes(values)) == Some((Message(id, 0, []), values))
  {
    StackRoundTrip(Message(id, 0, []), values);
    assert Views(inbox)[i] == View(inbox[i]);
  }

  /**
    On every run, a message built with << from values of any sizes is read back with >> from
    what has arrived at the other end.
   */
  lemma StackOverTheWire(challenge: U64, es: seq<NetEvent>, n: Net, i: nat, id: u32, values: seq<seq<byte>>)
    requires NetRun(Initial(challenge), es, n)
    ensures
      && AllConsistent(n.server.sent) && i < |n.client.inbox|
      && i < |n.server.sent| && n.server.sent[i] == PushAll(Message(id, 0, []), values)
      ==> PopAll(View(n.client.inbox[i]), Sizes(values)) == Some((Message(id, 0, []), values))
    ensures
      && AllConsistent(n.client.sent) && !Spoilt(challenge, n.client) && i < |n.server.inbox|
      && i < |n.client.sent| && n.client.sent[i] == PushAll(Message(id, 0, []), values)
      ==> PopAll(View(n.server.inbox[i]), Sizes(values)) == Some((Message(id, 0, []), values))
  {
    EndToEnd(challenge, es, n);
    hide NetRun, Delivered, Spoilt, PushAll, PopAll, View;
    if AllConsistent(n.server.sent) && i < |n.client.inbox| && i < |n.server.sent|
       && n.server.sent[i] == PushAll(Message(id, 0, []), values) {
      StackDelivered(n.server.sent, n.client.inbox, i, id, values);
    }
    if AllConsistent(n.client.sent) && !Spoilt(challenge, n.client) && i < |n.server.inbox| && i < |n.client.sent|
       && n.client.sent[i] == PushAll(Message(id, 0, []), values) {
      StackDelivered(n.client.sent, n.server.inbox, i, id, values);
    }
  }
}
