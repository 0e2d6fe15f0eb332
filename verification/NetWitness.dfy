/** Runs of two endpoints on which a client that does not wait for its answer goes wrong. */
module NetworkWitnesses {
  import opened Bytes
  import opened Handshake
  import opened Messages
  import opened Transport
  import opened Endpoints
  import opened Network
  import W = WritePump
  import R = FrameReader

  ghost predicate Reached(challenge: U64, n: Net) {
    exists es :: NetRun(Initial(challenge), es, n)
  }

  lemma {:induction false} NetRunSnoc(n: Net, es: seq<NetEvent>, t: Net, ne: NetEvent)
    requires NetRun(n, es, t) && NetEnabled(t, ne)
    ensures NetRun(n, es + [ne], NetStep(t, ne))
    decreases |es|
  {
    hide NetStep, NetEnabled;
    if es == [] {
      assert NetRun(NetStep(n, ne), [], NetStep(n, ne));
      assert (es + [ne])[1..] == [];
    } else {
      NetRunSnoc(NetStep(n, es[0]), es[1..], t, ne);
      assert (es + [ne])[1..] == es[1..] + [ne];
    }
  }

  lemma Reach(challenge: U64, n: Net, ne: NetEvent)
    requires Reached(challenge, n) && NetEnabled(n, ne)
    ensures Reached(challenge, NetStep(n, ne))
  {
    hide NetStep, NetEnabled;
    var es :| NetRun(Initial(challenge), es, n);
    NetRunSnoc(Initial(challenge), es, n, ne);
  }

  lemma ReachInitial(challenge: U64)
    ensures Reached(challenge, Initial(challenge))
  {
    assert NetRun(Initial(challenge), [], Initial(challenge));
  }

  // ---------- The endpoints of these runs, step by step ----------

  /** A server that waits for its answer, of which `got` has arrived. */
  function Waiting(challenge: U64, got: seq<byte>): Endpoint {
    var s := Create(Server, challenge);
    var r := R.Reader(R.Preamble, [], got, [], [], got);
    WriteValidation(s.(started := true)).(reader := r)
  }

  /** A connected client that has not been asked yet, has written the header of its first message, and has sent more. */
  function Hasty(m: Message, more: seq<Message>, moved: nat): Endpoint {
    var c := Create(Client, U64(0));
    var h := HeaderBytes(m.id, m.size);
    c.(started := true, reader := R.FRESH.(phase := R.Preamble), sent := [m] + more, posted := more,
       writer := W.Writer([Buffers(m)], 1, [HEADER_SIZE], false, [], [], W.Clean, h, moved))
  }

  lemma ServerWaits(challenge: U64)
    ensures Enabled(Create(Server, challenge), Start)
    ensures Step(Create(Server, challenge), Start) == Waiting(challenge, [])
  {
    hide Scramble, U64Bytes;
  }

  lemma ClientConnects()
    ensures Enabled(Create(Client, U64(0)), Start)
    ensures var c := Create(Client, U64(0));
            Step(c, Start) == c.(started := true, reader := R.FRESH.(phase := R.Preamble))
  {
  }

  lemma ClientHurries(m: Message)
    ensures
      var c := Step(Create(Client, U64(0)), Start);
      var c1 := Step(c, Send(m));
      Enabled(c1, RunPosted) && Step(c1, RunPosted) == Hasty(m, [], 0)
  {
    ClientConnects();
    hide HeaderBytes;
    var c1 := Step(Step(Create(Client, U64(0)), Start), Send(m));
    assert c1.posted == [m] && c1.posted[1..] == [] && c1.sent == [m];
    assert [] + HeaderBytes(m.id, m.size) == HeaderBytes(m.id, m.size);
    assert [m] + [] == [m];
  }

  /** Both ends have started; the challenge has been written and has not left. */
  lemma BothStarted(challenge: U64)
    ensures Enabled(Initial(challenge).client, Start)
    ensures Reached(challenge, Net(Waiting(challenge, []), Step(Initial(challenge).client, Start), [], []))
  {
    hide Reached, Scramble, U64Bytes;
    ReachInitial(challenge);
    var n0 := Initial(challenge);
    ServerWaits(challenge);
    Reach(challenge, n0, AtServer(Start));
    var n1 := Net(Waiting(challenge, []), n0.client, [], []);
    ClientConnects();
    Reach(challenge, n1, AtClient(Start));
  }

  /** The client has hurried, and the server has its header for an answer. */
  lemma HeaderTaken(challenge: U64, m: Message)
    ensures Reached(challenge, Net(Waiting(challenge, HeaderBytes(m.id, m.size)), Hasty(m, [], HEADER_SIZE), [], []))
  {
    var h := HeaderBytes(m.id, m.size);
    hide Reached, Scramble, U64Bytes, HeaderBytes;
    BothStarted(challenge);
    var n0, n1 := Initial(challenge), Net(Waiting(challenge, []), Initial(challenge).client, [], []);
    var n2 := Net(n1.server, Step(n0.client, Start), [], []);
    Reach(challenge, n2, AtClient(Send(m)));
    var n3 := Net(n1.server, Step(n2.client, Send(m)), [], []);
    ClientHurries(m);
    Reach(challenge, n3, AtClient(RunPosted));
    var n4 := Net(n1.server, Hasty(m, [], 0), [], []);
    Reach(challenge, n4, AtClient(Transfer(HEADER_SIZE)));
    assert h[0..HEADER_SIZE] == h && [] + h == h;
    var n5 := Net(n1.server, Hasty(m, [], HEADER_SIZE), [], h);
    Reach(challenge, n5, AtServer(Arrive(h)));
    assert h[|h|..] == [];
  }

  /**
    Any client that sends before it answers can be refused: for every first message whose
    header is not the answer there is a run on which the server takes that header for the
    answer, rejects the client and closes.
   */
  lemma EarlyClientRejected(challenge: U64, m: Message)
    requires U64Of(HeaderBytes(m.id, m.size)) != Scramble(challenge)
    ensures exists n ::
      && Reached(challenge, n) && Early(n.client) && !Forged(challenge, n.client) && n.client.sent == [m]
      && n.server.rejected && !n.server.validated && !n.server.open
  {
    HeaderTaken(challenge, m);
    hide Reached, Scramble, U64Of, U64Bytes, HeaderBytes;
    var n := Net(Waiting(challenge, HeaderBytes(m.id, m.size)), Hasty(m, [], HEADER_SIZE), [], []);
    Reach(challenge, n, AtServer(ReadDone));
    var t := NetStep(n, AtServer(ReadDone));
    HastyIsEarly(m);
    assert t.server.rejected;
  }

  lemma HastyIsEarly(m: Message)
    ensures Early(Hasty(m, [], HEADER_SIZE)) && Hasty(m, [], HEADER_SIZE).sent == [m]
  {
    assert [m] + [] == [m];
  }

  // ---------- A forged answer ----------

  /** The server has taken a header for the answer and reads messages, of which `got` has arrived. */
  function Fooled(challenge: U64, h: seq<byte>, got: seq<byte>): Endpoint
    requires |h| == HANDSHAKE_SIZE
  {
    var r := R.Reader(R.Header, [], got, h, [], h + got);
    Waiting(challenge, h).(reader := r, handshakeIn := U64Of(h), validated := true)
  }

  /** The client has written an empty message and the header of another one. */
  function Hastier(m: Message, next: Message, moved: nat): Endpoint {
    var h := HeaderBytes(m.id, m.size) + HeaderBytes(next.id, next.size);
    Hasty(m, [], HEADER_SIZE).(
      sent := [m, next],
      writer := W.Writer([Buffers(next)], 1, [|h|], false, [Buffers(m)], [], W.Clean, h, moved))
  }

  lemma ServerFooled(challenge: U64, h: seq<byte>)
    requires |h| == HANDSHAKE_SIZE && U64Of(h) == Scramble(challenge)
    ensures Enabled(Waiting(challenge, h), ReadDone)
    ensures Step(Waiting(challenge, h), ReadDone) == Fooled(challenge, h, [])
  {
    hide Scramble, U64Of, U64Bytes;
    assert h + [] == h;
  }

  lemma ClientGoesOn(m: Message, next: Message)
    requires m.body == []
    ensures
      var c1 := Step(Hasty(m, [], HEADER_SIZE), MessageWritten(0));
      var c2 := Step(c1, Send(next));
      && Enabled(Hasty(m, [], HEADER_SIZE), MessageWritten(0))
      && Enabled(c2, RunPosted) && Step(c2, RunPosted) == Hastier(m, next, HEADER_SIZE)
  {
    hide HeaderBytes;
    var c1 := Step(Hasty(m, [], HEADER_SIZE), MessageWritten(0));
    assert c1.writer.queue == [] && c1.writer.done == [Buffers(m)] && c1.writer.ops == [];
    var c2 := Step(c1, Send(next));
    assert c2.posted == [next] && c2.posted[1..] == [] && c2.sent == [m, next];
  }

  lemma ServerReads(challenge: U64, h: seq<byte>, id: u32)
    requires |h| == HANDSHAKE_SIZE
    ensures Enabled(Fooled(challenge, h, HeaderBytes(id, 0)), ReadDone)
    ensures Step(Fooled(challenge, h, HeaderBytes(id, 0)), ReadDone).inbox == [Message(id, 0, [])]
  {
    hide Scramble, U64Of, U64Bytes, HeaderBytes, SizeOf, IdOf;
    HeaderRoundTrip(id, 0);
    var g := HeaderBytes(id, 0);
    assert g[..HEADER_SIZE] == g;
  }

  /** The fooled server, and the client with its second message under way. */
  lemma SecondWritten(challenge: U64, m: Message, next: Message, h: seq<byte>)
    requires m.body == [] && h == HeaderBytes(m.id, m.size) && U64Of(h) == Scramble(challenge)
    ensures Reached(challenge, Net(Fooled(challenge, h, []), Hastier(m, next, HEADER_SIZE), [], []))
  {
    HeaderTaken(challenge, m);
    hide Reached, Scramble, U64Of, U64Bytes, HeaderBytes, Step, Waiting, Fooled, Hasty, Hastier;
    var n0 := Net(Waiting(challenge, h), Hasty(m, [], HEADER_SIZE), [], []);
    ServerFooled(challenge, h);
    Reach(challenge, n0, AtServer(ReadDone));
    ClientGoesOn(m, next);
    var n1 := Net(Fooled(challenge, h, []), n0.client, [], []);
    assert NetStep(n0, AtServer(ReadDone)) == n1;
    assert NetEnabled(n1, AtClient(MessageWritten(0)));
    Reach(challenge, n1, AtClient(MessageWritten(0)));
    var n2 := Net(n1.server, Step(n0.client, MessageWritten(0)), [], []);
    Reach(challenge, n2, AtClient(Send(next)));
    var n3 := Net(n1.server, Step(n2.client, Send(next)), [], []);
    Reach(challenge, n3, AtClient(RunPosted));
  }

  lemma SecondLeaves(m: Message, next: Message)
    ensures
      var c, t := Hastier(m, next, HEADER_SIZE), Hastier(m, next, 2 * HEADER_SIZE);
      && Enabled(c, Transfer(HEADER_SIZE)) && Step(c, Transfer(HEADER_SIZE)) == t
      && Departing(c, Transfer(HEADER_SIZE)) == HeaderBytes(next.id, next.size)
  {
    hide HeaderBytes;
    var h, g := HeaderBytes(m.id, m.size), HeaderBytes(next.id, next.size);
    assert (h + g)[HEADER_SIZE..HEADER_SIZE + HEADER_SIZE] == g;
  }

  lemma SecondArrives(challenge: U64, h: seq<byte>, g: seq<byte>)
    requires |h| == HANDSHAKE_SIZE && |g| == HEADER_SIZE
    ensures Enabled(Fooled(challenge, h, []), Arrive(g))
    ensures Step(Fooled(challenge, h, []), Arrive(g)) == Fooled(challenge, h, g)
  {
    hide U64Of, U64Bytes, Scramble;
    assert [] + g == g && h + [] == h;
  }

  /** From there the second message is delivered. */
  lemma SecondDelivered(challenge: U64, m: Message, next: Message, h: seq<byte>, g: seq<byte>)
    requires |h| == HANDSHAKE_SIZE && g == HeaderBytes(next.id, 0) && next.size == 0
    requires Reached(challenge, Net(Fooled(challenge, h, []), Hastier(m, next, HEADER_SIZE), [], []))
    ensures exists n ::
      && Reached(challenge, n) && n.client == Hastier(m, next, 2 * HEADER_SIZE)
      && n.server.inbox == [Message(next.id, 0, [])]
  {
    hide Reached, HeaderBytes, Step, Fooled, Hastier, Enabled;
    var n0 := Net(Fooled(challenge, h, []), Hastier(m, next, HEADER_SIZE), [], []);
    SecondLeaves(m, next);
    Reach(challenge, n0, AtClient(Transfer(HEADER_SIZE)));
    var n1 := Net(n0.server, Hastier(m, next, 2 * HEADER_SIZE), [], g);
    assert [] + g == g && g[|g|..] == [];
    SecondArrives(challenge, h, g);
    Reach(challenge, n1, AtServer(Arrive(g)));
    var n2 := Net(Fooled(challenge, h, g), n1.client, [], []);
    ServerReads(challenge, h, next.id);
    assert NetStep(n1, AtServer(Arrive(g))) == n2;
    assert NetEnabled(n2, AtServer(ReadDone));
    Reach(challenge, n2, AtServer(ReadDone));
  }

  lemma HastierSpoilt(challenge: U64, m: Message, next: Message)
    requires U64Of(HeaderBytes(m.id, m.size)) == Scramble(challenge)
    ensures Spoilt(challenge, Hastier(m, next, 2 * HEADER_SIZE))
    ensures Hastier(m, next, 2 * HEADER_SIZE).sent == [m, next]
  {
    hide U64Of, HeaderBytes, Scramble;
  }

  /**
    The exception of EndToEnd is real: a challenge and a run on which the server takes the
    header of the client's first message for the answer, and then delivers the second message
    as the first.
   */
  lemma ForgedAnswerMisdelivers()
    ensures exists challenge, n ::
      && Reached(challenge, n) && Spoilt(challenge, n.client) && AllConsistent(n.client.sent)
      && !Delivered(n.server.inbox, n.client.sent)
  {
    var m, next := Message(1, 0, []), Message(2, 0, []);
    var h := HeaderBytes(1, 0);
    var challenge := Unscramble(U64Of(h));
    UnscrambleUndone(U64Of(h));
    hide Reached, Scramble, Unscramble, U64Of, U64Bytes, HeaderBytes, Fooled, Hastier, Spoilt, AllConsistent, Delivered;
    SecondWritten(challenge, m, next, h);
    SecondDelivered(challenge, m, next, h, HeaderBytes(2, 0));
    HastierSpoilt(challenge, m, next);
    Misdelivered(m, next);
  }

  lemma Misdelivered(m: Message, next: Message)
    requires m == Message(1, 0, []) && next == Message(2, 0, [])
    ensures AllConsistent([m, next]) && !Delivered([next], [m, next])
  {
    assert [m, next][..1] == [m];
    assert Views([next])[0] == next;
  }
}
