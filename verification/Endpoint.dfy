/**
  One end of a framed connection, as a machine whose steps are the posted closures and the
  completion handlers of the connection class, and the progress of its socket.

  Each step is what one run of a closure or handler does, up to its return.  The
  application's calls to Send only post a closure.  Any outstanding operation may fail and
  the socket may be closed at any moment.
 */
module Endpoints {
  import opened Bytes
  import opened Framing
  import opened Handshake
  import opened Messages
  import opened Transport
  import W = WritePump
  import R = FrameReader

  datatype Owner = Server | Client

  datatype Endpoint = Endpoint(
    owner: Owner,
    open: bool,
    started: bool,              // ConnectToClient has run, or the connect has succeeded
    handshakeOut: U64,
    handshakeIn: U64,
    handshakeCheck: U64,
    handshakeOp: Option<nat>,   // outstanding handshake write, by its end in the stream
    handshakeBegun: bool,       // the handshake write has been initiated
    posted: seq<Message>,       // closures posted by Send, oldest first
    writer: W.Writer,
    reader: R.Reader,
    inbox: seq<Message>,        // everything enqueued for the application
    sent: seq<Message>,         // everything passed to Send
    validated: bool,            // OnClientValidated has been called
    rejected: bool)             // closed because of a wrong handshake answer

  /** The constructor of connection; challenge is the server's clock reading. */
  function Create(owner: Owner, challenge: U64): Endpoint {
    var out := if owner.Server? then challenge else U64(0);
    var check := if owner.Server? then Scramble(challenge) else U64(0);
    Endpoint(owner, true, false, out, U64(0), check, None, false, [], W.FRESH, R.FRESH, [], [], false, false)
  }

  datatype Event =
    | Start                     // ConnectToClient, or the handler of async_connect
    | Send(m: Message)
    | RunPosted                 // the oldest closure posted by Send
    | Transfer(n: nat)
    | MessageWritten(i: nat)
    | MessageWriteError(i: nat)
    | HandshakeWritten
    | HandshakeWriteError
    | Arrive(chunk: seq<byte>)
    | ReadDone
    | ReadError
    | Close

  /**
    On the server the accept handler runs ConnectToClient, which does nothing if the socket has
    been closed, before any closure posted for the new connection can run; on the client
    nothing orders Send after the handshake.
   */
  predicate Enabled(e: Endpoint, ev: Event) {
    match ev
    case Start => !e.started && e.open && R.Enabled(WIRE_FORMAT, e.reader, R.StartPreamble)
    case Send(_) => true
    case RunPosted => e.posted != [] && (e.owner.Server? ==> e.started || !e.open)
    case Transfer(n) => e.open && e.started && W.Enabled(e.writer, W.Transfer(n))
    case MessageWritten(i) => W.Enabled(e.writer, W.Written(i))
    case MessageWriteError(i) => W.Enabled(e.writer, W.WriteError(i))
    case HandshakeWritten => e.handshakeOp.Some? && e.handshakeOp.value <= e.writer.moved
    case HandshakeWriteError => e.handshakeOp.Some?
    case Arrive(chunk) => e.open && R.Enabled(WIRE_FORMAT, e.reader, R.Arrive(chunk))
    case ReadDone => R.Enabled(WIRE_FORMAT, e.reader, R.Done)
    case ReadError => R.Enabled(WIRE_FORMAT, e.reader, R.ReadError)
    case Close => true
  }

  /** WriteValidation */
  function WriteValidation(e: Endpoint): Endpoint {
    var w := W.Step(e.writer, W.Inject(U64Bytes(e.handshakeOut)));
    e.(writer := w, handshakeOp := Some(|w.submitted|), handshakeBegun := true)
  }

  /** ReadHeader, called where no read is outstanding. */
  function ReadHeader(r: R.Reader): R.Reader {
    if R.Enabled(WIRE_FORMAT, r, R.StartHeader) then R.Step(WIRE_FORMAT, r, R.StartHeader) else r
  }

  /** The handler of ReadValidation on the server, without error. */
  function AnswerRead(e: Endpoint): Endpoint
    requires R.Enabled(WIRE_FORMAT, e.reader, R.Done) && e.reader.phase.Preamble?
  {
    var r := R.Step(WIRE_FORMAT, e.reader, R.Done);
    var answer := U64Of(e.reader.got);
    var right := answer == e.handshakeCheck;
    e.(reader := if right then ReadHeader(r) else r,
       handshakeIn := answer,
       validated := right,
       rejected := !right,
       open := e.open && right)
  }

  /** The handler of ReadValidation on the client, without error. */
  function ChallengeRead(e: Endpoint): Endpoint
    requires R.Enabled(WIRE_FORMAT, e.reader, R.Done) && e.reader.phase.Preamble?
  {
    var challenge := U64Of(e.reader.got);
    WriteValidation(e.(
      reader := R.Step(WIRE_FORMAT, e.reader, R.Done),
      handshakeIn := challenge,
      handshakeOut := Scramble(challenge)))
  }

  /** AddToIncomingMessageQueue, if the reader has completed a frame. */
  function Enqueue(inbox: seq<Message>, before: seq<Frame>, after: seq<Frame>): seq<Message> {
    if |after| > |before|
    then inbox + [Refill(Last(EMPTY_SCRATCH, inbox), DecodeFrame(after[|after| - 1]))]
    else inbox
  }

  /** The handlers of ReadHeader and ReadBody, without error. */
  function MessageRead(e: Endpoint): Endpoint
    requires R.Enabled(WIRE_FORMAT, e.reader, R.Done)
  {
    var r := R.Step(WIRE_FORMAT, e.reader, R.Done);
    e.(reader := r, inbox := Enqueue(e.inbox, e.reader.frames, r.frames))
  }

  function Step(e: Endpoint, ev: Event): Endpoint
    requires Enabled(e, ev)
  {
    match ev
    case Start =>
      var e1 := e.(started := true, reader := R.Step(WIRE_FORMAT, e.reader, R.StartPreamble));
      if e.owner.Server? then WriteValidation(e1) else e1
    case Send(m) => e.(posted := e.posted + [m], sent := e.sent + [m])
    case RunPosted =>
      e.(posted := e.posted[1..], writer := W.Step(e.writer, W.Offer(Buffers(e.posted[0]))))
    case Transfer(n) => e.(writer := W.Step(e.writer, W.Transfer(n)))
    case MessageWritten(i) => e.(writer := W.Step(e.writer, W.Written(i)))
    case MessageWriteError(i) => e.(writer := W.Step(e.writer, W.WriteError(i)), open := false)
    case HandshakeWritten =>
      e.(handshakeOp := None, reader := if e.owner.Client? then ReadHeader(e.reader) else e.reader)
    case HandshakeWriteError => e.(handshakeOp := None, open := false)
    case Arrive(chunk) => e.(reader := R.Step(WIRE_FORMAT, e.reader, R.Arrive(chunk)))
    case ReadDone =>
      if !e.reader.phase.Preamble? then MessageRead(e)
      else if e.owner.Server? then AnswerRead(e) else ChallengeRead(e)
    case ReadError => e.(reader := R.Step(WIRE_FORMAT, e.reader, R.ReadError), open := false)
    case Close => e.(open := false)
  }

  // ---------- Invariant ----------

  /** Messages whose posted closure has run. */
  function Taken(e: Endpoint): seq<Message>
    requires |e.posted| <= |e.sent|
  {
    e.sent[..|e.sent| - |e.posted|]
  }

  ghost predicate WriteSide(e: Endpoint) {
    && W.Inv(e.writer)
    && |e.posted| <= |e.sent|
    && e.posted == e.sent[|e.sent| - |e.posted|..]
    && W.Accepted(e.writer) == Jobs(Taken(e))
    && (e.handshakeOp.Some? ==> e.handshakeBegun && e.handshakeOp.value <= |e.writer.submitted|)
    && (!e.started ==> e.writer.moved == 0)
  }

  ghost predicate ReadSide(e: Endpoint) {
    && R.Inv(WIRE_FORMAT, e.reader)
    && e.inbox == Received(EMPTY_SCRATCH, Decoded(e.reader.frames))
    && (!e.started ==> e.reader == R.FRESH)
    && (R.Listening(e.reader) ==> |e.reader.preamble| == HANDSHAKE_SIZE)
  }

  /** The challenge leads the server's stream; nothing is read as a message before the right answer. */
  ghost predicate ServerSide(e: Endpoint) {
    && e.handshakeCheck == Scramble(e.handshakeOut)
    && e.handshakeBegun == e.started
    && !e.writer.Mixed()
    && e.writer.prefix == (if e.started then U64Bytes(e.handshakeOut) else [])
    && (!e.started && e.open ==> W.Accepted(e.writer) == [])
    && (R.Listening(e.reader) ==> e.validated)
    && (e.validated ==> |e.reader.preamble| == HANDSHAKE_SIZE && U64Of(e.reader.preamble) == e.handshakeCheck)
    && (e.rejected ==> |e.reader.preamble| == HANDSHAKE_SIZE && U64Of(e.reader.preamble) != e.handshakeCheck)
    && (|e.reader.preamble| == HANDSHAKE_SIZE ==> e.validated || e.rejected)
  }

  /** The client answers what it was asked, and reads messages only after answering. */
  ghost predicate ClientSide(e: Endpoint) {
    && (e.handshakeBegun ==>
          && |e.reader.preamble| == HANDSHAKE_SIZE
          && e.handshakeIn == U64Of(e.reader.preamble)
          && e.handshakeOut == Scramble(e.handshakeIn))
    && (|e.reader.preamble| == HANDSHAKE_SIZE ==> e.handshakeBegun)
    && (!e.handshakeBegun ==> !R.Listening(e.reader) && !e.writer.Mixed())
    && (e.writer.Mixed() ==> e.writer.mix.Cut? && e.writer.mix.word == U64Bytes(e.handshakeOut))
    && e.writer.prefix == (if e.handshakeBegun && !e.writer.Mixed() then U64Bytes(e.handshakeOut) else [])
    && (e.handshakeOp.Some? ==> e.reader.phase.Idle? && e.reader.header == e.reader.got == [] && e.reader.frames == [])
    && !e.validated && !e.rejected
  }

  /** While the socket is open no write has failed, and a read is outstanding once there can be one. */
  ghost predicate Alive(e: Endpoint) {
    e.open ==>
      && !e.writer.failed
      && (e.started && e.reader.phase.Idle? ==> e.owner.Client? && e.handshakeOp.Some?)
  }

  ghost predicate Inv(e: Endpoint) {
    && WriteSide(e)
    && ReadSide(e)
    && Alive(e)
    && (if e.owner.Server? then ServerSide(e) else ClientSide(e))
  }

  lemma CreateInv(owner: Owner, challenge: U64)
    ensures Inv(Create(owner, challenge))
  {
    W.FreshInv();
    assert W.Accepted(W.FRESH) == [];
    R.FreshInv(WIRE_FORMAT);
  }

  // ---------- One step ----------

  lemma JobsSnoc(e: Endpoint)
    requires |e.posted| <= |e.sent| && e.posted != []
    requires e.posted == e.sent[|e.sent| - |e.posted|..]
    ensures Jobs(Taken(e.(posted := e.posted[1..]))) == Jobs(Taken(e)) + [Buffers(e.posted[0])]
  {
    var k := |e.sent| - |e.posted|;
    assert e.sent[..k + 1] == e.sent[..k] + [e.sent[k]];
    assert e.sent[k] == e.posted[0];
  }

  /** Progress of the pump, which no part of the read side or the handshake looks at. */
  lemma PumpProgress(e: Endpoint, w: W.Writer, posted: seq<Message>, sent: seq<Message>, open: bool)
    requires Inv(e)
    requires |posted| <= |sent| && posted == sent[|sent| - |posted|..]
    requires W.Inv(w) && W.Accepted(w) == Jobs(sent[..|sent| - |posted|])
    requires w.mix == e.writer.mix && w.prefix == e.writer.prefix
    requires e.writer.submitted <= w.submitted
    requires e.owner.Server? && !e.started && open ==> W.Accepted(w) == []
    requires !e.started ==> w.moved == 0
    requires open ==> e.open && !w.failed
    ensures Inv(e.(writer := w, posted := posted, sent := sent, open := open))
  {
    hide W.Inv, W.Accepted, R.Inv, R.Listening, Jobs, Received, Decoded, Scramble, U64Of, U64Bytes;
  }

  /** What PumpProgress asks of the pump. */
  lemma PumpFacts(e: Endpoint)
    requires Inv(e)
    ensures |e.posted| <= |e.sent| && e.posted == e.sent[|e.sent| - |e.posted|..]
    ensures W.Inv(e.writer) && W.Accepted(e.writer) == Jobs(Taken(e))
    ensures e.owner.Server? && !e.started && e.open ==> W.Accepted(e.writer) == []
    ensures !e.started ==> e.writer.moved == 0
    ensures e.open ==> !e.writer.failed
  {
    hide W.Inv, W.Accepted, R.Inv, Jobs;
  }

  lemma SendKeepsInv(e: Endpoint, m: Message)
    requires Inv(e)
    ensures Inv(Step(e, Send(m)))
  {
    hide Inv, Jobs, W.Inv, W.Accepted;
    PumpFacts(e);
    var sent, posted := e.sent + [m], e.posted + [m];
    assert sent[..|sent| - |posted|] == Taken(e);
    PumpProgress(e, e.writer, posted, sent, e.open);
  }

  lemma RunPostedKeepsInv(e: Endpoint)
    requires Inv(e) && Enabled(e, RunPosted)
    ensures Inv(Step(e, RunPosted))
  {
    hide W.Inv, W.Step, R.Inv, ReadSide, ClientSide, Jobs;
    JobsSnoc(e);
    W.StepKeepsInv(e.writer, W.Offer(Buffers(e.posted[0])));
    var w := W.Step(e.writer, W.Offer(Buffers(e.posted[0])));
    assert e.sent[..|e.sent| - |e.posted[1..]|] == Taken(e.(posted := e.posted[1..]));
    PumpProgress(e, w, e.posted[1..], e.sent, e.open);
  }

  lemma WriterStepKeepsInv(e: Endpoint, we: W.Event, open: bool)
    requires Inv(e) && W.Enabled(e.writer, we) && !we.Offer? && !we.Inject?
    requires open ==> e.open && !we.WriteError?
    requires we.Transfer? ==> e.started
    ensures Inv(e.(writer := W.Step(e.writer, we), open := open))
  {
    hide W.Inv, W.Step;
    W.StepKeepsInv(e.writer, we);
    var w := W.Step(e.writer, we);
    assert W.Accepted(w) == W.Accepted(e.writer);
    PumpProgress(e, w, e.posted, e.sent, open);
  }

  /** Progress of the read loop, which no part of the write side looks at. */
  lemma WriteSideIgnoresReader(e: Endpoint, t: Endpoint)
    requires WriteSide(e)
    requires t.writer == e.writer && t.posted == e.posted && t.sent == e.sent
    requires e.started ==> t.started
    requires t.handshakeBegun == e.handshakeBegun && (t.handshakeOp == None || t.handshakeOp == e.handshakeOp)
    ensures WriteSide(t)
  {
    hide W.Inv, W.Accepted, Jobs;
    assert Taken(t) == Taken(e);
  }

  lemma ReadHeaderEffect(r: R.Reader)
    requires R.Inv(WIRE_FORMAT, r) && |r.preamble| == HANDSHAKE_SIZE
    ensures var t := ReadHeader(r);
            && R.Inv(WIRE_FORMAT, t)
            && t.frames == r.frames && t.preamble == r.preamble && !t.phase.Preamble? == !r.phase.Preamble?
            && (t.phase.Idle? ==> t == r)
            && (r.phase.Idle? && r.header == r.got == [] && r.frames == [] ==> t.phase.Header?)
  {
    hide R.Inv, R.Step;
    if R.Enabled(WIRE_FORMAT, r, R.StartHeader) {
      R.StepKeepsInv(WIRE_FORMAT, r, R.StartHeader);
      R.StepEffect(WIRE_FORMAT, r, R.StartHeader);
    }
  }

  lemma WriteValidationKeepsInv(e: Endpoint)
    requires WriteSide(e)
    ensures WriteSide(WriteValidation(e))
    ensures WriteValidation(e).writer.failed == e.writer.failed
    ensures W.Accepted(WriteValidation(e).writer) == W.Accepted(e.writer)
    ensures WriteValidation(e).writer.mix
         == if W.Accepted(e.writer) != [] then W.Cutting(e.writer, U64Bytes(e.handshakeOut)) else e.writer.mix
    ensures WriteValidation(e).writer.prefix
         == if W.Accepted(e.writer) == [] then e.writer.prefix + U64Bytes(e.handshakeOut) else e.writer.prefix
  {
    hide W.Inv, W.Step, U64Bytes;
    W.StepKeepsInv(e.writer, W.Inject(U64Bytes(e.handshakeOut)));
    assert Taken(WriteValidation(e)) == Taken(e);
  }

  lemma StartKeepsInv(e: Endpoint)
    requires Inv(e) && Enabled(e, Start)
    ensures Inv(Step(e, Start))
  {
    hide W.Inv, W.Step, R.Inv;
    var e1 := e.(started := true, reader := R.Step(WIRE_FORMAT, e.reader, R.StartPreamble));
    R.StepKeepsInv(WIRE_FORMAT, e.reader, R.StartPreamble);
    WriteSideIgnoresReader(e, e1);
    if e.owner.Server? {
      WriteValidationKeepsInv(e1);
      assert e.writer.prefix + U64Bytes(e.handshakeOut) == U64Bytes(e.handshakeOut);
    }
  }

  lemma AnswerReadKeepsInv(e: Endpoint)
    requires R.Enabled(WIRE_FORMAT, e.reader, R.Done) && e.reader.phase.Preamble? && Inv(e) && e.owner.Server?
    ensures Inv(AnswerRead(e))
  {
    hide W.Inv, R.Inv, R.Step, WriteSide, ReadHeader, Received, Decoded, U64Of, U64Bytes, Scramble;
    R.StepKeepsInv(WIRE_FORMAT, e.reader, R.Done);
    R.StepEffect(WIRE_FORMAT, e.reader, R.Done);
    R.PreambleFirst(WIRE_FORMAT, e.reader);
    ReadHeaderEffect(R.Step(WIRE_FORMAT, e.reader, R.Done));
    WriteSideIgnoresReader(e, AnswerRead(e));
  }

  lemma ChallengeReadKeepsInv(e: Endpoint)
    requires R.Enabled(WIRE_FORMAT, e.reader, R.Done) && e.reader.phase.Preamble? && Inv(e) && e.owner.Client?
    ensures Inv(ChallengeRead(e))
  {
    hide W.Inv, W.Step, R.Inv, R.Step, WriteSide, ServerSide, Received, Decoded, U64Of, U64Bytes, Scramble;
    R.StepKeepsInv(WIRE_FORMAT, e.reader, R.Done);
    R.StepEffect(WIRE_FORMAT, e.reader, R.Done);
    R.PreambleFirst(WIRE_FORMAT, e.reader);
    var v := U64Of(e.reader.got);
    var e1 := e.(reader := R.Step(WIRE_FORMAT, e.reader, R.Done), handshakeIn := v, handshakeOut := Scramble(v));
    WriteSideIgnoresReader(e, e1);
    WriteValidationKeepsInv(e1);
    assert [] + U64Bytes(e1.handshakeOut) == U64Bytes(e1.handshakeOut);
  }

  /** The framed transport refuses no header, so the read loop goes on. */
  lemma NeverRefuses(r: R.Reader)
    requires R.Enabled(WIRE_FORMAT, r, R.Done) && !r.phase.Preamble?
    ensures !R.Step(WIRE_FORMAT, r, R.Done).phase.Idle?
  {
  }

  lemma MessageReadKeepsInv(e: Endpoint)
    requires R.Enabled(WIRE_FORMAT, e.reader, R.Done) && !e.reader.phase.Preamble? && Inv(e)
    ensures Inv(MessageRead(e))
  {
    hide W.Inv, R.Inv, R.Step, WriteSide, Received, DecodeFrame, Refill, U64Of, U64Bytes, Scramble;
    R.StepKeepsInv(WIRE_FORMAT, e.reader, R.Done);
    R.StepEffect(WIRE_FORMAT, e.reader, R.Done);
    NeverRefuses(e.reader);
    var r := R.Step(WIRE_FORMAT, e.reader, R.Done);
    WriteSideIgnoresReader(e, MessageRead(e));
    if |r.frames| > |e.reader.frames| {
      var m := DecodeFrame(r.frames[|r.frames| - 1]);
      assert Decoded(r.frames) == Decoded(e.reader.frames) + [m];
      ReceivedSnoc(EMPTY_SCRATCH, Decoded(e.reader.frames), m);
    } else {
      assert r.frames == e.reader.frames;
    }
  }

  lemma HandshakeWrittenKeepsInv(e: Endpoint)
    requires Inv(e) && Enabled(e, HandshakeWritten)
    ensures Inv(Step(e, HandshakeWritten))
  {
    hide W.Inv, R.Inv, R.Step, WriteSide, ReadHeader, Received, Decoded, U64Of, U64Bytes, Scramble;
    WriteSideIgnoresReader(e, Step(e, HandshakeWritten));
    if e.owner.Client? {
      HandshakeOpBegun(e);
      ReadHeaderEffect(e.reader);
    }
  }

  lemma HandshakeOpBegun(e: Endpoint)
    requires WriteSide(e) && e.handshakeOp.Some?
    ensures e.handshakeBegun
  {
  }

  lemma StepKeepsInv(e: Endpoint, ev: Event)
    requires Inv(e) && Enabled(e, ev)
    ensures Inv(Step(e, ev))
  {
    hide Inv;
    match ev
    case Start => StartKeepsInv(e);
    case Send(m) => SendKeepsInv(e, m);
    case RunPosted => RunPostedKeepsInv(e);
    case Transfer(n) => WriterStepKeepsInv(e, W.Transfer(n), e.open);
    case MessageWritten(i) => WriterStepKeepsInv(e, W.Written(i), e.open);
    case MessageWriteError(i) => WriterStepKeepsInv(e, W.WriteError(i), false);
    case HandshakeWritten => HandshakeWrittenKeepsInv(e);
    case Arrive(chunk) => ReadProgressKeepsInv(e, R.Arrive(chunk), e.open);
    case ReadError => ReadProgressKeepsInv(e, R.ReadError, false);
    case ReadDone =>
      if !e.reader.phase.Preamble? { MessageReadKeepsInv(e); }
      else if e.owner.Server? { AnswerReadKeepsInv(e); }
      else { ChallengeReadKeepsInv(e); }
    case HandshakeWriteError => ClosingKeepsInv(e, None);
    case Close => ClosingKeepsInv(e, e.handshakeOp);
  }

  lemma ClosingKeepsInv(e: Endpoint, op: Option<nat>)
    requires Inv(e) && (op == None || op == e.handshakeOp)
    ensures Inv(e.(handshakeOp := op, open := false))
  {
    hide W.Inv, R.Inv, WriteSide, Received, Decoded, U64Of, U64Bytes, Scramble;
    WriteSideIgnoresReader(e, e.(handshakeOp := op, open := false));
  }

  lemma ReadProgressKeepsInv(e: Endpoint, re: R.Event, open: bool)
    requires Inv(e) && R.Enabled(WIRE_FORMAT, e.reader, re) && (re.Arrive? || re.ReadError?)
    requires open ==> e.open && re.Arrive?
    ensures Inv(e.(reader := R.Step(WIRE_FORMAT, e.reader, re), open := open))
  {
    hide W.Inv, R.Inv, R.Step, WriteSide, Received, Decoded, U64Of, U64Bytes, Scramble;
    R.StepKeepsInv(WIRE_FORMAT, e.reader, re);
    R.StepEffect(WIRE_FORMAT, e.reader, re);
    WriteSideIgnoresReader(e, e.(reader := R.Step(WIRE_FORMAT, e.reader, re), open := open));
  }

  // ---------- Streams and runs ----------

  /** The bytes that leave the host in one step, and those that arrive. */
  function Departing(e: Endpoint, ev: Event): seq<byte>
    requires Enabled(e, ev)
  {
    if ev.Transfer? then e.writer.submitted[e.writer.moved..e.writer.moved + ev.n] else []
  }

  function Arriving(ev: Event): seq<byte> {
    if ev.Arrive? then ev.chunk else []
  }

  /** The pump's part in a step of the endpoint: every endpoint step is at most one pump step. */
  function PumpEvent(e: Endpoint, ev: Event): Option<W.Event>
    requires Enabled(e, ev)
  {
    match ev
    case Start => if e.owner.Server? then Some(W.Inject(U64Bytes(e.handshakeOut))) else None
    case RunPosted => Some(W.Offer(Buffers(e.posted[0])))
    case Transfer(n) => Some(W.Transfer(n))
    case MessageWritten(i) => Some(W.Written(i))
    case MessageWriteError(i) => Some(W.WriteError(i))
    case ReadDone =>
      if e.reader.phase.Preamble? && e.owner.Client?
      then Some(W.Inject(U64Bytes(Scramble(U64Of(e.reader.got))))) else None
    case _ => None
  }

  lemma EndpointIsPump(e: Endpoint, ev: Event)
    requires Enabled(e, ev)
    ensures var we := PumpEvent(e, ev);
            if we.None? then Step(e, ev).writer == e.writer
            else W.Enabled(e.writer, we.value) && Step(e, ev).writer == W.Step(e.writer, we.value)
  {
    hide W.Step, R.Step, W.Inv, R.Inv, ReadHeader, Enqueue, U64Of, U64Bytes, Scramble;
  }

  lemma PumpStreams(w: W.Writer, we: W.Event)
    requires W.Inv(w) && W.Enabled(w, we)
    ensures var t := W.Step(w, we);
            && w.moved <= |w.submitted| && t.moved <= |t.submitted|
            && W.Produced(t) == W.Produced(w) + (if we.Transfer? then w.submitted[w.moved..w.moved + we.n] else [])
  {
    hide W.Inv, W.Step;
    MovedWithinSubmitted(w);
    W.StepKeepsInv(w, we);
    MovedWithinSubmitted(W.Step(w, we));
    if we.Transfer? { TransferredBytes(w, we.n); }
  }

  /** Only Transfer moves bytes out, in the order submitted. */
  lemma WriterStreams(e: Endpoint, ev: Event)
    requires W.Inv(e.writer) && Enabled(e, ev)
    ensures var t := Step(e, ev);
            && e.writer.moved <= |e.writer.submitted| && t.writer.moved <= |t.writer.submitted|
            && W.Produced(t.writer) == W.Produced(e.writer) + Departing(e, ev)
  {
    hide W.Inv, W.Step, Step;
    MovedWithinSubmitted(e.writer);
    EndpointIsPump(e, ev);
    var we := PumpEvent(e, ev);
    if we.Some? {
      PumpStreams(e.writer, we.value);
    }
  }

  /** The read loop's part in a step of the endpoint. */
  lemma ReaderShape(e: Endpoint, ev: Event)
    requires Enabled(e, ev)
    ensures
      var t := Step(e, ev);
      match ev
      case Start => R.Enabled(WIRE_FORMAT, e.reader, R.StartPreamble)
                    && t.reader == R.Step(WIRE_FORMAT, e.reader, R.StartPreamble)
      case Arrive(chunk) => R.Enabled(WIRE_FORMAT, e.reader, R.Arrive(chunk))
                            && t.reader == R.Step(WIRE_FORMAT, e.reader, R.Arrive(chunk))
      case ReadError => R.Enabled(WIRE_FORMAT, e.reader, R.ReadError)
                        && t.reader == R.Step(WIRE_FORMAT, e.reader, R.ReadError)
      case ReadDone =>
        && R.Enabled(WIRE_FORMAT, e.reader, R.Done)
        && var r := R.Step(WIRE_FORMAT, e.reader, R.Done);
           t.reader == r || t.reader == ReadHeader(r)
      case _ => t.reader == e.reader || t.reader == ReadHeader(e.reader)
  {
    hide W.Step, W.Enabled, R.Step, R.Enabled, ReadHeader, Enqueue, U64Of, U64Bytes, Scramble;
  }

  /** Only Arrive takes bytes in. */
  lemma ReaderStreams(e: Endpoint, ev: Event)
    requires Enabled(e, ev)
    ensures Step(e, ev).reader.consumed == e.reader.consumed + Arriving(ev)
  {
    hide Step, Enabled, R.Step, R.Enabled, ReadHeader;
    ReaderShape(e, ev);
    assert e.reader.consumed + [] == e.reader.consumed;
    match ev
    case Start => R.StepEffect(WIRE_FORMAT, e.reader, R.StartPreamble);
    case Arrive(chunk) => R.StepEffect(WIRE_FORMAT, e.reader, R.Arrive(chunk));
    case ReadError => R.StepEffect(WIRE_FORMAT, e.reader, R.ReadError);
    case ReadDone =>
      R.StepEffect(WIRE_FORMAT, e.reader, R.Done);
      ReadHeaderStreams(R.Step(WIRE_FORMAT, e.reader, R.Done));
    case _ => ReadHeaderStreams(e.reader);
  }

  /** A complete read of the handshake word by a server, which is not the answer. */
  predicate WrongAnswer(e: Endpoint, ev: Event)
    requires Enabled(e, ev)
  {
    ev.ReadDone? && e.reader.phase.Preamble? && e.owner.Server? && U64Of(e.reader.got) != e.handshakeCheck
  }

  /**
    A connection is closed by Disconnect, by any operation that fails and by a wrong answer, and
    by nothing else.
   */
  lemma ClosedBy(e: Endpoint, ev: Event)
    requires Enabled(e, ev)
    ensures
      var closes :=
        ev.Close? || ev.MessageWriteError? || ev.HandshakeWriteError? || ev.ReadError? || WrongAnswer(e, ev);
      Step(e, ev).open <==> e.open && !closes
  {
    hide W.Step, W.Enabled, R.Step, R.Enabled, ReadHeader, U64Of, U64Bytes;
    hide MessageRead, AnswerRead, ChallengeRead;
    match ev
    case Start =>
    case ReadDone => ReadLeavesOpen(e);
    case _ =>
  }

  lemma ReadLeavesOpen(e: Endpoint)
    requires R.Enabled(WIRE_FORMAT, e.reader, R.Done)
    ensures MessageRead(e).open == e.open
    ensures e.reader.phase.Preamble? ==>
              && ChallengeRead(e).open == e.open
              && AnswerRead(e).open == (e.open && U64Of(e.reader.got) == e.handshakeCheck)
  {
    hide W.Step, R.Step, ReadHeader, Enqueue, U64Of, U64Bytes, Scramble;
  }

  /** Once its handshake word is written a client reads its first header; a server writes and goes on reading. */
  lemma WrittenListens(e: Endpoint)
    requires Inv(e) && Enabled(e, HandshakeWritten)
    ensures
      var t := Step(e, HandshakeWritten);
      && t.handshakeOp.None?
      && t.reader.phase == if e.owner.Client? then R.Header else e.reader.phase
  {
    hide W.Inv, R.Inv, W.Accepted, U64Of, U64Bytes, Scramble, Received, Decoded;
  }

  /** Roles, challenge and closing are for ever, and Send is the only source of messages. */
  lemma Steady(e: Endpoint, ev: Event)
    requires Enabled(e, ev)
    ensures Step(e, ev).owner == e.owner
    ensures e.owner.Server? ==> Step(e, ev).handshakeOut == e.handshakeOut
    ensures Step(e, ev).sent == if ev.Send? then e.sent + [ev.m] else e.sent
    ensures !e.open ==> !Step(e, ev).open && !ev.Transfer? && !ev.Arrive?
  {
    hide W.Step, W.Enabled, R.Step, R.Enabled, ReadHeader, Enqueue, U64Of, U64Bytes, Scramble;
    match ev
    case Start =>
    case Send(m) =>
    case ReadDone =>
    case HandshakeWritten =>
    case _ =>
  }

  lemma ReadHeaderStreams(r: R.Reader)
    ensures ReadHeader(r).consumed == r.consumed
  {
  }

  lemma MovedWithinSubmitted(w: W.Writer)
    requires W.Inv(w)
    ensures w.moved <= |w.submitted|
  {
  }

  lemma TransferredBytes(w: W.Writer, n: nat)
    requires W.Enabled(w, W.Transfer(n))
    ensures W.Produced(W.Step(w, W.Transfer(n))) == W.Produced(w) + w.submitted[w.moved..w.moved + n]
  {
  }

  ghost predicate Run(e: Endpoint, es: seq<Event>, t: Endpoint)
    decreases |es|
  {
    if es == [] then t == e else Enabled(e, es[0]) && Run(Step(e, es[0]), es[1..], t)
  }

  lemma {:induction false} RunFrom(e: Endpoint, es: seq<Event>, t: Endpoint)
    requires Inv(e) && Run(e, es, t)
    ensures Inv(t) && t.owner == e.owner
    ensures e.owner.Server? ==> t.handshakeOut == e.handshakeOut
    decreases |es|
  {
    hide Inv, Step;
    if es == [] {
    } else {
      StepKeepsInv(e, es[0]);
      Steady(e, es[0]);
      RunFrom(Step(e, es[0]), es[1..], t);
    }
  }

  /**
    Whatever bytes the peer sends, a server validates a connection, and enqueues any message
    from it, only after the first eight bytes received were the scrambled challenge; and the
    challenge precedes every message byte it puts on the wire.
   */
  lemma ServerGate(challenge: U64, es: seq<Event>, t: Endpoint)
    requires Run(Create(Server, challenge), es, t)
    ensures t.inbox != [] ==> t.validated
    ensures t.validated ==>
              && |t.reader.consumed| >= HANDSHAKE_SIZE
              && U64Of(t.reader.consumed[..HANDSHAKE_SIZE]) == Scramble(challenge)
    ensures |t.posted| <= |t.sent| && t.writer.moved <= |t.writer.submitted|
    ensures W.Produced(t.writer) <= U64Bytes(challenge) + Concat(FramesOf(Taken(t)))
  {
    CreateInv(Server, challenge);
    RunFrom(Create(Server, challenge), es, t);
    ServerGateInv(t);
  }

  lemma ServerGateInv(t: Endpoint)
    requires Inv(t) && t.owner.Server?
    ensures t.inbox != [] ==> t.validated
    ensures t.validated ==>
              && |t.reader.consumed| >= HANDSHAKE_SIZE
              && t.reader.consumed[..HANDSHAKE_SIZE] == t.reader.preamble
              && U64Of(t.reader.consumed[..HANDSHAKE_SIZE]) == Scramble(t.handshakeOut)
    ensures t.writer.moved <= |t.writer.submitted|
    ensures W.Produced(t.writer) <= U64Bytes(t.handshakeOut) + Concat(FramesOf(Taken(t)))
  {
    hide U64Of, U64Bytes, Scramble, W.Inv, R.Inv, W.Accepted, W.Produced, Jobs, FramesOf;
    MovedWithinSubmitted(t.writer);
    StreamLed(t);
    ConsumedLed(t.reader);
  }

  lemma ConsumedLed(r: R.Reader)
    requires R.Inv(WIRE_FORMAT, r)
    ensures r.preamble <= r.consumed
  {
    assert r.consumed == r.preamble + (Concat(r.frames) + r.header + r.got);
  }

  /** What a server has put on the wire begins with its challenge and goes on with its messages. */
  lemma StreamLed(t: Endpoint)
    requires Inv(t) && t.owner.Server?
    ensures t.writer.moved <= |t.writer.submitted|
    ensures W.Produced(t.writer) <= U64Bytes(t.handshakeOut) + Concat(FramesOf(Taken(t)))
  {
    hide U64Of, U64Bytes, Scramble, W.Inv, R.Inv, W.Accepted, Jobs, FramesOf, ReadSide;
    MovedWithinSubmitted(t.writer);
    if t.started {
      W.ProducedIsPrefix(t.writer);
      JobsAreFrames(Taken(t));
    } else {
      assert W.Produced(t.writer) == [];
    }
  }

  /**
    A closed connection puts nothing more on the wire and takes nothing more from it.  That a
    closed socket moves no bytes is what Enabled says of the environment; what is proved is that
    no handler ever opens a socket again, and that nothing else moves a byte.
   */
  lemma {:induction false} ClosedIsSilent(e: Endpoint, es: seq<Event>, t: Endpoint)
    requires Inv(e) && !e.open && Run(e, es, t)
    ensures e.writer.moved <= |e.writer.submitted| && t.writer.moved <= |t.writer.submitted|
    ensures !t.open && W.Produced(t.writer) == W.Produced(e.writer) && t.reader.consumed == e.reader.consumed
    decreases |es|
  {
    hide Inv, Step, W.Inv;
    WriterInv(e);
    MovedWithinSubmitted(e.writer);
    if es != [] {
      StepKeepsInv(e, es[0]);
      WriterInv(e);
      WriterStreams(e, es[0]);
      ReaderStreams(e, es[0]);
      Steady(e, es[0]);
      ClosedIsSilent(Step(e, es[0]), es[1..], t);
    }
  }

  lemma WriterInv(e: Endpoint)
    requires Inv(e)
    ensures W.Inv(e.writer)
  {
    hide W.Inv;
  }
}
