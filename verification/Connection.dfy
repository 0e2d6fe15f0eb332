/**
  The connection object, changed in place by its posted closures and completion handlers.
  Every method that the event loop calls is one step of the endpoint machine, whose state is
  kept in the ghost field `model`.

  The socket is part of the object: the bytes handed to it, how many of them have left, the
  outstanding writes, and the buffer of the outstanding read.
 */
module ConnectionObjects {
  import opened Bytes
  import opened Framing
  import opened Handshake
  import opened Messages
  import opened Transport
  import opened Endpoints
  import W = WritePump
  import R = FrameReader

  /** An outstanding WriteHeader or WriteBody operation and where its bytes end. */
  datatype MessageOp = MessageOp(body: bool, end: nat)

  function Ends(ops: seq<MessageOp>): (ends: seq<nat>)
    ensures |ends| == |ops|
  {
    seq(|ops|, i requires 0 <= i < |ops| => ops[i].end)
  }

  /** The handshake word in a full buffer. */
  function U64Word(got: seq<byte>): Option<U64> {
    if |got| == HANDSHAKE_SIZE then Some(U64Of(got)) else None
  }

  /** vector::resize */
  function Resized(body: seq<byte>, n: nat): (r: seq<byte>)
    ensures |r| == n
  {
    if n <= |body| then body[..n] else body + seq(n - |body|, _ => 0)
  }

  /**
    The queue, socket and outstanding writes are those of the model, and the kind of the
    outstanding write says how much of the front message has been begun.
   */
  ghost predicate WriteMatches(
    w: W.Writer, out: seq<Message>, submitted: seq<byte>, moved: nat, ops: seq<MessageOp>)
  {
    && w.queue == Jobs(out)
    && w.submitted == submitted
    && w.moved == moved
    && w.ops == Ends(ops)
    && (forall op | op in ops ::
          && out != []
          && w.next == (if op.body then 2 else 1)
          && (op.body ==> out[0].body != []))
  }

  ghost predicate ReadMatches(r: R.Reader, phase: R.Phase, got: seq<byte>) {
    r.phase == phase && r.got == got
  }

  /** Between messages the scratch body is that of the last message enqueued. */
  ghost predicate ScratchMatches(r: R.Reader, inbox: seq<Message>, scratch: Message) {
    if r.phase.Body? then
      |r.header| == HEADER_SIZE && scratch.id == IdOf(r.header) && scratch.size == SizeOf(r.header) > 0
    else
      r.phase.Header? || (r.header == [] && r.frames == []) ==> scratch.body == Last(EMPTY_SCRATCH, inbox).body
  }

  /** The part of an endpoint that is neither its pump, its read loop nor its inbox. */
  ghost predicate RestMatches(
    e: Endpoint, open: bool, started: bool, handshakeOut: U64, handshakeIn: U64, handshakeCheck: U64,
    handshakeOp: Option<nat>, posted: seq<Message>)
  {
    && e.open == open && e.started == started
    && e.handshakeOut == handshakeOut
    && e.handshakeIn == handshakeIn
    && e.handshakeCheck == handshakeCheck
    && e.handshakeOp == handshakeOp
    && e.posted == posted
  }

  class Connection {
    const owner: Owner
    var id: u32
    var open: bool
    var started: bool
    var handshakeOut: U64
    var handshakeIn: U64
    var handshakeCheck: U64

    var posted: seq<Message>
    var messagesOut: seq<Message>
    var submitted: seq<byte>
    var moved: nat
    var messageOps: seq<MessageOp>
    var handshakeOp: Option<nat>

    var readPhase: R.Phase
    var got: seq<byte>
    var temporaryIn: Message
    var messagesIn: seq<Message>

    ghost var model: Endpoint

    ghost predicate Valid()
      reads this
    {
      && Inv(model)
      && RestMatches(model, open, started, handshakeOut, handshakeIn, handshakeCheck, handshakeOp, posted)
      && model.owner == owner
      && WriteMatches(model.writer, messagesOut, submitted, moved, messageOps)
      && ReadMatches(model.reader, readPhase, got)
      && ScratchMatches(model.reader, model.inbox, temporaryIn)
      && model.inbox == messagesIn
    }

    constructor (owner: Owner, clock: U64)
      ensures Valid() && model == Create(owner, clock) && id == 0
    {
      this.owner := owner;
      id := 0;
      open, started := true, false;
      handshakeIn := U64(0);
      if owner == Server {
        handshakeOut := clock;
        handshakeCheck := Scramble(clock);
      } else {
        handshakeOut, handshakeCheck := U64(0), U64(0);
      }
      posted, messagesOut, submitted, moved, messageOps, handshakeOp := [], [], [], 0, [], None;
      readPhase, got, temporaryIn, messagesIn := R.Idle, [], EMPTY_SCRATCH, [];
      model := Create(owner, clock);
      new;
      CreateInv(owner, clock);
      assert Jobs([]) == [] && Ends([]) == [];
    }

    predicate IsConnected()
      reads this
    {
      open
    }

    // ---------- Sending ----------

    /** Send posts a closure and returns. */
    method Send(m: Message)
      requires Valid()
      modifies `posted, `model
      ensures Valid() && model == Step(old(model), Endpoints.Send(m))
    {
      hide Inv, WriteMatches, ReadMatches, ScratchMatches;
      StepKeepsInv(model, Endpoints.Send(m));
      model := Step(model, Endpoints.Send(m));
      posted := posted + [m];
    }

    method WriteHeader()
      requires messagesOut != []
      modifies `submitted, `messageOps
      ensures submitted == old(submitted) + Buffers(messagesOut[0])[0]
      ensures messageOps == old(messageOps) + [MessageOp(false, |submitted|)]
    {
      var front := messagesOut[0];
      submitted := submitted + HeaderBytes(front.id, front.size);
      messageOps := messageOps + [MessageOp(false, |submitted|)];
    }

    method WriteBody()
      requires messagesOut != [] && messagesOut[0].body != []
      modifies `submitted, `messageOps
      ensures submitted == old(submitted) + Buffers(messagesOut[0])[1]
      ensures messageOps == old(messageOps) + [MessageOp(true, |submitted|)]
    {
      submitted := submitted + messagesOut[0].body;
      messageOps := messageOps + [MessageOp(true, |submitted|)];
    }

    /** The closure posted by Send. */
    method RunPosted()
      requires Valid() && Enabled(model, Endpoints.RunPosted)
      modifies this
      ensures id == old(id)
      ensures Valid() && model == Step(old(model), Endpoints.RunPosted)
    {
      hide Inv, Step, Enabled, W.Step, RestMatches, WriteMatches, ReadMatches, ScratchMatches, Buffers;
      RunPostedShape();
      var m := posted[0];
      OfferMatches(model, messagesOut, submitted, moved, messageOps, m);
      model := Step(model, Endpoints.RunPosted);
      posted := posted[1..];
      var writingMessage := messagesOut != [];
      messagesOut := messagesOut + [m];
      if !writingMessage {
        WriteHeader();
      }
    }

    /** The event loop forgets an operation when it calls its handler. */
    method RemoveOp(i: nat)
      requires i < |messageOps|
      modifies `messageOps
      ensures messageOps == old(messageOps[..i] + messageOps[i + 1..])
    {
      messageOps := messageOps[..i] + messageOps[i + 1..];
    }

    /** The front message is on its way: pop it and start on the next, if any. */
    method PopAndContinue()
      requires messagesOut != []
      modifies `messagesOut, `submitted, `messageOps
      ensures messagesOut == old(messagesOut)[1..]
      ensures if messagesOut == [] then submitted == old(submitted) && messageOps == old(messageOps)
              else && submitted == old(submitted) + Buffers(messagesOut[0])[0]
                   && messageOps == old(messageOps) + [MessageOp(false, |submitted|)]
    {
      messagesOut := messagesOut[1..];
      if messagesOut != [] {
        WriteHeader();
      }
    }

    /** The handler of WriteHeader, without error. */
    method OnHeaderWritten(i: nat)
      requires Valid() && Enabled(model, MessageWritten(i)) && i < |messageOps| && !messageOps[i].body
      modifies this
      ensures id == old(id)
      ensures Valid() && model == Step(old(model), MessageWritten(i))
    {
      hide Inv, Step, Enabled, W.Step, RestMatches, WriteMatches, ReadMatches, ScratchMatches, Buffers;
      WriterShape(MessageWritten(i));
      WrittenMatches(model, messagesOut, submitted, moved, messageOps, i);
      model := Step(model, MessageWritten(i));
      RemoveOp(i);
      if |messagesOut[0].body| > 0 {
        WriteBody();
      } else {
        PopAndContinue();
      }
    }

    /** The handler of WriteBody, without error. */
    method OnBodyWritten(i: nat)
      requires Valid() && Enabled(model, MessageWritten(i)) && i < |messageOps| && messageOps[i].body
      modifies this
      ensures id == old(id)
      ensures Valid() && model == Step(old(model), MessageWritten(i))
    {
      hide Inv, Step, Enabled, W.Step, RestMatches, WriteMatches, ReadMatches, ScratchMatches, Buffers;
      WriterShape(MessageWritten(i));
      WrittenMatches(model, messagesOut, submitted, moved, messageOps, i);
      model := Step(model, MessageWritten(i));
      RemoveOp(i);
      PopAndContinue();
    }

    /** The handlers of WriteHeader and WriteBody, with an error. */
    method OnMessageWriteError(i: nat)
      requires Valid() && Enabled(model, MessageWriteError(i)) && i < |messageOps|
      modifies this
      ensures id == old(id)
      ensures Valid() && model == Step(old(model), MessageWriteError(i)) && !open
    {
      hide Inv, Step, Enabled, W.Step, RestMatches, WriteMatches, ReadMatches, ScratchMatches;
      WriterShape(MessageWriteError(i));
      ErrorMatches(model, messagesOut, submitted, moved, messageOps, i);
      model := Step(model, MessageWriteError(i));
      RemoveOp(i);
      open := false;
    }

    /** n bytes leave the host. */
    method Transfer(n: nat)
      requires Valid() && Enabled(model, Endpoints.Transfer(n))
      modifies this
      ensures id == old(id)
      ensures Valid() && model == Step(old(model), Endpoints.Transfer(n))
    {
      hide Inv, ReadMatches, ScratchMatches, Jobs;
      StepKeepsInv(model, Endpoints.Transfer(n));
      model := Step(model, Endpoints.Transfer(n));
      moved := moved + n;
    }

    // ---------- Handshake ----------

    method WriteValidation()
      modifies `submitted, `handshakeOp
      ensures submitted == old(submitted) + U64Bytes(handshakeOut) && handshakeOp == Some(|submitted|)
    {
      submitted := submitted + U64Bytes(handshakeOut);
      handshakeOp := Some(|submitted|);
    }

    method ReadValidation()
      requires readPhase == R.Idle
      modifies `readPhase
      ensures readPhase == R.Preamble
    {
      readPhase := R.Preamble;
    }

    /** The challenge is written and the answer read. */
    method BeginValidation()
      requires Valid() && owner == Server && Enabled(model, Start)
      modifies `submitted, `handshakeOp, `readPhase, `started, `model
      ensures Valid() && model == Step(old(model), Start)
    {
      hide Inv, Step, Enabled, W.Step, RestMatches, WriteMatches, ReadMatches, ScratchMatches, U64Bytes;
      StartShape();
      InjectMatches(model.writer, messagesOut, submitted, moved, messageOps, U64Bytes(handshakeOut));
      model := Step(model, Start);
      started := true;
      WriteValidation();
      ReadValidation();
    }

    /** ConnectToClient, called by the accept handler. */
    method ConnectToClient(uid: u32)
      requires Valid() && (owner == Server && open ==> Enabled(model, Start))
      modifies this
      ensures Valid() && open == old(open)
      ensures if owner == Server && old(open) then model == Step(old(model), Start) && id == uid
              else model == old(model) && id == old(id)
    {
      hide Inv, Step, Enabled, W.Step, WriteMatches, ScratchMatches;
      if owner == Server {
        if open {
          id := uid;
          BeginValidation();
        }
      }
    }

    /** The handler of ConnectToServer's connect, without error. */
    method OnConnected()
      requires Valid() && owner == Client && Enabled(model, Start)
      modifies this
      ensures id == old(id)
      ensures Valid() && model == Step(old(model), Start)
    {
      hide Inv, WriteMatches;
      StepKeepsInv(model, Start);
      model := Step(model, Start);
      started := true;
      ReadValidation();
    }

    /** The handler of WriteValidation, without error. */
    method OnValidationWritten()
      requires Valid() && Enabled(model, HandshakeWritten)
      modifies this
      ensures id == old(id)
      ensures Valid() && model == Step(old(model), HandshakeWritten)
    {
      hide Inv, Step, Enabled, W.Step, RestMatches, WriteMatches, ReadMatches, ScratchMatches;
      HandshakeWrittenShape();
      model := Step(model, HandshakeWritten);
      handshakeOp := None;
      if owner == Client {
        ReadHeader();
      }
    }

    method OnValidationWriteError()
      requires Valid() && Enabled(model, HandshakeWriteError)
      modifies this
      ensures id == old(id)
      ensures Valid() && model == Step(old(model), HandshakeWriteError) && !open
    {
      hide Inv, WriteMatches, ReadMatches, ScratchMatches;
      StepKeepsInv(model, HandshakeWriteError);
      model := Step(model, HandshakeWriteError);
      handshakeOp := None;
      open := false;
    }

    /** A right answer is followed by the first header; after a wrong one the socket is closed. */
    method CheckAnswer() returns (right: bool)
      requires |got| == HANDSHAKE_SIZE
      modifies `handshakeIn, `got, `readPhase, `open
      ensures handshakeIn == old(U64Of(got)) && got == []
      ensures right == (handshakeIn == handshakeCheck)
      ensures open == (old(open) && right) && readPhase == if right then R.Header else R.Idle
    {
      hide U64Of;
      handshakeIn := U64Of(got);
      got, readPhase := [], R.Idle;
      right := handshakeIn == handshakeCheck;
      if right {
        ReadHeader();
      } else {
        open := false;
      }
    }

    /** The challenge is scrambled and sent back. */
    method AnswerChallenge()
      requires |got| == HANDSHAKE_SIZE
      modifies `handshakeIn, `handshakeOut, `got, `readPhase, `submitted, `handshakeOp
      ensures handshakeIn == old(U64Of(got)) && handshakeOut == Scramble(handshakeIn)
      ensures got == [] && readPhase == R.Idle
      ensures submitted == old(submitted) + U64Bytes(handshakeOut) && handshakeOp == Some(|submitted|)
    {
      hide U64Of, U64Bytes, Scramble;
      handshakeIn := U64Of(got);
      got, readPhase := [], R.Idle;
      handshakeOut := Scramble(handshakeIn);
      WriteValidation();
    }

    /** The handler of ReadValidation, without error, on the server; validated says that it calls OnClientValidated. */
    method OnAnswerRead() returns (validated: bool)
      requires Valid() && Enabled(model, ReadDone) && readPhase.Preamble? && owner == Server
      modifies this
      ensures id == old(id)
      ensures Valid() && model == Step(old(model), ReadDone)
      ensures validated == model.validated && validated == (old(U64Word(got)) == Some(handshakeCheck))
    {
      hide Inv, Step, Enabled, W.Step, RestMatches, WriteMatches, ReadMatches, ScratchMatches, U64Of;
      AnswerShape();
      model := Step(model, ReadDone);
      validated := CheckAnswer();
    }

    /** The handler of ReadValidation, without error, on the client. */
    method OnChallengeRead()
      requires Valid() && Enabled(model, ReadDone) && readPhase.Preamble? && owner == Client
      modifies this
      ensures id == old(id)
      ensures Valid() && model == Step(old(model), ReadDone)
    {
      hide Inv, Step, Enabled, W.Step, RestMatches, WriteMatches, ReadMatches, ScratchMatches;
      hide U64Bytes, U64Of, Scramble;
      ChallengeShape();
      InjectMatches(model.writer, messagesOut, submitted, moved, messageOps, U64Bytes(Scramble(U64Of(got))));
      model := Step(model, ReadDone);
      AnswerChallenge();
    }

    // ---------- Receiving ----------

    method ReadHeader()
      requires readPhase == R.Idle
      modifies `readPhase
      ensures readPhase == R.Header
    {
      readPhase := R.Header;
    }

    method ReadBody()
      modifies `readPhase
      ensures readPhase == R.Body(|temporaryIn.body|)
    {
      readPhase := R.Body(|temporaryIn.body|);
    }

    /** Bytes reach the buffer of the outstanding read. */
    method Arrive(chunk: seq<byte>)
      requires Valid() && Enabled(model, Endpoints.Arrive(chunk))
      modifies this
      ensures id == old(id)
      ensures Valid() && model == Step(old(model), Endpoints.Arrive(chunk))
    {
      hide Inv, WriteMatches;
      StepKeepsInv(model, Endpoints.Arrive(chunk));
      model := Step(model, Endpoints.Arrive(chunk));
      got := got + chunk;
    }

    method AddToIncomingMessageQueue()
      modifies `messagesIn, `readPhase, `got
      ensures messagesIn == old(messagesIn) + [temporaryIn]
      ensures readPhase == R.Header && got == []
    {
      messagesIn := messagesIn + [temporaryIn];
      got, readPhase := [], R.Idle;
      ReadHeader();
    }

    /** The body is made as long as the header says and read, or the message is complete. */
    method TakeHeader()
      requires |got| == HEADER_SIZE
      modifies `temporaryIn, `messagesIn, `readPhase, `got
      ensures temporaryIn == HeaderFilled(old(temporaryIn), old(got)) && got == []
      ensures if temporaryIn.size > 0
              then messagesIn == old(messagesIn) && readPhase == R.Body(temporaryIn.size)
              else messagesIn == old(messagesIn) + [temporaryIn] && readPhase == R.Header
    {
      hide IdOf, SizeOf, Resized;
      temporaryIn := temporaryIn.(id := IdOf(got), size := SizeOf(got));
      if temporaryIn.size > 0 {
        temporaryIn := temporaryIn.(body := Resized(temporaryIn.body, temporaryIn.size));
        got := [];
        ReadBody();
      } else {
        AddToIncomingMessageQueue();
      }
    }

    /** The handler of ReadHeader, without error. */
    method OnHeaderRead()
      requires Valid() && Enabled(model, ReadDone) && readPhase.Header?
      modifies this
      ensures id == old(id)
      ensures Valid() && model == Step(old(model), ReadDone)
    {
      hide Inv, Step, Enabled, R.Step, R.Enabled, RestMatches, WriteMatches, ReadMatches, ScratchMatches;
      hide IdOf, SizeOf, Resized, Enqueue;
      MessageReadShape();
      ReaderOf();
      HeaderRead(model.reader, messagesIn, temporaryIn);
      model := Step(model, ReadDone);
      TakeHeader();
    }

    /** The handler of ReadBody, without error. */
    method OnBodyRead()
      requires Valid() && Enabled(model, ReadDone) && readPhase.Body?
      modifies this
      ensures id == old(id)
      ensures Valid() && model == Step(old(model), ReadDone)
    {
      hide Inv, Step, Enabled, R.Step, R.Enabled, RestMatches, WriteMatches, ReadMatches, ScratchMatches, Enqueue;
      MessageReadShape();
      ReaderOf();
      BodyRead(model.reader, messagesIn, temporaryIn);
      model := Step(model, ReadDone);
      temporaryIn := temporaryIn.(body := got);
      AddToIncomingMessageQueue();
    }

    /** The handlers of the three reads, with an error. */
    method OnReadError()
      requires Valid() && Enabled(model, ReadError)
      modifies this
      ensures id == old(id)
      ensures Valid() && model == Step(old(model), ReadError) && !open
    {
      hide Inv, Step, Enabled, W.Step, RestMatches, WriteMatches, ReadMatches, ScratchMatches;
      ReadErrorShape();
      model := Step(model, ReadError);
      readPhase := R.Idle;
      open := false;
    }

    /** The closure posted by Disconnect. */
    method Close()
      requires Valid() && Enabled(model, Endpoints.Close)
      modifies this
      ensures id == old(id)
      ensures Valid() && model == Step(old(model), Endpoints.Close) && !open
    {
      hide Inv, WriteMatches, ReadMatches, ScratchMatches;
      StepKeepsInv(model, Endpoints.Close);
      model := Step(model, Endpoints.Close);
      open := false;
    }

    // ---------- What the steps come to, component by component ----------

    /** The object's read is that of the model. */
    lemma ReaderOf()
      requires Valid()
      ensures R.Inv(WIRE_FORMAT, model.reader)
      ensures model.reader.phase == readPhase && model.reader.got == got
    {
      hide WriteSide, Alive, ServerSide, ClientSide, R.Inv, RestMatches, WriteMatches, ScratchMatches;
    }

    lemma RunPostedShape()
      requires Valid() && Enabled(model, Endpoints.RunPosted)
      ensures posted != []
      ensures
        var t := Step(model, Endpoints.RunPosted);
        && Inv(t) && t.owner == owner && t.reader == model.reader && t.inbox == model.inbox
        && RestMatches(t, open, started, handshakeOut, handshakeIn, handshakeCheck, handshakeOp, posted[1..])
        && t.writer == W.Step(model.writer, W.Offer(Buffers(posted[0])))
    {
      StepKeepsInv(model, Endpoints.RunPosted);
      hide W.Step, Inv, WriteMatches, ScratchMatches;
    }

    lemma StartShape()
      requires Enabled(model, Start) && owner == Server && Valid()
      ensures readPhase == R.Idle
      ensures
        var w, t := W.Step(model.writer, W.Inject(U64Bytes(handshakeOut))), Step(model, Start);
        && Inv(t) && t.owner == owner && t.inbox == messagesIn && t.writer == w
        && RestMatches(t, open, true, handshakeOut, handshakeIn, handshakeCheck, Some(|w.submitted|), posted)
        && ReadMatches(t.reader, R.Preamble, got) && ScratchMatches(t.reader, t.inbox, temporaryIn)
    {
      StepKeepsInv(model, Start);
      hide W.Step, U64Bytes, Inv, WriteMatches;
    }

    lemma HandshakeWrittenShape()
      requires Valid() && Enabled(model, HandshakeWritten)
      ensures owner == Client ==> readPhase == R.Idle
      ensures
        var t := Step(model, HandshakeWritten);
        && Inv(t) && t.owner == owner && t.writer == model.writer && t.inbox == messagesIn
        && RestMatches(t, open, started, handshakeOut, handshakeIn, handshakeCheck, None, posted)
        && ReadMatches(t.reader, if owner == Client then R.Header else readPhase, got)
        && ScratchMatches(t.reader, t.inbox, temporaryIn)
    {
      hide Inv, R.Step, R.Enabled, Endpoints.ReadHeader, WriteMatches, ScratchMatches;
      StepKeepsInv(model, HandshakeWritten);
      if owner == Client {
        ReadyToListen(model);
        HeaderBegun(model.reader, messagesIn, temporaryIn);
      }
    }

    lemma AnswerShape()
      requires Valid() && Enabled(model, ReadDone) && readPhase.Preamble? && owner == Server
      ensures |got| == HANDSHAKE_SIZE
      ensures
        var t, right := Step(model, ReadDone), U64Of(got) == handshakeCheck;
        && Inv(t) && t.owner == owner && t.writer == model.writer && t.inbox == messagesIn && t.validated == right
        && RestMatches(t, open && right, started, handshakeOut, U64Of(got), handshakeCheck, handshakeOp, posted)
        && ReadMatches(t.reader, if right then R.Header else R.Idle, [])
        && ScratchMatches(t.reader, t.inbox, temporaryIn)
    {
      hide Inv, Step, Enabled, U64Of, R.Step, R.Enabled, Endpoints.ReadHeader, ScratchMatches, WriteMatches;
      StepKeepsInv(model, ReadDone);
      ReadDoneShape(model);
      NotYetValidated(model);
      WordRead(model.reader, messagesIn, temporaryIn);
    }

    lemma ChallengeShape()
      requires Valid() && Enabled(model, ReadDone) && readPhase.Preamble? && owner == Client
      ensures |got| == HANDSHAKE_SIZE
      ensures
        var t, word := Step(model, ReadDone), Scramble(U64Of(got));
        var w := W.Step(model.writer, W.Inject(U64Bytes(word)));
        && Inv(t) && t.owner == owner && t.writer == w && t.inbox == messagesIn
        && RestMatches(t, open, started, word, U64Of(got), handshakeCheck, Some(|w.submitted|), posted)
        && ReadMatches(t.reader, R.Idle, []) && ScratchMatches(t.reader, t.inbox, temporaryIn)
    {
      hide Inv, Step, Enabled, R.Step, R.Enabled, W.Step, U64Of, U64Bytes, Scramble, ScratchMatches, WriteMatches;
      hide Endpoints.ReadHeader;
      StepKeepsInv(model, ReadDone);
      ReadDoneShape(model);
      NotYetValidated(model);
      WordRead(model.reader, messagesIn, temporaryIn);
    }

    /** The read of a message header or body. */
    lemma MessageReadShape()
      requires Valid() && Enabled(model, ReadDone) && !readPhase.Preamble?
      ensures
        var t := Step(model, ReadDone);
        && R.Enabled(WIRE_FORMAT, model.reader, R.Done)
        && Inv(t) && t.owner == owner && t.writer == model.writer
        && t.reader == R.Step(WIRE_FORMAT, model.reader, R.Done)
        && t.inbox == Enqueue(messagesIn, model.reader.frames, t.reader.frames)
        && RestMatches(t, open, started, handshakeOut, handshakeIn, handshakeCheck, handshakeOp, posted)
    {
      hide Inv, Step, Enabled, R.Step, R.Enabled, ScratchMatches, WriteMatches, Enqueue;
      StepKeepsInv(model, ReadDone);
      ReadDoneShape(model);
    }

    lemma ReadErrorShape()
      requires Valid() && Enabled(model, ReadError)
      ensures
        var t := Step(model, ReadError);
        && Inv(t) && t.owner == owner && t.writer == model.writer && t.inbox == messagesIn
        && RestMatches(t, false, started, handshakeOut, handshakeIn, handshakeCheck, handshakeOp, posted)
        && ReadMatches(t.reader, R.Idle, got) && ScratchMatches(t.reader, t.inbox, temporaryIn)
    {
      hide Inv, R.Step, R.Enabled, ReadMatches, ScratchMatches, WriteMatches;
      StepKeepsInv(model, ReadError);
      ReaderOf();
      ReadFailed(model.reader, messagesIn, temporaryIn);
    }

    lemma WriterShape(ev: Event)
      requires Valid() && Enabled(model, ev) && (ev.MessageWritten? || ev.MessageWriteError?)
      ensures ev.MessageWritten? ==> W.Enabled(model.writer, W.Written(ev.i))
      ensures ev.MessageWriteError? ==> W.Enabled(model.writer, W.WriteError(ev.i))
      ensures
        var t := Step(model, ev);
        && Inv(t) && t.owner == owner && t.reader == model.reader && t.inbox == model.inbox
        && RestMatches(t, open && ev.MessageWritten?, started, handshakeOut, handshakeIn, handshakeCheck,
                       handshakeOp, posted)
        && t.writer == W.Step(model.writer, if ev.MessageWritten? then W.Written(ev.i) else W.WriteError(ev.i))
    {
      StepKeepsInv(model, ev);
      hide Inv, W.Step, WriteMatches, ScratchMatches;
    }
  }

  // ---------- Steps of the pump and the read loop, on values ----------

  lemma OfferMatches(
    e: Endpoint, out: seq<Message>, submitted: seq<byte>, moved: nat, ops: seq<MessageOp>, m: Message)
    requires Inv(e) && WriteMatches(e.writer, out, submitted, moved, ops)
    ensures var w := W.Step(e.writer, W.Offer(Buffers(m)));
            if out != [] then WriteMatches(w, out + [m], submitted, moved, ops)
            else
              var s := submitted + Buffers((out + [m])[0])[0];
              WriteMatches(w, out + [m], s, moved, ops + [MessageOp(false, |s|)])
  {
    hide Inv, Buffers;
    OneOp(e);
    assert Jobs(out + [m]) == Jobs(out) + [Buffers(m)];
    assert Jobs(out) == [] <==> out == [];
    if out == [] {
      var s := submitted + Buffers(m)[0];
      assert Ends(ops + [MessageOp(false, |s|)]) == [|s|];
    }
  }

  lemma InjectMatches(
    w: W.Writer, out: seq<Message>, submitted: seq<byte>, moved: nat, ops: seq<MessageOp>, bytes: seq<byte>)
    requires WriteMatches(w, out, submitted, moved, ops)
    ensures WriteMatches(W.Step(w, W.Inject(bytes)), out, submitted + bytes, moved, ops)
    ensures W.Step(w, W.Inject(bytes)).submitted == submitted + bytes
  {
    hide Jobs, Ends;
  }

  lemma ErrorMatches(
    e: Endpoint, out: seq<Message>, submitted: seq<byte>, moved: nat, ops: seq<MessageOp>, i: nat)
    requires Inv(e) && WriteMatches(e.writer, out, submitted, moved, ops)
    requires W.Enabled(e.writer, W.WriteError(i)) && i < |ops|
    ensures WriteMatches(W.Step(e.writer, W.WriteError(i)), out, submitted, moved, ops[..i] + ops[i + 1..])
  {
    hide Inv, Jobs;
    OneOp(e);
    assert ops[..i] + ops[i + 1..] == [];
  }

  /** What the handler does after a completed write, by the kind of that write. */
  lemma WrittenMatches(
    e: Endpoint, out: seq<Message>, submitted: seq<byte>, moved: nat, ops: seq<MessageOp>, i: nat)
    requires Inv(e) && WriteMatches(e.writer, out, submitted, moved, ops)
    requires W.Enabled(e.writer, W.Written(i)) && i < |ops|
    ensures out != []
    ensures var w := W.Step(e.writer, W.Written(i));
            var rest := ops[..i] + ops[i + 1..];
            if !ops[i].body && |out[0].body| > 0 then
              && |Buffers(out[0])| == 2
              && (var s := submitted + Buffers(out[0])[1];
                  WriteMatches(w, out, s, moved, rest + [MessageOp(true, |s|)]))
            else if out[1..] == [] then
              WriteMatches(w, out[1..], submitted, moved, rest)
            else
              var s := submitted + Buffers(out[1..][0])[0];
              WriteMatches(w, out[1..], s, moved, rest + [MessageOp(false, |s|)])
  {
    hide Inv, HeaderBytes;
    OneOp(e);
    assert ops[i] in ops;
    var rest := ops[..i] + ops[i + 1..];
    assert rest == [] && W.RemoveOp(e.writer, i).ops == [];
    assert Jobs(out)[0] == Buffers(out[0]);
    assert Jobs(out)[1..] == Jobs(out[1..]);
  }

  /** The scratch message is not touched by a read of the handshake word. */
  lemma WordRead(r: R.Reader, inbox: seq<Message>, scratch: Message)
    requires R.Enabled(WIRE_FORMAT, r, R.Done) && r.phase.Preamble? && r.header == [] && r.frames == []
    requires ScratchMatches(r, inbox, scratch)
    ensures |r.got| == HANDSHAKE_SIZE
    ensures
      var t := R.Step(WIRE_FORMAT, r, R.Done);
      && ReadMatches(t, R.Idle, []) && ScratchMatches(t, inbox, scratch)
      && ReadMatches(Endpoints.ReadHeader(t), R.Header, [])
      && ScratchMatches(Endpoints.ReadHeader(t), inbox, scratch)
  {
  }

  lemma HeaderBegun(r: R.Reader, inbox: seq<Message>, scratch: Message)
    requires R.Enabled(WIRE_FORMAT, r, R.StartHeader) && ScratchMatches(r, inbox, scratch)
    ensures r.phase == R.Idle
    ensures ReadMatches(Endpoints.ReadHeader(r), R.Header, r.got)
    ensures ScratchMatches(Endpoints.ReadHeader(r), inbox, scratch)
  {
  }

  /** The scratch message after its header has been read. */
  function HeaderFilled(scratch: Message, header: seq<byte>): Message
    requires |header| == HEADER_SIZE
  {
    var n := SizeOf(header);
    Message(IdOf(header), n, if n > 0 then Resized(scratch.body, n) else scratch.body)
  }

  lemma HeaderRead(r: R.Reader, inbox: seq<Message>, scratch: Message)
    requires R.Enabled(WIRE_FORMAT, r, R.Done) && r.phase.Header?
    requires ScratchMatches(r, inbox, scratch)
    ensures |r.got| == HEADER_SIZE
    ensures
      var n, s, t := SizeOf(r.got), HeaderFilled(scratch, r.got), R.Step(WIRE_FORMAT, r, R.Done);
      var inbox' := if n > 0 then inbox else inbox + [s];
      && Enqueue(inbox, r.frames, t.frames) == inbox'
      && ReadMatches(t, if n > 0 then R.Body(n) else R.Header, []) && ScratchMatches(t, inbox', s)
  {
    hide IdOf, SizeOf, Resized;
    assert r.got[..HEADER_SIZE] == r.got;
  }

  lemma BodyRead(r: R.Reader, inbox: seq<Message>, scratch: Message)
    requires R.Enabled(WIRE_FORMAT, r, R.Done) && r.phase.Body?
    requires R.Inv(WIRE_FORMAT, r) && ScratchMatches(r, inbox, scratch)
    ensures
      var s, t := scratch.(body := r.got), R.Step(WIRE_FORMAT, r, R.Done);
      && Enqueue(inbox, r.frames, t.frames) == inbox + [s]
      && ReadMatches(t, R.Header, []) && ScratchMatches(t, inbox + [s], s)
  {
    hide IdOf, SizeOf;
    var f := r.header + r.got;
    assert f[..HEADER_SIZE] == r.header && f[HEADER_SIZE..] == r.got;
  }

  lemma ReadFailed(r: R.Reader, inbox: seq<Message>, scratch: Message)
    requires R.Enabled(WIRE_FORMAT, r, R.ReadError)
    requires ScratchMatches(r, inbox, scratch)
    ensures
      var t := R.Step(WIRE_FORMAT, r, R.ReadError);
      ReadMatches(t, R.Idle, r.got) && ScratchMatches(t, inbox, scratch)
  {
  }

  lemma ReadDoneShape(e: Endpoint)
    requires Enabled(e, ReadDone)
    ensures R.Enabled(WIRE_FORMAT, e.reader, R.Done)
    ensures e.reader.phase.Preamble? && e.owner.Server? ==> Step(e, ReadDone) == AnswerRead(e)
    ensures e.reader.phase.Preamble? && e.owner.Client? ==> Step(e, ReadDone) == ChallengeRead(e)
    ensures !e.reader.phase.Preamble? ==> Step(e, ReadDone) == MessageRead(e)
  {
    hide R.Step, AnswerRead, ChallengeRead, MessageRead;
  }

  lemma OneOp(e: Endpoint)
    requires Inv(e)
    ensures e.writer.ops != [] ==> |e.writer.ops| == 1 && e.writer.queue != [] && !e.writer.failed
    ensures e.writer.queue == [] ==> e.writer.ops == []
  {
  }

  lemma ReadyToListen(e: Endpoint)
    requires Inv(e) && e.handshakeOp.Some? && e.owner.Client?
    ensures R.Enabled(WIRE_FORMAT, e.reader, R.StartHeader)
  {
  }

  lemma NotYetValidated(e: Endpoint)
    requires Inv(e) && e.reader.phase.Preamble?
    ensures !e.validated && !e.rejected
    ensures e.reader.header == [] && e.reader.frames == []
  {
  }
}
