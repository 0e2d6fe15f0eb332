/**
  The chat program's objects, changed in place by their completion handlers.  A ChatPeer is
  what chat_session and chat_client share: the write queue with its pump, the message being
  read with its read loop, and the socket between them.  A ChatRoom runs sessions; every
  handler of a session is one step of the room machine.
 */
module ChatObjects {
  import opened Bytes
  import opened Framing
  import opened ChatMessages
  import C = ChatRooms
  import W = WritePump
  import R = FrameReader

  // ---------- Coupling of a peer with the pump and the read loop ----------

  ghost predicate WriteMatches(w: W.Writer, writeMsgs: seq<Frame>, submitted: seq<byte>, moved: nat, ops: seq<nat>) {
    && C.PumpInv(w)
    && w.queue == C.Jobs(writeMsgs)
    && w.submitted == submitted
    && w.moved == moved
    && w.ops == ops
  }

  ghost predicate ReadMatches(r: R.Reader, phase: R.Phase, data: seq<byte>, bodyLength: nat, filled: nat) {
    && C.LoopInv(r)
    && r.phase == phase
    && |data| == HEADER_LENGTH + MAX_BODY_LENGTH
    && match phase
       case Header => filled <= HEADER_LENGTH && r.got == data[..filled]
       case Body(n) =>
         && filled <= n == bodyLength <= MAX_BODY_LENGTH
         && r.header == data[..HEADER_LENGTH]
         && r.got == data[HEADER_LENGTH..HEADER_LENGTH + filled]
       case Idle => true
       case Preamble => false
  }

  lemma FreshMatches(data: seq<byte>, bodyLength: nat)
    requires |data| == HEADER_LENGTH + MAX_BODY_LENGTH
    ensures WriteMatches(W.FRESH, [], [], 0, []) && ReadMatches(R.FRESH, R.Idle, data, bodyLength, 0)
  {
    W.FreshInv();
    R.FreshInv(CHAT_FORMAT);
    assert C.Jobs([]) == [];
  }

  lemma OfferShape(w: W.Writer, writeMsgs: seq<Frame>, submitted: seq<byte>, moved: nat, ops: seq<nat>, f: Frame)
    requires WriteMatches(w, writeMsgs, submitted, moved, ops)
    ensures
      var t := W.Step(w, W.Offer(C.Job(f)));
      if writeMsgs != [] then WriteMatches(t, writeMsgs + [f], submitted, moved, ops)
      else WriteMatches(t, writeMsgs + [f], submitted + f, moved, ops + [|submitted| + |f|])
  {
    C.PumpStepKeepsInv(w, W.Offer(C.Job(f)));
  }

  lemma WrittenShape(w: W.Writer, writeMsgs: seq<Frame>, submitted: seq<byte>, moved: nat, ops: seq<nat>, i: nat)
    requires WriteMatches(w, writeMsgs, submitted, moved, ops) && W.Enabled(w, W.Written(i))
    ensures writeMsgs != []
    ensures
      var t := W.Step(w, W.Written(i));
      var rest := writeMsgs[1..];
      var others := ops[..i] + ops[i + 1..];
      if rest == [] then WriteMatches(t, rest, submitted, moved, others)
      else WriteMatches(t, rest, submitted + rest[0], moved, others + [|submitted| + |rest[0]|])
  {
    C.PumpStepKeepsInv(w, W.Written(i));
  }

  lemma QuietShape(w: W.Writer, writeMsgs: seq<Frame>, submitted: seq<byte>, moved: nat, ops: seq<nat>, e: W.Event)
    requires WriteMatches(w, writeMsgs, submitted, moved, ops) && W.Enabled(w, e)
    requires e.Transfer? || e.WriteError?
    ensures
      var t := W.Step(w, e);
      if e.Transfer? then WriteMatches(t, writeMsgs, submitted, moved + e.n, ops)
      else WriteMatches(t, writeMsgs, submitted, moved, ops[..e.i] + ops[e.i + 1..])
  {
    C.PumpStepKeepsInv(w, e);
  }

  /** A chunk read into its place in the message. */
  function Spliced(data: seq<byte>, at: nat, chunk: seq<byte>): seq<byte>
    requires at + |chunk| <= |data|
  {
    data[..at] + chunk + data[at + |chunk|..]
  }

  method CopyInto(data: array<byte>, at: nat, chunk: seq<byte>)
    requires at + |chunk| <= data.Length
    modifies data
    ensures data[..] == Spliced(old(data[..]), at, chunk)
  {
    var i := 0;
    while i < |chunk|
      invariant 0 <= i <= |chunk|
      invariant data[..at] == old(data[..at])
      invariant data[at..at + i] == chunk[..i]
      invariant data[at + i..] == old(data[at + i..])
    {
      data[at + i] := chunk[i];
      i := i + 1;
    }
    assert data[..] == data[..at] + data[at..at + |chunk|] + data[at + |chunk|..];
  }

  function Offset(phase: R.Phase): nat {
    if phase.Body? then HEADER_LENGTH else 0
  }

  lemma FilledShape(r: R.Reader, phase: R.Phase, data: seq<byte>, bodyLength: nat, filled: nat, chunk: seq<byte>)
    requires ReadMatches(r, phase, data, bodyLength, filled) && R.Enabled(CHAT_FORMAT, r, R.Arrive(chunk))
    ensures Offset(phase) + filled + |chunk| <= |data|
    ensures ReadMatches(R.Step(CHAT_FORMAT, r, R.Arrive(chunk)), phase,
                        Spliced(data, Offset(phase) + filled, chunk), bodyLength, filled + |chunk|)
  {
    hide C.LoopInv;
    C.LoopStepKeepsInv(r, R.Arrive(chunk));
    var at := Offset(phase) + filled;
    var d := Spliced(data, at, chunk);
    assert d[..at + |chunk|] == data[..at] + chunk;
    if phase.Body? {
      assert d[..HEADER_LENGTH] == data[..HEADER_LENGTH];
      assert d[HEADER_LENGTH..at + |chunk|] == data[HEADER_LENGTH..at] + chunk;
    }
  }

  // ---------- The peer ----------

  class ChatPeer {
    var writeMsgs: seq<Frame>
    var submitted: seq<byte>
    var moved: nat
    var ops: seq<nat>

    const readMsg: ChatMessage
    var phase: R.Phase
    var filled: nat

    ghost var writer: W.Writer
    ghost var reader: R.Reader

    ghost predicate Writing()
      reads `writer, `writeMsgs, `submitted, `moved, `ops
    {
      WriteMatches(writer, writeMsgs, submitted, moved, ops)
    }

    ghost predicate Reading()
      reads `reader, `phase, `filled, readMsg, readMsg.data
    {
      readMsg.Valid() && ReadMatches(reader, phase, readMsg.data[..], readMsg.bodyLength, filled)
    }

    constructor ()
      ensures Writing() && Reading() && fresh(readMsg) && fresh(readMsg.data)
      ensures writer == W.FRESH && reader == R.FRESH
    {
      hide WriteMatches, ReadMatches;
      writeMsgs, submitted, moved, ops := [], [], 0, [];
      readMsg := new ChatMessage();
      phase, filled := R.Idle, 0;
      writer, reader := W.FRESH, R.FRESH;
      new;
      FreshMatches(readMsg.data[..], readMsg.bodyLength);
    }

    /** The write of the front message is initiated. */
    method DoWrite()
      requires writeMsgs != []
      modifies `submitted, `ops
      ensures submitted == old(submitted) + writeMsgs[0]
      ensures ops == old(ops) + [|submitted|]
    {
      submitted := submitted + writeMsgs[0];
      ops := ops + [|submitted|];
    }

    /** chat_session::deliver, and the closure posted by chat_client::write. */
    method Deliver(f: Frame)
      requires Writing()
      modifies `writer, `writeMsgs, `submitted, `ops
      ensures Writing() && writer == W.Step(old(writer), W.Offer(C.Job(f)))
      ensures writeMsgs == old(writeMsgs) + [f]
      ensures if old(writeMsgs) == [] then submitted == old(submitted) + f && ops == old(ops) + [|submitted|]
              else submitted == old(submitted) && ops == old(ops)
    {
      hide WriteMatches, W.Step;
      OfferShape(writer, writeMsgs, submitted, moved, ops, f);
      writer := W.Step(writer, W.Offer(C.Job(f)));
      var writeInProgress := writeMsgs != [];
      writeMsgs := writeMsgs + [f];
      if !writeInProgress {
        DoWrite();
      }
    }

    /** The handler of do_write's write, without error. */
    method OnWritten(i: nat)
      requires Writing() && W.Enabled(writer, W.Written(i))
      modifies `writer, `writeMsgs, `submitted, `ops
      ensures Writing() && writer == W.Step(old(writer), W.Written(i))
      ensures old(writeMsgs) != [] && writeMsgs == old(writeMsgs)[1..]
      ensures submitted == old(submitted) + (if writeMsgs == [] then [] else writeMsgs[0])
    {
      hide W.Step;
      WrittenShape(writer, writeMsgs, submitted, moved, ops, i);
      writer := W.Step(writer, W.Written(i));
      ops := ops[..i] + ops[i + 1..];
      writeMsgs := writeMsgs[1..];
      if writeMsgs != [] {
        DoWrite();
      }
    }

    /** The handler of do_write's write, with an error: what follows is up to the owner. */
    method OnWriteError(i: nat)
      requires Writing() && W.Enabled(writer, W.WriteError(i))
      modifies `writer, `ops
      ensures Writing() && writer == W.Step(old(writer), W.WriteError(i))
      ensures i < |old(ops)| && ops == old(ops)[..i] + old(ops)[i + 1..]
    {
      QuietShape(writer, writeMsgs, submitted, moved, ops, W.WriteError(i));
      writer := W.Step(writer, W.WriteError(i));
      ops := ops[..i] + ops[i + 1..];
    }

    method Transfer(n: nat)
      requires Writing() && W.Enabled(writer, W.Transfer(n))
      modifies `writer, `moved
      ensures Writing() && writer == W.Step(old(writer), W.Transfer(n)) && moved == old(moved) + n
    {
      QuietShape(writer, writeMsgs, submitted, moved, ops, W.Transfer(n));
      writer := W.Step(writer, W.Transfer(n));
      moved := moved + n;
    }

    /** do_read_header, for the first time. */
    method StartReading()
      requires Reading() && R.Enabled(CHAT_FORMAT, reader, R.StartHeader)
      modifies `reader, `phase, `filled
      ensures Reading() && reader == R.Step(CHAT_FORMAT, old(reader), R.StartHeader)
      ensures phase == R.Header && filled == 0
    {
      R.StepKeepsInv(CHAT_FORMAT, reader, R.StartHeader);
      reader := R.Step(CHAT_FORMAT, reader, R.StartHeader);
      DoReadHeader();
    }

    method DoReadHeader()
      modifies `phase, `filled
      ensures phase == R.Header && filled == 0
    {
      phase, filled := R.Header, 0;
    }

    method DoReadBody()
      modifies `phase, `filled
      ensures phase == R.Body(readMsg.bodyLength) && filled == 0
    {
      phase, filled := R.Body(readMsg.bodyLength), 0;
    }

    /** Bytes arrive in the part of the message that the outstanding read fills. */
    method Arrive(chunk: seq<byte>)
      requires Reading() && R.Enabled(CHAT_FORMAT, reader, R.Arrive(chunk))
      modifies `reader, `filled, readMsg.data
      ensures Reading() && reader == R.Step(CHAT_FORMAT, old(reader), R.Arrive(chunk))
    {
      hide ReadMatches, R.Step;
      FilledShape(reader, phase, readMsg.data[..], readMsg.bodyLength, filled, chunk);
      CopyInto(readMsg.data, Offset(phase) + filled, chunk);
      reader := R.Step(CHAT_FORMAT, reader, R.Arrive(chunk));
      filled := filled + |chunk|;
    }

    /** The handler of do_read_header's read, without error. */
    method OnHeaderRead() returns (ok: bool)
      requires Reading() && phase.Header? && R.Complete(CHAT_FORMAT, reader)
      modifies `reader, `phase, `filled, readMsg
      ensures Reading() && reader == R.Step(CHAT_FORMAT, old(reader), R.Done)
      ensures reader.frames == old(reader).frames
      ensures match DecodeLength(readMsg.data[..4])
              case Some(n) => ok && phase == R.Body(n) && filled == 0 && readMsg.bodyLength == n
              case None => !ok && phase.Idle?
    {
      hide C.LoopInv, DecodeLength;
      C.LoopStepKeepsInv(reader, R.Done);
      assert readMsg.data[..HEADER_LENGTH] == readMsg.data[..][..HEADER_LENGTH];
      reader := R.Step(CHAT_FORMAT, reader, R.Done);
      ok := readMsg.DecodeHeader();
      if ok {
        DoReadBody();
      } else {
        phase := R.Idle;
      }
    }

    /** A complete body: read_msg_ is the frame that its handler hands over before reading on. */
    lemma BodyComplete()
      requires Reading() && phase.Body? && R.Complete(CHAT_FORMAT, reader)
      ensures R.Step(CHAT_FORMAT, reader, R.Done).frames == reader.frames + [readMsg.Contents()]
      ensures R.Step(CHAT_FORMAT, reader, R.Done).phase == R.Header
      ensures ReadMatches(R.Step(CHAT_FORMAT, reader, R.Done), R.Header, readMsg.data[..], readMsg.bodyLength, 0)
    {
      hide C.LoopInv;
      C.LoopStepKeepsInv(reader, R.Done);
      assert readMsg.Contents() == reader.header + reader.got;
    }

    /** The next header is read once a body has been handed over. */
    method ReadNext()
      requires Reading() && phase.Body? && R.Complete(CHAT_FORMAT, reader)
      modifies `reader, `phase, `filled
      ensures Reading() && reader == R.Step(CHAT_FORMAT, old(reader), R.Done)
      ensures phase == R.Header && filled == 0
    {
      hide ReadMatches, R.Step;
      BodyComplete();
      reader := R.Step(CHAT_FORMAT, reader, R.Done);
      DoReadHeader();
    }

    method OnReadError()
      requires Reading() && R.Enabled(CHAT_FORMAT, reader, R.ReadError)
      modifies `reader, `phase
      ensures Reading() && reader == R.Step(CHAT_FORMAT, old(reader), R.ReadError) && phase.Idle?
    {
      hide C.LoopInv;
      C.LoopStepKeepsInv(reader, R.ReadError);
      reader := R.Step(CHAT_FORMAT, reader, R.ReadError);
      phase := R.Idle;
    }
  }

  // ---------- The room ----------

  lemma AcceptShape(room: C.Room, id: C.Id)
    requires C.Enabled(room, C.Accept(id))
    ensures R.Enabled(CHAT_FORMAT, R.FRESH, R.StartHeader)
    ensures
      var t := C.Step(room, C.Accept(id));
      && id !in room.sessions
      && t.recent == room.recent && t.members == room.members + {id}
      && t.sessions.Keys == room.sessions.Keys + {id}
      && t.sessions[id].writer == C.OfferAll(W.FRESH, room.recent)
      && t.sessions[id].reader == R.Step(CHAT_FORMAT, R.FRESH, R.StartHeader)
      && (forall k | k in room.sessions :: t.sessions[k] == room.sessions[k])
  {
  }

  /** The reader of a session whose outstanding read is complete, once its handler has run. */
  function ReadOn(room: C.Room, id: C.Id): R.Reader
    requires C.Enabled(room, C.ReadDone(id))
  {
    R.Step(CHAT_FORMAT, room.sessions[id].reader, R.Done)
  }

  /** A complete body is a message to everyone. */
  lemma BodyShape(room: C.Room, id: C.Id, f: Frame)
    requires C.Enabled(room, C.ReadDone(id))
    requires R.Step(CHAT_FORMAT, room.sessions[id].reader, R.Done).frames == room.sessions[id].reader.frames + [f]
    ensures
      var t := C.Step(room, C.ReadDone(id));
      && t.recent == C.Trimmed(room.recent + [f]) && t.members == room.members
      && t.sessions.Keys == room.sessions.Keys
      && (forall k | k in room.sessions ::
            && t.sessions[k].writer == C.Handed(room.sessions[k], k in room.members, f).writer
            && t.sessions[k].reader == if k == id then R.Step(CHAT_FORMAT, room.sessions[id].reader, R.Done)
                                       else room.sessions[k].reader)
  {
    hide W.Step, R.Step, C.Trimmed;
    var r := R.Step(CHAT_FORMAT, room.sessions[id].reader, R.Done);
    assert r.frames[|r.frames| - 1] == f;
  }

  /** What a step does to the writer of its session. */
  function WriterAfter(w: W.Writer, e: C.Event): W.Writer
    requires e.Transfer? ==> W.Enabled(w, W.Transfer(e.n))
    requires e.Written? ==> W.Enabled(w, W.Written(e.i))
    requires e.WriteError? ==> W.Enabled(w, W.WriteError(e.i))
  {
    match e
    case Transfer(_, n) => W.Step(w, W.Transfer(n))
    case Written(_, i) => W.Step(w, W.Written(i))
    case WriteError(_, i) => W.Step(w, W.WriteError(i))
    case _ => w
  }

  function ReaderAfter(r: R.Reader, e: C.Event): R.Reader
    requires e.Arrive? ==> R.Enabled(CHAT_FORMAT, r, R.Arrive(e.chunk))
    requires e.ReadDone? ==> R.Enabled(CHAT_FORMAT, r, R.Done)
    requires e.ReadError? ==> R.Enabled(CHAT_FORMAT, r, R.ReadError)
  {
    match e
    case Arrive(_, chunk) => R.Step(CHAT_FORMAT, r, R.Arrive(chunk))
    case ReadDone(_) => R.Step(CHAT_FORMAT, r, R.Done)
    case ReadError(_) => R.Step(CHAT_FORMAT, r, R.ReadError)
    case _ => r
  }

  /** A step that delivers nothing changes one session. */
  lemma OwnShape(room: C.Room, e: C.Event)
    requires C.Enabled(room, e) && !e.Accept?
    requires e.ReadDone? ==>
      R.Step(CHAT_FORMAT, room.sessions[e.id].reader, R.Done).frames == room.sessions[e.id].reader.frames
    ensures
      var t, s := C.Step(room, e), room.sessions[e.id];
      && t.recent == room.recent && t.sessions.Keys == room.sessions.Keys
      && (forall k | k in room.sessions && k != e.id :: t.sessions[k] == room.sessions[k])
      && t.sessions[e.id].writer == WriterAfter(s.writer, e)
      && t.sessions[e.id].reader == ReaderAfter(s.reader, e)
      && t.members == if e.WriteError? || e.ReadError? || (e.ReadDone? && ReaderAfter(s.reader, e).phase.Idle?)
                      then room.members - {e.id} else room.members
  {
    hide W.Step, R.Step;
  }

  lemma PhaseShown(p: ChatPeer)
    requires p.Reading()
    ensures p.phase == p.reader.phase
  {
  }

  function Parts(p: ChatPeer): set<object> {
    {p, p.readMsg, p.readMsg.data}
  }

  /** No two sessions share a part. */
  ghost predicate Apart(sessions: map<C.Id, ChatPeer>, footprint: set<object>) {
    && (forall id | id in sessions :: Parts(sessions[id]) <= footprint)
    && (forall a, b | a in sessions && b in sessions && a != b :: Parts(sessions[a]) !! Parts(sessions[b]))
  }

  /** The participants are the sessions that are members. */
  ghost predicate Present(sessions: map<C.Id, ChatPeer>, participants: set<ChatPeer>, members: set<C.Id>) {
    && (forall p | p in participants :: exists id :: id in sessions && sessions[id] == p)
    && (forall id | id in sessions :: sessions[id] in participants <==> id in members)
  }

  lemma PartsApart(sessions: map<C.Id, ChatPeer>, footprint: set<object>, a: C.Id, b: C.Id)
    requires Apart(sessions, footprint) && a in sessions && b in sessions
    ensures Parts(sessions[a]) <= footprint
    ensures a != b ==> Parts(sessions[a]) !! Parts(sessions[b])
  {
  }

  lemma OneMoreApart(sessions: map<C.Id, ChatPeer>, footprint: set<object>, id: C.Id, p: ChatPeer)
    requires Apart(sessions, footprint) && id !in sessions && Parts(p) !! footprint
    ensures Apart(sessions[id := p], footprint + Parts(p))
  {
  }

  lemma OneMorePresent(
    sessions: map<C.Id, ChatPeer>, participants: set<ChatPeer>, members: set<C.Id>, id: C.Id, p: ChatPeer)
    requires Present(sessions, participants, members) && id !in sessions
    requires forall k | k in sessions :: sessions[k] != p
    ensures Present(sessions[id := p], participants + {p}, members + {id})
  {
    var t := sessions[id := p];
    forall q | q in participants + {p} ensures exists k :: k in t && t[k] == q {
      if q == p {
        assert t[id] == q;
      } else {
        var k :| k in sessions && sessions[k] == q;
        assert t[k] == q;
      }
    }
  }

  lemma OneLessPresent(
    sessions: map<C.Id, ChatPeer>, participants: set<ChatPeer>, members: set<C.Id>, id: C.Id, footprint: set<object>)
    requires Present(sessions, participants, members) && Apart(sessions, footprint) && id in sessions
    ensures Present(sessions, participants - {sessions[id]}, members - {id})
  {
    forall k | k in sessions && k != id ensures sessions[k] != sessions[id] {
      assert sessions[k] in Parts(sessions[k]);
    }
  }

  /** participants_ and recent_msgs_, and as history the sessions that handlers keep alive. */
  class ChatRoom {
    var participants: set<ChatPeer>
    var recentMsgs: seq<Frame>

    ghost var sessions: map<C.Id, ChatPeer>
    ghost var model: C.Room
    ghost var footprint: set<object>

    ghost predicate Shows(id: C.Id)
      requires id in sessions && id in model.sessions
      reads `sessions, `model, sessions[id], sessions[id].readMsg, sessions[id].readMsg.data
    {
      var p, s := sessions[id], model.sessions[id];
      p.Writing() && p.Reading() && p.writer == s.writer && p.reader == s.reader
    }

    twostate lemma StillShows(id: C.Id)
      requires id in old(sessions) && id in old(model.sessions) && old(Shows(id))
      requires id in sessions && sessions[id] == old(sessions[id])
      requires id in model.sessions && model.sessions[id] == old(model.sessions[id])
      requires unchanged(Parts(sessions[id]))
      ensures Shows(id)
    {
    }

    ghost predicate Valid()
      reads this, footprint
    {
      && C.Inv(model)
      && model.recent == recentMsgs
      && model.sessions.Keys == sessions.Keys
      && Present(sessions, participants, model.members)
      && Apart(sessions, footprint) && this !in footprint
      && (forall id | id in sessions :: Shows(id))
    }

    lemma Unfold()
      requires Valid()
      ensures model.recent == recentMsgs && this !in footprint
    {
    }

    lemma Open(id: C.Id)
      requires Valid() && id in model.sessions
      ensures id in sessions && Shows(id) && (sessions[id] in participants <==> id in model.members)
      ensures this !in footprint && Parts(sessions[id]) <= footprint
      ensures model.sessions.Keys == sessions.Keys
    {
    }

    /** A handler that changes no session but its own. */
    twostate lemma OnlyOne(e: C.Event)
      requires old(Valid())
      requires C.Enabled(old(model), e) && !e.Accept?
      requires e.ReadDone? ==>
        R.Step(CHAT_FORMAT, old(model).sessions[e.id].reader, R.Done).frames == old(model).sessions[e.id].reader.frames
      requires model == C.Step(old(model), e) && sessions == old(sessions) && recentMsgs == old(recentMsgs)
      requires footprint == old(footprint) && unchanged(footprint - Parts(sessions[e.id]))
      requires e.id in model.sessions && Shows(e.id)
      requires participants == if e.id in model.members then old(participants) else old(participants) - {sessions[e.id]}
      ensures Valid()
    {
      hide C.Inv, C.Step, C.Enabled, Shows, Present, Apart;
      C.StepKeepsInv(old(model), e);
      OwnShape(old(model), e);
      if e.id !in model.members {
        OneLessPresent(sessions, old(participants), old(model).members, e.id, footprint);
        assert old(model).members - {e.id} == model.members;
      }
      forall k | k in sessions && k != e.id ensures Shows(k) {
        assert old(Shows(k));
        PartsApart(sessions, footprint, k, e.id);
        assert Parts(sessions[k]) <= footprint - Parts(sessions[e.id]);
        StillShows(k);
      }
    }

    /** A new session touches no other. */
    twostate lemma OneMore(id: C.Id, new p: ChatPeer)
      requires old(Valid())
      requires C.Enabled(old(model), C.Accept(id)) && sessions == old(sessions)[id := p]
      requires model == C.Step(old(model), C.Accept(id)) && recentMsgs == old(recentMsgs)
      requires fresh(Parts(p)) && footprint == old(footprint) + Parts(p) && unchanged(old(footprint))
      requires id in model.sessions && Shows(id)
      requires participants == old(participants) + {p}
      ensures Valid()
    {
      hide C.Inv, C.Step, C.Enabled, Shows, Present, Apart;
      C.StepKeepsInv(old(model), C.Accept(id));
      AcceptShape(old(model), id);
      OneMoreApart(old(sessions), old(footprint), id, p);
      forall k | k in old(sessions) ensures Shows(k) && sessions[k] != p {
        assert old(Shows(k));
        PartsApart(old(sessions), old(footprint), k, k);
        StillShows(k);
      }
      OneMorePresent(old(sessions), old(participants), old(model).members, id, p);
    }

    constructor ()
      ensures Valid() && model == C.EMPTY && sessions == map[]
    {
      participants, recentMsgs := {}, [];
      sessions, model, footprint := map[], C.EMPTY, {};
    }

    method Join(p: ChatPeer)
      requires p.Writing()
      modifies `participants, p`writer, p`writeMsgs, p`submitted, p`ops
      ensures participants == old(participants) + {p}
      ensures p.Writing() && p.writer == C.OfferAll(old(p.writer), recentMsgs)
    {
      hide W.Step;
      participants := participants + {p};
      var i := 0;
      while i < |recentMsgs|
        modifies p`writer, p`writeMsgs, p`submitted, p`ops
        invariant 0 <= i <= |recentMsgs|
        invariant p.Writing()
        invariant C.OfferAll(p.writer, recentMsgs[i..]) == C.OfferAll(old(p.writer), recentMsgs)
      {
        assert recentMsgs[i..][1..] == recentMsgs[i + 1..];
        p.Deliver(recentMsgs[i]);
        i := i + 1;
      }
    }

    method Leave(p: ChatPeer)
      modifies `participants
      ensures participants == old(participants) - {p}
    {
      participants := participants - {p};
    }

    method Deliver(f: Frame)
      requires forall p | p in participants :: p.Writing()
      modifies `recentMsgs, participants`writer, participants`writeMsgs, participants`submitted, participants`ops
      ensures recentMsgs == C.Trimmed(old(recentMsgs) + [f])
      ensures forall p | p in participants ::
                && p.Writing() && p.writer == W.Step(old(p.writer), W.Offer(C.Job(f)))
                && p.writeMsgs == old(p.writeMsgs) + [f]
    {
      hide W.Step, ChatPeer.Writing;
      recentMsgs := recentMsgs + [f];
      while |recentMsgs| > C.MAX_RECENT_MSGS
        modifies `recentMsgs
        invariant C.Trimmed(recentMsgs) == C.Trimmed(old(recentMsgs) + [f])
        decreases |recentMsgs|
      {
        recentMsgs := recentMsgs[1..];
      }
      var rest := participants;
      while rest != {}
        modifies participants`writer, participants`writeMsgs, participants`submitted, participants`ops
        invariant rest <= participants
        invariant forall p | p in participants :: p.Writing()
        invariant forall p | p in rest :: p.writer == old(p.writer) && p.writeMsgs == old(p.writeMsgs)
        invariant forall p | p in participants - rest ::
                    && p.writer == W.Step(old(p.writer), W.Offer(C.Job(f)))
                    && p.writeMsgs == old(p.writeMsgs) + [f]
        decreases |rest|
      {
        var p :| p in rest;
        p.Deliver(f);
        rest := rest - {p};
      }
    }

    // ---------- Handlers, each one step of the room machine ----------

    /** A new session, and chat_session::start. */
    method Start() returns (p: ChatPeer)
      requires R.Enabled(CHAT_FORMAT, R.FRESH, R.StartHeader)
      modifies `participants
      ensures fresh(p) && fresh(p.readMsg) && fresh(p.readMsg.data) && participants == old(participants) + {p}
      ensures p.Writing() && p.writer == C.OfferAll(W.FRESH, recentMsgs)
      ensures p.Reading() && p.reader == R.Step(CHAT_FORMAT, R.FRESH, R.StartHeader)
    {
      hide *;
      p := new ChatPeer();
      Join(p);
      p.StartReading();
    }

    /** The accept handler, without error. */
    method Accept(ghost id: C.Id) returns (p: ChatPeer)
      requires Valid() && C.Enabled(model, C.Accept(id))
      modifies this
      ensures Valid() && model == C.Step(old(model), C.Accept(id))
      ensures fresh(footprint - old(footprint)) && sessions == old(sessions)[id := p]
      ensures fresh(p) && participants == old(participants) + {p} && recentMsgs == old(recentMsgs)
    {
      hide Valid, C.Inv, C.Step, C.Enabled, C.OfferAll, C.Leave, C.Join, C.StepRead, W.Step, R.Step, R.Enabled;
      hide ChatPeer.Writing, ChatPeer.Reading, Present, Apart, WriteMatches, ReadMatches;
      AcceptShape(model, id);
      assert model.recent == recentMsgs && this !in footprint by { Unfold(); }
      p := Start();
      sessions, footprint := sessions[id := p], footprint + Parts(p);
      model := C.Step(model, C.Accept(id));
      OneMore(id, p);
    }

    method Transfer(ghost id: C.Id, p: ChatPeer, n: nat)
      requires Valid() && C.Enabled(model, C.Transfer(id, n)) && sessions[id] == p
      modifies `model, p
      ensures Valid() && model == C.Step(old(model), C.Transfer(id, n)) && sessions == old(sessions)
    {
      hide Valid, C.Inv, C.Step, W.Step, W.Enabled, R.Step, ChatPeer.Writing, ChatPeer.Reading;
      Open(id);
      OwnShape(model, C.Transfer(id, n));
      p.Transfer(n);
      model := C.Step(model, C.Transfer(id, n));
      OnlyOne(C.Transfer(id, n));
    }

    /** The handler of do_write, without error. */
    method OnWritten(ghost id: C.Id, p: ChatPeer, i: nat)
      requires Valid() && C.Enabled(model, C.Written(id, i)) && sessions[id] == p
      modifies `model, p
      ensures Valid() && model == C.Step(old(model), C.Written(id, i)) && sessions == old(sessions)
    {
      hide Valid, C.Inv, C.Step, W.Step, W.Enabled, R.Step, ChatPeer.Writing, ChatPeer.Reading;
      Open(id);
      OwnShape(model, C.Written(id, i));
      p.OnWritten(i);
      model := C.Step(model, C.Written(id, i));
      OnlyOne(C.Written(id, i));
    }

    /** The handler of do_write, with an error. */
    method OnWriteError(ghost id: C.Id, p: ChatPeer, i: nat)
      requires Valid() && C.Enabled(model, C.WriteError(id, i)) && sessions[id] == p
      modifies `model, `participants, p
      ensures Valid() && model == C.Step(old(model), C.WriteError(id, i)) && sessions == old(sessions)
      ensures participants == old(participants) - {p}
    {
      hide Valid, C.Inv, C.Step, W.Step, W.Enabled, R.Step, ChatPeer.Writing, ChatPeer.Reading;
      Open(id);
      OwnShape(model, C.WriteError(id, i));
      p.OnWriteError(i);
      Leave(p);
      model := C.Step(model, C.WriteError(id, i));
      OnlyOne(C.WriteError(id, i));
    }

    method Arrive(ghost id: C.Id, p: ChatPeer, chunk: seq<byte>)
      requires Valid() && C.Enabled(model, C.Arrive(id, chunk)) && sessions[id] == p
      modifies `model, p, p.readMsg.data
      ensures Valid() && model == C.Step(old(model), C.Arrive(id, chunk)) && sessions == old(sessions)
    {
      hide Valid, C.Inv, C.Step, W.Step, R.Step, R.Enabled, ChatPeer.Writing, ChatPeer.Reading;
      Open(id);
      OwnShape(model, C.Arrive(id, chunk));
      p.Arrive(chunk);
      model := C.Step(model, C.Arrive(id, chunk));
      OnlyOne(C.Arrive(id, chunk));
    }

    /** The handler of do_read_header, without error. */
    method OnHeaderRead(ghost id: C.Id, p: ChatPeer)
      requires Valid() && C.Enabled(model, C.ReadDone(id)) && sessions[id] == p && p.phase.Header?
      modifies `model, `participants, p, p.readMsg
      ensures Valid() && model == C.Step(old(model), C.ReadDone(id)) && sessions == old(sessions)
      ensures participants == if p.phase.Idle? then old(participants) - {p} else old(participants)
    {
      hide Valid, C.Inv, C.Step, W.Step, R.Step, ChatPeer.Writing, ChatPeer.Reading;
      Open(id);
      var ok := p.OnHeaderRead();
      OwnShape(model, C.ReadDone(id));
      if !ok {
        Leave(p);
      }
      model := C.Step(model, C.ReadDone(id));
      assert ok <==> !p.reader.phase.Idle? by { PhaseShown(p); }
      OnlyOne(C.ReadDone(id));
    }

    /** The handlers of do_read_header and do_read_body, with an error. */
    method OnReadError(ghost id: C.Id, p: ChatPeer)
      requires Valid() && C.Enabled(model, C.ReadError(id)) && sessions[id] == p
      modifies `model, `participants, p
      ensures Valid() && model == C.Step(old(model), C.ReadError(id)) && sessions == old(sessions)
      ensures participants == old(participants) - {p}
    {
      hide Valid, C.Inv, C.Step, W.Step, R.Step, R.Enabled, ChatPeer.Writing, ChatPeer.Reading;
      Open(id);
      OwnShape(model, C.ReadError(id));
      p.OnReadError();
      Leave(p);
      model := C.Step(model, C.ReadError(id));
      OnlyOne(C.ReadError(id));
    }

    /** Session k after a broadcast of what session id has read. */
    ghost predicate Heard(was: C.Room, id: C.Id, f: Frame, k: C.Id)
      requires k in sessions
      reads `sessions, sessions[k], sessions[k].readMsg, sessions[k].readMsg.data
    {
      && C.Enabled(was, C.ReadDone(id)) && k in was.sessions
      && var p := sessions[k];
      && p.Writing() && p.Reading()
      && p.writer == C.Handed(was.sessions[k], k in was.members, f).writer
      && p.reader == if k == id then ReadOn(was, id) else was.sessions[k].reader
    }

    twostate lemma Hears(new id: C.Id, new f: Frame, new k: C.Id, p: ChatPeer)
      requires old(Valid())
      requires C.Enabled(old(model), C.ReadDone(id))
      requires k in old(sessions) && sessions == old(sessions) && p == sessions[k]
      requires p in old(participants) ==> p.Writing() && p.writer == W.Step(old(p.writer), W.Offer(C.Job(f)))
      requires p !in old(participants) ==>
        && p.writer == old(p.writer) && p.writeMsgs == old(p.writeMsgs)
        && p.submitted == old(p.submitted) && p.ops == old(p.ops)
      requires p.moved == old(p.moved)
      requires k == id ==> p.Reading() && p.reader == ReadOn(old(model), id)
      requires k != id ==> p.reader == old(p.reader) && p.phase == old(p.phase) && p.filled == old(p.filled)
      requires p.readMsg.bodyLength == old(p.readMsg.bodyLength) && p.readMsg.data[..] == old(p.readMsg.data[..])
      ensures Heard(old(model), id, f, k)
    {
      hide C.Inv, W.Step, ReadOn, WriteMatches, ReadMatches, Apart;
      assert old(Shows(k));
    }

    twostate lemma AfterBroadcast(new id: C.Id, new f: Frame)
      requires C.Enabled(old(model), C.ReadDone(id))
      requires R.Step(CHAT_FORMAT, old(model).sessions[id].reader, R.Done).frames
            == old(model).sessions[id].reader.frames + [f]
      requires old(Valid())
      requires sessions == old(sessions) && participants == old(participants) && footprint == old(footprint)
      requires recentMsgs == C.Trimmed(old(recentMsgs) + [f]) && model == C.Step(old(model), C.ReadDone(id))
      requires forall k | k in sessions :: Heard(old(model), id, f, k)
      ensures Valid()
    {
      hide C.Inv, C.Step, C.Enabled, C.Trimmed, Present, Apart, ChatPeer.Writing, ChatPeer.Reading, C.Handed;
      C.StepKeepsInv(old(model), C.ReadDone(id));
      BodyShape(old(model), id, f);
      forall k | k in sessions ensures Shows(k) {
        assert Heard(old(model), id, f, k);
      }
    }

    /** The message goes to every participant, and its session reads on. */
    method Relay(ghost id: C.Id, p: ChatPeer, f: Frame)
      requires id in sessions && sessions[id] == p && id in model.sessions && C.Enabled(model, C.ReadDone(id))
      requires p.phase.Body? && R.Complete(CHAT_FORMAT, p.reader)
      requires ReadOn(model, id) == R.Step(CHAT_FORMAT, p.reader, R.Done)
      requires Valid() && p.Reading()
      modifies `recentMsgs, p, participants
      ensures recentMsgs == C.Trimmed(old(recentMsgs) + [f])
      ensures forall k | k in sessions :: Heard(model, id, f, k)
    {
      hide *;
      Open(id);
      AllWriting();
      Deliver(f);
      p.ReadNext();
      forall k | k in sessions ensures Heard(model, id, f, k) {
        Alone(id, k);
        Hears(id, f, k, sessions[k]);
      }
    }

    /** The handler of do_read_body, without error. */
    method OnBodyRead(ghost id: C.Id, p: ChatPeer)
      requires Valid() && C.Enabled(model, C.ReadDone(id)) && sessions[id] == p && p.phase.Body?
      modifies `model, `recentMsgs, p, participants
      ensures Valid() && model == C.Step(old(model), C.ReadDone(id)) && sessions == old(sessions)
    {
      hide Valid, C.Inv, C.Step, C.Trimmed, W.Step, R.Step, ChatPeer.Writing, ReadMatches, Heard;
      Open(id);
      p.BodyComplete();
      var f := p.readMsg.Contents();
      Relay(id, p, f);
      model := C.Step(model, C.ReadDone(id));
      AfterBroadcast(id, f);
    }

    twostate lemma Alone(new id: C.Id, new k: C.Id)
      requires old(Valid())
      requires id in old(sessions) && k in old(sessions)
      ensures k != id ==> old(sessions)[k] != old(sessions)[id]
    {
      assert old(sessions)[k] in Parts(old(sessions)[k]);
    }

    lemma AllWriting()
      requires Valid()
      ensures forall p | p in participants :: p.Writing()
    {
      forall p | p in participants ensures p.Writing() {
        var id :| id in sessions && sessions[id] == p;
        assert Shows(id);
      }
    }
  }

  // ---------- The client ----------

  function BodyOf(f: Frame): seq<byte> {
    if |f| < HEADER_LENGTH then [] else f[HEADER_LENGTH..]
  }

  /** What was encoded is what is shown. */
  lemma ShownIsEncoded(body: seq<byte>)
    requires |body| <= 512
    ensures BodyOf(Encoded(body)) == body
  {
    EncodedIsFrame(body);
  }

  /** What the client prints for the frames it has read. */
  function Bodies(fs: seq<Frame>): (bodies: seq<seq<byte>>)
    ensures |bodies| == |fs|
  {
    seq(|fs|, i requires 0 <= i < |fs| => BodyOf(fs[i]))
  }

  /** posted holds the closures of write that have not run; written is history. */
  class ChatClient {
    const peer: ChatPeer
    var open: bool
    var posted: seq<Frame>
    var shown: seq<seq<byte>>

    ghost var written: seq<Frame>

    /** Nothing written is lost or reordered, and what is shown is what was read. */
    ghost predicate Valid()
      reads this, peer, peer.readMsg, peer.readMsg.data
    {
      && peer.Writing() && peer.Reading()
      && C.Jobs(written) == W.Accepted(peer.writer) + C.Jobs(posted)
      && shown == Bodies(peer.reader.frames)
    }

    constructor ()
      ensures Valid() && open && written == [] && shown == []
      ensures peer.writer == W.FRESH && peer.reader == R.FRESH
    {
      hide ChatPeer.Writing, ChatPeer.Reading;
      peer := new ChatPeer();
      open, posted, shown, written := true, [], [], [];
    }

    /** write posts a closure and returns. */
    method Write(f: Frame)
      requires Valid()
      modifies `posted, `written
      ensures Valid() && written == old(written) + [f]
    {
      hide ChatPeer.Writing, ChatPeer.Reading, W.Accepted;
      assert C.Jobs(written + [f]) == C.Jobs(written) + [C.Job(f)];
      assert C.Jobs(posted + [f]) == C.Jobs(posted) + [C.Job(f)];
      posted, written := posted + [f], written + [f];
    }

    /** The closure posted by write. */
    method RunPosted()
      requires Valid() && posted != []
      modifies `posted, peer
      ensures Valid() && posted == old(posted)[1..]
      ensures peer.writer == W.Step(old(peer.writer), W.Offer(C.Job(old(posted)[0])))
    {
      hide ChatPeer.Writing, ChatPeer.Reading, W.Accepted, W.Step;
      var f := posted[0];
      assert C.Jobs(posted) == [C.Job(f)] + C.Jobs(posted[1..]);
      PeerPump(peer, W.Offer(C.Job(f)));
      peer.Deliver(f);
      posted := posted[1..];
    }

    method OnWritten(i: nat)
      requires Valid() && W.Enabled(peer.writer, W.Written(i))
      modifies peer
      ensures Valid() && peer.writer == W.Step(old(peer.writer), W.Written(i))
    {
      hide ChatPeer.Writing, ChatPeer.Reading, W.Accepted, W.Step;
      PeerPump(peer, W.Written(i));
      peer.OnWritten(i);
    }

    method OnWriteError(i: nat)
      requires Valid() && W.Enabled(peer.writer, W.WriteError(i))
      modifies `open, peer
      ensures Valid() && !open && peer.writer == W.Step(old(peer.writer), W.WriteError(i))
    {
      hide ChatPeer.Writing, ChatPeer.Reading, W.Accepted, W.Step;
      PeerPump(peer, W.WriteError(i));
      peer.OnWriteError(i);
      open := false;
    }

    method Transfer(n: nat)
      requires Valid() && W.Enabled(peer.writer, W.Transfer(n))
      modifies peer
      ensures Valid() && peer.writer == W.Step(old(peer.writer), W.Transfer(n))
    {
      hide ChatPeer.Writing, ChatPeer.Reading, W.Accepted, W.Step;
      PeerPump(peer, W.Transfer(n));
      peer.Transfer(n);
    }

    /** The successful end of handle_connect. */
    method OnConnected()
      requires Valid() && R.Enabled(CHAT_FORMAT, peer.reader, R.StartHeader)
      modifies peer
      ensures Valid() && peer.reader == R.Step(CHAT_FORMAT, old(peer.reader), R.StartHeader)
    {
      peer.StartReading();
    }

    method Arrive(chunk: seq<byte>)
      requires Valid() && R.Enabled(CHAT_FORMAT, peer.reader, R.Arrive(chunk))
      modifies peer, peer.readMsg.data
      ensures Valid() && peer.reader == R.Step(CHAT_FORMAT, old(peer.reader), R.Arrive(chunk))
    {
      hide ChatPeer.Writing, ReadMatches;
      peer.Arrive(chunk);
    }

    method OnHeaderRead()
      requires Valid() && peer.phase.Header? && R.Enabled(CHAT_FORMAT, peer.reader, R.Done)
      modifies `open, peer, peer.readMsg
      ensures Valid() && peer.reader == R.Step(CHAT_FORMAT, old(peer.reader), R.Done)
      ensures open == (old(open) && !peer.reader.phase.Idle?)
    {
      hide ChatPeer.Writing, ChatPeer.Reading, R.Step;
      var ok := peer.OnHeaderRead();
      PhaseShown(peer);
      if !ok {
        open := false;
      }
    }

    /** The body is written to standard output. */
    method OnBodyRead()
      requires Valid() && peer.phase.Body? && R.Enabled(CHAT_FORMAT, peer.reader, R.Done)
      modifies `shown, peer
      ensures Valid() && peer.reader == R.Step(CHAT_FORMAT, old(peer.reader), R.Done)
      ensures shown == old(shown) + [peer.readMsg.data[4..4 + peer.readMsg.bodyLength]]
    {
      hide ChatPeer.Writing, ReadMatches, R.Step;
      peer.BodyComplete();
      var body := peer.readMsg.data[HEADER_LENGTH..HEADER_LENGTH + peer.readMsg.bodyLength];
      assert body == BodyOf(peer.readMsg.Contents());
      shown := shown + [body];
      peer.ReadNext();
    }

    method OnReadError()
      requires Valid() && R.Enabled(CHAT_FORMAT, peer.reader, R.ReadError)
      modifies `open, peer
      ensures Valid() && !open && peer.reader == R.Step(CHAT_FORMAT, old(peer.reader), R.ReadError)
    {
      hide ChatPeer.Writing, ReadMatches;
      peer.OnReadError();
      open := false;
    }
  }

  lemma PeerPump(p: ChatPeer, e: W.Event)
    requires p.Writing() && W.Enabled(p.writer, e) && !e.Inject?
    ensures W.Accepted(W.Step(p.writer, e)) == W.Accepted(p.writer) + W.Offered(e)
  {
    hide W.Step, W.Accepted;
    C.PumpStepKeepsInv(p.writer, e);
  }

  /** Whatever a client shows, the room sent it: the bodies of its slice of the log, in order. */
  lemma ShownIsSlice(es: seq<C.Event>, room: C.Room, id: C.Id, client: ChatClient)
    requires C.Run(C.EMPTY, es, room) && id in room.sessions && client.Valid()
    requires var w := room.sessions[id].writer;
             w.moved <= |w.submitted| && client.peer.reader.consumed <= W.Produced(w)
    ensures var s := room.sessions[id];
            && C.First(s.joined) <= C.Last(s, |room.log|) <= |room.log|
            && client.shown <= Bodies(room.log[C.First(s.joined)..C.Last(s, |room.log|)])
  {
    C.ClientSeesSlice(es, room, id, client.peer.reader);
  }

  /** What the room has accepted from a client is what that client wrote first. */
  lemma WrittenReachesRoom(es: seq<C.Event>, room: C.Room, id: C.Id, client: ChatClient)
    requires C.Run(C.EMPTY, es, room) && id in room.sessions && client.Valid()
    requires AllFrames(CHAT_FORMAT, client.written)
    requires var w := client.peer.writer;
             w.moved <= |w.submitted| && room.sessions[id].reader.consumed <= W.Produced(w)
    ensures |room.log| == |room.origin| && C.From(room.log, room.origin, id) <= client.written
  {
    var begun := client.written[..|client.written| - |client.posted|];
    assert C.Jobs(begun) == C.Jobs(client.written)[..|begun|];
    assert W.Accepted(client.peer.writer) == C.Jobs(begun);
    C.ClientReachesRoom(es, room, id, client.peer.writer, begun);
  }
}
