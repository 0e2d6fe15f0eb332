/**
  The chat room and its sessions, as a machine whose steps are the accept handler, the
  sessions' completion handlers and the progress of their sockets.
 */
module ChatRooms {
  import opened Bytes
  import opened Framing
  import opened ChatMessages
  import Link
  import W = WritePump
  import R = FrameReader

  const MAX_RECENT_MSGS: nat := 100

  type Id = nat

  /** joined and left are history: the length of the log when the session did so. */
  datatype Session = Session(writer: W.Writer, reader: R.Reader, joined: nat, left: Option<nat>)

  /** log, with the session each message came from, is history: everything the room has delivered. */
  datatype Room = Room(
    members: set<Id>,
    recent: seq<Frame>,
    sessions: map<Id, Session>,
    log: seq<Frame>,
    origin: seq<Id>)

  const EMPTY := Room({}, [], map[], [], [])

  datatype Event =
    | Accept(id: Id)
    | Transfer(id: Id, n: nat)
    | Written(id: Id, i: nat)
    | WriteError(id: Id, i: nat)
    | Arrive(id: Id, chunk: seq<byte>)
    | ReadDone(id: Id)
    | ReadError(id: Id)

  predicate Enabled(room: Room, e: Event) {
    if e.Accept? then e.id !in room.sessions
    else
      && e.id in room.sessions
      && var s := room.sessions[e.id];
         match e
         case Transfer(_, n) => W.Enabled(s.writer, W.Transfer(n))
         case Written(_, i) => W.Enabled(s.writer, W.Written(i))
         case WriteError(_, i) => W.Enabled(s.writer, W.WriteError(i))
         case Arrive(_, chunk) => R.Enabled(CHAT_FORMAT, s.reader, R.Arrive(chunk))
         case ReadDone(_) => R.Enabled(CHAT_FORMAT, s.reader, R.Done)
         case ReadError(_) => R.Enabled(CHAT_FORMAT, s.reader, R.ReadError)
  }

  /** A chat message is written from one buffer. */
  function Job(f: Frame): W.Job {
    [f]
  }

  function Jobs(fs: seq<Frame>): (js: seq<W.Job>)
    ensures |js| == |fs|
  {
    seq(|fs|, i requires 0 <= i < |fs| => Job(fs[i]))
  }

  /** chat_session::deliver, once for each message. */
  function OfferAll(w: W.Writer, fs: seq<Frame>): W.Writer
    decreases |fs|
  {
    if fs == [] then w else OfferAll(W.Step(w, W.Offer(Job(fs[0]))), fs[1..])
  }

  /** The trimming loop of chat_room::deliver. */
  function Trimmed(fs: seq<Frame>): seq<Frame>
    decreases |fs|
  {
    if |fs| > MAX_RECENT_MSGS then Trimmed(fs[1..]) else fs
  }

  /** start: join, which replays the recent messages, then read. */
  function Join(room: Room, id: Id): Room {
    var s := Session(OfferAll(W.FRESH, room.recent), R.Step(CHAT_FORMAT, R.FRESH, R.StartHeader), |room.log|, None);
    room.(members := room.members + {id}, sessions := room.sessions[id := s])
  }

  function Leave(room: Room, id: Id): Room
    requires id in room.sessions
  {
    var s := room.sessions[id];
    room.(members := room.members - {id},
          sessions := room.sessions[id := s.(left := if s.left.None? then Some(|room.log|) else s.left)])
  }

  function Handed(s: Session, member: bool, f: Frame): Session {
    if member then s.(writer := W.Step(s.writer, W.Offer(Job(f)))) else s
  }

  /** chat_room::deliver of a message that session id has read. */
  function Deliver(room: Room, id: Id, f: Frame): Room {
    room.(recent := Trimmed(room.recent + [f]),
          sessions := map k | k in room.sessions :: Handed(room.sessions[k], k in room.members, f),
          log := room.log + [f],
          origin := room.origin + [id])
  }

  function WithWriter(room: Room, id: Id, w: W.Writer): Room
    requires id in room.sessions
  {
    room.(sessions := room.sessions[id := room.sessions[id].(writer := w)])
  }

  function WithReader(room: Room, id: Id, r: R.Reader): Room
    requires id in room.sessions
  {
    room.(sessions := room.sessions[id := room.sessions[id].(reader := r)])
  }

  function StepRead(room: Room, id: Id): Room
    requires id in room.sessions && R.Enabled(CHAT_FORMAT, room.sessions[id].reader, R.Done)
  {
    var before := room.sessions[id].reader;
    var after := R.Step(CHAT_FORMAT, before, R.Done);
    var room1 := WithReader(room, id, after);
    if |after.frames| > |before.frames| then Deliver(room1, id, after.frames[|after.frames| - 1])
    else if after.phase.Idle? then Leave(room1, id)  // the header was refused
    else room1
  }

  function Step(room: Room, e: Event): Room
    requires Enabled(room, e)
  {
    match e
    case Accept(id) => Join(room, id)
    case Transfer(id, n) => WithWriter(room, id, W.Step(room.sessions[id].writer, W.Transfer(n)))
    case Written(id, i) => WithWriter(room, id, W.Step(room.sessions[id].writer, W.Written(i)))
    case WriteError(id, i) => Leave(WithWriter(room, id, W.Step(room.sessions[id].writer, W.WriteError(i))), id)
    case Arrive(id, chunk) => WithReader(room, id, R.Step(CHAT_FORMAT, room.sessions[id].reader, R.Arrive(chunk)))
    case ReadDone(id) => StepRead(room, id)
    case ReadError(id) =>
      Leave(WithReader(room, id, R.Step(CHAT_FORMAT, room.sessions[id].reader, R.ReadError)), id)
  }

  // ---------- Invariant ----------

  /** Where a window of recent messages of a log of n messages begins. */
  function First(n: nat): nat {
    if n > MAX_RECENT_MSGS then n - MAX_RECENT_MSGS else 0
  }

  function Last(s: Session, n: nat): nat {
    if s.left.Some? then s.left.value else n
  }

  /** The messages of the log that came from one session. */
  function From(log: seq<Frame>, origin: seq<Id>, id: Id): seq<Frame>
    requires |log| == |origin|
  {
    if log == [] then []
    else
      var k := |log| - 1;
      From(log[..k], origin[..k], id) + (if origin[k] == id then [log[k]] else [])
  }

  ghost predicate PumpInv(w: W.Writer) {
    W.Inv(w) && w.prefix == [] && !w.Mixed()
  }

  ghost predicate LoopInv(r: R.Reader) {
    R.Inv(CHAT_FORMAT, r) && r.preamble == [] && !r.phase.Preamble?
  }

  /** A session has been handed one contiguous slice of the log, from its replay on. */
  ghost predicate SessionInv(log: seq<Frame>, s: Session) {
    && PumpInv(s.writer) && LoopInv(s.reader)
    && s.joined <= Last(s, |log|) <= |log|
    && W.Accepted(s.writer) == Jobs(log[First(s.joined)..Last(s, |log|)])
  }

  ghost predicate Inv(room: Room) {
    && |room.origin| == |room.log|
    && AllFrames(CHAT_FORMAT, room.log)
    && room.recent == room.log[First(|room.log|)..]
    && room.members <= room.sessions.Keys
    && (forall id | id in room.sessions ::
          && SessionInv(room.log, room.sessions[id])
          && (id in room.members <==> room.sessions[id].left.None?)
          && From(room.log, room.origin, id) == room.sessions[id].reader.frames)
    && (forall id | id in room.origin :: id in room.sessions)
  }

  // ---------- The steps keep it ----------

  lemma {:induction false} OfferAllKeepsInv(w: W.Writer, fs: seq<Frame>)
    requires PumpInv(w)
    ensures PumpInv(OfferAll(w, fs)) && W.Accepted(OfferAll(w, fs)) == W.Accepted(w) + Jobs(fs)
    decreases |fs|
  {
    hide W.Inv, W.Step, W.Accepted;
    if fs == [] {
      assert W.Accepted(w) + Jobs(fs) == W.Accepted(w);
    } else {
      W.StepKeepsInv(w, W.Offer(Job(fs[0])));
      OfferAllKeepsInv(W.Step(w, W.Offer(Job(fs[0]))), fs[1..]);
      assert Jobs(fs) == [Job(fs[0])] + Jobs(fs[1..]);
    }
  }

  lemma {:induction false} TrimmedIsSuffix(fs: seq<Frame>)
    ensures Trimmed(fs) == fs[First(|fs|)..]
    decreases |fs|
  {
    if |fs| > MAX_RECENT_MSGS {
      TrimmedIsSuffix(fs[1..]);
    }
  }

  /** The whole window moves on by one message. */
  lemma WindowMoves(log: seq<Frame>, f: Frame)
    ensures Trimmed(log[First(|log|)..] + [f]) == (log + [f])[First(|log| + 1)..]
  {
    TrimmedIsSuffix(log[First(|log|)..] + [f]);
  }

  lemma PumpStepKeepsInv(w: W.Writer, e: W.Event)
    requires PumpInv(w) && W.Enabled(w, e) && !e.Inject?
    ensures PumpInv(W.Step(w, e)) && W.Accepted(W.Step(w, e)) == W.Accepted(w) + W.Offered(e)
  {
    hide W.Inv, W.Step, W.Accepted;
    W.StepKeepsInv(w, e);
  }

  lemma LoopStepKeepsInv(r: R.Reader, e: R.Event)
    requires LoopInv(r) && R.Enabled(CHAT_FORMAT, r, e) && !e.StartPreamble?
    ensures var t := R.Step(CHAT_FORMAT, r, e);
            && LoopInv(t)
            && (t.frames == r.frames
                || (|t.frames| == |r.frames| + 1 && t.frames == r.frames + [t.frames[|r.frames|]]))
            && (!e.Done? ==> t.frames == r.frames)
  {
    hide R.Inv, R.Step;
    R.StepKeepsInv(CHAT_FORMAT, r, e);
    R.StepEffect(CHAT_FORMAT, r, e);
  }

  /** Replacing one session by another that has been handed the same messages and has read the same. */
  lemma ReplaceKeepsInv(room: Room, id: Id, s: Session)
    requires Inv(room) && id in room.sessions
    requires SessionInv(room.log, s) && s.left == room.sessions[id].left
    requires s.reader.frames == room.sessions[id].reader.frames
    ensures Inv(room.(sessions := room.sessions[id := s]))
  {
    hide SessionInv, From;
  }

  lemma LeaveKeepsInv(room: Room, id: Id)
    requires Inv(room) && id in room.sessions
    ensures Inv(Leave(room, id))
  {
    hide PumpInv, LoopInv, Jobs, From, W.Accepted;
    var s := room.sessions[id];
    assert SessionInv(room.log, s);
    assert SessionInv(room.log, s.(left := if s.left.None? then Some(|room.log|) else s.left));
  }

  lemma JoinKeepsInv(room: Room, id: Id)
    requires Inv(room) && id !in room.sessions
    ensures Inv(Join(room, id))
  {
    hide PumpInv, LoopInv, From, W.Accepted;
    FreshSession(room.recent);
    var s := Join(room, id).sessions[id];
    assert room.log[First(|room.log|)..|room.log|] == room.recent;
    assert SessionInv(room.log, s);
    NothingFrom(room.log, room.origin, id);
  }

  lemma FreshSession(recent: seq<Frame>)
    ensures PumpInv(OfferAll(W.FRESH, recent)) && W.Accepted(OfferAll(W.FRESH, recent)) == Jobs(recent)
    ensures LoopInv(R.Step(CHAT_FORMAT, R.FRESH, R.StartHeader))
    ensures R.Step(CHAT_FORMAT, R.FRESH, R.StartHeader).frames == []
  {
    W.FreshInv();
    assert W.Accepted(W.FRESH) == [];
    OfferAllKeepsInv(W.FRESH, recent);
    assert [] + Jobs(recent) == Jobs(recent);
    R.FreshInv(CHAT_FORMAT);
    R.StepKeepsInv(CHAT_FORMAT, R.FRESH, R.StartHeader);
  }

  lemma {:induction false} NothingFrom(log: seq<Frame>, origin: seq<Id>, id: Id)
    requires |log| == |origin| && id !in origin
    ensures From(log, origin, id) == []
  {
    if log != [] {
      var k := |log| - 1;
      NothingFrom(log[..k], origin[..k], id);
    }
  }

  lemma FromSnoc(log: seq<Frame>, origin: seq<Id>, f: Frame, o: Id, id: Id)
    requires |log| == |origin|
    ensures From(log + [f], origin + [o], id) == From(log, origin, id) + (if o == id then [f] else [])
  {
    assert (log + [f])[..|log|] == log && (origin + [o])[..|log|] == origin;
  }

  /** One more message in the log: members are handed it, others are not. */
  lemma HandedKeepsInv(log: seq<Frame>, s: Session, f: Frame)
    requires SessionInv(log, s)
    ensures SessionInv(log + [f], Handed(s, s.left.None?, f))
  {
    hide PumpInv, LoopInv, W.Accepted, W.Step;
    var t := Handed(s, s.left.None?, f);
    var first := First(s.joined);
    if s.left.None? {
      PumpStepKeepsInv(s.writer, W.Offer(Job(f)));
      assert (log + [f])[first..|log| + 1] == log[first..|log|] + [f];
      assert Jobs(log[first..|log|] + [f]) == Jobs(log[first..|log|]) + [Job(f)];
    } else {
      assert (log + [f])[first..Last(s, |log|)] == log[first..Last(s, |log|)];
    }
  }

  lemma DeliverKeepsSession(room: Room, id: Id, reader: R.Reader, f: Frame, k: Id)
    requires Inv(room) && id in room.sessions && k in room.sessions && LoopInv(reader)
    requires reader.frames == room.sessions[id].reader.frames + [f]
    ensures
      var s := WithReader(room, id, reader).sessions[k];
      var t := Handed(s, k in room.members, f);
      && SessionInv(room.log + [f], t) && t.left == s.left
      && From(room.log + [f], room.origin + [id], k) == t.reader.frames
  {
    hide PumpInv, LoopInv, W.Accepted, W.Step, From, Jobs;
    assert SessionInv(room.log, room.sessions[k]);
    var s := WithReader(room, id, reader).sessions[k];
    assert SessionInv(room.log, s);
    HandedKeepsInv(room.log, s, f);
    FromSnoc(room.log, room.origin, f, id, k);
  }

  lemma DeliverKeepsInv(room: Room, id: Id, reader: R.Reader, f: Frame)
    requires Inv(room) && id in room.sessions && IsFrame(CHAT_FORMAT, f) && LoopInv(reader)
    requires reader.frames == room.sessions[id].reader.frames + [f]
    ensures Inv(Deliver(WithReader(room, id, reader), id, f))
  {
    hide LoopInv, SessionInv, W.Step, From, Trimmed, Handed, First;
    var t := Deliver(WithReader(room, id, reader), id, f);
    WindowMoves(room.log, f);
    assert t.sessions.Keys == room.sessions.Keys;
    forall k | k in t.sessions
      ensures SessionInv(t.log, t.sessions[k])
      ensures k in t.members <==> t.sessions[k].left.None?
      ensures From(t.log, t.origin, k) == t.sessions[k].reader.frames
    {
      DeliverKeepsSession(room, id, reader, f, k);
    }
  }

  lemma ReadKeepsInv(room: Room, id: Id)
    requires Inv(room) && Enabled(room, ReadDone(id))
    ensures Inv(StepRead(room, id))
  {
    hide PumpInv, R.Step, R.Inv, W.Accepted, From, Deliver, Leave, Jobs;
    var s := room.sessions[id];
    assert SessionInv(room.log, s);
    LoopStepKeepsInv(s.reader, R.Done);
    var r := R.Step(CHAT_FORMAT, s.reader, R.Done);
    if |r.frames| > |s.reader.frames| {
      var f := r.frames[|r.frames| - 1];
      Link.AccountedFor(CHAT_FORMAT, r);
      assert f in r.frames;
      DeliverKeepsInv(room, id, r, f);
    } else {
      ReplaceKeepsInv(room, id, s.(reader := r));
      if r.phase.Idle? {
        LeaveKeepsInv(WithReader(room, id, r), id);
      }
    }
  }

  lemma WriterStep(room: Room, id: Id, we: W.Event)
    requires Inv(room) && id in room.sessions && W.Enabled(room.sessions[id].writer, we) && !we.Inject? && !we.Offer?
    ensures Inv(WithWriter(room, id, W.Step(room.sessions[id].writer, we)))
  {
    hide PumpInv, LoopInv, W.Step, W.Accepted, From, Jobs;
    var s := room.sessions[id];
    assert SessionInv(room.log, s);
    PumpStepKeepsInv(s.writer, we);
    assert W.Accepted(s.writer) + [] == W.Accepted(s.writer);
    ReplaceKeepsInv(room, id, s.(writer := W.Step(s.writer, we)));
  }

  lemma ReaderStep(room: Room, id: Id, re: R.Event)
    requires Inv(room) && id in room.sessions && R.Enabled(CHAT_FORMAT, room.sessions[id].reader, re)
    requires re.Arrive? || re.ReadError?
    ensures Inv(WithReader(room, id, R.Step(CHAT_FORMAT, room.sessions[id].reader, re)))
  {
    hide PumpInv, LoopInv, R.Step, W.Accepted, From, Jobs;
    var s := room.sessions[id];
    assert SessionInv(room.log, s);
    LoopStepKeepsInv(s.reader, re);
    ReplaceKeepsInv(room, id, s.(reader := R.Step(CHAT_FORMAT, s.reader, re)));
  }

  lemma StepKeepsInv(room: Room, e: Event)
    requires Inv(room) && Enabled(room, e)
    ensures Inv(Step(room, e))
  {
    hide Inv, Leave, Deliver, W.Step, R.Step;
    match e
    case Accept(id) => JoinKeepsInv(room, id);
    case Transfer(id, n) => WriterStep(room, id, W.Transfer(n));
    case Written(id, i) => WriterStep(room, id, W.Written(i));
    case WriteError(id, i) =>
      WriterStep(room, id, W.WriteError(i));
      LeaveKeepsInv(WithWriter(room, id, W.Step(room.sessions[id].writer, W.WriteError(i))), id);
    case Arrive(id, chunk) => ReaderStep(room, id, R.Arrive(chunk));
    case ReadDone(id) => ReadKeepsInv(room, id);
    case ReadError(id) =>
      ReaderStep(room, id, R.ReadError);
      LeaveKeepsInv(WithReader(room, id, R.Step(CHAT_FORMAT, room.sessions[id].reader, R.ReadError)), id);
  }

  // ---------- Every run ----------

  ghost predicate Run(room: Room, es: seq<Event>, t: Room)
    decreases |es|
  {
    if es == [] then t == room else Enabled(room, es[0]) && Run(Step(room, es[0]), es[1..], t)
  }

  lemma {:induction false} RunKeepsInv(room: Room, es: seq<Event>, t: Room)
    requires Inv(room) && Run(room, es, t)
    ensures Inv(t)
    decreases |es|
  {
    hide Inv, Step;
    if es != [] {
      StepKeepsInv(room, es[0]);
      RunKeepsInv(Step(room, es[0]), es[1..], t);
    }
  }

  /** Session id leaves in this step: an operation of its own has failed, or its header is refused. */
  predicate Departs(room: Room, e: Event, id: Id)
    requires Enabled(room, e) && id in room.sessions
  {
    && !e.Accept? && e.id == id
    && (e.WriteError? || e.ReadError?
        || (e.ReadDone? && room.sessions[id].reader.phase.Header? && DecodeLength(room.sessions[id].reader.got).None?))
  }

  /** What the step adds to the log: a complete body, with its header. */
  function Spoken(room: Room, e: Event): seq<Frame>
    requires Enabled(room, e)
  {
    if e.ReadDone? && room.sessions[e.id].reader.phase.Body?
    then [room.sessions[e.id].reader.header + room.sessions[e.id].reader.got] else []
  }

  /**
    Who is in the room, and since when.  A session comes in by being accepted, with the log as
    it then is, and goes out in the step in which an operation of its own fails or its header is
    refused, and in no other; and the log grows by complete messages only.
   */
  lemma Presence(room: Room, e: Event, id: Id)
    requires Inv(room) && Enabled(room, e)
    ensures Step(room, e).log == room.log + Spoken(room, e)
    ensures id in Step(room, e).sessions <==> id in room.sessions || e == Accept(id)
    ensures id in Step(room, e).members <==>
              e == Accept(id) || (id in room.members && !Departs(room, e, id))
    ensures e == Accept(id) ==> Step(room, e).sessions[id].joined == |room.log| && Step(room, e).sessions[id].left.None?
    ensures id in room.sessions ==>
              var s, t := room.sessions[id], Step(room, e).sessions[id];
              && t.joined == s.joined
              && t.left == if s.left.None? && Departs(room, e, id) then Some(|room.log|) else s.left
  {
    hide W.Step, W.Enabled, Trimmed, OfferAll, SessionInv, R.Step, StepRead, Departs;
    match e
    case ReadDone(k) => ReadPresence(room, k, id);
    case _ => OwnPresence(room, e, id);
  }

  lemma OwnPresence(room: Room, e: Event, id: Id)
    requires Inv(room) && Enabled(room, e) && !e.ReadDone?
    ensures Step(room, e).log == room.log
    ensures id in Step(room, e).sessions <==> id in room.sessions || e == Accept(id)
    ensures id in Step(room, e).members <==>
              e == Accept(id) || (id in room.members && !Departs(room, e, id))
    ensures e == Accept(id) ==> Step(room, e).sessions[id].joined == |room.log| && Step(room, e).sessions[id].left.None?
    ensures id in room.sessions ==>
              var s, t := room.sessions[id], Step(room, e).sessions[id];
              && t.joined == s.joined
              && t.left == if s.left.None? && Departs(room, e, id) then Some(|room.log|) else s.left
  {
    hide W.Step, Trimmed, OfferAll, SessionInv, R.Step, StepRead;
  }

  lemma ReadPresence(room: Room, k: Id, id: Id)
    requires Inv(room) && Enabled(room, ReadDone(k))
    ensures StepRead(room, k).log == room.log + Spoken(room, ReadDone(k))
    ensures id in StepRead(room, k).sessions <==> id in room.sessions
    ensures id in StepRead(room, k).members <==> id in room.members && !Departs(room, ReadDone(k), id)
    ensures id in room.sessions ==>
              var s, t := room.sessions[id], StepRead(room, k).sessions[id];
              && t.joined == s.joined
              && t.left == if s.left.None? && Departs(room, ReadDone(k), id) then Some(|room.log|) else s.left
  {
    hide Inv, LoopInv, W.Step, Trimmed, DecodeLength, R.Step, R.Enabled;
    ReadsOn(room, k);
    ReadOutcome(room.sessions[k].reader);
  }

  lemma ReadsOn(room: Room, k: Id)
    requires Inv(room) && Enabled(room, ReadDone(k))
    ensures LoopInv(room.sessions[k].reader) && R.Enabled(CHAT_FORMAT, room.sessions[k].reader, R.Done)
  {
    assert SessionInv(room.log, room.sessions[k]);
  }

  /** What the handler of a read has in hand. */
  lemma ReadOutcome(r: R.Reader)
    requires LoopInv(r) && R.Enabled(CHAT_FORMAT, r, R.Done)
    ensures
      var t := R.Step(CHAT_FORMAT, r, R.Done);
      if r.phase.Body? then |t.frames| == |r.frames| + 1 && t.frames[|r.frames|] == r.header + r.got
      else r.phase.Header? && t.frames == r.frames && (t.phase.Idle? <==> DecodeLength(r.got).None?)
  {
    hide DecodeLength;
  }

  /** What a session has been handed, by replay and by broadcast. */
  function HandedTo(s: Session): seq<W.Job> {
    W.Accepted(s.writer)
  }

  /**
    The room window: a participant has been handed exactly one contiguous slice of the room's
    log, from at most 100 messages before it joined until it left, or until now; so no two
    participants can disagree on the order of messages, and none sees a gap or a duplicate.
   */
  lemma RoomWindow(es: seq<Event>, room: Room, id: Id)
    requires Run(EMPTY, es, room) && id in room.sessions
    ensures var s := room.sessions[id];
            var from := if s.joined > 100 then s.joined - 100 else 0;
            var to := if s.left.Some? then s.left.value else |room.log|;
            && from <= s.joined <= to <= |room.log|
            && HandedTo(s) == Jobs(room.log[from..to])
            && (id in room.members <==> s.left.None?)
    ensures room.recent == room.log[if |room.log| > 100 then |room.log| - 100 else 0..]
  {
    RunKeepsInv(EMPTY, es, room);
    assert SessionInv(room.log, room.sessions[id]);
  }

  /**
    Relay transparency: of the room's log, the messages that came from a session are, byte for
    byte and in order, the frames it accepted, and these are what its stream parses to.
   */
  lemma RelayTransparent(es: seq<Event>, room: Room, id: Id)
    requires Run(EMPTY, es, room) && id in room.sessions
    ensures |room.log| == |room.origin|
    ensures var r := room.sessions[id].reader;
            && From(room.log, room.origin, id) == r.frames
            && r.frames <= Parse(CHAT_FORMAT, r.consumed).frames
            && (!r.phase.Idle? && !R.Complete(CHAT_FORMAT, r) ==>
                  From(room.log, room.origin, id) == Parse(CHAT_FORMAT, r.consumed).frames)
    ensures Parse(CHAT_FORMAT, Concat(room.log)) == Parsed(room.log, [], false)
  {
    hide PumpInv, Parse, Concat, From, Jobs;
    RunKeepsInv(EMPTY, es, room);
    var r := room.sessions[id].reader;
    assert SessionInv(room.log, room.sessions[id]);
    R.FramesArePrefix(CHAT_FORMAT, r);
    assert r.consumed[|r.preamble|..] == r.consumed;
    if !r.phase.Idle? && !R.Complete(CHAT_FORMAT, r) {
      R.ReaderParses(CHAT_FORMAT, r);
    }
    LogParses(room.log);
  }

  lemma LogParses(log: seq<Frame>)
    requires AllFrames(CHAT_FORMAT, log)
    ensures Parse(CHAT_FORMAT, Concat(log)) == Parsed(log, [], false)
  {
    ParseConcat(CHAT_FORMAT, log, []);
    assert Concat(log) + [] == Concat(log);
    assert Parse(CHAT_FORMAT, []) == Parsed([], [], false);
    assert log + [] == log;
  }

  /**
    From the room to a client's screen: whatever a client has read from its session's stream,
    in any chunking and with failures anywhere, is a prefix of that session's slice of the log.
   */
  lemma ClientSeesSlice(es: seq<Event>, room: Room, id: Id, client: R.Reader)
    requires Run(EMPTY, es, room) && id in room.sessions
    requires R.Inv(CHAT_FORMAT, client) && client.preamble == []
    requires var w := room.sessions[id].writer;
             w.moved <= |w.submitted| && client.consumed <= W.Produced(w)
    ensures var s := room.sessions[id];
            && First(s.joined) <= Last(s, |room.log|) <= |room.log|
            && client.frames <= room.log[First(s.joined)..Last(s, |room.log|)]
  {
    RunKeepsInv(EMPTY, es, room);
    var s := room.sessions[id];
    assert SessionInv(room.log, s);
    var slice := room.log[First(s.joined)..Last(s, |room.log|)];
    FlatJobs(slice);
    assert forall f | f in slice :: f in room.log;
    Link.FramesInOrder(CHAT_FORMAT, s.writer, client);
  }

  lemma FlatJobs(fs: seq<Frame>)
    ensures W.Flat(Jobs(fs)) == fs
  {
    forall i | 0 <= i < |fs| ensures W.Flat(Jobs(fs))[i] == fs[i] {
      assert Concat([fs[i]]) == fs[i] + Concat([]);
    }
  }

  /**
    From a client's write to the room: the frames a session accepts from a client's pump are
    the first ones that client wrote, so each appears in the log once and in order.
   */
  lemma ClientReachesRoom(es: seq<Event>, room: Room, id: Id, client: W.Writer, written: seq<Frame>)
    requires Run(EMPTY, es, room) && id in room.sessions
    requires PumpInv(client) && W.Accepted(client) == Jobs(written) && AllFrames(CHAT_FORMAT, written)
    requires client.moved <= |client.submitted| && room.sessions[id].reader.consumed <= W.Produced(client)
    ensures |room.log| == |room.origin| && From(room.log, room.origin, id) <= written
  {
    RunKeepsInv(EMPTY, es, room);
    assert SessionInv(room.log, room.sessions[id]);
    FlatJobs(written);
    Link.FramesInOrder(CHAT_FORMAT, client, room.sessions[id].reader);
  }

  /** The pump of every session: one write at a time, and none after one has failed. */
  lemma SessionPump(es: seq<Event>, room: Room, id: Id)
    requires Run(EMPTY, es, room) && id in room.sessions
    ensures var w := room.sessions[id].writer;
            && |w.ops| == (if w.queue != [] && !w.failed then 1 else 0)
            && (w.failed ==> w.queue != [])
  {
    RunKeepsInv(EMPTY, es, room);
    assert SessionInv(room.log, room.sessions[id]);
  }

  /** A session whose write has failed: nothing more is handed to its socket or leaves it. */
  ghost predicate Silent(room: Room, id: Id, submitted: seq<byte>, moved: nat) {
    && id in room.sessions
    && var w := room.sessions[id].writer;
       w.failed && w.queue != [] && w.ops == [] && w.submitted == submitted && w.moved == moved
  }

  lemma StepStaysSilent(room: Room, e: Event, id: Id, submitted: seq<byte>, moved: nat)
    requires Enabled(room, e) && Silent(room, id, submitted, moved)
    ensures Silent(Step(room, e), id, submitted, moved)
  {
    hide R.Step, R.Enabled, Trimmed, OfferAll;
    match e
    case ReadDone(k) => ReadStaysSilent(room, k, id, submitted, moved);
    case _ =>
  }

  lemma ReadStaysSilent(room: Room, k: Id, id: Id, submitted: seq<byte>, moved: nat)
    requires Enabled(room, ReadDone(k)) && Silent(room, id, submitted, moved)
    ensures Silent(StepRead(room, k), id, submitted, moved)
  {
    hide R.Step, Trimmed;
    var after := R.Step(CHAT_FORMAT, room.sessions[k].reader, R.Done);
    assert Silent(WithReader(room, k, after), id, submitted, moved);
  }

  /**
    After the first failed write of a session, on any continuation, whatever is delivered to
    it, no further message byte is written to its socket.
   */
  lemma {:induction false} SessionSilent(room: Room, es: seq<Event>, t: Room, id: Id)
    requires Inv(room) && Run(room, es, t) && id in room.sessions && room.sessions[id].writer.failed
    ensures Silent(t, id, room.sessions[id].writer.submitted, room.sessions[id].writer.moved)
    decreases |es|
  {
    assert SessionInv(room.log, room.sessions[id]);
    var w := room.sessions[id].writer;
    assert Silent(room, id, w.submitted, w.moved);
    SilentOn(room, es, t, id, w.submitted, w.moved);
  }

  lemma {:induction false} SilentOn(room: Room, es: seq<Event>, t: Room, id: Id, submitted: seq<byte>, moved: nat)
    requires Silent(room, id, submitted, moved) && Run(room, es, t)
    ensures Silent(t, id, submitted, moved)
    decreases |es|
  {
    hide Silent, Step, Enabled;
    if es != [] {
      StepStaysSilent(room, es[0], id, submitted, moved);
      SilentOn(Step(room, es[0]), es[1..], t, id, submitted, moved);
    }
  }
}
