/**
  The chat room, its clients and the byte wires between them: what a client writes reaches the
  room, and what the room delivers reaches every client's screen.
 */
module ChatNetwork {
  import opened Bytes
  import opened Framing
  import opened ChatMessages
  import C = ChatRooms
  import Link
  import W = WritePump
  import R = FrameReader

  /** posted holds the closures of write that have not run; written is history. */
  datatype Client = Client(writer: W.Writer, reader: R.Reader, posted: seq<Frame>, written: seq<Frame>)

  /** A connected client, the bytes on their way to it, and those on their way to its session. */
  datatype Wires = Wires(client: Client, down: seq<byte>, up: seq<byte>)

  datatype Net = Net(room: C.Room, wires: map<C.Id, Wires>)

  const EMPTY := Net(C.EMPTY, map[])

  datatype ClientEvent =
    | Write(f: Frame)           // the application calls write
    | RunPosted                 // the oldest closure posted by write
    | Pump(we: W.Event)         // bytes leave, or a write completes
    | Loop(re: R.Event)         // bytes arrive, or a read completes

  datatype Event =
    | AtRoom(e: C.Event)
    | AtClient(id: C.Id, ce: ClientEvent)

  predicate ClientEnabled(x: Wires, ce: ClientEvent) {
    match ce
    case Write(f) => IsFrame(CHAT_FORMAT, f)
    case RunPosted => x.client.posted != []
    case Pump(we) => !we.Offer? && !we.Inject? && W.Enabled(x.client.writer, we)
    case Loop(re) =>
      && (re.Arrive? || re.Done? || re.ReadError?)
      && R.Enabled(CHAT_FORMAT, x.client.reader, re)
      && R.Chunk(re) <= x.down
  }

  predicate Enabled(n: Net, e: Event) {
    match e
    case AtRoom(e) => C.Enabled(n.room, e) && (e.Arrive? ==> e.id in n.wires && e.chunk <= n.wires[e.id].up)
    case AtClient(id, ce) => id in n.wires && ClientEnabled(n.wires[id], ce)
  }

  /** The bytes that a pump step puts on the wire. */
  function Leaving(w: W.Writer, we: W.Event): seq<byte>
    requires W.Enabled(w, we)
  {
    if we.Transfer? then w.submitted[w.moved..w.moved + we.n] else []
  }

  function ClientStep(x: Wires, ce: ClientEvent): Wires
    requires ClientEnabled(x, ce)
  {
    var c := x.client;
    match ce
    case Write(f) => x.(client := c.(posted := c.posted + [f], written := c.written + [f]))
    case RunPosted =>
      x.(client := c.(writer := W.Step(c.writer, W.Offer(C.Job(c.posted[0]))), posted := c.posted[1..]))
    case Pump(we) =>
      x.(client := c.(writer := W.Step(c.writer, we)), up := x.up + Leaving(c.writer, we))
    case Loop(re) =>
      x.(client := c.(reader := R.Step(CHAT_FORMAT, c.reader, re)), down := x.down[|R.Chunk(re)|..])
  }

  /** A client that has just connected and reads its first header. */
  const CONNECTED := Wires(Client(W.FRESH, R.Step(CHAT_FORMAT, R.FRESH, R.StartHeader), [], []), [], [])

  function Step(n: Net, e: Event): Net
    requires Enabled(n, e)
  {
    match e
    case AtClient(id, ce) => n.(wires := n.wires[id := ClientStep(n.wires[id], ce)])
    case AtRoom(e) =>
      Net(C.Step(n.room, e),
          match e
          case Accept(id) => n.wires[id := CONNECTED]
          case Transfer(id, k) =>
            if id in n.wires then
              var x := n.wires[id];
              n.wires[id := x.(down := x.down + Leaving(n.room.sessions[id].writer, W.Transfer(k)))]
            else n.wires
          case Arrive(id, chunk) =>
            var x := n.wires[id];
            n.wires[id := x.(up := x.up[|chunk|..])]
          case _ => n.wires)
  }

  // ---------- Invariant ----------

  /** A wire carries what has left one end and has not arrived at the other. */
  ghost predicate Wired(w: W.Writer, wire: seq<byte>, r: R.Reader) {
    w.moved <= |w.submitted| && W.Produced(w) == r.consumed + wire
  }

  ghost predicate ClientInv(c: Client) {
    && C.PumpInv(c.writer) && C.LoopInv(c.reader)
    && W.Accepted(c.writer) + C.Jobs(c.posted) == C.Jobs(c.written)
    && AllFrames(CHAT_FORMAT, c.written)
  }

  ghost predicate WiresInv(s: C.Session, x: Wires) {
    && ClientInv(x.client)
    && Wired(s.writer, x.down, x.client.reader)
    && Wired(x.client.writer, x.up, s.reader)
  }

  ghost predicate Inv(n: Net) {
    && C.Inv(n.room)
    && n.wires.Keys == n.room.sessions.Keys
    && forall id | id in n.wires :: WiresInv(n.room.sessions[id], n.wires[id])
  }

  // ---------- Steps of a pump and of a read loop ----------

  lemma PumpStreams(w: W.Writer, we: W.Event)
    requires C.PumpInv(w) && W.Enabled(w, we) && !we.Inject?
    ensures w.moved <= |w.submitted| && W.Step(w, we).moved <= |W.Step(w, we).submitted|
    ensures W.Produced(W.Step(w, we)) == W.Produced(w) + Leaving(w, we)
  {
    hide W.Step, C.PumpInv, Leaving;
    PumpBounds(w);
    C.PumpStepKeepsInv(w, we);
    PumpBounds(W.Step(w, we));
    Left(w, we);
  }

  lemma Left(w: W.Writer, we: W.Event)
    requires W.Enabled(w, we) && w.moved <= |w.submitted| && W.Step(w, we).moved <= |W.Step(w, we).submitted|
    ensures W.Produced(W.Step(w, we)) == W.Produced(w) + Leaving(w, we)
  {
    var t := W.Step(w, we);
    assert t.submitted[..t.moved] == w.submitted[..w.moved] + Leaving(w, we);
  }

  lemma {:induction false} OfferAllStreams(w: W.Writer, fs: seq<Frame>)
    requires C.PumpInv(w)
    ensures C.PumpInv(C.OfferAll(w, fs)) && W.Produced(C.OfferAll(w, fs)) == W.Produced(w)
    decreases |fs|
  {
    hide C.PumpInv, W.Step, W.Produced;
    if fs == [] {
      PumpBounds(w);
      C.OfferAllKeepsInv(w, fs);
    } else {
      var e := W.Offer(C.Job(fs[0]));
      C.PumpStepKeepsInv(w, e);
      PumpStreams(w, e);
      OfferAllStreams(W.Step(w, e), fs[1..]);
    }
  }

  lemma PumpBounds(w: W.Writer)
    requires C.PumpInv(w)
    ensures w.moved <= |w.submitted|
  {
  }

  lemma LoopStreams(r: R.Reader, re: R.Event)
    requires R.Enabled(CHAT_FORMAT, r, re)
    ensures R.Step(CHAT_FORMAT, r, re).consumed == r.consumed + R.Chunk(re)
  {
    R.StepEffect(CHAT_FORMAT, r, re);
  }

  // ---------- Steps of a client ----------

  lemma WriteKeepsInv(s: C.Session, x: Wires, f: Frame)
    requires WiresInv(s, x) && ClientEnabled(x, Write(f))
    ensures WiresInv(s, ClientStep(x, Write(f)))
  {
    hide C.PumpInv, C.LoopInv, W.Step, R.Step, Wired, W.Accepted, C.Jobs;
    var c := x.client;
    JobsSnoc(c.posted, f);
    JobsSnoc(c.written, f);
    assert W.Accepted(c.writer) + (C.Jobs(c.posted) + [C.Job(f)]) == C.Jobs(c.written) + [C.Job(f)];
  }

  lemma PostedKeepsInv(s: C.Session, x: Wires)
    requires WiresInv(s, x) && ClientEnabled(x, RunPosted)
    ensures WiresInv(s, ClientStep(x, RunPosted))
  {
    hide C.PumpInv, C.LoopInv, W.Step, R.Step, W.Produced, W.Accepted, C.Jobs;
    var c := x.client;
    var e := W.Offer(C.Job(c.posted[0]));
    C.PumpStepKeepsInv(c.writer, e);
    PumpStreams(c.writer, e);
    JobsCons(c.posted);
    assert W.Accepted(c.writer) + ([C.Job(c.posted[0])] + C.Jobs(c.posted[1..]))
        == W.Accepted(c.writer) + [C.Job(c.posted[0])] + C.Jobs(c.posted[1..]);
  }

  lemma PumpKeepsInv(s: C.Session, x: Wires, we: W.Event)
    requires WiresInv(s, x) && ClientEnabled(x, Pump(we))
    ensures WiresInv(s, ClientStep(x, Pump(we)))
  {
    hide C.PumpInv, C.LoopInv, W.Step, R.Step, W.Produced, W.Accepted, C.Jobs, Leaving;
    var c := x.client;
    C.PumpStepKeepsInv(c.writer, we);
    PumpStreams(c.writer, we);
    assert W.Accepted(c.writer) + [] == W.Accepted(c.writer);
    assert s.reader.consumed + (x.up + Leaving(c.writer, we)) == s.reader.consumed + x.up + Leaving(c.writer, we);
  }

  lemma LoopKeepsInv(s: C.Session, x: Wires, re: R.Event)
    requires WiresInv(s, x) && ClientEnabled(x, Loop(re))
    ensures WiresInv(s, ClientStep(x, Loop(re)))
  {
    hide C.PumpInv, C.LoopInv, W.Step, R.Step, W.Produced, W.Accepted, C.Jobs;
    C.LoopStepKeepsInv(x.client.reader, re);
    LoopStreams(x.client.reader, re);
    assert x.down == R.Chunk(re) + x.down[|R.Chunk(re)|..];
  }

  lemma ClientStepKeepsInv(s: C.Session, x: Wires, ce: ClientEvent)
    requires WiresInv(s, x) && ClientEnabled(x, ce)
    ensures WiresInv(s, ClientStep(x, ce))
  {
    hide WiresInv, ClientEnabled, ClientStep;
    match ce
    case Write(f) => WriteKeepsInv(s, x, f);
    case RunPosted => PostedKeepsInv(s, x);
    case Pump(we) => PumpKeepsInv(s, x, we);
    case Loop(re) => LoopKeepsInv(s, x, re);
  }

  lemma JobsSnoc(fs: seq<Frame>, f: Frame)
    ensures C.Jobs(fs + [f]) == C.Jobs(fs) + [C.Job(f)]
  {
  }

  lemma JobsCons(fs: seq<Frame>)
    requires fs != []
    ensures C.Jobs(fs) == [C.Job(fs[0])] + C.Jobs(fs[1..])
  {
  }

  // ---------- Steps of the room ----------

  /** What leaves a session's host, and what arrives there. */
  function Departing(room: C.Room, e: C.Event, id: C.Id): seq<byte>
    requires C.Enabled(room, e) && id in room.sessions
  {
    if e.Transfer? && e.id == id then Leaving(room.sessions[id].writer, W.Transfer(e.n)) else []
  }

  function Arriving(e: C.Event, id: C.Id): seq<byte> {
    if e.Arrive? && e.id == id then e.chunk else []
  }

  /** What the room does for one session leaves the pump and the read loop of another alone. */
  lemma OtherUntouched(room: C.Room, e: C.Event, id: C.Id)
    requires C.Enabled(room, e) && id in room.sessions && !e.ReadDone? && (e.Accept? || e.id != id)
    ensures id in C.Step(room, e).sessions
    ensures C.Step(room, e).sessions[id].writer == room.sessions[id].writer
    ensures C.Step(room, e).sessions[id].reader == room.sessions[id].reader
  {
    hide W.Step, R.Step, C.Trimmed, C.OfferAll;
  }

  /** A step of a session other than its read handler, by what its pump or read loop does. */
  lemma OwnStep(room: C.Room, e: C.Event)
    requires C.Enabled(room, e) && !e.ReadDone? && !e.Accept?
    ensures e.id in C.Step(room, e).sessions
    ensures var s, t := room.sessions[e.id], C.Step(room, e).sessions[e.id];
            match e
            case Transfer(_, n) => t.writer == W.Step(s.writer, W.Transfer(n)) && t.reader == s.reader
            case Written(_, i) => t.writer == W.Step(s.writer, W.Written(i)) && t.reader == s.reader
            case WriteError(_, i) => t.writer == W.Step(s.writer, W.WriteError(i)) && t.reader == s.reader
            case Arrive(_, chunk) => t.reader == R.Step(CHAT_FORMAT, s.reader, R.Arrive(chunk)) && t.writer == s.writer
            case ReadError(_) => t.reader == R.Step(CHAT_FORMAT, s.reader, R.ReadError) && t.writer == s.writer
  {
    hide W.Step, R.Step, C.Trimmed, C.OfferAll;
  }

  lemma OwnStreams(room: C.Room, e: C.Event)
    requires C.Enabled(room, e) && !e.ReadDone? && !e.Accept? && C.PumpInv(room.sessions[e.id].writer)
    ensures e.id in C.Step(room, e).sessions
    ensures Moves(room.sessions[e.id], C.Step(room, e).sessions[e.id], Departing(room, e, e.id), Arriving(e, e.id))
  {
    var s := room.sessions[e.id];
    PumpBounds(s.writer);
    OwnStep(room, e);
    hide C.PumpInv, C.Step, W.Step, R.Step, W.Produced;
    assert W.Produced(s.writer) + [] == W.Produced(s.writer) && s.reader.consumed + [] == s.reader.consumed;
    match e
    case Transfer(_, n) => PumpStreams(s.writer, W.Transfer(n));
    case Written(_, i) => PumpStreams(s.writer, W.Written(i));
    case WriteError(_, i) => PumpStreams(s.writer, W.WriteError(i));
    case Arrive(_, chunk) => LoopStreams(s.reader, R.Arrive(chunk));
    case ReadError(_) => LoopStreams(s.reader, R.ReadError);
  }

  /** From s to t, these bytes have left and those have arrived. */
  ghost predicate Moves(s: C.Session, t: C.Session, out: seq<byte>, taken: seq<byte>) {
    && s.writer.moved <= |s.writer.submitted| && t.writer.moved <= |t.writer.submitted|
    && W.Produced(t.writer) == W.Produced(s.writer) + out
    && t.reader.consumed == s.reader.consumed + taken
  }

  lemma MovesNothing(s: C.Session, t: C.Session)
    requires C.PumpInv(s.writer) && t.writer == s.writer && t.reader == s.reader
    ensures Moves(s, t, [], [])
  {
  }

  /** Whatever the room does, a session's streams move only by its own Transfer and Arrive. */
  lemma RoomStreams(room: C.Room, e: C.Event, id: C.Id)
    requires C.Inv(room) && C.Enabled(room, e) && id in room.sessions
    ensures id in C.Step(room, e).sessions
    ensures Moves(room.sessions[id], C.Step(room, e).sessions[id], Departing(room, e, id), Arriving(e, id))
  {
    hide C.Inv, C.PumpInv, C.LoopInv, C.Step, Moves, C.StepRead;
    SessionOf(room, id);
    if e.ReadDone? {
      ReadStreams(room, e.id, id);
      ReadIsStep(room, e.id);
    } else if e.Accept? || e.id != id {
      OtherUntouched(room, e, id);
      MovesNothing(room.sessions[id], C.Step(room, e).sessions[id]);
    } else {
      OwnStreams(room, e);
    }
  }

  lemma ReadIsStep(room: C.Room, k: C.Id)
    requires C.Enabled(room, C.ReadDone(k))
    ensures C.Step(room, C.ReadDone(k)) == C.StepRead(room, k)
  {
    hide C.StepRead;
  }

  lemma SessionOf(room: C.Room, id: C.Id)
    requires C.Inv(room) && id in room.sessions
    ensures C.PumpInv(room.sessions[id].writer) && C.LoopInv(room.sessions[id].reader)
  {
    assert C.SessionInv(room.log, room.sessions[id]);
  }

  /** The handler of a read, of session k, seen from session id. */
  lemma ReadStreams(room: C.Room, k: C.Id, id: C.Id)
    requires C.Enabled(room, C.ReadDone(k)) && id in room.sessions && C.PumpInv(room.sessions[id].writer)
    ensures id in C.StepRead(room, k).sessions
    ensures Moves(room.sessions[id], C.StepRead(room, k).sessions[id], [], [])
  {
    hide C.PumpInv, W.Step, R.Step, W.Produced, C.Trimmed;
    var s := room.sessions[id];
    PumpBounds(s.writer);
    LoopStreams(room.sessions[k].reader, R.Done);
    assert forall r: R.Reader :: r.consumed + [] == r.consumed;
    assert W.Produced(s.writer) + [] == W.Produced(s.writer);
    var after := R.Step(CHAT_FORMAT, room.sessions[k].reader, R.Done);
    if |after.frames| > |room.sessions[k].reader.frames| {
      PumpStreams(s.writer, W.Offer(C.Job(after.frames[|after.frames| - 1])));
    }
  }

  /** The wires of a session that was there before. */
  lemma WiresShape(n: Net, e: C.Event, id: C.Id)
    requires Enabled(n, AtRoom(e)) && id in n.wires && id in n.room.sessions
    ensures var t, x := Step(n, AtRoom(e)), n.wires[id];
            && Arriving(e, id) <= x.up
            && id in t.wires
            && t.wires[id] == x.(down := x.down + Departing(n.room, e, id), up := x.up[|Arriving(e, id)|..])
            && t.room == C.Step(n.room, e)
  {
    hide C.Step, Leaving;
    assert n.wires[id].down + [] == n.wires[id].down;
  }

  lemma WiresGrow(n: Net, e: C.Event)
    requires Enabled(n, AtRoom(e)) && n.wires.Keys == n.room.sessions.Keys
    ensures Step(n, AtRoom(e)).wires.Keys == n.wires.Keys + (if e.Accept? then {e.id} else {})
    ensures e.Accept? ==> Step(n, AtRoom(e)).wires[e.id] == CONNECTED
  {
    hide C.Step, Leaving;
  }

  lemma RoomStepKeepsInv(n: Net, e: C.Event)
    requires Inv(n) && Enabled(n, AtRoom(e))
    ensures Inv(Step(n, AtRoom(e)))
  {
    hide C.Inv, C.Step, Step, WiresInv, Departing, Arriving, CONNECTED;
    C.StepKeepsInv(n.room, e);
    SessionsGrow(n.room, e);
    WiresGrow(n, e);
    var t := Step(n, AtRoom(e));
    assert t.room == C.Step(n.room, e) by { RoomSteps(n, e); }
    forall id | id in t.wires ensures WiresInv(t.room.sessions[id], t.wires[id]) {
      if id in n.wires {
        RoomStreams(n.room, e, id);
        WiresShape(n, e, id);
        Rewired(n.room.sessions[id], t.room.sessions[id], n.wires[id], Departing(n.room, e, id), Arriving(e, id));
      } else {
        Connects(n.room, e);
      }
    }
  }

  lemma RoomSteps(n: Net, e: C.Event)
    requires Enabled(n, AtRoom(e))
    ensures Step(n, AtRoom(e)).room == C.Step(n.room, e)
  {
    hide C.Step, Leaving;
  }

  lemma SessionsGrow(room: C.Room, e: C.Event)
    requires C.Enabled(room, e)
    ensures C.Step(room, e).sessions.Keys == room.sessions.Keys + (if e.Accept? then {e.id} else {})
  {
    hide W.Step, R.Step, C.Trimmed, C.OfferAll;
  }

  /** One session's wires after bytes have left and others have arrived. */
  lemma Rewired(s: C.Session, t: C.Session, x: Wires, out: seq<byte>, taken: seq<byte>)
    requires WiresInv(s, x) && taken <= x.up && Moves(s, t, out, taken)
    ensures WiresInv(t, x.(down := x.down + out, up := x.up[|taken|..]))
  {
    hide ClientInv, W.Produced;
    assert x.up == taken + x.up[|taken|..];
  }

  lemma Connects(room: C.Room, e: C.Event)
    requires C.Inv(room) && C.Enabled(room, e) && e.Accept?
    ensures WiresInv(C.Step(room, e).sessions[e.id], CONNECTED)
  {
    hide C.Inv;
    W.FreshInv();
    R.FreshInv(CHAT_FORMAT);
    R.StepKeepsInv(CHAT_FORMAT, R.FRESH, R.StartHeader);
    OfferAllStreams(W.FRESH, room.recent);
    PumpBounds(C.OfferAll(W.FRESH, room.recent));
    assert C.Jobs([]) == [] && W.Accepted(W.FRESH) == [];
  }

  lemma StepKeepsInv(n: Net, e: Event)
    requires Inv(n) && Enabled(n, e)
    ensures Inv(Step(n, e))
  {
    hide Inv, Enabled, Step;
    match e
    case AtRoom(re) => RoomStepKeepsInv(n, re);
    case AtClient(id, ce) => OneClientKeepsInv(n, id, ce);
  }

  lemma OneClientKeepsInv(n: Net, id: C.Id, ce: ClientEvent)
    requires Inv(n) && Enabled(n, AtClient(id, ce))
    ensures Inv(Step(n, AtClient(id, ce)))
  {
    hide C.Inv, WiresInv, ClientStep, ClientEnabled;
    ClientStepKeepsInv(n.room.sessions[id], n.wires[id], ce);
    var t := n.(wires := n.wires[id := ClientStep(n.wires[id], ce)]);
    assert t.wires.Keys == n.wires.Keys;
  }

  // ---------- Every run ----------

  ghost predicate Run(n: Net, es: seq<Event>, t: Net)
    decreases |es|
  {
    if es == [] then t == n else Enabled(n, es[0]) && Run(Step(n, es[0]), es[1..], t)
  }

  lemma {:induction false} RunKeepsInv(n: Net, es: seq<Event>, t: Net)
    requires Inv(n) && Run(n, es, t)
    ensures Inv(t)
    decreases |es|
  {
    hide Inv, Step, Enabled;
    if es != [] {
      StepKeepsInv(n, es[0]);
      RunKeepsInv(Step(n, es[0]), es[1..], t);
    }
  }

  lemma RunInv(es: seq<Event>, n: Net)
    requires Run(EMPTY, es, n)
    ensures Inv(n)
  {
    hide Inv;
    EmptyInv();
    RunKeepsInv(EMPTY, es, n);
  }

  lemma EmptyInv()
    ensures Inv(EMPTY)
  {
    assert C.Inv(C.EMPTY);
    hide C.Inv;
  }

  // ---------- What the applications asked for ----------

  /** The messages that the application of client id has passed to write. */
  function WrittenBy(es: seq<Event>, id: C.Id): seq<Frame>
    decreases |es|
  {
    if es == [] then []
    else
      (if es[0].AtClient? && es[0].id == id && es[0].ce.Write? then [es[0].ce.f] else []) + WrittenBy(es[1..], id)
  }

  /** How many closures posted by client id have run. */
  function RunsBy(es: seq<Event>, id: C.Id): nat
    decreases |es|
  {
    if es == [] then 0
    else (if es[0] == AtClient(id, RunPosted) then 1 else 0) + RunsBy(es[1..], id)
  }

  function ClientOf(n: Net, id: C.Id): Client {
    if id in n.wires then n.wires[id].client else CONNECTED.client
  }

  lemma StepWrites(n: Net, e: Event, id: C.Id)
    requires Enabled(n, e) && (id in n.wires ==> id in n.room.sessions)
    ensures
      var c, d := ClientOf(n, id), ClientOf(Step(n, e), id);
      && d.written == c.written + (if e.AtClient? && e.id == id && e.ce.Write? then [e.ce.f] else [])
      && |d.posted| + (if e == AtClient(id, RunPosted) then 1 else 0)
         == |c.posted| + (if e.AtClient? && e.id == id && e.ce.Write? then 1 else 0)
  {
    hide C.Step, W.Step, R.Step, Leaving;
  }

  lemma {:induction false} RunWrites(n: Net, es: seq<Event>, t: Net, id: C.Id)
    requires Inv(n) && Run(n, es, t)
    ensures
      var c, d := ClientOf(n, id), ClientOf(t, id);
      d.written == c.written + WrittenBy(es, id)
      && |d.posted| + RunsBy(es, id) == |c.posted| + |WrittenBy(es, id)|
    decreases |es|
  {
    hide Inv, Step, Enabled, ClientOf;
    if es != [] {
      assert id in n.wires ==> id in n.room.sessions by { if id in n.wires { SessionFacts(n, id); } }
      StepWrites(n, es[0], id);
      StepKeepsInv(n, es[0]);
      RunWrites(Step(n, es[0]), es[1..], t, id);
    }
  }

  lemma JobsFirst(accepted: seq<W.Job>, posted: seq<Frame>, written: seq<Frame>, k: nat)
    requires accepted + C.Jobs(posted) == C.Jobs(written) && |posted| + k == |written|
    ensures accepted == C.Jobs(written[..k])
  {
    assert (accepted + C.Jobs(posted))[..k] == accepted;
    assert C.Jobs(written)[..k] == C.Jobs(written[..k]);
  }

  /**
    Whatever else happens, the messages a client counts as written are those its application
    has passed to write, and after k posted closures the first k of them have been enqueued.
   */
  lemma WrittenFromEvents(es: seq<Event>, n: Net, id: C.Id)
    requires Run(EMPTY, es, n) && id in n.wires
    ensures n.wires[id].client.written == WrittenBy(es, id)
    ensures RunsBy(es, id) <= |WrittenBy(es, id)|
    ensures W.Accepted(n.wires[id].client.writer) == C.Jobs(WrittenBy(es, id)[..RunsBy(es, id)])
  {
    EmptyInv();
    RunInv(es, n);
    SessionFacts(n, id);
    hide Inv, Run, W.Accepted, C.Jobs, C.PumpInv, C.LoopInv, C.From, Slice, Wired;
    RunWrites(EMPTY, es, n, id);
    var c := n.wires[id].client;
    JobsFirst(W.Accepted(c.writer), c.posted, c.written, RunsBy(es, id));
  }

  /** The part of the room's log that a session is or was to be sent. */
  function Slice(room: C.Room, id: C.Id): (fs: seq<Frame>)
    requires id in room.sessions
    requires C.First(room.sessions[id].joined) <= C.Last(room.sessions[id], |room.log|) <= |room.log|
  {
    room.log[C.First(room.sessions[id].joined)..C.Last(room.sessions[id], |room.log|)]
  }

  lemma SessionFacts(n: Net, id: C.Id)
    requires Inv(n) && id in n.wires
    ensures id in n.room.sessions
    ensures var s, x := n.room.sessions[id], n.wires[id];
            && C.First(s.joined) <= C.Last(s, |n.room.log|) <= |n.room.log|
            && W.Accepted(s.writer) == C.Jobs(Slice(n.room, id))
            && AllFrames(CHAT_FORMAT, Slice(n.room, id))
            && C.PumpInv(s.writer) && C.LoopInv(s.reader) && WiresInv(s, x)
            && |n.room.log| == |n.room.origin|
            && C.From(n.room.log, n.room.origin, id) == s.reader.frames
  {
    hide C.PumpInv, C.LoopInv, W.Accepted, WiresInv, C.From, C.Jobs, Slice;
    assert C.SessionInv(n.room.log, n.room.sessions[id]);
    SliceFrames(n.room, id);
  }

  lemma SliceFrames(room: C.Room, id: C.Id)
    requires id in room.sessions && AllFrames(CHAT_FORMAT, room.log)
    requires C.First(room.sessions[id].joined) <= C.Last(room.sessions[id], |room.log|) <= |room.log|
    ensures AllFrames(CHAT_FORMAT, Slice(room, id))
    ensures
      var s := room.sessions[id];
      Slice(room, id) == room.log[C.First(s.joined)..C.Last(s, |room.log|)]
  {
    assert forall f | f in Slice(room, id) :: f in room.log;
  }

  /**
    End to end, on every run of the room, its clients and the wires, however bytes are chunked
    and whatever fails: a client has read a prefix of its slice of the room's log, and the
    messages the room has from a client are the first ones that client wrote.
   */
  lemma EndToEnd(es: seq<Event>, n: Net, id: C.Id)
    requires Run(EMPTY, es, n) && id in n.wires
    ensures id in n.room.sessions
    ensures var s := n.room.sessions[id];
            && C.First(s.joined) <= C.Last(s, |n.room.log|) <= |n.room.log|
            && n.wires[id].client.reader.frames <= Slice(n.room, id)
    ensures |n.room.log| == |n.room.origin|
    ensures C.From(n.room.log, n.room.origin, id) <= n.wires[id].client.written
  {
    RunInv(es, n);
    SessionFacts(n, id);
    var s, c := n.room.sessions[id], n.wires[id].client;
    C.FlatJobs(Slice(n.room, id));
    hide Run, Inv, Slice, W.Inv, R.Inv, W.Accepted, C.From;
    Link.FramesInOrder(CHAT_FORMAT, s.writer, c.reader);
    AcceptedWritten(c);
    Link.FramesInOrder(CHAT_FORMAT, c.writer, s.reader);
  }

  /** What a client's pump has accepted is what it wrote, but for what is still posted. */
  lemma AcceptedWritten(c: Client)
    requires ClientInv(c)
    ensures |c.posted| <= |c.written|
    ensures W.Flat(W.Accepted(c.writer)) == c.written[..|c.written| - |c.posted|]
    ensures AllFrames(CHAT_FORMAT, W.Flat(W.Accepted(c.writer)))
  {
    var begun := c.written[..|c.written| - |c.posted|];
    assert C.Jobs(begun) == C.Jobs(c.written)[..|begun|];
    assert W.Accepted(c.writer) == C.Jobs(begun);
    C.FlatJobs(begun);
    assert forall f | f in begun :: f in c.written;
    hide C.PumpInv, C.LoopInv;
  }

  /** Everything but a new connection, a new message, or a failure. */
  predicate Spontaneous(e: Event) {
    match e
    case AtRoom(e) => !e.Accept? && !e.WriteError? && !e.ReadError?
    case AtClient(_, ce) =>
      !ce.Write? && !(ce.Pump? && ce.we.WriteError?) && !(ce.Loop? && ce.re.ReadError?)
  }

  ghost predicate Quiet(n: Net) {
    forall e | Spontaneous(e) :: !Enabled(n, e)
  }

  /** Both ends of a session are up: no write has failed and no read loop has stopped. */
  predicate Up(n: Net, id: C.Id)
    requires id in n.wires && id in n.room.sessions
  {
    var s, c := n.room.sessions[id], n.wires[id].client;
    !s.writer.failed && !c.writer.failed && !s.reader.phase.Idle? && !c.reader.phase.Idle?
  }

  /** What the two ends of a session cannot do in a quiet net. */
  lemma QuietFacts(n: Net, id: C.Id)
    requires Quiet(n) && id in n.wires && id in n.room.sessions
    ensures var s, x := n.room.sessions[id], n.wires[id];
            && x.client.posted == []
            && !W.Enabled(s.writer, W.Transfer(1)) && (forall i :: !W.Enabled(s.writer, W.Written(i)))
            && !W.Enabled(x.client.writer, W.Transfer(1)) && (forall i :: !W.Enabled(x.client.writer, W.Written(i)))
            && !R.Enabled(CHAT_FORMAT, s.reader, R.Done) && !R.Enabled(CHAT_FORMAT, x.client.reader, R.Done)
            && (x.up != [] ==> !R.Enabled(CHAT_FORMAT, s.reader, R.Arrive(x.up[..1])))
            && (x.down != [] ==> !R.Enabled(CHAT_FORMAT, x.client.reader, R.Arrive(x.down[..1])))
  {
    hide W.Enabled, R.Enabled;
    var s, x := n.room.sessions[id], n.wires[id];
    assert !Enabled(n, AtRoom(C.Transfer(id, 1))) && !Enabled(n, AtClient(id, Pump(W.Transfer(1))));
    assert !Enabled(n, AtClient(id, RunPosted)) && !Enabled(n, AtRoom(C.ReadDone(id)));
    forall i ensures !W.Enabled(s.writer, W.Written(i)) && !W.Enabled(x.client.writer, W.Written(i)) {
      assert !Enabled(n, AtRoom(C.Written(id, i))) && !Enabled(n, AtClient(id, Pump(W.Written(i))));
    }
    assert x.up != [] ==> !Enabled(n, AtRoom(C.Arrive(id, x.up[..1])));
    assert !Enabled(n, AtClient(id, Loop(R.Done)));
    assert x.down != [] ==> !Enabled(n, AtClient(id, Loop(R.Arrive(x.down[..1]))));
  }

  /** Everything is written, nothing is on the wires, and both ends wait for more. */
  lemma QuietEnds(n: Net, id: C.Id)
    requires Inv(n) && Quiet(n) && id in n.wires && id in n.room.sessions && Up(n, id)
    ensures var s, x := n.room.sessions[id], n.wires[id];
            && x.client.posted == [] && x.up == [] && x.down == []
            && s.writer.queue == [] && s.writer.moved == |s.writer.submitted|
            && x.client.writer.queue == [] && x.client.writer.moved == |x.client.writer.submitted|
            && !R.Complete(CHAT_FORMAT, s.reader) && !R.Complete(CHAT_FORMAT, x.client.reader)
  {
    SessionFacts(n, id);
    QuietFacts(n, id);
    var s, x := n.room.sessions[id], n.wires[id];
    hide Inv, Quiet, W.Inv, R.Inv, W.Accepted, Slice, W.Enabled, R.Enabled, R.Complete, Wired, C.From;
    Link.QuietPump(s.writer);
    Link.QuietPump(x.client.writer);
    Link.QuietLoop(CHAT_FORMAT, s.reader, x.up);
    Link.QuietLoop(CHAT_FORMAT, x.client.reader, x.down);
  }

  /** One direction of a session at rest. */
  lemma Served(w: W.Writer, r: R.Reader)
    requires C.PumpInv(w) && C.LoopInv(r) && Wired(w, [], r)
    requires w.queue == [] && w.moved == |w.submitted| && !r.phase.Idle? && !R.Complete(CHAT_FORMAT, r)
    requires AllFrames(CHAT_FORMAT, W.Flat(W.Accepted(w)))
    ensures r.frames == W.Flat(W.Accepted(w))
  {
    hide W.Inv, R.Inv, W.Accepted, W.Produced, R.Complete;
    assert r.consumed + [] == r.consumed;
    Link.Settled(CHAT_FORMAT, w, r);
  }

  /**
    When nothing is left to do, a session that is up at both ends has been served exactly: the
    client has read its whole slice of the log, and the room has everything the client wrote.
   */
  lemma QuiescentExactlyOnce(es: seq<Event>, n: Net, id: C.Id)
    requires Run(EMPTY, es, n) && Quiet(n)
    requires id in n.wires && id in n.room.sessions && Up(n, id)
    ensures var s := n.room.sessions[id];
            && C.First(s.joined) <= C.Last(s, |n.room.log|) <= |n.room.log|
            && n.wires[id].client.reader.frames == Slice(n.room, id)
    ensures |n.room.log| == |n.room.origin|
    ensures C.From(n.room.log, n.room.origin, id) == n.wires[id].client.written
  {
    hide Run, Inv, Quiet, Slice, C.PumpInv, C.LoopInv, W.Accepted, C.From, R.Complete, Wired, C.Jobs, W.Flat;
    RunInv(es, n);
    SessionFacts(n, id);
    QuietEnds(n, id);
    var s, c := n.room.sessions[id], n.wires[id].client;
    C.FlatJobs(Slice(n.room, id));
    Served(s.writer, c.reader);
    AcceptedWritten(c);
    Served(c.writer, s.reader);
    assert c.written[..|c.written|] == c.written;
  }
}
