/**
  The read loop shared by both protocols: an asynchronous read of exactly one header, then of
  exactly the body it announces, then the next header.  A composed read collects its bytes
  from chunks of any size and either gets all of them or fails.

  A preamble (the handshake word of the framed transport) can be read first.
  `preamble`, `frames` and `consumed` are history.
 */
module FrameReader {
  import opened Bytes
  import opened Framing

  datatype Phase =
    | Idle                // no read outstanding
    | Preamble            // reading the bytes that precede the frames
    | Header
    | Body(n: nat)

  datatype Reader = Reader(
    phase: Phase,
    header: seq<byte>,    // the complete header whose body is being read
    got: seq<byte>,       // bytes collected by the outstanding read
    preamble: seq<byte>,
    frames: seq<Frame>,   // frames handed to the application, in order
    consumed: seq<byte>)

  const FRESH := Reader(Idle, [], [], [], [], [])

  function Need(c: Codec, r: Reader): nat {
    match r.phase
    case Idle => 0
    case Preamble => c.preambleLen
    case Header => c.headerLen
    case Body(n) => n
  }

  /** The outstanding read has all its bytes: its handler runs without error. */
  predicate Complete(c: Codec, r: Reader) {
    !r.phase.Idle? && |r.got| == Need(c, r)
  }

  datatype Event =
    | StartPreamble
    | StartHeader
    | Arrive(chunk: seq<byte>)
    | Done                // handler of the outstanding read, no error
    | ReadError           // handler of the outstanding read, with an error

  predicate Enabled(c: Codec, r: Reader, e: Event) {
    match e
    case StartPreamble => r == FRESH
    case StartHeader => r.phase.Idle? && r.header == r.got == [] && r.frames == []
    case Arrive(chunk) => !r.phase.Idle? && |r.got| + |chunk| <= Need(c, r)
    case Done => Complete(c, r)
    case ReadError => !r.phase.Idle? && !Complete(c, r)
  }

  /** Hands over a complete frame and reads the next header. */
  function Emit(r: Reader, f: Frame): Reader {
    r.(frames := r.frames + [f], phase := Header, header := [], got := [])
  }

  function Step(c: Codec, r: Reader, e: Event): Reader
    requires Enabled(c, r, e)
  {
    match e
    case StartPreamble => r.(phase := Preamble)
    case StartHeader => r.(phase := Header)
    case Arrive(chunk) => r.(got := r.got + chunk, consumed := r.consumed + chunk)
    case ReadError => r.(phase := Idle)
    case Done =>
      match r.phase
      case Preamble => r.(phase := Idle, preamble := r.got, got := [])
      case Header =>
        (match c.bodyLen(r.got)
         case None => r.(phase := Idle)
         case Some(n) =>
           if n == 0 && c.skipEmptyBody then Emit(r, r.got)
           else r.(phase := Body(n), header := r.got, got := []))
      case _ => Emit(r, r.header + r.got)
  }

  /** Every byte consumed is accounted for: preamble, frames, and the read in progress. */
  ghost predicate Inv(c: Codec, r: Reader) {
    && c.headerLen > 0
    && AllFrames(c, r.frames)
    && r.consumed == r.preamble + Concat(r.frames) + r.header + r.got
    && (match r.phase
        case Preamble => r.preamble == r.header == [] && r.frames == [] && |r.got| <= c.preambleLen
        case Header => r.header == [] && |r.got| <= c.headerLen
        case Body(n) => |r.header| == c.headerLen && c.bodyLen(r.header) == Some(n) && |r.got| <= n
        case Idle => true)
  }

  lemma FreshInv(c: Codec)
    requires c.headerLen > 0
    ensures Inv(c, FRESH)
  {
  }

  lemma EmitKeepsInv(c: Codec, r: Reader, f: Frame)
    requires c.headerLen > 0 && AllFrames(c, r.frames) && IsFrame(c, f)
    requires r.consumed == r.preamble + Concat(r.frames) + f
    ensures Inv(c, Emit(r, f))
  {
    ConcatSnoc(r.frames, f);
    assert Emit(r, f).consumed == r.preamble + Concat(r.frames + [f]);
  }

  lemma DoneKeepsInv(c: Codec, r: Reader)
    requires Inv(c, r) && Complete(c, r)
    ensures Inv(c, Step(c, r, Done))
  {
    if r.phase.Body? {
      var f := r.header + r.got;
      assert f[..c.headerLen] == r.header;
      EmitKeepsInv(c, r, f);
    } else if r.phase.Header? && c.bodyLen(r.got) == Some(0) && c.skipEmptyBody {
      assert r.got[..c.headerLen] == r.got;
      EmitKeepsInv(c, r, r.got);
    }
  }

  lemma StepKeepsInv(c: Codec, r: Reader, e: Event)
    requires Inv(c, r) && Enabled(c, r, e)
    ensures Inv(c, Step(c, r, e))
    ensures Step(c, r, e).consumed == r.consumed + Chunk(e)
  {
    if e.Done? {
      DoneKeepsInv(c, r);
    } else if e.Arrive? {
      assert r.preamble + Concat(r.frames) + r.header + (r.got + e.chunk) == r.consumed + e.chunk;
    }
  }

  /** What one step does to the frames, the preamble and the phase. */
  lemma StepEffect(c: Codec, r: Reader, e: Event)
    requires Enabled(c, r, e)
    ensures var t := Step(c, r, e);
            && t.consumed == r.consumed + Chunk(e)
            && r.frames <= t.frames && |t.frames| <= |r.frames| + 1
            && (|t.frames| == |r.frames| ==> t.frames == r.frames)
            && (|t.frames| > |r.frames| ==> e.Done? && (r.phase.Header? || r.phase.Body?))
            && (e.Done? && r.phase.Preamble? ==> t == r.(phase := Idle, preamble := r.got, got := []))
            && (!(e.Done? && r.phase.Preamble?) ==> t.preamble == r.preamble)
            && (t.phase.Preamble? ==> e.StartPreamble? || r.phase.Preamble?)
            && (Listening(t) ==> Listening(r) || e.StartHeader?)
            && (e.StartHeader? ==> t == r.(phase := Header))
            && (e.ReadError? ==> t == r.(phase := Idle))
            && (e.Arrive? ==> t.phase == r.phase)
  {
  }

  lemma PreambleFirst(c: Codec, r: Reader)
    requires Inv(c, r) && r.phase.Preamble?
    ensures r.preamble == r.header == [] && r.frames == []
  {
  }

  /** Reading messages, or having read some. */
  predicate Listening(r: Reader) {
    r.phase.Header? || r.phase.Body? || r.frames != []
  }

  /**
    Between handlers the frames handed over are exactly the parse of the bytes consumed
    after the preamble, however those bytes were cut into chunks.
   */
  lemma ReaderParses(c: Codec, r: Reader)
    requires Inv(c, r) && !r.phase.Preamble?
    requires |r.preamble| <= |r.consumed|
    requires !r.phase.Idle? && !Complete(c, r)
    ensures Parse(c, r.consumed[|r.preamble|..]) == Parsed(r.frames, r.header + r.got, false)
  {
    var tail := r.header + r.got;
    assert r.consumed[|r.preamble|..] == Concat(r.frames) + tail;
    ParseConcat(c, r.frames, tail);
    if r.phase.Body? {
      assert tail[..c.headerLen] == r.header;
    }
    assert Parse(c, tail) == Parsed([], tail, false);
    assert r.frames + [] == r.frames;
  }

  /** A frame boundary or failure never invents, drops or reorders: frames are a prefix of the parse. */
  lemma FramesArePrefix(c: Codec, r: Reader)
    requires Inv(c, r) && !r.phase.Preamble?
    ensures |r.preamble| <= |r.consumed|
    ensures r.frames <= Parse(c, r.consumed[|r.preamble|..]).frames
  {
    var tail := r.header + r.got;
    assert r.consumed[|r.preamble|..] == Concat(r.frames) + tail;
    ParseConcat(c, r.frames, tail);
  }

  ghost predicate Run(c: Codec, r: Reader, es: seq<Event>, t: Reader)
    decreases |es|
  {
    if es == [] then t == r
    else Enabled(c, r, es[0]) && Run(c, Step(c, r, es[0]), es[1..], t)
  }

  function Chunk(e: Event): seq<byte> {
    if e.Arrive? then e.chunk else []
  }

  function Arrived(es: seq<Event>): seq<byte> {
    if es == [] then [] else Chunk(es[0]) + Arrived(es[1..])
  }

  lemma {:induction false} RunFrom(c: Codec, r: Reader, es: seq<Event>, t: Reader)
    requires Inv(c, r) && Run(c, r, es, t)
    ensures Inv(c, t) && t.consumed == r.consumed + Arrived(es)
    decreases |es|
  {
    hide Inv, Step, Enabled, Chunk;
    if es != [] {
      StepKeepsInv(c, r, es[0]);
      RunFrom(c, Step(c, r, es[0]), es[1..], t);
    }
  }

  /**
    Chunk independence: whatever the chunks, a reader without preamble that is waiting for
    bytes has handed over exactly the parse of everything that arrived.
   */
  lemma AnyChunking(c: Codec, es: seq<Event>, t: Reader)
    requires c.headerLen > 0
    requires Run(c, FRESH, [StartHeader] + es, t)
    requires forall e | e in es :: !e.StartPreamble?
    ensures t.preamble == []
    ensures t.frames <= Parse(c, Arrived(es)).frames
    ensures !t.phase.Idle? && !Complete(c, t) ==> Parse(c, Arrived(es)) == Parsed(t.frames, t.header + t.got, false)
  {
    FreshInv(c);
    RunFrom(c, FRESH, [StartHeader] + es, t);
    assert ([StartHeader] + es)[1..] == es;
    NoPreamble(c, Step(c, FRESH, StartHeader), es, t);
    FramesArePrefix(c, t);
    if !t.phase.Idle? && !Complete(c, t) {
      ReaderParses(c, t);
    }
  }

  lemma {:induction false} NoPreamble(c: Codec, r: Reader, es: seq<Event>, t: Reader)
    requires Run(c, r, es, t) && r.preamble == [] && !r.phase.Preamble?
    requires forall e | e in es :: !e.StartPreamble?
    ensures t.preamble == [] && !t.phase.Preamble?
    decreases |es|
  {
    if es != [] {
      assert es[0] in es;
      NoPreamble(c, Step(c, r, es[0]), es[1..], t);
    }
  }
}
