/** The framed transport's wire format and what its read loop makes of a frame. */
module Transport {
  import opened Bytes
  import opened Framing
  import opened Messages
  import WritePump

  const HANDSHAKE_SIZE: nat := 8
  const HEADER_SIZE: nat := 8

  function HeaderBytes(id: u32, size: u32): (h: seq<byte>)
    ensures |h| == HEADER_SIZE
  {
    U32Bytes(id) + U32Bytes(size)
  }

  function IdOf(h: seq<byte>): u32
    requires |h| == HEADER_SIZE
  {
    U32Of(h[..4])
  }

  function SizeOf(h: seq<byte>): u32
    requires |h| == HEADER_SIZE
  {
    U32Of(h[4..])
  }

  lemma HeaderRoundTrip(id: u32, size: u32)
    ensures IdOf(HeaderBytes(id, size)) == id && SizeOf(HeaderBytes(id, size)) == size
  {
    U32RoundTrip(id);
    U32RoundTrip(size);
    assert HeaderBytes(id, size)[..4] == U32Bytes(id);
    assert HeaderBytes(id, size)[4..] == U32Bytes(size);
  }

  /** The identifier, then the size, each with its least significant byte first. */
  lemma HeaderLayout(id: u32, size: u32)
    ensures HeaderBytes(id, size)
         == [(id % 256) as byte, (id / 256 % 256) as byte, (id / 65536 % 256) as byte, (id / 16777216) as byte,
             (size % 256) as byte, (size / 256 % 256) as byte, (size / 65536 % 256) as byte, (size / 16777216) as byte]
  {
    U32Layout(id);
    U32Layout(size);
  }

  /** No header is refused, and no read is started for an empty body. */
  const WIRE_FORMAT :=
    Codec(
      HANDSHAKE_SIZE,
      HEADER_SIZE,
      (h: seq<byte>) => if |h| == HEADER_SIZE then Some(SizeOf(h)) else None,
      true)

  /** The buffers WriteHeader and WriteBody write: the body only when it is not empty. */
  function Buffers(m: Message): WritePump.Job {
    if |m.body| > 0 then [HeaderBytes(m.id, m.size), m.body] else [HeaderBytes(m.id, m.size)]
  }

  function Jobs(ms: seq<Message>): (js: seq<WritePump.Job>)
    ensures |js| == |ms|
  {
    seq(|ms|, i requires 0 <= i < |ms| => Buffers(ms[i]))
  }

  /** All bytes written for m. */
  function FrameOf(m: Message): seq<byte> {
    HeaderBytes(m.id, m.size) + m.body
  }

  function FramesOf(ms: seq<Message>): (fs: seq<Frame>)
    ensures |fs| == |ms|
  {
    seq(|ms|, i requires 0 <= i < |ms| => FrameOf(ms[i]))
  }

  /** A whole frame read off the wire. */
  function DecodeFrame(f: Frame): Message {
    if |f| < HEADER_SIZE then EMPTY_SCRATCH
    else Message(IdOf(f[..HEADER_SIZE]), SizeOf(f[..HEADER_SIZE]), f[HEADER_SIZE..])
  }

  function Decoded(fs: seq<Frame>): (ms: seq<Message>)
    ensures |ms| == |fs|
  {
    seq(|fs|, i requires 0 <= i < |fs| => DecodeFrame(fs[i]))
  }

  lemma DecodedFrames(ms: seq<Message>)
    ensures Decoded(FramesOf(ms)) == ms
  {
    forall i | 0 <= i < |ms| ensures Decoded(FramesOf(ms))[i] == ms[i] {
      FrameIffConsistent(ms[i]);
    }
  }

  /** A frame of the wire format is that of the message it is read as, which is consistent. */
  lemma FrameOfDecoded(f: Frame)
    requires IsFrame(WIRE_FORMAT, f)
    ensures FrameOf(DecodeFrame(f)) == f && Consistent(DecodeFrame(f))
  {
    var h := f[..HEADER_SIZE];
    U32BytesRoundTrip(h[..4]);
    U32BytesRoundTrip(h[4..]);
    assert HeaderBytes(IdOf(h), SizeOf(h)) == h[..4] + h[4..] == h;
    assert f == h + f[HEADER_SIZE..];
  }

  lemma FramesDecoded(fs: seq<Frame>)
    requires AllFrames(WIRE_FORMAT, fs)
    ensures FramesOf(Decoded(fs)) == fs && AllConsistent(Decoded(fs))
  {
    forall i | 0 <= i < |fs| ensures FramesOf(Decoded(fs))[i] == fs[i] && Consistent(Decoded(fs)[i]) {
      FrameOfDecoded(fs[i]);
    }
  }

  lemma BuffersAreFrame(m: Message)
    ensures Concat(Buffers(m)) == FrameOf(m)
  {
    var b := Buffers(m);
    assert b[1..] == if |m.body| > 0 then [m.body] else [];
    if |m.body| > 0 {
      assert Concat([m.body]) == m.body + Concat([]);
    }
  }

  lemma JobsAreFrames(ms: seq<Message>)
    ensures WritePump.Flat(Jobs(ms)) == FramesOf(ms)
  {
    forall i | 0 <= i < |ms| ensures WritePump.Flat(Jobs(ms))[i] == FramesOf(ms)[i] {
      BuffersAreFrame(ms[i]);
    }
  }

  /** The receiver delimits a message as the sender wrote it iff the message is consistent. */
  lemma FrameIffConsistent(m: Message)
    ensures IsFrame(WIRE_FORMAT, FrameOf(m)) <==> Consistent(m)
    ensures DecodeFrame(FrameOf(m)) == m
  {
    assert FrameOf(m)[..HEADER_SIZE] == HeaderBytes(m.id, m.size);
    HeaderRoundTrip(m.id, m.size);
  }

  predicate AllConsistent(ms: seq<Message>) {
    forall m | m in ms :: Consistent(m)
  }

  lemma ConsistentFrames(ms: seq<Message>)
    requires AllConsistent(ms)
    ensures AllFrames(WIRE_FORMAT, FramesOf(ms))
  {
    forall f | f in FramesOf(ms) ensures IsFrame(WIRE_FORMAT, f) {
      var i :| 0 <= i < |ms| && f == FramesOf(ms)[i];
      assert ms[i] in ms;
      FrameIffConsistent(ms[i]);
    }
  }

  // What the read loop enqueues.  ReadHeader resizes the scratch body only for a positive
  // size, so a zero-size message is enqueued with the body of the message before it.

  const EMPTY_SCRATCH := Message(0, 0, [])

  /** The scratch message after a whole frame has been read into it. */
  function Refill(scratch: Message, m: Message): Message {
    if m.size > 0 then m else Message(m.id, 0, scratch.body)
  }

  function Received(scratch: Message, ms: seq<Message>): (r: seq<Message>)
    ensures |r| == |ms|
    decreases |ms|
  {
    if ms == [] then [] else [Refill(scratch, ms[0])] + Received(Refill(scratch, ms[0]), ms[1..])
  }

  /** The scratch message while nothing is being read into it. */
  function Last(scratch: Message, inbox: seq<Message>): Message {
    if inbox == [] then scratch else inbox[|inbox| - 1]
  }

  lemma {:induction false} ReceivedSnoc(scratch: Message, ms: seq<Message>, m: Message)
    ensures var r := Received(scratch, ms);
            Received(scratch, ms + [m]) == r + [Refill(Last(scratch, r), m)]
    decreases |ms|
  {
    if ms == [] {
      assert (ms + [m])[1..] == [];
    } else {
      assert (ms + [m])[1..] == ms[1..] + [m];
      ReceivedSnoc(Refill(scratch, ms[0]), ms[1..], m);
    }
  }

  /** The part of a received message that its header covers. */
  function View(m: Message): Message
  {
    if m.size <= |m.body| then Message(m.id, m.size, m.body[..m.size]) else m
  }

  function Views(ms: seq<Message>): (vs: seq<Message>)
    ensures |vs| == |ms|
  {
    seq(|ms|, i requires 0 <= i < |ms| => View(ms[i]))
  }

  /**
    Message by message: the header arrives as sent; a body of positive size arrives as sent,
    and a zero-size message carries the body delivered just before it.
   */
  lemma {:induction false} ReceivedAt(scratch: Message, ms: seq<Message>, i: nat)
    requires AllConsistent(ms) && i < |ms|
    ensures Received(scratch, ms)[i].id == ms[i].id && Received(scratch, ms)[i].size == ms[i].size
    ensures Received(scratch, ms)[i].body
         == if ms[i].size > 0 then ms[i].body
            else if i == 0 then scratch.body else Received(scratch, ms)[i - 1].body
    ensures View(Received(scratch, ms)[i]) == ms[i]
    decreases i
  {
    assert ms[0] in ms;
    assert ms[i] in ms;
    if i > 0 {
      assert AllConsistent(ms[1..]);
      ReceivedAt(Refill(scratch, ms[0]), ms[1..], i - 1);
    }
  }

  /** What the application sees through the headers is what was sent. */
  lemma ReceivedViews(scratch: Message, ms: seq<Message>)
    requires AllConsistent(ms)
    ensures Views(Received(scratch, ms)) == ms
  {
    forall i | 0 <= i < |ms| ensures Views(Received(scratch, ms))[i] == ms[i] {
      ReceivedAt(scratch, ms, i);
    }
  }

  ghost predicate EmptyAfterFull(ms: seq<Message>) {
    exists i, j :: 0 <= i < j < |ms| && ms[i].size > 0 && ms[j].size == 0
  }

  lemma {:induction false} StaleBody(ms: seq<Message>, j: nat)
    requires AllConsistent(ms) && j < |ms|
    requires forall i | 0 <= i < j :: ms[i].size == 0
    ensures ms[j].size == 0 ==> Received(EMPTY_SCRATCH, ms)[j].body == []
  {
    ReceivedAt(EMPTY_SCRATCH, ms, j);
    if j > 0 && ms[j].size == 0 {
      StaleBody(ms, j - 1);
    }
  }

  lemma {:induction false} FullBodySticks(ms: seq<Message>, i: nat, j: nat)
    requires AllConsistent(ms) && i <= j < |ms| && ms[i].size > 0
    ensures Received(EMPTY_SCRATCH, ms)[j].body != []
    decreases j
  {
    ReceivedAt(EMPTY_SCRATCH, ms, j);
    assert ms[j] in ms;
    if ms[j].size == 0 {
      FullBodySticks(ms, i, j - 1);
    }
  }

  /**
    When a received message may be sent on as it is: its header.size is its body's length
    exactly if it has a body, or no message before it had.
   */
  lemma ForwardableAt(ms: seq<Message>, j: nat)
    requires AllConsistent(ms) && j < |ms|
    ensures Consistent(Received(EMPTY_SCRATCH, ms)[j]) <==> ms[j].size > 0 || forall i | 0 <= i < j :: ms[i].size == 0
  {
    ReceivedAt(EMPTY_SCRATCH, ms, j);
    assert ms[j] in ms;
    if ms[j].size == 0 {
      if i :| 0 <= i < j && ms[i].size > 0 {
        FullBodySticks(ms, i, j);
      } else {
        StaleBody(ms, j);
      }
    }
  }

  /** So all of them may exactly when no zero-size message followed a positive-size one. */
  lemma ForwardableIff(ms: seq<Message>)
    requires AllConsistent(ms)
    ensures AllConsistent(Received(EMPTY_SCRATCH, ms)) <==> !EmptyAfterFull(ms)
  {
    var r := Received(EMPTY_SCRATCH, ms);
    if EmptyAfterFull(ms) {
      var i, j :| 0 <= i < j < |ms| && ms[i].size > 0 && ms[j].size == 0;
      ForwardableAt(ms, j);
      assert r[j] in r;
    } else {
      forall m | m in r ensures Consistent(m) {
        var j :| 0 <= j < |r| && r[j] == m;
        ForwardableAt(ms, j);
      }
    }
  }

  /** Two consistent messages suffice for one that may not be. */
  lemma StaleReceived()
    ensures
      var ms := [Message(1, 1, [7]), Message(2, 0, [])];
      && AllConsistent(ms)
      && Received(EMPTY_SCRATCH, ms)[1] == Message(2, 0, [7])
      && !Consistent(Received(EMPTY_SCRATCH, ms)[1])
  {
    var ms := [Message(1, 1, [7]), Message(2, 0, [])];
    ReceivedAt(EMPTY_SCRATCH, ms, 0);
    ReceivedAt(EMPTY_SCRATCH, ms, 1);
  }

  /**
    Sending such a message on breaks the framing: the receiver takes an empty message, and
    reads the stale body as the beginning of the next header.
   */
  lemma StaleForwardDesynchronises(m: Message, next: seq<Message>)
    requires m.size == 0 && m.body != []
    ensures Parse(WIRE_FORMAT, Concat(FramesOf([m] + next))).frames
         == [HeaderBytes(m.id, 0)] + Parse(WIRE_FORMAT, m.body + Concat(FramesOf(next))).frames
    ensures Parse(WIRE_FORMAT, Concat(FramesOf([m] + next))).frames != FramesOf([m] + next)
  {
    var h, t := HeaderBytes(m.id, 0), m.body + Concat(FramesOf(next));
    HeaderRoundTrip(m.id, 0);
    assert FramesOf([m] + next)[1..] == FramesOf(next);
    assert Concat([h]) == h + Concat([]);
    assert Concat(FramesOf([m] + next)) == Concat([h]) + t;
    assert h[..HEADER_SIZE] == h;
    ParseConcat(WIRE_FORMAT, [h], t);
    assert FramesOf([m] + next)[0] == FrameOf(m) && |FrameOf(m)| > |h|;
  }
}
