/** A write pump and a read loop at the two ends of a byte stream. */
module Link {
  import opened Bytes
  import opened Framing
  import W = WritePump
  import R = FrameReader

  /**
    If what a reader has consumed is part of what a pump has put on the wire, and the jobs of
    the pump are frames, then the frames read are the first jobs accepted, in order and once
    each; whatever the chunks and whatever failed on either side.
   */
  lemma FramesInOrder(c: Codec, w: W.Writer, r: R.Reader)
    requires W.Inv(w) && !w.Mixed() && R.Inv(c, r)
    requires r.preamble == w.prefix
    requires w.moved <= |w.submitted| && r.consumed <= W.Produced(w)
    requires AllFrames(c, W.Flat(W.Accepted(w)))
    ensures r.frames <= W.Flat(W.Accepted(w))
  {
    CodecOf(c, r);
    AccountedFor(c, r);
    W.ProducedIsPrefix(w);
    hide W.Inv, W.Accepted, W.Produced, W.Unsent, R.Inv;
    CutPrefix(w.prefix, Concat(r.frames), r.header + r.got, Concat(W.Flat(W.Accepted(w))));
    PrefixCode(c, r.frames, W.Flat(W.Accepted(w)));
  }

  /**
    A settled stream: if everything accepted has been written and has left, everything on the
    wire has been consumed, and the reader waits for more, then exactly the accepted jobs have
    been read.
   */
  lemma Settled(c: Codec, w: W.Writer, r: R.Reader)
    requires W.Inv(w) && !w.Mixed() && w.queue == [] && w.moved == |w.submitted|
    requires R.Inv(c, r) && !r.phase.Preamble? && !r.phase.Idle? && !R.Complete(c, r)
    requires r.preamble == w.prefix && r.consumed == W.Produced(w)
    requires AllFrames(c, W.Flat(W.Accepted(w)))
    ensures r.frames == W.Flat(W.Accepted(w))
  {
    CodecOf(c, r);
    W.ProducedIsPrefix(w);
    SettledBytes(w);
    var fs := W.Flat(W.Accepted(w));
    hide W.Inv, W.Accepted, W.Produced, W.Unsent, R.Inv, R.Complete, W.Flat;
    SettledFrames(c, r, fs);
  }

  /** A reader that has consumed exactly some frames, and waits for more, has read those frames. */
  lemma SettledFrames(c: Codec, r: R.Reader, fs: seq<Frame>)
    requires R.Inv(c, r) && !r.phase.Preamble? && !r.phase.Idle? && !R.Complete(c, r)
    requires r.consumed == r.preamble + Concat(fs) && AllFrames(c, fs)
    ensures r.frames == fs
  {
    CodecOf(c, r);
    hide R.Inv, R.Complete;
    var all := r.preamble + Concat(fs);
    assert all[|r.preamble|..] == Concat(fs);
    R.ReaderParses(c, r);
    ParseConcat(c, fs, []);
    assert Concat(fs) + [] == Concat(fs);
    assert Parse(c, []) == Parsed([], [], false);
    assert fs + [] == fs;
  }

  lemma SettledBytes(w: W.Writer)
    requires w.queue == [] && w.moved == |w.submitted|
    ensures W.Unsent(w) == [] && W.Produced(w) == w.submitted == w.submitted + W.Unsent(w)
  {
  }

  /** A pump with nothing left to do, and no failed write, has written everything. */
  lemma QuietPump(w: W.Writer)
    requires W.Inv(w) && !w.failed
    requires !W.Enabled(w, W.Transfer(1)) && forall i :: !W.Enabled(w, W.Written(i))
    ensures w.queue == [] && w.moved == |w.submitted|
  {
    assert w.moved == |w.submitted|;
    assert !W.Enabled(w, W.Written(0));
  }

  /** A read loop with nothing left to do, and no failed read, waits for bytes that are not there. */
  lemma QuietLoop(c: Codec, r: R.Reader, wire: seq<byte>)
    requires R.Inv(c, r) && !r.phase.Idle? && !R.Enabled(c, r, R.Done)
    requires wire != [] ==> !R.Enabled(c, r, R.Arrive(wire[..1]))
    ensures wire == [] && !R.Complete(c, r)
  {
    assert |r.got| < R.Need(c, r);
  }

  lemma CodecOf(c: Codec, r: R.Reader)
    requires R.Inv(c, r)
    ensures c.headerLen > 0
  {
  }

  lemma CutPrefix(p: seq<byte>, a: seq<byte>, s: seq<byte>, b: seq<byte>)
    requires p + (a + s) <= p + b
    ensures a <= b
  {
    assert (p + b)[|p|..] == b;
    assert (p + (a + s))[|p|..] == a + s;
    assert p + (a + s) == (p + b)[..|p + (a + s)|];
    assert a + s == b[..|a + s|];
  }

  lemma AccountedFor(c: Codec, r: R.Reader)
    requires R.Inv(c, r)
    ensures r.consumed == r.preamble + (Concat(r.frames) + (r.header + r.got))
    ensures AllFrames(c, r.frames)
  {
    assert r.preamble + Concat(r.frames) + r.header + r.got
        == r.preamble + (Concat(r.frames) + (r.header + r.got));
  }
}
