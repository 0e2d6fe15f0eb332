/**
  Length-prefixed frames on a byte stream: a header of fixed size says how many body
  bytes follow.  Both protocols of the repository are of this kind; they differ in the
  header, in whether a header can be refused, and in whether a zero-length body is read.
 */
module Framing {
  import opened Bytes

  type Frame = seq<byte>

  /**
    preambleLen bytes precede the first frame; bodyLen is None for a header the receiver
    refuses; skipEmptyBody says that no read is started for an empty body.
   */
  datatype Codec = Codec(
    preambleLen: nat,
    headerLen: nat,
    bodyLen: seq<byte> -> Option<nat>,
    skipEmptyBody: bool)

  predicate IsFrame(c: Codec, f: Frame) {
    0 < c.headerLen <= |f| && c.bodyLen(f[..c.headerLen]) == Some(|f| - c.headerLen)
  }

  predicate AllFrames(c: Codec, fs: seq<Frame>) {
    forall f | f in fs :: IsFrame(c, f)
  }

  function Concat(fs: seq<seq<byte>>): seq<byte> {
    if fs == [] then [] else fs[0] + Concat(fs[1..])
  }

  datatype Parsed = Parsed(frames: seq<Frame>, rest: seq<byte>, refused: bool)

  /** The reference meaning of a byte stream: its complete frames, up to a refused header. */
  function Parse(c: Codec, s: seq<byte>): Parsed
    requires c.headerLen > 0
    decreases |s|
  {
    if |s| < c.headerLen then Parsed([], s, false)
    else match c.bodyLen(s[..c.headerLen])
      case None => Parsed([], s, true)
      case Some(n) =>
        var k := c.headerLen + n;
        if |s| < k then Parsed([], s, false)
        else
          var p := Parse(c, s[k..]);
          Parsed([s[..k]] + p.frames, p.rest, p.refused)
  }

  lemma {:induction false} ConcatAppend(a: seq<seq<byte>>, b: seq<seq<byte>>)
    ensures Concat(a + b) == Concat(a) + Concat(b)
  {
    if a == [] {
      assert a + b == b;
    } else {
      assert (a + b)[0] == a[0] && (a + b)[1..] == a[1..] + b;
      ConcatAppend(a[1..], b);
    }
  }

  lemma ConcatSnoc(a: seq<seq<byte>>, f: seq<byte>)
    ensures Concat(a + [f]) == Concat(a) + f
  {
    ConcatAppend(a, [f]);
    assert Concat([f]) == f + Concat([]);
  }

  /** Parsing loses no byte and yields only frames. */
  lemma {:induction false} ParseSound(c: Codec, s: seq<byte>)
    requires c.headerLen > 0
    ensures AllFrames(c, Parse(c, s).frames)
    ensures Concat(Parse(c, s).frames) + Parse(c, s).rest == s
    decreases |s|
  {
    if |s| < c.headerLen || c.bodyLen(s[..c.headerLen]).None?
    || |s| < c.headerLen + c.bodyLen(s[..c.headerLen]).value {
      assert Parse(c, s).frames == [] && Parse(c, s).rest == s;
    } else {
      var k := c.headerLen + c.bodyLen(s[..c.headerLen]).value;
      ParseSound(c, s[k..]);
      SoundCons(c, s, k, Parse(c, s[k..]));
    }
  }

  lemma SoundCons(c: Codec, s: seq<byte>, k: nat, p: Parsed)
    requires 0 < c.headerLen <= k <= |s| && c.bodyLen(s[..c.headerLen]) == Some(k - c.headerLen)
    requires AllFrames(c, p.frames) && Concat(p.frames) + p.rest == s[k..]
    ensures AllFrames(c, [s[..k]] + p.frames) && Concat([s[..k]] + p.frames) + p.rest == s
  {
    assert s[..k][..c.headerLen] == s[..c.headerLen];
    assert ([s[..k]] + p.frames)[1..] == p.frames;
    assert s == s[..k] + s[k..];
  }

  /** A stream that begins with a frame parses to it and what follows it. */
  lemma ParseCons(c: Codec, f: Frame, rest: seq<byte>)
    requires IsFrame(c, f)
    ensures Parse(c, f + rest)
         == Parsed([f] + Parse(c, rest).frames, Parse(c, rest).rest, Parse(c, rest).refused)
  {
    assert (f + rest)[..c.headerLen] == f[..c.headerLen];
    assert (f + rest)[..|f|] == f && (f + rest)[|f|..] == rest;
  }

  /** Parsing a concatenation of frames gives the frames back, whatever follows them. */
  lemma {:induction false} ParseConcat(c: Codec, fs: seq<Frame>, t: seq<byte>)
    requires c.headerLen > 0
    requires AllFrames(c, fs)
    ensures Parse(c, Concat(fs) + t)
         == Parsed(fs + Parse(c, t).frames, Parse(c, t).rest, Parse(c, t).refused)
  {
    hide Parse, IsFrame;
    if fs == [] {
      assert Concat(fs) + t == t;
      assert fs + Parse(c, t).frames == Parse(c, t).frames;
    } else {
      var f := fs[0];
      assert f in fs;
      ParseConcat(c, fs[1..], t);
      ParseCons(c, f, Concat(fs[1..]) + t);
      assert Concat(fs) + t == f + (Concat(fs[1..]) + t);
      assert [f] + (fs[1..] + Parse(c, t).frames) == fs + Parse(c, t).frames;
    }
  }

  /** Frames form a prefix code: a prefix of the bytes is a prefix of the frames. */
  lemma PrefixCode(c: Codec, a: seq<Frame>, b: seq<Frame>)
    requires c.headerLen > 0
    requires AllFrames(c, a) && AllFrames(c, b)
    requires Concat(a) <= Concat(b)
    ensures a <= b
  {
    var t := Concat(b)[|Concat(a)|..];
    assert Concat(b) == Concat(a) + t;
    ParseConcat(c, a, t);
    ParseConcat(c, b, []);
    assert Concat(b) + [] == Concat(b);
    assert Parse(c, []) == Parsed([], [], false);
    assert b == a + Parse(c, t).frames;
  }
}
