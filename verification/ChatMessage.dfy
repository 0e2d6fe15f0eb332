/** The chat message: a four-character decimal header and a body of at most 512 bytes. */
module ChatMessages {
  import opened Bytes
  import opened Framing

  const HEADER_LENGTH: nat := 4
  const MAX_BODY_LENGTH: nat := 512

  // ---------- C library text conversions on the header ----------

  predicate IsSpace(b: byte) {
    b == 32 || 9 <= b <= 13
  }

  predicate IsDigit(b: byte) {
    48 <= b <= 57
  }

  /** What strncat copies: up to the first zero byte. */
  function Text(h: seq<byte>): seq<byte> {
    if h == [] || h[0] == 0 then [] else [h[0]] + Text(h[1..])
  }

  function SkipSpaces(s: seq<byte>): seq<byte> {
    if s != [] && IsSpace(s[0]) then SkipSpaces(s[1..]) else s
  }

  /** The digits s begins with, after acc. */
  function DigitsValue(s: seq<byte>, acc: nat): nat
    decreases |s|
  {
    if s != [] && IsDigit(s[0]) then DigitsValue(s[1..], acc * 10 + (s[0] as nat - 48)) else acc
  }

  /** atoi (section 7.22.1.2 of ISO C11). */
  function Atoi(s: seq<byte>): int {
    var t := SkipSpaces(s);
    if t != [] && t[0] == 45 then -(DigitsValue(t[1..], 0) as int)
    else if t != [] && t[0] == 43 then DigitsValue(t[1..], 0)
    else DigitsValue(t, 0)
  }

  /** size_t wraps a negative value to a huge one, which the length check then refuses. */
  function ToSizeT(n: int): nat {
    n % 0x1_0000_0000_0000_0000
  }

  function DecodeLength(h: seq<byte>): Option<nat> {
    var n := ToSizeT(Atoi(Text(h)));
    if n > MAX_BODY_LENGTH then None else Some(n)
  }

  function DigitByte(d: nat): byte
    requires d < 10
  {
    (48 + d) as byte
  }

  /** sprintf("%4d") for a number of at most three digits. */
  function EncodeLength(n: nat): (h: seq<byte>)
    requires n <= MAX_BODY_LENGTH
    ensures |h| == HEADER_LENGTH
  {
    [32,
     if n < 100 then 32 else DigitByte(n / 100),
     if n < 10 then 32 else DigitByte(n / 10 % 10),
     DigitByte(n % 10)]
  }

  /** Every length that can be written is read back. */
  lemma LengthRoundTrip(n: nat)
    requires n <= 512
    ensures DecodeLength(EncodeLength(n)) == Some(n)
  {
    hide Atoi, Text, EncodeLength;
    WrittenLength(n);
  }

  lemma WrittenLength(n: nat)
    requires n <= MAX_BODY_LENGTH
    ensures Atoi(Text(EncodeLength(n))) == n
  {
    hide SkipSpaces, DigitsValue, Atoi, Text, IsSpace;
    var h := EncodeLength(n);
    DecimalDigits(n);
    PaddedNumber(h, if n < 10 then 3 else if n < 100 then 2 else 1);
  }

  lemma DecimalDigits(n: nat)
    requires n <= MAX_BODY_LENGTH
    ensures n / 100 < 10 && n == 100 * (n / 100) + 10 * (n / 10 % 10) + n % 10
    ensures n < 100 ==> n / 100 == 0
    ensures n < 10 ==> n / 10 % 10 == 0
  {
  }

  lemma PaddedNumber(h: seq<byte>, k: nat)
    requires |h| == HEADER_LENGTH && 1 <= k <= 3
    requires forall i | 0 <= i < k :: h[i] == 32
    requires forall i | k <= i < HEADER_LENGTH :: IsDigit(h[i])
    ensures Atoi(Text(h))
         == (if k == 1 then 100 * (h[1] as nat - 48) else 0)
            + (if k <= 2 then 10 * (h[2] as nat - 48) else 0)
            + (h[3] as nat - 48)
  {
    hide DigitsValue, SkipSpaces, Text;
    TextOf(h);
    SpacesSkipped(h, k);
    ThreeDigits(h[k..]);
  }

  lemma {:induction false} TextOf(h: seq<byte>)
    requires forall i | 0 <= i < |h| :: h[i] != 0
    ensures Text(h) == h
  {
    if h != [] {
      TextOf(h[1..]);
    }
  }

  lemma {:induction false} SpacesSkipped(h: seq<byte>, k: nat)
    requires k <= |h| && (forall i | 0 <= i < k :: IsSpace(h[i])) && (k < |h| ==> !IsSpace(h[k]))
    ensures SkipSpaces(h) == h[k..]
  {
    if k > 0 {
      assert IsSpace(h[0]);
      SpacesSkipped(h[1..], k - 1);
      assert h[1..][k - 1..] == h[k..];
    }
  }

  lemma ThreeDigits(t: seq<byte>)
    requires 1 <= |t| <= 3 && forall i | 0 <= i < |t| :: IsDigit(t[i])
    ensures
      var d := seq(|t|, i requires 0 <= i < |t| => t[i] as nat - 48);
      DigitsValue(t, 0) == if |t| == 1 then d[0]
                           else if |t| == 2 then 10 * d[0] + d[1]
                           else 100 * d[0] + 10 * d[1] + d[2]
  {
    var a := t[0] as nat - 48;
    assert DigitsValue(t, 0) == DigitsValue(t[1..], a);
    if |t| >= 2 {
      var b := t[1] as nat - 48;
      assert DigitsValue(t[1..], a) == DigitsValue(t[2..], 10 * a + b) by { assert t[1..][1..] == t[2..]; }
      if |t| == 3 {
        assert t[2..][1..] == [];
        assert DigitsValue(t[2..], 10 * a + b) == 10 * (10 * a + b) + (t[2] as nat - 48);
      }
    }
  }

  // ---------- Which headers there are ----------

  /** k spaces, and then a number without leading zeros. */
  predicate JustifiedFrom(h: seq<byte>, k: nat) {
    && |h| == 4 && k <= 3
    && (forall i | 0 <= i < k :: h[i] == 32)
    && (forall i | k <= i < 4 :: 48 <= h[i] <= 57)
    && (h[k] == 48 ==> k == 3)
  }

  predicate RightJustified(h: seq<byte>) {
    exists k: nat | k <= 3 :: JustifiedFrom(h, k)
  }

  lemma WrittenJustified(n: nat)
    requires n <= 512
    ensures RightJustified(EncodeLength(n))
  {
    assert JustifiedFrom(EncodeLength(n), if n < 10 then 3 else if n < 100 then 2 else 1);
  }

  /** What encode_header writes for a length is the one right-justified number that is read back as it. */
  lemma CanonicalHeader(h: seq<byte>, n: nat)
    requires n <= 512
    ensures h == EncodeLength(n) <==> RightJustified(h) && DecodeLength(h) == Some(n)
  {
    hide Atoi, Text, EncodeLength, DecodeLength, JustifiedFrom;
    LengthRoundTrip(n);
    WrittenJustified(n);
    if RightJustified(h) && DecodeLength(h) == Some(n) {
      var k: nat :| k <= 3 && JustifiedFrom(h, k);
      JustifiedDigits(h, k, n);
    }
  }

  lemma JustifiedDigits(h: seq<byte>, k: nat, n: nat)
    requires n <= 512 && JustifiedFrom(h, k) && DecodeLength(h) == Some(n)
    ensures h == EncodeLength(n)
  {
    hide DigitsValue, Atoi, Text;
    HeaderInRange(h);
    if k == 0 {
      FourDigits(h);
    } else {
      PaddedNumber(h, k);
      DigitsOf(n, if k == 1 then h[1] as nat - 48 else 0, if k <= 2 then h[2] as nat - 48 else 0, h[3] as nat - 48);
      hide DecodeLength;
    }
  }

  lemma DigitsOf(n: nat, a: nat, b: nat, c: nat)
    requires n == 100 * a + 10 * b + c && a < 10 && b < 10 && c < 10
    ensures n / 100 == a && n / 10 % 10 == b && n % 10 == c
    ensures n < 100 <==> a == 0
    ensures n < 10 <==> a == 0 && b == 0
  {
    var t := 10 * a + b;
    assert n == 10 * t + c && n / 10 == t && n % 10 == c;
    assert t / 10 == a && t % 10 == b;
    assert n == 100 * a + (10 * b + c) && 10 * b + c < 100;
  }

  lemma FourDigits(h: seq<byte>)
    requires |h| == 4 && (forall i | 0 <= i < 4 :: IsDigit(h[i])) && h[0] != 48
    ensures Atoi(Text(h)) >= 1000
  {
    TextOf(h);
    assert SkipSpaces(h) == h;
    var a := h[0] as nat - 48;
    assert DigitsValue(h, 0) == DigitsValue(h[1..], a);
    DigitsAtLeast(h[1..], a, 1000 * a);
  }

  /** The digits to come can only add to what the leading ones are worth. */
  lemma DigitsAtLeast(t: seq<byte>, acc: nat, bound: nat)
    requires |t| == 3 && (forall i | 0 <= i < 3 :: IsDigit(t[i])) && bound == 1000 * acc
    ensures DigitsValue(t, acc) >= bound
  {
    var b, c := t[0] as nat - 48, t[1] as nat - 48;
    assert t[1..][0] == t[1] && t[1..][1..] == t[2..] && t[2..][0] == t[2] && t[2..][1..] == [];
    assert DigitsValue(t, acc) == DigitsValue(t[1..], 10 * acc + b);
    assert DigitsValue(t[1..], 10 * acc + b) == DigitsValue(t[2..], 10 * (10 * acc + b) + c);
  }

  lemma {:induction false} DigitsBelow(t: seq<byte>, acc: nat, limit: nat)
    requires acc < limit
    ensures DigitsValue(t, acc) < limit * Pow10(|t|)
    decreases |t|
  {
    if t != [] && IsDigit(t[0]) {
      DigitsBelow(t[1..], acc * 10 + (t[0] as nat - 48), limit * 10);
      assert limit * Pow10(|t|) == limit * 10 * Pow10(|t| - 1);
    } else {
      Pow10Positive(|t|, limit);
    }
  }

  function Pow10(k: nat): nat {
    if k == 0 then 1 else 10 * Pow10(k - 1)
  }

  lemma {:induction false} Pow10Positive(k: nat, limit: nat)
    ensures limit * Pow10(k) >= limit
  {
    if k > 0 {
      Pow10Positive(k - 1, limit);
    }
  }

  lemma {:induction false} TextShorter(h: seq<byte>)
    ensures |Text(h)| <= |h|
  {
    if h != [] {
      TextShorter(h[1..]);
    }
  }

  lemma {:induction false} SkipShorter(s: seq<byte>)
    ensures |SkipSpaces(s)| <= |s|
  {
    if s != [] {
      SkipShorter(s[1..]);
    }
  }

  lemma {:induction false} Pow10Grows(a: nat, b: nat)
    requires a <= b
    ensures Pow10(a) <= Pow10(b)
  {
    if a < b {
      Pow10Grows(a, b - 1);
    }
  }

  /** A header is accepted exactly if the number in it is between 0 and 512. */
  lemma HeaderInRange(h: seq<byte>)
    requires |h| == 4
    ensures DecodeLength(h) == if 0 <= Atoi(Text(h)) <= 512 then Some(Atoi(Text(h))) else None
  {
    hide Atoi, Text;
    TextShorter(h);
    AtoiBounded(Text(h));
  }

  lemma AtoiBounded(s: seq<byte>)
    requires |s| <= 4
    ensures -10000 < Atoi(s) < 10000
  {
    hide DigitsValue, SkipSpaces, Pow10;
    SkipShorter(s);
    var t := SkipSpaces(s);
    FourDigitsBelow(t);
    if t != [] {
      FourDigitsBelow(t[1..]);
    }
  }

  lemma FourDigitsBelow(t: seq<byte>)
    requires |t| <= 4
    ensures DigitsValue(t, 0) < 10000
  {
    DigitsBelow(t, 0, 1);
    Pow10Grows(|t|, 4);
    assert Pow10(4) == 10000;
  }

  predicate AllDigits(d: seq<byte>) {
    forall i | 0 <= i < |d| :: 48 <= d[i] <= 57
  }

  /** A decimal number, from its last digit. */
  function Decimal(d: seq<byte>): nat
    requires AllDigits(d)
    decreases |d|
  {
    if d == [] then 0
    else
      var k := |d| - 1;
      10 * Decimal(d[..k]) + (d[k] as nat - 48)
  }

  /**
    atoi: leading white space is passed over, one sign is heeded, and the digits that follow
    are read up to whatever comes next.
   */
  lemma AtoiReads(pad: seq<byte>, sign: seq<byte>, digits: seq<byte>, rest: seq<byte>)
    requires forall i | 0 <= i < |pad| :: pad[i] == 32 || 9 <= pad[i] <= 13
    requires sign == [] || sign == [43] || sign == [45]
    requires digits != [] && AllDigits(digits) && (rest != [] ==> !(48 <= rest[0] <= 57))
    ensures Atoi(pad + (sign + (digits + rest)))
         == if sign == [45] then -(Decimal(digits) as int) else Decimal(digits) as int
  {
    hide DigitsValue, SkipSpaces, Decimal, Atoi;
    var d := digits + rest;
    PadSkipped(pad, sign + d);
    SignRead(pad + (sign + d), sign, d);
    WholeNumber(digits, rest);
  }

  lemma SignRead(s: seq<byte>, sign: seq<byte>, d: seq<byte>)
    requires SkipSpaces(s) == sign + d && d != [] && 48 <= d[0] <= 57
    requires sign == [] || sign == [43] || sign == [45]
    ensures Atoi(s) == if sign == [45] then -(DigitsValue(d, 0) as int) else DigitsValue(d, 0) as int
  {
    hide DigitsValue, SkipSpaces;
    if sign == [] {
      assert sign + d == d;
    } else {
      assert (sign + d)[1..] == d;
    }
  }

  lemma WholeNumber(digits: seq<byte>, rest: seq<byte>)
    requires AllDigits(digits) && (rest != [] ==> !(48 <= rest[0] <= 57))
    ensures DigitsValue(digits + rest, 0) == Decimal(digits)
  {
    DigitsRead(digits, rest, []);
    assert [] + digits == digits && Decimal([]) == 0;
  }

  lemma {:induction false} PadSkipped(pad: seq<byte>, tail: seq<byte>)
    requires forall i | 0 <= i < |pad| :: pad[i] == 32 || 9 <= pad[i] <= 13
    requires tail != [] && !IsSpace(tail[0])
    ensures SkipSpaces(pad + tail) == tail
  {
    if pad == [] {
      assert pad + tail == tail;
    } else {
      assert (pad + tail)[1..] == pad[1..] + tail;
      PadSkipped(pad[1..], tail);
    }
  }

  lemma {:induction false} DigitsRead(digits: seq<byte>, rest: seq<byte>, before: seq<byte>)
    requires AllDigits(before) && AllDigits(digits) && (rest != [] ==> !(48 <= rest[0] <= 57))
    ensures AllDigits(before + digits)
    ensures DigitsValue(digits + rest, Decimal(before)) == Decimal(before + digits)
    decreases |digits|
  {
    if digits == [] {
      assert digits + rest == rest && before + digits == before;
    } else {
      var more := before + [digits[0]];
      assert more[..|before|] == before && more + digits[1..] == before + digits;
      assert (digits + rest)[1..] == digits[1..] + rest;
      DigitsRead(digits[1..], rest, more);
    }
  }

  /** The header says how long the body is, or is refused; even an empty body is read. */
  const CHAT_FORMAT := Codec(0, HEADER_LENGTH, DecodeLength, false)

  /** The bytes of a message after body_length and encode_header. */
  function Encoded(body: seq<byte>): Frame
    requires |body| <= MAX_BODY_LENGTH
  {
    EncodeLength(|body|) + body
  }

  lemma EncodedIsFrame(body: seq<byte>)
    requires |body| <= MAX_BODY_LENGTH
    ensures IsFrame(CHAT_FORMAT, Encoded(body)) && Encoded(body)[HEADER_LENGTH..] == body
  {
    LengthRoundTrip(|body|);
    assert Encoded(body)[..HEADER_LENGTH] == EncodeLength(|body|);
  }

  function EncodedAll(bodies: seq<seq<byte>>): (fs: seq<Frame>)
    requires forall b | b in bodies :: |b| <= MAX_BODY_LENGTH
    ensures |fs| == |bodies|
  {
    seq(|bodies|, i requires 0 <= i < |bodies| => assert bodies[i] in bodies; Encoded(bodies[i]))
  }

  /** Parsing the concatenation of any encoded messages returns exactly those messages. */
  lemma StreamRoundTrip(bodies: seq<seq<byte>>)
    requires forall b | b in bodies :: |b| <= MAX_BODY_LENGTH
    ensures Parse(CHAT_FORMAT, Concat(EncodedAll(bodies))) == Parsed(EncodedAll(bodies), [], false)
    ensures forall i | 0 <= i < |bodies| :: EncodedAll(bodies)[i][HEADER_LENGTH..] == bodies[i]
  {
    var fs := EncodedAll(bodies);
    forall i | 0 <= i < |bodies| ensures IsFrame(CHAT_FORMAT, fs[i]) && fs[i][HEADER_LENGTH..] == bodies[i] {
      assert bodies[i] in bodies;
      EncodedIsFrame(bodies[i]);
    }
    ParseConcat(CHAT_FORMAT, fs, []);
    assert Concat(fs) + [] == Concat(fs);
    assert Parse(CHAT_FORMAT, []) == Parsed([], [], false);
    assert fs + [] == fs;
  }

  /**
    A header need not be one that EncodeLength writes to be accepted: signs and early stops
    are, so what is relayed must be the bytes themselves.
   */
  lemma NonCanonicalHeader()
    ensures DecodeLength([43, 55, 120, 120]) == Some(7)   // "+7xx"
    ensures EncodeLength(7) != [43, 55, 120, 120]
    ensures DecodeLength([45, 49, 32, 32]) == None        // "-1  "
    ensures DecodeLength([45, 48, 32, 32]) == Some(0)     // "-0  "
  {
    TextOf([43, 55, 120, 120]);
    TextOf([45, 49, 32, 32]);
    TextOf([45, 48, 32, 32]);
    assert [43 as byte, 55, 120, 120][1..] == [55, 120, 120];
    assert [55 as byte, 120, 120][1..] == [120, 120];
    assert [45 as byte, 49, 32, 32][1..] == [49, 32, 32];
    assert [49 as byte, 32, 32][1..] == [32, 32];
    assert [45 as byte, 48, 32, 32][1..] == [48, 32, 32];
    assert [48 as byte, 32, 32][1..] == [32, 32];
  }

  // ---------- The message object ----------

  class ChatMessage {
    const data: array<byte>
    var bodyLength: nat

    ghost predicate Valid()
      reads this
    {
      data.Length == HEADER_LENGTH + MAX_BODY_LENGTH && bodyLength <= MAX_BODY_LENGTH
    }

    constructor ()
      ensures Valid() && fresh(data) && bodyLength == 0
    {
      data := new byte[HEADER_LENGTH + MAX_BODY_LENGTH];
      bodyLength := 0;
    }

    /** The bytes that data() and length() delimit. */
    function Contents(): seq<byte>
      requires Valid()
      reads this, data
    {
      data[..HEADER_LENGTH + bodyLength]
    }

    method SetBodyLength(n: nat)
      requires Valid()
      modifies `bodyLength
      ensures Valid() && bodyLength == if n <= MAX_BODY_LENGTH then n else MAX_BODY_LENGTH
    {
      bodyLength := n;
      if bodyLength > MAX_BODY_LENGTH {
        bodyLength := MAX_BODY_LENGTH;
      }
    }

    method DecodeHeader() returns (ok: bool)
      requires Valid()
      modifies `bodyLength
      ensures Valid()
      ensures match DecodeLength(data[..HEADER_LENGTH])
              case Some(n) => ok && bodyLength == n && IsFrame(CHAT_FORMAT, Contents())
              case None => !ok && bodyLength == 0
    {
      bodyLength := ToSizeT(Atoi(Text(data[..HEADER_LENGTH])));
      if bodyLength > MAX_BODY_LENGTH {
        bodyLength := 0;
        return false;
      }
      assert Contents()[..HEADER_LENGTH] == data[..HEADER_LENGTH];
      return true;
    }

    method EncodeHeader()
      requires Valid()
      modifies data
      ensures Valid() && data[HEADER_LENGTH..] == old(data[HEADER_LENGTH..])
      ensures Contents() == Encoded(old(data[HEADER_LENGTH..HEADER_LENGTH + bodyLength]))
      ensures RightJustified(data[..4]) && DecodeLength(data[..4]) == Some(bodyLength)
      ensures IsFrame(CHAT_FORMAT, Contents())
    {
      var header := EncodeLength(bodyLength);
      var i := 0;
      while i < HEADER_LENGTH
        invariant 0 <= i <= HEADER_LENGTH
        invariant data[..i] == header[..i]
        invariant data[HEADER_LENGTH..] == old(data[HEADER_LENGTH..])
      {
        data[i] := header[i];
        i := i + 1;
      }
      ghost var body := old(data[HEADER_LENGTH..HEADER_LENGTH + bodyLength]);
      assert body == data[HEADER_LENGTH..HEADER_LENGTH + bodyLength] by {
        assert body == old(data[HEADER_LENGTH..])[..bodyLength];
        assert data[HEADER_LENGTH..HEADER_LENGTH + bodyLength] == data[HEADER_LENGTH..][..bodyLength];
      }
      assert Contents() == data[..HEADER_LENGTH] + data[HEADER_LENGTH..HEADER_LENGTH + bodyLength];
      EncodedIsFrame(body);
      WrittenJustified(bodyLength);
      assert data[..4] == header;
      LengthRoundTrip(bodyLength);
    }
  }
}
