/** Bytes on the wire, optional values, and the fixed-width integer layouts. */
module Bytes {
  newtype byte = n: int | 0 <= n < 256

  datatype Option<+T> = None | Some(value: T)

  const U32_LIMIT: nat := 0x1_0000_0000

  type u32 = n: nat | n < U32_LIMIT

  /** The k low-order bytes of n, least significant first. */
  function LittleEndian(n: nat, k: nat): (s: seq<byte>)
    ensures |s| == k
  {
    if k == 0 then [] else [(n % 256) as byte] + LittleEndian(n / 256, k - 1)
  }

  function FromLittleEndian(s: seq<byte>): nat {
    if s == [] then 0 else s[0] as nat + 256 * FromLittleEndian(s[1..])
  }

  function Pow256(k: nat): (p: nat)
    ensures p > 0
  {
    if k == 0 then 1 else 256 * Pow256(k - 1)
  }

  lemma {:induction false} LittleEndianRoundTrip(n: nat, k: nat)
    requires n < Pow256(k)
    ensures FromLittleEndian(LittleEndian(n, k)) == n
  {
    if k == 0 {
    } else {
      assert n / 256 < Pow256(k - 1);
      LittleEndianRoundTrip(n / 256, k - 1);
    }
  }

  /** A uint32 field. */
  function U32Bytes(n: u32): (s: seq<byte>)
    ensures |s| == 4
  {
    LittleEndian(n, 4)
  }

  function U32Of(s: seq<byte>): u32
    requires |s| == 4
  {
    Pow256Of4();
    FromLittleEndianBound(s);
    FromLittleEndian(s)
  }

  lemma {:induction false} FromLittleEndianBound(s: seq<byte>)
    ensures FromLittleEndian(s) < Pow256(|s|)
  {
    if s != [] {
      FromLittleEndianBound(s[1..]);
    }
  }

  lemma Pow256Of4()
    ensures Pow256(4) == U32_LIMIT
  {
    assert Pow256(1) == 256;
    assert Pow256(2) == 65536;
    assert Pow256(3) == 16777216;
  }

  lemma U32RoundTrip(n: u32)
    ensures U32Of(U32Bytes(n)) == n
  {
    Pow256Of4();
    LittleEndianRoundTrip(n, 4);
  }

  /** The least significant byte of a field comes first. */
  lemma U32Layout(n: u32)
    ensures U32Bytes(n)
         == [(n % 256) as byte, (n / 256 % 256) as byte, (n / 65536 % 256) as byte, (n / 16777216) as byte]
  {
    var a, b, c := n / 256, n / 65536, n / 16777216;
    assert a / 256 == b && b / 256 == c && c < 256;
    assert LittleEndian(c, 1) == [(c % 256) as byte] + LittleEndian(c / 256, 0);
    assert LittleEndian(b, 2) == [(b % 256) as byte] + LittleEndian(c, 1);
    assert LittleEndian(a, 3) == [(a % 256) as byte] + LittleEndian(b, 2);
    assert LittleEndian(n, 4) == [(n % 256) as byte] + LittleEndian(a, 3);
  }

  /** A uint64 on whose bits the handshake works. */
  datatype U64 = U64(bits: bv64)

  function Octet(b: byte): bv8 {
    (b as int) as bv8
  }

  /** The octets of x, least significant first. */
  function Octets(x: bv64): (s: seq<bv8>)
    ensures |s| == 8
  {
    [(x & 0xFF) as bv8, ((x >> 8) & 0xFF) as bv8, ((x >> 16) & 0xFF) as bv8, ((x >> 24) & 0xFF) as bv8,
     ((x >> 32) & 0xFF) as bv8, ((x >> 40) & 0xFF) as bv8, ((x >> 48) & 0xFF) as bv8, (x >> 56) as bv8]
  }

  function Word(s: seq<bv8>): bv64
    requires |s| == 8
  {
    (s[0] as bv64) | ((s[1] as bv64) << 8) | ((s[2] as bv64) << 16) | ((s[3] as bv64) << 24)
    | ((s[4] as bv64) << 32) | ((s[5] as bv64) << 40) | ((s[6] as bv64) << 48) | ((s[7] as bv64) << 56)
  }

  function U64Bytes(x: U64): (s: seq<byte>)
    ensures |s| == 8
  {
    seq(8, i requires 0 <= i < 8 => Octets(x.bits)[i] as byte)
  }

  function U64Of(s: seq<byte>): U64
    requires |s| == 8
  {
    U64(Word(seq(8, i requires 0 <= i < 8 => Octet(s[i]))))
  }

  lemma OctetOfByte(b: bv8)
    ensures Octet(b as byte) == b
  {
  }

  lemma WordOfOctets(x: bv64)
    ensures Word(Octets(x)) == x
  {
  }

  lemma U64RoundTrip(x: U64)
    ensures U64Of(U64Bytes(x)) == x
  {
    var s := U64Bytes(x);
    var o := seq(8, i requires 0 <= i < 8 => Octet(s[i]));
    forall i | 0 <= i < 8 ensures o[i] == Octets(x.bits)[i] {
      OctetOfByte(Octets(x.bits)[i]);
    }
    assert o == Octets(x.bits);
    WordOfOctets(x.bits);
  }

  /** A word below 256 is its first byte. */
  lemma U64LowByte(o: bv8)
    ensures U64Bytes(U64(o as bv64)) == [o as byte, 0, 0, 0, 0, 0, 0, 0]
  {
    var x := o as bv64;
    assert Octets(x) == [o, 0, 0, 0, 0, 0, 0, 0] by { LowOctets(o); }
  }

  lemma LowOctets(o: bv8)
    ensures Octets(o as bv64) == [o, 0, 0, 0, 0, 0, 0, 0]
  {
  }

  /** Dividing a word by 256 moves its bytes up by one: the least significant byte comes first. */
  lemma U64Layout(x: U64)
    ensures U64Bytes(U64(x.bits >> 8)) == U64Bytes(x)[1..] + [0]
  {
    ShiftedOctets(x.bits);
    ShiftedBytes(Octets(x.bits), Octets(x.bits >> 8));
    hide Octets;
  }

  lemma ShiftedBytes(o: seq<bv8>, p: seq<bv8>)
    requires |o| == |p| == 8 && p == o[1..] + [0]
    ensures seq(8, i requires 0 <= i < 8 => p[i] as byte) == seq(8, i requires 0 <= i < 8 => o[i] as byte)[1..] + [0]
  {
  }

  lemma ShiftedOctets(x: bv64)
    ensures Octets(x >> 8) == Octets(x)[1..] + [0]
  {
  }

  // ---------- And back ----------

  lemma {:induction false} FromLittleEndianRoundTrip(s: seq<byte>)
    ensures LittleEndian(FromLittleEndian(s), |s|) == s
  {
    if s != [] {
      FromLittleEndianRoundTrip(s[1..]);
      assert FromLittleEndian(s) % 256 == s[0] as nat && FromLittleEndian(s) / 256 == FromLittleEndian(s[1..]);
    }
  }

  /** No two byte sequences are the same field. */
  lemma U32BytesRoundTrip(s: seq<byte>)
    requires |s| == 4
    ensures U32Bytes(U32Of(s)) == s
  {
    FromLittleEndianRoundTrip(s);
  }

  lemma NextOctet(v: bv8)
    requires v != 0xFF
    ensures (v + 1) as int == v as int + 1
  {
  }

  /** Every byte is the number of an octet. */
  lemma {:induction false} OctetNumbered(n: nat) returns (v: bv8)
    requires n < 256
    ensures v as int == n
  {
    if n == 0 {
      v := 0;
    } else {
      var u := OctetNumbered(n - 1);
      NextOctet(u);
      v := u + 1;
    }
  }

  lemma ByteOfOctet(b: byte)
    ensures Octet(b) as byte == b
  {
    var v := OctetNumbered(b as nat);
    OctetOfByte(v);
  }

  lemma OctetsOfWord(s: seq<bv8>)
    requires |s| == 8
    ensures Octets(Word(s)) == s
  {
  }

  /** No two byte sequences are the same word. */
  lemma U64BytesRoundTrip(s: seq<byte>)
    requires |s| == 8
    ensures U64Bytes(U64Of(s)) == s
  {
    var o := seq(8, i requires 0 <= i < 8 => Octet(s[i]));
    OctetsOfWord(o);
    forall i | 0 <= i < 8 ensures U64Bytes(U64Of(s))[i] == s[i] {
      ByteOfOctet(s[i]);
    }
  }
}
