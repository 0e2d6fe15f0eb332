/** The challenge/response transformation of the connection handshake. */
module Handshake {
  import opened Bytes

  /** The two nibbles of every octet exchanged. */
  function Nibbles(x: bv64): bv64 {
    ((x & 0xF0F0F0F0F0F0F0F0) >> 4) | ((x & 0x0F0F0F0F0F0F0F0F) << 4)
  }

  function Scramble(n: U64): U64 {
    U64(Nibbles(n.bits ^ 0xD34E3AB6AF1E0B5F) ^ 0xB3A5A3CC47EE45FD)
  }

  /** The nibble swap is its own inverse; the exclusive-ors are undone in reverse order. */
  function Unscramble(n: U64): U64 {
    U64(Nibbles(n.bits ^ 0xB3A5A3CC47EE45FD) ^ 0xD34E3AB6AF1E0B5F)
  }

  lemma ScrambleUndone(x: U64)
    ensures Unscramble(Scramble(x)) == x
  {
  }

  lemma UnscrambleUndone(x: U64)
    ensures Scramble(Unscramble(x)) == x
  {
  }

  /** Scramble is a bijection: every word is the response to exactly one challenge. */
  lemma ScrambleBijection(challenge: U64, response: U64)
    ensures Scramble(challenge) == response <==> challenge == Unscramble(response)
  {
    ScrambleUndone(challenge);
    UnscrambleUndone(response);
  }

  // ---------- Octet by octet ----------

  function SwapNibbles(o: bv8): bv8 {
    (o << 4) | (o >> 4)
  }

  function EachSwapped(o: seq<bv8>): seq<bv8>
    requires |o| == 8
  {
    [SwapNibbles(o[0]), SwapNibbles(o[1]), SwapNibbles(o[2]), SwapNibbles(o[3]),
     SwapNibbles(o[4]), SwapNibbles(o[5]), SwapNibbles(o[6]), SwapNibbles(o[7])]
  }

  predicate OctetsSwapped(x: bv64, d: bv64) {
    && (x & 0xFF) as bv8 == SwapNibbles((d & 0xFF) as bv8)
    && ((x >> 8) & 0xFF) as bv8 == SwapNibbles(((d >> 8) & 0xFF) as bv8)
    && ((x >> 16) & 0xFF) as bv8 == SwapNibbles(((d >> 16) & 0xFF) as bv8)
    && ((x >> 24) & 0xFF) as bv8 == SwapNibbles(((d >> 24) & 0xFF) as bv8)
    && ((x >> 32) & 0xFF) as bv8 == SwapNibbles(((d >> 32) & 0xFF) as bv8)
    && ((x >> 40) & 0xFF) as bv8 == SwapNibbles(((d >> 40) & 0xFF) as bv8)
    && ((x >> 48) & 0xFF) as bv8 == SwapNibbles(((d >> 48) & 0xFF) as bv8)
    && (x >> 56) as bv8 == SwapNibbles((d >> 56) as bv8)
  }

  lemma NibblesSwap(x: bv64, d: bv64)
    requires x == Nibbles(d)
    ensures OctetsSwapped(x, d)
  {
  }

  lemma WordsSwapped(x: bv64, d: bv64)
    requires OctetsSwapped(x, d)
    ensures Octets(x) == EachSwapped(Octets(d))
  {
    hide SwapNibbles;
  }

  lemma OctetwiseSwap(x: bv64, d: bv64)
    requires x == Nibbles(d)
    ensures Octets(x) == EachSwapped(Octets(d))
  {
    hide *;
    NibblesSwap(x, d);
    WordsSwapped(x, d);
  }

  lemma DifferenceSwapped(a: U64, b: U64)
    ensures Scramble(a).bits ^ Scramble(b).bits == Nibbles(a.bits ^ b.bits)
  {
  }

  /** Two answers differ by what their challenges differ by, the nibbles of each octet exchanged. */
  lemma ScrambledDifference(a: U64, b: U64)
    ensures Octets(Scramble(a).bits ^ Scramble(b).bits) == EachSwapped(Octets(a.bits ^ b.bits))
  {
    hide *;
    DifferenceSwapped(a, b);
    OctetwiseSwap(Scramble(a).bits ^ Scramble(b).bits, a.bits ^ b.bits);
  }

  /**
    The answer to the challenge 0, and with it every answer: it differs from that one by the
    challenge, the nibbles of each octet exchanged.
   */
  lemma ScrambledZero(a: U64)
    ensures Scramble(U64(0)) == U64(0x8E4100A7BD0FF508)
    ensures Octets(Scramble(a).bits ^ 0x8E4100A7BD0FF508) == EachSwapped(Octets(a.bits))
  {
    hide Scramble, Octets, EachSwapped;
    ZeroScrambled();
    XorZero(a.bits);
    ScrambledDifference(a, U64(0));
  }

  lemma ZeroScrambled()
    ensures Scramble(U64(0)) == U64(0x8E4100A7BD0FF508)
  {
  }

  lemma XorZero(x: bv64)
    ensures x ^ 0 == x
  {
  }

  /** Each challenge accepts one eight-byte answer a client can compute, shared with no other challenge. */
  lemma ResponsesDistinct(a: U64, b: U64)
    ensures U64Of(U64Bytes(Scramble(a))) == Scramble(b) <==> a == b
  {
    U64RoundTrip(Scramble(a));
    ScrambleUndone(a);
    ScrambleUndone(b);
  }
}
