/** SHA-1, the function (sections 4 and 6.1 of RFC 3174). */
module Sha1 {

  /** The five words of the state, or of a round. */
  datatype Words = Words(a: bv32, b: bv32, c: bv32, d: bv32, e: bv32)

  const INITIAL := Words(0x67452301, 0xEFCDAB89, 0x98BADCFE, 0x10325476, 0xC3D2E1F0)

  // ----- one block ---------------------------------------------------------------------------

  function Rotl(v: bv32, n: nat): bv32
    requires 0 < n < 32
  {
    (v << n) | (v >> (32 - n))
  }

  function Word(b: seq<bv8>, i: nat): bv32
    requires 4 * i + 3 < |b|
  {
    ((b[4 * i] as bv32) << 24) | ((b[4 * i + 1] as bv32) << 16) | ((b[4 * i + 2] as bv32) << 8)
    | (b[4 * i + 3] as bv32)
  }

  /** The tth word of the schedule. */
  function Schedule(b: seq<bv8>, t: nat): bv32
    requires |b| == 64
  {
    if t < 16 then Word(b, t)
    else Mix(Schedule(b, t - 3), Schedule(b, t - 8), Schedule(b, t - 14), Schedule(b, t - 16))
  }

  function Mix(w: bv32, x: bv32, y: bv32, z: bv32): bv32 { Rotl(w ^ x ^ y ^ z, 1) }

  function Choose(t: nat, s: Words): bv32 {
    if t < 20 then (s.b & s.c) | (!s.b & s.d)
    else if t < 40 then s.b ^ s.c ^ s.d
    else if t < 60 then (s.b & s.c) | (s.b & s.d) | (s.c & s.d)
    else s.b ^ s.c ^ s.d
  }

  function RoundConstant(t: nat): bv32 {
    if t < 20 then 0x5A827999 else if t < 40 then 0x6ED9EBA1 else if t < 60 then 0x8F1BBCDC else 0xCA62C1D6
  }

  function Round(s: Words, t: nat, w: bv32): Words {
    Words(Rotl(s.a, 5) + Choose(t, s) + s.e + RoundConstant(t) + w, s.a, Rotl(s.b, 30), s.c, s.d)
  }

  function Rounds(s: Words, b: seq<bv8>, t: nat): Words
    requires |b| == 64
  {
    if t == 0 then s else Round(Rounds(s, b, t - 1), t - 1, Schedule(b, t - 1))
  }

  function Add(s: Words, r: Words): Words { Words(s.a + r.a, s.b + r.b, s.c + r.c, s.d + r.d, s.e + r.e) }

  function Compress(s: Words, b: seq<bv8>): Words
    requires |b| == 64
  {
    Add(s, Rounds(s, b, 80))
  }

  // ----- a message ---------------------------------------------------------------------------

  /** The state after the whole blocks of m, and what is left of m. */
  function Feed(s: Words, m: seq<bv8>): (r: (Words, seq<bv8>))
    ensures |r.1| == |m| % 64
    decreases |m|
  {
    if |m| < 64 then (s, m) else Feed(Compress(s, m[..64]), m[64..])
  }

  /** Feeding a message in two parts is feeding it at once. */
  lemma {:induction false} FeedAppend(s: Words, m: seq<bv8>, n: seq<bv8>)
    ensures var (s1, left) := Feed(s, m); Feed(s, m + n) == Feed(s1, left + n)
    decreases |m|
  {
    hide Compress;
    if |m| >= 64 {
      assert (m + n)[..64] == m[..64] && (m + n)[64..] == m[64..] + n;
      FeedAppend(Compress(s, m[..64]), m[64..], n);
    }
  }

  const WRAP := 0x1_0000_0000_0000_0000

  function Zeros(n: nat): (z: seq<bv8>)
    ensures |z| == n
  {
    if n == 0 then [] else Zeros(n - 1) + [0]
  }

  /** The length in bits in eight bytes, the highest first; it wraps around at 64 bits. */
  function LengthBytes(bits: nat, k: nat): (s: seq<bv8>)
    ensures |s| == k
  {
    if k == 0 then [] else LengthBytes(bits / 256, k - 1) + [(bits % 256) as bv8]
  }

  /** The message with a one bit, zeros up to eight bytes before a block end, and its length. */
  function Padded(m: seq<bv8>): seq<bv8> {
    m + [0x80] + Zeros(PadLength(|m|)) + LengthBytes(8 * |m| % WRAP, 8)
  }

  function PadLength(n: nat): nat { (119 - n % 64) % 64 }

  /** Whole blocks, so that nothing is left over. */
  lemma PaddedIsWhole(m: seq<bv8>)
    ensures |Padded(m)| % 64 == 0 && Feed(INITIAL, Padded(m)).1 == []
  {
    hide Zeros, LengthBytes, Feed;
    assert (|m| + 1 + PadLength(|m|) + 8) % 64 == 0;
  }

  /** The digest: the compression function folded over the blocks of the padded message. */
  function Digest(m: seq<bv8>): Words { Feed(INITIAL, Padded(m)).0 }

  function Shift(n: nat, i: nat): nat { if i == 0 then n else Shift(n / 256, i - 1) }

  lemma {:induction false} LengthByteAt(bits: nat, k: nat, j: nat)
    requires j < k
    ensures Shift(bits, k - 1 - j) % 256 < 256
    ensures LengthBytes(bits, k)[j] == (Shift(bits, k - 1 - j) % 256) as bv8
    decreases k
  {
    if j < k - 1 { LengthByteAt(bits / 256, k - 1, j); }
  }
}
