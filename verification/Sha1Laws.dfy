/** SHA-1 said without its code: the constants as square roots, the functions bit by bit, one known digest. */
module Sha1Laws {
  import opened Sha1

  // ----- constants and functions -------------------------------------------------------------

  /** The constant of a round is the root of 2, 3, 5 or 10, cut off after thirty binary places. */
  lemma ConstantsAreRoots(t: nat)
    ensures var k := RoundConstant(t) as int;
      var n := if t < 20 then 2 else if t < 40 then 3 else if t < 60 then 5 else 10;
      k * k <= n * 0x1000_0000_0000_0000 < (k + 1) * (k + 1)
  {}

  /** Bit j of v; bit 0 is the lowest. */
  predicate One(v: bv32, j: bv32)
    requires j < 32
  {
    (v >> j) & 1 == 1
  }

  /** Bit by bit, b chooses between c and d. */
  lemma SelectsBits(t: nat, s: Words, j: bv32)
    requires j < 32 && t < 20
    ensures One(Choose(t, s), j) <==> if One(s.b, j) then One(s.c, j) else One(s.d, j)
  {}

  /** Bit by bit, an odd number of ones. */
  lemma ParityOfBits(t: nat, s: Words, j: bv32)
    requires j < 32 && (20 <= t < 40 || 60 <= t)
    ensures One(Choose(t, s), j) <==> ((One(s.b, j) != One(s.c, j)) != One(s.d, j))
  {
    hide *;
    ParityOfThree(s.b, s.c, s.d, j);
    ChooseIsXor(t, s);
    var v := Choose(t, s);
    assert One(v, j) == One(s.b ^ s.c ^ s.d, j);
  }

  lemma ChooseIsXor(t: nat, s: Words)
    requires 20 <= t < 40 || 60 <= t
    ensures Choose(t, s) == s.b ^ s.c ^ s.d
  {}

  lemma ParityOfThree(x: bv32, y: bv32, z: bv32, j: bv32)
    requires j < 32
    ensures One(x ^ y ^ z, j) <==> ((One(x, j) != One(y, j)) != One(z, j))
  {
    hide One;
    ParityOfTwo(x, y, j);
    ParityOfTwo(x ^ y, z, j);
  }

  lemma ParityOfTwo(x: bv32, y: bv32, j: bv32)
    requires j < 32
    ensures One(x ^ y, j) <==> One(x, j) != One(y, j)
  {}

  /** Bit by bit, at least two ones. */
  lemma MajorityOfBits(t: nat, s: Words, j: bv32)
    requires j < 32 && 40 <= t < 60
    ensures One(Choose(t, s), j) <==>
      (One(s.b, j) && One(s.c, j)) || (One(s.b, j) && One(s.d, j)) || (One(s.c, j) && One(s.d, j))
  {}

  /** The rotations that are used: bit j goes to bit j + n, and what leaves at the top comes in at the
      bottom. */
  lemma RotatesByOne(v: bv32, j: bv32)
    requires j < 32
    ensures One(Rotl(v, 1), (j + 1) % 32) <==> One(v, j)
  {}

  lemma RotatesByFive(v: bv32, j: bv32)
    requires j < 32
    ensures One(Rotl(v, 5), (j + 5) % 32) <==> One(v, j)
  {}

  lemma RotatesByThirty(v: bv32, j: bv32)
    requires j < 32
    ensures One(Rotl(v, 30), (j + 30) % 32) <==> One(v, j)
  {}

  /** Four bytes make a word, the highest first. */
  lemma WordIsBigEndian(b: seq<bv8>, i: nat)
    requires 4 * i + 3 < |b|
    ensures Word(b, i) as bv64 == 0x100_0000 * b[4 * i] as bv64 + 0x1_0000 * b[4 * i + 1] as bv64
                                  + 0x100 * b[4 * i + 2] as bv64 + b[4 * i + 3] as bv64
  {}

  // ----- padding -----------------------------------------------------------------------------

  lemma {:induction false} ZerosAreZero(n: nat)
    ensures forall i :: 0 <= i < n ==> Zeros(n)[i] == 0
  {
    if n > 0 { ZerosAreZero(n - 1); }
  }

  /** Byte j of n; byte 0 is the lowest. */
  function ByteOf(n: nat, j: nat): bv8 { (Shift(n, j) % 256) as bv8 }

  /** The message, a one bit, the fewest zeros that fill the last block, and the number of bits in eight
      bytes, the highest first. */
  lemma PaddingIsExact(m: seq<bv8>)
    ensures var p, n, bits := Padded(m), |Padded(m)|, 8 * |m| % 0x1_0000_0000_0000_0000;
      && n % 64 == 0 && |m| + 9 <= n < |m| + 9 + 64
      && p[..|m|] == m && p[|m|] == 0x80
      && (forall i :: |m| < i < n - 8 ==> p[i] == 0)
      && (forall j :: 0 <= j < 8 ==> p[n - 1 - j] == ByteOf(bits, j))
  {
    hide LengthBytes, Zeros, ByteOf, PadLength;
    var z, bits := PadLength(|m|), 8 * |m| % WRAP;
    PadFills(|m|);
    ZerosAreZero(z);
    LengthAtEnd(m + [0x80] + Zeros(z), bits);
  }

  lemma PadFills(n: nat)
    ensures PadLength(n) < 64 && (n + 1 + PadLength(n) + 8) % 64 == 0
  {
    var r := n % 64;
    assert PadLength(n) == if r < 56 then 55 - r else 119 - r;
    assert n == 64 * (n / 64) + r;
    WholeBlocks(n / 64, if r < 56 then 1 else 2);
  }

  lemma WholeBlocks(k: nat, j: nat)
    ensures (64 * k + 64 * j) % 64 == 0
  {
    assert 64 * k + 64 * j == 64 * (k + j);
  }

  lemma LengthAtEnd(a: seq<bv8>, bits: nat)
    ensures var p := a + LengthBytes(bits, 8);
      forall j :: 0 <= j < 8 ==> p[|p| - 1 - j] == ByteOf(bits, j)
  {
    hide LengthBytes, Shift;
    var p := a + LengthBytes(bits, 8);
    forall j | 0 <= j < 8 ensures p[|p| - 1 - j] == ByteOf(bits, j) {
      LengthByteAt(bits, 8, 7 - j);
    }
  }

  // ----- the digest of "abc" -----------------------------------------------------------------

  const ABC: seq<bv8> := [0x61, 0x62, 0x63]

  /** "abc", padded. */
  function Block(): (b: seq<bv8>)
    ensures |b| == 64
  {
    [0x61, 0x62, 0x63, 0x80] + Zeros(59) + [0x18]
  }

  /** Byte i of the block. */
  function ByteAt(i: nat): bv8 {
    if i == 0 then 0x61 else if i == 1 then 0x62 else if i == 2 then 0x63 else if i == 3 then 0x80
    else if i == 63 then 0x18 else 0
  }

  lemma BlockBytes()
    ensures forall i :: 0 <= i < 64 ==> Block()[i] == ByteAt(i)
  {
    hide Zeros;
    ZerosAreZero(59);
  }

  lemma LastBytes()
    ensures forall j :: 0 <= j < 8 ==> ByteOf(24, j) == ByteAt(63 - j)
  {
    hide Shift;
    Shift24();
  }

  lemma PaddedBytes()
    ensures |Padded(ABC)| == 64 && forall i :: 0 <= i < 64 ==> Padded(ABC)[i] == ByteAt(i)
  {
    hide Padded, ByteOf;
    PaddingIsExact(ABC);
    LastBytes();
    var p := Padded(ABC);
    assert |ABC| == 3 && |p| == 64;
    assert 8 * |ABC| % 0x1_0000_0000_0000_0000 == 24;
    forall i | 0 <= i < 64 ensures p[i] == ByteAt(i) {
      if i < 3 { assert p[i] == p[..3][i]; }
      if i >= 56 {
        hide ByteAt;
        var j := 63 - i;
        assert p[64 - 1 - j] == ByteOf(24, j);
        assert ByteOf(24, j) == ByteAt(63 - j);
      }
    }
  }

  lemma AbcPadded()
    ensures Padded(ABC) == Block()
  {
    hide Padded, Block, ByteAt;
    BlockBytes();
    PaddedBytes();
  }

  lemma Shift24()
    ensures Shift(24, 0) == 24 && forall j :: 1 <= j < 8 ==> Shift(24, j) == 0
  {
    forall j | 1 <= j < 8 ensures Shift(24, j) == 0 { ShiftZero(j - 1); }
  }

  lemma {:induction false} ShiftZero(j: nat)
    ensures Shift(0, j) == 0
  {
    if j > 0 { ShiftZero(j - 1); }
  }

  /** Sixteen words of the schedule in a row. */
  datatype Window = Window(
    w0: bv32, w1: bv32, w2: bv32, w3: bv32, w4: bv32, w5: bv32, w6: bv32, w7: bv32,
    w8: bv32, w9: bv32, w10: bv32, w11: bv32, w12: bv32, w13: bv32, w14: bv32, w15: bv32)

  /** The window moves by one word. */
  function Moved(w: Window): Window {
    Window(w.w1, w.w2, w.w3, w.w4, w.w5, w.w6, w.w7, w.w8, w.w9, w.w10, w.w11, w.w12, w.w13, w.w14, w.w15,
           Mix(w.w13, w.w8, w.w2, w.w0))
  }

  /** The window before round t, and the words. */
  datatype Place = Place(t: nat, w: Window, s: Words)

  function Next(x: Place): Place { Place(x.t + 1, Moved(x.w), Round(x.s, x.t, x.w.w0)) }

  function After(x: Place, n: nat): Place
    decreases n
  {
    if n == 0 then x else After(Next(x), n - 1)
  }

  predicate Shows(b: seq<bv8>, x: Place)
    requires |b| == 64
  {
    var w := x.w;
    && x.s == Rounds(INITIAL, b, x.t)
    && w.w0 == Schedule(b, x.t) && w.w1 == Schedule(b, x.t + 1) && w.w2 == Schedule(b, x.t + 2)
    && w.w3 == Schedule(b, x.t + 3) && w.w4 == Schedule(b, x.t + 4) && w.w5 == Schedule(b, x.t + 5)
    && w.w6 == Schedule(b, x.t + 6) && w.w7 == Schedule(b, x.t + 7) && w.w8 == Schedule(b, x.t + 8)
    && w.w9 == Schedule(b, x.t + 9) && w.w10 == Schedule(b, x.t + 10) && w.w11 == Schedule(b, x.t + 11)
    && w.w12 == Schedule(b, x.t + 12) && w.w13 == Schedule(b, x.t + 13) && w.w14 == Schedule(b, x.t + 14)
    && w.w15 == Schedule(b, x.t + 15)
  }

  lemma {:induction false} AfterShows(b: seq<bv8>, x: Place, n: nat)
    requires |b| == 64 && Shows(b, x)
    ensures Shows(b, After(x, n)) && After(x, n).t == x.t + n
    decreases n
  {
    hide Shows, Moved, Round;
    if n > 0 {
      NextShows(b, x);
      AfterShows(b, Next(x), n - 1);
    }
  }

  lemma NextShows(b: seq<bv8>, x: Place)
    requires |b| == 64 && Shows(b, x)
    ensures Shows(b, Next(x))
  {
    hide Mix, Round, Word;
    var t := x.t + 16;
    assert Schedule(b, t) == Mix(Schedule(b, t - 3), Schedule(b, t - 8), Schedule(b, t - 14), Schedule(b, t - 16));
    assert Rounds(INITIAL, b, x.t + 1) == Round(Rounds(INITIAL, b, x.t), x.t, Schedule(b, x.t));
  }

  const P0 := Place(0,
    Window(0x61626380, 0x00000000, 0x00000000, 0x00000000, 0x00000000, 0x00000000,
           0x00000000, 0x00000000, 0x00000000, 0x00000000, 0x00000000, 0x00000000,
           0x00000000, 0x00000000, 0x00000000, 0x00000018),
    Words(0x67452301, 0xEFCDAB89, 0x98BADCFE, 0x10325476, 0xC3D2E1F0))

  const P5 := Place(5,
    Window(0x00000000, 0x00000000, 0x00000000, 0x00000000, 0x00000000, 0x00000000,
           0x00000000, 0x00000000, 0x00000000, 0x00000000, 0x00000018, 0xC2C4C700,
           0x00000000, 0x00000030, 0x85898E01, 0x00000000),
    Words(0xCFD499DE, 0xCDD8E11B, 0x284E43C2, 0x626414DB, 0xC045BF0C))

  const P10 := Place(10,
    Window(0x00000000, 0x00000000, 0x00000000, 0x00000000, 0x00000000, 0x00000018,
           0xC2C4C700, 0x00000000, 0x00000030, 0x85898E01, 0x00000000, 0x00000060,
           0x0B131C03, 0x00000030, 0x85898EC1, 0x16263806),
    Words(0x8351F929, 0x4B6AE328, 0x27A301F5, 0x664F8C30, 0x0FF1F290))

  const P15 := Place(15,
    Window(0x00000018, 0xC2C4C700, 0x00000000, 0x00000030, 0x85898E01, 0x00000000,
           0x00000060, 0x0B131C03, 0x00000030, 0x85898EC1, 0x16263806, 0x00000000,
           0x00000180, 0x2C4C700C, 0x000000F0, 0x93AFB507),
    Words(0x196BEE77, 0x9128F695, 0x1181ED99, 0x18C623F9, 0x7EF6A7A2))

  const P20 := Place(20,
    Window(0x00000000, 0x00000060, 0x0B131C03, 0x00000030, 0x85898EC1, 0x16263806,
           0x00000000, 0x00000180, 0x2C4C700C, 0x000000F0, 0x93AFB507, 0x5898E048,
           0x8E9A9202, 0x00000600, 0xB131C0F0, 0x16263BC6),
    Words(0xFD9E1D7D, 0xDC64901D, 0x20AA99CA, 0xD3A49608, 0xC82F758B))

  const P25 := Place(25,
    Window(0x16263806, 0x00000000, 0x00000180, 0x2C4C700C, 0x000000F0, 0x93AFB507,
           0x5898E048, 0x8E9A9202, 0x00000600, 0xB131C0F0, 0x16263BC6, 0x4EBED41E,
           0x626380A1, 0x16263806, 0x000018C0, 0xD2E138C4),
    Words(0xC7567DC6, 0xD541F12D, 0x884A0D21, 0x0CE88EFF, 0x868DEC32))

  const P30 := Place(30,
    Window(0x93AFB507, 0x5898E048, 0x8E9A9202, 0x00000600, 0xB131C0F0, 0x16263BC6,
           0x4EBED41E, 0x626380A1, 0x16263806, 0x000018C0, 0xD2E138C4, 0x00000F00,
           0x3AFB5079, 0x898E04E5, 0xE2BA3C2B, 0x000060C0),
    Words(0xC5FBAF5D, 0x8370B52E, 0xD2AA1365, 0x6F8D7EF5, 0x12104EE9))

  const P35 := Place(35,
    Window(0x16263BC6, 0x4EBED41E, 0x626380A1, 0x16263806, 0x000018C0, 0xD2E138C4,
           0x00000F00, 0x3AFB5079, 0x898E04E5, 0xE2BA3C2B, 0x000060C0, 0x053A37CD,
           0x74458547, 0xDA9415ED, 0x26380A16, 0x626383A1),
    Words(0x21796AD4, 0x2C0EBC11, 0x811BEA82, 0xCEE1174C, 0xC499ED01))

  const P40 := Place(40,
    Window(0xD2E138C4, 0x00000F00, 0x3AFB5079, 0x898E04E5, 0xE2BA3C2B, 0x000060C0,
           0x053A37CD, 0x74458547, 0xDA9415ED, 0x26380A16, 0x626383A1, 0x4EBF54DE,
           0x3835B44B, 0x0000F600, 0x1E84C7A3, 0x98E04D98),
    Words(0x32DE1CBA, 0x4C986405, 0xF718E5CF, 0x03D447F6, 0xF72EEC32))

  const P45 := Place(45,
    Window(0x000060C0, 0x053A37CD, 0x74458547, 0xDA9415ED, 0x26380A16, 0x626383A1,
           0x4EBF54DE, 0x3835B44B, 0x0000F600, 0x1E84C7A3, 0x98E04D98, 0x651D16A0,
           0x62658CA1, 0x458544D6, 0x44584CB7, 0x7BA06619),
    Words(0x40F28E09, 0xEE1B1AAF, 0x5FC64F71, 0x25C28357, 0xFF21F7B7))

  const P50 := Place(50,
    Window(0x626383A1, 0x4EBF54DE, 0x3835B44B, 0x0000F600, 0x1E84C7A3, 0x98E04D98,
           0x651D16A0, 0x62658CA1, 0x458544D6, 0x44584CB7, 0x7BA06619, 0x6380AEA2,
           0x0AE55269, 0x627B49A1, 0x7CD45C9D, 0x000F0000),
    Words(0x120731C5, 0xBAF39337, 0xAFAB40B2, 0x2806E11B, 0x8714787C))

  const P55 := Place(55,
    Window(0x98E04D98, 0x651D16A0, 0x62658CA1, 0x458544D6, 0x44584CB7, 0x7BA06619,
           0x6380AEA2, 0x0AE55269, 0x627B49A1, 0x7CD45C9D, 0x000F0000, 0xFB50753A,
           0xEC6765E8, 0xBA3C2BE2, 0x0060C000, 0x3A37CD05),
    Words(0x7B71F76D, 0x27E9F1D8, 0x792410DB, 0x8E11EB59, 0x99076CB3))

  const P60 := Place(60,
    Window(0x7BA06619, 0x6380AEA2, 0x0AE55269, 0x627B49A1, 0x7CD45C9D, 0x000F0000,
           0xFB50753A, 0xEC6765E8, 0xBA3C2BE2, 0x0060C000, 0x3A37CD05, 0x458546F4,
           0xB8599DD6, 0x380A1A26, 0x01E02203, 0xE7CC3456),
    Words(0x3F52DE5A, 0x09D785FD, 0x3498BFD4, 0xF211824F, 0xD79915AB))

  const P65 := Place(65,
    Window(0x000F0000, 0xFB50753A, 0xEC6765E8, 0xBA3C2BE2, 0x0060C000, 0x3A37CD05,
           0x458546F4, 0xB8599DD6, 0x380A1A26, 0x01E02203, 0xE7CC3456, 0xE6E60B69,
           0x00F60A00, 0x5795EF4F, 0x822E0879, 0x7E577CE2),
    Words(0x19DFA7AC, 0x6B61C9E1, 0xED9B0082, 0x9523272C, 0xF5D5B051))

  const P70 := Place(70,
    Window(0x3A37CD05, 0x458546F4, 0xB8599DD6, 0x380A1A26, 0x01E02203, 0xE7CC3456,
           0xE6E60B69, 0x00F60A00, 0x5795EF4F, 0x822E0879, 0x7E577CE2, 0x07EF2103,
           0x8544E945, 0xEB39DAB8, 0xC205991A, 0x80AECB63),
    Words(0x3F2588C2, 0x497093C0, 0xDE37534A, 0x030F7CAD, 0x4405957E))

  const P75 := Place(75,
    Window(0xE7CC3456, 0xE6E60B69, 0x00F60A00, 0x5795EF4F, 0x822E0879, 0x7E577CE2,
           0x07EF2103, 0x8544E945, 0xEB39DAB8, 0xC205991A, 0x80AECB63, 0x7D84CA48,
           0x7B499B62, 0x8E8010A8, 0x4B5B8A77, 0x3216B69A),
    Words(0x5EE76897, 0x11793F6F, 0x3B6D0B79, 0xCE616779, 0xF0667E31))

  const P80 := Place(80,
    Window(0x7E577CE2, 0x07EF2103, 0x8544E945, 0xEB39DAB8, 0xC205991A, 0x80AECB63,
           0x7D84CA48, 0x7B499B62, 0x8E8010A8, 0x4B5B8A77, 0x3216B69A, 0x0507E88D,
           0x705BEE96, 0x60C0FF00, 0xA28362D0, 0x1DA6B91D),
    Words(0x42541B35, 0x5738D5E1, 0x21834873, 0x681E6DF6, 0xD8FDF6AD))

  lemma Part0()
    ensures After(P0, 5) == P5
  {}

  lemma Part5()
    ensures After(P5, 5) == P10
  {}

  lemma Part10()
    ensures After(P10, 5) == P15
  {}

  lemma Part15()
    ensures After(P15, 5) == P20
  {}

  lemma Part20()
    ensures After(P20, 5) == P25
  {}

  lemma Part25()
    ensures After(P25, 5) == P30
  {}

  lemma Part30()
    ensures After(P30, 5) == P35
  {}

  lemma Part35()
    ensures After(P35, 5) == P40
  {}

  lemma Part40()
    ensures After(P40, 5) == P45
  {}

  lemma Part45()
    ensures After(P45, 5) == P50
  {}

  lemma Part50()
    ensures After(P50, 5) == P55
  {}

  lemma Part55()
    ensures After(P55, 5) == P60
  {}

  lemma Part60()
    ensures After(P60, 5) == P65
  {}

  lemma Part65()
    ensures After(P65, 5) == P70
  {}

  lemma Part70()
    ensures After(P70, 5) == P75
  {}

  lemma Part75()
    ensures After(P75, 5) == P80
  {}

  lemma StartShows()
    ensures Shows(Block(), P0)
  {
    hide Shows, Word, Block;
    FirstWords();
    ShowsWords(Block(), P0);
  }

  lemma ShowsWords(b: seq<bv8>, x: Place)
    requires |b| == 64 && x.t == 0 && x.s == INITIAL
    requires x.w.w0 == Word(b, 0) && x.w.w1 == Word(b, 1) && x.w.w2 == Word(b, 2) && x.w.w3 == Word(b, 3)
    requires x.w.w4 == Word(b, 4) && x.w.w5 == Word(b, 5) && x.w.w6 == Word(b, 6) && x.w.w7 == Word(b, 7)
    requires x.w.w8 == Word(b, 8) && x.w.w9 == Word(b, 9) && x.w.w10 == Word(b, 10) && x.w.w11 == Word(b, 11)
    requires x.w.w12 == Word(b, 12) && x.w.w13 == Word(b, 13) && x.w.w14 == Word(b, 14) && x.w.w15 == Word(b, 15)
    ensures Shows(b, x)
  {
    hide Word, Schedule;
    forall t: nat | t < 16 ensures Schedule(b, t) == Word(b, t) { FirstSixteen(b, t); }
  }

  lemma FirstSixteen(b: seq<bv8>, t: nat)
    requires |b| == 64 && t < 16
    ensures Schedule(b, t) == Word(b, t)
  {}

  lemma FirstWords()
    ensures Word(Block(), 0) == 0x61626380 && Word(Block(), 15) == 0x18
    ensures forall t :: 1 <= t < 15 ==> Word(Block(), t) == 0
  {
    ZerosAreZero(59);
    hide Zeros;
    forall t | 1 <= t < 15 ensures Word(Block(), t) == 0 {
      var b := Block();
      assert b[4 * t] == 0 && b[4 * t + 1] == 0 && b[4 * t + 2] == 0 && b[4 * t + 3] == 0;
    }
  }

  lemma AfterAll()
    ensures After(P0, 80) == P80
  {
    hide After;
    Part0();
    Part5();
    AfterBoth(P0, 5, 5);
    Part10();
    AfterBoth(P0, 10, 5);
    Part15();
    AfterBoth(P0, 15, 5);
    Part20();
    AfterBoth(P0, 20, 5);
    Part25();
    AfterBoth(P0, 25, 5);
    Part30();
    AfterBoth(P0, 30, 5);
    Part35();
    AfterBoth(P0, 35, 5);
    Part40();
    AfterBoth(P0, 40, 5);
    Part45();
    AfterBoth(P0, 45, 5);
    Part50();
    AfterBoth(P0, 50, 5);
    Part55();
    AfterBoth(P0, 55, 5);
    Part60();
    AfterBoth(P0, 60, 5);
    Part65();
    AfterBoth(P0, 65, 5);
    Part70();
    AfterBoth(P0, 70, 5);
    Part75();
    AfterBoth(P0, 75, 5);
  }

  lemma {:induction false} AfterBoth(x: Place, m: nat, n: nat)
    ensures After(x, m + n) == After(After(x, m), n)
    decreases m
  {
    hide Next;
    if m > 0 { AfterBoth(Next(x), m - 1, n); }
  }

  lemma OneBlock(b: seq<bv8>)
    requires |b| == 64
    ensures Feed(INITIAL, b).0 == Add(INITIAL, Rounds(INITIAL, b, 80))
  {
    hide Rounds, Add;
    assert b[..64] == b && |b[64..]| == 0;
  }

  lemma AbcRounds()
    ensures Rounds(INITIAL, Block(), 80) == P80.s
  {
    hide Block, Rounds, After, Shows, Schedule, Round, Moved;
    StartShows();
    AfterAll();
    AfterShows(Block(), P0, 80);
    RoundsShown(Block(), P80);
  }

  lemma RoundsShown(b: seq<bv8>, x: Place)
    requires |b| == 64 && Shows(b, x)
    ensures x.s == Rounds(INITIAL, b, x.t)
  {}

  /** The first example of section 7.3 of RFC 3174. */
  lemma DigestOfAbc()
    ensures Digest(ABC) == Words(0xA9993E36, 0x4706816A, 0xBA3E2571, 0x7850C26C, 0x9CD0D89D)
  {
    hide Block, Padded, Rounds, Feed;
    AbcPadded();
    AbcRounds();
    OneBlock(Block());
  }
}
