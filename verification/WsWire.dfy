/** Frames byte by byte, and the examples of section 5.7 of RFC 6455. */
module WsWire {
  import opened Common
  import opened WsFrame
  import opened WsMessage

  // ----- masking, bit by bit -----------------------------------------------------------------

  /** Bit j of n; bit 0 is the lowest. */
  predicate BitAt(n: nat, j: nat) { if j == 0 then n % 2 == 1 else BitAt(n / 2, j - 1) }

  lemma {:induction false} BitsOfXor(a: nat, b: nat, n: nat, j: nat)
    requires j < n
    ensures BitAt(XorBits(a, b, n), j) <==> BitAt(a, j) != BitAt(b, j)
    decreases j
  {
    var x := XorBits(a / 2, b / 2, n - 1);
    HalfAndBit(x, XorBit(a, b));
    if j > 0 { BitsOfXor(a / 2, b / 2, n - 1, j - 1); }
  }

  /** Bit j of c is one exactly when bit j of a and bit j of b differ. */
  predicate FlippedAt(c: nat, a: nat, b: nat, j: nat) { BitAt(c, j) <==> BitAt(a, j) != BitAt(b, j) }

  /** c is a with the bits of b flipped. */
  predicate Flipped(c: byte, a: byte, b: byte) { AllFlipped(c as nat, a as nat, b as nat) }

  predicate AllFlipped(c: nat, a: nat, b: nat) { forall j: nat :: j < 8 ==> FlippedAt(c, a, b, j) }

  lemma XorFlips(a: byte, b: byte)
    ensures Flipped(Xor(a, b), a, b)
  {
    var m, n := a as nat, b as nat;
    forall j: nat | j < 8 ensures FlippedAt(XorBits(m, n, 8), m, n, j) {
      BitsOfXor(m, n, 8, j);
    }
  }

  /** Eight bits are all there is to a byte. */
  lemma FlippedIsOne(c: byte, d: byte, a: byte, b: byte)
    requires Flipped(c, a, b) && Flipped(d, a, b)
    ensures c == d
  {
    var m, n := c as nat, d as nat;
    forall j: nat | j < 8 ensures BitAt(m, j) == BitAt(n, j) {
      assert FlippedAt(m, a as nat, b as nat, j) && FlippedAt(n, a as nat, b as nat, j);
    }
    PowTwo();
    SameBits(m, n, 8);
  }

  lemma {:induction false} SameBits(m: nat, n: nat, k: nat)
    requires m < Pow(2, k) && n < Pow(2, k)
    requires forall j :: 0 <= j < k ==> BitAt(m, j) == BitAt(n, j)
    ensures m == n
    decreases k
  {
    if k > 0 {
      forall j | 0 <= j < k - 1 ensures BitAt(m / 2, j) == BitAt(n / 2, j) {
        assert BitAt(m, j + 1) == BitAt(n, j + 1);
      }
      SameBits(m / 2, n / 2, k - 1);
      assert BitAt(m, 0) == BitAt(n, 0);
    }
  }

  // ----- the layout of a frame ---------------------------------------------------------------

  /** The payload length that the header tells, from its bytes. */
  function LengthAt(s: seq<byte>): nat
    requires |s| >= HeaderSize(s)
  {
    var code := s[1] as nat % 128;
    if code == 126 then 0x100 * s[2] as nat + s[3] as nat
    else if code == 127 then
      0x100_0000_0000_0000 * s[2] as nat + 0x1_0000_0000_0000 * s[3] as nat
      + 0x100_0000_0000 * s[4] as nat + 0x1_0000_0000 * s[5] as nat
      + 0x100_0000 * s[6] as nat + 0x1_0000 * s[7] as nat + 0x100 * s[8] as nat + s[9] as nat
    else code
  }

  /** Two bytes, with two or eight more for a longer length. */
  function HeaderSize(s: seq<byte>): (h: nat)
    ensures h >= 2
  {
    if |s| < 2 then 2 else 2 + if s[1] % 128 == 126 then 2 else if s[1] % 128 == 127 then 8 else 0
  }

  /** Where the payload begins: behind the header, and the key of a masked frame. */
  function DataAt(s: seq<byte>): nat
    requires |s| >= 2
  {
    HeaderSize(s) + if s[1] >= 128 then 4 else 0
  }

  predicate Complete(s: seq<byte>) {
    && |s| >= HeaderSize(s) && |s| >= DataAt(s) + LengthAt(s)
  }

  /** What stands on the wire as the payload is p: byte i flipped by byte i % 4 of the key. */
  predicate Carries(s: seq<byte>, p: seq<byte>)
    requires Complete(s)
  {
    var h, d, n := HeaderSize(s), DataAt(s), LengthAt(s);
    && |p| == n
    && if s[1] >= 128 then forall i :: 0 <= i < n ==> Flipped(p[i], s[d + i], s[h + i % 4])
       else p == s[d..d + n]
  }

  /** The frame at the start of s is what its bytes say: FIN in the highest bit of the first, the
      opcode in its lowest four, the key behind the length, then the payload. */
  predicate Says(s: seq<byte>, f: Frame, rest: seq<byte>)
    requires Complete(s)
  {
    var h, code := HeaderSize(s), s[1] % 128;
    && f.fin == (s[0] >= 128) && f.rsv == s[0] as nat / 16 % 8 && f.opcode == s[0] as nat % 16
    && f.form == (if code == 126 then Sixteen else if code == 127 then SixtyFour else Seven)
    && f.key == (if s[1] >= 128 then Some(s[h..h + 4]) else None)
    && Carries(s, f.payload) && rest == s[DataAt(s) + LengthAt(s)..]
  }

  lemma ValueOfTwo(s: seq<byte>)
    requires |s| == 2
    ensures Value(s) == 0x100 * s[0] as nat + s[1] as nat
  {
    ValueOfNext(s[..1], s[1], s);
    ValueOfNext([], s[0], s[..1]);
  }

  lemma ValueOfNext(a: seq<byte>, last: byte, s: seq<byte>)
    requires s == a + [last]
    ensures Value(s) == 256 * Value(a) + last as nat
  {
    assert s[..|s| - 1] == a;
  }

  lemma ValueOfEight(s: seq<byte>)
    requires |s| == 8
    ensures Value(s) ==
      0x100_0000_0000_0000 * s[0] as nat + 0x1_0000_0000_0000 * s[1] as nat
      + 0x100_0000_0000 * s[2] as nat + 0x1_0000_0000 * s[3] as nat
      + 0x100_0000 * s[4] as nat + 0x1_0000 * s[5] as nat + 0x100 * s[6] as nat + s[7] as nat
  {
    hide Value;
    ValueOfTwo(s[..2]);
    forall i | 2 <= i < 8 ensures Value(s[..i + 1]) == 256 * Value(s[..i]) + s[i] as nat {
      ValueOfNext(s[..i], s[i], s[..i + 1]);
    }
    assert s[..8] == s;
    assert Value(s[..3]) == 256 * Value(s[..2]) + s[2] as nat;
    assert Value(s[..4]) == 256 * Value(s[..3]) + s[3] as nat;
    assert Value(s[..5]) == 256 * Value(s[..4]) + s[4] as nat;
    assert Value(s[..6]) == 256 * Value(s[..5]) + s[5] as nat;
    assert Value(s[..7]) == 256 * Value(s[..6]) + s[6] as nat;
    assert Value(s[..8]) == 256 * Value(s[..7]) + s[7] as nat;
  }

  lemma LengthIsRead(s: seq<byte>)
    requires |s| >= 2
    ensures var r := ReadLength(s[1] as nat % 128, s[2..]);
      && (r.Some? <==> |s| >= HeaderSize(s))
      && (r.Some? ==> r.value.1 == LengthAt(s) && r.value.2 == s[HeaderSize(s)..])
      && (r.Some? ==> var code := s[1] % 128;
            r.value.0 == if code == 126 then Sixteen else if code == 127 then SixtyFour else Seven)
  {
    hide Value;
    var code := s[1] as nat % 128;
    if code == 126 && |s| >= 4 {
      ValueOfTwo(s[2..][..2]);
    } else if code == 127 && |s| >= 10 {
      ValueOfEight(s[2..][..8]);
    }
  }

  lemma KeyIsRead(s: seq<byte>)
    requires |s| >= HeaderSize(s) && |s| >= 2
    ensures var r, h := ReadKey(s[1] >= 128, s[HeaderSize(s)..]), HeaderSize(s);
      && (r.Some? <==> |s| >= DataAt(s))
      && (r.Some? ==> r.value.0 == (if s[1] >= 128 then Some(s[h..h + 4]) else None) && r.value.1 == s[DataAt(s)..])
  {
    var h := HeaderSize(s);
    if |s| >= h + 4 { assert s[h..][..4] == s[h..h + 4] && s[h..][4..] == s[h + 4..]; }
  }

  lemma CoverFlips(key: seq<byte>, data: seq<byte>)
    requires |key| == 4
    ensures |Cover(Some(key), data)| == |data|
    ensures forall i :: 0 <= i < |data| ==> Flipped(Cover(Some(key), data)[i], data[i], key[i % 4])
  {
    forall i | 0 <= i < |data| ensures Flipped(Cover(Some(key), data)[i], data[i], key[i % 4]) {
      XorFlips(data[i], key[i % 4]);
    }
  }

  /** The parts of the frame at the start of s. */
  function FrameAt(s: seq<byte>): Frame
    requires Complete(s)
  {
    var h, d, code := HeaderSize(s), DataAt(s), s[1] % 128;
    var key := if s[1] >= 128 then Some(s[h..h + 4]) else None;
    Frame(s[0] >= 128, s[0] as nat / 16 % 8, s[0] as nat % 16,
          if code == 126 then Sixteen else if code == 127 then SixtyFour else Seven,
          key, Cover(key, s[d..d + LengthAt(s)]))
  }

  lemma FrameIsRead(s: seq<byte>)
    ensures ReadFrame(s).Some? <==> Complete(s)
    ensures Complete(s) ==> ReadFrame(s) == Some((FrameAt(s), s[DataAt(s) + LengthAt(s)..]))
  {
    hide ReadLength, ReadKey, LengthAt, Cover, HeaderSize;
    if |s| >= 2 {
      LengthIsRead(s);
      if |s| >= HeaderSize(s) {
        KeyIsRead(s);
        var d, n := DataAt(s), LengthAt(s);
        if |s| >= d + n { assert s[d..][..n] == s[d..d + n] && s[d..][n..] == s[d + n..]; }
      }
    }
  }

  /** A frame is read exactly when all of it is there, and it is what its bytes say. */
  lemma FrameOnTheWire(s: seq<byte>)
    ensures ReadFrame(s).Some? <==> Complete(s)
    ensures ReadFrame(s).Some? ==> Says(s, ReadFrame(s).value.0, ReadFrame(s).value.1)
  {
    hide ReadFrame, Flipped, LengthAt, Masked, HeaderSize;
    FrameIsRead(s);
    if Complete(s) {
      var h, d, n := HeaderSize(s), DataAt(s), LengthAt(s);
      if s[1] >= 128 { CoverFlips(s[h..h + 4], s[d..d + n]); }
    }
  }

  /** Two payloads that one frame carries are the same. */
  lemma CarriesOne(s: seq<byte>, p: seq<byte>, q: seq<byte>)
    requires Complete(s) && Carries(s, p) && Carries(s, q)
    ensures p == q
  {
    hide Flipped, HeaderSize, LengthAt;
    var h, d := HeaderSize(s), DataAt(s);
    if s[1] >= 128 {
      forall i | 0 <= i < |p| ensures p[i] == q[i] { FlippedIsOne(p[i], q[i], s[d + i], s[h + i % 4]); }
    }
  }

  // ----- receiving and sending ---------------------------------------------------------------

  /** What the receiver does with a frame that carries p: 8 in the low four bits of its first byte ends
      the connection, 9 is answered with p, 10 is passed over, and any other frame adds p to the message,
      which is complete when the highest bit is set.  An incomplete frame ends the connection. */
  lemma OpcodesOnTheWire(s: seq<byte>, acc: seq<byte>, p: seq<byte>)
    ensures !Complete(s) ==> Receive(s, acc) == Ended([])
    ensures Complete(s) && Carries(s, p) ==>
      var opcode, rest := s[0] % 16, s[DataAt(s) + LengthAt(s)..];
      && (opcode == 8 ==> Receive(s, acc) == Ended([]))
      && (opcode == 9 ==> Receive(s, acc) == Answered(p, Receive(rest, acc)))
      && (opcode == 10 ==> Receive(s, acc) == Receive(rest, acc))
      && (opcode !in {8, 9, 10} && s[0] >= 128 ==> Receive(s, acc) == Message(acc + p, rest, []))
      && (opcode !in {8, 9, 10} && s[0] < 128 ==> Receive(s, acc) == Receive(rest, acc + p))
  {
    hide ReadFrame, Carries, HeaderSize, LengthAt;
    FrameOnTheWire(s);
    if Complete(s) && Carries(s, p) { CarriesOne(s, p, ReadFrame(s).value.0.payload); }
  }

  lemma FlipBack(c: byte, a: byte, b: byte)
    requires Flipped(c, a, b)
    ensures Flipped(a, c, b)
  {
    var k, m, n := c as nat, a as nat, b as nat;
    forall j: nat | j < 8 ensures FlippedAt(m, k, n, j) { assert FlippedAt(k, m, n, j); }
  }

  /** What is sent, byte by byte: FIN and the low four bits of the opcode, the shortest length, the key
      and the data with byte i flipped by byte i % 4 of the key. */
  lemma SentOnTheWire(opcode: nat, data: seq<byte>, key: Option<seq<byte>>)
    requires |data| < Pow(256, 8) && (key.Some? ==> |key.value| == 4)
    ensures Valid(Sent(opcode, data, key))
    ensures var s, n := Encode(Sent(opcode, data, key)), |data|;
      && Complete(s) && |s| == DataAt(s) + n && LengthAt(s) == n
      && HeaderSize(s) == (if n <= 125 then 2 else if n <= 65535 then 4 else 10)
      && s[0] as nat == 128 + opcode % 16 && (s[1] >= 128 <==> key.Some?)
      && (key.None? ==> s[DataAt(s)..] == data)
      && (key.Some? ==> s[HeaderSize(s)..HeaderSize(s) + 4] == key.value
                        && forall i :: 0 <= i < n ==> Flipped(s[DataAt(s) + i], data[i], key.value[i % 4]))
  {
    hide ReadFrame, Flipped, Encode, LengthAt, Pow;
    var f := Sent(opcode, data, key);
    SentIsValid(opcode, data, key);
    var s, n := Encode(f), |data|;
    FrameBack(f, []);
    assert s + [] == s;
    FrameOnTheWire(s);
    var h, d := HeaderSize(s), DataAt(s);
    assert |s| == d + n;
    if key.Some? {
      forall i | 0 <= i < n ensures Flipped(s[d + i], data[i], key.value[i % 4]) {
        assert key.value[i % 4] == s[h + i % 4];
        FlipBack(data[i], s[d + i], s[h + i % 4]);
      }
    } else {
      assert s[d..] == s[d..d + n];
    }
  }

  /** A ping with up to 125 bytes is answered with the same bytes behind 8A and their number. */
  lemma PongOnTheWire(p: seq<byte>)
    requires |p| <= 125
    ensures |p| < Pow(256, 8) && Pongs([p]) == [0x8A, |p| as byte] + p
  {
    SmallPow();
    hide Encode, Pow;
    SentOnTheWire(10, p, None);
    var s := Encode(Sent(10, p, None));
    assert Pongs([p]) == Pongs([]) + s by { assert [p][..0] == []; }
    assert s == [s[0], s[1]] + s[2..];
  }

  // ----- the examples of section 5.7 ---------------------------------------------------------

  /** "Hello" */
  const HELLO: seq<byte> := [0x48, 0x65, 0x6C, 0x6C, 0x6F]

  lemma HelloFlipped()
    ensures Flipped(0x48, 0x7F, 0x37) && Flipped(0x65, 0x9F, 0xFA) && Flipped(0x6C, 0x4D, 0x21)
    ensures Flipped(0x6C, 0x51, 0x3D) && Flipped(0x6F, 0x58, 0x37)
  {
    EightBits(0x48, 0x7F, 0x37);
    EightBits(0x65, 0x9F, 0xFA);
    EightBits(0x6C, 0x4D, 0x21);
    EightBits(0x6C, 0x51, 0x3D);
    EightBits(0x6F, 0x58, 0x37);
  }

  function Weight(j: nat): nat
    requires j < 8
    ensures Weight(j) > 0
  {
    if j == 0 then 1 else if j == 1 then 2 else if j == 2 then 4 else if j == 3 then 8
    else if j == 4 then 16 else if j == 5 then 32 else if j == 6 then 64 else 128
  }

  /** Bit j by division. */
  lemma {:induction false} BitIs(n: nat, j: nat)
    requires j < 8
    ensures BitAt(n, j) <==> n / Weight(j) % 2 == 1
  {
    if j > 0 {
      BitIs(n / 2, j - 1);
      assert n / 2 / Weight(j - 1) == n / Weight(j);
    }
  }

  lemma EightBits(c: nat, a: nat, b: nat)
    requires c % 2 == 1 <==> a % 2 != b % 2
    requires c / 2 % 2 == 1 <==> a / 2 % 2 != b / 2 % 2
    requires c / 4 % 2 == 1 <==> a / 4 % 2 != b / 4 % 2
    requires c / 8 % 2 == 1 <==> a / 8 % 2 != b / 8 % 2
    requires c / 16 % 2 == 1 <==> a / 16 % 2 != b / 16 % 2
    requires c / 32 % 2 == 1 <==> a / 32 % 2 != b / 32 % 2
    requires c / 64 % 2 == 1 <==> a / 64 % 2 != b / 64 % 2
    requires c / 128 % 2 == 1 <==> a / 128 % 2 != b / 128 % 2
    ensures AllFlipped(c, a, b)
  {
    forall j: nat | j < 8 ensures FlippedAt(c, a, b, j) {
      hide BitAt;
      BitIs(c, j);
      BitIs(a, j);
      BitIs(b, j);
      var w := Weight(j);
      assert c / w % 2 == 1 <==> a / w % 2 != b / w % 2;
    }
  }

  /** A frame of fewer than 126 bytes without a mask. */
  lemma PlainFrame(first: byte, p: seq<byte>, rest: seq<byte>)
    requires |p| < 126
    ensures var s := [first, |p| as byte] + p + rest;
      Complete(s) && Carries(s, p) && s[DataAt(s) + LengthAt(s)..] == rest && s[0] == first
  {
    var s := [first, |p| as byte] + p + rest;
    assert HeaderSize(s) == 2 && DataAt(s) == 2 && LengthAt(s) == |p|;
    assert s[2..2 + |p|] == p && s[2 + |p|..] == rest;
  }

  lemma MaskedHello(first: byte, rest: seq<byte>)
    ensures var s := [first, 0x85, 0x37, 0xFA, 0x21, 0x3D, 0x7F, 0x9F, 0x4D, 0x51, 0x58] + rest;
      Complete(s) && Carries(s, HELLO) && s[DataAt(s) + LengthAt(s)..] == rest && s[0] == first
  {
    hide Flipped;
    HelloFlipped();
    var s := [first, 0x85, 0x37, 0xFA, 0x21, 0x3D, 0x7F, 0x9F, 0x4D, 0x51, 0x58] + rest;
    assert HeaderSize(s) == 2 && DataAt(s) == 6 && LengthAt(s) == 5;
    forall i | 0 <= i < 5 ensures Flipped(HELLO[i], s[6 + i], s[2 + i % 4]) {
      assert i == 0 || i == 1 || i == 2 || i == 3 || i == 4;
    }
    assert s[11..] == rest;
  }

  /** "Hello" as a text message and as a pong, masked with 37 FA 21 3D. */
  lemma MaskedHelloIsReceived(rest: seq<byte>, acc: seq<byte>)
    ensures Receive([0x81, 0x85, 0x37, 0xFA, 0x21, 0x3D, 0x7F, 0x9F, 0x4D, 0x51, 0x58] + rest, [])
            == Message(HELLO, rest, [])
    ensures Receive([0x8A, 0x85, 0x37, 0xFA, 0x21, 0x3D, 0x7F, 0x9F, 0x4D, 0x51, 0x58] + rest, acc)
            == Receive(rest, acc)
  {
    hide Receive, Complete, Carries, DataAt, LengthAt;
    MaskedHello(0x81, rest);
    OpcodesOnTheWire([0x81, 0x85, 0x37, 0xFA, 0x21, 0x3D, 0x7F, 0x9F, 0x4D, 0x51, 0x58] + rest, [], HELLO);
    MaskedHello(0x8A, rest);
    OpcodesOnTheWire([0x8A, 0x85, 0x37, 0xFA, 0x21, 0x3D, 0x7F, 0x9F, 0x4D, 0x51, 0x58] + rest, acc, HELLO);
    assert [] + HELLO == HELLO;
  }

  lemma FragmentedHello(rest: seq<byte>)
    ensures Receive([0x01, 0x03] + HELLO[..3] + ([0x80, 0x02] + HELLO[3..] + rest), []) == Message(HELLO, rest, [])
  {
    hide Receive, Complete, Carries, DataAt, LengthAt;
    var lo := [0x80, 0x02] + HELLO[3..] + rest;
    PlainFrame(0x01, HELLO[..3], lo);
    OpcodesOnTheWire([0x01, 0x03] + HELLO[..3] + lo, [], HELLO[..3]);
    PlainFrame(0x80, HELLO[3..], rest);
    OpcodesOnTheWire(lo, HELLO[..3], HELLO[3..]);
    assert [] + HELLO[..3] == HELLO[..3] && HELLO[..3] + HELLO[3..] == HELLO;
  }

  lemma WholeHello(rest: seq<byte>, acc: seq<byte>)
    ensures Receive([0x81, 0x05] + HELLO + rest, []) == Message(HELLO, rest, [])
    ensures Receive([0x89, 0x05] + HELLO + rest, acc) == Answered(HELLO, Receive(rest, acc))
  {
    hide Receive, Complete, Carries, DataAt, LengthAt;
    PlainFrame(0x81, HELLO, rest);
    OpcodesOnTheWire([0x81, 0x05] + HELLO + rest, [], HELLO);
    assert [] + HELLO == HELLO;
    PlainFrame(0x89, HELLO, rest);
    OpcodesOnTheWire([0x89, 0x05] + HELLO + rest, acc, HELLO);
  }

  /** "Hello" without a mask, whole and in the fragments "Hel" and "lo", and as a ping that is answered
      with 8A 05 "Hello". */
  lemma PlainHelloIsReceived(rest: seq<byte>, acc: seq<byte>)
    ensures Receive([0x81, 0x05] + HELLO + rest, []) == Message(HELLO, rest, [])
    ensures Receive([0x01, 0x03] + HELLO[..3] + ([0x80, 0x02] + HELLO[3..] + rest), []) == Message(HELLO, rest, [])
    ensures Receive([0x89, 0x05] + HELLO + rest, acc) == Answered(HELLO, Receive(rest, acc))
    ensures 5 < Pow(256, 8) && Pongs([HELLO]) == [0x8A, 0x05] + HELLO
  {
    hide Receive, Pongs, Pow;
    WholeHello(rest, acc);
    FragmentedHello(rest);
    PongOnTheWire(HELLO);
  }

  lemma Frame256(data: seq<byte>, rest: seq<byte>)
    requires |data| == 256
    ensures var s := [0x82, 0x7E, 0x01, 0x00] + data + rest;
      Complete(s) && Carries(s, data) && s[DataAt(s) + LengthAt(s)..] == rest && s[0] == 0x82
  {
    var s := [0x82, 0x7E, 0x01, 0x00] + data + rest;
    assert HeaderSize(s) == 4 && DataAt(s) == 4 && LengthAt(s) == 256;
    assert s[4..260] == data && s[260..] == rest;
  }

  lemma Frame65536(data: seq<byte>, rest: seq<byte>)
    requires |data| == 65536
    ensures var s := [0x82, 0x7F, 0, 0, 0, 0, 0, 0x01, 0x00, 0x00] + data + rest;
      Complete(s) && Carries(s, data) && s[DataAt(s) + LengthAt(s)..] == rest && s[0] == 0x82
  {
    var s := [0x82, 0x7F, 0, 0, 0, 0, 0, 0x01, 0x00, 0x00] + data + rest;
    assert HeaderSize(s) == 10 && DataAt(s) == 10 && LengthAt(s) == 65536;
    assert s[10..65546] == data && s[65546..] == rest;
  }

  /** 256 and 65536 bytes in a single frame without a mask. */
  lemma LongFrames(data: seq<byte>, rest: seq<byte>)
    ensures |data| == 256 ==> Receive([0x82, 0x7E, 0x01, 0x00] + data + rest, []) == Message(data, rest, [])
    ensures |data| == 65536 ==>
      Receive([0x82, 0x7F, 0, 0, 0, 0, 0, 0x01, 0x00, 0x00] + data + rest, []) == Message(data, rest, [])
  {
    hide Receive, Complete, Carries, DataAt, LengthAt;
    assert [] + data == data;
    if |data| == 256 {
      Frame256(data, rest);
      OpcodesOnTheWire([0x82, 0x7E, 0x01, 0x00] + data + rest, [], data);
    }
    if |data| == 65536 {
      Frame65536(data, rest);
      OpcodesOnTheWire([0x82, 0x7F, 0, 0, 0, 0, 0, 0x01, 0x00, 0x00] + data + rest, [], data);
    }
  }
}
