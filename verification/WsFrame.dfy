/** WebSocket frames on the wire (sections 5.2 to 5.5 of RFC 6455). */
module WsFrame {
  import opened Common

  newtype byte = x: int | 0 <= x < 256

  // ----- bytes -------------------------------------------------------------------------------

  /** Exclusive or of the lowest n bits. */
  function XorBits(a: nat, b: nat, n: nat): nat {
    if n == 0 then 0 else 2 * XorBits(a / 2, b / 2, n - 1) + XorBit(a, b)
  }

  lemma {:induction false} XorBound(a: nat, b: nat, n: nat)
    ensures XorBits(a, b, n) < Pow(2, n)
    decreases n
  {
    if n > 0 { XorBound(a / 2, b / 2, n - 1); }
  }

  function Pow(b: nat, n: nat): nat { if n == 0 then 1 else b * Pow(b, n - 1) }

  function Xor(a: byte, b: byte): byte {
    XorBound(a as nat, b as nat, 8);
    assert Pow(2, 8) == 256 by { PowTwo(); }
    XorBits(a as nat, b as nat, 8) as byte
  }

  lemma PowTwo()
    ensures Pow(2, 8) == 256
  {
    assert Pow(2, 4) == 16;
    assert Pow(2, 8) == 2 * (2 * (2 * (2 * Pow(2, 4))));
  }

  lemma HalfAndBit(x: nat, bit: nat)
    requires bit < 2
    ensures (2 * x + bit) / 2 == x && (2 * x + bit) % 2 == bit
  {}

  function XorBit(a: nat, b: nat): (r: nat)
    ensures r < 2
  {
    (a % 2 + b % 2) % 2
  }

  lemma XorBitTwice(a: nat, b: nat, c: nat)
    requires c % 2 == XorBit(a, b)
    ensures XorBit(c, b) == a % 2
  {}

  lemma {:induction false} XorBitsTwice(a: nat, b: nat, n: nat)
    requires a < Pow(2, n)
    ensures XorBits(XorBits(a, b, n), b, n) == a
    decreases n
  {
    if n > 0 {
      var x, bit := XorBits(a / 2, b / 2, n - 1), XorBit(a, b);
      var y := XorBits(a, b, n);
      HalfAndBit(x, bit);
      assert y == 2 * x + bit;
      XorBitTwice(a, b, y);
      XorBitsTwice(a / 2, b / 2, n - 1);
    }
  }

  lemma XorTwice(a: byte, b: byte)
    ensures Xor(Xor(a, b), b) == a
  {
    PowTwo();
    XorBitsTwice(a as nat, b as nat, 8);
  }

  /** n in k bytes, the highest first. */
  function BigEndian(n: nat, k: nat): (s: seq<byte>)
    ensures |s| == k
  {
    if k == 0 then [] else BigEndian(n / 256, k - 1) + [(n % 256) as byte]
  }

  function Value(s: seq<byte>): nat {
    if s == [] then 0 else 256 * Value(s[..|s| - 1]) + s[|s| - 1] as nat
  }

  lemma {:induction false} ValueOfBigEndian(n: nat, k: nat)
    requires n < Pow(256, k)
    ensures Value(BigEndian(n, k)) == n
    decreases k
  {
    if k > 0 {
      var s := BigEndian(n, k);
      assert s[..|s| - 1] == BigEndian(n / 256, k - 1);
      ValueOfBigEndian(n / 256, k - 1);
    }
  }

  lemma {:induction false} BigEndianOfValue(s: seq<byte>)
    ensures BigEndian(Value(s), |s|) == s && Value(s) < Pow(256, |s|)
    decreases |s|
  {
    if s != [] {
      var front, last := s[..|s| - 1], s[|s| - 1] as nat;
      BigEndianOfValue(front);
      var v := 256 * Value(front) + last;
      assert v / 256 == Value(front) && v % 256 == last;
      assert s == front + [s[|s| - 1]];
    }
  }

  // ----- frames ------------------------------------------------------------------------------

  /** Which of the three length encodings is used. */
  datatype Form = Seven | Sixteen | SixtyFour

  datatype Frame = Frame(fin: bool, rsv: nat, opcode: nat, form: Form, key: Option<seq<byte>>,
                         payload: seq<byte>)

  predicate Fits(form: Form, n: nat) {
    match form
    case Seven => n < 126
    case Sixteen => n < Pow(256, 2)
    case SixtyFour => n < Pow(256, 8)
  }

  predicate Valid(f: Frame) {
    && f.rsv < 8 && f.opcode < 16 && Fits(f.form, |f.payload|)
    && (f.key.Some? ==> |f.key.value| == 4)
  }

  function Masked(key: seq<byte>, data: seq<byte>): (r: seq<byte>)
    requires |key| == 4
    ensures |r| == |data|
  {
    seq(|data|, i requires 0 <= i < |data| => Xor(data[i], key[i % 4]))
  }

  lemma MaskTwice(key: seq<byte>, data: seq<byte>)
    requires |key| == 4
    ensures Masked(key, Masked(key, data)) == data
  {
    forall i | 0 <= i < |data| ensures Masked(key, Masked(key, data))[i] == data[i] {
      XorTwice(data[i], key[i % 4]);
    }
  }

  function Bit(b: bool): nat { if b then 1 else 0 }

  function LengthCode(form: Form, n: nat): nat
    requires Fits(form, n)
  {
    match form case Seven => n case Sixteen => 126 case SixtyFour => 127
  }

  function LengthBytes(form: Form, n: nat): seq<byte> {
    match form case Seven => [] case Sixteen => BigEndian(n, 2) case SixtyFour => BigEndian(n, 8)
  }

  function KeyBytes(f: Frame): seq<byte> {
    match f.key case Some(k) => k case None => []
  }

  /** A payload as it goes over the wire; masking twice gives it back. */
  function Cover(key: Option<seq<byte>>, data: seq<byte>): (r: seq<byte>)
    requires key.Some? ==> |key.value| == 4
    ensures |r| == |data|
  {
    match key case Some(k) => Masked(k, data) case None => data
  }

  function Encode(f: Frame): seq<byte>
    requires Valid(f)
  {
    [(128 * Bit(f.fin) + 16 * f.rsv + f.opcode) as byte,
     (128 * Bit(f.key.Some?) + LengthCode(f.form, |f.payload|)) as byte]
    + LengthBytes(f.form, |f.payload|) + KeyBytes(f) + Cover(f.key, f.payload)
  }

  // ----- receiving one frame -----------------------------------------------------------------

  /** The first n bytes and what follows, when there are that many. */
  function Split(s: seq<byte>, n: nat): Option<(seq<byte>, seq<byte>)> {
    if |s| < n then None else Some((s[..n], s[n..]))
  }

  function ReadLength(code: nat, s: seq<byte>): Option<(Form, nat, seq<byte>)> {
    if code == 126 then
      match Split(s, 2) case Some((ext, r)) => Some((Sixteen, Value(ext), r)) case None => None
    else if code == 127 then
      match Split(s, 8) case Some((ext, r)) => Some((SixtyFour, Value(ext), r)) case None => None
    else Some((Seven, code, s))
  }

  function ReadKey(masked: bool, s: seq<byte>): (r: Option<(Option<seq<byte>>, seq<byte>)>)
    ensures r.Some? && r.value.0.Some? ==> |r.value.0.value| == 4
  {
    if masked then
      match Split(s, 4) case Some((k, r)) => Some((Some(k), r)) case None => None
    else Some((None, s))
  }

  /** A frame and the bytes after it; None when the stream ends before. */
  function ReadFrame(s: seq<byte>): (r: Option<(Frame, seq<byte>)>)
    ensures r.Some? ==> |r.value.1| < |s|
  {
    match Split(s, 2)
    case None => None
    case Some((hdr, s1)) =>
      var (h0, h1) := (hdr[0] as nat, hdr[1] as nat);
      match ReadLength(h1 % 128, s1)
      case None => None
      case Some((form, n, s2)) =>
        match ReadKey(h1 >= 128, s2)
        case None => None
        case Some((key, s3)) =>
          match Split(s3, n)
          case None => None
          case Some((data, s4)) =>
            Some((Frame(h0 >= 128, h0 / 16 % 8, h0 % 16, form, key, Cover(key, data)), s4))
  }

  lemma ReadLengthBack(form: Form, n: nat, rest: seq<byte>)
    requires Fits(form, n)
    ensures ReadLength(LengthCode(form, n), LengthBytes(form, n) + rest) == Some((form, n, rest))
  {
    match form {
      case Seven => assert [] + rest == rest;
      case Sixteen =>
        ValueOfBigEndian(n, 2);
        SplitAppend(BigEndian(n, 2), rest);
      case SixtyFour =>
        ValueOfBigEndian(n, 8);
        SplitAppend(BigEndian(n, 8), rest);
    }
  }

  lemma SplitAppend(a: seq<byte>, rest: seq<byte>)
    ensures Split(a + rest, |a|) == Some((a, rest))
  {}

  lemma CoverTwice(key: Option<seq<byte>>, data: seq<byte>)
    requires key.Some? ==> |key.value| == 4
    ensures Cover(key, Cover(key, data)) == data
  {
    if key.Some? { MaskTwice(key.value, data); }
  }

  lemma ReadKeyBack(f: Frame, rest: seq<byte>)
    requires Valid(f)
    ensures ReadKey(f.key.Some?, KeyBytes(f) + rest) == Some((f.key, rest))
  {
    SplitAppend(KeyBytes(f), rest);
    assert f.key.None? ==> [] + rest == rest;
  }

  lemma HeaderBits(f: Frame)
    requires Valid(f)
    ensures var h0 := 128 * Bit(f.fin) + 16 * f.rsv + f.opcode;
            h0 < 256 && (h0 >= 128 <==> f.fin) && h0 / 16 % 8 == f.rsv && h0 % 16 == f.opcode
    ensures var h1 := 128 * Bit(f.key.Some?) + LengthCode(f.form, |f.payload|);
            h1 < 256 && (h1 >= 128 <==> f.key.Some?) && h1 % 128 == LengthCode(f.form, |f.payload|)
  {}

  /** A frame on the wire reads back, at every length encoding and with every mask. */
  lemma FrameBack(f: Frame, rest: seq<byte>)
    requires Valid(f)
    ensures ReadFrame(Encode(f) + rest) == Some((f, rest))
  {
    hide ReadLength, ReadKey, Fits, LengthBytes, KeyBytes, Cover, LengthCode;
    HeaderBits(f);
    var data := Cover(f.key, f.payload);
    var s3 := data + rest;
    var s2 := KeyBytes(f) + s3;
    var s1 := LengthBytes(f.form, |f.payload|) + s2;
    var hdr := Encode(f)[..2];
    assert Encode(f) + rest == hdr + s1;
    SplitAppend(hdr, s1);
    ReadLengthBack(f.form, |f.payload|, s2);
    ReadKeyBack(f, s3);
    SplitAppend(data, rest);
    CoverTwice(f.key, f.payload);
  }

  lemma ReadLengthIs(code: nat, s: seq<byte>)
    requires code < 128 && ReadLength(code, s).Some?
    ensures var (form, n, r) := ReadLength(code, s).value;
            Fits(form, n) && LengthCode(form, n) == code && LengthBytes(form, n) + r == s
  {
    if code >= 126 {
      var k := if code == 126 then 2 else 8;
      BigEndianOfValue(s[..k]);
      assert s[..k] + s[k..] == s;
    } else {
      assert [] + s == s;
    }
  }

  lemma ReadKeyIs(masked: bool, s: seq<byte>)
    requires ReadKey(masked, s).Some?
    ensures var (key, r) := ReadKey(masked, s).value;
            (key.Some? <==> masked) && (match key case Some(k) => k case None => []) + r == s
  {
    if masked { assert s[..4] + s[4..] == s; } else { assert [] + s == s; }
  }

  lemma BitsBack(h: nat)
    requires h < 256
    ensures 128 * Bit(h >= 128) + 16 * (h / 16 % 8) + h % 16 == h
    ensures 128 * Bit(h >= 128) + h % 128 == h
  {}

  /** Whatever reads as a frame is the encoding of that frame. */
  lemma ReadIsEncoding(s: seq<byte>)
    requires ReadFrame(s).Some?
    ensures var (f, rest) := ReadFrame(s).value; Valid(f) && Encode(f) + rest == s
  {
    hide Cover, ReadLength, ReadKey, Fits, LengthCode, LengthBytes;
    var (f, rest) := ReadFrame(s).value;
    var h0, h1, s1 := s[0] as nat, s[1] as nat, s[2..];
    ReadLengthIs(h1 % 128, s1);
    var (form, n, s2) := ReadLength(h1 % 128, s1).value;
    ReadKeyIs(h1 >= 128, s2);
    var (key, s3) := ReadKey(h1 >= 128, s2).value;
    CoverTwice(key, s3[..n]);
    BitsBack(h0);
    BitsBack(h1);
    assert s3 == s3[..n] + rest;
    assert s == [s[0], s[1]] + s1;
    Join([s[0], s[1]], LengthBytes(form, n), KeyBytes(f), s3[..n], rest);
  }

  lemma Join(a: seq<byte>, b: seq<byte>, c: seq<byte>, d: seq<byte>, rest: seq<byte>)
    ensures (a + b + c + d) + rest == a + (b + (c + (d + rest)))
  {}
}
