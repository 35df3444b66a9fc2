/** The streaming hasher: bytes are compressed a block at a time. */
module Sha1Stream {
  import S = Sha1

  class Sha1Stream {
    var h: S.Words
    var len: nat               // a 64-bit count that wraps around
    const buf: array<bv8>
    var buflen: nat

    ghost predicate Valid()
      reads this
    {
      buf.Length == 64 && buflen < 64 && len < S.WRAP
    }

    /** The state stands for having been fed m from the start. */
    ghost predicate Fed(m: seq<bv8>)
      requires Valid()
      reads this, buf
    {
      S.Feed(S.INITIAL, m) == (h, buf[..buflen]) && len == |m| % S.WRAP
    }

    constructor ()
      ensures Valid() && Fed([]) && fresh(buf)
    {
      h, len, buflen := S.INITIAL, 0, 0;
      buf := new bv8[64](_ => 0);
    }

    /** The buffered block. */
    method Compress()
      requires buf.Length == 64
      modifies `h
      ensures h == S.Compress(old(h), buf[..])
    {
      hide S.Rounds, S.Schedule, S.Add;
      var w := BuildSchedule();
      var s := RunRounds(w);
      h := S.Add(h, s);
    }

    method BuildSchedule() returns (w: array<bv32>)
      requires buf.Length == 64
      ensures fresh(w) && w.Length == 80 && forall j :: 0 <= j < 80 ==> w[j] == S.Schedule(buf[..], j)
    {
      hide S.Word, S.Mix;
      w := new bv32[80](_ => 0);
      ghost var b := buf[..];
      var i := 0;
      while i < 16
        invariant i <= 16 && forall j :: 0 <= j < i ==> w[j] == S.Schedule(b, j)
      {
        w[i] := S.Word(buf[..], i);
        i := i + 1;
      }
      while i < 80
        invariant 16 <= i <= 80 && forall j :: 0 <= j < i ==> w[j] == S.Schedule(b, j)
      {
        w[i] := S.Mix(w[i - 3], w[i - 8], w[i - 14], w[i - 16]);
        i := i + 1;
      }
    }

    method RunRounds(w: array<bv32>) returns (s: S.Words)
      requires buf.Length == 64
      requires w.Length == 80 && forall j :: 0 <= j < 80 ==> w[j] == S.Schedule(buf[..], j)
      ensures s == S.Rounds(h, buf[..], 80)
    {
      hide S.Schedule, S.Round;
      s := h;
      var i := 0;
      while i < 80
        invariant i <= 80 && s == S.Rounds(h, buf[..], i)
      {
        s := S.Round(s, i, w[i]);
        i := i + 1;
      }
    }

    method UpdateByte(x: bv8, ghost m: seq<bv8>)
      requires Valid() && Fed(m)
      modifies `h, `len, `buflen, buf
      ensures Valid() && Fed(m + [x])
    {
      hide S.Compress;
      S.FeedAppend(S.INITIAL, m, [x]);
      ghost var left := buf[..buflen];
      buf[buflen] := x;
      buflen := buflen + 1;
      len := (len + 1) % S.WRAP;
      assert buf[..buflen] == left + [x];
      Wraps(|m|);
      if buflen == 64 {
        assert buf[..] == left + [x];
        Compress();
        buflen := 0;
        OneBlock(old(h), left + [x]);
        assert buf[..0] == [];
      }
    }

    /** Any cut of the message into updates leads to the same state. */
    method Update(data: seq<bv8>, ghost m: seq<bv8>)
      requires Valid() && Fed(m)
      modifies `h, `len, `buflen, buf
      ensures Valid() && Fed(m + data)
    {
      hide S.Feed;
      var i := 0;
      assert m + data[..0] == m;
      while i < |data|
        invariant i <= |data| && Valid() && Fed(m + data[..i])
      {
        UpdateByte(data[i], m + data[..i]);
        assert m + data[..i] + [data[i]] == m + data[..i + 1];
        i := i + 1;
      }
      assert data[..i] == data;
    }

    /** One 0x80, zeros until 56 bytes are buffered, and the length: then nothing is left over. */
    method Final(ghost m: seq<bv8>) returns (digest: S.Words)
      requires Valid() && Fed(m)
      modifies `h, `len, `buflen, buf
      ensures digest == S.Digest(m)
    {
      hide S.Feed, S.Zeros, S.LengthBytes;
      var bits := len * 8 % S.WRAP;
      EightTimes(|m|);
      UpdateByte(0x80, m);
      ghost var n, before := 0, m + [0x80];
      NoZeros();
      assert before + S.Zeros(0) == before;
      while buflen != 56
        invariant Valid() && Fed(before + S.Zeros(n)) && n <= S.PadLength(|m|)
        decreases S.PadLength(|m|) - n
      {
        Buffered(before + S.Zeros(n));
        PadMeets(|m|, n);
        UpdateByte(0, before + S.Zeros(n));
        MoreZeros(n);
        assert before + S.Zeros(n) + [0] == before + S.Zeros(n + 1);
        n := n + 1;
      }
      Buffered(before + S.Zeros(n));
      PadMeets(|m|, n);
      ghost var filled := before + S.Zeros(n);
      var i := 8;
      assert filled + S.LengthBytes(bits, 8)[..0] == filled;
      while i > 0
        invariant i <= 8 && Valid() && Fed(filled + S.LengthBytes(bits, 8)[..8 - i])
      {
        i := i - 1;
        S.LengthByteAt(bits, 8, 7 - i);
        ghost var so := S.LengthBytes(bits, 8)[..7 - i];
        var x := (S.Shift(bits, i) % 256) as bv8;
        UpdateByte(x, filled + so);
        assert filled + so + [x] == filled + S.LengthBytes(bits, 8)[..8 - i];
      }
      assert S.LengthBytes(bits, 8)[..8] == S.LengthBytes(bits, 8);
      assert filled + S.LengthBytes(bits, 8) == S.Padded(m);
      return h;
    }

    lemma Buffered(m: seq<bv8>)
      requires Valid() && Fed(m)
      ensures buflen == |m| % 64
    {}
  }

  lemma Wraps(n: nat)
    ensures (n % S.WRAP + 1) % S.WRAP == (n + 1) % S.WRAP
  {}

  lemma EightTimes(n: nat)
    ensures n % S.WRAP * 8 % S.WRAP == 8 * n % S.WRAP
  {}

  lemma OneBlock(s: S.Words, b: seq<bv8>)
    requires |b| == 64
    ensures S.Feed(s, b) == (S.Compress(s, b), [])
  {
    assert b[..64] == b && b[64..] == [];
  }

  /** After n zeros the buffer is at 56 bytes exactly when all of them have been added. */
  lemma PadMeets(m: nat, n: nat)
    requires n <= S.PadLength(m)
    ensures (m + 1 + n) % 64 == 56 <==> n == S.PadLength(m)
  {
    var q, r := m / 64, m % 64;
    assert m == 64 * q + r;
    Remainder(q, r + 1 + n);
    Remainder(0, 119 - r);
    assert S.PadLength(m) == if r <= 55 then 55 - r else 119 - r;
  }

  /** Whole blocks do not count. */
  lemma Remainder(q: nat, x: nat)
    requires x < 128
    ensures (64 * q + x) % 64 == if x < 64 then x else x - 64
  {
    var y := if x < 64 then x else x - 64;
    var k := if x < 64 then q else q + 1;
    assert 64 * q + x == 64 * k + y;
  }

  lemma NoZeros()
    ensures S.Zeros(0) == []
  {}

  lemma MoreZeros(n: nat)
    ensures S.Zeros(n + 1) == S.Zeros(n) + [0]
  {}

  function Concat(parts: seq<seq<bv8>>): seq<bv8> {
    if parts == [] then [] else Concat(parts[..|parts| - 1]) + parts[|parts| - 1]
  }

  /** Main result: however the message is cut into updates, the digest is that of the whole. */
  method HashParts(parts: seq<seq<bv8>>) returns (digest: S.Words)
    ensures digest == S.Digest(Concat(parts))
  {
    hide S.Digest;
    var s := new Sha1Stream();
    var i := 0;
    assert parts[..0] == [];
    while i < |parts|
      invariant i <= |parts| && s.Valid() && fresh(s) && fresh(s.buf) && s.Fed(Concat(parts[..i]))
    {
      s.Update(parts[i], Concat(parts[..i]));
      assert parts[..i + 1][..i] == parts[..i];
      i := i + 1;
    }
    assert parts[..i] == parts;
    digest := s.Final(Concat(parts));
  }
}
