/** A connection: bytes arrive in pieces of any size. */
module WsConn {
  import opened Common
  import opened WsFrame
  import opened WsMessage

  /** What is still to come; an empty piece is the peer's end of the connection. */
  function Joined(chunks: seq<seq<byte>>): seq<byte> {
    if chunks == [] || chunks[0] == [] then [] else chunks[0] + Joined(chunks[1..])
  }

  /** n shifted right by i bytes. */
  function Shift(n: nat, i: nat): nat { if i == 0 then n else Shift(n / 256, i - 1) }

  lemma {:induction false} BigEndianAt(n: nat, k: nat, j: nat)
    requires j < k
    ensures BigEndian(n, k)[j] as nat == Shift(n, k - 1 - j) % 256
    decreases k
  {
    if j < k - 1 { BigEndianAt(n / 256, k - 1, j); }
  }

  /** The outcome with the pings that were answered before. */
  function Before(ps: seq<seq<byte>>, o: Outcome): Outcome {
    match o
    case Message(m, rest, pongs) => Message(m, rest, ps + pongs)
    case Ended(pongs) => Ended(ps + pongs)
  }

  predicate PongsSmall(ps: seq<seq<byte>>) { forall i :: 0 <= i < |ps| ==> |ps[i]| < Pow(256, 8) }

  /** One frame of the stream and what remains to be done. */
  lemma ReceiveStep(s: seq<byte>, acc: seq<byte>, ps: seq<seq<byte>>)
    ensures ReadFrame(s) == None ==> Receive(s, acc) == Ended([])
    ensures ReadFrame(s).Some? ==>
              var (f, rest) := ReadFrame(s).value;
              && (f.opcode == CLOSE ==> Receive(s, acc) == Ended([]))
              && (f.opcode == PING ==>
                    Before(ps, Receive(s, acc)) == Before(ps + [f.payload], Receive(rest, acc)))
              && (f.opcode == PONG ==> Receive(s, acc) == Receive(rest, acc))
              && (IsData(f) && f.fin ==> Receive(s, acc) == Message(acc + f.payload, rest, []))
              && (IsData(f) && !f.fin ==> Receive(s, acc) == Receive(rest, acc + f.payload))
  {
    hide ReadFrame;
    if ReadFrame(s).Some? {
      var (f, rest) := ReadFrame(s).value;
      var o := Receive(rest, acc);
      assert ps + ([f.payload] + o.pongs) == (ps + [f.payload]) + o.pongs;
    }
  }

  class Conn {
    var chunks: seq<seq<byte>>
    var sent: seq<byte>

    ghost function Stream(): seq<byte> reads this { Joined(chunks) }

    constructor (chunks: seq<seq<byte>>)
      ensures Stream() == Joined(chunks) && sent == []
    {
      this.chunks, sent := chunks, [];
    }

    // ----- receiving -------------------------------------------------------------------------

    /** At most n bytes, as many as the next piece has; nothing when the peer has closed. */
    method Recv(n: nat) returns (data: seq<byte>)
      requires n > 0
      modifies `chunks
      ensures |data| <= n && data + Stream() == old(Stream()) && (data == [] <==> old(Stream()) == [])
    {
      if chunks == [] || chunks[0] == [] { return []; }
      var first := chunks[0];
      if |first| <= n {
        data := first;
        chunks := chunks[1..];
      } else {
        data := first[..n];
        chunks := [first[n..]] + chunks[1..];
        assert chunks[1..] == old(chunks)[1..];
        assert data + (first[n..] + Joined(chunks[1..])) == first + Joined(chunks[1..]);
      }
    }

    /** Exactly n bytes, however many pieces they come in. */
    method RecvAll(n: nat) returns (r: Option<seq<byte>>)
      modifies `chunks
      ensures match Split(old(Stream()), n)
              case Some((a, b)) => r == Some(a) && Stream() == b
              case None => r == None
    {
      hide Joined;
      var got: seq<byte> := [];
      assert [] + Stream() == Stream();
      while |got| < n
        invariant |got| <= n && got + Stream() == old(Stream())
        decreases n - |got|
      {
        ghost var before := Stream();
        var data := Recv(n - |got|);
        if data == [] {
          assert got + [] == got;
          return None;
        }
        assert got + (data + Stream()) == (got + data) + Stream();
        got := got + data;
      }
      return Some(got);
    }

    method ReadLength(code: nat) returns (r: Option<nat>)
      requires code < 128
      modifies `chunks
      ensures match WsFrame.ReadLength(code, old(Stream()))
              case Some((_, n, rest)) => r == Some(n) && Stream() == rest
              case None => r == None
    {
      if code < 126 { return Some(code); }
      var ext := RecvAll(if code == 126 then 2 else 8);
      if ext.None? { return None; }
      var n, i := 0, 0;
      while i < |ext.value|
        invariant i <= |ext.value| && n == Value(ext.value[..i])
      {
        assert ext.value[..i + 1][..i] == ext.value[..i];
        n := 256 * n + ext.value[i] as nat;
        i := i + 1;
      }
      assert ext.value[..i] == ext.value;
      return Some(n);
    }

    /** The parts of a frame that the receiver looks at. */
    method RecvFrame() returns (r: Option<(bool, nat, seq<byte>)>)
      modifies `chunks
      ensures var x := ReadFrame(old(Stream()));
              if x.Some?
              then r == Some((x.value.0.fin, x.value.0.opcode, x.value.0.payload)) && Stream() == x.value.1
              else r == None
    {
      hide WsFrame.ReadLength, Joined;
      var hdr := RecvAll(2);
      if hdr.None? { return None; }
      var h0, h1 := hdr.value[0] as nat, hdr.value[1] as nat;
      var n := ReadLength(h1 % 128);
      if n.None? { return None; }
      var key: Option<seq<byte>> := None;
      if h1 >= 128 {
        key := RecvAll(4);
        if key.None? { return None; }
      }
      var data := RecvAll(n.value);
      if data.None? { return None; }
      var payload := Unmask(key, data.value);
      return Some((h0 >= 128, h0 % 16, payload));
    }

    static method Unmask(key: Option<seq<byte>>, data: seq<byte>) returns (r: seq<byte>)
      requires key.Some? ==> |key.value| == 4
      ensures r == Cover(key, data)
    {
      if key.None? { return data; }
      r := [];
      var i := 0;
      while i < |data|
        invariant i <= |data| && r == Masked(key.value, data)[..i]
      {
        r := r + [Xor(data[i], key.value[i % 4])];
        i := i + 1;
      }
    }

    /** One message, put together from its fragments; pings on the way are answered. */
    method RecvMessage() returns (r: Option<seq<byte>>)
      modifies this
      ensures var o := Receive(old(Stream()), []);
              && PongsSmall(o.pongs) && sent == old(sent) + Pongs(o.pongs)
              && match o
                 case Message(p, rest, _) => r == Some(p) && Stream() == rest
                 case Ended(_) => r == None
    {
      hide ReadFrame, Receive, Joined, Pow, Encode, Sent;
      var acc: Option<seq<byte>> := None;
      ghost var ps: seq<seq<byte>> := [];
      ghost var whole := Receive(Stream(), []);
      PongsFit(Stream(), []);
      BeforeNothing(whole);
      while true
        invariant PongsSmall(ps) && sent == old(sent) + Pongs(ps)
        invariant Before(ps, Receive(Stream(), Fragments(acc))) == whole
        decreases |Stream()|
      {
        ghost var s := Stream();
        ReceiveStep(s, Fragments(acc), ps);
        if ReadFrame(s).Some? { FrameFits(s); }
        var f := RecvFrame();
        if f.None? || f.value.1 == CLOSE {
          assert ps + [] == ps;
          return None;
        }
        var (fin, opcode, payload) := f.value;
        if opcode == PING {
          SendFrame(PONG, payload, None);
          PongsOne(ps, payload);
          ps := ps + [payload];
        } else if opcode != PONG {
          if opcode == 0 || acc.Some? {
            acc := Some(Fragments(acc) + payload);
          } else {
            assert [] + payload == payload;
            acc := Some(payload);
          }
          if fin {
            assert ps + [] == ps;
            return acc;
          }
        }
      }
      assert false;
    }

    // ----- sending ---------------------------------------------------------------------------

    method SendFrame(opcode: nat, data: seq<byte>, key: Option<seq<byte>>)
      requires |data| < Pow(256, 8) && (key.Some? ==> |key.value| == 4)
      modifies `sent
      ensures Valid(Sent(opcode, data, key)) && sent == old(sent) + Encode(Sent(opcode, data, key))
    {
      hide Pow, Encode, Cover, LengthBytes, Valid;
      SentIsValid(opcode, data, key);
      var n, bit := |data|, if key.Some? then 128 else 0;
      var header := [(128 + opcode % 16) as byte,
                     (bit + (if n <= 125 then n else if n <= 65535 then 126 else 127)) as byte];
      var ext := LengthOf(n);
      header := header + ext;
      header := header + (if key.Some? then key.value else []);
      var body := Unmask(key, data);
      HeaderIs(opcode, data, key, header);
      sent := sent + (header + body);
    }

    /** The extended length, if there is one. */
    static method LengthOf(n: nat) returns (s: seq<byte>)
      ensures s == LengthBytes(FormFor(n), n)
    {
      if n <= 125 { return []; }
      if n <= 65535 {
        BigEndianAt(n, 2, 0);
        BigEndianAt(n, 2, 1);
        assert Shift(n, 1) == Shift(n / 256, 0);
        return [(n / 256 % 256) as byte, (n % 256) as byte];
      }
      s := EightBytes(n);
    }

    /** Eight length bytes, the highest first. */
    static method EightBytes(n: nat) returns (s: seq<byte>)
      ensures s == BigEndian(n, 8)
    {
      s := [];
      var i := 8;
      while i > 0
        invariant i <= 8 && s == BigEndian(n, 8)[..8 - i]
      {
        i := i - 1;
        BigEndianAt(n, 8, 7 - i);
        s := s + [(Shift(n, i) % 256) as byte];
      }
    }
  }

  function Fragments(acc: Option<seq<byte>>): seq<byte> {
    match acc case Some(a) => a case None => []
  }

  lemma BeforeNothing(o: Outcome)
    ensures Before([], o) == o
  {
    assert [] + o.pongs == o.pongs;
  }

  lemma PongsOne(ps: seq<seq<byte>>, p: seq<byte>)
    requires PongsSmall(ps) && |p| < Pow(256, 8)
    ensures PongsSmall(ps + [p]) && Valid(Sent(PONG, p, None))
            && Pongs(ps + [p]) == Pongs(ps) + Encode(Sent(PONG, p, None))
  {
    hide Pow, Encode;
    SentIsValid(PONG, p, None);
    assert (ps + [p])[..|ps|] == ps;
  }

  lemma HeaderIs(opcode: nat, data: seq<byte>, key: Option<seq<byte>>, header: seq<byte>)
    requires |data| < Pow(256, 8) && (key.Some? ==> |key.value| == 4)
    requires Valid(Sent(opcode, data, key))
    requires var n := |data|;
             header == [(128 + opcode % 16) as byte,
                        ((if key.Some? then 128 else 0)
                         + (if n <= 125 then n else if n <= 65535 then 126 else 127)) as byte]
                       + LengthBytes(FormFor(n), n) + (match key case Some(k) => k case None => [])
    ensures header + Cover(key, data) == Encode(Sent(opcode, data, key))
  {
    var f, n := Sent(opcode, data, key), |data|;
    assert LengthCode(f.form, n) == if n <= 125 then n else if n <= 65535 then 126 else 127;
    hide LengthBytes, Pow, Cover, Fits;
    assert KeyBytes(f) == match key case Some(k) => k case None => [];
  }
}
