/** Messages: reassembly of fragments with control frames in between. */
module WsMessage {
  import opened Common
  import opened WsFrame

  const CLOSE := 8
  const PING := 9
  const PONG := 10

  predicate IsData(f: Frame) { f.opcode != CLOSE && f.opcode != PING && f.opcode != PONG }

  // ----- what the receiver makes of a byte stream --------------------------------------------

  /** pongs: the payloads of the pings that were answered, in order. */
  datatype Outcome =
    | Message(payload: seq<byte>, rest: seq<byte>, pongs: seq<seq<byte>>)
    | Ended(pongs: seq<seq<byte>>)             // a close frame, or the stream broke off

  function Answered(p: seq<byte>, o: Outcome): Outcome {
    match o
    case Message(m, rest, pongs) => Message(m, rest, [p] + pongs)
    case Ended(pongs) => Ended([p] + pongs)
  }

  /** acc: the fragments so far. */
  function Receive(s: seq<byte>, acc: seq<byte>): Outcome
    decreases |s|
  {
    match ReadFrame(s)
    case None => Ended([])
    case Some((f, rest)) =>
      if f.opcode == CLOSE then Ended([])
      else if f.opcode == PING then Answered(f.payload, Receive(rest, acc))
      else if f.opcode == PONG then Receive(rest, acc)
      else if f.fin then Message(acc + f.payload, rest, [])
      else Receive(rest, acc + f.payload)
  }

  // ----- what a sender may send --------------------------------------------------------------

  /** Fragments, with pings and pongs anywhere between them; FIN on the last fragment, which comes
      last. */
  predicate IsMessage(fs: seq<Frame>)
    decreases |fs|
  {
    && fs != [] && Valid(fs[0])
    && if |fs| == 1 then IsData(fs[0]) && fs[0].fin
       else
         && (fs[0].opcode == PING || fs[0].opcode == PONG || (IsData(fs[0]) && !fs[0].fin))
         && IsMessage(fs[1..])
  }

  function EncodeAll(fs: seq<Frame>): seq<byte>
    requires forall i :: 0 <= i < |fs| ==> Valid(fs[i])
  {
    if fs == [] then [] else Encode(fs[0]) + EncodeAll(fs[1..])
  }

  function Payload(fs: seq<Frame>): seq<byte> {
    if fs == [] then [] else (if IsData(fs[0]) then fs[0].payload else []) + Payload(fs[1..])
  }

  function Pings(fs: seq<Frame>): seq<seq<byte>> {
    if fs == [] then [] else (if fs[0].opcode == PING then [fs[0].payload] else []) + Pings(fs[1..])
  }

  lemma {:induction false} MessageIsValid(fs: seq<Frame>)
    requires IsMessage(fs)
    ensures forall i :: 0 <= i < |fs| ==> Valid(fs[i])
    decreases |fs|
  {
    if |fs| > 1 {
      MessageIsValid(fs[1..]);
      forall i | 0 <= i < |fs| ensures Valid(fs[i]) {
        if i > 0 { assert fs[i] == fs[1..][i - 1]; }
      }
    }
  }

  // ----- reassembly --------------------------------------------------------------------------

  /** The last fragment by itself. */
  lemma OneFrame(f: Frame)
    requires Valid(f) && IsData(f) && f.fin
    ensures IsMessage([f]) && EncodeAll([f]) == Encode(f) && Payload([f]) == f.payload && Pings([f]) == []
  {
    hide Valid, Encode;
    var none: seq<Frame> := [];
    assert [f][1..] == none;
    assert EncodeAll(none) == [] && Payload(none) == [] && Pings(none) == [];
  }

  /** One frame before a message. */
  lemma MoreFrames(f: Frame, fs: seq<Frame>)
    requires IsMessage(fs) && forall i :: 0 <= i < |fs| ==> Valid(fs[i])
    requires Valid(f) && (f.opcode == PING || f.opcode == PONG || (IsData(f) && !f.fin))
    ensures IsMessage([f] + fs) && forall i :: 0 <= i < |[f] + fs| ==> Valid(([f] + fs)[i])
    ensures EncodeAll([f] + fs) == Encode(f) + EncodeAll(fs)
    ensures Payload([f] + fs) == (if IsData(f) then f.payload else []) + Payload(fs)
    ensures Pings([f] + fs) == (if f.opcode == PING then [f.payload] else []) + Pings(fs)
  {
    hide Valid, Encode;
    assert ([f] + fs)[1..] == fs && fs != [];
    forall i | 0 <= i < |[f] + fs| ensures Valid(([f] + fs)[i]) {
      assert i > 0 ==> ([f] + fs)[i] == fs[i - 1];
    }
  }

  lemma {:induction false} ReceiveBack(fs: seq<Frame>, acc: seq<byte>, rest: seq<byte>)
    requires IsMessage(fs)
    ensures (forall i :: 0 <= i < |fs| ==> Valid(fs[i]))
            && Receive(EncodeAll(fs) + rest, acc) == Message(acc + Payload(fs), rest, Pings(fs))
    decreases |fs|
  {
    hide ReadFrame, Encode, Valid, EncodeAll, Payload, Pings;
    MessageIsValid(fs);
    var f, more := fs[0], fs[1..];
    assert fs == [f] + more;
    if |fs| == 1 {
      OneFrame(f);
      FrameBack(f, rest);
      assert fs == [f];
    } else {
      var acc1 := if IsData(f) then acc + f.payload else acc;
      ReceiveBack(more, acc1, rest);
      MoreFrames(f, more);
      FrameBack(f, EncodeAll(more) + rest);
      assert EncodeAll(fs) + rest == Encode(f) + (EncodeAll(more) + rest);
      assert acc1 + Payload(more) == acc + Payload(fs);
      assert [] + Pings(more) == Pings(more);
    }
  }

  /** The frames that a received message came from. */
  lemma {:induction false} ReceiveIsMessage(s: seq<byte>, acc: seq<byte>) returns (fs: seq<Frame>)
    requires Receive(s, acc).Message?
    ensures IsMessage(fs) && forall i :: 0 <= i < |fs| ==> Valid(fs[i])
    ensures var o := Receive(s, acc);
            EncodeAll(fs) + o.rest == s && o.payload == acc + Payload(fs) && o.pongs == Pings(fs)
    decreases |s|
  {
    hide ReadFrame, Encode, Valid, EncodeAll, Payload, Pings, IsMessage;
    var (f, rest) := ReadFrame(s).value;
    ReadIsEncoding(s);
    if IsData(f) && f.fin {
      fs := [f];
      OneFrame(f);
    } else {
      var acc1 := if IsData(f) then acc + f.payload else acc;
      var more := ReceiveIsMessage(rest, acc1);
      fs := [f] + more;
      MoreFrames(f, more);
      var left := Receive(rest, acc1).rest;
      assert Encode(f) + (EncodeAll(more) + left) == EncodeAll(fs) + left;
      assert acc1 + Payload(more) == acc + Payload(fs);
      assert [] + Pings(more) == Pings(more);
    }
  }

  ghost predicate CameFrom(s: seq<byte>, fs: seq<Frame>, p: seq<byte>, rest: seq<byte>, pongs: seq<seq<byte>>) {
    && IsMessage(fs) && (forall i :: 0 <= i < |fs| ==> Valid(fs[i]))
    && EncodeAll(fs) + rest == s && Payload(fs) == p && Pings(fs) == pongs
  }

  /** Main result: the receiver returns a payload, leaves a rest and answers pings exactly when the
      stream starts with fragments of that payload, with those pings among them, in any masks, length
      encodings and reserved bits. */
  lemma ReassemblyIsExact(s: seq<byte>, p: seq<byte>, rest: seq<byte>, pongs: seq<seq<byte>>)
    ensures Receive(s, []) == Message(p, rest, pongs) <==> exists fs :: CameFrom(s, fs, p, rest, pongs)
  {
    hide Receive, Encode, Valid, IsMessage, EncodeAll, Payload, Pings;
    if Receive(s, []) == Message(p, rest, pongs) {
      var fs := ReceiveIsMessage(s, []);
      assert [] + Payload(fs) == Payload(fs);
      assert CameFrom(s, fs, p, rest, pongs);
    }
    if exists fs :: CameFrom(s, fs, p, rest, pongs) {
      var fs :| CameFrom(s, fs, p, rest, pongs);
      ReceiveBack(fs, [], rest);
      assert [] + p == p;
    }
  }

  // ----- sending -----------------------------------------------------------------------------

  function FormFor(n: nat): Form { if n <= 125 then Seven else if n <= 65535 then Sixteen else SixtyFour }

  /** What ws_send_frame sends: always FIN, the shortest length, the opcode cut to four bits. */
  function Sent(opcode: nat, data: seq<byte>, key: Option<seq<byte>>): Frame {
    Frame(true, 0, opcode % 16, FormFor(|data|), key, data)
  }

  lemma SentIsValid(opcode: nat, data: seq<byte>, key: Option<seq<byte>>)
    requires |data| < Pow(256, 8) && (key.Some? ==> |key.value| == 4)
    ensures Valid(Sent(opcode, data, key))
  {
    assert Pow(256, 2) == 65536;
  }

  /** A sent data frame is a message by itself, at all three length encodings. */
  lemma SentIsReceived(opcode: nat, data: seq<byte>, key: Option<seq<byte>>, rest: seq<byte>)
    requires |data| < Pow(256, 8) && (key.Some? ==> |key.value| == 4)
    requires IsData(Sent(opcode, data, key))
    ensures Valid(Sent(opcode, data, key))
            && Receive(Encode(Sent(opcode, data, key)) + rest, []) == Message(data, rest, [])
  {
    hide Encode, ReadFrame, Pow;
    SentIsValid(opcode, data, key);
    FrameBack(Sent(opcode, data, key), rest);
    assert [] + data == data;
  }

  function Pongs(ps: seq<seq<byte>>): seq<byte>
    requires forall i :: 0 <= i < |ps| ==> |ps[i]| < Pow(256, 8)
  {
    if ps == [] then []
    else
      SentIsValid(PONG, ps[|ps| - 1], None);
      Pongs(ps[..|ps| - 1]) + Encode(Sent(PONG, ps[|ps| - 1], None))
  }

  /** A payload length came from at most eight bytes. */
  lemma {:induction false} PongsFit(s: seq<byte>, acc: seq<byte>)
    ensures forall i :: 0 <= i < |Receive(s, acc).pongs| ==> |Receive(s, acc).pongs[i]| < Pow(256, 8)
    decreases |s|
  {
    hide ReadFrame, Pow;
    if ReadFrame(s).Some? {
      var (f, rest) := ReadFrame(s).value;
      FrameFits(s);
      if f.opcode == PING || f.opcode == PONG { PongsFit(rest, acc); }
      else if !f.fin { PongsFit(rest, acc + f.payload); }
    }
  }

  lemma FrameFits(s: seq<byte>)
    requires ReadFrame(s).Some?
    ensures |ReadFrame(s).value.0.payload| < Pow(256, 8)
  {
    hide ReadFrame;
    ReadIsEncoding(s);
    SmallPow();
  }

  lemma SmallPow()
    ensures 126 < Pow(256, 2) < Pow(256, 8)
  {
    assert Pow(256, 4) == 256 * (256 * Pow(256, 2)) && Pow(256, 2) == 65536;
    assert Pow(256, 8) == 256 * (256 * (256 * (256 * Pow(256, 4))));
  }
}
