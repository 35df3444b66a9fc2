/** The ring and the linked list answer every sequence of operations alike. */
module ChannelSame {
  import C = Channel
  import opened ChannelRing
  import opened ChannelList

  datatype Op = Send(v: C.Val) | Recv | Close

  datatype Reply = Sent(r: C.SendResult) | Received(r': C.RecvResult) | Closed

  function Apply(c: C.Chan, op: Op): (C.Chan, Reply) {
    match op
    case Send(v) => var (c1, r) := C.SendPass(c, v); (c1, Sent(r))
    case Recv => var (c1, r) := C.RecvPass(c); (c1, Received(r))
    case Close => (C.Close(c), Closed)
  }

  function Replies(c: C.Chan, ops: seq<Op>): (r: seq<Reply>)
    ensures |r| == |ops|
    decreases |ops|
  {
    if ops == [] then []
    else var (c1, x) := Apply(c, ops[0]); [x] + Replies(c1, ops[1..])
  }

  method StepBoth(a: Ring, b: LinkedChan, op: Op) returns (x: Reply, y: Reply)
    requires a.Valid() && b.Valid() && a.State() == b.State()
    modifies a, a.buf, b, b.LastNode()
    ensures a.Valid() && b.Valid() && a.buf == old(a.buf)
    ensures fresh(b.LastNode() - old(b.LastNode()))
    ensures (a.State(), x) == Apply(old(a.State()), op) && (b.State(), y) == Apply(old(b.State()), op)
  {
    hide C.SendPass, C.RecvPass;
    match op {
      case Send(v) =>
        var r, _ := a.Send(v);
        var q, _ := b.Send(v);
        return Sent(r), Sent(q);
      case Recv =>
        var r, _ := a.Recv();
        var q, _ := b.Recv();
        return Received(r), Received(q);
      case Close =>
        var _ := a.Close();
        var _ := b.Close();
        return Closed, Closed;
    }
  }

  lemma FirstReply(c: C.Chan, ops: seq<Op>, i: nat)
    requires i < |ops|
    ensures Replies(c, ops[i..]) == [Apply(c, ops[i]).1] + Replies(Apply(c, ops[i]).0, ops[i + 1..])
  {
    hide Apply;
    assert ops[i..][0] == ops[i] && ops[i..][1..] == ops[i + 1..];
  }

  lemma NoReply(c: C.Chan, ops: seq<Op>)
    ensures Replies(c, ops[|ops|..]) == [] && ops[0..] == ops
  {}

  /** Both channels, side by side. */
  method RunBoth(cap: nat, ops: seq<Op>) returns (ring: seq<Reply>, list: seq<Reply>)
    requires cap > 0
    ensures ring == Replies(C.Chan(cap, [], false), ops) && list == ring
  {
    hide Apply, Replies, Ring.Valid, LinkedChan.Valid, Ring.Items, LinkedChan.Items;
    var a := new Ring(cap);
    var b := new LinkedChan(cap);
    ring, list := [], [];
    var i := 0;
    NoReply(a.State(), ops);
    while i < |ops|
      invariant i <= |ops| && a.Valid() && b.Valid() && list == ring
      invariant fresh(a) && fresh(a.buf) && fresh(b) && fresh(b.LastNode())
      invariant a.State() == b.State()
      invariant ring + Replies(a.State(), ops[i..]) == Replies(C.Chan(cap, [], false), ops)
    {
      FirstReply(a.State(), ops, i);
      var x, y := StepBoth(a, b, ops[i]);
      ring, list := ring + [x], list + [y];
      i := i + 1;
    }
    NoReply(a.State(), ops);
  }
}
