/** The ring buffer: an array with a write index, a read index and a count. */
module ChannelRing {
  import opened Common
  import C = Channel

  type Val = C.Val

  /** Each method is the code between lock and unlock (or wait); its result says which condition variable
      it signals. */
  class Ring {
    var buf: array<Val>
    var cap: nat
    var head: nat        // next slot to write
    var tail: nat        // next slot to read
    var len: nat
    var closed: bool

    ghost predicate Valid()
      reads this
    {
      && buf.Length == cap > 0 && len <= cap && tail < cap
      && head == Place(tail, len, cap)
    }

    /** The items from the oldest on. */
    ghost function Items(): (s: seq<Val>)
      requires Valid()
      reads this, buf
    {
      seq(len, i requires 0 <= i < len && Valid() reads this, buf => buf[Place(tail, i, cap)])
    }

    ghost function State(): C.Chan
      requires Valid()
      reads this, buf
    {
      C.Chan(cap, Items(), closed)
    }

    constructor (capacity: int)
      ensures Valid() && fresh(buf)
      ensures State() == C.Chan(if capacity <= 0 then 1 else capacity, [], false)
    {
      var n := if capacity <= 0 then 1 else capacity;
      cap, head, tail, len, closed := n, 0, 0, 0, false;
      buf := new Val[n](_ => 0);
    }

    method Put(v: Val)
      requires Valid() && len < cap
      modifies this, buf
      ensures Valid() && State() == old(State()).(items := old(Items()) + [v]) && buf == old(buf)
    {
      ghost var was := Items();
      buf[head] := v;
      NextPlace(tail, len, cap);
      head := (head + 1) % cap;
      len := len + 1;
      assert Items() == was + [v];
    }

    method Take() returns (v: Val)
      requires Valid() && len > 0
      modifies `tail, `len
      ensures Valid() && old(Items()) == [v] + Items() && State() == old(State()).(items := Items())
    {
      ghost var was := Items();
      v := buf[tail];
      NextPlace(tail, 0, cap);
      tail := (tail + 1) % cap;
      len := len - 1;
      forall i | 0 <= i < len ensures Items()[i] == was[i + 1] {}
      assert was == [v] + Items();
    }

    /** One pass of a blocking send. */
    method Send(v: Val) returns (r: C.SendResult, signalNotEmpty: bool)
      requires Valid()
      modifies this, buf
      ensures Valid() && buf == old(buf)
      ensures (State(), r) == C.SendPass(old(State()), v) && (signalNotEmpty <==> r.Accepted?)
    {
      if !closed && len >= cap { return C.MustWait, false; }
      if closed { return C.Dropped, false; }
      Put(v);
      return C.Accepted, true;
    }

    /** One pass of a blocking receive. */
    method Recv() returns (r: C.RecvResult, signalNotFull: bool)
      requires Valid()
      modifies `tail, `len
      ensures Valid()
      ensures (State(), r) == C.RecvPass(old(State())) && (signalNotFull <==> r.Got?)
    {
      if len == 0 && !closed { return C.Waits, false; }
      if len == 0 { return C.Ended, false; }
      ghost var was := Items();
      var v := Take();
      assert was[1..] == Items();
      return C.Got(v), true;
    }

    method TrySend(v: Val) returns (ok: bool, signalNotEmpty: bool)
      requires Valid()
      modifies this, buf
      ensures Valid() && buf == old(buf)
      ensures (State(), ok) == C.TrySend(old(State()), v) && (signalNotEmpty <==> ok)
    {
      if closed || len >= cap { return false, false; }
      Put(v);
      return true, true;
    }

    /** NULL, here None, both for an empty open channel and for a closed one. */
    method TryRecv() returns (r: Option<Val>, signalNotFull: bool)
      requires Valid()
      modifies `tail, `len
      ensures Valid()
      ensures var (c, x) := C.TryRecv(old(State()));
              State() == c && r == (if x.Got? then Some(x.v) else None) && (signalNotFull <==> x.Got?)
    {
      if len == 0 { return None, false; }
      ghost var was := Items();
      var v := Take();
      assert was[1..] == Items();
      return Some(v), true;
    }

    /** Both condition variables are broadcast, whether or not the channel was open. */
    method Close() returns (broadcast: bool)
      requires Valid()
      modifies `closed
      ensures Valid() && State() == C.Close(old(State())) && broadcast
    {
      ghost var was := Items();
      closed := true;
      assert Items() == was;
      return true;
    }
  }

  /** The slot i places after tail, going around. */
  function Place(tail: nat, i: nat, cap: nat): (r: nat)
    requires tail < cap && i <= cap
    ensures r < cap
  {
    if tail + i < cap then tail + i else tail + i - cap
  }

  lemma NextPlace(tail: nat, i: nat, cap: nat)
    requires tail < cap && i < cap
    ensures (Place(tail, i, cap) + 1) % cap == Place(tail, i + 1, cap)
  {
    var p := Place(tail, i, cap);
    if p + 1 == cap { assert (p + 1) % cap == 0; }
  }
}
