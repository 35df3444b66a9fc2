/** The thread channel: a linked list that represents the same queue. */
module ChannelList {
  import C = Channel

  type Val = C.Val

  class Node {
    var val: Val
    var next: Node?

    constructor (v: Val)
      ensures val == v && next == null
    {
      val, next := v, null;
    }
  }

  /** What a receive without waiting answers: 1, 0 or -1. */
  datatype Answer = Item(v: Val) | Empty | EmptyClosed

  class LinkedChan {
    var head: Node?
    var tail: Node?
    var len: nat
    var cap: int           // zero or less: unbounded
    var closed: bool
    ghost var spine: seq<Node>

    ghost predicate Valid()
      reads this, spine
    {
      && len == |spine|
      && (forall i, j :: 0 <= i < j < |spine| ==> spine[i] != spine[j])
      && (forall i :: 0 <= i < |spine| - 1 ==> spine[i].next == spine[i + 1])
      && (if spine == [] then head == null && tail == null
          else head == spine[0] && tail == spine[|spine| - 1] && tail.next == null)
    }

    /** The node that an append links to the new one. */
    ghost function LastNode(): set<Node>
      reads this
    {
      if tail == null then {} else {tail}
    }

    ghost function Items(): seq<Val>
      reads this, spine
    {
      seq(|spine|, i requires 0 <= i < |spine| reads this, spine => spine[i].val)
    }

    ghost function State(): C.Chan
      reads this, spine
    {
      C.Chan(cap, Items(), closed)
    }

    constructor (capacity: int)
      ensures Valid() && State() == C.Chan(capacity, [], false) && LastNode() == {}
    {
      head, tail, len, cap, closed, spine := null, null, 0, capacity, false, [];
    }

    method Append(v: Val)
      requires Valid()
      modifies this, LastNode()
      ensures Valid() && State() == old(State()).(items := old(Items()) + [v])
      ensures fresh(LastNode() - old(LastNode()))
    {
      ghost var was := Items();
      var node := new Node(v);
      if tail != null { tail.next := node; } else { head := node; }
      tail := node;
      len := len + 1;
      spine := spine + [node];
      assert Items() == was + [v];
    }

    method RemoveFirst() returns (v: Val)
      requires Valid() && head != null
      modifies this
      ensures Valid() && old(Items()) == [v] + Items() && State() == old(State()).(items := Items())
      ensures LastNode() <= old(LastNode())
    {
      ghost var was := Items();
      var node := head;
      head := node.next;
      spine := spine[1..];
      if head == null { tail := null; }
      len := len - 1;
      v := node.val;
      assert was == [v] + Items();
    }

    /** One pass of a send. */
    method Send(v: Val) returns (r: C.SendResult, signalNotEmpty: bool)
      requires Valid()
      modifies this, LastNode()
      ensures Valid() && fresh(LastNode() - old(LastNode()))
      ensures (State(), r) == C.SendPass(old(State()), v) && (signalNotEmpty <==> r.Accepted?)
    {
      if cap > 0 && len >= cap && !closed { return C.MustWait, false; }
      if closed { return C.Dropped, false; }
      Append(v);
      return C.Accepted, true;
    }

    /** One pass of a receive. */
    method Recv() returns (r: C.RecvResult, signalNotFull: bool)
      requires Valid()
      modifies this
      ensures Valid()
      ensures LastNode() <= old(LastNode())
      ensures (State(), r) == C.RecvPass(old(State())) && (signalNotFull <==> r.Got?)
    {
      if head == null && !closed { return C.Waits, false; }
      if head == null { return C.Ended, false; }
      ghost var was := Items();
      var v := RemoveFirst();
      assert was[1..] == Items();
      return C.Got(v), true;
    }

    method TryRecv() returns (r: Answer, signalNotFull: bool)
      requires Valid()
      modifies this
      ensures Valid()
      ensures var (c, x) := C.TryRecv(old(State()));
              && State() == c
              && r == (match x case Got(v) => Item(v) case Waits => Empty case Ended => EmptyClosed)
              && (signalNotFull <==> x.Got?)
    {
      if head == null { return if closed then EmptyClosed else Empty, false; }
      ghost var was := Items();
      var v := RemoveFirst();
      assert was[1..] == Items();
      return Item(v), true;
    }

    /** Both condition variables are broadcast. */
    method Close() returns (broadcast: bool)
      requires Valid()
      modifies this`closed
      ensures Valid() && State() == C.Close(old(State())) && broadcast
    {
      closed := true;
      return true;
    }
  }
}
