/** The pool object: a linked task queue with a count and a flag. */
module PoolQueue {
  import P = Pool

  class TaskNode {
    const task: P.Task
    var next: TaskNode?

    constructor (t: P.Task)
      ensures task == t && next == null
    {
      task, next := t, null;
    }
  }

  /** Each method is the code under one holding of the mutex. */
  class TaskPool {
    var head: TaskNode?
    var tail: TaskNode?
    var pending: int
    var shutdown: bool
    ghost var spine: seq<TaskNode>

    ghost predicate Valid()
      reads this, spine
    {
      && (forall i, j :: 0 <= i < j < |spine| ==> spine[i] != spine[j])
      && (forall i :: 0 <= i < |spine| - 1 ==> spine[i].next == spine[i + 1])
      && (if spine == [] then head == null && tail == null
          else head == spine[0] && tail == spine[|spine| - 1] && tail.next == null)
    }

    ghost function Tasks(): seq<P.Task>
      reads this
    {
      seq(|spine|, i requires 0 <= i < |spine| reads this => spine[i].task)
    }

    ghost function State(): P.Shared
      reads this
    {
      P.Shared(Tasks(), pending, shutdown)
    }

    ghost function LastNode(): set<TaskNode>
      reads this
    {
      if tail == null then {} else {tail}
    }

    constructor ()
      ensures Valid() && State() == P.Shared([], 0, false) && LastNode() == {}
    {
      head, tail, pending, shutdown, spine := null, null, 0, false, [];
    }

    /** Afterwards one sleeping worker is signalled. */
    method Submit(t: P.Task)
      requires Valid()
      modifies this, LastNode()
      ensures Valid() && State() == P.Submitted(old(State()), t) && fresh(LastNode() - old(LastNode()))
    {
      ghost var was := Tasks();
      var node := new TaskNode(t);
      pending := pending + 1;
      if tail != null { tail.next := node; } else { head := node; }
      tail := node;
      spine := spine + [node];
      assert Tasks() == was + [t];
    }

    /** A worker's turn at the top of its loop. */
    method PickUp() returns (r: P.Pick)
      requires Valid()
      modifies this
      ensures Valid() && (State(), r) == P.PickUp(old(State())) && LastNode() <= old(LastNode())
    {
      if !shutdown && head == null { return P.Sleep; }
      if shutdown && head == null { return P.Quit; }
      ghost var was := Tasks();
      r := P.Run(head.task);
      head := head.next;
      spine := spine[1..];
      if head == null { tail := null; }
      assert Tasks() == was[1..];
    }

    /** A task has returned; allDone tells whether the waiting threads are woken. */
    method Finish() returns (allDone: bool)
      requires Valid()
      modifies `pending
      ensures Valid() && State() == P.Finished(old(State())) && (allDone <==> pending == 0)
    {
      ghost var was := Tasks();
      pending := pending - 1;
      assert Tasks() == was;
      return pending == 0;
    }

    method MustWait() returns (b: bool)
      ensures b <==> State().pending > 0
    {
      return pending > 0;
    }

    /** Afterwards all sleeping workers are woken. */
    method Shutdown()
      requires Valid()
      modifies `shutdown
      ensures Valid() && State() == old(State()).(shutdown := true)
    {
      ghost var was := Tasks();
      shutdown := true;
      assert Tasks() == was;
    }
  }
}
