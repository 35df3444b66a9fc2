/** The list with its two representations: pointers, or 32-bit integers. */
module List {
  import opened Common

  const WORD := 0x1_0000_0000
  const HALF := 0x8000_0000

  type Int32 = x: int | -HALF <= x < HALF

  /** A pointer-sized value, which may hold an integer in its bits. */
  type Box = x: int | 0 <= x < WORD * WORD

  /** Zero-extension of the 32 bits. */
  function ToBox(v: Int32): Box { v % WORD }

  /** The low 32 bits, with their sign. */
  function FromBox(p: Box): Int32 {
    var m := p % WORD;
    if m < HALF then m else m - WORD
  }

  lemma BoxedComesBack(v: Int32)
    ensures FromBox(ToBox(v)) == v
  {}

  /** A box that was made from an integer is what boxing its integer gives. */
  lemma UnboxedGoesBack(p: Box)
    ensures ToBox(FromBox(p)) == p % WORD
  {}

  datatype Kind = Pointers | Integers

  /** The plain list. */
  datatype Result<T> = Ok(value: T) | IndexError(index: int, len: nat)

  /** A negative index counts from the end. */
  function Place(i: int, n: nat): Option<nat> {
    var j := if i < 0 then i + n else i;
    if 0 <= j < n then Some(j) else None
  }

  function Got<T>(s: seq<T>, i: int): Result<T> {
    match Place(i, |s|) case Some(j) => Ok(s[j]) case None => IndexError(i, |s|)
  }

  function Put<T>(s: seq<T>, i: int, v: T): seq<T> {
    match Place(i, |s|) case Some(j) => s[j := v] case None => s
  }

  const INIT_CAP := 8

  class DuxList {
    const kind: Kind
    var data: array<int>       // raw cells: boxes, or 32-bit integers
    var len: nat
    var cap: nat

    ghost predicate Valid()
      reads this, data
    {
      && data.Length == cap > 0 && len <= cap
      && forall i :: 0 <= i < len ==>
           if kind == Integers then -HALF <= data[i] < HALF else 0 <= data[i] < WORD * WORD
    }

    /** The elements as generic code sees them. */
    ghost function Boxes(): (s: seq<Box>)
      requires Valid()
      reads this, data
    {
      seq(len, i requires 0 <= i < len && Valid() reads this, data =>
            if kind == Integers then ToBox(data[i]) else data[i])
    }

    /** The elements as 32-bit integers: the plain sequence that both representations stand for. */
    ghost function Ints(): (s: seq<Int32>)
      requires Valid()
      reads this, data
    {
      Unboxed(Boxes())
    }

    constructor (kind: Kind)
      ensures Valid() && this.kind == kind && Boxes() == [] && Ints() == [] && fresh(data)
    {
      this.kind, len, cap := kind, 0, INIT_CAP;
      data := new int[INIT_CAP](_ => 0);
    }

    /** Room for one more: the capacity doubles when it is used up. */
    method Reserve()
      requires Valid()
      modifies this
      ensures Valid() && len < cap && Boxes() == old(Boxes()) && len == old(len)
      ensures fresh(data) || data == old(data)
    {
      if len == cap {
        ghost var was := Boxes();
        var bigger := new int[2 * cap](i requires 0 <= i reads this, data => if i < data.Length then data[i] else 0);
        data, cap := bigger, 2 * cap;
        assert Boxes() == was;
      }
    }

    method Push(p: Box)
      requires Valid() && kind == Pointers
      modifies this, data
      ensures Valid() && Boxes() == old(Boxes()) + [p] && (fresh(data) || data == old(data))
    {
      ghost var was := Boxes();
      Reserve();
      data[len] := p;
      len := len + 1;
      assert Boxes() == was + [p];
    }

    method PushInt(v: Int32)
      requires Valid() && kind == Integers
      modifies this, data
      ensures Valid() && Boxes() == old(Boxes()) + [ToBox(v)] && (fresh(data) || data == old(data))
      ensures Ints() == old(Ints()) + [v]
    {
      ghost var was := Boxes();
      Reserve();
      data[len] := v;
      len := len + 1;
      assert Boxes() == was + [ToBox(v)];
      UnboxedPush(was, v);
    }

    method Get(i: int) returns (r: Result<Box>)
      requires Valid()
      ensures r == Got(Boxes(), i)
    {
      var j := if i < 0 then i + len else i;
      if j < 0 || j >= len { return IndexError(i, len); }
      return Ok(if kind == Integers then ToBox(data[j]) else data[j]);
    }

    /** The typed read. */
    method GetInt(i: int) returns (r: Result<Int32>)
      requires Valid() && kind == Integers
      ensures r == Got(Ints(), i)
    {
      var j := if i < 0 then i + len else i;
      if j < 0 || j >= len { return IndexError(i, len); }
      BoxedComesBack(data[j]);
      return Ok(data[j]);
    }

    method Set(i: int, p: Box) returns (r: Result<()>)
      requires Valid()
      modifies data
      ensures Valid() && Boxes() == Put(old(Boxes()), i, if kind == Integers then p % WORD else p)
      ensures Ints() == Put(old(Ints()), i, FromBox(p))
      ensures r == if Place(i, len).Some? then Ok(()) else IndexError(i, len)
    {
      var j := if i < 0 then i + len else i;
      if j < 0 || j >= len { return IndexError(i, len); }
      ghost var was := Boxes();
      data[j] := if kind == Integers then FromBox(p) else p;
      UnboxedGoesBack(p);
      ghost var q := if kind == Integers then p % WORD else p;
      assert Boxes() == was[j := q];
      assert FromBox(q) == FromBox(p);
      assert Ints() == Unboxed(was)[j := FromBox(p)];
      return Ok(());
    }

    method SetInt(i: int, v: Int32) returns (r: Result<()>)
      requires Valid() && kind == Integers
      modifies data
      ensures Valid() && Ints() == Put(old(Ints()), i, v)
      ensures r == if Place(i, len).Some? then Ok(()) else IndexError(i, len)
    {
      var j := if i < 0 then i + len else i;
      if j < 0 || j >= len { return IndexError(i, len); }
      ghost var was := Ints();
      data[j] := v;
      BoxedComesBack(v);
      assert Ints() == was[j := v];
      return Ok(());
    }
  }

  function Unboxed(s: seq<Box>): (r: seq<Int32>)
    ensures |r| == |s|
  {
    seq(|s|, i requires 0 <= i < |s| => FromBox(s[i]))
  }

  lemma UnboxedAppend(a: seq<Box>, b: seq<Box>)
    ensures Unboxed(a + b) == Unboxed(a) + Unboxed(b)
  {}

  lemma UnboxedPush(a: seq<Box>, v: Int32)
    ensures Unboxed(a + [ToBox(v)]) == Unboxed(a) + [v]
  {
    BoxedComesBack(v);
  }

  /** Concatenation of lists in any representation; the result holds boxes. */
  method Concat(a: DuxList, b: DuxList) returns (out: DuxList)
    requires a.Valid() && b.Valid()
    ensures fresh(out) && out.Valid() && out.kind == Pointers
    ensures out.Boxes() == a.Boxes() + b.Boxes() && out.Ints() == a.Ints() + b.Ints()
  {
    out := new DuxList(Pointers);
    assert [] + a.Boxes() == a.Boxes();
    AppendAll(out, a);
    AppendAll(out, b);
    UnboxedAppend(a.Boxes(), b.Boxes());
  }

  method AppendAll(out: DuxList, a: DuxList)
    requires out.Valid() && out.kind == Pointers && a.Valid() && out != a && out.data != a.data
    modifies out, out.data
    ensures out.Valid() && out.Boxes() == old(out.Boxes()) + old(a.Boxes())
    ensures a.Valid() && a.Boxes() == old(a.Boxes()) && (fresh(out.data) || out.data == old(out.data))
  {
    ghost var was, all := out.Boxes(), a.Boxes();
    var i := 0;
    assert all[..0] == [] && was + [] == was;
    while i < a.len
      invariant i <= a.len && out.Valid() && out.data != a.data && a.Valid() && a.Boxes() == all
      invariant fresh(out.data) || out.data == old(out.data)
      invariant out.Boxes() == was + all[..i]
    {
      var p := a.Get(i);
      assert all[..i] + [all[i]] == all[..i + 1];
      out.Push(p.value);
      i := i + 1;
    }
    assert all[..i] == all;
  }

  // ----- both representations under the same operations --------------------------------------

  datatype Op = Push(v: Int32) | Set(i: int, v: Int32) | Get(i: int)

  datatype Reply = Done | Status(s: Result<()>) | Value(x: Result<Int32>)

  function Apply(s: seq<Int32>, op: Op): (seq<Int32>, Reply) {
    match op
    case Push(v) => (s + [v], Done)
    case Set(i, v) => (Put(s, i, v), Status(if Place(i, |s|).Some? then Ok(()) else IndexError(i, |s|)))
    case Get(i) => (s, Value(Got(s, i)))
  }

  method StepTyped(l: DuxList, op: Op) returns (r: Reply)
    requires l.Valid() && l.kind == Integers
    modifies l, l.data
    ensures l.Valid() && (l.Ints(), r) == Apply(old(l.Ints()), op) && (fresh(l.data) || l.data == old(l.data))
  {
    match op {
      case Push(v) => l.PushInt(v); return Done;
      case Set(i, v) => var s := l.SetInt(i, v); return Status(s);
      case Get(i) => var x := l.GetInt(i); return Value(x);
    }
  }

  /** The generic operations, with boxing before and unboxing after. */
  method StepBoxed(l: DuxList, op: Op) returns (r: Reply)
    requires l.Valid() && (op.Push? ==> l.kind == Pointers)
    modifies l, l.data
    ensures l.Valid() && (l.Ints(), r) == Apply(old(l.Ints()), op) && (fresh(l.data) || l.data == old(l.data))
  {
    match op {
      case Push(v) =>
        UnboxedPush(l.Boxes(), v);
        l.Push(ToBox(v));
        return Done;
      case Set(i, v) =>
        BoxedComesBack(v);
        var s := l.Set(i, ToBox(v));
        return Status(s);
      case Get(i) =>
        var x := l.Get(i);
        return Value(match x case Ok(p) => Ok(FromBox(p)) case IndexError(j, n) => IndexError(j, n));
    }
  }

  function Replies(s: seq<Int32>, ops: seq<Op>): (r: seq<Reply>)
    ensures |r| == |ops|
    decreases |ops|
  {
    if ops == [] then [] else var (s1, x) := Apply(s, ops[0]); [x] + Replies(s1, ops[1..])
  }

  method StepPair(a: DuxList, b: DuxList, op: Op) returns (x: Reply, y: Reply)
    requires a.Valid() && b.Valid() && a.kind == Integers && b.kind == Pointers
    requires a != b && a.data != b.data && a.Ints() == b.Ints()
    modifies a, a.data, b, b.data
    ensures a.Valid() && b.Valid() && (fresh(a.data) || a.data == old(a.data))
    ensures (fresh(b.data) || b.data == old(b.data)) && a.data != b.data
    ensures (a.Ints(), x) == Apply(old(a.Ints()), op) && b.Ints() == a.Ints() && y == x
  {
    hide Apply;
    x := StepTyped(a, op);
    y := StepBoxed(b, op);
  }

  /** A typed and a boxed list answer every sequence of operations as a plain sequence does. */
  method RunBoth(ops: seq<Op>) returns (typed: seq<Reply>, boxed: seq<Reply>)
    ensures typed == Replies([], ops) && boxed == typed
  {
    hide Apply;
    var a := new DuxList(Integers);
    var b := new DuxList(Pointers);
    typed, boxed := [], [];
    var i := 0;
    while i < |ops|
      invariant i <= |ops| && a.Valid() && b.Valid() && a.kind == Integers && b.kind == Pointers
      invariant fresh(a) && fresh(b) && fresh(a.data) && fresh(b.data) && a != b && a.data != b.data
      invariant a.Ints() == b.Ints() && boxed == typed
      invariant typed + Replies(a.Ints(), ops[i..]) == Replies([], ops)
    {
      assert ops[i..][0] == ops[i] && ops[i..][1..] == ops[i + 1..];
      var x, y := StepPair(a, b, ops[i]);
      typed, boxed := typed + [x], boxed + [y];
      i := i + 1;
    }
  }
}
