/** Range loops whose bounds name the loop variable: the checker takes them for the outer variable of
    that name, the emitter for the new one. */
module LowerRange {
  import opened Common
  import opened ScalarSource
  import opened ScalarCheck
  import opened Ir
  import opened Lower
  import opened LowerFrame
  import opened LowerMain

  // ----- when the bounds are those of the outer variable -------------------------------------

  /** Two emitters that differ only in where x is. */
  ghost predicate Alike(a: Emitter, b: Emitter, x: string) {
    && a.blocks == b.blocks && a.cur == b.cur && a.loops == b.loops
    && a.nextSlot == b.nextSlot && a.nextReg == b.nextReg && a.errors == b.errors
    && OnlyAt(a.env, b.env, x)
  }

  ghost predicate OnlyAt(a: Scopes<nat>, b: Scopes<nat>, x: string) {
    && (forall y :: y != x ==> Find(a, y) == Find(b, y))
    && Find(a, x).Some? && Find(b, x).Some? && Find(a, x) != Find(b, x)
  }

  /** Somewhere the two pieces of code have different instructions. */
  predicate Apart(p: seq<Code>, q: seq<Code>) {
    exists i, j :: 0 <= i < |p| && i < |q| && 0 <= j < |p[i]| && j < |q[i]| && p[i][j] != q[i][j]
  }

  predicate Longer(p: seq<Code>, q: seq<Code>) {
    |p| <= |q| && forall i :: 0 <= i < |p| ==> p[i] <= q[i]
  }

  lemma ApartStays(p: seq<Code>, q: seq<Code>, p1: seq<Code>, q1: seq<Code>)
    requires Apart(p, q) && Longer(p, p1) && Longer(q, q1)
    ensures Apart(p1, q1)
  {
    var i, j :| 0 <= i < |p| && i < |q| && 0 <= j < |p[i]| && j < |q[i]| && p[i][j] != q[i][j];
    assert p[i] <= p1[i] && q[i] <= q1[i];
    assert p1[i][j] != q1[i][j];
  }

  lemma GrowsLonger(a: Emitter, b: Emitter)
    requires Grows(a, b)
    ensures Longer(a.blocks, b.blocks)
  {}

  lemma LongerTrans(p: seq<Code>, q: seq<Code>, r: seq<Code>)
    requires Longer(p, q) && Longer(q, r)
    ensures Longer(p, r)
  {
    forall i | 0 <= i < |p| ensures p[i] <= r[i] { assert p[i] <= q[i] && q[i] <= r[i]; }
  }

  lemma EmitApart(a: Emitter, b: Emitter, x: string, i: Instr, j: Instr)
    requires Alike(a, b, x)
    ensures i != j ==> Apart(Emit(a, i).blocks, Emit(b, j).blocks)
    ensures i == j ==> Alike(Emit(a, i), Emit(b, j), x)
  {
    hide OnlyAt;
    var n := |a.blocks[a.cur]|;
    assert Emit(a, i).blocks[a.cur][n] == i && Emit(b, j).blocks[b.cur][n] == j;
  }

  /** What the two emitters make of one thing: the same, or code that is apart. */
  ghost predicate Told(a: (Emitter, Operand), b: (Emitter, Operand), x: string, mentioned: bool) {
    if mentioned then Apart(a.0.blocks, b.0.blocks) else Alike(a.0, b.0, x) && a.1 == b.1
  }

  /** More of the same code. */
  lemma ToldMore(a: (Emitter, Operand), b: (Emitter, Operand), a1: (Emitter, Operand), b1: (Emitter, Operand),
                 x: string)
    requires Told(a, b, x, true) && Longer(a.0.blocks, a1.0.blocks) && Longer(b.0.blocks, b1.0.blocks)
    ensures Told(a1, b1, x, true)
  {
    ApartStays(a.0.blocks, b.0.blocks, a1.0.blocks, b1.0.blocks);
  }

  lemma ToldValue(a: (Emitter, Operand), b: (Emitter, Operand), i: Instr, j: Instr, x: string, mentioned: bool)
    requires Told(a, b, x, mentioned) && (!mentioned ==> i == j)
    ensures Told(EmitValue(a.0, i), EmitValue(b.0, j), x, mentioned)
  {
    hide OnlyAt;
    GrowsLonger(a.0, EmitValue(a.0, i).0);
    GrowsLonger(b.0, EmitValue(b.0, j).0);
    if mentioned {
      ToldMore(a, b, EmitValue(a.0, i), EmitValue(b.0, j), x);
    } else {
      var a1, b1 := a.0.(nextReg := a.0.nextReg + 1), b.0.(nextReg := b.0.nextReg + 1);
      EmitApart(a1, b1, x, i, j);
    }
  }

  lemma UpdateLonger(em: Emitter, op: ArithOp, slot: nat, v: Operand)
    ensures Longer(em.blocks, GenUpdate(em, op, slot, v).0.blocks)
    ensures Longer(EmitValue(em, Load(em.nextReg, slot)).0.blocks, GenUpdate(em, op, slot, v).0.blocks)
  {
    var em1 := EmitValue(em, Load(em.nextReg, slot)).0;
    var em2 := EmitValue(em1, Binary(em1.nextReg, op, Reg(em.nextReg), v)).0;
    GrowsTrans(em1, em2, GenUpdate(em, op, slot, v).0);
    GrowsTrans(em, em1, GenUpdate(em, op, slot, v).0);
  }

  /** Load, combine and store of one variable. */
  lemma ToldUpdate(a: (Emitter, Operand), b: (Emitter, Operand), op: ArithOp, s: nat, t: nat, x: string)
    requires Told(a, b, x, false)
    ensures Told(GenUpdate(a.0, op, s, a.1), GenUpdate(b.0, op, t, b.1), x, s != t)
  {
    hide OnlyAt;
    var i, j := Load(a.0.nextReg, s), Load(b.0.nextReg, t);
    var a1, b1 := a.0.(nextReg := a.0.nextReg + 1), b.0.(nextReg := b.0.nextReg + 1);
    EmitApart(a1, b1, x, i, j);
    if s != t {
      UpdateLonger(a.0, op, s, a.1);
      UpdateLonger(b.0, op, t, b.1);
      ToldMore(EmitValue(a.0, i), EmitValue(b.0, j), GenUpdate(a.0, op, s, a.1), GenUpdate(b.0, op, t, b.1), x);
    } else {
      var a2, b2 := EmitValue(a.0, i), EmitValue(b.0, j);
      var k := Binary(a2.0.nextReg, op, a2.1, a.1);
      ToldValue(a2, b2, k, k, x, false);
      var a3, b3 := EmitValue(a2.0, k), EmitValue(b2.0, k);
      EmitApart(a3.0, b3.0, x, Store(a3.1, s), Store(b3.1, t));
    }
  }

  /** The code of an expression is the same for both exactly when the expression does not mention x. */
  lemma {:induction false} ToldExpr(a: Emitter, b: Emitter, e: Expr, x: string)
    requires Alike(a, b, x)
    ensures Told(GenExpr(a, e), GenExpr(b, e), x, Mentions(e, x))
    decreases e, 1
  {
    hide OnlyAt, GenUpdate, Find, Apart, Longer, Told, Grows;
    match e {
      case Lit(n) => ToldSame((a, Const(Wrap(n))), (b, Const(Wrap(n))), x);
      case Var(y) => ToldVar(a, b, y, x);
      case Arith(op, l, r) => ToldPair(a, b, e, l, r, x);
      case Cmp(op, l, r) => ToldPair(a, b, e, l, r, x);
      case And(_, _) => ToldLogic(a, b, e, x);
      case Or(_, _) => ToldLogic(a, b, e, x);
      case Not(e1) => ToldNot(a, b, e, x);
      case Neg(e1) => ToldNeg(a, b, e, x);
      case Assign(y, e1) => ToldAssign(a, b, e, x);
      case Compound(op, y, e1) => ToldCompound(a, b, e, x);
      case IncDec(y, up, prefix) => ToldIncDec(a, b, e, x);
    }
  }

  lemma ToldSame(a: (Emitter, Operand), b: (Emitter, Operand), x: string)
    requires Alike(a.0, b.0, x) && a.1 == b.1
    ensures Told(a, b, x, false)
  {}

  lemma SlotsOf(a: Emitter, b: Emitter, y: string, x: string)
    requires Alike(a, b, x)
    ensures y != x ==> Find(a.env, y) == Find(b.env, y)
    ensures y == x ==> Find(a.env, y).Some? && Find(b.env, y).Some? && Find(a.env, y) != Find(b.env, y)
  {}

  lemma ToldVar(a: Emitter, b: Emitter, y: string, x: string)
    requires Alike(a, b, x)
    ensures Told(GenExpr(a, Var(y)), GenExpr(b, Var(y)), x, y == x)
  {
    hide OnlyAt, Find, Apart;
    SlotsOf(a, b, y, x);
    if Find(a.env, y).Some? {
      var i, j := Load(a.nextReg, Find(a.env, y).value), Load(b.nextReg, Find(b.env, y).value);
      EmitApart(a.(nextReg := a.nextReg + 1), b.(nextReg := b.nextReg + 1), x, i, j);
    }
  }

  lemma ExprLonger(em: Emitter, e: Expr)
    ensures Longer(em.blocks, GenExpr(em, e).0.blocks)
  {
    GrowsExpr(em, e);
  }

  lemma CondLonger(em: Emitter, e: Expr)
    ensures Longer(em.blocks, GenCond(em, e).0.blocks)
  {
    GrowsCond(em, e);
  }

  lemma EmitLonger(em: Emitter, i: Instr)
    ensures Longer(em.blocks, Emit(em, i).blocks) && Longer(em.blocks, EmitValue(em, i).0.blocks)
  {}

  /** Two stages, of which the first may already have come apart. */
  lemma ToldThen(a1: (Emitter, Operand), b1: (Emitter, Operand), a2: (Emitter, Operand), b2: (Emitter, Operand),
                 x: string, first: bool, second: bool)
    requires Told(a1, b1, x, first) && (!first ==> Told(a2, b2, x, second))
    requires Longer(a1.0.blocks, a2.0.blocks) && Longer(b1.0.blocks, b2.0.blocks)
    ensures Told(a2, b2, x, first || second)
  {
    if first { ToldMore(a1, b1, a2, b2, x); }
  }

  lemma ToldAlike(a: (Emitter, Operand), b: (Emitter, Operand), x: string)
    requires Told(a, b, x, false)
    ensures Alike(a.0, b.0, x) && a.1 == b.1
  {}

  lemma {:induction false} ToldPair(a: Emitter, b: Emitter, e: Expr, l: Expr, r: Expr, x: string)
    requires Alike(a, b, x) && ((e.Arith? && e == Arith(e.aop, l, r)) || (e.Cmp? && e == Cmp(e.cop, l, r)))
    ensures Told(GenExpr(a, e), GenExpr(b, e), x, Mentions(e, x))
    decreases e, 0
  {
    hide OnlyAt, Longer, Told, Mentions;
    var a1, b1 := GenExpr(a, l), GenExpr(b, l);
    var a2, b2 := GenExpr(a1.0, r), GenExpr(b1.0, r);
    var m, n := Mentions(l, x), Mentions(r, x);
    ToldExpr(a, b, l, x);
    if !m {
      ToldAlike(a1, b1, x);
      ToldExpr(a1.0, b1.0, r, x);
    }
    ExprLonger(a1.0, r);
    ExprLonger(b1.0, r);
    ToldThen(a1, b1, a2, b2, x, m, n);
    if !m && !n { ToldAlike(a2, b2, x); }
    var i := if e.Arith? then Binary(a2.0.nextReg, e.aop, a1.1, a2.1) else ICmp(a2.0.nextReg, e.cop, a1.1, a2.1);
    var j := if e.Arith? then Binary(b2.0.nextReg, e.aop, b1.1, b2.1) else ICmp(b2.0.nextReg, e.cop, b1.1, b2.1);
    ToldValue(a2, b2, i, j, x, m || n);
    MentionsPair(e, l, r, x);
  }

  lemma MentionsPair(e: Expr, l: Expr, r: Expr, x: string)
    requires (e.Arith? || e.Cmp? || e.And? || e.Or?) && e.l == l && e.r == r
    ensures Mentions(e, x) <==> Mentions(l, x) || Mentions(r, x)
  {}

  lemma {:induction false} ToldCond(a: Emitter, b: Emitter, e: Expr, x: string)
    requires Alike(a, b, x)
    ensures Told(GenCond(a, e), GenCond(b, e), x, Mentions(e, x))
    decreases e, 2
  {
    hide OnlyAt, Longer, Told, Mentions, GenExpr;
    ToldExpr(a, b, e, x);
    var a1, b1, m := GenExpr(a, e), GenExpr(b, e), Mentions(e, x);
    if !e.IsBool() {
      if !m { ToldAlike(a1, b1, x); }
      ToldValue(a1, b1, ICmp(a1.0.nextReg, Ne, a1.1, Const(0)), ICmp(b1.0.nextReg, Ne, b1.1, Const(0)), x, m);
    }
  }

  lemma {:induction false} ToldNot(a: Emitter, b: Emitter, e: Expr, x: string)
    requires Alike(a, b, x) && e.Not?
    ensures Told(GenExpr(a, e), GenExpr(b, e), x, Mentions(e, x))
    decreases e, 0
  {
    hide OnlyAt, Longer, Told, GenCond;
    ToldCond(a, b, e.e, x);
    var a1, b1, m := GenCond(a, e.e), GenCond(b, e.e), Mentions(e.e, x);
    if !m { ToldAlike(a1, b1, x); }
    ToldValue(a1, b1, NotBit(a1.0.nextReg, a1.1), NotBit(b1.0.nextReg, b1.1), x, m);
  }

  lemma {:induction false} ToldNeg(a: Emitter, b: Emitter, e: Expr, x: string)
    requires Alike(a, b, x) && e.Neg?
    ensures Told(GenExpr(a, e), GenExpr(b, e), x, Mentions(e, x))
    decreases e, 0
  {
    hide OnlyAt, Longer, Told;
    ToldExpr(a, b, e.e, x);
    var a1, b1, m := GenExpr(a, e.e), GenExpr(b, e.e), Mentions(e.e, x);
    if !m { ToldAlike(a1, b1, x); }
    ToldValue(a1, b1, Binary(a1.0.nextReg, Sub, Const(0), a1.1), Binary(b1.0.nextReg, Sub, Const(0), b1.1), x, m);
  }

  lemma StoreTold(a: (Emitter, Operand), b: (Emitter, Operand), s: nat, t: nat, x: string)
    requires Told(a, b, x, false)
    ensures Told((Emit(a.0, Store(a.1, s)), a.1), (Emit(b.0, Store(b.1, t)), b.1), x, s != t)
  {
    hide OnlyAt;
    EmitApart(a.0, b.0, x, Store(a.1, s), Store(b.1, t));
  }

  lemma ErrorTold(a: (Emitter, Operand), b: (Emitter, Operand), x: string)
    requires Told(a, b, x, false)
    ensures Told((Error(a.0), a.1), (Error(b.0), b.1), x, false)
  {}

  lemma {:induction false} ToldAssign(a: Emitter, b: Emitter, e: Expr, x: string)
    requires Alike(a, b, x) && e.Assign?
    ensures Told(GenExpr(a, e), GenExpr(b, e), x, Mentions(e, x))
    decreases e, 0
  {
    hide OnlyAt, Longer, Told, Find;
    ToldExpr(a, b, e.e, x);
    SlotsOf(a, b, e.x, x);
    var a1, b1, m := GenExpr(a, e.e), GenExpr(b, e.e), Mentions(e.e, x);
    var s, t := Find(a.env, e.x), Find(b.env, e.x);
    if s.Some? {
      EmitLonger(a1.0, Store(a1.1, s.value));
      EmitLonger(b1.0, Store(b1.1, t.value));
      if !m { StoreTold(a1, b1, s.value, t.value, x); }
      ToldThen(a1, b1, GenExpr(a, e), GenExpr(b, e), x, m, s != t);
    } else {
      assert Longer(a1.0.blocks, a1.0.blocks) && Longer(b1.0.blocks, b1.0.blocks) by { LongerSelf(); }
      if !m { ErrorTold(a1, b1, x); }
      ToldThen(a1, b1, GenExpr(a, e), GenExpr(b, e), x, m, false);
    }
  }

  lemma LongerSelf()
    ensures forall p :: Longer(p, p)
  {}

  lemma {:induction false} ToldCompound(a: Emitter, b: Emitter, e: Expr, x: string)
    requires Alike(a, b, x) && e.Compound?
    ensures Told(GenExpr(a, e), GenExpr(b, e), x, Mentions(e, x))
    decreases e, 0
  {
    hide OnlyAt, Longer, Told, Find, GenUpdate;
    ToldExpr(a, b, e.e, x);
    SlotsOf(a, b, e.x, x);
    var a1, b1, m := GenExpr(a, e.e), GenExpr(b, e.e), Mentions(e.e, x);
    var s, t := Find(a.env, e.x), Find(b.env, e.x);
    if s.Some? {
      UpdateLonger(a1.0, e.aop, s.value, a1.1);
      UpdateLonger(b1.0, e.aop, t.value, b1.1);
      if !m { ToldUpdate(a1, b1, e.aop, s.value, t.value, x); }
      ToldThen(a1, b1, GenExpr(a, e), GenExpr(b, e), x, m, s != t);
    } else {
      assert Longer(a1.0.blocks, a1.0.blocks) && Longer(b1.0.blocks, b1.0.blocks) by { LongerSelf(); }
      if !m { ErrorTold(a1, b1, x); }
      ToldThen(a1, b1, GenExpr(a, e), GenExpr(b, e), x, m, false);
    }
  }

  lemma ToldIncDec(a: Emitter, b: Emitter, e: Expr, x: string)
    requires Alike(a, b, x) && e.IncDec?
    ensures Told(GenExpr(a, e), GenExpr(b, e), x, Mentions(e, x))
  {
    hide OnlyAt, Longer, Find, GenUpdate, Apart;
    SlotsOf(a, b, e.x, x);
    var s, t, op := Find(a.env, e.x), Find(b.env, e.x), if e.up then Add else Sub;
    if s.Some? {
      ToldSame((a, Const(1)), (b, Const(1)), x);
      ToldUpdate((a, Const(1)), (b, Const(1)), op, s.value, t.value, x);
    }
  }

  /** The left operand of && or ||, the branch, and the move to the block of the right one. */
  function LogicHead(em: Emitter, e: Expr): (r: (Emitter, Operand))
    requires e.And? || e.Or?
  {
    var k := |em.blocks|;
    var (em1, v) := GenCond(NewBlocks(em, 2), e.l);
    (At(Emit(em1, if e.And? then CondBr(v, k, k + 1) else CondBr(v, k + 1, k)), k), v)
  }

  function LogicTail(em: Emitter, k: nat, from: nat, left: Operand, right: Operand): (r: (Emitter, Operand))
    requires k + 1 < |em.blocks|
  {
    var em4 := At(Emit(em, Br(Some(k + 1))), k + 1);
    EmitValue(em4, Phi(em4.nextReg, from, left, em.cur, right))
  }

  lemma LogicIs(em: Emitter, e: Expr)
    requires e.And? || e.Or?
    ensures var h := LogicHead(em, e);
            var r := GenCond(h.0, e.r);
            GenLogic(em, e) == LogicTail(r.0, |em.blocks|, GenCond(NewBlocks(em, 2), e.l).0.cur,
                                         if e.And? then Const(0) else h.1, r.1)
  {
    hide GenCond;
  }

  lemma {:induction false} ToldHead(a: Emitter, b: Emitter, e: Expr, x: string)
    requires Alike(a, b, x) && (e.And? || e.Or?)
    ensures Told(LogicHead(a, e), LogicHead(b, e), x, Mentions(e.l, x))
    ensures !Mentions(e.l, x) ==> GenCond(NewBlocks(a, 2), e.l).0.cur == GenCond(NewBlocks(b, 2), e.l).0.cur
    decreases e.l, 3
  {
    hide OnlyAt, Longer, Mentions, GenCond, Apart;
    var a0, b0, m := NewBlocks(a, 2), NewBlocks(b, 2), Mentions(e.l, x);
    ToldCond(a0, b0, e.l, x);
    var a1, b1 := GenCond(a0, e.l), GenCond(b0, e.l);
    var k := |a.blocks|;
    var i := if e.And? then CondBr(a1.1, k, k + 1) else CondBr(a1.1, k + 1, k);
    var j := if e.And? then CondBr(b1.1, k, k + 1) else CondBr(b1.1, k + 1, k);
    if m {
      EmitLonger(a1.0, i);
      EmitLonger(b1.0, j);
      ApartStays(a1.0.blocks, b1.0.blocks, LogicHead(a, e).0.blocks, LogicHead(b, e).0.blocks);
    } else {
      EmitApart(a1.0, b1.0, x, i, j);
    }
  }

  lemma TailLonger(em: Emitter, k: nat, from: nat, left: Operand, right: Operand)
    requires k + 1 < |em.blocks|
    ensures Longer(em.blocks, LogicTail(em, k, from, left, right).0.blocks)
  {
    var em4 := At(Emit(em, Br(Some(k + 1))), k + 1);
    EmitLonger(em, Br(Some(k + 1)));
    EmitLonger(em4, Phi(em4.nextReg, from, left, em.cur, right));
    LongerTrans(em.blocks, em4.blocks, LogicTail(em, k, from, left, right).0.blocks);
  }

  lemma ToldTail(a: (Emitter, Operand), b: (Emitter, Operand), k: nat, from: nat, left: Operand, x: string)
    requires Told(a, b, x, false) && k + 1 < |a.0.blocks|
    ensures Told(LogicTail(a.0, k, from, left, a.1), LogicTail(b.0, k, from, left, b.1), x, false)
  {
    hide OnlyAt;
    var i := Br(Some(k + 1));
    EmitApart(a.0, b.0, x, i, i);
    var a4, b4 := (At(Emit(a.0, i), k + 1), a.1), (At(Emit(b.0, i), k + 1), b.1);
    var j := Phi(a4.0.nextReg, from, left, a.0.cur, a.1);
    ToldValue(a4, b4, j, j, x, false);
  }

  lemma {:induction false} ToldLogic(a: Emitter, b: Emitter, e: Expr, x: string)
    requires Alike(a, b, x) && (e.And? || e.Or?)
    ensures Told(GenLogic(a, e), GenLogic(b, e), x, Mentions(e, x))
    decreases e, 0
  {
    hide OnlyAt, Longer, Told, Mentions, GenCond, GenLogic, LogicHead, LogicTail;
    var m, n, k := Mentions(e.l, x), Mentions(e.r, x), |a.blocks|;
    ToldHead(a, b, e, x);
    LogicIs(a, e);
    LogicIs(b, e);
    var a1, b1 := LogicHead(a, e), LogicHead(b, e);
    var a2, b2 := GenCond(a1.0, e.r), GenCond(b1.0, e.r);
    if !m {
      ToldAlike(a1, b1, x);
      ToldCond(a1.0, b1.0, e.r, x);
    }
    CondLonger(a1.0, e.r);
    CondLonger(b1.0, e.r);
    ToldThen(a1, b1, a2, b2, x, m, n);
    var fa, fb := GenCond(NewBlocks(a, 2), e.l).0.cur, GenCond(NewBlocks(b, 2), e.l).0.cur;
    var la, lb := if e.And? then Const(0) else a1.1, if e.And? then Const(0) else b1.1;
    HeadBlocks(a, e);
    HeadBlocks(b, e);
    TailLonger(a2.0, |a.blocks|, fa, la, a2.1);
    TailLonger(b2.0, |b.blocks|, fb, lb, b2.1);
    if !m && !n { ToldTail(a2, b2, k, fa, la, x); }
    ToldThen(a2, b2, GenLogic(a, e), GenLogic(b, e), x, m || n, false);
    MentionsPair(e, e.l, e.r, x);
  }

  lemma HeadBlocks(em: Emitter, e: Expr)
    requires e.And? || e.Or?
    ensures |em.blocks| + 1 < |GenCond(LogicHead(em, e).0, e.r).0.blocks|
  {
    hide GenExpr;
  }

  lemma ApartDiffers(p: seq<Code>, q: seq<Code>)
    requires Apart(p, q)
    ensures p != q
  {}

  lemma NewScope(env: Scopes<nat>, x: string, slot: nat)
    requires Find(env, x).Some? && Find(env, x) != Some(slot)
    ensures OnlyAt(Define(env + [map[]], x, slot), env + [map[]], x)
  {
    var late, soon := env + [map[]], Define(env + [map[]], x, slot);
    assert late[..|env|] == env && soon[..|env|] == env;
    assert forall y :: Level(late, y) == Level(env, y);
    assert forall y :: y != x ==> Level(soon, y) == Level(env, y);
  }

  /** What the emitter would do if it, too, put the loop variable into scope after the bounds. */
  function LateScope(em: Emitter): Emitter {
    PushEnv(em).(nextSlot := em.nextSlot + 1)
  }

  /** One bound: where a variable x is in scope, its code in a range loop over another x is the code for
      the outer variable if and only if the bound does not mention x. */
  lemma BoundIsTheOuterOne(em: Emitter, bound: Expr, x: string)
    requires Find(em.env, x).Some? && Find(em.env, x) != Some(em.nextSlot)
    ensures GenExpr(DefineVar(PushEnv(em), x), bound).0.blocks == GenExpr(LateScope(em), bound).0.blocks
            <==> !Mentions(bound, x)
  {
    var a, b := DefineVar(PushEnv(em), x), LateScope(em);
    assert OnlyAt(a.env, b.env, x) by { NewScope(em.env, x, em.nextSlot); }
    hide OnlyAt;
    ToldExpr(a, b, bound, x);
    if Mentions(bound, x) { ApartDiffers(GenExpr(a, bound).0.blocks, GenExpr(b, bound).0.blocks); }
  }

  /** The head of a range loop as it would be with the loop variable put into scope after the bounds. */
  function LateHead(em: Emitter, s: Stmt): (Emitter, Operand)
    requires s.ForRange?
  {
    var (em2, a) := GenExpr(LateScope(NewBlocks(em, 4)), s.lo);
    var (em3, b) := GenExpr(em2, s.hi);
    (Emit(Emit(em3, Store(a, em.nextSlot)), Br(Some(|em.blocks|))), b)
  }

  /** Main result, for the loop: where an outer variable has the loop variable's name, the code up to the
      header of the loop is what it is for the outer variable if and only if neither bound mentions the
      name. */
  lemma RangeIsTheOuterOne(em: Emitter, s: Stmt)
    requires s.ForRange? && Find(em.env, s.x).Some? && Find(em.env, s.x) != Some(em.nextSlot)
    ensures RangeHead(em, s).0.blocks == LateHead(em, s).0.blocks <==> !Mentions(s.lo, s.x) && !Mentions(s.hi, s.x)
  {
    hide OnlyAt, Longer, Told, Mentions, GenExpr, Find;
    var em0 := NewBlocks(em, 4);
    var a, b := DefineVar(PushEnv(em0), s.x), LateScope(em0);
    assert OnlyAt(a.env, b.env, s.x) by { NewScope(em.env, s.x, em.nextSlot); }
    var m, n := Mentions(s.lo, s.x), Mentions(s.hi, s.x);
    var a1, b1 := GenExpr(a, s.lo), GenExpr(b, s.lo);
    var a2, b2 := GenExpr(a1.0, s.hi), GenExpr(b1.0, s.hi);
    ToldExpr(a, b, s.lo, s.x);
    if !m {
      ToldAlike(a1, b1, s.x);
      ToldExpr(a1.0, b1.0, s.hi, s.x);
    }
    ExprLonger(a1.0, s.hi);
    ExprLonger(b1.0, s.hi);
    ToldThen(a1, b1, a2, b2, s.x, m, n);
    TailTold(em, a1, b1, a2, b2, s.x, m, n);
  }

  /** The store of the lower bound and the jump do not bring the two together again. */
  lemma TailTold(em: Emitter, a1: (Emitter, Operand), b1: (Emitter, Operand), a2: (Emitter, Operand),
                 b2: (Emitter, Operand), x: string, first: bool, second: bool)
    requires Told(a1, b1, x, first) && Told(a2, b2, x, first || second)
    ensures var i, j, k := Store(a1.1, em.nextSlot), Store(b1.1, em.nextSlot), Br(Some(|em.blocks|));
            Emit(Emit(a2.0, i), k).blocks == Emit(Emit(b2.0, j), k).blocks <==> !first && !second
  {
    hide OnlyAt;
    var i, j, k := Store(a1.1, em.nextSlot), Store(b1.1, em.nextSlot), Br(Some(|em.blocks|));
    var a3, b3 := Emit(a2.0, i), Emit(b2.0, j);
    if first || second {
      EmitLonger(a2.0, i);
      EmitLonger(b2.0, j);
      EmitLonger(a3, k);
      EmitLonger(b3, k);
      LongerTrans(a2.0.blocks, a3.blocks, Emit(a3, k).blocks);
      LongerTrans(b2.0.blocks, b3.blocks, Emit(b3, k).blocks);
      ApartStays(a2.0.blocks, b2.0.blocks, Emit(a3, k).blocks, Emit(b3, k).blocks);
      ApartDiffers(Emit(a3, k).blocks, Emit(b3, k).blocks);
    } else {
      EmitApart(a2.0, b2.0, x, i, j);
      EmitApart(a3, b3, x, k, k);
    }
  }

  // ----- the failing input -------------------------------------------------------------------

  /** void f(int i) { for int i in 0..<i { print(i); } } */
  function OwnBound(): Function {
    Function(["i"], [ForRange("i", Lit(0), Var("i"), false, [Print(Var("i"))])], true)
  }

  lemma BodyRuns(s: Store, v: int)
    requires |s| == 2 && s[1] == map["i" := v]
    ensures ExecBlock([Print(Var("i"))], [Nest("", true)], State(s, []), 1) == (Normal, State(s, [v]))
  {
    var show := Print(Var("i"));
    var s2: Store := s + [map[]];
    assert s2[..2] == s && Level(s, "i") == 2 && Level(s2, "i") == 2;
    assert Read(s2, "i") == v && [] + [v] == [v];
    assert ExecStmt(show, [Nest("", true)], State(s2, []), 1) == (Normal, State(s2, [v]));
    hide ExecStmt;
    assert [show][1..] == [];
    assert ExecStmts([show], [Nest("", true)], State(s2, []), 1) == (Normal, State(s2, [v]));
  }

  lemma OneRound(s0: Store)
    requires |s0| == 1
    ensures ExecLoop(GuardRange("i", 1, false), [Print(Var("i"))], Some(IncDec("i", true, true)), [], "",
                     State(s0 + [map["i" := 0]], []), 2)
            == (Normal, State(s0 + [map["i" := 1]], [0]))
  {
    var g, step, body := GuardRange("i", 1, false), Some(IncDec("i", true, true)), [Print(Var("i"))];
    var s1: Store := s0 + [map["i" := 0]];
    var s3: Store := s0 + [map["i" := 1]];
    BodyRuns(s1, 0);
    assert Level(s1, "i") == 2 && Level(s3, "i") == 2 && s1[1]["i" := 1] == map["i" := 1];
    assert Read(s1, "i") == 0 && Read(s3, "i") == 1;
    assert Write(s1, "i", 1) == s1[1 := map["i" := 1]] == s3;
    assert AfterRound(step, s1) == s3;
    hide ExecBlock, Read, AfterRound;
    assert ExecLoop(g, body, step, [], "", State(s3, [0]), 1) == (Normal, State(s3, [0]));
    assert [] + [Nest("", true)] == [Nest("", true)];
    assert ExecLoop(g, body, step, [], "", State(s1, []), 2) == (Normal, State(s3, [0]));
  }

  lemma OwnLoopEnds(s0: Store)
    requires s0 == [map["i" := 1]]
    ensures ExecStmt(OwnBound().body[0], [], State(s0, []), 2) == (Normal, State(s0, [0]))
  {
    assert Level(s0, "i") == 1 && Read(s0, "i") == 1;
    assert EvalExpr(Lit(0), s0) == (0, s0) && EvalExpr(Var("i"), s0) == (1, s0);
    OneRound(s0);
    assert Pop(s0 + [map["i" := 1]]) == s0;
    hide ExecLoop, EvalExpr, Pop, Read;
  }

  lemma OwnBoundEnds()
    ensures Call(OwnBound(), [1], 2) == (Returned(None), [0])
  {
    assert Bind(["i"], [1]) == map["i" := 1] by { assert ["i"][..0] == [] && [1][..0] == []; }
    OwnLoopEnds([map["i" := 1]]);
    hide ExecStmt, Bind;
    assert OwnBound().body[1..] == [];
  }

  /** Emitting to one block of five. */
  lemma EmitAt(em: Emitter, b0: Code, b1: Code, b2: Code, b3: Code, b4: Code, i: Instr)
    requires em.blocks == [b0, b1, b2, b3, b4]
    ensures em.cur == 0 ==> Emit(em, i).blocks == [b0 + [i], b1, b2, b3, b4]
    ensures em.cur == 1 ==> Emit(em, i).blocks == [b0, b1 + [i], b2, b3, b4]
    ensures em.cur == 2 ==> Emit(em, i).blocks == [b0, b1, b2 + [i], b3, b4]
    ensures em.cur == 3 ==> Emit(em, i).blocks == [b0, b1, b2, b3 + [i], b4]
    ensures em.cur == 4 ==> Emit(em, i).blocks == [b0, b1, b2, b3, b4 + [i]]
  {}

  lemma OwnBoundStart()
    ensures Start(OwnBound()) == Emitter([[Store(Reg(0), 0)]], 0, [], [map["i" := 0]], 1, 1, 0)
  {
    var em := Emitter([[]], 0, [], [map[]], 0, 1, 0);
    assert em.blocks[0] + [Store(Reg(0), 0)] == [Store(Reg(0), 0)];
    assert Emit(em, Store(Reg(0), 0)).blocks == [[Store(Reg(0), 0)]];
    assert [map[]][0 := map["i" := 0]] == [map["i" := 0]];
  }

  const ENTRY: Code := [Store(Reg(0), 0), Load(1, 1), Store(Const(0), 1), Br(Some(1))]

  /** The upper bound is loaded from the new slot, before anything is stored there. */
  lemma OwnBoundHead()
    ensures RangeHead(Start(OwnBound()), OwnBound().body[0])
            == (Emitter([ENTRY, [], [], [], []], 0, [], [map["i" := 0], map["i" := 1]], 2, 2, 0), Reg(1))
  {
    OwnBoundStart();
    var em := Start(OwnBound());
    var b0: Code := [Store(Reg(0), 0)];
    var em1 := DefineVar(PushEnv(NewBlocks(em, 4)), "i");
    assert em1.blocks == [b0, [], [], [], []];
    assert em1.env == [map["i" := 0], map["i" := 1]] by {
      assert [map["i" := 0]] + [map[]] == [map["i" := 0], map[]];
    }
    assert Find(em1.env, "i") == Some(1);
    var em2 := EmitValue(em1, Load(1, 1)).0;
    EmitAt(em1.(nextReg := 2), b0, [], [], [], [], Load(1, 1));
    assert b0 + [Load(1, 1)] == [Store(Reg(0), 0), Load(1, 1)];
    var em3 := Emit(em2, Store(Const(0), 1));
    EmitAt(em2, b0 + [Load(1, 1)], [], [], [], [], Store(Const(0), 1));
    EmitAt(em3, b0 + [Load(1, 1)] + [Store(Const(0), 1)], [], [], [], [], Br(Some(1)));
    assert b0 + [Load(1, 1)] + [Store(Const(0), 1)] + [Br(Some(1))] == ENTRY;
  }

  const HEADER: Code := [Load(2, 1), ICmp(3, Lt, Reg(2), Reg(1)), CondBr(Reg(3), 2, 4)]
  const BODY: Code := [Load(4, 1), CallPrint(Reg(4)), Br(Some(3))]
  const STEP: Code := [Load(5, 1), Binary(6, Add, Reg(5), Const(1)), Store(Reg(6), 1), Br(Some(1))]

  lemma HeaderCode(em: Emitter)
    requires em.blocks == [ENTRY, [], [], [], []] && em.cur == 1 && em.nextReg == 2
    ensures var (em1, v) := GenTest(em, TestRange(1, Reg(1), false));
            Emit(em1, CondBr(v, 2, 4)) == em.(blocks := [ENTRY, HEADER, [], [], []], nextReg := 4)
  {
    var i, j, k := Load(2, 1), ICmp(3, Lt, Reg(2), Reg(1)), CondBr(Reg(3), 2, 4);
    EmitAt(em.(nextReg := 3), ENTRY, [], [], [], [], i);
    var em1 := EmitValue(em, i).0;
    EmitAt(em1.(nextReg := 4), ENTRY, [] + [i], [], [], [], j);
    var em2 := EmitValue(em1, j).0;
    EmitAt(em2, ENTRY, [] + [i] + [j], [], [], [], k);
    assert [] + [i] + [j] + [k] == HEADER;
  }

  lemma ShowCode(em: Emitter)
    requires em.blocks == [ENTRY, HEADER, [], [], []] && em.cur == 2 && em.nextReg == 4
    requires Find(em.env, "i") == Some(1)
    ensures GenStmts(em, [Print(Var("i"))])
            == em.(blocks := [ENTRY, HEADER, [Load(4, 1), CallPrint(Reg(4))], [], []], nextReg := 5)
  {
    var show, i, j := Print(Var("i")), Load(4, 1), CallPrint(Reg(4));
    EmitAt(em.(nextReg := 5), ENTRY, HEADER, [], [], [], i);
    var em2 := EmitValue(em, i).0;
    EmitAt(em2, ENTRY, HEADER, [] + [i], [], [], j);
    assert [] + [i] + [j] == [i, j];
    assert Open(em);
    assert GenStmt(em, show) == Emit(em2, j);
    hide GenStmt, Emit, EmitValue;
    assert [show][1..] == [];
  }

  lemma NewestScope()
    ensures var env: Scopes<nat> := [map["i" := 0], map["i" := 1]];
            Find(env, "i") == Some(1) && Find(env + [map[]], "i") == Some(1) && Pop(env + [map[]]) == env
  {
    var env: Scopes<nat> := [map["i" := 0], map["i" := 1]];
    assert (env + [map[]])[..2] == env;
    assert Level(env, "i") == 2 && Level(env + [map[]], "i") == 2;
  }

  lemma BodyCode(em: Emitter)
    requires em.blocks == [ENTRY, HEADER, [], [], []] && em.cur == 2 && em.nextReg == 4
    requires em.env == [map["i" := 0], map["i" := 1]] && em.loops == []
    ensures GenLoopBody(em, LoopCtx(Some(3), 4, ""), [Print(Var("i"))])
            == em.(blocks := [ENTRY, HEADER, BODY, [], []], nextReg := 5)
  {
    hide GenStmts, Find, Pop, Emit;
    NewestScope();
    var loop, i, j, k := LoopCtx(Some(3), 4, ""), Load(4, 1), CallPrint(Reg(4)), Br(Some(3));
    assert em.loops + [loop] == [loop];
    ShowCode(PushEnv(em.(loops := [loop])));
    var em4 := em.(blocks := [ENTRY, HEADER, [i, j], [], []], nextReg := 5);
    assert em4.blocks[2] == [i, j] && Open(em4);
    EmitAt(em4, ENTRY, HEADER, [i, j], [], [], k);
    assert [i, j] + [k] == BODY;
    assert Emit(em4, k) == em4.(blocks := [ENTRY, HEADER, BODY, [], []]) by { EmitKeeps(em4, k); }
  }

  lemma EmitKeeps(em: Emitter, i: Instr)
    ensures Emit(em, i) == em.(blocks := Emit(em, i).blocks)
  {}

  lemma StepCode(em: Emitter)
    requires em.blocks == [ENTRY, HEADER, BODY, [], []] && em.cur == 3 && em.nextReg == 5
    requires Find(em.env, "i") == Some(1)
    ensures Emit(GenExpr(em, IncDec("i", true, true)).0, Br(Some(1))).blocks == [ENTRY, HEADER, BODY, STEP, []]
    ensures GenExpr(em, IncDec("i", true, true)).0.cur == 3
  {
    var i, j, k, l := Load(5, 1), Binary(6, Add, Reg(5), Const(1)), Store(Reg(6), 1), Br(Some(1));
    EmitAt(em.(nextReg := 6), ENTRY, HEADER, BODY, [], [], i);
    var em1 := EmitValue(em, i).0;
    EmitAt(em1.(nextReg := 7), ENTRY, HEADER, BODY, [] + [i], [], j);
    var em2 := EmitValue(em1, j).0;
    EmitAt(em2, ENTRY, HEADER, BODY, [] + [i] + [j], [], k);
    var em3 := Emit(em2, k);
    EmitAt(em3, ENTRY, HEADER, BODY, [] + [i] + [j] + [k], [], l);
    assert [] + [i] + [j] + [k] + [l] == STEP;
  }

  lemma OwnBoundCode()
    ensures Compiled(OwnBound()) == [ENTRY, HEADER, BODY, STEP, [Ret(None)]]
  {
    hide RangeHead, GenTest, GenLoopBody, GenExpr, Emit, Start;
    var f := OwnBound();
    var loop, em := f.body[0], Start(f);
    OwnBoundHead();
    OwnBoundStart();
    var em1 := RangeHead(em, loop).0;
    HeaderCode(At(em1, 1));
    var em2 := em1.(blocks := [ENTRY, HEADER, [], [], []], nextReg := 4, cur := 2);
    BodyCode(em2);
    var em3 := em2.(blocks := [ENTRY, HEADER, BODY, [], []], nextReg := 5);
    assert Find(em3.env, "i") == Some(1);
    StepCode(At(em3, 3));
    var em4 := GenStmt(em, loop);
    assert em4.blocks == [ENTRY, HEADER, BODY, STEP, []] && em4.cur == 4;
    assert Open(em) && f.body[1..] == [] && GenStmts(em, f.body) == em4;
    EmitAt(em4, ENTRY, HEADER, BODY, STEP, [], Ret(None));
    assert [] + [Ret(None)] == [Ret(None)];
  }

  lemma OwnBoundNotScoped()
    ensures !ScopedFunction(OwnBound()) && OwnBound().params == ["i"]
  {
    assert Mentions(Var("i"), "i");
  }

  /** The failing input: on 1 the source prints 0.  The emitted code compares with what it loads from a
      slot that nothing has been stored to; such a load is undefined in the source's target, and the
      machine here reads 0, so that nothing is printed. */
  lemma OwnBoundIsLost()
    ensures !ScopedFunction(OwnBound())
    ensures SourceEnds(OwnBound(), [1], Returned(None), [0])
    ensures MachineStops(OwnBound(), [1], Done(None, []))
  {
    hide Compiled, Run, Call, ScopedFunction, OwnBound, LowerMain.Entry;
    var f := OwnBound();
    OwnBoundNotScoped();
    OwnBoundEnds();
    OwnBoundCode();
    OwnBoundRuns(Compiled(f));
    assert Run(Compiled(f), LowerMain.Entry([1]), 8) == Done(None, []);
  }

  lemma OwnBoundRuns(p: seq<Code>)
    requires p == [ENTRY, HEADER, BODY, STEP, [Ret(None)]]
    ensures Run(p, LowerMain.Entry([1]), 8) == Done(None, [])
  {
    hide Run;
    var m := Memory(Arguments([1]), map[], []);
    var c := LowerMain.Entry([1]);
    var m1 := m.(slots := map[0 := 1]);
    assert Step(p, c) == Running(0, 1, 0, m1);
    var m2 := SetReg(m1, 1, 0);
    assert Step(p, Running(0, 1, 0, m1)) == Running(0, 2, 0, m2);
    var m3 := m2.(slots := m2.slots[1 := 0]);
    assert Step(p, Running(0, 2, 0, m2)) == Running(0, 3, 0, m3);
    assert Step(p, Running(0, 3, 0, m3)) == Running(1, 0, 0, m3);
    var m4 := SetReg(m3, 2, 0);
    assert Step(p, Running(1, 0, 0, m3)) == Running(1, 1, 0, m4);
    var m5 := SetReg(m4, 3, 0);
    assert Step(p, Running(1, 1, 0, m4)) == Running(1, 2, 0, m5);
    assert Step(p, Running(1, 2, 0, m5)) == Running(4, 0, 1, m5);
    assert Step(p, Running(4, 0, 1, m5)) == Done(None, []);
    RunStep(p, c, 8);
    RunStep(p, Running(0, 1, 0, m1), 7);
    RunStep(p, Running(0, 2, 0, m2), 6);
    RunStep(p, Running(0, 3, 0, m3), 5);
    RunStep(p, Running(1, 0, 0, m3), 4);
    RunStep(p, Running(1, 1, 0, m4), 3);
    RunStep(p, Running(1, 2, 0, m5), 2);
    RunStep(p, Running(4, 0, 1, m5), 1);
    RunStep(p, Done(None, []), 0);
  }

  lemma RunStep(p: seq<Code>, c: Machine, n: nat)
    ensures Run(p, c, n) == if n == 0 then c else Run(p, Step(p, c), n - 1)
  {}
}
