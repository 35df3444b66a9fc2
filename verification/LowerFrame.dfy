/** Emission only appends: which blocks a piece of generated code may touch, and what it leaves of the
    enclosing scopes. */
module LowerFrame {
  import opened Common
  import opened ScalarSource
  import opened Ir
  import opened Lower

  /** q extends p: blocks are added at the end, old ones are appended to, and only those in s. */
  predicate Touch(p: seq<Code>, q: seq<Code>, s: set<nat>) {
    && |p| <= |q|
    && (forall i :: 0 <= i < |p| ==> p[i] <= q[i])
    && (forall i :: 0 <= i < |p| && i !in s ==> p[i] == q[i])
  }

  predicate InSpan(b: nat, lo: nat, hi: nat) { lo <= b < hi }

  function Span(lo: nat, hi: nat): set<nat> {
    set b: nat | lo <= b < hi && InSpan(b, lo, hi)
  }

  predicate Within(t: set<nat>, s: set<nat>, n: nat) {
    forall i :: i in t && i < n ==> i in s
  }

  lemma TouchTrans(p: seq<Code>, q: seq<Code>, r: seq<Code>, s: set<nat>, t: set<nat>)
    requires Touch(p, q, s) && Touch(q, r, t) && Within(t, s, |p|)
    ensures Touch(p, r, s)
  {
    forall i | 0 <= i < |p| ensures p[i] <= r[i] {
      assert p[i] <= q[i] && q[i] <= r[i];
    }
  }

  lemma TouchSelf(p: seq<Code>, s: set<nat>)
    ensures Touch(p, p, s)
  {}

  /** What running a piece of the emitter from a to b changes. */
  predicate Grows(a: Emitter, b: Emitter) {
    && Touch(a.blocks, b.blocks, {a.cur})
    && (b.cur == a.cur || b.cur >= |a.blocks|)
    && a.nextReg <= b.nextReg
    && a.nextSlot <= b.nextSlot
  }

  lemma GrowsTrans(a: Emitter, b: Emitter, c: Emitter)
    requires Grows(a, b) && Grows(b, c)
    ensures Grows(a, c)
  {
    TouchTrans(a.blocks, b.blocks, c.blocks, {a.cur}, {b.cur});
  }

  lemma GrowsEmit(em: Emitter, i: Instr)
    ensures Grows(em, Emit(em, i))
  {}

  lemma GrowsValue(em: Emitter, i: Instr)
    ensures Grows(em, EmitValue(em, i).0)
  {}

  lemma GrowsNewBlocks(em: Emitter, n: nat)
    ensures Grows(em, NewBlocks(em, n))
  {}

  /** A piece that runs in blocks created after a, entered with a jump from a's insertion block. */
  lemma GrowsJump(a: Emitter, b: Emitter, c: Emitter, k: nat)
    requires Grows(a, b) && |a.blocks| <= k < |b.blocks| && Grows(At(b, k), c)
    ensures Touch(a.blocks, c.blocks, {a.cur})
    ensures c.cur >= |a.blocks| && a.nextReg <= c.nextReg && a.nextSlot <= c.nextSlot
  {
    TouchTrans(a.blocks, b.blocks, c.blocks, {a.cur}, {k});
  }

  lemma {:induction false} GrowsExpr(em: Emitter, e: Expr)
    ensures Grows(em, GenExpr(em, e).0)
    decreases e, 1
  {
    match e {
      case Lit(_) =>
      case Var(_) =>
      case Arith(_, l, r) => GrowsPair(em, e, l, r);
      case Cmp(_, l, r) => GrowsPair(em, e, l, r);
      case And(_, _) => GrowsLogic(em, e);
      case Or(_, _) => GrowsLogic(em, e);
      case Not(_) => GrowsNot(em, e);
      case Neg(e1) => GrowsThen(em, e, e1);
      case Assign(_, e1) => GrowsThen(em, e, e1);
      case Compound(_, _, _) => GrowsCompound(em, e);
      case IncDec(_, _, _) => GrowsIncDec(em, e);
    }
  }

  lemma {:induction false} GrowsNot(em: Emitter, e: Expr)
    requires e.Not?
    ensures Grows(em, GenExpr(em, e).0)
    decreases e, 0
  {
    GrowsCond(em, e.e);
    GrowsTrans(em, GenCond(em, e.e).0, GenExpr(em, e).0);
  }

  lemma {:induction false} GrowsCompound(em: Emitter, e: Expr)
    requires e.Compound?
    ensures Grows(em, GenExpr(em, e).0)
    decreases e, 0
  {
    GrowsExpr(em, e.e);
    var (em1, b) := GenExpr(em, e.e);
    if Find(em.env, e.x).Some? {
      var slot := Find(em.env, e.x).value;
      var em2 := EmitValue(em1, Load(em1.nextReg, slot)).0;
      GrowsTrans(em, em1, em2);
      GrowsTwo(em2, GenExpr(em, e).0, Binary(em2.nextReg, e.aop, Reg(em1.nextReg), b),
               Store(Reg(em2.nextReg), slot));
      GrowsTrans(em, em2, GenExpr(em, e).0);
    }
  }

  lemma GrowsIncDec(em: Emitter, e: Expr)
    requires e.IncDec?
    ensures Grows(em, GenExpr(em, e).0)
  {
    if Find(em.env, e.x).Some? {
      var slot := Find(em.env, e.x).value;
      var em1 := EmitValue(em, Load(em.nextReg, slot)).0;
      GrowsTwo(em1, GenExpr(em, e).0,
               Binary(em1.nextReg, if e.up then Add else Sub, Reg(em.nextReg), Const(1)),
               Store(Reg(em1.nextReg), slot));
      GrowsTrans(em, em1, GenExpr(em, e).0);
    }
  }

  lemma GrowsTwo(em: Emitter, r: Emitter, i: Instr, j: Instr)
    requires r == Emit(EmitValue(em, i).0, j)
    ensures Grows(em, r)
  {
    GrowsTrans(em, EmitValue(em, i).0, r);
  }

  lemma {:induction false} GrowsThen(em: Emitter, e: Expr, e1: Expr)
    requires e == Neg(e1) || (e.Assign? && e.e == e1)
    ensures Grows(em, GenExpr(em, e).0)
    decreases e, 0
  {
    GrowsExpr(em, e1);
    GrowsTrans(em, GenExpr(em, e1).0, GenExpr(em, e).0);
  }

  lemma {:induction false} GrowsPair(em: Emitter, e: Expr, l: Expr, r: Expr)
    requires (e.Arith? && e.l == l && e.r == r) || (e.Cmp? && e.l == l && e.r == r)
    ensures Grows(em, GenExpr(em, e).0)
    decreases e, 0
  {
    GrowsExpr(em, l);
    var em1 := GenExpr(em, l).0;
    GrowsExpr(em1, r);
    var em2 := GenExpr(em1, r).0;
    GrowsTrans(em, em1, em2);
    GrowsTrans(em, em2, GenExpr(em, e).0);
  }

  lemma {:induction false} GrowsCond(em: Emitter, e: Expr)
    ensures Grows(em, GenCond(em, e).0)
    decreases e, 2
  {
    GrowsExpr(em, e);
    GrowsTrans(em, GenExpr(em, e).0, GenCond(em, e).0);
  }

  lemma {:induction false} GrowsLogic(em: Emitter, e: Expr)
    requires e.And? || e.Or?
    ensures Grows(em, GenLogic(em, e).0)
    decreases e, 0
  {
    hide Touch, GenExpr, GenCond;
    var k := |em.blocks|;
    var em0 := NewBlocks(em, 2);
    GrowsNewBlocks(em, 2);
    var (em1, a) := GenCond(em0, e.l);
    GrowsCond(em0, e.l);
    GrowsTrans(em, em0, em1);
    var jump := if e.And? then CondBr(a, k, k + 1) else CondBr(a, k + 1, k);
    var em2 := Emit(em1, jump);
    GrowsEmit(em1, jump);
    GrowsTrans(em, em1, em2);
    GrowsCond(At(em2, k), e.r);
    var (em3, b) := GenCond(At(em2, k), e.r);
    var em3' := Emit(em3, Br(Some(k + 1)));
    GrowsEmit(em3, Br(Some(k + 1)));
    GrowsTrans(At(em2, k), em3, em3');
    GrowsJump(em, em2, em3', k);
    var em4 := At(em3', k + 1);
    var phi := Phi(em4.nextReg, em1.cur, if e.And? then Const(0) else a, em3.cur, b);
    GrowsValue(em4, phi);
    TouchTrans(em.blocks, em3'.blocks, GenLogic(em, e).0.blocks, {em.cur}, {k + 1});
  }

  lemma GrowsTest(em: Emitter, t: Test)
    ensures Grows(em, GenTest(em, t).0)
  {
    match t {
      case TestExpr(e) => GrowsCond(em, e);
      case TestRange(slot, hi, inclusive) =>
        GrowsTrans(em, EmitValue(em, Load(em.nextReg, slot)).0, GenTest(em, t).0);
    }
  }

  /** An expression never ends its block. */
  lemma EmitOpen(em: Emitter, i: Instr)
    requires !i.IsTerminator()
    ensures Open(Emit(em, i)) && Open(EmitValue(em, i).0)
  {}

  lemma UpdateOpen(em: Emitter, op: ArithOp, slot: nat, b: Operand)
    ensures Open(GenUpdate(em, op, slot, b).0)
  {}

  lemma {:induction false} ExprOpen(em: Emitter, e: Expr)
    requires Open(em)
    ensures Open(GenExpr(em, e).0)
  {
    hide GenCond, Open, Emit, EmitValue, GenUpdate, Find;
    forall em1, i: Instr | !i.IsTerminator() ensures Open(Emit(em1, i)) && Open(EmitValue(em1, i).0) {
      EmitOpen(em1, i);
    }
    forall em1, op, slot, b ensures Open(GenUpdate(em1, op, slot, b).0) { UpdateOpen(em1, op, slot, b); }
    match e {
      case Assign(_, e1) =>
        ExprOpen(em, e1);
        ErrorOpen(GenExpr(em, e1).0);
      case Compound(_, _, e1) =>
        ExprOpen(em, e1);
        ErrorOpen(GenExpr(em, e1).0);
      case Var(_) => ErrorOpen(em);
      case IncDec(_, _, _) => ErrorOpen(em);
      case _ =>
    }
  }

  lemma ErrorOpen(em: Emitter)
    ensures Open(Error(em)) <==> Open(em)
  {}

  // ----- statements --------------------------------------------------------------------------

  /** Statements also leave the enclosing scopes as they were. */
  predicate GrowsIn(a: Emitter, b: Emitter) {
    && Grows(a, b)
    && |a.env| == |b.env|
    && (forall i :: 0 <= i < |a.env| - 1 ==> b.env[i] == a.env[i])
  }

  lemma {:induction false} GrowsStmts(em: Emitter, ss: seq<Stmt>)
    ensures GrowsIn(em, GenStmts(em, ss))
    decreases ss, 0
  {
    hide Touch, GenStmt;
    TouchSelf(em.blocks, {em.cur});
    if ss != [] {
      var em1 := if Open(em) then GenStmt(em, ss[0]) else em;
      if Open(em) { GrowsStmt(em, ss[0]); }
      GrowsStmts(em1, ss[1..]);
      GrowsTrans(em, em1, GenStmts(em, ss));
    }
  }

  lemma {:induction false} GrowsBlock(em: Emitter, ss: seq<Stmt>)
    ensures Grows(em, GenBlock(em, ss)) && GenBlock(em, ss).env == em.env
    decreases ss, 1
  {
    GrowsStmts(PushEnv(em), ss);
    var r := GenStmts(PushEnv(em), ss);
    assert r.env[..|r.env| - 1] == em.env;
  }

  lemma {:induction false} GrowsStmt(em: Emitter, s: Stmt)
    ensures GrowsIn(em, GenStmt(em, s))
    ensures !s.Decl? ==> GenStmt(em, s).env == em.env
    decreases s, 1
  {
    hide Touch, GenExpr, GenBlock, GenPrint, GenVarDecl, GenIf, GenWhile, GenDoWhile,
      GenForRange, GenForC, GenSwitch, GenReturn;
    match s {
      case Eval(e) => GrowsExpr(em, e);
      case Print(e) => GrowsPrint(em, e);
      case Decl(x, init) => GrowsVarDecl(em, x, init);
      case Block(body) => GrowsBlock(em, body);
      case If(_, _, _) => GrowsIf(em, s);
      case While(_, _, _) => GrowsWhile(em, s);
      case DoWhile(_, _) => GrowsDoWhile(em, s);
      case ForRange(_, _, _, _, _) => GrowsForRange(em, s);
      case ForC(_, _, _, _, _) => GrowsForC(em, s);
      case Switch(_, _) => GrowsSwitch(em, s);
      case Break(target) => GrowsJumpStmt(em, target);
      case Continue(target) => GrowsJumpStmt(em, target);
      case Return(value) => GrowsReturn(em, value);
    }
  }

  lemma GrowsPrint(em: Emitter, e: Expr)
    ensures Grows(em, GenPrint(em, e))
  {
    hide Touch, GenExpr;
    GrowsExpr(em, e);
    GrowsEmit(GenExpr(em, e).0, CallPrint(GenExpr(em, e).1));
    GrowsTrans(em, GenExpr(em, e).0, GenPrint(em, e));
  }

  lemma GrowsVarDecl(em: Emitter, x: string, init: Option<Expr>)
    ensures GrowsIn(em, GenVarDecl(em, x, init))
  {
    if init.Some? {
      GrowsExpr(em, init.value);
      GrowsTrans(em, GenExpr(em, init.value).0, GenVarDecl(em, x, init));
    }
  }

  lemma GrowsJumpStmt(em: Emitter, target: Option<string>)
    ensures Grows(em, GenBreak(em, target)) && Grows(em, GenContinue(em, target))
  {}

  lemma GrowsReturn(em: Emitter, value: Option<Expr>)
    ensures Grows(em, GenReturn(em, value))
  {
    hide Touch, GenExpr;
    GrowsEmit(em, Ret(None));
    if value.Some? {
      var (em1, v) := GenExpr(em, value.value);
      GrowsExpr(em, value.value);
      GrowsEmit(em1, Ret(Some(v)));
      GrowsTrans(em, GenExpr(em, value.value).0, GenReturn(em, value));
    }
  }

  lemma GrowsBrIfOpen(a: Emitter, b: Emitter, t: nat)
    requires Grows(a, b)
    ensures Grows(a, BrIfOpen(b, t))
  {
    GrowsEmit(b, Br(Some(t)));
    GrowsTrans(a, b, BrIfOpen(b, t));
  }

  lemma {:induction false} GrowsIf(em: Emitter, s: Stmt)
    requires s.If?
    ensures Grows(em, GenIf(em, s)) && GenIf(em, s).env == em.env
    decreases s, 0
  {
    hide Touch, GenExpr, GenCond, GenBlock, GenStmts;
    var (em1, v) := GenCond(em, s.cond);
    GrowsCond(em, s.cond);
    var k := |em1.blocks|;
    var em2 := Emit(NewBlocks(em1, 3), CondBr(v, k, k + 1));
    GrowsNewBlocks(em1, 3);
    GrowsEmit(NewBlocks(em1, 3), CondBr(v, k, k + 1));
    GrowsTrans(em1, NewBlocks(em1, 3), em2);
    GrowsTrans(em, em1, em2);
    GrowsBlock(At(em2, k), s.thenBr);
    GrowsBrIfOpen(At(em2, k), GenBlock(At(em2, k), s.thenBr), k + 2);
    var em3 := BrIfOpen(GenBlock(At(em2, k), s.thenBr), k + 2);
    GrowsJump(em, em2, em3, k);
    GrowsBlock(At(em3, k + 1), s.elseBr);
    GrowsBrIfOpen(At(em3, k + 1), GenBlock(At(em3, k + 1), s.elseBr), k + 2);
    var em4 := BrIfOpen(GenBlock(At(em3, k + 1), s.elseBr), k + 2);
    TouchTrans(em.blocks, em3.blocks, em4.blocks, {em.cur}, {k + 1});
  }

  lemma {:induction false} GrowsLoopBody(em: Emitter, loop: LoopCtx, body: seq<Stmt>)
    requires loop.header.Some?
    ensures Grows(em, GenLoopBody(em, loop, body))
    ensures GenLoopBody(em, loop, body).env == em.env
    decreases body, 2
  {
    hide Touch, GenBlock;
    var em0 := em.(loops := em.loops + [loop]);
    GrowsBlock(em0, body);
    var em1 := GenBlock(em0, body).(loops := em.loops);
    assert Grows(em, em1);
    GrowsBrIfOpen(em, em1, loop.header.value);
  }

  /** A loop touches its header, body and continue block but leaves its exit empty. */
  lemma {:induction false} GrowsLoop(em: Emitter, sh: Shape, tag: string, test: Test,
                                     incr: Option<Expr>, body: seq<Stmt>)
    requires sh.header < |em.blocks| && sh.body < |em.blocks|
    requires sh.cont < |em.blocks| && sh.exit < |em.blocks|
    ensures var r := GenLoop(em, sh, tag, test, incr, body);
            && Touch(em.blocks, r.blocks, {sh.header, sh.body, sh.cont})
            && r.cur == sh.exit && r.env == em.env
            && em.nextReg <= r.nextReg && em.nextSlot <= r.nextSlot
    decreases body, 3
  {
    hide Touch, GenExpr, GenTest, GenLoopBody, GenBlock;
    var touched := {sh.header, sh.body, sh.cont};
    TouchSelf(em.blocks, touched);
    GrowsTest(At(em, sh.header), test);
    var (em1, v) := GenTest(At(em, sh.header), test);
    var em2 := At(Emit(em1, CondBr(v, sh.body, sh.exit)), sh.body);
    GrowsEmit(em1, CondBr(v, sh.body, sh.exit));
    TouchTrans(em.blocks, em.blocks, em1.blocks, touched, {sh.header});
    TouchTrans(em.blocks, em1.blocks, em2.blocks, touched, {em1.cur});
    var loop := LoopCtx(Some(sh.cont), sh.exit, tag);
    GrowsLoopBody(em2, loop, body);
    var em3 := GenLoopBody(em2, loop, body);
    TouchTrans(em.blocks, em2.blocks, em3.blocks, touched, {sh.body});
    if incr.Some? {
      var em4 := At(em3, sh.cont);
      GrowsExpr(em4, incr.value);
      var em5 := GenExpr(em4, incr.value).0;
      TouchTrans(em.blocks, em3.blocks, em5.blocks, touched, {sh.cont});
      GrowsEmit(em5, Br(Some(sh.header)));
      TouchTrans(em.blocks, em5.blocks, Emit(em5, Br(Some(sh.header))).blocks, touched, {em5.cur});
    }
  }

  lemma {:induction false} GrowsWhile(em: Emitter, s: Stmt)
    requires s.While?
    ensures Grows(em, GenWhile(em, s)) && GenWhile(em, s).env == em.env
    decreases s, 0
  {
    hide Touch, GenLoop;
    var k := |em.blocks|;
    var em1 := Emit(NewBlocks(em, 3), Br(Some(k)));
    GrowsNewBlocks(em, 3);
    GrowsEmit(NewBlocks(em, 3), Br(Some(k)));
    GrowsTrans(em, NewBlocks(em, 3), em1);
    var sh := Shape(k, k + 1, k, k + 2);
    GrowsLoop(em1, sh, LabelText(s.tag), TestExpr(s.cond), None, s.body);
    TouchTrans(em.blocks, em1.blocks, GenWhile(em, s).blocks, {em.cur},
               {sh.header, sh.body, sh.cont});
  }

  lemma {:induction false} GrowsDoWhile(em: Emitter, s: Stmt)
    requires s.DoWhile?
    ensures Grows(em, GenDoWhile(em, s)) && GenDoWhile(em, s).env == em.env
    decreases s, 0
  {
    hide Touch, GenExpr, GenCond, GenLoopBody, GenBlock;
    var k := |em.blocks|;
    var em1 := Emit(NewBlocks(em, 3), Br(Some(k)));
    GrowsNewBlocks(em, 3);
    GrowsEmit(NewBlocks(em, 3), Br(Some(k)));
    GrowsTrans(em, NewBlocks(em, 3), em1);
    GrowsLoopBody(At(em1, k), LoopCtx(Some(k + 1), k + 2, ""), s.body);
    var em2 := GenLoopBody(At(em1, k), LoopCtx(Some(k + 1), k + 2, ""), s.body);
    GrowsJump(em, em1, em2, k);
    GrowsCond(At(em2, k + 1), s.cond);
    var (em3, v) := GenCond(At(em2, k + 1), s.cond);
    TouchTrans(em.blocks, em2.blocks, em3.blocks, {em.cur}, {k + 1});
    GrowsEmit(em3, CondBr(v, k, k + 2));
    TouchTrans(em.blocks, em3.blocks, GenDoWhile(em, s).blocks, {em.cur}, {em3.cur});
  }

  lemma GrowsRangeHead(em: Emitter, s: Stmt)
    requires s.ForRange?
    ensures Grows(em, RangeHead(em, s).0)
    ensures forall i :: |em.blocks| <= i < |em.blocks| + 4 ==> RangeHead(em, s).0.blocks[i] == []
    ensures RangeHead(em, s).0.env == em.env + [map[s.x := em.nextSlot]]
  {
    hide GenExpr;
    var em0 := NewBlocks(em, 4);
    var em1 := DefineVar(PushEnv(em0), s.x);
    assert Grows(em, em1);
    GrowsExpr(em1, s.lo);
    var (em2, a) := GenExpr(em1, s.lo);
    GrowsExpr(em2, s.hi);
    var (em3, b) := GenExpr(em2, s.hi);
    GrowsTrans(em1, em2, em3);
    var em4 := Emit(em3, Store(a, em.nextSlot));
    GrowsTrans(em1, em3, em4);
    GrowsTrans(em1, em4, RangeHead(em, s).0);
    GrowsTrans(em, em1, RangeHead(em, s).0);
  }

  lemma GrowsForHead(em: Emitter, s: Stmt)
    requires s.ForC?
    ensures Grows(em, ForHead(em, s))
    ensures forall i :: |em.blocks| <= i < |em.blocks| + 4 ==> ForHead(em, s).blocks[i] == []
    ensures ForHead(em, s).env == em.env + [map[s.x := em.nextSlot]]
  {
    hide GenExpr;
    var em1 := DefineVar(PushEnv(NewBlocks(em, 4)), s.x);
    assert Grows(em, em1);
    GrowsExpr(em1, s.start);
    var (em2, a) := GenExpr(em1, s.start);
    var em3 := Emit(em2, Store(a, em.nextSlot));
    GrowsTrans(em1, em2, em3);
    GrowsTrans(em1, em3, ForHead(em, s));
    GrowsTrans(em, em1, ForHead(em, s));
  }

  /** Closing the loop: the head plus a loop over blocks the head created. */
  lemma {:induction false} GrowsHeadLoop(em: Emitter, head: Emitter, sh: Shape, tag: string, test: Test,
                      incr: Option<Expr>, body: seq<Stmt>, x: string)
    requires Grows(em, head) && head.env == em.env + [map[x := em.nextSlot]]
    requires |em.blocks| <= sh.header < |head.blocks| && |em.blocks| <= sh.body < |head.blocks|
    requires |em.blocks| <= sh.cont < |head.blocks| && |em.blocks| <= sh.exit < |head.blocks|
    ensures var r := PopEnv(GenLoop(head, sh, tag, test, incr, body));
            Grows(em, r) && r.env == em.env
    decreases body, 4
  {
    hide Touch, GenLoop;
    GrowsLoop(head, sh, tag, test, incr, body);
    var r := GenLoop(head, sh, tag, test, incr, body);
    TouchTrans(em.blocks, head.blocks, r.blocks, {em.cur}, {sh.header, sh.body, sh.cont});
    assert Pop(em.env + [map[x := em.nextSlot]]) == em.env;
  }

  lemma {:induction false} GrowsForRange(em: Emitter, s: Stmt)
    requires s.ForRange?
    ensures Grows(em, GenForRange(em, s)) && GenForRange(em, s).env == em.env
    decreases s, 0
  {
    hide Touch, GenLoop, RangeHead;
    var k, slot := |em.blocks|, em.nextSlot;
    GrowsRangeHead(em, s);
    var (em1, hi) := RangeHead(em, s);
    GrowsHeadLoop(em, em1, Shape(k, k + 1, k + 2, k + 3), "", TestRange(slot, hi, s.inclusive),
                  Some(IncDec(s.x, true, true)), s.body, s.x);
  }

  lemma {:induction false} GrowsForC(em: Emitter, s: Stmt)
    requires s.ForC?
    ensures Grows(em, GenForC(em, s)) && GenForC(em, s).env == em.env
    decreases s, 0
  {
    hide Touch, GenLoop, ForHead;
    var k := |em.blocks|;
    GrowsForHead(em, s);
    GrowsHeadLoop(em, ForHead(em, s), Shape(k, k + 1, k + 2, k + 3), "", TestExpr(s.cond),
                  Some(s.incr), s.body, s.x);
  }

  lemma GrowsSwitchHead(em: Emitter, s: Stmt)
    requires s.Switch?
    ensures Grows(em, SwitchHead(em, s).0)
    ensures var (r, c) := SwitchHead(em, s);
            && r.blocks[|em.blocks|] == []
            && forall i :: c <= i < |r.blocks| ==> r.blocks[i] == []
  {
    hide GenExpr, Arms, DefaultBlock;
    var em0 := NewBlocks(em, 1);
    GrowsExpr(em0, s.e);
    var (em1, v) := GenExpr(em0, s.e);
    GrowsTrans(em, em0, em1);
    var c := |em1.blocks|;
    var em2 := Emit(em1, SwitchBr(v, DefaultBlock(s.cases, c, |em.blocks|), Arms(s.cases, c)));
    GrowsTrans(em, em1, em2);
    GrowsTrans(em, em2, NewBlocks(em2, |s.cases|));
  }

  lemma {:induction false} GrowsCases(em: Emitter, cases: seq<Case>, i: nat, c: nat, exit: nat)
    requires i <= |cases| && c + |cases| <= |em.blocks|
    ensures var r := GenCases(em, cases, i, c, exit);
            && Touch(em.blocks, r.blocks, Span(c + i, c + |cases|))
            && r.env == em.env
            && em.nextReg <= r.nextReg && em.nextSlot <= r.nextSlot
    decreases cases, |cases| - i
  {
    hide Touch, GenBlock, GenStmts;
    var mine := Span(c + i, c + |cases|);
    TouchSelf(em.blocks, mine);
    if i < |cases| {
      var em0 := At(em, c + i);
      GrowsBlock(em0, cases[i].body);
      var em1 := GenBlock(em0, cases[i].body);
      var next := if i + 1 < |cases| then c + i + 1 else exit;
      GrowsBrIfOpen(em0, em1, next);
      var em2 := BrIfOpen(em1, next);
      TouchTrans(em.blocks, em0.blocks, em2.blocks, mine, {c + i});
      GrowsCases(em2, cases, i + 1, c, exit);
      TouchTrans(em.blocks, em2.blocks, GenCases(em, cases, i, c, exit).blocks, mine,
                 Span(c + i + 1, c + |cases|));
    }
  }

  lemma {:induction false} GrowsSwitch(em: Emitter, s: Stmt)
    requires s.Switch?
    ensures Grows(em, GenSwitch(em, s)) && GenSwitch(em, s).env == em.env
    decreases s, 0
  {
    hide Touch, SwitchHead, GenCases, GenExpr;
    var k := |em.blocks|;
    GrowsSwitchHead(em, s);
    var (em1, c) := SwitchHead(em, s);
    var em2 := em1.(loops := em1.loops + [LoopCtx(None, k, "")]);
    GrowsCases(em2, s.cases, 0, c, k);
    var em3 := GenCases(em2, s.cases, 0, c, k);
    TouchTrans(em.blocks, em2.blocks, em3.blocks, {em.cur},
               Span(c, c + |s.cases|));
  }
}
