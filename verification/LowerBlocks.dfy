/** The blocks of a generated function are well formed, up to stray continues. */
module LowerBlocks {
  import opened Common
  import opened ScalarSource
  import opened Ir
  import opened Lower
  import opened LowerFrame
  import opened LowerSimExpr
  import opened LowerSim

  // ----- the source condition ----------------------------------------------------------------

  /** The statement leaves its block terminated. */
  predicate Ends(s: Stmt, ctx: seq<Nest>)
    decreases s, 1
  {
    match s
    case Block(body) => SomeEnds(body, ctx)
    case Break(t) => TargetLevel(ctx, t).Some?
    case Continue(t) => TargetLevel(ctx, t).Some?
    case Return(_) => true
    case _ => false
  }

  predicate SomeEnds(ss: seq<Stmt>, ctx: seq<Nest>)
    decreases ss, 0
  {
    ss != [] && (Ends(ss[0], ctx) || SomeEnds(ss[1..], ctx))
  }

  /** A continue whose target is a switch occurs where code is still generated. */
  predicate Strays(s: Stmt, ctx: seq<Nest>)
    decreases s, 1
  {
    match s
    case Block(body) => SomeStrays(body, ctx)
    case If(_, t, f) => SomeStrays(t, ctx) || SomeStrays(f, ctx)
    case While(tag, _, body) => SomeStrays(body, ctx + [Nest(LabelText(tag), true)])
    case DoWhile(body, _) => SomeStrays(body, ctx + [Nest("", true)])
    case ForRange(_, _, _, _, body) => SomeStrays(body, ctx + [Nest("", true)])
    case ForC(_, _, _, _, body) => SomeStrays(body, ctx + [Nest("", true)])
    case Switch(_, cases) => CasesStray(cases, 0, ctx + [Nest("", false)])
    case Continue(t) => var i := TargetLevel(ctx, t); i.Some? && !ctx[i.value].isLoop
    case _ => false
  }

  predicate SomeStrays(ss: seq<Stmt>, ctx: seq<Nest>)
    decreases ss, 0
  {
    ss != [] && (Strays(ss[0], ctx) || (!Ends(ss[0], ctx) && SomeStrays(ss[1..], ctx)))
  }

  predicate CasesStray(cases: seq<Case>, i: nat, ctx: seq<Nest>)
    requires i <= |cases|
    decreases cases, |cases| - i
  {
    i < |cases| && (SomeStrays(cases[i].body, ctx) || CasesStray(cases, i + 1, ctx))
  }

  // ----- the target condition ----------------------------------------------------------------

  predicate TargetsBelow(i: Instr, n: nat) {
    match i
    case Br(Some(t)) => t < n
    case CondBr(_, t, f) => t < n && f < n
    case SwitchBr(_, d, arms) => d < n && forall j :: 0 <= j < |arms| ==> arms[j].1 < n
    case _ => true
  }

  /** Terminators only at the end, and targets in range. */
  predicate Tidy(code: Code, n: nat) {
    forall j :: 0 <= j < |code| ==>
      TargetsBelow(code[j], n) && (code[j].IsTerminator() ==> j == |code| - 1)
  }

  predicate Neat(p: seq<Code>) { forall b :: 0 <= b < |p| ==> Tidy(p[b], |p|) }

  /** No branch to nowhere. */
  predicate NullFreeCode(code: Code) { forall j :: 0 <= j < |code| ==> code[j] != Br(None) }

  predicate NullFree(p: seq<Code>) { forall b :: 0 <= b < |p| ==> NullFreeCode(p[b]) }

  predicate IsOpen(p: seq<Code>, b: nat) { b < |p| && !Terminated(p[b]) }

  /** The blocks that still lack their terminator. */
  function Opens(p: seq<Code>): set<nat> { set b: nat | b < |p| && IsOpen(p, b) }

  /** What emitting a piece does to the blocks: its own insertion block may be open at the end in
      place of the one it started in, and no other changes; stray: it holds a branch to nowhere. */
  predicate Fine(a: Emitter, b: Emitter, stray: bool) {
    && Neat(b.blocks) && |a.blocks| <= |b.blocks|
    && b.cur !in Opens(a.blocks) - {a.cur}
    && Opens(b.blocks) == Opens(a.blocks) - {a.cur} + (if Open(b) then {b.cur} else {})
    && (NullFree(b.blocks) <==> NullFree(a.blocks) && !stray)
  }

  /** The piece that starts at a leaves nothing of its own open. */
  predicate Shut(a: Emitter, b: Emitter, stray: bool) {
    && Neat(b.blocks) && |a.blocks| <= |b.blocks|
    && Opens(b.blocks) == Opens(a.blocks) - {a.cur}
    && (NullFree(b.blocks) <==> NullFree(a.blocks) && !stray)
  }

  lemma InOpens(em: Emitter)
    ensures em.cur in Opens(em.blocks) <==> Open(em)
    ensures forall b :: b in Opens(em.blocks) ==> b < |em.blocks|
  {
    assert Open(em) ==> IsOpen(em.blocks, em.cur);
  }

  lemma FineTrans(a: Emitter, b: Emitter, c: Emitter, x: bool, y: bool)
    requires Fine(a, b, x) && Fine(b, c, y)
    ensures Fine(a, c, x || y)
  {
    hide Neat, NullFree, Opens, Open;
    assert Opens(a.blocks) - {a.cur} == Opens(b.blocks) - {b.cur} by { InOpens(b); }
  }

  lemma FineShut(a: Emitter, b: Emitter, c: Emitter, x: bool, y: bool)
    requires Fine(a, b, x) && Shut(b, c, y)
    ensures Shut(a, c, x || y)
  {
    hide Neat, NullFree, Opens, Open;
    assert Opens(a.blocks) - {a.cur} == Opens(b.blocks) - {b.cur} by { InOpens(b); }
  }

  lemma EmitNull(em: Emitter, i: Instr)
    ensures NullFree(Emit(em, i).blocks) <==> NullFree(em.blocks) && i != Br(None)
  {
    var q := Emit(em, i).blocks;
    assert forall b :: 0 <= b < |q| && b != em.cur ==> q[b] == em.blocks[b];
    var code := em.blocks[em.cur];
    assert q[em.cur] == code + [i];
    assert NullFreeCode(code + [i]) <==> NullFreeCode(code) && i != Br(None) by {
      assert (code + [i])[|code|] == i;
      assert NullFreeCode(code + [i]) ==> NullFreeCode(code) by {
        assert forall j :: 0 <= j < |code| ==> code[j] == (code + [i])[j];
      }
    }
    if NullFree(q) {
      forall b | 0 <= b < |em.blocks| ensures NullFreeCode(em.blocks[b]) { assert NullFreeCode(q[b]); }
    }
  }

  lemma EmitTidy(em: Emitter, i: Instr)
    requires Neat(em.blocks) && Open(em) && TargetsBelow(i, |em.blocks|)
    ensures Neat(Emit(em, i).blocks)
  {
    hide TargetsBelow;
    var q := Emit(em, i).blocks;
    forall b | 0 <= b < |q| ensures Tidy(q[b], |q|) {
      assert Tidy(em.blocks[b], |q|);
    }
  }

  lemma EmitOpens(em: Emitter, i: Instr)
    requires Open(em)
    ensures Opens(Emit(em, i).blocks)
            == Opens(em.blocks) - {em.cur} + (if i.IsTerminator() then {} else {em.cur})
  {
    var q := Emit(em, i).blocks;
    assert Terminated(q[em.cur]) <==> i.IsTerminator();
    forall b: nat | b < |q| && b != em.cur ensures IsOpen(q, b) <==> IsOpen(em.blocks, b) {
      assert q[b] == em.blocks[b];
    }
    assert IsOpen(q, em.cur) <==> !i.IsTerminator();
  }

  lemma FineEmit(em: Emitter, i: Instr)
    requires Neat(em.blocks) && Open(em) && TargetsBelow(i, |em.blocks|)
    ensures Fine(em, Emit(em, i), i == Br(None))
    ensures Open(Emit(em, i)) <==> !i.IsTerminator()
    ensures i.IsTerminator() ==> Shut(em, Emit(em, i), i == Br(None))
  {
    hide Neat, NullFree, Opens;
    EmitNull(em, i);
    EmitTidy(em, i);
    EmitOpens(em, i);
  }

  lemma FineValue(em: Emitter, i: Instr)
    requires Neat(em.blocks) && Open(em) && !i.IsTerminator()
    ensures Fine(em, EmitValue(em, i).0, false) && Open(EmitValue(em, i).0)
  {
    FineEmit(em.(nextReg := em.nextReg + 1), i);
  }

  lemma FineNew(em: Emitter, n: nat)
    requires Neat(em.blocks)
    ensures var q := NewBlocks(em, n).blocks;
            && Neat(q) && (NullFree(q) <==> NullFree(em.blocks))
            && Opens(q) == Opens(em.blocks) + Span(|em.blocks|, |q|)
  {
    var q := NewBlocks(em, n).blocks;
    forall b | 0 <= b < |q| ensures Tidy(q[b], |q|) && (b < |em.blocks| ==> q[b] == em.blocks[b])
    {
      if b < |em.blocks| { assert Tidy(em.blocks[b], |em.blocks|); }
    }
    if NullFree(q) {
      forall b | 0 <= b < |em.blocks| ensures NullFreeCode(em.blocks[b]) { assert NullFreeCode(q[b]); }
    }
    forall b: nat ensures b in Opens(q) <==> b in Opens(em.blocks) + Span(|em.blocks|, |q|) {
      assert b < |em.blocks| ==> (IsOpen(q, b) <==> IsOpen(em.blocks, b));
      assert |em.blocks| <= b < |q| ==> IsOpen(q, b) && InSpan(b, |em.blocks|, |q|);
    }
  }

  // ----- expressions -------------------------------------------------------------------------

  lemma FineIsNeat(em: Emitter, em1: Emitter)
    ensures Fine(em, em1, false) ==> Neat(em1.blocks)
  {}

  lemma FineError(em: Emitter, em1: Emitter)
    ensures Fine(em, Error(em1), false) <==> Fine(em, em1, false)
    ensures Open(Error(em1)) <==> Open(em1)
  {}

  lemma FineStore(em: Emitter, em1: Emitter, i: Instr)
    requires Fine(em, em1, false) && Open(em1) && !i.IsTerminator()
    ensures Fine(em, Emit(em1, i), false) && Open(Emit(em1, i))
  {
    hide Neat, NullFree, Opens;
    FineEmit(em1, i);
    FineTrans(em, em1, Emit(em1, i), false, false);
  }

  lemma UpdateIs(em: Emitter, op: ArithOp, slot: nat, b: Operand)
    ensures GenUpdate(em, op, slot, b).0 == UpdateCode(em, op, slot, b)
  {}

  lemma {:induction false} FineExpr(em: Emitter, e: Expr)
    requires Neat(em.blocks) && Open(em)
    ensures Fine(em, GenExpr(em, e).0, false) && Open(GenExpr(em, e).0) && Neat(GenExpr(em, e).0.blocks)
    decreases e, 1
  {
    hide Neat, NullFree, Opens, GenCond, GenLogic, Fine, Open, Emit, EmitValue, GenUpdate, UpdateCode, Find;
    FineSame(em);
    FineIsNeat(em, GenExpr(em, e).0);
    match e {
      case Lit(_) =>
      case Var(x) =>
        FineError(em, em);
        if Find(em.env, x).Some? { FineValue(em, Load(em.nextReg, Find(em.env, x).value)); }
      case Arith(op, l, r) =>
        FineExpr(em, l);
        var (em1, a) := GenExpr(em, l);
        FineExpr(em1, r);
        var (em2, b) := GenExpr(em1, r);
        FineLast(em, em1, em2, Binary(em2.nextReg, op, a, b));
      case Cmp(op, l, r) =>
        FineExpr(em, l);
        var (em1, a) := GenExpr(em, l);
        FineExpr(em1, r);
        var (em2, b) := GenExpr(em1, r);
        FineLast(em, em1, em2, ICmp(em2.nextReg, op, a, b));
      case And(_, _) => FineLogic(em, e);
      case Or(_, _) => FineLogic(em, e);
      case Not(e1) =>
        FineCond(em, e1);
        var (em1, a) := GenCond(em, e1);
        FineSame(em1);
        FineLast(em, em1, em1, NotBit(em1.nextReg, a));
      case Neg(e1) =>
        FineExpr(em, e1);
        var (em1, a) := GenExpr(em, e1);
        FineSame(em1);
        FineLast(em, em1, em1, Binary(em1.nextReg, Sub, Const(0), a));
      case Assign(x, e1) =>
        FineExpr(em, e1);
        var (em1, a) := GenExpr(em, e1);
        FineError(em, em1);
        if Find(em.env, x).Some? { FineStore(em, em1, Store(a, Find(em.env, x).value)); }
      case Compound(op, x, e1) =>
        FineExpr(em, e1);
        var (em1, b) := GenExpr(em, e1);
        FineError(em, em1);
        if Find(em.env, x).Some? {
          UpdateIs(em1, op, Find(em.env, x).value, b);
          FineUpdate(em, em1, op, Find(em.env, x).value, b);
        }
      case IncDec(x, up, _) =>
        FineError(em, em);
        if Find(em.env, x).Some? {
          var op := if up then Add else Sub;
          UpdateIs(em, op, Find(em.env, x).value, Const(1));
          FineUpdate(em, em, op, Find(em.env, x).value, Const(1));
        }
    }
  }

  lemma FineSame(em: Emitter)
    requires Neat(em.blocks)
    ensures Fine(em, em, false)
  {}

  lemma FineLast(em: Emitter, em1: Emitter, em2: Emitter, i: Instr)
    requires Fine(em, em1, false) && Fine(em1, em2, false) && Open(em2) && !i.IsTerminator()
    ensures Fine(em, EmitValue(em2, i).0, false) && Open(EmitValue(em2, i).0)
  {
    hide Neat, NullFree, Opens;
    FineTrans(em, em1, em2, false, false);
    FineValue(em2, i);
    FineTrans(em, em2, EmitValue(em2, i).0, false, false);
  }

  lemma FineUpdate(em: Emitter, em1: Emitter, op: ArithOp, slot: nat, b: Operand)
    requires Fine(em, em1, false) && Open(em1)
    ensures Fine(em, UpdateCode(em1, op, slot, b), false) && Open(UpdateCode(em1, op, slot, b))
  {
    hide Neat, NullFree, Opens;
    var r := em1.nextReg;
    var em2 := EmitValue(em1, Load(r, slot)).0;
    FineValue(em1, Load(r, slot));
    FineLast(em, em1, em2, Binary(r + 1, op, Reg(r), b));
    var em3 := Combined(em1, op, slot, b);
    FineEmit(em3, Store(Reg(r + 1), slot));
    FineTrans(em, em3, UpdateCode(em1, op, slot, b), false, false);
  }

  lemma {:induction false} FineCond(em: Emitter, e: Expr)
    requires Neat(em.blocks) && Open(em)
    ensures Fine(em, GenCond(em, e).0, false) && Open(GenCond(em, e).0) && Neat(GenCond(em, e).0.blocks)
    decreases e, 2
  {
    hide Neat, NullFree, Opens, GenExpr;
    FineExpr(em, e);
    var (em1, v) := GenExpr(em, e);
    if !e.IsBool() {
      FineSame(em1);
      FineLast(em, em1, em1, ICmp(em1.nextReg, Ne, v, Const(0)));
    }
  }

  lemma {:induction false} FineLogic(em: Emitter, e: Expr)
    requires e.And? || e.Or?
    requires Neat(em.blocks) && Open(em)
    ensures Fine(em, GenLogic(em, e).0, false) && Open(GenLogic(em, e).0) && Neat(GenLogic(em, e).0.blocks)
    decreases e, 0
  {
    hide Neat, NullFree, Opens, Open, GenExpr, GenCond;
    var k, em0, g := |em.blocks|, NewBlocks(em, 2), LogicOf(em, e);
    FineNew(em, 2);
    InOpens(em);
    InOpens(em0);
    FineCond(em0, e.l);
    var jump := if e.And? then CondBr(g.a, k, k + 1) else CondBr(g.a, k + 1, k);
    FineEmit(g.em1, jump);
    FineShut(em0, g.em1, g.em2, false, false);
    InOpens(At(g.em2, k));
    FineCond(At(g.em2, k), e.r);
    var em3' := Emit(g.em3, Br(Some(k + 1)));
    FineEmit(g.em3, Br(Some(k + 1)));
    FineShut(At(g.em2, k), g.em3, em3', false, false);
    InOpens(g.em4);
    FineValue(g.em4, g.phi);
    assert GenLogic(em, e).0 == EmitValue(g.em4, g.phi).0 by { EmitSame(em, e); }
    assert Span(k, k + 2) == {k, k + 1};
  }

  lemma EmitSame(em: Emitter, e: Expr)
    requires e.And? || e.Or?
    ensures GenLogic(em, e) == EmitValue(LogicOf(em, e).em4, LogicOf(em, e).phi)
  {
    assert GenExpr(em, e) == GenLogic(em, e);
  }

  // ----- statements --------------------------------------------------------------------------

  /** Every context on the loop stack names blocks of the function. */
  predicate LoopsIn(loops: seq<LoopCtx>, n: nat) {
    forall i :: 0 <= i < |loops| ==>
      loops[i].exit < n && (loops[i].header.Some? ==> loops[i].header.value < n)
  }

  predicate Set(em: Emitter) { Neat(em.blocks) && LoopsIn(em.loops, |em.blocks|) }

  lemma NestsPush(loops: seq<LoopCtx>, l: LoopCtx)
    ensures Nests(loops + [l]) == Nests(loops) + [Nest(l.tag, l.header.Some?)]
  {}

  lemma {:induction false} FineStmts(em: Emitter, ss: seq<Stmt>)
    requires Set(em) && Open(em)
    ensures Fine(em, GenStmts(em, ss), SomeStrays(ss, Nests(em.loops)))
    ensures Open(GenStmts(em, ss)) <==> !SomeEnds(ss, Nests(em.loops))
    decreases ss, 0
  {
    hide Neat, NullFree, Opens, Open, GenStmt, Ends, Strays;
    if ss == [] {
      FineSame(em);
    } else {
      var em1, ctx := GenStmt(em, ss[0]), Nests(em.loops);
      FineStmt(em, ss[0]);
      if Open(em1) {
        FineStmts(em1, ss[1..]);
        FineTrans(em, em1, GenStmts(em, ss), Strays(ss[0], ctx), SomeStrays(ss[1..], ctx));
      } else {
        ShutStmts(em1, ss[1..]);
      }
    }
  }

  /** Nothing is generated into a terminated block. */
  lemma {:induction false} ShutStmts(em: Emitter, ss: seq<Stmt>)
    requires !Open(em)
    ensures GenStmts(em, ss) == em
  {
    if ss != [] { ShutStmts(em, ss[1..]); }
  }

  lemma {:induction false} FineBlock(em: Emitter, ss: seq<Stmt>)
    requires Set(em) && Open(em)
    ensures Fine(em, GenBlock(em, ss), SomeStrays(ss, Nests(em.loops)))
    ensures Open(GenBlock(em, ss)) <==> !SomeEnds(ss, Nests(em.loops))
    decreases ss, 1
  {
    hide Neat, NullFree, Opens, GenStmts, SomeEnds, SomeStrays;
    FineStmts(PushEnv(em), ss);
  }

  lemma {:induction false} FineStmt(em: Emitter, s: Stmt)
    requires Set(em) && Open(em)
    ensures Fine(em, GenStmt(em, s), Strays(s, Nests(em.loops)))
    ensures Open(GenStmt(em, s)) <==> !Ends(s, Nests(em.loops))
    decreases s, 1
  {
    hide Fine, Set, Neat, Open, GenExpr, GenBlock, GenPrint, GenVarDecl, GenIf, GenWhile, GenDoWhile,
      GenForRange, GenForC, GenSwitch, GenReturn, GenBreak, GenContinue, SomeStrays, SomeEnds, CasesStray;
    match s {
      case Eval(e) => assert Neat(em.blocks) by { SetNeat(em); } FineExpr(em, e);
      case Print(e) => FineSimple(em, s);
      case Decl(x, init) => FineSimple(em, s);
      case Block(body) => FineBlock(em, body);
      case If(_, _, _) => FineIf(em, s);
      case While(_, _, _) => FineWhile(em, s);
      case DoWhile(_, _) => FineDoWhile(em, s);
      case ForRange(_, _, _, _, _) => FineForRange(em, s);
      case ForC(_, _, _, _, _) => FineForC(em, s);
      case Switch(_, _) => FineSwitch(em, s);
      case Break(target) => FineJump(em, s);
      case Continue(target) => FineJump(em, s);
      case Return(value) => FineSimple(em, s);
    }
  }

  lemma SetNeat(em: Emitter)
    requires Set(em)
    ensures Neat(em.blocks)
  {}

  lemma {:induction false} FineSimple(em: Emitter, s: Stmt)
    requires s.Print? || s.Decl? || s.Return?
    requires Set(em) && Open(em)
    ensures Fine(em, GenStmt(em, s), false)
    ensures Open(GenStmt(em, s)) <==> !s.Return?
  {
    hide Neat, NullFree, Opens, GenExpr;
    match s {
      case Print(e) => FineAndEmit(em, e, CallPrint(GenExpr(em, e).1));
      case Decl(x, None) => FineEmit(em, Store(Const(0), em.nextSlot));
      case Decl(x, Some(e)) =>
        FineAndEmit(em, e, Store(GenExpr(em, e).1, GenExpr(em, e).0.nextSlot));
      case Return(None) => FineEmit(em, Ret(None));
      case Return(Some(e)) => FineAndEmit(em, e, Ret(Some(GenExpr(em, e).1)));
    }
  }

  lemma FineAndEmit(em: Emitter, e: Expr, i: Instr)
    requires Neat(em.blocks) && Open(em)
    requires TargetsBelow(i, |GenExpr(em, e).0.blocks|) && i != Br(None)
    ensures var em1 := GenExpr(em, e).0; Fine(em, Emit(em1, i), false)
    ensures var em1 := GenExpr(em, e).0; Open(Emit(em1, i)) <==> !i.IsTerminator()
  {
    hide Neat, NullFree, Opens, GenExpr;
    var em1 := GenExpr(em, e).0;
    FineExpr(em, e);
    FineEmit(em1, i);
    FineTrans(em, em1, Emit(em1, i), false, false);
  }

  lemma FineJump(em: Emitter, s: Stmt)
    requires s.Break? || s.Continue?
    requires Set(em) && Open(em)
    ensures Fine(em, GenStmt(em, s), Strays(s, Nests(em.loops)))
    ensures Open(GenStmt(em, s)) <==> !Ends(s, Nests(em.loops))
  {
    hide Neat, NullFree, Opens;
    if s.target.Some? { TagsMatch(em.loops, s.target.value); }
    FineSame(em);
    match TargetLevel(Nests(em.loops), s.target) {
      case None =>
      case Some(i) =>
        FineEmit(em, Br(if s.Break? then Some(em.loops[i].exit) else em.loops[i].header));
    }
  }

  // ----- branches ----------------------------------------------------------------------------

  /** A block that goes on to t when it is open at its end. */
  lemma ShutBr(a: Emitter, b: Emitter, t: nat, x: bool)
    requires Fine(a, b, x) && t < |b.blocks|
    ensures Shut(a, BrIfOpen(b, t), x)
  {
    hide Neat, NullFree, Opens;
    if Open(b) {
      FineEmit(b, Br(Some(t)));
      FineShut(a, b, Emit(b, Br(Some(t))), x, false);
    }
  }

  lemma {:induction false} ShutBlock(em: Emitter, k: nat, ss: seq<Stmt>, t: nat)
    requires Set(em) && k in Opens(em.blocks) && t < |em.blocks| && k < |em.blocks|
    ensures Shut(At(em, k), BrIfOpen(GenBlock(At(em, k), ss), t), SomeStrays(ss, Nests(em.loops)))
    decreases ss, 2
  {
    hide Neat, NullFree, Opens, Open, GenBlock, SomeEnds, SomeStrays;
    InOpens(At(em, k));
    FineBlock(At(em, k), ss);
    ShutBr(At(em, k), GenBlock(At(em, k), ss), t, SomeStrays(ss, Nests(em.loops)));
  }

  /** New blocks, then the instruction that leaves the current one. */
  lemma Leave(em: Emitter, n: nat, i: Instr)
    requires Neat(em.blocks) && Open(em) && i.IsTerminator() && i != Br(None)
    requires TargetsBelow(i, |em.blocks| + n)
    ensures var em2 := Emit(NewBlocks(em, n), i);
            && Shut(NewBlocks(em, n), em2, false)
            && (NullFree(em2.blocks) <==> NullFree(em.blocks))
            && Opens(em2.blocks) == Opens(em.blocks) - {em.cur} + Span(|em.blocks|, |em.blocks| + n)
  {
    hide Neat, NullFree, Opens, Open;
    FineNew(em, n);
    InOpens(em);
    InOpens(NewBlocks(em, n));
    FineEmit(NewBlocks(em, n), i);
  }

  /** Two branches that have closed all but the block where they meet. */
  lemma BranchesMeet(em: Emitter, em1: Emitter, em2: Emitter, em3: Emitter, em4: Emitter, x: bool, y: bool)
    requires Fine(em, em1, false) && Open(em1) && |em2.blocks| >= |em1.blocks| + 3
    requires var k := |em1.blocks|;
             && |em3.blocks| >= |em2.blocks| && |em4.blocks| >= |em3.blocks|
             && Opens(em2.blocks) == Opens(em1.blocks) - {em1.cur} + Span(k, k + 3)
             && (NullFree(em2.blocks) <==> NullFree(em1.blocks))
             && Shut(At(em2, k), em3, x) && Shut(At(em3, k + 1), em4, y)
    ensures var r := At(em4, |em1.blocks| + 2); Fine(em, r, x || y) && Open(r)
  {
    hide Neat, NullFree, Opens, Open;
    var k := |em1.blocks|;
    InOpens(em);
    InOpens(em1);
    InOpens(At(em4, k + 2));
    assert Span(k, k + 3) == {k, k + 1, k + 2};
  }

  lemma StraysIf(s: Stmt, ctx: seq<Nest>)
    requires s.If?
    ensures Strays(s, ctx) <==> SomeStrays(s.thenBr, ctx) || SomeStrays(s.elseBr, ctx)
  {
    hide SomeStrays;
  }

  lemma {:induction false} FineIf(em: Emitter, s: Stmt)
    requires s.If? && Set(em) && Open(em)
    ensures Fine(em, GenIf(em, s), Strays(s, Nests(em.loops))) && Open(GenIf(em, s))
    decreases s, 0
  {
    hide Neat, NullFree, Opens, Open, GenCond, GenBlock, SomeStrays, Strays, Nests, GenIf;
    IfIs(em, s);
    StraysIf(s, Nests(em.loops));
    var g := IfOf(em, s);
    var k := g.k;
    FineCond(em, s.cond);
    Leave(g.em1, 3, CondBr(g.v, k, k + 1));
    InOpens(g.em1);
    assert Span(k, k + 3) == {k, k + 1, k + 2};
    ShutBlock(g.em2, k, s.thenBr, k + 2);
    ShutBlock(g.em3, k + 1, s.elseBr, k + 2);
    BranchesMeet(em, g.em1, g.em2, g.em3, g.em4, SomeStrays(s.thenBr, Nests(em.loops)),
                 SomeStrays(s.elseBr, Nests(em.loops)));
  }

  // ----- loops -------------------------------------------------------------------------------

  lemma {:induction false} ShutLoopBody(em: Emitter, loop: LoopCtx, body: seq<Stmt>)
    requires loop.header.Some? && Set(em) && Open(em) && LoopsIn([loop], |em.blocks|)
    ensures Shut(em, GenLoopBody(em, loop, body), SomeStrays(body, Nests(em.loops) + [Nest(loop.tag, true)]))
    decreases body, 2
  {
    hide Neat, NullFree, Opens, GenBlock, SomeEnds, SomeStrays, Nests;
    var em0 := em.(loops := em.loops + [loop]);
    assert loop == [loop][0];
    var x := SomeStrays(body, Nests(em0.loops));
    NestsPush(em.loops, loop);
    FineBlock(em0, body);
    var em1 := GenBlock(em0, body).(loops := em.loops);
    assert Fine(em, em1, x);
    ShutBr(em, em1, loop.header.value, x);
  }

  lemma FineTest(em: Emitter, t: Test)
    requires Neat(em.blocks) && Open(em)
    ensures Fine(em, GenTest(em, t).0, false) && Open(GenTest(em, t).0)
  {
    hide Neat, NullFree, Opens, GenCond;
    match t {
      case TestExpr(e) => FineCond(em, e);
      case TestRange(slot, hi, inclusive) =>
        var (em1, i) := EmitValue(em, Load(em.nextReg, slot));
        FineValue(em, Load(em.nextReg, slot));
        FineSame(em1);
        FineLast(em, em1, em1, ICmp(em1.nextReg, if inclusive then Le else Lt, i, hi));
    }
  }

  /** The blocks of a loop differ; without an increment the header is the continue target. */
  predicate Apart(sh: Shape, incr: Option<Expr>) {
    && sh.header != sh.body && sh.header != sh.exit && sh.body != sh.exit
    && if incr.None? then sh.cont == sh.header else sh.cont !in {sh.header, sh.body, sh.exit}
  }

  /** The blocks of the loop other than its exit are closed. */
  predicate LoopShut(em: Emitter, r: Emitter, sh: Shape, stray: bool) {
    && Neat(r.blocks) && |em.blocks| <= |r.blocks|
    && r.cur == sh.exit
    && Opens(r.blocks) == Opens(em.blocks) - {sh.header, sh.body, sh.cont}
    && (NullFree(r.blocks) <==> NullFree(em.blocks) && !stray)
  }

  lemma {:induction false} ShutLoop(em: Emitter, sh: Shape, tag: string, test: Test, incr: Option<Expr>,
                                    body: seq<Stmt>)
    requires InRange(em, sh) && Set(em) && {sh.header, sh.body, sh.cont, sh.exit} <= Opens(em.blocks)
    requires Apart(sh, incr)
    ensures LoopShut(em, GenLoop(em, sh, tag, test, incr, body), sh,
                     SomeStrays(body, Nests(em.loops) + [Nest(tag, true)]))
    decreases body, 3
  {
    hide Neat, NullFree, Opens, Open, GenTest, GenLoopBody, SomeStrays, GenExpr, Nests;
    var em0 := At(em, sh.header);
    InOpens(em0);
    var (em1, v) := GenTest(em0, test);
    FineTest(em0, test);
    var em2' := Emit(em1, CondBr(v, sh.body, sh.exit));
    FineEmit(em1, CondBr(v, sh.body, sh.exit));
    FineShut(em0, em1, em2', false, false);
    var em2 := At(em2', sh.body);
    InOpens(em2);
    var loop := LoopCtx(Some(sh.cont), sh.exit, tag);
    ShutLoopBody(em2, loop, body);
    var em3 := GenLoopBody(em2, loop, body);
    if incr.Some? {
      var em4 := At(em3, sh.cont);
      InOpens(em4);
      ShutStep(em4, incr.value, sh.header);
    }
  }

  lemma ShutStep(em: Emitter, e: Expr, t: nat)
    requires Neat(em.blocks) && Open(em) && t < |em.blocks|
    ensures Shut(em, Emit(GenExpr(em, e).0, Br(Some(t))), false)
  {
    hide Neat, NullFree, Opens, Open, GenExpr;
    var em1 := GenExpr(em, e).0;
    FineExpr(em, e);
    FineEmit(em1, Br(Some(t)));
    FineShut(em, em1, Emit(em1, Br(Some(t))), false, false);
  }

  /** A loop entered from em through its head: em's block is closed and the exit is the new one. */
  lemma LoopFine(em: Emitter, em0: Emitter, head: Emitter, r: Emitter, n: nat, sh: Shape, stray: bool)
    requires Neat(em.blocks) && Open(em) && em0.blocks == NewBlocks(em, n).blocks && em0.cur == em.cur
    requires Shut(em0, head, false) && LoopShut(head, r, sh, stray)
    requires {sh.header, sh.body, sh.cont, sh.exit} == Span(|em.blocks|, |em.blocks| + n)
    requires sh.exit !in {sh.header, sh.body, sh.cont}
    ensures Fine(em, r, stray) && Open(r)
  {
    hide Neat, NullFree, Opens, Open, Span;
    var k, all := |em.blocks|, {sh.header, sh.body, sh.cont, sh.exit};
    FineNew(em, n);
    InOpens(em);
    InOpens(r);
    assert forall b :: b in all ==> b >= k by {
      forall b | b in all ensures b >= k { SpanIs(b, k, k + n); }
    }
    assert Opens(em0.blocks) == Opens(em.blocks) + all;
    assert sh.header >= k && sh.body >= k && sh.cont >= k && sh.exit >= k;
    assert Opens(r.blocks) == Opens(em.blocks) - {em.cur} + {sh.exit};
  }

  lemma SpanIs(b: nat, lo: nat, hi: nat)
    ensures b in Span(lo, hi) <==> lo <= b < hi
  {
    assert lo <= b < hi <==> InSpan(b, lo, hi);
  }

  lemma {:induction false} FineWhile(em: Emitter, s: Stmt)
    requires s.While? && Set(em) && Open(em)
    ensures Fine(em, GenWhile(em, s), Strays(s, Nests(em.loops))) && Open(GenWhile(em, s))
    decreases s, 0
  {
    hide Neat, NullFree, Opens, Open, SomeStrays, Nests, GenLoop;
    var k := |em.blocks|;
    var em0, sh := NewBlocks(em, 3), Shape(k, k + 1, k, k + 2);
    var em1 := Emit(em0, Br(Some(k)));
    Leave(em, 3, Br(Some(k)));
    InOpens(em);
    assert Span(k, k + 3) == {k, k + 1, k + 2};
    ShutLoop(em1, sh, LabelText(s.tag), TestExpr(s.cond), None, s.body);
    LoopFine(em, em0, em1, GenWhile(em, s), 3, sh, Strays(s, Nests(em.loops)));
  }

  lemma {:induction false} FineForRange(em: Emitter, s: Stmt)
    requires s.ForRange? && Set(em) && Open(em)
    ensures Fine(em, GenForRange(em, s), Strays(s, Nests(em.loops))) && Open(GenForRange(em, s))
    decreases s, 0
  {
    hide Neat, NullFree, Opens, Open, SomeStrays, Nests, GenLoop, GenExpr;
    var k := |em.blocks|;
    var em1 := DefineVar(PushEnv(NewBlocks(em, 4)), s.x);
    var (em2, a) := GenExpr(em1, s.lo);
    var (em3, b) := GenExpr(em2, s.hi);
    FineNew(em, 4);
    InOpens(em1);
    InOpens(em);
    FineExpr(em1, s.lo);
    FineAndEmit(em2, s.hi, Store(a, em.nextSlot));
    var em4 := Emit(em3, Store(a, em.nextSlot));
    FineTrans(em1, em2, em4, false, false);
    FineEmit(em4, Br(Some(k)));
    FineShut(em1, em4, RangeHead(em, s).0, false, false);
    ForFine(em, em1, RangeHead(em, s).0, TestRange(em.nextSlot, b, s.inclusive),
            IncDec(s.x, true, true), s.body, GenForRange(em, s));
  }

  lemma {:induction false} FineForC(em: Emitter, s: Stmt)
    requires s.ForC? && Set(em) && Open(em)
    ensures Fine(em, GenForC(em, s), Strays(s, Nests(em.loops))) && Open(GenForC(em, s))
    decreases s, 0
  {
    hide Neat, NullFree, Opens, Open, SomeStrays, Nests, GenLoop, GenExpr;
    var k := |em.blocks|;
    var em1 := DefineVar(PushEnv(NewBlocks(em, 4)), s.x);
    var (em2, a) := GenExpr(em1, s.start);
    FineNew(em, 4);
    InOpens(em1);
    InOpens(em);
    FineAndEmit(em1, s.start, Store(a, em.nextSlot));
    var em3 := Emit(em2, Store(a, em.nextSlot));
    FineEmit(em3, Br(Some(k)));
    FineShut(em1, em3, ForHead(em, s), false, false);
    ForFine(em, em1, ForHead(em, s), TestExpr(s.cond), s.incr, s.body, GenForC(em, s));
  }

  /** A for loop after its head. */
  lemma {:induction false} ForFine(em: Emitter, em1: Emitter, head: Emitter, test: Test, incr: Expr,
                                   body: seq<Stmt>, r: Emitter)
    requires Set(em) && Open(em) && em1.blocks == NewBlocks(em, 4).blocks && em1.cur == em.cur
    requires Shut(em1, head, false) && head.loops == em.loops
    requires var k := |em.blocks|;
             r == PopEnv(GenLoop(head, Shape(k, k + 1, k + 2, k + 3), "", test, Some(incr), body))
    ensures Fine(em, r, SomeStrays(body, Nests(em.loops) + [Nest("", true)])) && Open(r)
    decreases body, 4
  {
    hide Neat, NullFree, Opens, Open, SomeStrays, Nests, GenLoop;
    var k := |em.blocks|;
    var sh := Shape(k, k + 1, k + 2, k + 3);
    FineNew(em, 4);
    InOpens(em);
    assert Span(k, k + 4) == {k, k + 1, k + 2, k + 3};
    ShutLoop(head, sh, "", test, Some(incr), body);
    LoopFine(em, em1, head, r, 4, sh, SomeStrays(body, Nests(em.loops) + [Nest("", true)]));
  }

  /** A body, a test block and an exit: what is closed of the three blocks, and what is left open. */
  lemma DoMeets(em: Emitter, em1: Emitter, em2: Emitter, em4: Emitter, x: bool)
    requires Neat(em.blocks) && Open(em) && |em1.blocks| >= |em.blocks| + 3
    requires var k := |em.blocks|;
             && |em2.blocks| >= |em1.blocks| && |em4.blocks| >= |em2.blocks|
             && Opens(em1.blocks) == Opens(em.blocks) - {em.cur} + Span(k, k + 3)
             && (NullFree(em1.blocks) <==> NullFree(em.blocks))
             && em1.cur == k && Shut(em1, em2, x) && Shut(At(em2, k + 1), em4, false)
    ensures var r := At(em4, |em.blocks| + 2); Fine(em, r, x) && Open(r)
  {
    hide Neat, NullFree, Opens, Open;
    var k := |em.blocks|;
    InOpens(em);
    InOpens(At(em4, k + 2));
    assert Span(k, k + 3) == {k, k + 1, k + 2};
  }

  lemma StraysDo(s: Stmt, ctx: seq<Nest>)
    requires s.DoWhile?
    ensures Strays(s, ctx) <==> SomeStrays(s.body, ctx + [Nest("", true)])
  {
    hide SomeStrays;
  }

  lemma {:induction false} FineDoWhile(em: Emitter, s: Stmt)
    requires s.DoWhile? && Set(em) && Open(em)
    ensures Fine(em, GenDoWhile(em, s), Strays(s, Nests(em.loops))) && Open(GenDoWhile(em, s))
    decreases s, 0
  {
    hide Neat, NullFree, Opens, Open, SomeStrays, Strays, Nests, GenLoopBody, GenCond;
    var k := |em.blocks|;
    var em1 := At(Emit(NewBlocks(em, 3), Br(Some(k))), k);
    Leave(em, 3, Br(Some(k)));
    InOpens(em);
    assert Span(k, k + 3) == {k, k + 1, k + 2};
    InOpens(em1);
    StraysDo(s, Nests(em.loops));
    var loop := LoopCtx(Some(k + 1), k + 2, "");
    ShutLoopBody(em1, loop, s.body);
    var em2 := GenLoopBody(em1, loop, s.body);
    InOpens(At(em2, k + 1));
    FineCond(At(em2, k + 1), s.cond);
    var (em3, v) := GenCond(At(em2, k + 1), s.cond);
    var em4 := Emit(em3, CondBr(v, k, k + 2));
    FineEmit(em3, CondBr(v, k, k + 2));
    FineShut(At(em2, k + 1), em3, em4, false, false);
    DoMeets(em, em1, em2, em4, SomeStrays(s.body, Nests(em.loops) + [Nest("", true)]));
  }

  // ----- switch ------------------------------------------------------------------------------

  lemma {:induction false} ArmsBelow(cases: seq<Case>, c: nat)
    ensures forall j :: 0 <= j < |Arms(cases, c)| ==> Arms(cases, c)[j].1 < c + |cases|
  {
    if cases != [] { ArmsBelow(cases[1..], c + 1); }
  }

  lemma DefaultBelow(cases: seq<Case>, c: nat, exit: nat)
    requires exit < c
    ensures DefaultBlock(cases, c, exit) < c + |cases|
  {}

  lemma {:induction false} ShutCases(em: Emitter, cases: seq<Case>, i: nat, c: nat, exit: nat)
    requires i <= |cases| && c + |cases| <= |em.blocks| && exit < |em.blocks|
    requires Set(em) && Span(c + i, c + |cases|) <= Opens(em.blocks)
    ensures var r := GenCases(em, cases, i, c, exit);
            && Neat(r.blocks) && |em.blocks| <= |r.blocks|
            && Opens(r.blocks) == Opens(em.blocks) - Span(c + i, c + |cases|)
            && (NullFree(r.blocks) <==> NullFree(em.blocks) && !CasesStray(cases, i, Nests(em.loops)))
    decreases cases, |cases| - i
  {
    hide Neat, NullFree, Opens, SomeStrays, Nests, GenBlock, Span;
    if i == |cases| {
      SpanEmpty(c + i, c + |cases|);
    } else {
      var next := if i + 1 < |cases| then c + i + 1 else exit;
      var em2 := BrIfOpen(GenBlock(At(em, c + i), cases[i].body), next);
      SpanSplit(c + i, c + |cases|);
      ShutBlock(em, c + i, cases[i].body, next);
      ShutCases(em2, cases, i + 1, c, exit);
    }
  }

  lemma SpanEmpty(lo: nat, hi: nat)
    requires hi <= lo
    ensures Span(lo, hi) == {}
  {}

  lemma SpanSplit(lo: nat, hi: nat)
    requires lo < hi
    ensures Span(lo, hi) == {lo} + Span(lo + 1, hi) && lo !in Span(lo + 1, hi)
  {
    forall b ensures b in Span(lo, hi) <==> b in {lo} + Span(lo + 1, hi) {
      SpanIs(b, lo, hi);
      SpanIs(b, lo + 1, hi);
    }
  }

  /** The blocks of the cases may as well be there before the switch instruction. */
  lemma HeadOrder(em: Emitter, i: Instr, n: nat)
    ensures NewBlocks(Emit(em, i), n) == Emit(NewBlocks(em, n), i)
  {
    assert NewBlocks(Emit(em, i), n).blocks == Emit(NewBlocks(em, n), i).blocks;
  }

  lemma FineSwitchHead(em: Emitter, s: Stmt)
    requires s.Switch? && Neat(em.blocks) && Open(em)
    ensures var (r, c) := SwitchHead(em, s);
            && Neat(r.blocks) && (NullFree(r.blocks) <==> NullFree(em.blocks))
            && Opens(r.blocks) == Opens(em.blocks) - {em.cur} + {|em.blocks|} + Span(c, c + |s.cases|)
  {
    hide Neat, NullFree, Opens, Open, GenExpr, Arms, DefaultBlock;
    var k, em0 := |em.blocks|, NewBlocks(em, 1);
    var (em1, v) := GenExpr(em0, s.e);
    var c, n := |em1.blocks|, |s.cases|;
    var i := SwitchBr(v, DefaultBlock(s.cases, c, k), Arms(s.cases, c));
    FineNew(em, 1);
    InOpens(em);
    InOpens(em0);
    assert Span(k, k + 1) == {k};
    FineExpr(em0, s.e);
    InOpens(em1);
    FineNew(em1, n);
    var em2 := NewBlocks(em1, n);
    InOpens(em2);
    assert TargetsBelow(i, |em2.blocks|) by {
      ArmsBelow(s.cases, c);
      DefaultBelow(s.cases, c, k);
    }
    HeadOrder(em1, i, n);
    FineEmit(em2, i);
  }

  lemma {:induction false} FineSwitch(em: Emitter, s: Stmt)
    requires s.Switch? && Set(em) && Open(em)
    ensures Fine(em, GenSwitch(em, s), Strays(s, Nests(em.loops))) && Open(GenSwitch(em, s))
    decreases s, 0
  {
    hide Neat, NullFree, Opens, Open, SomeStrays, Nests, GenCases, CasesStray, SwitchHead;
    var k := |em.blocks|;
    var (em1, c) := SwitchHead(em, s);
    var loop := LoopCtx(None, k, "");
    var em2 := em1.(loops := em1.loops + [loop]);
    InOpens(em);
    FineSwitchHead(em, s);
    NestsPush(em1.loops, loop);
    ShutCases(em2, s.cases, 0, c, k);
    SpanIs(k, c, c + |s.cases|);
    SpanIs(em.cur, c, c + |s.cases|);
    InOpens(GenSwitch(em, s));
  }

  // ----- functions ---------------------------------------------------------------------------

  lemma {:induction false} FineParams(em: Emitter, params: seq<string>, i: nat)
    requires i <= |params| && Neat(em.blocks) && Open(em)
    ensures Fine(em, GenParams(em, params, i), false) && Open(GenParams(em, params, i))
    ensures GenParams(em, params, i).loops == em.loops
    decreases |params| - i
  {
    hide Neat, NullFree, Opens;
    FineSame(em);
    if i < |params| {
      var em1 := DefineVar(Emit(em, Store(Reg(i), em.nextSlot)), params[i]);
      FineEmit(em, Store(Reg(i), em.nextSlot));
      FineParams(em1, params, i + 1);
      FineTrans(em, em1, GenParams(em, params, i), false, false);
    }
  }

  /** Every block ends in a terminator, has no other, and only branches to blocks of the function. */
  predicate WellFormed(p: seq<Code>) {
    forall b :: 0 <= b < |p| ==>
      && Terminated(p[b])
      && forall j :: 0 <= j < |p[b]| ==>
           TargetsBelow(p[b][j], |p|) && (p[b][j].IsTerminator() ==> j == |p[b]| - 1)
  }

  /** The emitted blocks of every function are well formed, and a branch goes nowhere exactly when the
      body has, where code is generated, a continue whose target is a switch. */
  lemma BlocksAreWellFormed(f: Function)
    ensures WellFormed(Compiled(f))
    ensures NullFree(Compiled(f)) <==> !SomeStrays(f.body, [])
  {
    hide Neat, NullFree, Opens, SomeStrays, SomeEnds, GenStmts;
    var em0 := Emitter([[]], 0, [], [map[]], 0, |f.params|, 0);
    assert Neat(em0.blocks) && NullFree(em0.blocks) && Opens(em0.blocks) == {0} by { FineFirst(em0); }
    FineParams(em0, f.params, 0);
    var em1 := Start(f);
    assert Nests(em1.loops) == [];
    FineStmts(em1, f.body);
    var em2, x := GenStmts(em1, f.body), SomeStrays(f.body, []);
    FineTrans(em0, em1, em2, false, x);
    if Open(em2) { FineEmit(em2, Ret(if f.isVoid then None else Some(Const(0)))); }
    NoneOpen(Compiled(f));
  }

  lemma FineFirst(em: Emitter)
    requires em.blocks == [[]]
    ensures Neat(em.blocks) && NullFree(em.blocks) && Opens(em.blocks) == {0}
  {
    assert IsOpen(em.blocks, 0);
  }

  lemma NoneOpen(p: seq<Code>)
    requires Neat(p) && Opens(p) == {}
    ensures WellFormed(p)
  {
    forall b | 0 <= b < |p| ensures Terminated(p[b]) && Tidy(p[b], |p|) {
      assert IsOpen(p, b) <==> b in Opens(p);
    }
  }
}
