/** The code generator as the program has it: an object that emits. */
module Codegen {
  import opened Common
  import opened ScalarSource
  import opened Ir
  import L = Lower

  class Codegen {
    var blocks: seq<Code>
    var cur: nat                    // the builder's insertion block
    var loops: seq<L.LoopCtx>
    var env: Scopes<nat>
    var nextSlot: nat
    var nextReg: nat
    var errors: nat

    ghost predicate Valid() reads this { cur < |blocks| }

    /** The fields as one value. */
    ghost function State(): L.Emitter
      requires Valid()
      reads this
    {
      L.Emitter(blocks, cur, loops, env, nextSlot, nextReg, errors)
    }

    constructor (params: nat)
      ensures Valid() && State() == L.Emitter([[]], 0, [], [map[]], 0, params, 0)
    {
      blocks, cur, loops, env := [[]], 0, [], [map[]];
      nextSlot, nextReg, errors := 0, params, 0;
    }

    // ----- the builder -----------------------------------------------------------------------

    method Emit(i: Instr)
      requires Valid()
      modifies this
      ensures Valid() && State() == L.Emit(old(State()), i)
    {
      blocks := blocks[cur := blocks[cur] + [i]];
    }

    method EmitValue(i: Instr) returns (v: Operand)
      requires Valid()
      modifies this
      ensures Valid() && (State(), v) == L.EmitValue(old(State()), i)
    {
      v := Reg(nextReg);
      nextReg := nextReg + 1;
      Emit(i);
    }

    method NewBlock() returns (b: nat)
      requires Valid()
      modifies this
      ensures Valid() && State() == L.NewBlocks(old(State()), 1) && b == |old(blocks)|
    {
      b := |blocks|;
      blocks := blocks + [[]];
    }

    method TwoBlocks() returns (a: nat, b: nat)
      requires Valid()
      modifies this
      ensures Valid() && State() == L.NewBlocks(old(State()), 2)
      ensures a == |old(blocks)| && b == a + 1
    {
      a := NewBlock();
      b := NewBlock();
      assert State().blocks == L.NewBlocks(old(State()), 2).blocks;
    }

    method ThreeBlocks() returns (a: nat, b: nat, c: nat)
      requires Valid()
      modifies this
      ensures Valid() && State() == L.NewBlocks(old(State()), 3)
      ensures a == |old(blocks)| && b == a + 1 && c == a + 2
    {
      a, b := TwoBlocks();
      c := NewBlock();
      assert State().blocks == L.NewBlocks(old(State()), 3).blocks;
    }

    method FourBlocks() returns (a: nat, b: nat, c: nat, d: nat)
      requires Valid()
      modifies this
      ensures Valid() && State() == L.NewBlocks(old(State()), 4)
      ensures a == |old(blocks)| && b == a + 1 && c == a + 2 && d == a + 3
    {
      a, b, c := ThreeBlocks();
      d := NewBlock();
      assert State().blocks == L.NewBlocks(old(State()), 4).blocks;
    }

    method SetInsertPoint(b: nat)
      requires Valid() && b < |blocks|
      modifies this
      ensures Valid() && State() == L.At(old(State()), b)
    {
      cur := b;
    }

    method BrIfOpen(b: nat)
      requires Valid()
      modifies this
      ensures Valid() && State() == L.BrIfOpen(old(State()), b)
    {
      if !Terminated(blocks[cur]) { Emit(Br(Some(b))); }
    }

    // ----- the environment -------------------------------------------------------------------

    method EnvPush()
      requires Valid()
      modifies this
      ensures Valid() && State() == L.PushEnv(old(State()))
    {
      env := env + [map[]];
    }

    method EnvPop()
      requires Valid()
      modifies this
      ensures Valid() && State() == L.PopEnv(old(State()))
    {
      env := Pop(env);
    }

    method Define(x: string)
      requires Valid()
      modifies this
      ensures Valid() && State() == L.DefineVar(old(State()), x)
    {
      env := ScalarSource.Define(env, x, nextSlot);
      nextSlot := nextSlot + 1;
    }

    /** Innermost scope first. */
    method Lookup(x: string) returns (slot: Option<nat>)
      ensures slot == Find(env, x)
    {
      var i := |env|;
      assert env[..i] == env;
      while i > 0
        invariant i <= |env|
        invariant Find(env[..i], x) == Find(env, x)
      {
        i := i - 1;
        assert env[..i + 1][..i] == env[..i];
        if x in env[i] { return Some(env[i][x]); }
      }
      slot := None;
    }

    // ----- expressions -----------------------------------------------------------------------

    method GenExpr(e: Expr) returns (v: Operand)
      requires Valid()
      modifies this
      ensures Valid() && (State(), v) == L.GenExpr(old(State()), e)
      decreases e, 1
    {
      hide L.GenCond, L.GenLogic, L.GenUpdate, Find, Wrap;
      match e {
        case Lit(n) => v := Const(Wrap(n));
        case Var(x) =>
          var slot := Lookup(x);
          if slot.Some? {
            v := EmitValue(Load(nextReg, slot.value));
          } else {
            errors := errors + 1;
            v := Const(0);
          }
        case Arith(op, l, r) =>
          var a := GenExpr(l);
          var b := GenExpr(r);
          v := EmitValue(Binary(nextReg, op, a, b));
        case Cmp(op, l, r) =>
          var a := GenExpr(l);
          var b := GenExpr(r);
          v := EmitValue(ICmp(nextReg, op, a, b));
        case And(_, _) => v := GenLogic(e);
        case Or(_, _) => v := GenLogic(e);
        case Not(e1) =>
          var a := GenCond(e1);
          v := EmitValue(NotBit(nextReg, a));
        case Neg(e1) =>
          var a := GenExpr(e1);
          v := EmitValue(Binary(nextReg, Sub, Const(0), a));
        case Assign(x, e1) =>
          v := GenExpr(e1);
          var slot := Lookup(x);
          if slot.Some? { Emit(Store(v, slot.value)); } else { errors := errors + 1; }
        case Compound(op, x, e1) =>
          var b := GenExpr(e1);
          var slot := Lookup(x);
          if slot.Some? {
            v := GenUpdate(op, slot.value, b);
          } else {
            errors := errors + 1;
            v := b;
          }
        case IncDec(x, up, prefix) =>
          var slot := Lookup(x);
          if slot.Some? {
            var was := Reg(nextReg);
            v := GenUpdate(if up then Add else Sub, slot.value, Const(1));
            v := if prefix then v else was;
          } else {
            errors := errors + 1;
            v := Const(0);
          }
      }
    }

    /** Load, combine, store. */
    method GenUpdate(op: ArithOp, slot: nat, b: Operand) returns (v: Operand)
      requires Valid()
      modifies this
      ensures Valid() && (State(), v) == L.GenUpdate(old(State()), op, slot, b)
    {
      var a := EmitValue(Load(nextReg, slot));
      v := EmitValue(Binary(nextReg, op, a, b));
      Emit(Store(v, slot));
    }

    method GenCond(e: Expr) returns (v: Operand)
      requires Valid()
      modifies this
      ensures Valid() && (State(), v) == L.GenCond(old(State()), e)
      decreases e, 2
    {
      v := GenExpr(e);
      if !e.IsBool() { v := EmitValue(ICmp(nextReg, Ne, v, Const(0))); }
    }

    method GenLogic(e: Expr) returns (v: Operand)
      requires e.And? || e.Or?
      requires Valid()
      modifies this
      ensures Valid() && (State(), v) == L.GenLogic(old(State()), e)
      decreases e, 0
    {
      hide L.GenExpr, L.GenCond;
      var right, join := TwoBlocks();
      var a := GenCond(e.l);
      var leftEnd := cur;
      Emit(if e.And? then CondBr(a, right, join) else CondBr(a, join, right));
      SetInsertPoint(right);
      var b := GenCond(e.r);
      var rightEnd := cur;
      Emit(Br(Some(join)));
      SetInsertPoint(join);
      v := EmitValue(Phi(nextReg, leftEnd, if e.And? then Const(0) else a, rightEnd, b));
    }

    // ----- statements ------------------------------------------------------------------------

    /** Once the block has its terminator, the remaining statements are skipped one by one. */
    method GenStmts(ss: seq<Stmt>)
      requires Valid()
      modifies this
      ensures Valid() && State() == L.GenStmts(old(State()), ss)
      decreases ss, 0
    {
      var i := 0;
      while i < |ss|
        invariant i <= |ss| && Valid()
        invariant L.GenStmts(State(), ss[i..]) == L.GenStmts(old(State()), ss)
      {
        assert ss[i..][0] == ss[i] && ss[i..][1..] == ss[i + 1..];
        if !Terminated(blocks[cur]) { GenStmt(ss[i]); }
        i := i + 1;
      }
    }

    method GenBlock(ss: seq<Stmt>)
      requires Valid()
      modifies this
      ensures Valid() && State() == L.GenBlock(old(State()), ss)
      decreases ss, 1
    {
      EnvPush();
      GenStmts(ss);
      EnvPop();
    }

    method GenStmt(s: Stmt)
      requires Valid()
      modifies this
      ensures Valid() && State() == L.GenStmt(old(State()), s)
      decreases s, 1
    {
      hide L.GenExpr, L.GenVarDecl, L.GenBlock, L.GenIf, L.GenWhile, L.GenDoWhile, L.GenForRange, L.GenForC,
        L.GenSwitch, L.GenBreak, L.GenContinue, L.GenReturn;
      match s {
        case Eval(e) => var _ := GenExpr(e);
        case Print(e) =>
          var v := GenExpr(e);
          Emit(CallPrint(v));
        case Decl(x, init) => GenVarDecl(x, init);
        case Block(body) => GenBlock(body);
        case If(_, _, _) => GenIf(s);
        case While(_, _, _) => GenWhile(s);
        case DoWhile(_, _) => GenDoWhile(s);
        case ForRange(_, _, _, _, _) => GenForIn(s);
        case ForC(_, _, _, _, _) => GenForC(s);
        case Switch(_, _) => GenSwitch(s);
        case Break(target) => GenBreak(target);
        case Continue(target) => GenContinue(target);
        case Return(value) => GenReturn(value);
      }
    }

    method GenVarDecl(x: string, init: Option<Expr>)
      requires Valid()
      modifies this
      ensures Valid() && State() == L.GenVarDecl(old(State()), x, init)
    {
      var v := Const(0);
      if init.Some? { v := GenExpr(init.value); }
      Emit(Store(v, nextSlot));
      Define(x);
    }

    method GenIf(s: Stmt)
      requires s.If?
      requires Valid()
      modifies this
      ensures Valid() && State() == L.GenIf(old(State()), s)
      decreases s, 0
    {
      hide L.GenExpr, L.GenCond, L.GenBlock, L.GenStmts;
      var v := GenCond(s.cond);
      var thenB, elseB, merge := ThreeBlocks();
      Emit(CondBr(v, thenB, elseB));
      SetInsertPoint(thenB);
      GenBlock(s.thenBr);
      BrIfOpen(merge);
      SetInsertPoint(elseB);
      GenBlock(s.elseBr);
      BrIfOpen(merge);
      SetInsertPoint(merge);
    }

    /** The body of a loop between pushing and popping its context. */
    method GenLoopBody(header: nat, exit: nat, tag: string, body: seq<Stmt>)
      requires Valid()
      modifies this
      ensures Valid()
      ensures State() == L.GenLoopBody(old(State()), L.LoopCtx(Some(header), exit, tag), body)
      decreases body, 2
    {
      loops := loops + [L.LoopCtx(Some(header), exit, tag)];
      GenBlock(body);
      loops := loops[..|loops| - 1];
      assert loops == old(loops);
      BrIfOpen(header);
    }

    method GenWhile(s: Stmt)
      requires s.While?
      requires Valid()
      modifies this
      ensures Valid() && State() == L.GenWhile(old(State()), s)
      decreases s, 0
    {
      hide L.GenExpr, L.GenCond, L.GenLoopBody;
      var header, body, exit := ThreeBlocks();
      Emit(Br(Some(header)));
      SetInsertPoint(header);
      var v := GenCond(s.cond);
      Emit(CondBr(v, body, exit));
      SetInsertPoint(body);
      GenLoopBody(header, exit, LabelText(s.tag), s.body);
      SetInsertPoint(exit);
    }

    method GenDoWhile(s: Stmt)
      requires s.DoWhile?
      requires Valid()
      modifies this
      ensures Valid() && State() == L.GenDoWhile(old(State()), s)
      decreases s, 0
    {
      hide L.GenExpr, L.GenCond, L.GenLoopBody;
      var body, test, exit := ThreeBlocks();
      Emit(Br(Some(body)));
      SetInsertPoint(body);
      GenLoopBody(test, exit, "", s.body);
      SetInsertPoint(test);
      var v := GenCond(s.cond);
      Emit(CondBr(v, body, exit));
      SetInsertPoint(exit);
    }

    method RangeHead(s: Stmt) returns (header: nat, body: nat, incr: nat, exit: nat, slot: nat, hi: Operand)
      requires s.ForRange?
      requires Valid()
      modifies this
      ensures Valid() && (State(), hi) == L.RangeHead(old(State()), s)
      ensures header == |old(blocks)| && body == header + 1 && incr == header + 2 && exit == header + 3
      ensures slot == old(nextSlot)
    {
      hide L.GenExpr;
      header, body, incr, exit := FourBlocks();
      EnvPush();
      slot := nextSlot;
      Define(s.x);
      var lo := GenExpr(s.lo);
      hi := GenExpr(s.hi);
      Emit(Store(lo, slot));
      Emit(Br(Some(header)));
    }

    method GenRangeTest(slot: nat, hi: Operand, inclusive: bool) returns (v: Operand)
      requires Valid()
      modifies this
      ensures Valid() && (State(), v) == L.GenTest(old(State()), L.TestRange(slot, hi, inclusive))
    {
      var i := EmitValue(Load(nextReg, slot));
      v := EmitValue(ICmp(nextReg, if inclusive then Le else Lt, i, hi));
    }

    method GenForIn(s: Stmt)
      requires s.ForRange?
      requires Valid()
      modifies this
      ensures Valid() && State() == L.GenForRange(old(State()), s)
      decreases s, 0
    {
      hide L.GenExpr, L.GenLoopBody, L.RangeHead, L.GenTest;
      var header, body, incr, exit, slot, hi := RangeHead(s);
      SetInsertPoint(header);
      var v := GenRangeTest(slot, hi, s.inclusive);
      Emit(CondBr(v, body, exit));
      SetInsertPoint(body);
      GenLoopBody(incr, exit, "", s.body);
      SetInsertPoint(incr);
      var _ := GenExpr(IncDec(s.x, true, true));
      Emit(Br(Some(header)));
      SetInsertPoint(exit);
      EnvPop();
    }

    method ForHead(s: Stmt) returns (header: nat, body: nat, incr: nat, exit: nat)
      requires s.ForC?
      requires Valid()
      modifies this
      ensures Valid() && State() == L.ForHead(old(State()), s)
      ensures header == |old(blocks)| && body == header + 1 && incr == header + 2 && exit == header + 3
    {
      hide L.GenExpr;
      header, body, incr, exit := FourBlocks();
      EnvPush();
      var slot := nextSlot;
      Define(s.x);
      var a := GenExpr(s.start);
      Emit(Store(a, slot));
      Emit(Br(Some(header)));
    }

    method GenForC(s: Stmt)
      requires s.ForC?
      requires Valid()
      modifies this
      ensures Valid() && State() == L.GenForC(old(State()), s)
      decreases s, 0
    {
      hide L.GenExpr, L.GenCond, L.GenLoopBody, L.ForHead;
      var header, body, incr, exit := ForHead(s);
      SetInsertPoint(header);
      var v := GenCond(s.cond);
      Emit(CondBr(v, body, exit));
      SetInsertPoint(body);
      GenLoopBody(incr, exit, "", s.body);
      SetInsertPoint(incr);
      var _ := GenExpr(s.incr);
      Emit(Br(Some(header)));
      SetInsertPoint(exit);
      EnvPop();
    }

    /** The arms and the default target, as the cases are registered one after the other. */
    method RegisterCases(cases: seq<Case>, first: nat, exit: nat)
      returns (fallback: nat, arms: seq<(int, nat)>)
      ensures fallback == L.DefaultBlock(cases, first, exit) && arms == L.Arms(cases, first)
    {
      var i := 0;
      fallback, arms := exit, [];
      assert cases[..0] == [];
      while i < |cases|
        invariant i <= |cases|
        invariant fallback == L.DefaultBlock(cases[..i], first, exit)
        invariant arms + L.Arms(cases[i..], first + i) == L.Arms(cases, first)
      {
        assert cases[..i + 1][..i] == cases[..i];
        assert cases[i..][0] == cases[i] && cases[i..][1..] == cases[i + 1..];
        match cases[i].value {
          case Some(n) => arms := arms + [(n, first + i)];
          case None => fallback := first + i;
        }
        i := i + 1;
      }
      assert cases[..i] == cases && cases[i..] == [];
    }

    method SwitchHead(s: Stmt) returns (first: nat)
      requires s.Switch?
      requires Valid()
      modifies this
      ensures Valid() && (State(), first) == L.SwitchHead(old(State()), s)
    {
      var exit := NewBlock();
      var v := GenExpr(s.e);
      first := |blocks|;
      var fallback, arms := RegisterCases(s.cases, first, exit);
      Emit(SwitchBr(v, fallback, arms));
      ghost var em2 := State();
      var i := 0;
      while i < |s.cases|
        invariant i <= |s.cases| && Valid() && State() == L.NewBlocks(em2, i)
      {
        var _ := NewBlock();
        i := i + 1;
      }
    }

    method GenSwitch(s: Stmt)
      requires s.Switch?
      requires Valid()
      modifies this
      ensures Valid() && State() == L.GenSwitch(old(State()), s)
      decreases s, 0
    {
      hide L.GenBlock, L.SwitchHead;
      var exit := |blocks|;
      var first := SwitchHead(s);
      loops := loops + [L.LoopCtx(None, exit, "")];
      ghost var em2 := State();
      var i := 0;
      while i < |s.cases|
        invariant i <= |s.cases| && Valid() && first + |s.cases| <= |blocks|
        invariant L.GenCases(State(), s.cases, i, first, exit)
                  == L.GenCases(em2, s.cases, 0, first, exit)
      {
        SetInsertPoint(first + i);
        GenBlock(s.cases[i].body);
        BrIfOpen(if i + 1 < |s.cases| then first + i + 1 else exit);
        i := i + 1;
      }
      assert State() == L.GenCases(em2, s.cases, 0, first, exit);
      loops := loops[..|loops| - 1];
      assert loops == old(loops);
      SetInsertPoint(exit);
    }

    /** The innermost context with that label, searched from the top of the stack. */
    method FindLoop(l: string) returns (r: Option<nat>)
      ensures r == L.LastWithTag(loops, l)
    {
      var i := |loops|;
      assert loops[..i] == loops;
      while i > 0
        invariant i <= |loops|
        invariant L.LastWithTag(loops[..i], l) == L.LastWithTag(loops, l)
      {
        i := i - 1;
        assert loops[..i + 1][..i] == loops[..i];
        if loops[i].tag == l { return Some(i); }
      }
      r := None;
    }

    method GenBreak(target: Option<string>)
      requires Valid()
      modifies this
      ensures Valid() && State() == L.GenBreak(old(State()), target)
    {
      if loops == [] { return; }
      var i := Some(|loops| - 1);
      if target.Some? { i := FindLoop(target.value); }
      if i.Some? { Emit(Br(Some(loops[i.value].exit))); } else { errors := errors + 1; }
    }

    method GenContinue(target: Option<string>)
      requires Valid()
      modifies this
      ensures Valid() && State() == L.GenContinue(old(State()), target)
    {
      if loops == [] { return; }
      var i := Some(|loops| - 1);
      if target.Some? { i := FindLoop(target.value); }
      if i.Some? { Emit(Br(loops[i.value].header)); } else { errors := errors + 1; }
    }

    method GenReturn(value: Option<Expr>)
      requires Valid()
      modifies this
      ensures Valid() && State() == L.GenReturn(old(State()), value)
    {
      if value.Some? {
        var v := GenExpr(value.value);
        Emit(Ret(Some(v)));
      } else {
        Emit(Ret(None));
      }
    }
  }

  /** Generate a whole function: what comes out is what the correctness results speak of. */
  method GenFunction(f: Function) returns (code: seq<Code>, errors: nat)
    ensures code == L.Compiled(f) && errors == L.GenFunc(f).errors
  {
    var g := new Codegen(|f.params|);
    ghost var em0 := g.State();
    var i := 0;
    while i < |f.params|
      invariant i <= |f.params| && g.Valid() && fresh(g)
      invariant L.GenParams(g.State(), f.params, i) == L.GenParams(em0, f.params, 0)
    {
      g.Emit(Store(Reg(i), g.nextSlot));
      g.Define(f.params[i]);
      i := i + 1;
    }
    g.GenStmts(f.body);
    if !Terminated(g.blocks[g.cur]) {
      g.Emit(Ret(if f.isVoid then None else Some(Const(0))));
    }
    g.EnvPop();
    return g.blocks, g.errors;
  }
}
