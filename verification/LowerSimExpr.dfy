/** Running the code of an expression computes its value and its effect on the variables, and lets nothing
    else change. */
module LowerSimExpr {
  import opened Common
  import opened ScalarSource
  import opened ScalarCheck
  import opened Ir
  import opened Lower
  import opened LowerFrame
  import opened LowerAgree

  /** The finished blocks p contain what has been emitted so far. */
  predicate Part(q: seq<Code>, p: seq<Code>) {
    |q| <= |p| && forall i :: 0 <= i < |q| ==> q[i] <= p[i]
  }

  lemma PartBefore(q: seq<Code>, r: seq<Code>, p: seq<Code>, s: set<nat>)
    requires Touch(q, r, s) && Part(r, p)
    ensures Part(q, p)
  {
    forall i | 0 <= i < |q| ensures q[i] <= p[i] { assert q[i] <= r[i] && r[i] <= p[i]; }
  }

  /** The machine is about to run what the emitter emits next. */
  predicate AtEnd(em: Emitter, c: Machine) {
    c.Running? && c.b == em.cur && c.pc == |em.blocks[em.cur]|
  }

  /** Registers below n still hold what they held. */
  predicate Keeps(r: map<nat, int>, r': map<nat, int>, n: nat) {
    forall i :: 0 <= i < n ==> Get(r', i) == Get(r, i)
  }

  predicate OperandBelow(v: Operand, n: nat) { v.Reg? ==> v.r < n }

  lemma KeepsValue(v: Operand, r: map<nat, int>, r': map<nat, int>, n: nat)
    requires Keeps(r, r', n) && OperandBelow(v, n)
    ensures Value(v, r') == Value(v, r)
  {}

  lemma Chain(p: seq<Code>, c0: Machine, k1: nat, c1: Machine, k2: nat, c2: Machine)
    requires Run(p, c0, k1) == c1 && Run(p, c1, k2) == c2
    ensures Run(p, c0, k1 + k2) == c2
  {
    RunSplits(p, c0, k1, k2);
  }

  /** One step over the instruction just emitted. */
  lemma StepEmitted(p: seq<Code>, em: Emitter, i: Instr, c: Machine)
    requires AtEnd(em, c) && Part(Emit(em, i).blocks, p)
    ensures c.b < |p| && c.pc < |p[c.b]| && p[c.b][c.pc] == i
    ensures Run(p, c, 1) == Step(p, c)
  {
    var q := Emit(em, i).blocks;
    assert q[em.cur] <= p[em.cur];
    assert q[em.cur][c.pc] == i;
    assert Run(p, c, 1) == Run(p, Step(p, c), 0);
  }

  lemma StepBr(p: seq<Code>, em: Emitter, t: nat, c: Machine)
    requires AtEnd(em, c) && Part(Emit(em, Br(Some(t))).blocks, p)
    ensures Run(p, c, 1) == Running(t, 0, em.cur, c.m)
  {
    hide Part;
    StepEmitted(p, em, Br(Some(t)), c);
  }

  lemma StepCondBr(p: seq<Code>, em: Emitter, v: Operand, t: nat, f: nat, c: Machine)
    requires AtEnd(em, c) && Part(Emit(em, CondBr(v, t, f)).blocks, p)
    ensures Run(p, c, 1) == Running(if Value(v, c.m.regs) != 0 then t else f, 0, em.cur, c.m)
  {
    hide Part;
    StepEmitted(p, em, CondBr(v, t, f), c);
  }

  /** What running an expression's code from c to c' achieves; n is the value, s' the new store. */
  predicate ExprDone(em: Emitter, em': Emitter, v: Operand, n: int, s': Store, c: Machine, c': Machine)
  {
    && c.Running?
    && AtEnd(em', c')
    && Agree(em.env, s', c'.m.slots)
    && Value(v, c'.m.regs) == n
    && OperandBelow(v, em'.nextReg)
    && Keeps(c.m.regs, c'.m.regs, em.nextReg)
    && c'.m.out == c.m.out
  }

  predicate ExprReady(em: Emitter, names: set<string>, s: Store, c: Machine) {
    && AtEnd(em, c)
    && EnvOk(em.env, em.nextSlot)
    && Covers(em.env, names)
    && Agree(em.env, s, c.m.slots)
  }

  lemma BoolIsBit(e: Expr, s: Store)
    requires e.IsBool()
    ensures EvalExpr(e, s).0 == Bit(EvalExpr(e, s).0 != 0)
  {}

  /** What a register-producing instruction computes. */
  function ResultOf(i: Instr, c: Machine): int
    requires c.Running?
  {
    match i
    case Load(_, slot) => Get(c.m.slots, slot)
    case Binary(_, op, a, b) => Apply(op, Value(a, c.m.regs), Value(b, c.m.regs))
    case ICmp(_, op, a, b) => Compare(op, Value(a, c.m.regs), Value(b, c.m.regs))
    case NotBit(_, a) => Bit(Value(a, c.m.regs) == 0)
    case Phi(_, b1, v1, _, v2) => Value(if c.prev == b1 then v1 else v2, c.m.regs)
    case _ => 0
  }

  predicate Produces(i: Instr, r: nat, prev: nat) {
    match i
    case Load(d, _) => d == r
    case Binary(d, _, _, _) => d == r
    case ICmp(d, _, _, _) => d == r
    case NotBit(d, _) => d == r
    case Phi(d, b1, _, b2, _) => d == r && (prev == b1 || prev == b2)
    case _ => false
  }

  /** A register-producing instruction at the end of an expression. */
  lemma FinishValue(p: seq<Code>, em: Emitter, em1: Emitter, i: Instr, s: Store,
                    c: Machine, k1: nat, c1: Machine) returns (k: nat, c': Machine)
    requires c.Running? && Run(p, c, k1) == c1 && AtEnd(em1, c1)
    requires Part(EmitValue(em1, i).0.blocks, p)
    requires em.env == em1.env && em.nextReg <= em1.nextReg
    requires Agree(em.env, s, c1.m.slots) && Keeps(c.m.regs, c1.m.regs, em.nextReg)
    requires c1.m.out == c.m.out
    requires Produces(i, em1.nextReg, c1.prev)
    ensures k == k1 + 1 && Run(p, c, k) == c'
    ensures c' == c1.(pc := c1.pc + 1, m := SetReg(c1.m, em1.nextReg, ResultOf(i, c1)))
    ensures ExprDone(em, EmitValue(em1, i).0, Reg(em1.nextReg), ResultOf(i, c1), s, c, c')
  {
    hide Part, Agree;
    StepEmitted(p, em1.(nextReg := em1.nextReg + 1), i, c1);
    c' := Step(p, c1);
    k := k1 + 1;
    Chain(p, c, k1, c1, 1, c');
  }

  lemma KeepsTrans(r: map<nat, int>, r1: map<nat, int>, r2: map<nat, int>, n: nat, m: nat)
    requires Keeps(r, r1, n) && Keeps(r1, r2, m) && n <= m
    ensures Keeps(r, r2, n)
  {}

  lemma CoversName(env: Scopes<nat>, names: set<string>, x: string)
    requires Covers(env, names) && x in names
    ensures Level(env, x) > 0 && Find(env, x).Some?
  {}

  lemma PartBeforeValue(em: Emitter, i: Instr, p: seq<Code>)
    requires Part(EmitValue(em, i).0.blocks, p)
    ensures Part(em.blocks, p)
  {
    GrowsValue(em, i);
    PartBefore(em.blocks, EmitValue(em, i).0.blocks, p, {em.cur});
  }

  lemma KeepsSelf(r: map<nat, int>, n: nat)
    ensures Keeps(r, r, n)
  {}

  lemma {:induction false} SimExpr(p: seq<Code>, em: Emitter, e: Expr, names: set<string>, s: Store,
                                   c: Machine) returns (k: nat, c': Machine)
    requires ExprReady(em, names, s, c) && Scoped(e, names) && Part(GenExpr(em, e).0.blocks, p)
    ensures Run(p, c, k) == c'
    ensures ExprDone(em, GenExpr(em, e).0, GenExpr(em, e).1, EvalExpr(e, s).0, EvalExpr(e, s).1, c, c')
    decreases e, 1
  {
    hide Touch, Part, Agree, Distinct, Below, Covers, Keeps;
    match e {
      case Lit(_) => k, c' := 0, c; KeepsSelf(c.m.regs, em.nextReg);
      case Var(_) => k, c' := SimVar(p, em, e, names, s, c);
      case Arith(_, _, _) => k, c' := SimPair(p, em, e, names, s, c);
      case Cmp(_, _, _) => k, c' := SimPair(p, em, e, names, s, c);
      case And(_, _) => k, c' := SimLogic(p, em, e, names, s, c);
      case Or(_, _) => k, c' := SimLogic(p, em, e, names, s, c);
      case Not(_) => k, c' := SimNot(p, em, e, names, s, c);
      case Neg(_) => k, c' := SimNeg(p, em, e, names, s, c);
      case Assign(_, _) => k, c' := SimAssign(p, em, e, names, s, c);
      case Compound(_, _, _) => k, c' := SimCompound(p, em, e, names, s, c);
      case IncDec(_, _, _) => k, c' := SimIncDec(p, em, e, names, s, c);
    }
  }

  lemma {:induction false} SimVar(p: seq<Code>, em: Emitter, e: Expr, names: set<string>, s: Store,
                                   c: Machine) returns (k: nat, c': Machine)
    requires e.Var?
    requires ExprReady(em, names, s, c) && Scoped(e, names) && Part(GenExpr(em, e).0.blocks, p)
    ensures Run(p, c, k) == c'
    ensures ExprDone(em, GenExpr(em, e).0, GenExpr(em, e).1, EvalExpr(e, s).0, EvalExpr(e, s).1, c, c')
    decreases e, 0
  {
    hide Touch, Part, Agree, Distinct, Below, Covers, Keeps;
    CoversName(em.env, names, e.x);
    ReadAgrees(em.env, s, c.m.slots, e.x);
    KeepsSelf(c.m.regs, em.nextReg);
    k, c' := FinishValue(p, em, em, Load(em.nextReg, Find(em.env, e.x).value), s, c, 0, c);
  }

  lemma {:induction false} SimNeg(p: seq<Code>, em: Emitter, e: Expr, names: set<string>, s: Store,
                                   c: Machine) returns (k: nat, c': Machine)
    requires e.Neg?
    requires ExprReady(em, names, s, c) && Scoped(e, names) && Part(GenExpr(em, e).0.blocks, p)
    ensures Run(p, c, k) == c'
    ensures ExprDone(em, GenExpr(em, e).0, GenExpr(em, e).1, EvalExpr(e, s).0, EvalExpr(e, s).1, c, c')
    decreases e, 0
  {
    hide Touch, Part, Agree, Distinct, Below, Covers, Keeps;
    var (em1, a) := GenExpr(em, e.e);
    var i := Binary(em1.nextReg, Sub, Const(0), a);
    GrowsExpr(em, e.e);
    PartBeforeValue(em1, i, p);
    var k1, c1 := SimExpr(p, em, e.e, names, s, c);
    k, c' := FinishValue(p, em, em1, i, EvalExpr(e.e, s).1, c, k1, c1);
  }

  function PairInstr(e: Expr, dst: nat, a: Operand, b: Operand): Instr
    requires e.Arith? || e.Cmp?
  {
    if e.Arith? then Binary(dst, e.aop, a, b) else ICmp(dst, e.cop, a, b)
  }

  lemma PairIs(em: Emitter, e: Expr, s: Store)
    requires e.Arith? || e.Cmp?
    ensures var (em1, a) := GenExpr(em, e.l);
            var (em2, b) := GenExpr(em1, e.r);
            GenExpr(em, e) == EmitValue(em2, PairInstr(e, em2.nextReg, a, b))
    ensures var (m, s1) := EvalExpr(e.l, s);
            var (n, s2) := EvalExpr(e.r, s1);
            EvalExpr(e, s) == (if e.Arith? then Apply(e.aop, m, n) else Compare(e.cop, m, n), s2)
  {}

  lemma {:induction false} SimPair(p: seq<Code>, em: Emitter, e: Expr, names: set<string>, s: Store,
                                   c: Machine) returns (k: nat, c': Machine)
    requires e.Arith? || e.Cmp?
    requires ExprReady(em, names, s, c) && Scoped(e, names) && Part(GenExpr(em, e).0.blocks, p)
    ensures Run(p, c, k) == c'
    ensures ExprDone(em, GenExpr(em, e).0, GenExpr(em, e).1, EvalExpr(e, s).0, EvalExpr(e, s).1, c, c')
    decreases e, 0
  {
    hide Touch, Part, Agree, Distinct, Below, Covers, Keeps, Run, Step, GenExpr, EvalExpr, Apply, Compare;
    PairIs(em, e, s);
    var (em1, a) := GenExpr(em, e.l);
    var (em2, b) := GenExpr(em1, e.r);
    var i := PairInstr(e, em2.nextReg, a, b);
    GrowsExpr(em, e.l);
    GrowsExpr(em1, e.r);
    PartBeforeValue(em2, i, p);
    PartBefore(em1.blocks, em2.blocks, p, {em1.cur});
    EnvOkLater(em.env, em.nextSlot, em1.nextSlot);
    var k1, c1 := SimExpr(p, em, e.l, names, s, c);
    var s1 := EvalExpr(e.l, s).1;
    var k2, c2 := SimExpr(p, em1, e.r, names, s1, c1);
    KeepsValue(a, c1.m.regs, c2.m.regs, em1.nextReg);
    KeepsTrans(c.m.regs, c1.m.regs, c2.m.regs, em.nextReg, em1.nextReg);
    Chain(p, c, k1, c1, k2, c2);
    k, c' := FinishValue(p, em, em2, i, EvalExpr(e.r, s1).1, c, k1 + k2, c2);
  }

  /** As a condition: the operand is 1 or 0. */
  lemma {:induction false} SimCond(p: seq<Code>, em: Emitter, e: Expr, names: set<string>, s: Store,
                                   c: Machine) returns (k: nat, c': Machine)
    requires ExprReady(em, names, s, c) && Scoped(e, names) && Part(GenCond(em, e).0.blocks, p)
    ensures Run(p, c, k) == c'
    ensures ExprDone(em, GenCond(em, e).0, GenCond(em, e).1, Bit(EvalExpr(e, s).0 != 0),
                     EvalExpr(e, s).1, c, c')
    decreases e, 2
  {
    hide Touch, Part, Agree, Distinct, Below, Covers, Keeps;
    var (em1, v) := GenExpr(em, e);
    GrowsExpr(em, e);
    if e.IsBool() {
      k, c' := SimExpr(p, em, e, names, s, c);
      BoolIsBit(e, s);
    } else {
      var i := ICmp(em1.nextReg, Ne, v, Const(0));
      PartBeforeValue(em1, i, p);
      var k1, c1 := SimExpr(p, em, e, names, s, c);
      k, c' := FinishValue(p, em, em1, i, EvalExpr(e, s).1, c, k1, c1);
    }
  }

  lemma {:induction false} SimNot(p: seq<Code>, em: Emitter, e: Expr, names: set<string>, s: Store,
                                   c: Machine) returns (k: nat, c': Machine)
    requires e.Not?
    requires ExprReady(em, names, s, c) && Scoped(e, names) && Part(GenExpr(em, e).0.blocks, p)
    ensures Run(p, c, k) == c'
    ensures ExprDone(em, GenExpr(em, e).0, GenExpr(em, e).1, EvalExpr(e, s).0, EvalExpr(e, s).1, c, c')
    decreases e, 0
  {
    hide Touch, Part, Agree, Distinct, Below, Covers, Keeps;
    var (em1, a) := GenCond(em, e.e);
    var i := NotBit(em1.nextReg, a);
    GrowsCond(em, e.e);
    PartBeforeValue(em1, i, p);
    var k1, c1 := SimCond(p, em, e.e, names, s, c);
    k, c' := FinishValue(p, em, em1, i, EvalExpr(e.e, s).1, c, k1, c1);
  }

  /** The store instruction of an assignment. */
  lemma SimStore(p: seq<Code>, em: Emitter, em1: Emitter, x: string, v: Operand, s: Store,
                 c: Machine, k1: nat, c1: Machine, result: Operand)
    returns (k: nat, c': Machine)
    requires c.Running? && Run(p, c, k1) == c1 && AtEnd(em1, c1)
    requires em.env == em1.env && em.nextReg <= em1.nextReg
    requires Distinct(em.env) && Level(em.env, x) > 0
    requires Part(Emit(em1, Store(v, Find(em.env, x).value)).blocks, p)
    requires Agree(em.env, s, c1.m.slots) && Keeps(c.m.regs, c1.m.regs, em.nextReg)
    requires c1.m.out == c.m.out && OperandBelow(result, em1.nextReg)
    ensures Run(p, c, k) == c'
    ensures ExprDone(em, Emit(em1, Store(v, Find(em.env, x).value)), result,
                     Value(result, c1.m.regs), Write(s, x, Value(v, c1.m.regs)), c, c')
  {
    hide Part, Agree, Distinct, Keeps;
    var slot := Find(em.env, x).value;
    StepEmitted(p, em1, Store(v, slot), c1);
    WriteAgrees(em.env, s, c1.m.slots, x, Value(v, c1.m.regs));
    c' := Step(p, c1);
    k := k1 + 1;
    Chain(p, c, k1, c1, 1, c');
  }

  lemma {:induction false} SimAssign(p: seq<Code>, em: Emitter, e: Expr, names: set<string>, s: Store,
                                   c: Machine) returns (k: nat, c': Machine)
    requires e.Assign?
    requires ExprReady(em, names, s, c) && Scoped(e, names) && Part(GenExpr(em, e).0.blocks, p)
    ensures Run(p, c, k) == c'
    ensures ExprDone(em, GenExpr(em, e).0, GenExpr(em, e).1, EvalExpr(e, s).0, EvalExpr(e, s).1, c, c')
    decreases e, 0
  {
    hide Touch, Part, Agree, Distinct, Below, Covers, Keeps;
    CoversName(em.env, names, e.x);
    var (em1, a) := GenExpr(em, e.e);
    GrowsExpr(em, e.e);
    GrowsEmit(em1, Store(a, Find(em.env, e.x).value));
    PartBefore(em1.blocks, GenExpr(em, e).0.blocks, p, {em1.cur});
    var k1, c1 := SimExpr(p, em, e.e, names, s, c);
    k, c' := SimStore(p, em, em1, e.x, a, EvalExpr(e.e, s).1, c, k1, c1, a);
  }

  /** Load, combine, store: the code of compound assignments and of ++ and --. */
  function UpdateCode(em: Emitter, op: ArithOp, slot: nat, b: Operand): Emitter {
    Emit(Combined(em, op, slot, b), Store(Reg(em.nextReg + 1), slot))
  }

  function Combined(em: Emitter, op: ArithOp, slot: nat, b: Operand): Emitter {
    var em2 := EmitValue(em, Load(em.nextReg, slot)).0;
    EmitValue(em2, Binary(em.nextReg + 1, op, Reg(em.nextReg), b)).0
  }

  lemma GrowsUpdate(em: Emitter, op: ArithOp, slot: nat, b: Operand)
    ensures Grows(em, UpdateCode(em, op, slot, b))
  {
    hide Touch;
    var r := em.nextReg;
    var i1, i2 := Load(r, slot), Binary(r + 1, op, Reg(r), b);
    var em2 := EmitValue(em, i1).0;
    GrowsValue(em, i1);
    GrowsValue(em2, i2);
    GrowsTrans(em, em2, Combined(em, op, slot, b));
    GrowsEmit(Combined(em, op, slot, b), Store(Reg(r + 1), slot));
    GrowsTrans(em, Combined(em, op, slot, b), UpdateCode(em, op, slot, b));
  }

  lemma SimUpdate(p: seq<Code>, em: Emitter, em1: Emitter, op: ArithOp, x: string, b: Operand,
                  s: Store, c: Machine, k1: nat, c1: Machine, wantNew: bool)
    returns (k: nat, c': Machine)
    requires c.Running? && Run(p, c, k1) == c1 && AtEnd(em1, c1)
    requires em.env == em1.env && em.nextReg <= em1.nextReg
    requires Distinct(em.env) && Level(em.env, x) > 0
    requires Agree(em.env, s, c1.m.slots) && Keeps(c.m.regs, c1.m.regs, em.nextReg)
    requires c1.m.out == c.m.out && OperandBelow(b, em1.nextReg)
    requires Part(UpdateCode(em1, op, Find(em.env, x).value, b).blocks, p)
    ensures Run(p, c, k) == c'
    ensures var v := Apply(op, Read(s, x), Value(b, c1.m.regs));
            ExprDone(em, UpdateCode(em1, op, Find(em.env, x).value, b),
                     Reg(if wantNew then em1.nextReg + 1 else em1.nextReg),
                     if wantNew then v else Read(s, x), Write(s, x, v), c, c')
  {
    hide Touch, Part, Agree, Distinct, Keeps, Run, Apply, Read, Write;
    var slot, r := Find(em.env, x).value, em1.nextReg;
    var i1, i2 := Load(r, slot), Binary(r + 1, op, Reg(r), b);
    var em2 := EmitValue(em1, i1).0;
    var em3 := Combined(em1, op, slot, b);
    GrowsEmit(em3, Store(Reg(r + 1), slot));
    PartBefore(em3.blocks, UpdateCode(em1, op, slot, b).blocks, p, {em3.cur});
    PartBeforeValue(em2, i2, p);
    ReadAgrees(em.env, s, c1.m.slots, x);
    var k2, c2 := FinishValue(p, em, em1, i1, s, c, k1, c1);
    assert Value(b, c2.m.regs) == Value(b, c1.m.regs);
    var k3, c3 := FinishValue(p, em, em2, i2, s, c, k2, c2);
    k, c' := SimStore(p, em, em3, x, Reg(r + 1), s, c, k3, c3, Reg(if wantNew then r + 1 else r));
  }

  lemma {:induction false} SimCompound(p: seq<Code>, em: Emitter, e: Expr, names: set<string>, s: Store,
                                   c: Machine) returns (k: nat, c': Machine)
    requires e.Compound?
    requires ExprReady(em, names, s, c) && Scoped(e, names) && Part(GenExpr(em, e).0.blocks, p)
    ensures Run(p, c, k) == c'
    ensures ExprDone(em, GenExpr(em, e).0, GenExpr(em, e).1, EvalExpr(e, s).0, EvalExpr(e, s).1, c, c')
    decreases e, 0
  {
    hide Touch, Part, Agree, Distinct, Below, Covers, Keeps;
    CoversName(em.env, names, e.x);
    var (em1, b) := GenExpr(em, e.e);
    var slot := Find(em.env, e.x).value;
    GrowsExpr(em, e.e);
    assert GenExpr(em, e).0 == UpdateCode(em1, e.aop, slot, b);
    GrowsUpdate(em1, e.aop, slot, b);
    PartBefore(em1.blocks, GenExpr(em, e).0.blocks, p, {em1.cur});
    var k1, c1 := SimExpr(p, em, e.e, names, s, c);
    k, c' := SimUpdate(p, em, em1, e.aop, e.x, b, EvalExpr(e.e, s).1, c, k1, c1, true);
  }

  lemma {:induction false} SimIncDec(p: seq<Code>, em: Emitter, e: Expr, names: set<string>, s: Store,
                                   c: Machine) returns (k: nat, c': Machine)
    requires e.IncDec?
    requires ExprReady(em, names, s, c) && Scoped(e, names) && Part(GenExpr(em, e).0.blocks, p)
    ensures Run(p, c, k) == c'
    ensures ExprDone(em, GenExpr(em, e).0, GenExpr(em, e).1, EvalExpr(e, s).0, EvalExpr(e, s).1, c, c')
    decreases e, 0
  {
    hide Touch, Part, Agree, Distinct, Below, Covers, Keeps;
    CoversName(em.env, names, e.x);
    KeepsSelf(c.m.regs, em.nextReg);
    var op := if e.up then Add else Sub;
    assert GenExpr(em, e).0 == UpdateCode(em, op, Find(em.env, e.x).value, Const(1));
    k, c' := SimUpdate(p, em, em, op, e.x, Const(1), s, c, 0, c, e.prefix);
  }

  /** The stages of emitting a logical operator. */
  datatype LogicCode = LogicCode(em1: Emitter, a: Operand, em2: Emitter, em3: Emitter, a2: Operand,
                                 em4: Emitter, phi: Instr)

  function LogicOf(em: Emitter, e: Expr): (r: LogicCode)
    requires e.And? || e.Or?
    ensures GenExpr(em, e) == EmitValue(r.em4, r.phi)
  {
    var b := |em.blocks|;
    var (em1, a) := GenCond(NewBlocks(em, 2), e.l);
    var em2 := Emit(em1, if e.And? then CondBr(a, b, b + 1) else CondBr(a, b + 1, b));
    var (em3, a2) := GenCond(At(em2, b), e.r);
    var em4 := At(Emit(em3, Br(Some(b + 1))), b + 1);
    var phi := Phi(em4.nextReg, em1.cur, if e.And? then Const(0) else a, em3.cur, a2);
    LogicCode(em1, a, em2, em3, a2, em4, phi)
  }

  /** Short circuit: the right operand runs exactly when the left one does not decide. */
  lemma EvalLogic(e: Expr, s: Store)
    requires e.And? || e.Or?
    ensures var (m, s1) := EvalExpr(e.l, s);
            var (n, s2) := EvalExpr(e.r, s1);
            EvalExpr(e, s)
            == if (m != 0) == e.And? then (Bit(n != 0), s2) else (if e.And? then 0 else 1, s1)
  {}

  lemma {:induction false} SimLogic(p: seq<Code>, em: Emitter, e: Expr, names: set<string>, s: Store,
                                    c: Machine) returns (k: nat, c': Machine)
    requires e.And? || e.Or?
    requires ExprReady(em, names, s, c) && Scoped(e, names) && Part(GenExpr(em, e).0.blocks, p)
    ensures Run(p, c, k) == c'
    ensures ExprDone(em, GenExpr(em, e).0, GenExpr(em, e).1, EvalExpr(e, s).0, EvalExpr(e, s).1, c, c')
    decreases e, 0
  {
    hide Touch, Part, Agree, Distinct, Below, Covers, Keeps, Step, Run, GenCond, GenExpr, EvalExpr;
    EvalLogic(e, s);
    var b, em0, g := |em.blocks|, NewBlocks(em, 2), LogicOf(em, e);
    GrowsCond(em0, e.l);
    GrowsCond(At(g.em2, b), e.r);
    LogicParts(p, em0, g.em1, g.em2, g.em2.blocks[g.em1.cur][|g.em1.blocks[g.em1.cur]|], g.em3, g.em4,
               g.phi, b);
    var k1, c1 := SimCond(p, em0, e.l, names, s, c);
    var onTrue, onFalse := if e.And? then b else b + 1, if e.And? then b + 1 else b;
    StepCondBr(p, g.em1, g.a, onTrue, onFalse, c1);
    var c2 := Run(p, c1, 1);
    Chain(p, c, k1, c1, 1, c2);
    var (n1, s1) := EvalExpr(e.l, s);
    if (n1 != 0) == e.And? {
      EnvOkLater(em.env, em.nextSlot, g.em2.nextSlot);
      k, c' := SimLogicRight(p, em, e, names, s1, c, k1 + 1, c2);
    } else {
      k, c' := FinishValue(p, em, g.em4, g.phi, s1, c, k1 + 1, c2);
    }
  }

  lemma {:induction false} SimLogicRight(p: seq<Code>, em: Emitter, e: Expr, names: set<string>,
                                         s1: Store, c: Machine, k2: nat, c2: Machine)
    returns (k: nat, c': Machine)
    requires (e.And? || e.Or?) && c.Running? && c2.Running?
    requires var g := LogicOf(em, e);
             && ExprReady(At(g.em2, |em.blocks|), names, s1, c2)
             && g.em4.blocks[|em.blocks| + 1] == [] && g.em3.cur != g.em1.cur
             && em.nextReg <= g.em1.nextReg <= g.em3.nextReg
             && Part(g.em3.blocks, p) && Part(g.em4.blocks, p)
             && Keeps(c.m.regs, c2.m.regs, em.nextReg)
    requires Scoped(e, names) && Part(GenExpr(em, e).0.blocks, p)
    requires Run(p, c, k2) == c2 && c2.m.out == c.m.out
    ensures Run(p, c, k) == c'
    ensures var (n2, s2) := EvalExpr(e.r, s1);
            ExprDone(em, GenExpr(em, e).0, GenExpr(em, e).1, Bit(n2 != 0), s2, c, c')
    decreases e.r, 3
  {
    hide Touch, Part, Agree, Distinct, Below, Covers, Keeps, Step, Run, GenExpr, GenCond, EvalExpr;
    var b, g := |em.blocks|, LogicOf(em, e);
    var k3, c3 := SimCond(p, At(g.em2, b), e.r, names, s1, c2);
    Chain(p, c, k2, c2, k3, c3);
    StepBr(p, g.em3, b + 1, c3);
    var c4 := Run(p, c3, 1);
    Chain(p, c, k2 + k3, c3, 1, c4);
    KeepsTrans(c.m.regs, c2.m.regs, c4.m.regs, em.nextReg, g.em1.nextReg);
    k, c' := FinishValue(p, em, g.em4, g.phi, EvalExpr(e.r, s1).1, c, k2 + k3 + 1, c4);
  }

  /** The blocks around a logical operator: what is still empty when, and what p contains. */
  lemma LogicParts(p: seq<Code>, em0: Emitter, em1: Emitter, em2: Emitter, jump: Instr, em3: Emitter,
                   em4: Emitter, phi: Instr, b: nat)
    requires b + 2 == |em0.blocks| && em0.cur < b && em0.blocks[b] == [] && em0.blocks[b + 1] == []
    requires Grows(em0, em1) && em2 == Emit(em1, jump)
    requires b + 1 < |em2.blocks| && Grows(At(em2, b), em3)
    requires em4 == At(Emit(em3, Br(Some(b + 1))), b + 1)
    requires Part(EmitValue(em4, phi).0.blocks, p)
    ensures em2.blocks[b] == [] && em4.blocks[b + 1] == []
    ensures em3.cur != em1.cur && em1.nextReg <= em3.nextReg && em0.nextReg <= em1.nextReg
    ensures em0.nextSlot <= em2.nextSlot
    ensures Part(em1.blocks, p) && Part(em2.blocks, p) && Part(em3.blocks, p)
    ensures Part(em4.blocks, p)
  {
    hide Part;
    PartBeforeValue(em4, phi, p);
    GrowsEmit(em3, Br(Some(b + 1)));
    PartBefore(em3.blocks, em4.blocks, p, {em3.cur});
    PartBefore(em2.blocks, em3.blocks, p, {b});
    GrowsEmit(em1, jump);
    PartBefore(em1.blocks, em2.blocks, p, {em1.cur});
  }
}
