/** What the code generator emits for scalar statements, as functions on the emitter's state.
    The class in Codegen.dfy does the same by updating its fields. */
module Lower {
  import opened Common
  import opened ScalarSource
  import opened Ir

  /** A context on the loop stack; a switch has no header. */
  datatype LoopCtx = LoopCtx(header: Option<nat>, exit: nat, tag: string)

  datatype EmitterState = Emitter(
    blocks: seq<Code>,             // the function's blocks in order of creation
    cur: nat,                      // the insertion block
    loops: seq<LoopCtx>,
    env: Scopes<nat>,              // variable name -> stack slot
    nextSlot: nat,
    nextReg: nat,
    errors: nat)

  type Emitter = em: EmitterState | em.cur < |em.blocks|
    witness Emitter([[]], 0, [], [], 0, 0, 0)

  // ----- the builder -------------------------------------------------------------------------

  predicate Open(em: Emitter) { !Terminated(em.blocks[em.cur]) }

  function Emit(em: Emitter, i: Instr): Emitter {
    em.(blocks := em.blocks[em.cur := em.blocks[em.cur] + [i]])
  }

  function At(em: Emitter, b: nat): Emitter
    requires b < |em.blocks|
  {
    em.(cur := b)
  }

  function NewBlocks(em: Emitter, n: nat): Emitter {
    em.(blocks := em.blocks + seq(n, _ => []))
  }

  function BrIfOpen(em: Emitter, b: nat): Emitter {
    if Open(em) then Emit(em, Br(Some(b))) else em
  }

  function PushEnv(em: Emitter): Emitter { em.(env := em.env + [map[]]) }

  function PopEnv(em: Emitter): Emitter { em.(env := Pop(em.env)) }

  /** A new stack slot for x in the current scope. */
  function DefineVar(em: Emitter, x: string): Emitter {
    em.(env := Define(em.env, x, em.nextSlot), nextSlot := em.nextSlot + 1)
  }

  function Error(em: Emitter): Emitter { em.(errors := em.errors + 1) }

  /** Emit an instruction whose result goes to the next register. */
  function EmitValue(em: Emitter, i: Instr): (Emitter, Operand) {
    (Emit(em.(nextReg := em.nextReg + 1), i), Reg(em.nextReg))
  }

  // ----- expressions -------------------------------------------------------------------------

  function ToBool(em: Emitter, v: Operand, isBool: bool): (Emitter, Operand) {
    if isBool then (em, v) else EmitValue(em, ICmp(em.nextReg, Ne, v, Const(0)))
  }

  /** Load, combine, store; the new value is the result. */
  function GenUpdate(em: Emitter, op: ArithOp, slot: nat, b: Operand): (r: (Emitter, Operand))
    ensures |r.0.blocks| == |em.blocks| && r.0.env == em.env && r.0.loops == em.loops
  {
    var (em1, a) := EmitValue(em, Load(em.nextReg, slot));
    var (em2, v) := EmitValue(em1, Binary(em1.nextReg, op, a, b));
    (Emit(em2, Store(v, slot)), v)
  }

  function GenExpr(em: Emitter, e: Expr): (r: (Emitter, Operand))
    ensures |r.0.blocks| >= |em.blocks|
    ensures r.0.env == em.env && r.0.loops == em.loops
    decreases e, 1
  {
    match e
    case Lit(n) => (em, Const(Wrap(n)))
    case Var(x) =>
      (match Find(em.env, x)
       case Some(slot) => EmitValue(em, Load(em.nextReg, slot))
       case None => (Error(em), Const(0)))
    case Arith(op, l, r) =>
      var (em1, a) := GenExpr(em, l);
      var (em2, b) := GenExpr(em1, r);
      EmitValue(em2, Binary(em2.nextReg, op, a, b))
    case Cmp(op, l, r) =>
      var (em1, a) := GenExpr(em, l);
      var (em2, b) := GenExpr(em1, r);
      EmitValue(em2, ICmp(em2.nextReg, op, a, b))
    case And(_, _) => GenLogic(em, e)
    case Or(_, _) => GenLogic(em, e)
    case Not(e1) =>
      var (em1, a) := GenCond(em, e1);
      EmitValue(em1, NotBit(em1.nextReg, a))
    case Neg(e1) =>
      var (em1, a) := GenExpr(em, e1);
      EmitValue(em1, Binary(em1.nextReg, Sub, Const(0), a))
    case Assign(x, e1) =>
      var (em1, a) := GenExpr(em, e1);
      (match Find(em.env, x)
       case Some(slot) => (Emit(em1, Store(a, slot)), a)
       case None => (Error(em1), a))
    case Compound(op, x, e1) =>
      var (em1, b) := GenExpr(em, e1);
      (match Find(em.env, x)
       case Some(slot) =>
         GenUpdate(em1, op, slot, b)
       case None => (Error(em1), b))
    case IncDec(x, up, prefix) =>
      (match Find(em.env, x)
       case Some(slot) =>
         var (em1, v) := GenUpdate(em, if up then Add else Sub, slot, Const(1));
         (em1, if prefix then v else Reg(em.nextReg))
       case None => (Error(em), Const(0)))
  }

  /** An expression used as a condition. */
  function GenCond(em: Emitter, e: Expr): (r: (Emitter, Operand))
    ensures |r.0.blocks| >= |em.blocks|
    ensures r.0.env == em.env && r.0.loops == em.loops
    decreases e, 2
  {
    var (em1, v) := GenExpr(em, e);
    ToBool(em1, v, e.IsBool())
  }

  /** Short-circuit && and ||: the right operand has a block of its own and a phi joins them. */
  function GenLogic(em: Emitter, e: Expr): (r: (Emitter, Operand))
    requires e.And? || e.Or?
    ensures |r.0.blocks| >= |em.blocks|
    ensures r.0.env == em.env && r.0.loops == em.loops
    decreases e, 0
  {
    var k := |em.blocks|;
    var (em1, a) := GenCond(NewBlocks(em, 2), e.l);
    var em2 := Emit(em1, if e.And? then CondBr(a, k, k + 1) else CondBr(a, k + 1, k));
    var (em3, b) := GenCond(At(em2, k), e.r);
    var em4 := At(Emit(em3, Br(Some(k + 1))), k + 1);
    EmitValue(em4, Phi(em4.nextReg, em1.cur, if e.And? then Const(0) else a, em3.cur, b))
  }

  // ----- statements --------------------------------------------------------------------------

  /** The emitter's counterpart of TargetLevel. */
  function LastWithTag(loops: seq<LoopCtx>, l: string): (r: Option<nat>)
    ensures r.Some? ==> r.value < |loops|
  {
    if |loops| == 0 then None
    else if loops[|loops| - 1].tag == l then Some(|loops| - 1)
    else LastWithTag(loops[..|loops| - 1], l)
  }

  function GenStmts(em: Emitter, ss: seq<Stmt>): (r: Emitter)
    ensures |r.blocks| >= |em.blocks| && r.loops == em.loops && |r.env| == |em.env|
    decreases ss, 0
  {
    if ss == [] then em
    else GenStmts(if Open(em) then GenStmt(em, ss[0]) else em, ss[1..])
  }

  function GenBlock(em: Emitter, ss: seq<Stmt>): (r: Emitter)
    ensures |r.blocks| >= |em.blocks| && r.loops == em.loops && |r.env| == |em.env|
    decreases ss, 1
  {
    PopEnv(GenStmts(PushEnv(em), ss))
  }

  function GenStmt(em: Emitter, s: Stmt): (r: Emitter)
    ensures |r.blocks| >= |em.blocks| && r.loops == em.loops && |r.env| == |em.env|
    decreases s, 1
  {
    match s
    case Eval(e) => GenExpr(em, e).0
    case Print(e) => GenPrint(em, e)
    case Decl(x, init) => GenVarDecl(em, x, init)
    case Block(body) => GenBlock(em, body)
    case If(_, _, _) => GenIf(em, s)
    case While(_, _, _) => GenWhile(em, s)
    case DoWhile(_, _) => GenDoWhile(em, s)
    case ForRange(_, _, _, _, _) => GenForRange(em, s)
    case ForC(_, _, _, _, _) => GenForC(em, s)
    case Switch(_, _) => GenSwitch(em, s)
    case Break(target) => GenBreak(em, target)
    case Continue(target) => GenContinue(em, target)
    case Return(value) => GenReturn(em, value)
  }

  function GenPrint(em: Emitter, e: Expr): (r: Emitter)
    ensures |r.blocks| >= |em.blocks| && r.loops == em.loops && r.env == em.env
  {
    var (em1, v) := GenExpr(em, e);
    Emit(em1, CallPrint(v))
  }

  function GenVarDecl(em: Emitter, x: string, init: Option<Expr>): (r: Emitter)
    ensures |r.blocks| >= |em.blocks| && r.loops == em.loops && |r.env| == |em.env|
  {
    match init
    case None => DefineVar(Emit(em, Store(Const(0), em.nextSlot)), x)
    case Some(e) =>
      var (em1, v) := GenExpr(em, e);
      DefineVar(Emit(em1, Store(v, em1.nextSlot)), x)
  }

  function GenIf(em: Emitter, s: Stmt): (r: Emitter)
    requires s.If?
    ensures |r.blocks| >= |em.blocks| && r.loops == em.loops && |r.env| == |em.env|
    decreases s, 0
  {
    var (em1, v) := GenCond(em, s.cond);
    var k := |em1.blocks|;
    var em2 := Emit(NewBlocks(em1, 3), CondBr(v, k, k + 1));
    var em3 := BrIfOpen(GenBlock(At(em2, k), s.thenBr), k + 2);
    var em4 := BrIfOpen(GenBlock(At(em3, k + 1), s.elseBr), k + 2);
    At(em4, k + 2)
  }

  function GenWhile(em: Emitter, s: Stmt): (r: Emitter)
    requires s.While?
    ensures |r.blocks| >= |em.blocks| && r.loops == em.loops && |r.env| == |em.env|
    decreases s, 0
  {
    var k := |em.blocks|;
    var em1 := Emit(NewBlocks(em, 3), Br(Some(k)));
    GenLoop(em1, Shape(k, k + 1, k, k + 2), LabelText(s.tag), TestExpr(s.cond), None, s.body)
  }

  function GenDoWhile(em: Emitter, s: Stmt): (r: Emitter)
    requires s.DoWhile?
    ensures |r.blocks| >= |em.blocks| && r.loops == em.loops && |r.env| == |em.env|
    decreases s, 0
  {
    var k := |em.blocks|;
    var em1 := At(Emit(NewBlocks(em, 3), Br(Some(k))), k);
    var em2 := GenLoopBody(em1, LoopCtx(Some(k + 1), k + 2, ""), s.body);
    var (em3, v) := GenCond(At(em2, k + 1), s.cond);
    At(Emit(em3, CondBr(v, k, k + 2)), k + 2)
  }

  /** The blocks, the loop variable and the bounds, up to the branch to the header.  The variable
      is in scope before the bounds are generated. */
  function RangeHead(em: Emitter, s: Stmt): (r: (Emitter, Operand))
    requires s.ForRange?
    ensures |r.0.blocks| >= |em.blocks| + 4 && r.0.loops == em.loops
    ensures |r.0.env| == |em.env| + 1
  {
    var em1 := DefineVar(PushEnv(NewBlocks(em, 4)), s.x);
    var (em2, a) := GenExpr(em1, s.lo);
    var (em3, b) := GenExpr(em2, s.hi);
    (Emit(Emit(em3, Store(a, em.nextSlot)), Br(Some(|em.blocks|))), b)
  }

  function GenForRange(em: Emitter, s: Stmt): (r: Emitter)
    requires s.ForRange?
    ensures |r.blocks| >= |em.blocks| && r.loops == em.loops && |r.env| == |em.env|
    decreases s, 0
  {
    var k, slot := |em.blocks|, em.nextSlot;
    var (em1, hi) := RangeHead(em, s);
    PopEnv(GenLoop(em1, Shape(k, k + 1, k + 2, k + 3), "", TestRange(slot, hi, s.inclusive),
                   Some(IncDec(s.x, true, true)), s.body))
  }

  function ForHead(em: Emitter, s: Stmt): (r: Emitter)
    requires s.ForC?
    ensures |r.blocks| >= |em.blocks| + 4 && r.loops == em.loops && |r.env| == |em.env| + 1
  {
    var em1 := DefineVar(PushEnv(NewBlocks(em, 4)), s.x);
    var (em2, a) := GenExpr(em1, s.start);
    Emit(Emit(em2, Store(a, em.nextSlot)), Br(Some(|em.blocks|)))
  }

  function GenForC(em: Emitter, s: Stmt): (r: Emitter)
    requires s.ForC?
    ensures |r.blocks| >= |em.blocks| && r.loops == em.loops && |r.env| == |em.env|
    decreases s, 0
  {
    var k := |em.blocks|;
    PopEnv(GenLoop(ForHead(em, s), Shape(k, k + 1, k + 2, k + 3), "", TestExpr(s.cond),
                   Some(s.incr), s.body))
  }

  /** The exit block, the value, the switch instruction and one block per case; also the number of
      the first case block. */
  function SwitchHead(em: Emitter, s: Stmt): (r: (Emitter, nat))
    requires s.Switch?
    ensures |r.0.blocks| == r.1 + |s.cases| && r.1 > |em.blocks|
    ensures r.0.loops == em.loops && r.0.env == em.env
  {
    var (em1, v) := GenExpr(NewBlocks(em, 1), s.e);
    var c := |em1.blocks|;
    var em2 := Emit(em1, SwitchBr(v, DefaultBlock(s.cases, c, |em.blocks|), Arms(s.cases, c)));
    (NewBlocks(em2, |s.cases|), c)
  }

  function GenSwitch(em: Emitter, s: Stmt): (r: Emitter)
    requires s.Switch?
    ensures |r.blocks| >= |em.blocks| && r.loops == em.loops && |r.env| == |em.env|
    decreases s, 0
  {
    var k := |em.blocks|;
    var (em1, c) := SwitchHead(em, s);
    var em2 := em1.(loops := em1.loops + [LoopCtx(None, k, "")]);
    var em3 := GenCases(em2, s.cases, 0, c, k);
    At(em3.(loops := em.loops), k)
  }

  function GenBreak(em: Emitter, target: Option<string>): (r: Emitter)
    ensures |r.blocks| == |em.blocks| && r.loops == em.loops && r.env == em.env
  {
    if em.loops == [] then em
    else match target
         case None => Emit(em, Br(Some(em.loops[|em.loops| - 1].exit)))
         case Some(l) =>
           match LastWithTag(em.loops, l)
           case Some(i) => Emit(em, Br(Some(em.loops[i].exit)))
           case None => Error(em)
  }

  function GenContinue(em: Emitter, target: Option<string>): (r: Emitter)
    ensures |r.blocks| == |em.blocks| && r.loops == em.loops && r.env == em.env
  {
    if em.loops == [] then em
    else match target
         case None => Emit(em, Br(em.loops[|em.loops| - 1].header))
         case Some(l) =>
           match LastWithTag(em.loops, l)
           case Some(i) => Emit(em, Br(em.loops[i].header))
           case None => Error(em)
  }

  function GenReturn(em: Emitter, value: Option<Expr>): (r: Emitter)
    ensures |r.blocks| >= |em.blocks| && r.loops == em.loops && r.env == em.env
  {
    match value
    case None => Emit(em, Ret(None))
    case Some(e) =>
      var (em1, v) := GenExpr(em, e);
      Emit(em1, Ret(Some(v)))
  }

  function Arms(cases: seq<Case>, c: nat): seq<(int, nat)> {
    if cases == [] then []
    else match cases[0].value
         case Some(n) => [(n, c)] + Arms(cases[1..], c + 1)
         case None => Arms(cases[1..], c + 1)
  }

  /** The last default wins; without one the switch leaves through its exit. */
  function DefaultBlock(cases: seq<Case>, c: nat, exit: nat): nat {
    match LastDefault(cases) case Some(i) => c + i case None => exit
  }

  /** Case bodies; one that is still open at its end falls into the next block. */
  function GenCases(em: Emitter, cases: seq<Case>, i: nat, c: nat, exit: nat): (r: Emitter)
    requires i <= |cases| && c + |cases| <= |em.blocks|
    ensures |r.blocks| >= |em.blocks| && r.loops == em.loops && |r.env| == |em.env|
    decreases cases, |cases| - i
  {
    if i == |cases| then em
    else
      var em1 := GenBlock(At(em, c + i), cases[i].body);
      GenCases(BrIfOpen(em1, if i + 1 < |cases| then c + i + 1 else exit), cases, i + 1, c, exit)
  }

  // ----- the parts loops share ---------------------------------------------------------------

  /** Where the blocks of a loop are: a while loop continues at its header. */
  datatype Shape = Shape(header: nat, body: nat, cont: nat, exit: nat)

  datatype Test = TestExpr(e: Expr) | TestRange(slot: nat, hi: Operand, inclusive: bool)

  function GenTest(em: Emitter, t: Test): (r: (Emitter, Operand))
    ensures |r.0.blocks| >= |em.blocks|
    ensures r.0.env == em.env && r.0.loops == em.loops
  {
    match t
    case TestExpr(e) => GenCond(em, e)
    case TestRange(slot, hi, inclusive) =>
      var (em1, i) := EmitValue(em, Load(em.nextReg, slot));
      EmitValue(em1, ICmp(em1.nextReg, if inclusive then Le else Lt, i, hi))
  }

  /** A body under its loop context; when it is still open it goes on to the continue target. */
  function GenLoopBody(em: Emitter, loop: LoopCtx, body: seq<Stmt>): (r: Emitter)
    requires loop.header.Some?
    ensures |r.blocks| >= |em.blocks| && r.loops == em.loops && |r.env| == |em.env|
    decreases body, 2
  {
    var em1 := GenBlock(em.(loops := em.loops + [loop]), body);
    BrIfOpen(em1.(loops := em.loops), loop.header.value)
  }

  /** Header, body, optional increment block, exit. */
  function GenLoop(em: Emitter, sh: Shape, tag: string, test: Test, incr: Option<Expr>,
                   body: seq<Stmt>): (r: Emitter)
    requires sh.header < |em.blocks| && sh.body < |em.blocks|
    requires sh.cont < |em.blocks| && sh.exit < |em.blocks|
    ensures |r.blocks| >= |em.blocks| && r.loops == em.loops && |r.env| == |em.env|
    decreases body, 3
  {
    var (em1, v) := GenTest(At(em, sh.header), test);
    var em2 := At(Emit(em1, CondBr(v, sh.body, sh.exit)), sh.body);
    var em3 := GenLoopBody(em2, LoopCtx(Some(sh.cont), sh.exit, tag), body);
    var em4 :=
      match incr
      case None => em3
      case Some(e) => Emit(GenExpr(At(em3, sh.cont), e).0, Br(Some(sh.header)));
    At(em4, sh.exit)
  }

  // ----- functions ---------------------------------------------------------------------------

  /** Parameters arrive in the first registers and are stored to slots. */
  function GenParams(em: Emitter, params: seq<string>, i: nat): (r: Emitter)
    requires i <= |params|
    decreases |params| - i
  {
    if i == |params| then em
    else GenParams(DefineVar(Emit(em, Store(Reg(i), em.nextSlot)), params[i]), params, i + 1)
  }

  function Start(f: Function): Emitter {
    GenParams(Emitter([[]], 0, [], [map[]], 0, |f.params|, 0), f.params, 0)
  }

  /** The blocks of a function, with the implicit return at an open end. */
  function GenFunc(f: Function): Emitter {
    var em := GenStmts(Start(f), f.body);
    PopEnv(if Open(em) then Emit(em, Ret(if f.isVoid then None else Some(Const(0)))) else em)
  }

  function Compiled(f: Function): seq<Code> { GenFunc(f).blocks }
}
