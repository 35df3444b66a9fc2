/** Running the emitted code of a statement does what the statement means, whatever the rest of the function
    is and however often it is run. */
module LowerSim {
  import opened Common
  import opened ScalarSource
  import opened ScalarCheck
  import opened Ir
  import opened Lower
  import opened LowerFrame
  import opened LowerAgree
  import opened LowerSimExpr

  /** The source's view of the loop stack. */
  function Nests(loops: seq<LoopCtx>): seq<Nest> {
    seq(|loops|, i requires 0 <= i < |loops| => Nest(loops[i].tag, loops[i].header.Some?))
  }

  lemma {:induction false} TagsMatch(loops: seq<LoopCtx>, l: string)
    ensures LastWithTag(loops, l) == LastWithLabel(Nests(loops), l)
  {
    if |loops| > 0 {
      assert Nests(loops)[..|loops| - 1] == Nests(loops[..|loops| - 1]);
      TagsMatch(loops[..|loops| - 1], l);
    }
  }

  /** The machine has jumped to a block whose variables are those of je. */
  predicate JumpDone(em: Emitter, target: nat, je: Scopes<nat>, js: Store, out: seq<int>, c: Machine,
                     c': Machine)
  {
    && c.Running? && c'.Running? && c'.b == target && c'.pc == 0
    && Agree(je, js, c'.m.slots)
    && c'.m.out == out
    && Keeps(c.m.regs, c'.m.regs, em.nextReg)
  }

  /** What k steps from c to c' achieve for a statement with outcome o.  A jump lands on the block
      that the loop stack names; an exhausted budget means the machine has run that long. */
  predicate StmtDone(em: Emitter, em': Emitter, je: Scopes<nat>, js: Store, o: Outcome, st': State,
                     fuel: nat, c: Machine, k: nat, c': Machine)
  {
    && c.Running?
    && match o
       case Normal =>
         && AtEnd(em', c') && Open(em')
         && Agree(em'.env, st'.store, c'.m.slots)
         && c'.m.out == st'.out
         && Keeps(c.m.regs, c'.m.regs, em.nextReg)
       case BreakTo(i) =>
         i < |em.loops| && JumpDone(em, em.loops[i].exit, je, js, st'.out, c, c')
       case ContinueTo(i) =>
         && i < |em.loops| && em.loops[i].header.Some?
         && JumpDone(em, em.loops[i].header.value, je, js, st'.out, c, c')
       case Returned(v) => c' == Done(v, st'.out)
       case Wrong => c' == Stuck(st'.out)
       case Timeout => c'.Running? && k >= fuel && c'.m.out == st'.out
  }

  predicate StmtReady(em: Emitter, names: set<string>, st: State, c: Machine) {
    ExprReady(em, names, st.store, c) && Open(em) && c.m.out == st.out
  }

  /** Put k1 steps in front of a finished statement; they count toward the budget. */
  lemma After(p: seq<Code>, em: Emitter, em1: Emitter, em': Emitter, je: Scopes<nat>, js: Store,
              o: Outcome, st': State, fuel: nat, fuel2: nat, c: Machine, k1: nat, c1: Machine, k2: nat,
              c2: Machine)
    requires c.Running? && c1.Running? && Run(p, c, k1) == c1 && Run(p, c1, k2) == c2
    requires Keeps(c.m.regs, c1.m.regs, em.nextReg) && em.nextReg <= em1.nextReg
    requires em1.loops == em.loops && fuel <= k1 + fuel2
    requires StmtDone(em1, em', je, js, o, st', fuel2, c1, k2, c2)
    ensures Run(p, c, k1 + k2) == c2
    ensures StmtDone(em, em', je, js, o, st', fuel, c, k1 + k2, c2)
  {
    hide Agree, Run;
    Chain(p, c, k1, c1, k2, c2);
  }

  /** A finished block is a finished statement. */
  lemma Weaken(em: Emitter, em': Emitter, je: Scopes<nat>, js: Store, o: Outcome, st': State,
               fuel: nat, c: Machine, k: nat, c': Machine)
    requires StmtDone(em, em', je, js, o, st', fuel, c, k, c')
    ensures StmtDone(em, em', Pop(je), Pop(js), o, st', fuel, c, k, c')
  {
    hide Agree, Keeps;
    if o.BreakTo? || o.ContinueTo? { PopAgrees(je, js, c'.m.slots); }
  }

  /** What a statement does to the environment. */
  lemma StmtEnv(em: Emitter, s: Stmt, names: set<string>)
    requires EnvOk(em.env, em.nextSlot) && Covers(em.env, names)
    ensures var em' := GenStmt(em, s);
            EnvOk(em'.env, em'.nextSlot) && Covers(em'.env, names + Declared(s))
  {
    hide Touch, Distinct, Below, Covers, GenBlock, GenPrint, GenIf, GenWhile, GenDoWhile, GenForRange,
      GenForC, GenSwitch, GenBreak, GenContinue, GenReturn, GenExpr;
    GrowsStmt(em, s);
    var em' := GenStmt(em, s);
    match s {
      case Decl(x, None) =>
        DefineOk(em.env, x, em.nextSlot);
        CoversDefine(em.env, names, x, em.nextSlot);
      case Decl(x, Some(e)) =>
        var em1 := GenExpr(em, e).0;
        GrowsExpr(em, e);
        EnvOkLater(em.env, em.nextSlot, em1.nextSlot);
        DefineOk(em.env, x, em1.nextSlot);
        CoversDefine(em.env, names, x, em1.nextSlot);
      case _ =>
        EnvOkLater(em.env, em.nextSlot, em'.nextSlot);
        assert names + Declared(s) == names;
    }
  }

  // ----- sequences and blocks ----------------------------------------------------------------

  lemma {:induction false} SimStmts(p: seq<Code>, em: Emitter, ss: seq<Stmt>, names: set<string>,
                                    st: State, fuel: nat, c: Machine) returns (k: nat, c': Machine)
    requires StmtReady(em, names, st, c) && ScopedStmts(ss, names)
    requires Part(GenStmts(em, ss).blocks, p)
    ensures Run(p, c, k) == c'
    ensures var (o, st') := ExecStmts(ss, Nests(em.loops), st, fuel);
            StmtDone(em, GenStmts(em, ss), Pop(em.env), Pop(st'.store), o, st', fuel, c, k, c')
    decreases fuel, ss, 0
  {
    hide Touch, Part, Agree, Distinct, Below, Covers, Keeps, GenStmt, ExecStmt;
    if ss == [] {
      k, c' := 0, c;
      KeepsSelf(c.m.regs, em.nextReg);
    } else {
      var em1 := GenStmt(em, ss[0]);
      GrowsStmt(em, ss[0]);
      GrowsStmts(em1, ss[1..]);
      PartBefore(em1.blocks, GenStmts(em, ss).blocks, p, {em1.cur});
      k, c' := SimStmt(p, em, ss[0], names, st, fuel, c);
      var (o, st1) := ExecStmt(ss[0], Nests(em.loops), st, fuel);
      if o.Normal? {
        StmtEnv(em, ss[0], names);
        var k2, c2 := SimStmts(p, em1, ss[1..], names + Declared(ss[0]), st1, fuel, c');
        var (o2, st2) := ExecStmts(ss[1..], Nests(em.loops), st1, fuel);
        assert Pop(em1.env) == Pop(em.env);
        After(p, em, em1, GenStmts(em, ss), Pop(em.env), Pop(st2.store), o2, st2, fuel, fuel,
              c, k, c', k2, c2);
        k, c' := k + k2, c2;
      }
    }
  }

  lemma {:induction false} SimBlock(p: seq<Code>, em: Emitter, ss: seq<Stmt>, names: set<string>,
                                    st: State, fuel: nat, c: Machine) returns (k: nat, c': Machine)
    requires StmtReady(em, names, st, c) && ScopedStmts(ss, names)
    requires Part(GenBlock(em, ss).blocks, p)
    ensures Run(p, c, k) == c'
    ensures var (o, st') := ExecBlock(ss, Nests(em.loops), st, fuel);
            StmtDone(em, GenBlock(em, ss), em.env, st'.store, o, st', fuel, c, k, c')
    decreases fuel, ss, 1
  {
    hide Touch, Part, Agree, Distinct, Below, Covers, Keeps, GenStmts, ExecStmts;
    var em0 := PushEnv(em);
    PushAgrees(em.env, st.store, c.m.slots);
    PushOk(em.env, em.nextSlot);
    CoversPush(em.env, names);
    var st0 := st.(store := st.store + [map[]]);
    k, c' := SimStmts(p, em0, ss, names, st0, fuel, c);
    var (o, st1) := ExecStmts(ss, Nests(em.loops), st0, fuel);
    GrowsBlock(em, ss);
    assert Pop(em0.env) == em.env;
    if o.Normal? { PopAgrees(GenStmts(em0, ss).env, st1.store, c'.m.slots); }
  }

  // ----- statements --------------------------------------------------------------------------

  lemma {:induction false} SimStmt(p: seq<Code>, em: Emitter, s: Stmt, names: set<string>, st: State,
                                   fuel: nat, c: Machine) returns (k: nat, c': Machine)
    requires StmtReady(em, names, st, c) && ScopedStmt(s, names) && Part(GenStmt(em, s).blocks, p)
    ensures Run(p, c, k) == c'
    ensures var (o, st') := ExecStmt(s, Nests(em.loops), st, fuel);
            StmtDone(em, GenStmt(em, s), Pop(em.env), Pop(st'.store), o, st', fuel, c, k, c')
    decreases fuel, s, 3
  {
    hide StmtReady, StmtDone, Part, GenBlock, ExecBlock, EvalExpr, GenExpr, Run;
    match s {
      case Eval(_) => k, c' := SimSimple(p, em, s, names, st, fuel, c);
      case Print(_) => k, c' := SimSimple(p, em, s, names, st, fuel, c);
      case Decl(_, _) => k, c' := SimDecl(p, em, s, names, st, fuel, c);
      case Block(body) =>
        k, c' := SimBlock(p, em, body, names, st, fuel, c);
        var (o, st') := ExecBlock(body, Nests(em.loops), st, fuel);
        Weaken(em, GenBlock(em, body), em.env, st'.store, o, st', fuel, c, k, c');
      case If(_, _, _) => k, c' := SimIf(p, em, s, names, st, fuel, c);
      case While(_, _, _) => k, c' := SimWhile(p, em, s, names, st, fuel, c);
      case DoWhile(_, _) => k, c' := SimDoWhile(p, em, s, names, st, fuel, c);
      case ForRange(_, _, _, _, _) => k, c' := SimForRange(p, em, s, names, st, fuel, c);
      case ForC(_, _, _, _, _) => k, c' := SimForC(p, em, s, names, st, fuel, c);
      case Switch(_, _) => k, c' := SimSwitch(p, em, s, names, st, fuel, c);
      case Break(_) => k, c' := SimJump(p, em, s, names, st, fuel, c);
      case Continue(_) => k, c' := SimJump(p, em, s, names, st, fuel, c);
      case Return(_) => k, c' := SimReturn(p, em, s, names, st, fuel, c);
    }
  }

  lemma {:induction false} SimSimple(p: seq<Code>, em: Emitter, s: Stmt, names: set<string>, st: State,
                                    fuel: nat, c: Machine) returns (k: nat, c': Machine)
    requires s.Eval? || s.Print?
    requires StmtReady(em, names, st, c) && ScopedStmt(s, names) && Part(GenStmt(em, s).blocks, p)
    ensures Run(p, c, k) == c'
    ensures var (o, st') := ExecStmt(s, Nests(em.loops), st, fuel);
            StmtDone(em, GenStmt(em, s), Pop(em.env), Pop(st'.store), o, st', fuel, c, k, c')
  {
    hide Touch, Part, Agree, Distinct, Below, Covers, Keeps,
      GenBlock, ExecBlock, EvalExpr, GenExpr, Run;
    var (em1, v) := GenExpr(em, s.e);
    ExprOpen(em, s.e);
    if s.Eval? {
      k, c' := SimExpr(p, em, s.e, names, st.store, c);
    } else {
      GrowsEmit(em1, CallPrint(v));
      PartBefore(em1.blocks, GenStmt(em, s).blocks, p, {em1.cur});
      var k1, c1 := SimExpr(p, em, s.e, names, st.store, c);
      StepEmitted(p, em1, CallPrint(v), c1);
      c' := Step(p, c1);
      k := k1 + 1;
      Chain(p, c, k1, c1, 1, c');
    }
  }

  /** Storing an initial value to a fresh slot. */
  lemma StoreFresh(p: seq<Code>, em: Emitter, v: Operand, x: string, s: Store, c: Machine)
    requires AtEnd(em, c) && EnvOk(em.env, em.nextSlot) && Agree(em.env, s, c.m.slots)
    requires Part(Emit(em, Store(v, em.nextSlot)).blocks, p)
    ensures var c' := Run(p, c, 1);
            && AtEnd(DefineVar(Emit(em, Store(v, em.nextSlot)), x), c')
            && Agree(Define(em.env, x, em.nextSlot), Define(s, x, Value(v, c.m.regs)), c'.m.slots)
            && c'.m.regs == c.m.regs && c'.m.out == c.m.out
  {
    hide Part, Agree, Distinct, Below;
    StepEmitted(p, em, Store(v, em.nextSlot), c);
    DefineAgrees(em.env, s, c.m.slots, x, Value(v, c.m.regs), em.nextSlot);
  }

  lemma {:induction false} SimDecl(p: seq<Code>, em: Emitter, s: Stmt, names: set<string>, st: State,
                                    fuel: nat, c: Machine) returns (k: nat, c': Machine)
    requires s.Decl?
    requires StmtReady(em, names, st, c) && ScopedStmt(s, names) && Part(GenStmt(em, s).blocks, p)
    ensures Run(p, c, k) == c'
    ensures var (o, st') := ExecStmt(s, Nests(em.loops), st, fuel);
            StmtDone(em, GenStmt(em, s), Pop(em.env), Pop(st'.store), o, st', fuel, c, k, c')
  {
    hide Touch, Part, Agree, Distinct, Below, Covers, Keeps, Run, Step, GenReturn, Define, GenIf,
      GenWhile, GenDoWhile, GenForRange, GenForC, GenSwitch, GenPrint, GenBlock, GenExpr, ExecBlock, ExecLoop, ExecDo,
      ExecCases, EvalExpr;
    match s.init {
      case None =>
        StoreFresh(p, em, Const(0), s.x, st.store, c);
        k, c' := 1, Run(p, c, 1);
        KeepsSelf(c.m.regs, em.nextReg);
      case Some(e) =>
        var (em1, v) := GenExpr(em, e);
        GrowsExpr(em, e);
        GrowsEmit(em1, Store(v, em1.nextSlot));
        PartBefore(em1.blocks, GenStmt(em, s).blocks, p, {em1.cur});
        var k1, c1 := SimExpr(p, em, e, names, st.store, c);
        EnvOkLater(em.env, em.nextSlot, em1.nextSlot);
        StoreFresh(p, em1, v, s.x, EvalExpr(e, st.store).1, c1);
        k, c' := k1 + 1, Run(p, c1, 1);
        Chain(p, c, k1, c1, 1, c');
    }
  }

  function ResultValue(r: Option<Operand>, regs: map<nat, int>): Option<int> {
    match r case None => None case Some(v) => Some(Value(v, regs))
  }

  lemma StepRet(p: seq<Code>, em: Emitter, r: Option<Operand>, c: Machine)
    requires AtEnd(em, c) && Part(Emit(em, Ret(r)).blocks, p)
    ensures Run(p, c, 1) == Done(ResultValue(r, c.m.regs), c.m.out)
  {
    hide Part, Run;
    StepEmitted(p, em, Ret(r), c);
  }

  lemma {:induction false} SimReturn(p: seq<Code>, em: Emitter, s: Stmt, names: set<string>, st: State,
                                    fuel: nat, c: Machine) returns (k: nat, c': Machine)
    requires s.Return?
    requires StmtReady(em, names, st, c) && ScopedStmt(s, names) && Part(GenStmt(em, s).blocks, p)
    ensures Run(p, c, k) == c'
    ensures var (o, st') := ExecStmt(s, Nests(em.loops), st, fuel);
            StmtDone(em, GenStmt(em, s), Pop(em.env), Pop(st'.store), o, st', fuel, c, k, c')
  {
    hide Touch, Part, Agree, Distinct, Below, Covers, Keeps, Run, Step, GenVarDecl, GenIf,
      GenWhile, GenDoWhile, GenForRange, GenForC, GenSwitch, GenPrint, GenBlock, GenExpr, ExecBlock, ExecLoop, ExecDo,
      ExecCases, EvalExpr;
    match s.value {
      case None =>
        StepRet(p, em, None, c);
        k, c' := 1, Run(p, c, 1);
      case Some(e) =>
        var (em1, v) := GenExpr(em, e);
        GrowsEmit(em1, Ret(Some(v)));
        PartBefore(em1.blocks, GenStmt(em, s).blocks, p, {em1.cur});
        var k1, c1 := SimExpr(p, em, e, names, st.store, c);
        StepRet(p, em1, Some(v), c1);
        c' := Run(p, c1, 1);
        k := k1 + 1;
        Chain(p, c, k1, c1, 1, c');
    }
  }

  /** A jump that has no target does nothing. */
  lemma StayPut(p: seq<Code>, em: Emitter, s: Stmt, names: set<string>, st: State, fuel: nat, c: Machine)
    requires (s.Break? || s.Continue?) && TargetLevel(Nests(em.loops), s.target).None?
    requires StmtReady(em, names, st, c)
    ensures Run(p, c, 0) == c
    ensures var (o, st') := ExecStmt(s, Nests(em.loops), st, fuel);
            StmtDone(em, GenStmt(em, s), Pop(em.env), Pop(st'.store), o, st', fuel, c, 0, c)
  {
    hide Touch, Part, Agree, Distinct, Below, Covers, Keeps, Run, Step, LastWithTag, LastWithLabel, GenReturn,
      GenVarDecl, GenIf, GenWhile, GenDoWhile, GenForRange, GenForC, GenSwitch, GenPrint, GenBlock,
      GenExpr, ExecBlock, ExecLoop, ExecDo, ExecCases, EvalExpr;
    if s.target.Some? { TagsMatch(em.loops, s.target.value); }
    RunZero(p, c);
    KeepsSelf(c.m.regs, em.nextReg);
  }

  /** A jump to the loop or switch that is meant. */
  lemma JumpThere(p: seq<Code>, em: Emitter, s: Stmt, names: set<string>, st: State, fuel: nat, c: Machine)
    requires (s.Break? || s.Continue?) && TargetLevel(Nests(em.loops), s.target).Some?
    requires StmtReady(em, names, st, c) && Part(GenStmt(em, s).blocks, p)
    ensures Run(p, c, 1) == Step(p, c)
    ensures var (o, st') := ExecStmt(s, Nests(em.loops), st, fuel);
            StmtDone(em, GenStmt(em, s), Pop(em.env), Pop(st'.store), o, st', fuel, c, 1, Step(p, c))
  {
    hide Touch, Part, Agree, Distinct, Below, Covers, Keeps, Run, Open, LastWithTag, LastWithLabel, GenReturn,
      GenVarDecl, GenIf, GenWhile, GenDoWhile, GenForRange, GenForC, GenSwitch, GenPrint, GenBlock,
      GenExpr, ExecBlock, ExecLoop, ExecDo, ExecCases, EvalExpr;
    if s.target.Some? { TagsMatch(em.loops, s.target.value); }
    var i := TargetLevel(Nests(em.loops), s.target).value;
    var t := if s.Break? then Some(em.loops[i].exit) else em.loops[i].header;
    KeepsSelf(c.m.regs, em.nextReg);
    PopAgrees(em.env, st.store, c.m.slots);
    assert GenStmt(em, s) == Emit(em, Br(t));
    StepEmitted(p, em, Br(t), c);
  }

  lemma {:induction false} SimJump(p: seq<Code>, em: Emitter, s: Stmt, names: set<string>, st: State,
                                    fuel: nat, c: Machine) returns (k: nat, c': Machine)
    requires s.Break? || s.Continue?
    requires StmtReady(em, names, st, c) && ScopedStmt(s, names) && Part(GenStmt(em, s).blocks, p)
    ensures Run(p, c, k) == c'
    ensures var (o, st') := ExecStmt(s, Nests(em.loops), st, fuel);
            StmtDone(em, GenStmt(em, s), Pop(em.env), Pop(st'.store), o, st', fuel, c, k, c')
  {
    hide StmtReady, StmtDone, Part, GenStmt, ExecStmt, Run, Step, Nests, TargetLevel;
    if TargetLevel(Nests(em.loops), s.target).None? {
      StayPut(p, em, s, names, st, fuel, c);
      k, c' := 0, c;
    } else {
      JumpThere(p, em, s, names, st, fuel, c);
      k, c' := 1, Step(p, c);
    }
  }

  // ----- if ----------------------------------------------------------------------------------

  /** One branch: the block and the jump to where the branches meet. */
  lemma {:induction false} SimBranch(p: seq<Code>, em: Emitter, em2: Emitter, body: seq<Stmt>, join: nat,
                                     em': Emitter, names: set<string>, st: State, fuel: nat,
                                     c: Machine, k2: nat, c2: Machine) returns (k: nat, c': Machine)
    requires StmtReady(em2, names, st, c2) && ScopedStmts(body, names)
    requires em2.loops == em.loops && em2.env == em.env && em.nextReg <= em2.nextReg
    requires em'.cur == join && em'.blocks[join] == [] && em'.env == em.env
    requires Part(BrIfOpen(GenBlock(em2, body), join).blocks, p)
    requires c.Running? && Run(p, c, k2) == c2 && Keeps(c.m.regs, c2.m.regs, em.nextReg)
    ensures Run(p, c, k) == c'
    ensures var (o, st') := ExecBlock(body, Nests(em.loops), st, fuel);
            StmtDone(em, em', em.env, st'.store, o, st', fuel, c, k, c')
    decreases fuel, body, 2
  {
    hide Touch, Part, Agree, Distinct, Below, Covers, Keeps, GenBlock, ExecBlock, Run, Step;
    var em3 := GenBlock(em2, body);
    GrowsBlock(em2, body);
    GrowsBrIfOpen(em3, em3, join) by { GrowsSelf(em3); }
    PartBefore(em3.blocks, BrIfOpen(em3, join).blocks, p, {em3.cur});
    var k3, c3 := SimBlock(p, em2, body, names, st, fuel, c2);
    var (o, st') := ExecBlock(body, Nests(em.loops), st, fuel);
    After(p, em, em2, em3, em.env, st'.store, o, st', fuel, fuel, c, k2, c2, k3, c3);
    k, c' := k2 + k3, c3;
    if o.Normal? {
      StepBr(p, em3, join, c3);
      c' := Run(p, c3, 1);
      Chain(p, c, k, c3, 1, c');
      k := k + 1;
    }
  }

  lemma GrowsSelf(em: Emitter)
    ensures Grows(em, em)
  {}

  /** The stages of emitting an if. */
  datatype IfCode = IfCode(em1: Emitter, v: Operand, k: nat, em2: Emitter, em3: Emitter, em4: Emitter)

  function IfOf(em: Emitter, s: Stmt): (r: IfCode)
    requires s.If?
    ensures r.k + 2 < |r.em4.blocks| && r.k + 1 < |r.em3.blocks| && r.k < |r.em2.blocks|
  {
    var (em1, v) := GenCond(em, s.cond);
    var k := |em1.blocks|;
    var em2 := Emit(NewBlocks(em1, 3), CondBr(v, k, k + 1));
    var em3 := BrIfOpen(GenBlock(At(em2, k), s.thenBr), k + 2);
    var em4 := BrIfOpen(GenBlock(At(em3, k + 1), s.elseBr), k + 2);
    IfCode(em1, v, k, em2, em3, em4)
  }

  lemma Untouched(a: Emitter, b: Emitter, k: nat)
    requires Grows(a, b) && k < |a.blocks| && k != a.cur
    ensures k < |b.blocks| && b.blocks[k] == a.blocks[k]
  {}

  lemma IfIs(em: Emitter, s: Stmt)
    requires s.If?
    ensures var g := IfOf(em, s); GenIf(em, s) == At(g.em4, g.k + 2)
  {
    hide GenCond, GenBlock, BrIfOpen, Emit;
  }

  lemma IfParts(p: seq<Code>, em: Emitter, s: Stmt)
    requires s.If? && Part(GenIf(em, s).blocks, p)
    ensures var g := IfOf(em, s);
            && Part(g.em1.blocks, p) && Part(g.em2.blocks, p) && Part(g.em3.blocks, p)
            && Part(g.em4.blocks, p)
            && g.em2.blocks[g.k] == [] && g.em3.blocks[g.k + 1] == [] && g.em4.blocks[g.k + 2] == []
            && g.em2.env == em.env && g.em3.env == em.env && g.em4.env == em.env
            && em.nextReg <= g.em2.nextReg <= g.em3.nextReg
            && em.nextSlot <= g.em2.nextSlot <= g.em3.nextSlot
  {
    hide Touch, Part, GenExpr, GenCond, GenBlock, GenIf;
    IfIs(em, s);
    var g := IfOf(em, s);
    var k := g.k;
    GrowsCond(em, s.cond);
    GrowsNewBlocks(g.em1, 3);
    GrowsEmit(NewBlocks(g.em1, 3), CondBr(g.v, k, k + 1));
    GrowsTrans(g.em1, NewBlocks(g.em1, 3), g.em2);
    GrowsBlock(At(g.em2, k), s.thenBr);
    GrowsBrIfOpen(At(g.em2, k), GenBlock(At(g.em2, k), s.thenBr), k + 2);
    GrowsBlock(At(g.em3, k + 1), s.elseBr);
    GrowsBrIfOpen(At(g.em3, k + 1), GenBlock(At(g.em3, k + 1), s.elseBr), k + 2);
    Untouched(At(g.em2, k), g.em3, k + 1);
    Untouched(At(g.em2, k), g.em3, k + 2);
    Untouched(At(g.em3, k + 1), g.em4, k + 2);
    PartBefore(g.em3.blocks, g.em4.blocks, p, {k + 1});
    PartBefore(g.em2.blocks, g.em3.blocks, p, {k});
    PartBefore(g.em1.blocks, g.em2.blocks, p, {g.em1.cur});
  }

  lemma {:induction false} SimIf(p: seq<Code>, em: Emitter, s: Stmt, names: set<string>, st: State,
                                    fuel: nat, c: Machine) returns (k: nat, c': Machine)
    requires s.If?
    requires StmtReady(em, names, st, c) && ScopedStmt(s, names) && Part(GenStmt(em, s).blocks, p)
    ensures Run(p, c, k) == c'
    ensures var (o, st') := ExecStmt(s, Nests(em.loops), st, fuel);
            StmtDone(em, GenStmt(em, s), Pop(em.env), Pop(st'.store), o, st', fuel, c, k, c')
    decreases fuel, s, 2
  {
    hide Touch, Part, Agree, Distinct, Below, Covers, Keeps, GenBlock, ExecBlock, Run, Step, GenExpr,
      GenCond, EvalExpr,
      StmtDone, ScopedStmts, GenIf;
    IfIs(em, s);
    var g := IfOf(em, s);
    IfParts(p, em, s);
    var k1, c1 := SimCond(p, em, s.cond, names, st.store, c);
    StepCondBr(p, g.em1, g.v, g.k, g.k + 1, c1) by { CondBrEmitted(p, g.em1, g.em2, 3, g.v, g.k, g.k + 1); }
    var c2 := Run(p, c1, 1);
    Chain(p, c, k1, c1, 1, c2);
    var (v, s1) := EvalExpr(s.cond, st.store);
    var st1 := st.(store := s1);
    if v != 0 {
      EnvOkLater(em.env, em.nextSlot, g.em2.nextSlot);
      k, c' := SimBranch(p, em, At(g.em2, g.k), s.thenBr, g.k + 2, GenIf(em, s), names, st1, fuel, c,
                         k1 + 1, c2);
    } else {
      EnvOkLater(em.env, em.nextSlot, g.em3.nextSlot);
      k, c' := SimBranch(p, em, At(g.em3, g.k + 1), s.elseBr, g.k + 2, GenIf(em, s), names, st1, fuel, c,
                         k1 + 1, c2);
    }
    var (o, st') := ExecStmt(s, Nests(em.loops), st, fuel);
    Weaken(em, GenIf(em, s), em.env, st'.store, o, st', fuel, c, k, c');
  }

  /** Creating blocks before or after a terminator makes no difference to the terminator. */
  lemma CondBrEmitted(p: seq<Code>, em1: Emitter, em2: Emitter, n: nat, v: Operand, t: nat, f: nat)
    requires em2 == Emit(NewBlocks(em1, n), CondBr(v, t, f)) && Part(em2.blocks, p)
    ensures Part(Emit(em1, CondBr(v, t, f)).blocks, p)
  {
    forall i | 0 <= i < |em1.blocks|
      ensures Emit(em1, CondBr(v, t, f)).blocks[i] == em2.blocks[i] {}
  }

  // ----- loops -------------------------------------------------------------------------------

  /** A loop body up to the place it goes on to: the continue target, the exit, or out. */
  lemma {:induction false} SimLoopBody(p: seq<Code>, em: Emitter, loop: LoopCtx, body: seq<Stmt>,
                                       names: set<string>, st: State, fuel: nat, c: Machine)
    returns (k: nat, c': Machine)
    requires loop.header.Some?
    requires StmtReady(em, names, st, c) && ScopedStmts(body, names)
    requires Part(GenLoopBody(em, loop, body).blocks, p)
    ensures Run(p, c, k) == c'
    ensures var (o, st') := ExecBlock(body, Nests(em.loops) + [Nest(loop.tag, true)], st, fuel);
            if o == Normal || o == ContinueTo(|em.loops|) then
              JumpDone(em, loop.header.value, em.env, st'.store, st'.out, c, c')
            else if o == BreakTo(|em.loops|) then
              JumpDone(em, loop.exit, em.env, st'.store, st'.out, c, c')
            else StmtDone(em, em, em.env, st'.store, o, st', fuel, c, k, c')
    decreases fuel, body, 3
  {
    hide Touch, Part, Agree, Distinct, Below, Covers, Keeps, GenBlock, ExecBlock, Run, Step;
    var em0 := em.(loops := em.loops + [loop]);
    assert Nests(em0.loops) == Nests(em.loops) + [Nest(loop.tag, true)];
    var em1 := GenBlock(em0, body);
    GrowsEmit(em1, Br(Some(loop.header.value)));
    GrowsSelf(em1);
    PartBefore(em1.blocks, GenLoopBody(em, loop, body).blocks, p, {em1.cur});
    k, c' := SimBlock(p, em0, body, names, st, fuel, c);
    var (o, st') := ExecBlock(body, Nests(em0.loops), st, fuel);
    if o.Normal? {
      GrowsBlock(em0, body);
      StepBr(p, em1, loop.header.value, c');
      var c3 := c';
      c' := Run(p, c3, 1);
      Chain(p, c, k, c3, 1, c');
      k := k + 1;
    }
  }

  /** The loop's test and its meaning. */
  predicate TestFits(test: Test, g: Guard, em: Emitter, regs: map<nat, int>) {
    match (test, g)
    case (TestExpr(e), GuardExpr(e')) => e == e'
    case (TestRange(slot, hi, i), GuardRange(x, n, i')) =>
      && i == i' && Level(em.env, x) > 0 && Find(em.env, x) == Some(slot)
      && OperandBelow(hi, em.nextReg) && Value(hi, regs) == n
    case _ => false
  }

  predicate ScopedGuard(g: Guard, names: set<string>) {
    match g case GuardExpr(e) => Scoped(e, names) case GuardRange(x, _, _) => x in names
  }

  /** As a condition, a guard is 1 or 0. */
  function Holds(g: Guard, s: Store): int { Bit(EvalGuard(g, s).0 != 0) }

  lemma SimTest(p: seq<Code>, em: Emitter, test: Test, g: Guard, names: set<string>, s: Store, c: Machine)
    returns (k: nat, c': Machine)
    requires ExprReady(em, names, s, c) && ScopedGuard(g, names) && TestFits(test, g, em, c.m.regs)
    requires Part(GenTest(em, test).0.blocks, p)
    ensures Run(p, c, k) == c'
    ensures ExprDone(em, GenTest(em, test).0, GenTest(em, test).1, Holds(g, s), EvalGuard(g, s).1, c, c')
  {
    hide Touch, Part, Agree, Distinct, Below, Covers, Keeps, GenExpr, GenCond, EvalExpr, Run, Step;
    match test {
      case TestExpr(e) => k, c' := SimCond(p, em, e, names, s, c);
      case TestRange(slot, hi, inclusive) =>
        var r := em.nextReg;
        var i1 := Load(r, slot);
        var i2 := ICmp(r + 1, if inclusive then Le else Lt, Reg(r), hi);
        var em1 := EmitValue(em, i1).0;
        PartBeforeValue(em1, i2, p);
        ReadAgrees(em.env, s, c.m.slots, g.x);
        KeepsSelf(c.m.regs, r);
        RunZero(p, c);
        var k1, c1 := FinishValue(p, em, em, i1, s, c, 0, c);
        KeepsValue(hi, c.m.regs, c1.m.regs, r);
        k, c' := FinishValue(p, em, em1, i2, s, c, k1, c1);
    }
  }

  /** The stages of emitting a pre-tested loop. */
  datatype LoopCode = LoopCode(em1: Emitter, v: Operand, em2: Emitter, em3: Emitter)

  predicate InRange(em: Emitter, sh: Shape) {
    && sh.header < |em.blocks| && sh.body < |em.blocks|
    && sh.cont < |em.blocks| && sh.exit < |em.blocks|
  }

  function LoopOf(em: Emitter, sh: Shape, tag: string, test: Test, body: seq<Stmt>): (r: LoopCode)
    requires InRange(em, sh)
    ensures sh.cont < |r.em3.blocks| && r.em3.loops == em.loops
    ensures sh.body < |r.em1.blocks| && sh.body < |r.em2.blocks|
  {
    var (em1, v) := GenTest(At(em, sh.header), test);
    var em2 := At(Emit(em1, CondBr(v, sh.body, sh.exit)), sh.body);
    LoopCode(em1, v, em2, GenLoopBody(em2, LoopCtx(Some(sh.cont), sh.exit, tag), body))
  }

  predicate LoopReady(em: Emitter, sh: Shape, hasStep: bool) {
    && InRange(em, sh)
    && em.blocks[sh.header] == [] && em.blocks[sh.body] == []
    && em.blocks[sh.cont] == [] && em.blocks[sh.exit] == []
    && sh.header != sh.body && sh.exit != sh.header && sh.exit != sh.body && sh.exit != sh.cont
    && sh.cont != sh.body
    && (if hasStep then sh.cont != sh.header else sh.cont == sh.header)
  }

  lemma LoopParts(p: seq<Code>, em: Emitter, sh: Shape, tag: string, test: Test, incr: Option<Expr>,
                  body: seq<Stmt>)
    requires LoopReady(em, sh, incr.Some?)
    requires Part(GenLoop(em, sh, tag, test, incr, body).blocks, p)
    ensures var g := LoopOf(em, sh, tag, test, body);
            && Part(g.em1.blocks, p) && Part(g.em2.blocks, p) && Part(g.em3.blocks, p)
            && g.em2.blocks[sh.body] == [] && g.em2.env == em.env && g.em3.env == em.env
            && (incr.Some? ==> g.em3.blocks[sh.cont] == [])
            && GenLoop(em, sh, tag, test, incr, body).blocks[sh.exit] == []
            && em.nextReg <= g.em2.nextReg <= g.em3.nextReg
            && em.nextSlot <= g.em2.nextSlot <= g.em3.nextSlot
    ensures incr.Some? ==>
              var em4 := GenExpr(At(LoopOf(em, sh, tag, test, body).em3, sh.cont), incr.value).0;
              Part(em4.blocks, p) && Part(Emit(em4, Br(Some(sh.header))).blocks, p)
  {
    hide Part, GenExpr, GenTest, GenLoopBody;
    var g := LoopOf(em, sh, tag, test, body);
    var loop := LoopCtx(Some(sh.cont), sh.exit, tag);
    GrowsLoop(em, sh, tag, test, incr, body);
    GrowsTest(At(em, sh.header), test);
    GrowsLoopBody(g.em2, loop, body);
    if incr.Some? {
      var em4 := GenExpr(At(g.em3, sh.cont), incr.value).0;
      GrowsExpr(At(g.em3, sh.cont), incr.value);
      GrowsEmit(em4, Br(Some(sh.header)));
      PartBefore(em4.blocks, Emit(em4, Br(Some(sh.header))).blocks, p, {em4.cur});
      PartBefore(g.em3.blocks, em4.blocks, p, {sh.cont});
    }
    PartBefore(g.em2.blocks, g.em3.blocks, p, {sh.body});
    GrowsEmit(g.em1, CondBr(g.v, sh.body, sh.exit));
    PartBefore(g.em1.blocks, g.em2.blocks, p, {g.em1.cur});
  }

  /** From the continue target back to the header: the step between rounds, if there is one. */
  lemma SimBack(p: seq<Code>, em: Emitter, sh: Shape, tag: string, test: Test, incr: Option<Expr>,
                body: seq<Stmt>, names: set<string>, st: State, c: Machine, c3: Machine)
    returns (k: nat, c': Machine)
    requires LoopReady(em, sh, incr.Some?)
    requires Part(GenLoop(em, sh, tag, test, incr, body).blocks, p)
    requires incr.Some? ==> Scoped(incr.value, names)
    requires EnvOk(em.env, em.nextSlot) && Covers(em.env, names)
    requires JumpDone(em, sh.cont, em.env, st.store, st.out, c, c3)
    ensures Run(p, c3, k) == c'
    ensures JumpDone(em, sh.header, em.env, AfterRound(incr, st.store), st.out, c, c')
  {
    hide Touch, Part, Agree, Distinct, Below, Covers, Keeps, GenLoop, GenExpr, EvalExpr, Run, Step, LoopOf;
    match incr {
      case None => k, c' := 0, c3; RunZero(p, c3);
      case Some(e) =>
        LoopParts(p, em, sh, tag, test, incr, body);
        var g := LoopOf(em, sh, tag, test, body);
        var em4 := GenExpr(At(g.em3, sh.cont), e).0;
        EnvOkLater(em.env, em.nextSlot, g.em3.nextSlot);
        var k4, c4 := SimExpr(p, At(g.em3, sh.cont), e, names, st.store, c3);
        StepBr(p, em4, sh.header, c4);
        c' := Run(p, c4, 1);
        k := k4 + 1;
        Chain(p, c3, k4, c4, 1, c');
        KeepsTrans(c.m.regs, c3.m.regs, c'.m.regs, em.nextReg, g.em3.nextReg);
    }
  }

  lemma RunZero(p: seq<Code>, c: Machine)
    ensures Run(p, c, 0) == c
  {}

  lemma {:induction false} SimLoop(p: seq<Code>, em: Emitter, sh: Shape, tag: string, test: Test, g: Guard,
                                   incr: Option<Expr>, body: seq<Stmt>, names: set<string>,
                                   st: State, fuel: nat, c: Machine) returns (k: nat, c': Machine)
    requires LoopReady(em, sh, incr.Some?)
    requires Part(GenLoop(em, sh, tag, test, incr, body).blocks, p)
    requires ExprReady(At(em, sh.header), names, st.store, c) && c.m.out == st.out
    requires ScopedGuard(g, names) && TestFits(test, g, em, c.m.regs)
    requires (incr.Some? ==> Scoped(incr.value, names)) && ScopedStmts(body, names)
    ensures Run(p, c, k) == c'
    ensures var (o, st') := ExecLoop(g, body, incr, Nests(em.loops), tag, st, fuel);
            StmtDone(em, GenLoop(em, sh, tag, test, incr, body), em.env, st'.store, o, st', fuel, c, k, c')
    decreases fuel, body, 4
  {
    hide Touch, Part, Agree, Distinct, Below, Covers, Keeps, GenLoop, GenTest, GenLoopBody, EvalGuard,
      ExecBlock, Run, Step, GenBlock;
    if fuel == 0 {
      k, c' := 0, c;
      RunZero(p, c);
    } else {
      var lc := LoopOf(em, sh, tag, test, body);
      LoopParts(p, em, sh, tag, test, incr, body);
      var k1, c1 := SimTest(p, At(em, sh.header), test, g, names, st.store, c);
      StepCondBr(p, lc.em1, lc.v, sh.body, sh.exit, c1);
      var c2 := Run(p, c1, 1);
      Chain(p, c, k1, c1, 1, c2);
      var (v, s1) := EvalGuard(g, st.store);
      if v == 0 {
        k, c' := k1 + 1, c2;
        LoopEnd(em, sh, tag, test, incr, body);
      } else {
        EnvOkLater(em.env, em.nextSlot, lc.em2.nextSlot);
        k, c' := SimRound(p, em, sh, tag, test, g, incr, body, names, st.(store := s1), fuel, c, k1 + 1, c2);
      }
    }
  }

  lemma LoopEnd(em: Emitter, sh: Shape, tag: string, test: Test, incr: Option<Expr>, body: seq<Stmt>)
    requires LoopReady(em, sh, incr.Some?)
    ensures var r := GenLoop(em, sh, tag, test, incr, body);
            r.cur == sh.exit && r.blocks[sh.exit] == [] && r.env == em.env && Open(r)
  {
    GrowsLoop(em, sh, tag, test, incr, body);
  }

  /** One round from the start of the body, and the rounds after it. */
  lemma {:induction false} SimRound(p: seq<Code>, em: Emitter, sh: Shape, tag: string, test: Test, g: Guard,
                                    incr: Option<Expr>, body: seq<Stmt>, names: set<string>, st: State,
                                    fuel: nat, c: Machine, k2: nat, c2: Machine)
    returns (k: nat, c': Machine)
    requires LoopReady(em, sh, incr.Some?) && fuel > 0 && k2 > 0
    requires Part(GenLoop(em, sh, tag, test, incr, body).blocks, p)
    requires StmtReady(LoopOf(em, sh, tag, test, body).em2, names, st, c2)
    requires c.Running? && Run(p, c, k2) == c2 && Keeps(c.m.regs, c2.m.regs, em.nextReg)
    requires ScopedGuard(g, names) && TestFits(test, g, em, c.m.regs)
    requires (incr.Some? ==> Scoped(incr.value, names)) && ScopedStmts(body, names)
    requires EnvOk(em.env, em.nextSlot)
    ensures Run(p, c, k) == c'
    ensures var (o1, st1) := ExecBlock(body, Nests(em.loops) + [Nest(tag, true)], st, fuel - 1);
            var (o, st') :=
              if o1 == BreakTo(|em.loops|) then (Normal, st1)
              else if o1 == Normal || o1 == ContinueTo(|em.loops|) then
                ExecLoop(g, body, incr, Nests(em.loops), tag,
                         st1.(store := AfterRound(incr, st1.store)), fuel - 1)
              else (o1, st1);
            StmtDone(em, GenLoop(em, sh, tag, test, incr, body), em.env, st'.store, o, st', fuel, c, k, c')
    decreases fuel, body, 3
  {
    hide Touch, Part, Agree, Distinct, Below, Covers, Keeps, GenLoop, GenTest, GenLoopBody, EvalGuard,
      ExecBlock, ExecLoop, Run, Step, GenBlock, AfterRound;
    var lc := LoopOf(em, sh, tag, test, body);
    LoopParts(p, em, sh, tag, test, incr, body);
    LoopEnd(em, sh, tag, test, incr, body);
    var loop := LoopCtx(Some(sh.cont), sh.exit, tag);
    var k3, c3 := SimLoopBody(p, lc.em2, loop, body, names, st, fuel - 1, c2);
    Chain(p, c, k2, c2, k3, c3);
    if c3.Running? { KeepsTrans'(c, c2, c3, em.nextReg, lc.em2.nextReg); }
    var (o1, st1) := ExecBlock(body, Nests(em.loops) + [Nest(tag, true)], st, fuel - 1);
    k, c' := k2 + k3, c3;
    if o1 == Normal || o1 == ContinueTo(|em.loops|) {
      var k4, c4 := SimBack(p, em, sh, tag, test, incr, body, names, st1, c, c3);
      Chain(p, c, k, c3, k4, c4);
      var st2 := st1.(store := AfterRound(incr, st1.store));
      FitsLater(test, g, em, c.m.regs, c4.m.regs);
      var k5, c5 := SimLoop(p, em, sh, tag, test, g, incr, body, names, st2, fuel - 1, c4);
      var (o, st') := ExecLoop(g, body, incr, Nests(em.loops), tag, st2, fuel - 1);
      After(p, em, em, GenLoop(em, sh, tag, test, incr, body), em.env, st'.store, o, st', fuel,
            fuel - 1, c, k + k4, c4, k5, c5);
      k, c' := k + k4 + k5, c5;
    }
  }

  lemma KeepsTrans'(c: Machine, c1: Machine, c2: Machine, n: nat, m: nat)
    requires c.Running? && c1.Running? && c2.Running? && n <= m
    requires Keeps(c.m.regs, c1.m.regs, n)
    ensures Keeps(c1.m.regs, c2.m.regs, m) ==> Keeps(c.m.regs, c2.m.regs, n)
  {}

  lemma FitsLater(test: Test, g: Guard, em: Emitter, r: map<nat, int>, r': map<nat, int>)
    requires TestFits(test, g, em, r) && Keeps(r, r', em.nextReg)
    ensures TestFits(test, g, em, r')
  {}

  lemma {:induction false} SimWhile(p: seq<Code>, em: Emitter, s: Stmt, names: set<string>, st: State,
                                    fuel: nat, c: Machine) returns (k: nat, c': Machine)
    requires s.While?
    requires StmtReady(em, names, st, c) && ScopedStmt(s, names) && Part(GenStmt(em, s).blocks, p)
    ensures Run(p, c, k) == c'
    ensures var (o, st') := ExecStmt(s, Nests(em.loops), st, fuel);
            StmtDone(em, GenStmt(em, s), Pop(em.env), Pop(st'.store), o, st', fuel, c, k, c')
    decreases fuel, s, 2
  {
    hide Touch, Part, Agree, Distinct, Below, Covers, Keeps, GenLoop, ExecLoop, Run, Step;
    var b := |em.blocks|;
    var sh := Shape(b, b + 1, b, b + 2);
    var em1 := Emit(NewBlocks(em, 3), Br(Some(b)));
    GrowsLoop(em1, sh, LabelText(s.tag), TestExpr(s.cond), None, s.body);
    PartBefore(em1.blocks, GenWhile(em, s).blocks, p, {sh.header, sh.body, sh.cont});
    StepBr(p, em, b, c) by { BrEmitted(p, em, em1, 3, b); }
    var c1 := Run(p, c, 1);
    KeepsSelf(c.m.regs, em.nextReg);
    var k2, c2 := SimLoop(p, em1, sh, LabelText(s.tag), TestExpr(s.cond), GuardExpr(s.cond), None, s.body,
                          names, st, fuel, c1);
    var (o, st') := ExecStmt(s, Nests(em.loops), st, fuel);
    After(p, em, em1, GenWhile(em, s), em.env, st'.store, o, st', fuel, fuel, c, 1, c1, k2, c2);
    k, c' := 1 + k2, c2;
    Weaken(em, GenWhile(em, s), em.env, st'.store, o, st', fuel, c, k, c');
  }

  lemma BrEmitted(p: seq<Code>, em: Emitter, em1: Emitter, n: nat, t: nat)
    requires em1 == Emit(NewBlocks(em, n), Br(Some(t))) && Part(em1.blocks, p)
    ensures Part(Emit(em, Br(Some(t))).blocks, p)
  {
    forall i | 0 <= i < |em.blocks| ensures Emit(em, Br(Some(t))).blocks[i] == em1.blocks[i] {}
  }

  // ----- range-for and C-for -----------------------------------------------------------------

  /** A for loop after its head: the loop under the scope of its variable. */
  lemma {:induction false} SimForLoop(p: seq<Code>, em: Emitter, head: Emitter, sh: Shape, test: Test,
                                      g: Guard, incr: Expr, body: seq<Stmt>, x: string,
                                      names: set<string>, st1: State, fuel: nat, c: Machine,
                                      k1: nat, c1: Machine) returns (k: nat, c': Machine)
    requires LoopReady(head, sh, true) && head.loops == em.loops && em.nextReg <= head.nextReg
    requires head.env == em.env + [map[x := em.nextSlot]]
    requires Part(GenLoop(head, sh, "", test, Some(incr), body).blocks, p)
    requires ExprReady(At(head, sh.header), names + {x}, st1.store, c1) && c1.m.out == st1.out
    requires ScopedGuard(g, names + {x}) && TestFits(test, g, head, c1.m.regs)
    requires Scoped(incr, names + {x}) && ScopedStmts(body, names + {x})
    requires c.Running? && Run(p, c, k1) == c1 && Keeps(c.m.regs, c1.m.regs, em.nextReg)
    ensures Run(p, c, k) == c'
    ensures var (o, st2) := ExecLoop(g, body, Some(incr), Nests(em.loops), "", st1, fuel);
            var st' := st2.(store := Pop(st2.store));
            StmtDone(em, PopEnv(GenLoop(head, sh, "", test, Some(incr), body)), Pop(em.env),
                     Pop(st'.store), o, st', fuel, c, k, c')
    decreases fuel, body, 5
  {
    hide Touch, Part, Agree, Distinct, Below, Covers, Keeps, GenLoop, ExecLoop, Run, Step;
    var k2, c2 := SimLoop(p, head, sh, "", test, g, Some(incr), body, names + {x}, st1, fuel, c1);
    var (o, st2) := ExecLoop(g, body, Some(incr), Nests(em.loops), "", st1, fuel);
    var r := GenLoop(head, sh, "", test, Some(incr), body);
    LoopEnd(head, sh, "", test, Some(incr), body);
    After(p, em, head, r, head.env, st2.store, o, st2, fuel, fuel, c, k1, c1, k2, c2);
    k, c' := k1 + k2, c2;
    assert Pop(head.env) == em.env;
    if o.Normal? { PopAgrees(r.env, st2.store, c'.m.slots); }
    if o.BreakTo? || o.ContinueTo? {
      PopAgrees(head.env, st2.store, c'.m.slots);
      PopAgrees(em.env, Pop(st2.store), c'.m.slots);
    }
  }

  lemma HeadParts(p: seq<Code>, em: Emitter, head: Emitter, sh: Shape, test: Test, incr: Expr,
                  body: seq<Stmt>)
    requires var k := |em.blocks|;
             sh == Shape(k, k + 1, k + 2, k + 3) && k + 4 <= |head.blocks|
             && forall i :: k <= i < k + 4 ==> head.blocks[i] == []
    requires Part(PopEnv(GenLoop(head, sh, "", test, Some(incr), body)).blocks, p)
    ensures LoopReady(head, sh, true) && Part(head.blocks, p)
    ensures Part(GenLoop(head, sh, "", test, Some(incr), body).blocks, p)
  {
    hide Part, Touch, GenLoop;
    GrowsLoop(head, sh, "", test, Some(incr), body);
    PartBefore(head.blocks, GenLoop(head, sh, "", test, Some(incr), body).blocks, p,
               {sh.header, sh.body, sh.cont});
  }

  /** Entering the scope of a loop variable.  Its slot holds something, whatever it is. */
  lemma EnterScope(em: Emitter, x: string, names: set<string>, s: Store, c: Machine, n: nat)
    requires ExprReady(em, names, s, c)
    ensures var em1 := DefineVar(PushEnv(NewBlocks(em, n)), x);
            && ExprReady(em1, names, s + [map[x := Get(c.m.slots, em.nextSlot)]], c)
            && em1.env == em.env + [map[x := em.nextSlot]]
            && Covers(em1.env, names + {x})
  {
    hide Agree, Distinct, Below, Covers;
    var v := Get(c.m.slots, em.nextSlot);
    var em1 := DefineVar(PushEnv(NewBlocks(em, n)), x);
    PushAgrees(em.env, s, c.m.slots);
    PushOk(em.env, em.nextSlot);
    CoversPush(em.env, names);
    DefineAgrees(em.env + [map[]], s + [map[]], c.m.slots, x, v, em.nextSlot);
    DefineOk(em.env + [map[]], x, em.nextSlot);
    CoversDefine(em.env + [map[]], names, x, em.nextSlot);
    assert Define(s + [map[]], x, v) == s + [map[x := v]];
    assert em1.env == em.env + [map[x := em.nextSlot]];
    SameSlot(em1.env, s + [map[x := v]], c.m.slots, em.nextSlot, v);
    CoversLess(em1.env, names, x);
  }

  lemma SameSlot(env: Scopes<nat>, s: Store, slots: map<nat, int>, n: nat, v: int)
    requires Agree(env, s, slots[n := v]) && Get(slots, n) == v
    ensures Agree(env, s, slots)
  {
    forall i | 0 <= i < |env| ensures LevelAgrees(env[i], s[i], slots) {
      assert LevelAgrees(env[i], s[i], slots[n := v]);
    }
  }

  lemma CoversLess(env: Scopes<nat>, names: set<string>, x: string)
    requires Covers(env, names + {x})
    ensures Covers(env, names)
  {}

  /** Storing the start value to the loop variable and jumping to the header. */
  lemma StoreAndGo(p: seq<Code>, em: Emitter, a: Operand, slot: nat, target: nat, x: string, s: Store,
                   was: int, c: Machine) returns (c': Machine)
    requires AtEnd(em, c) && Distinct(em.env)
    requires |em.env| > 0 && x in em.env[|em.env| - 1] && em.env[|em.env| - 1][x] == slot
    requires Agree(em.env, s + [map[x := was]], c.m.slots)
    requires Part(Emit(Emit(em, Store(a, slot)), Br(Some(target))).blocks, p)
    ensures Run(p, c, 2) == c'
    ensures c'.Running? && c'.b == target && c'.pc == 0 && c'.m.out == c.m.out && c'.m.regs == c.m.regs
    ensures Agree(em.env, s + [map[x := Value(a, c.m.regs)]], c'.m.slots)
  {
    hide Touch, Part, Agree, Distinct;
    var em1 := Emit(em, Store(a, slot));
    GrowsEmit(em1, Br(Some(target)));
    PartBefore(em1.blocks, Emit(em1, Br(Some(target))).blocks, p, {em1.cur});
    StepEmitted(p, em, Store(a, slot), c);
    var c1 := Step(p, c);
    StepBr(p, em1, target, c1);
    c' := Run(p, c1, 1);
    Chain(p, c, 1, c1, 1, c');
    var t := s + [map[x := was]];
    WriteAgrees(em.env, t, c.m.slots, x, Value(a, c.m.regs));
    assert Write(t, x, Value(a, c.m.regs)) == s + [map[x := Value(a, c.m.regs)]] by {
      assert Level(t, x) == |t| && t[|t| - 1] == map[x := was];
      assert map[x := was][x := Value(a, c.m.regs)] == map[x := Value(a, c.m.regs)];
    }
  }

  lemma {:induction false} SimForC(p: seq<Code>, em: Emitter, s: Stmt, names: set<string>, st: State,
                                    fuel: nat, c: Machine) returns (k: nat, c': Machine)
    requires s.ForC?
    requires StmtReady(em, names, st, c) && ScopedStmt(s, names) && Part(GenStmt(em, s).blocks, p)
    ensures Run(p, c, k) == c'
    ensures var (o, st') := ExecStmt(s, Nests(em.loops), st, fuel);
            StmtDone(em, GenStmt(em, s), Pop(em.env), Pop(st'.store), o, st', fuel, c, k, c')
    decreases fuel, s, 2
  {
    hide Touch, Part, Agree, Distinct, Below, Covers, Keeps, GenLoop, ExecLoop, GenExpr, EvalExpr, Run, Step,
      RangeHead, ForHead, StmtDone, ScopedStmts, Mentions, LoopReady;
    var b := |em.blocks|;
    var sh := Shape(b, b + 1, b + 2, b + 3);
    var head := ForHead(em, s);
    GrowsForHead(em, s);
    HeadParts(p, em, head, sh, TestExpr(s.cond), s.incr, s.body);
    var k1, c1 := SimForHead(p, em, s, names, st, c);
    var (a, s1) := EvalExpr(s.start, st.store);
    var st1 := st.(store := s1 + [map[s.x := a]]);
    k, c' := SimForLoop(p, em, head, sh, TestExpr(s.cond), GuardExpr(s.cond), s.incr, s.body, s.x,
                        names, st1, fuel, c, k1, c1);
  }

  lemma SimForHead(p: seq<Code>, em: Emitter, s: Stmt, names: set<string>, st: State, c: Machine)
    returns (k: nat, c': Machine)
    requires s.ForC? && StmtReady(em, names, st, c) && ScopedStmt(s, names)
    requires Part(ForHead(em, s).blocks, p)
    ensures Run(p, c, k) == c' && c'.Running? && c'.b == |em.blocks| && c'.pc == 0
    ensures var (a, s1) := EvalExpr(s.start, st.store);
            && ExprReady(At(ForHead(em, s), |em.blocks|), names + {s.x}, s1 + [map[s.x := a]], c')
            && c'.m.out == st.out && Keeps(c.m.regs, c'.m.regs, em.nextReg)
  {
    hide Touch, Part, Agree, Distinct, Below, Covers, Keeps, GenExpr, EvalExpr, Run, Step;
    var b, x := |em.blocks|, s.x;
    var was := Get(c.m.slots, em.nextSlot);
    EnterScope(em, x, names, st.store, c, 4);
    var em1 := DefineVar(PushEnv(NewBlocks(em, 4)), x);
    var (em2, a) := GenExpr(em1, s.start);
    GrowsExpr(em1, s.start);
    var em3 := Emit(em2, Store(a, em.nextSlot));
    GrowsEmit(em2, Store(a, em.nextSlot));
    GrowsEmit(em3, Br(Some(b)));
    PartBefore(em3.blocks, ForHead(em, s).blocks, p, {em3.cur});
    PartBefore(em2.blocks, em3.blocks, p, {em2.cur});
    UnmentionedScope(s.start, st.store, x, was);
    var k1, c1 := SimExpr(p, em1, s.start, names, st.store + [map[x := was]], c);
    var s1 := EvalExpr(s.start, st.store).1;
    c' := StoreAndGo(p, em2, a, em.nextSlot, b, x, s1, was, c1);
    k := k1 + 2;
    Chain(p, c, k1, c1, 2, c');
    EnvOkLater(em1.env, em1.nextSlot, em2.nextSlot);
    GrowsForHead(em, s);
  }

  lemma {:induction false} SimForRange(p: seq<Code>, em: Emitter, s: Stmt, names: set<string>, st: State,
                                    fuel: nat, c: Machine) returns (k: nat, c': Machine)
    requires s.ForRange?
    requires StmtReady(em, names, st, c) && ScopedStmt(s, names) && Part(GenStmt(em, s).blocks, p)
    ensures Run(p, c, k) == c'
    ensures var (o, st') := ExecStmt(s, Nests(em.loops), st, fuel);
            StmtDone(em, GenStmt(em, s), Pop(em.env), Pop(st'.store), o, st', fuel, c, k, c')
    decreases fuel, s, 2
  {
    hide Touch, Part, Agree, Distinct, Below, Covers, Keeps, GenLoop, ExecLoop, GenExpr, EvalExpr, Run, Step,
      RangeHead, ForHead, StmtDone, ScopedStmts, Mentions, LoopReady;
    var b := |em.blocks|;
    var sh := Shape(b, b + 1, b + 2, b + 3);
    var (head, hi) := RangeHead(em, s);
    var test := TestRange(em.nextSlot, hi, s.inclusive);
    var incr := IncDec(s.x, true, true);
    GrowsRangeHead(em, s);
    HeadParts(p, em, head, sh, test, incr, s.body);
    var k1, c1 := SimRangeHead(p, em, s, names, st, c);
    var (a, s1) := EvalExpr(s.lo, st.store);
    var (n, s2) := EvalExpr(s.hi, s1);
    var st1 := st.(store := s2 + [map[s.x := a]]);
    k, c' := SimForLoop(p, em, head, sh, test, GuardRange(s.x, n, s.inclusive), incr, s.body, s.x,
                        names, st1, fuel, c, k1, c1);
  }

  lemma SimRangeHead(p: seq<Code>, em: Emitter, s: Stmt, names: set<string>, st: State, c: Machine)
    returns (k: nat, c': Machine)
    requires s.ForRange? && StmtReady(em, names, st, c) && ScopedStmt(s, names)
    requires Part(RangeHead(em, s).0.blocks, p)
    ensures Run(p, c, k) == c' && c'.Running? && c'.b == |em.blocks| && c'.pc == 0
    ensures var (a, s1) := EvalExpr(s.lo, st.store);
            var (n, s2) := EvalExpr(s.hi, s1);
            var (head, hi) := RangeHead(em, s);
            && ExprReady(At(head, |em.blocks|), names + {s.x}, s2 + [map[s.x := a]], c')
            && c'.m.out == st.out && Keeps(c.m.regs, c'.m.regs, em.nextReg)
            && TestFits(TestRange(em.nextSlot, hi, s.inclusive), GuardRange(s.x, n, s.inclusive), head,
                        c'.m.regs)
  {
    hide Touch, Part, Agree, Distinct, Below, Covers, Keeps, GenExpr, EvalExpr, Run, Step;
    var b, x := |em.blocks|, s.x;
    var was := Get(c.m.slots, em.nextSlot);
    EnterScope(em, x, names, st.store, c, 4);
    var em1 := DefineVar(PushEnv(NewBlocks(em, 4)), x);
    var (em2, a) := GenExpr(em1, s.lo);
    var (em3, hi) := GenExpr(em2, s.hi);
    var em4 := Emit(em3, Store(a, em.nextSlot));
    GrowsExpr(em1, s.lo);
    GrowsExpr(em2, s.hi);
    GrowsEmit(em3, Store(a, em.nextSlot));
    GrowsEmit(em4, Br(Some(b)));
    PartBefore(em4.blocks, RangeHead(em, s).0.blocks, p, {em4.cur});
    PartBefore(em3.blocks, em4.blocks, p, {em3.cur});
    PartBefore(em2.blocks, em3.blocks, p, {em2.cur});
    UnmentionedScope(s.lo, st.store, x, was);
    var k1, c1 := SimExpr(p, em1, s.lo, names, st.store + [map[x := was]], c);
    var (an, s1) := EvalExpr(s.lo, st.store);
    UnmentionedScope(s.hi, s1, x, was);
    EnvOkLater(em1.env, em1.nextSlot, em2.nextSlot);
    var k2, c2 := SimExpr(p, em2, s.hi, names, s1 + [map[x := was]], c1);
    Chain(p, c, k1, c1, k2, c2);
    KeepsValue(a, c1.m.regs, c2.m.regs, em2.nextReg);
    KeepsTrans(c.m.regs, c1.m.regs, c2.m.regs, em.nextReg, em2.nextReg);
    var s2 := EvalExpr(s.hi, s1).1;
    c' := StoreAndGo(p, em3, a, em.nextSlot, b, x, s2, was, c2);
    k := k1 + k2 + 2;
    Chain(p, c, k1 + k2, c2, 2, c');
    EnvOkLater(em2.env, em2.nextSlot, em3.nextSlot);
    GrowsRangeHead(em, s);
  }

  // ----- do-while ----------------------------------------------------------------------------

  /** The stages of emitting a do-while loop, with k the number of its first block. */
  datatype DoCode = DoCode(em1: Emitter, em2: Emitter, em3: Emitter, v: Operand)

  function DoOf(em: Emitter, s: Stmt): (r: DoCode)
    requires s.DoWhile?
    ensures |em.blocks| + 2 < |r.em3.blocks| && |em.blocks| + 1 < |r.em2.blocks|
    ensures GenDoWhile(em, s)
            == At(Emit(r.em3, CondBr(r.v, |em.blocks|, |em.blocks| + 2)), |em.blocks| + 2)
  {
    var k := |em.blocks|;
    var em1 := At(Emit(NewBlocks(em, 3), Br(Some(k))), k);
    var em2 := GenLoopBody(em1, LoopCtx(Some(k + 1), k + 2, ""), s.body);
    var (em3, v) := GenCond(At(em2, k + 1), s.cond);
    DoCode(em1, em2, em3, v)
  }

  lemma DoParts(p: seq<Code>, em: Emitter, s: Stmt)
    requires s.DoWhile? && Part(GenDoWhile(em, s).blocks, p)
    ensures var g, k := DoOf(em, s), |em.blocks|;
            && Part(g.em1.blocks, p) && Part(g.em2.blocks, p) && Part(g.em3.blocks, p)
            && Part(Emit(g.em3, CondBr(g.v, k, k + 2)).blocks, p)
            && g.em1.cur == k && g.em1.blocks[k] == [] && g.em2.blocks[k + 1] == []
            && GenDoWhile(em, s).blocks[k + 2] == []
            && g.em1.env == em.env && g.em2.env == em.env
            && em.nextReg <= g.em1.nextReg <= g.em2.nextReg
            && em.nextSlot <= g.em1.nextSlot <= g.em2.nextSlot
  {
    hide Touch, Part, GenExpr, GenCond, GenLoopBody;
    var g, k := DoOf(em, s), |em.blocks|;
    GrowsLoopBody(g.em1, LoopCtx(Some(k + 1), k + 2, ""), s.body);
    GrowsCond(At(g.em2, k + 1), s.cond);
    GrowsEmit(g.em3, CondBr(g.v, k, k + 2));
    Untouched(g.em1, g.em2, k + 1);
    Untouched(g.em1, g.em2, k + 2);
    Untouched(At(g.em2, k + 1), g.em3, k + 2);
    PartBefore(g.em3.blocks, GenDoWhile(em, s).blocks, p, {g.em3.cur});
    PartBefore(g.em2.blocks, g.em3.blocks, p, {k + 1});
    PartBefore(g.em1.blocks, g.em2.blocks, p, {k});
  }

  lemma {:induction false} SimDo(p: seq<Code>, em: Emitter, s: Stmt, names: set<string>, st: State,
                                 fuel: nat, c: Machine) returns (k: nat, c': Machine)
    requires s.DoWhile? && Scoped(s.cond, names) && ScopedStmts(s.body, names)
    requires Part(GenDoWhile(em, s).blocks, p)
    requires ExprReady(DoOf(em, s).em1, names, st.store, c) && c.m.out == st.out
    requires EnvOk(em.env, em.nextSlot)
    ensures Run(p, c, k) == c'
    ensures var (o, st') := ExecDo(s.body, s.cond, Nests(em.loops), st, fuel);
            StmtDone(em, GenDoWhile(em, s), em.env, st'.store, o, st', fuel, c, k, c')
    decreases fuel, s.body, 4
  {
    hide Touch, Part, Agree, Distinct, Below, Covers, Keeps, GenDoWhile, GenExpr, GenCond, GenLoopBody,
      EvalExpr, ExecBlock, Run, Step, GenBlock;
    if fuel == 0 {
      k, c' := 0, c;
      RunZero(p, c);
    } else {
      var g, b := DoOf(em, s), |em.blocks|;
      DoParts(p, em, s);
      var loop := LoopCtx(Some(b + 1), b + 2, "");
      k, c' := SimLoopBody(p, g.em1, loop, s.body, names, st, fuel, c);
      var (o1, st1) := ExecBlock(s.body, Nests(em.loops) + [Nest("", true)], st, fuel);
      if c'.Running? { KeepsFewer(c.m.regs, c'.m.regs, em.nextReg, g.em1.nextReg); }
      if o1 == Normal || o1 == ContinueTo(|em.loops|) {
        k, c' := SimDoTest(p, em, s, names, st1, fuel, c, k, c');
      }
    }
  }

  lemma KeepsFewer(r: map<nat, int>, r': map<nat, int>, n: nat, m: nat)
    requires n <= m
    ensures Keeps(r, r', m) ==> Keeps(r, r', n)
  {}

  /** The test after the body, and the rounds after it. */
  lemma {:induction false} SimDoTest(p: seq<Code>, em: Emitter, s: Stmt, names: set<string>, st1: State,
                                     fuel: nat, c: Machine, k1: nat, c1: Machine)
    returns (k: nat, c': Machine)
    requires s.DoWhile? && Scoped(s.cond, names) && ScopedStmts(s.body, names) && fuel > 0
    requires Part(GenDoWhile(em, s).blocks, p)
    requires EnvOk(em.env, em.nextSlot) && Covers(em.env, names)
    requires JumpDone(em, |em.blocks| + 1, em.env, st1.store, st1.out, c, c1) && Run(p, c, k1) == c1
    ensures Run(p, c, k) == c'
    ensures var (v, s1) := EvalExpr(s.cond, st1.store);
            var st2 := st1.(store := s1);
            var (o, st') := if v == 0 then (Normal, st2)
                            else ExecDo(s.body, s.cond, Nests(em.loops), st2, fuel - 1);
            StmtDone(em, GenDoWhile(em, s), em.env, st'.store, o, st', fuel, c, k, c')
    decreases fuel, s.body, 3
  {
    hide Touch, Part, Agree, Distinct, Below, Covers, Keeps, GenDoWhile, GenExpr, GenCond, GenLoopBody,
      EvalExpr, ExecDo, Run, Step, GenBlock;
    var g, b := DoOf(em, s), |em.blocks|;
    DoParts(p, em, s);
    EnvOkLater(em.env, em.nextSlot, g.em2.nextSlot);
    var k2, c2 := SimCond(p, At(g.em2, b + 1), s.cond, names, st1.store, c1);
    StepCondBr(p, g.em3, g.v, b, b + 2, c2);
    var c3 := Run(p, c2, 1);
    Chain(p, c1, k2, c2, 1, c3);
    Chain(p, c, k1, c1, k2 + 1, c3);
    k, c' := k1 + (k2 + 1), c3;
    KeepsTrans(c.m.regs, c1.m.regs, c3.m.regs, em.nextReg, g.em2.nextReg);
    var (v, s1) := EvalExpr(s.cond, st1.store);
    DoEnv(em, s);
    if v != 0 {
      EnvOkLater(em.env, em.nextSlot, g.em1.nextSlot);
      var st2 := st1.(store := s1);
      var k4, c4 := SimDo(p, em, s, names, st2, fuel - 1, c3);
      var (o, st') := ExecDo(s.body, s.cond, Nests(em.loops), st2, fuel - 1);
      After(p, em, em, GenDoWhile(em, s), em.env, st'.store, o, st', fuel, fuel - 1, c, k, c3, k4, c4);
      k, c' := k + k4, c4;
    }
  }

  lemma DoEnv(em: Emitter, s: Stmt)
    requires s.DoWhile?
    ensures GenDoWhile(em, s).env == em.env && GenDoWhile(em, s).cur == |em.blocks| + 2
  {
    GrowsDoWhile(em, s);
  }

  lemma {:induction false} SimDoWhile(p: seq<Code>, em: Emitter, s: Stmt, names: set<string>, st: State,
                                    fuel: nat, c: Machine) returns (k: nat, c': Machine)
    requires s.DoWhile?
    requires StmtReady(em, names, st, c) && ScopedStmt(s, names) && Part(GenStmt(em, s).blocks, p)
    ensures Run(p, c, k) == c'
    ensures var (o, st') := ExecStmt(s, Nests(em.loops), st, fuel);
            StmtDone(em, GenStmt(em, s), Pop(em.env), Pop(st'.store), o, st', fuel, c, k, c')
    decreases fuel, s, 2
  {
    hide Touch, Part, Agree, Distinct, Below, Covers, Keeps, GenDoWhile, ExecDo, Run, Step, GenLoopBody;
    var b, g := |em.blocks|, DoOf(em, s);
    DoParts(p, em, s);
    var em0 := Emit(NewBlocks(em, 3), Br(Some(b)));
    StepBr(p, em, b, c) by { BrEmitted(p, em, em0, 3, b); }
    var c1 := Run(p, c, 1);
    KeepsSelf(c.m.regs, em.nextReg);
    var k2, c2 := SimDo(p, em, s, names, st, fuel, c1);
    var (o, st') := ExecDo(s.body, s.cond, Nests(em.loops), st, fuel);
    After(p, em, em, GenDoWhile(em, s), em.env, st'.store, o, st', fuel, fuel, c, 1, c1, k2, c2);
    k, c' := 1 + k2, c2;
    Weaken(em, GenDoWhile(em, s), em.env, st'.store, o, st', fuel, c, k, c');
  }

  // ----- switch ------------------------------------------------------------------------------

  lemma {:induction false} ArmsSelect(cases: seq<Case>, c: nat, d: nat, v: int)
    ensures ArmFor(v, d, Arms(cases, c))
            == if FirstCase(cases, v) < |cases| then c + FirstCase(cases, v) else d
  {
    if cases != [] {
      ArmsSelect(cases[1..], c + 1, d, v);
      match cases[0].value {
        case None =>
        case Some(n) => assert Arms(cases, c)[1..] == Arms(cases[1..], c + 1);
      }
    }
  }

  /** The block a switch on v jumps to. */
  lemma SwitchSelects(cases: seq<Case>, c: nat, exit: nat, v: int)
    ensures ArmFor(v, DefaultBlock(cases, c, exit), Arms(cases, c))
            == if EntryCase(cases, v) < |cases| then c + EntryCase(cases, v) else exit
  {
    ArmsSelect(cases, c, DefaultBlock(cases, c, exit), v);
  }

  /** The case bodies from the i-th on; exit is where the switch ends. */
  lemma {:induction false} SimCases(p: seq<Code>, em: Emitter, cases: seq<Case>, i: nat, first: nat,
                                    exit: nat, loops: seq<LoopCtx>, names: set<string>, st: State,
                                    fuel: nat, c: Machine) returns (k: nat, c': Machine)
    requires i <= |cases| && first + |cases| <= |em.blocks|
    requires em.loops == loops + [LoopCtx(None, exit, "")]
    requires forall j :: 0 <= j < |cases| ==> ScopedStmts(cases[j].body, names)
    requires Part(GenCases(em, cases, i, first, exit).blocks, p)
    requires forall j :: first + i <= j < first + |cases| ==> em.blocks[j] == []
    requires EnvOk(em.env, em.nextSlot) && Covers(em.env, names)
    requires c.Running? && c.b == (if i < |cases| then first + i else exit) && c.pc == 0
    requires Agree(em.env, st.store, c.m.slots) && c.m.out == st.out
    ensures Run(p, c, k) == c'
    ensures var (o, st') := ExecCases(cases, i, Nests(em.loops), st, fuel);
            if o == Normal then JumpDone(em, exit, em.env, st'.store, st'.out, c, c')
            else StmtDone(em, em, em.env, st'.store, o, st', fuel, c, k, c')
    decreases fuel, cases, |cases| - i
  {
    hide Touch, Part, Agree, Distinct, Below, Covers, Keeps, GenBlock, ExecBlock, Run, Step;
    if i == |cases| {
      k, c' := 0, c;
      RunZero(p, c);
      KeepsSelf(c.m.regs, em.nextReg);
    } else {
      var em0 := At(em, first + i);
      var em1 := GenBlock(em0, cases[i].body);
      var next := if i + 1 < |cases| then first + i + 1 else exit;
      var em2 := BrIfOpen(em1, next);
      CaseParts(p, em, cases, i, first, exit);
      k, c' := SimBlock(p, em0, cases[i].body, names, st, fuel, c);
      var (o, st1) := ExecBlock(cases[i].body, Nests(em.loops), st, fuel);
      if o.Normal? {
        StepBr(p, em1, next, c');
        var c2 := Run(p, c', 1);
        Chain(p, c, k, c', 1, c2);
        EnvOkLater(em.env, em.nextSlot, em2.nextSlot);
        var k3, c3 := SimCases(p, em2, cases, i + 1, first, exit, loops, names, st1, fuel, c2);
        var (o3, st3) := ExecCases(cases, i + 1, Nests(em.loops), st1, fuel);
        Chain(p, c, k + 1, c2, k3, c3);
        k, c' := k + 1 + k3, c3;
        if c3.Running? { KeepsTrans'(c, c2, c3, em.nextReg, em2.nextReg); }
      }
    }
  }

  /** The emitter when it comes to the i-th case. */
  lemma {:induction false} SkipCases(em: Emitter, cases: seq<Case>, j: nat, i: nat, first: nat, exit: nat)
    returns (r: Emitter)
    requires j <= i <= |cases| && first + |cases| <= |em.blocks|
    requires forall b :: first + j <= b < first + |cases| ==> em.blocks[b] == []
    ensures first + |cases| <= |r.blocks|
    ensures GenCases(r, cases, i, first, exit) == GenCases(em, cases, j, first, exit)
    ensures forall b :: first + i <= b < first + |cases| ==> r.blocks[b] == []
    ensures r.env == em.env && r.loops == em.loops
    ensures em.nextReg <= r.nextReg && em.nextSlot <= r.nextSlot
    decreases i - j
  {
    hide Touch, GenBlock;
    if i == j {
      r := em;
    } else {
      var em0 := At(em, first + j);
      var em1 := GenBlock(em0, cases[j].body);
      var next := if j + 1 < |cases| then first + j + 1 else exit;
      GrowsBlock(em0, cases[j].body);
      GrowsBrIfOpen(em0, em1, next);
      UntouchedCases(em0, BrIfOpen(em1, next), first + j, first + |cases|);
      r := SkipCases(BrIfOpen(em1, next), cases, j + 1, i, first, exit);
    }
  }

  lemma UntouchedCases(a: Emitter, b: Emitter, lo: nat, hi: nat)
    requires Grows(a, b) && a.cur == lo < hi <= |a.blocks|
    requires forall j :: lo <= j < hi ==> a.blocks[j] == []
    ensures forall j :: lo + 1 <= j < hi ==> b.blocks[j] == []
  {}

  lemma CaseParts(p: seq<Code>, em: Emitter, cases: seq<Case>, i: nat, first: nat, exit: nat)
    requires i < |cases| && first + |cases| <= |em.blocks|
    requires Part(GenCases(em, cases, i, first, exit).blocks, p)
    requires forall j :: first + i <= j < first + |cases| ==> em.blocks[j] == []
    ensures var em1 := GenBlock(At(em, first + i), cases[i].body);
            var em2 := BrIfOpen(em1, if i + 1 < |cases| then first + i + 1 else exit);
            && Part(em1.blocks, p) && Part(em2.blocks, p)
            && (forall j :: first + (i + 1) <= j < first + |cases| ==> em2.blocks[j] == [])
            && em1.env == em.env && em2.env == em.env
            && em.nextReg <= em2.nextReg && em.nextSlot <= em2.nextSlot
  {
    hide Part, GenBlock;
    var em0 := At(em, first + i);
    var em1 := GenBlock(em0, cases[i].body);
    var next := if i + 1 < |cases| then first + i + 1 else exit;
    var em2 := BrIfOpen(em1, next);
    GrowsBlock(em0, cases[i].body);
    GrowsBrIfOpen(em0, em1, next);
    GrowsCases(em2, cases, i + 1, first, exit);
    PartBefore(em2.blocks, GenCases(em2, cases, i + 1, first, exit).blocks, p,
               Span(first + (i + 1), first + |cases|));
    GrowsSelf(em1);
    GrowsBrIfOpen(em1, em1, next);
    PartBefore(em1.blocks, em2.blocks, p, {em1.cur});
  }

  /** The emitter inside a switch, just before its cases. */
  function InSwitch(em: Emitter, s: Stmt): Emitter
    requires s.Switch?
  {
    var em1 := SwitchHead(em, s).0;
    em1.(loops := em1.loops + [LoopCtx(None, |em.blocks|, "")])
  }

  lemma SwitchParts(p: seq<Code>, em: Emitter, s: Stmt)
    requires s.Switch? && Part(GenSwitch(em, s).blocks, p)
    ensures var (em1, first) := SwitchHead(em, s);
            var r := GenSwitch(em, s);
            && Part(em1.blocks, p) && Part(GenCases(InSwitch(em, s), s.cases, 0, first, |em.blocks|).blocks, p)
            && (forall j :: first <= j < first + |s.cases| ==> em1.blocks[j] == [])
            && r.blocks[|em.blocks|] == [] && r.cur == |em.blocks| && r.env == em.env
            && em1.env == em.env && em1.loops == em.loops
            && em.nextReg <= em1.nextReg && em.nextSlot <= em1.nextSlot
  {
    hide Part, GenExpr, GenBlock, Arms, DefaultBlock, SwitchHead, GenCases;
    var (em1, first) := SwitchHead(em, s);
    GrowsSwitchHead(em, s);
    GrowsSwitch(em, s);
    GrowsCases(InSwitch(em, s), s.cases, 0, first, |em.blocks|);
    PartBefore(em1.blocks, GenSwitch(em, s).blocks, p, Span(first + 0, first + |s.cases|));
  }

  /** From the switch to the first block it selects. */
  lemma SimSwitchHead(p: seq<Code>, em: Emitter, s: Stmt, names: set<string>, st: State, c: Machine)
    returns (k: nat, c': Machine)
    requires s.Switch? && StmtReady(em, names, st, c) && IntScoped(s.e, names)
    requires Part(SwitchHead(em, s).0.blocks, p)
    ensures Run(p, c, k) == c' && c'.Running? && c'.pc == 0
    ensures var (v, s1) := EvalExpr(s.e, st.store);
            var i, first := EntryCase(s.cases, v), SwitchHead(em, s).1;
            && c'.b == (if i < |s.cases| then first + i else |em.blocks|)
            && Agree(em.env, s1, c'.m.slots) && c'.m.out == st.out
            && Keeps(c.m.regs, c'.m.regs, em.nextReg)
  {
    hide Touch, Part, Agree, Distinct, Below, Covers, Keeps, GenExpr, EvalExpr, Run, Arms, DefaultBlock,
      EntryCase;
    var em0 := NewBlocks(em, 1);
    var (em1, v) := GenExpr(em0, s.e);
    var first := |em1.blocks|;
    var sw := SwitchBr(v, DefaultBlock(s.cases, first, |em.blocks|), Arms(s.cases, first));
    var em2 := Emit(em1, sw);
    GrowsNewBlocks(em2, |s.cases|);
    PartBefore(em2.blocks, SwitchHead(em, s).0.blocks, p, {em2.cur});
    GrowsEmit(em1, sw);
    PartBefore(em1.blocks, em2.blocks, p, {em1.cur});
    var k1, c1 := SimExpr(p, em0, s.e, names, st.store, c);
    StepEmitted(p, em1, sw, c1);
    c' := Step(p, c1);
    k := k1 + 1;
    Chain(p, c, k1, c1, 1, c');
    SwitchSelects(s.cases, first, |em.blocks|, EvalExpr(s.e, st.store).0);
  }

  lemma {:induction false} SimSwitch(p: seq<Code>, em: Emitter, s: Stmt, names: set<string>, st: State,
                                    fuel: nat, c: Machine) returns (k: nat, c': Machine)
    requires s.Switch?
    requires StmtReady(em, names, st, c) && ScopedStmt(s, names) && Part(GenStmt(em, s).blocks, p)
    ensures Run(p, c, k) == c'
    ensures var (o, st') := ExecStmt(s, Nests(em.loops), st, fuel);
            StmtDone(em, GenStmt(em, s), Pop(em.env), Pop(st'.store), o, st', fuel, c, k, c')
    decreases fuel, s, 2
  {
    hide Touch, Part, Agree, Distinct, Below, Covers, Keeps, GenSwitch, GenCases, ExecCases, EvalExpr, Run,
      Step, SwitchHead, EntryCase;
    var (em1, first) := SwitchHead(em, s);
    var b, em2 := |em.blocks|, InSwitch(em, s);
    SwitchParts(p, em, s);
    var k1, c1 := SimSwitchHead(p, em, s, names, st, c);
    var (v, s1) := EvalExpr(s.e, st.store);
    var st1, i := st.(store := s1), EntryCase(s.cases, v);
    EnvOkLater(em.env, em.nextSlot, em2.nextSlot);
    assert Nests(em2.loops) == Nests(em.loops) + [Nest("", false)];
    var emi := SkipCases(em2, s.cases, 0, i, first, b);
    EnvOkLater(em.env, em.nextSlot, emi.nextSlot);
    var k2, c2 := SimCases(p, emi, s.cases, i, first, b, em.loops, names, st1, fuel, c1);
    var (o1, st2) := ExecCases(s.cases, i, Nests(em2.loops), st1, fuel);
    Chain(p, c, k1, c1, k2, c2);
    k, c' := k1 + k2, c2;
    if c2.Running? { KeepsTrans'(c, c1, c2, em.nextReg, emi.nextReg); }
    if o1.BreakTo? || o1.ContinueTo? { PopAgrees(em.env, st2.store, c2.m.slots); }
  }

}
