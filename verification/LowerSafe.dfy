/** A function without a live stray continue never gets stuck. */
module LowerSafe {
  import opened Common
  import opened ScalarSource
  import opened ScalarCheck
  import opened Ir
  import opened Lower
  import opened LowerBlocks
  import opened LowerMain

  lemma {:induction false} SafeStmts(ss: seq<Stmt>, ctx: seq<Nest>, st: State, fuel: nat)
    requires !SomeStrays(ss, ctx)
    ensures ExecStmts(ss, ctx, st, fuel).0 != Wrong
    ensures SomeEnds(ss, ctx) ==> ExecStmts(ss, ctx, st, fuel).0 != Normal
    decreases fuel, ss, 1
  {
    hide Ends, Strays, ExecStmt;
    if ss != [] {
      SafeStmt(ss[0], ctx, st, fuel);
      var (o, st1) := ExecStmt(ss[0], ctx, st, fuel);
      if o.Normal? { SafeStmts(ss[1..], ctx, st1, fuel); }
    }
  }

  lemma {:induction false} SafeBlock(ss: seq<Stmt>, ctx: seq<Nest>, st: State, fuel: nat)
    requires !SomeStrays(ss, ctx)
    ensures ExecBlock(ss, ctx, st, fuel).0 != Wrong
    ensures SomeEnds(ss, ctx) ==> ExecBlock(ss, ctx, st, fuel).0 != Normal
    decreases fuel, ss, 2
  {
    hide SomeEnds, SomeStrays, ExecStmts;
    SafeStmts(ss, ctx, st.(store := st.store + [map[]]), fuel);
  }

  lemma {:induction false} SafeStmt(s: Stmt, ctx: seq<Nest>, st: State, fuel: nat)
    requires !Strays(s, ctx)
    ensures ExecStmt(s, ctx, st, fuel).0 != Wrong
    ensures Ends(s, ctx) ==> ExecStmt(s, ctx, st, fuel).0 != Normal
    decreases fuel, s, 3
  {
    hide SomeEnds, SomeStrays, CasesStray, ExecBlock, ExecLoop, ExecDo, ExecCases, EvalExpr;
    match s {
      case Block(body) => SafeBlock(body, ctx, st, fuel);
      case If(c, t, f) =>
        var (v, s1) := EvalExpr(c, st.store);
        SafeBlock(if v != 0 then t else f, ctx, st.(store := s1), fuel);
      case While(tag, c, body) => SafeLoop(GuardExpr(c), body, None, ctx, LabelText(tag), st, fuel);
      case DoWhile(body, c) => SafeDo(body, c, ctx, st, fuel);
      case ForRange(x, lo, hi, inclusive, body) =>
        var (a, s1) := EvalExpr(lo, st.store);
        var (b, s2) := EvalExpr(hi, s1);
        SafeLoop(GuardRange(x, b, inclusive), body, Some(IncDec(x, true, true)), ctx, "",
                 st.(store := s2 + [map[x := a]]), fuel);
      case ForC(x, start, c, incr, body) =>
        var (a, s1) := EvalExpr(start, st.store);
        SafeLoop(GuardExpr(c), body, Some(incr), ctx, "", st.(store := s1 + [map[x := a]]), fuel);
      case Switch(e, cases) =>
        var (v, s1) := EvalExpr(e, st.store);
        StrayLater(cases, 0, EntryCase(cases, v), ctx + [Nest("", false)]);
        SafeCases(cases, EntryCase(cases, v), ctx + [Nest("", false)], st.(store := s1), fuel);
      case _ =>
    }
  }

  lemma {:induction false} SafeLoop(g: Guard, body: seq<Stmt>, incr: Option<Expr>, ctx: seq<Nest>,
                                    tag: string, st: State, fuel: nat)
    requires !SomeStrays(body, ctx + [Nest(tag, true)])
    ensures ExecLoop(g, body, incr, ctx, tag, st, fuel).0 != Wrong
    decreases fuel, body, 2
  {
    hide SomeEnds, SomeStrays, ExecBlock;
    if fuel > 0 {
      var (v, s1) := EvalGuard(g, st.store);
      SafeBlock(body, ctx + [Nest(tag, true)], st.(store := s1), fuel - 1);
      var (o, st1) := ExecBlock(body, ctx + [Nest(tag, true)], st.(store := s1), fuel - 1);
      SafeLoop(g, body, incr, ctx, tag, st1.(store := AfterRound(incr, st1.store)), fuel - 1);
    }
  }

  lemma {:induction false} SafeDo(body: seq<Stmt>, c: Expr, ctx: seq<Nest>, st: State, fuel: nat)
    requires !SomeStrays(body, ctx + [Nest("", true)])
    ensures ExecDo(body, c, ctx, st, fuel).0 != Wrong
    decreases fuel, body, 3
  {
    hide SomeEnds, SomeStrays, ExecBlock;
    if fuel > 0 {
      SafeBlock(body, ctx + [Nest("", true)], st, fuel);
      var (o, st1) := ExecBlock(body, ctx + [Nest("", true)], st, fuel);
      SafeDo(body, c, ctx, st1.(store := EvalExpr(c, st1.store).1), fuel - 1);
    }
  }

  lemma {:induction false} StrayLater(cases: seq<Case>, i: nat, j: nat, ctx: seq<Nest>)
    requires i <= j <= |cases| && !CasesStray(cases, i, ctx)
    ensures !CasesStray(cases, j, ctx)
    decreases j - i
  {
    if i < j { StrayLater(cases, i + 1, j, ctx); }
  }

  lemma {:induction false} SafeCases(cases: seq<Case>, i: nat, ctx: seq<Nest>, st: State, fuel: nat)
    requires i <= |cases| && !CasesStray(cases, i, ctx)
    ensures ExecCases(cases, i, ctx, st, fuel).0 != Wrong
    decreases fuel, cases, |cases| - i
  {
    hide SomeEnds, SomeStrays, ExecBlock;
    if i < |cases| {
      SafeBlock(cases[i].body, ctx, st, fuel);
      SafeCases(cases, i + 1, ctx, ExecBlock(cases[i].body, ctx, st, fuel).1, fuel);
    }
  }

  /** When no branch goes nowhere, the generated code never gets stuck: it returns what the source
      returns, or both run forever. */
  lemma NeverStuck(f: Function, args: seq<int>, k: nat)
    requires ScopedFunction(f) && |args| == |f.params| && NullFree(Compiled(f))
    ensures !Run(Compiled(f), Entry(args), k).Stuck?
  {
    hide Compiled, ExecStmts, Run;
    var c := Run(Compiled(f), Entry(args), k);
    if c.Stuck? {
      LoweringIsCorrect(f, args, Wrong, c.out);
      assert MachineStops(f, args, Final(Wrong, c.out));
      var fuel :| Call(f, args, fuel) == (Wrong, c.out);
      BlocksAreWellFormed(f);
      SafeStmts(f.body, [], State([Bind(f.params, args)], []), fuel);
      assert false;
    }
  }
}
