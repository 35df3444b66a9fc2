/** What the generated blocks compute, with the numbers named outright. */
module LowerLaws {
  import opened Common
  import opened ScalarSource
  import opened ScalarCheck
  import opened ScalarLaws
  import opened Ir
  import opened LowerMain

  // ----- operators ---------------------------------------------------------------------------

  /** `return x op y` */
  function Returns(op: ArithOp, x: string, y: string): Function {
    Function([x, y], [Return(Some(Arith(op, Var(x), Var(y))))], false)
  }

  /** `print(x op y)` */
  function Prints(op: CmpOp, x: string, y: string): Function {
    Function([x, y], [Print(Cmp(op, Var(x), Var(y)))], true)
  }

  lemma OneStatement(s: Stmt, ctx: seq<Nest>, st: State, fuel: nat, names: set<string>)
    ensures ExecStmts([s], ctx, st, fuel) == ExecStmt(s, ctx, st, fuel)
    ensures ScopedStmts([s], names) <==> ScopedStmt(s, names)
  {
    hide ExecStmt, ScopedStmt;
    assert [s][1..] == [];
  }

  lemma VarScoped(x: string, names: set<string>)
    requires x in names
    ensures IntScoped(Var(x), names)
  {
    assert Scoped(Var(x), names);
  }

  lemma TwoParams(x: string, y: string, a: int, b: int)
    requires x != y
    ensures Bind([x, y], [a, b]) == map[x := a, y := b]
    ensures Read([Bind([x, y], [a, b])], x) == a && Read([Bind([x, y], [a, b])], y) == b
    ensures Names([x, y]) == {x, y}
  {
    assert [x, y][..1] == [x] && [a, b][..1] == [a];
    assert Bind([x], [a]) == Bind([x][..0], [a][..0])[x := a] == map[x := a];
  }

  lemma ReturnsApplied(op: ArithOp, x: string, y: string, a: int, b: int)
    requires x != y
    ensures MachineStops(Returns(op, x, y), [a, b], Done(Some(Apply(op, a, b)), []))
  {
    hide Apply;
    TwoParams(x, y, a, b);
    var f := Returns(op, x, y);
    var s, e := [Bind([x, y], [a, b])], Arith(op, Var(x), Var(y));
    assert EvalExpr(Var(x), s) == (a, s) && EvalExpr(Var(y), s) == (b, s);
    assert EvalExpr(e, s) == (Apply(op, a, b), s);
    var names := {x, y};
    assert x in names && y in names;
    VarScoped(x, names);
    VarScoped(y, names);
    assert Scoped(e, names);
    assert ExecStmt(f.body[0], [], State(s, []), 0) == (Returned(Some(Apply(op, a, b))), State(s, []));
    assert ScopedStmt(f.body[0], names);
    OneStatement(f.body[0], [], State(s, []), 0, names);
    assert f.body == [f.body[0]];
    hide Bind, Read, ExecStmts, ScopedStmts;
    assert Call(f, [a, b], 0) == (Returned(Some(Apply(op, a, b))), []);
    LoweringIsCorrect(f, [a, b], Returned(Some(Apply(op, a, b))), []);
  }

  lemma PrintsCompared(op: CmpOp, x: string, y: string, a: int, b: int)
    requires x != y
    ensures MachineStops(Prints(op, x, y), [a, b], Done(None, [Compare(op, a, b)]))
  {
    hide Compare;
    TwoParams(x, y, a, b);
    var f := Prints(op, x, y);
    var s, e := [Bind([x, y], [a, b])], Cmp(op, Var(x), Var(y));
    assert EvalExpr(Var(x), s) == (a, s) && EvalExpr(Var(y), s) == (b, s);
    assert EvalExpr(e, s) == (Compare(op, a, b), s);
    var names := {x, y};
    assert x in names && y in names;
    VarScoped(x, names);
    VarScoped(y, names);
    assert Scoped(e, names);
    assert [] + [Compare(op, a, b)] == [Compare(op, a, b)];
    assert ExecStmt(f.body[0], [], State(s, []), 0) == (Normal, State(s, [Compare(op, a, b)]));
    assert ScopedStmt(f.body[0], names);
    OneStatement(f.body[0], [], State(s, []), 0, names);
    assert f.body == [f.body[0]];
    hide Bind, Read, ExecStmts, ScopedStmts;
    assert Call(f, [a, b], 0) == (Returned(None), [Compare(op, a, b)]);
    LoweringIsCorrect(f, [a, b], Returned(None), [Compare(op, a, b)]);
  }

  /** The blocks of `return x + y` stop with what 32 bits keep of the sum; likewise - and *. */
  lemma SumIsReturned(x: string, y: string, a: int, b: int) returns (v: int)
    requires x != y
    ensures MachineStops(Returns(Add, x, y), [a, b], Done(Some(v), [])) && Keeps32(v, a + b)
  {
    v := Apply(Add, a, b);
    ReturnsApplied(Add, x, y, a, b);
    LowBits(a, b);
  }

  lemma DifferenceIsReturned(x: string, y: string, a: int, b: int) returns (v: int)
    requires x != y
    ensures MachineStops(Returns(Sub, x, y), [a, b], Done(Some(v), [])) && Keeps32(v, a - b)
  {
    v := Apply(Sub, a, b);
    ReturnsApplied(Sub, x, y, a, b);
    LowBits(a, b);
  }

  lemma ProductIsReturned(x: string, y: string, a: int, b: int) returns (v: int)
    requires x != y
    ensures MachineStops(Returns(Mul, x, y), [a, b], Done(Some(v), [])) && Keeps32(v, a * b)
  {
    v := Apply(Mul, a, b);
    ReturnsApplied(Mul, x, y, a, b);
    LowBits(a, b);
  }

  /** `return x / y` and `return x % y` stop with quotient and remainder of one division that
      truncates toward zero. */
  lemma QuotientIsReturned(x: string, y: string, a: int, b: int) returns (q: int, r: int)
    requires x != y && Divides(a, b)
    ensures MachineStops(Returns(Div, x, y), [a, b], Done(Some(q), []))
    ensures MachineStops(Returns(Rem, x, y), [a, b], Done(Some(r), []))
    ensures Truncates(a, b, q, r)
  {
    q, r := Apply(Div, a, b), Apply(Rem, a, b);
    ReturnsApplied(Div, x, y, a, b);
    ReturnsApplied(Rem, x, y, a, b);
    DivisionTruncates(a, b);
  }

  /** A printed comparison is 1 exactly when the relation that it names holds, and else 0. */
  lemma ComparisonIsPrinted(x: string, y: string, a: int, b: int)
    requires x != y
    ensures MachineStops(Prints(Eq, x, y), [a, b], Done(None, [if a == b then 1 else 0]))
    ensures MachineStops(Prints(Ne, x, y), [a, b], Done(None, [if a == b then 0 else 1]))
    ensures MachineStops(Prints(Lt, x, y), [a, b], Done(None, [if a < b then 1 else 0]))
    ensures MachineStops(Prints(Gt, x, y), [a, b], Done(None, [if b < a then 1 else 0]))
    ensures MachineStops(Prints(Le, x, y), [a, b], Done(None, [if b < a then 0 else 1]))
    ensures MachineStops(Prints(Ge, x, y), [a, b], Done(None, [if a < b then 0 else 1]))
  {
    hide MachineStops;
    PrintsCompared(Eq, x, y, a, b);
    PrintsCompared(Ne, x, y, a, b);
    PrintsCompared(Lt, x, y, a, b);
    PrintsCompared(Gt, x, y, a, b);
    PrintsCompared(Le, x, y, a, b);
    PrintsCompared(Ge, x, y, a, b);
    ComparesAsNamed(a, b);
  }

  // ----- other expressions -------------------------------------------------------------------

  /** `return e` with parameters x and y. */
  function ReturnsExpr(e: Expr, x: string, y: string): Function {
    Function([x, y], [Return(Some(e))], false)
  }

  /** `print(e); return x;` */
  function PrintsThenReturns(e: Expr, x: string, y: string): Function {
    Function([x, y], [Print(e), Return(Some(Var(x)))], false)
  }

  lemma ExprIsReturned(e: Expr, x: string, y: string, a: int, b: int, v: int)
    requires x != y && IntScoped(e, {x, y}) && EvalExpr(e, [map[x := a, y := b]]).0 == v
    ensures MachineStops(ReturnsExpr(e, x, y), [a, b], Done(Some(v), []))
  {
    TwoParams(x, y, a, b);
    var f, s := ReturnsExpr(e, x, y), [map[x := a, y := b]];
    assert ScopedStmt(f.body[0], {x, y});
    hide EvalExpr, Scoped, IntScoped;
    assert ExecStmt(f.body[0], [], State(s, []), 0).0 == Returned(Some(v));
    assert ExecStmt(f.body[0], [], State(s, []), 0).1.out == [];
    OneStatement(f.body[0], [], State(s, []), 0, {x, y});
    assert f.body == [f.body[0]];
    hide Bind, ExecStmts, ScopedStmts, ExecStmt, ScopedStmt;
    assert Call(f, [a, b], 0) == (Returned(Some(v)), []);
    LoweringIsCorrect(f, [a, b], Returned(Some(v)), []);
  }

  lemma PrintRuns(e: Expr, x: string, s: Store, v: int, a1: int)
    requires EvalExpr(e, s).0 == v && Read(EvalExpr(e, s).1, x) == a1
    ensures ExecStmts([Print(e), Return(Some(Var(x)))], [], State(s, []), 0)
            == (Returned(Some(a1)), State(EvalExpr(e, s).1, [v]))
  {
    var p, q, st := Print(e), Return(Some(Var(x))), State(EvalExpr(e, s).1, [v]);
    VarIsRead(x, st.store);
    hide EvalExpr, Read;
    assert [] + [v] == [v];
    assert ExecStmt(p, [], State(s, []), 0) == (Normal, st);
    assert ExecStmt(q, [], st, 0) == (Returned(Some(a1)), st);
    hide ExecStmt;
    OneStatement(q, [], st, 0, {});
    assert [p, q][1..] == [q];
  }

  lemma PrintIsScoped(e: Expr, x: string, names: set<string>)
    requires Scoped(e, names) && x in names
    ensures ScopedStmts([Print(e), Return(Some(Var(x)))], names)
  {
    var p, q := Print(e), Return(Some(Var(x)));
    VarScoped(x, names);
    assert ScopedStmt(p, names) && ScopedStmt(q, names);
    hide Scoped, IntScoped, ScopedStmt;
    OneStatement(q, [], State([], []), 0, names);
    assert [p, q][1..] == [q];
    assert names + {} == names;
  }

  lemma ExprIsPrinted(e: Expr, x: string, y: string, a: int, b: int, v: int, a1: int)
    requires x != y && Scoped(e, {x, y})
    requires var (u, s) := EvalExpr(e, [map[x := a, y := b]]); u == v && Read(s, x) == a1
    ensures MachineStops(PrintsThenReturns(e, x, y), [a, b], Done(Some(a1), [v]))
  {
    TwoParams(x, y, a, b);
    var f := PrintsThenReturns(e, x, y);
    PrintRuns(e, x, [map[x := a, y := b]], v, a1);
    PrintIsScoped(e, x, {x, y});
    hide EvalExpr, Scoped, Read, Bind, ExecStmts, ScopedStmts, MachineStops;
    assert Call(f, [a, b], 0) == (Returned(Some(a1)), [v]);
    LoweringIsCorrect(f, [a, b], Returned(Some(a1)), [v]);
  }

  lemma VarIsRead(x: string, s: Store)
    ensures EvalExpr(Var(x), s) == (Read(s, x), s)
  {}

  lemma TwoVars(x: string, y: string, a: int, b: int)
    requires x != y
    ensures var s := [map[x := a, y := b]];
      && EvalExpr(Var(x), s) == (a, s) && EvalExpr(Var(y), s) == (b, s)
      && (forall v :: Write(s, x, v) == [map[x := v, y := b]])
    ensures IntScoped(Var(x), {x, y}) && IntScoped(Var(y), {x, y})
  {
    var s := [map[x := a, y := b]];
    assert Level(s, x) == 1 && Level(s, y) == 1;
    forall v ensures Write(s, x, v) == [map[x := v, y := b]] {
      assert map[x := a, y := b][x := v] == map[x := v, y := b];
    }
    VarScoped(x, {x, y});
    VarScoped(y, {x, y});
  }

  /** `return -x` stops with what 32 bits keep of -a. */
  lemma NegativeIsReturned(x: string, y: string, a: int, b: int) returns (v: int)
    requires x != y
    ensures MachineStops(ReturnsExpr(Neg(Var(x)), x, y), [a, b], Done(Some(v), [])) && Keeps32(v, -a)
  {
    v := Apply(Sub, 0, a);
    TwoVars(x, y, a, b);
    LowBits(0, a);
    hide Apply;
    assert Scoped(Neg(Var(x)), {x, y});
    ExprIsReturned(Neg(Var(x)), x, y, a, b, v);
  }

  /** `print(x -= y)` prints the difference, which x has afterwards; so for + and *. */
  lemma CompoundIsPrinted(x: string, y: string, a: int, b: int, op: ArithOp) returns (v: int)
    requires x != y && op in {Add, Sub, Mul}
    ensures MachineStops(PrintsThenReturns(Compound(op, x, Var(y)), x, y), [a, b], Done(Some(v), [v]))
    ensures Keeps32(v, if op == Add then a + b else if op == Sub then a - b else a * b)
  {
    v := Apply(op, a, b);
    TwoVars(x, y, a, b);
    LowBits(a, b);
    hide Apply;
    var e, s1 := Compound(op, x, Var(y)), [map[x := v, y := b]];
    assert Scoped(e, {x, y});
    assert Read([map[x := a, y := b]], x) == a;
    assert EvalExpr(e, [map[x := a, y := b]]) == (v, s1);
    assert Read(s1, x) == v by { TwoVars(x, y, v, b); }
    ExprIsPrinted(e, x, y, a, b, v, v);
  }

  /** `print(x++)` prints what x was and `print(++x)` what it is then, one more; so one less for --. */
  lemma StepIsPrinted(x: string, y: string, a: int, b: int, up: bool, prefix: bool) returns (v: int)
    requires x != y
    ensures MachineStops(PrintsThenReturns(IncDec(x, up, prefix), x, y), [a, b],
                         Done(Some(v), [if prefix then v else a]))
    ensures Keeps32(v, if up then a + 1 else a - 1)
  {
    v := Apply(if up then Add else Sub, a, 1);
    TwoVars(x, y, a, b);
    LowBits(a, 1);
    hide Apply;
    var e, s1 := IncDec(x, up, prefix), [map[x := v, y := b]];
    assert Scoped(e, {x, y});
    assert Read([map[x := a, y := b]], x) == a;
    assert EvalExpr(e, [map[x := a, y := b]]) == (if prefix then v else a, s1);
    assert Read(s1, x) == v by { TwoVars(x, y, v, b); }
    ExprIsPrinted(e, x, y, a, b, if prefix then v else a, v);
  }

  /** `&&`, `||` and `!` print 1 exactly when they hold, nonzero standing for true; and `x && (x = y)`
      assigns only when x is nonzero, `x || (x = y)` only when it is zero. */
  lemma LogicIsPrinted(x: string, y: string, a: int, b: int)
    requires x != y
    ensures MachineStops(PrintsThenReturns(And(Var(x), Assign(x, Var(y))), x, y), [a, b],
                         if a != 0 then Done(Some(b), [if b != 0 then 1 else 0]) else Done(Some(a), [0]))
    ensures MachineStops(PrintsThenReturns(Or(Var(x), Assign(x, Var(y))), x, y), [a, b],
                         if a != 0 then Done(Some(a), [1]) else Done(Some(b), [if b != 0 then 1 else 0]))
    ensures MachineStops(PrintsThenReturns(Not(Var(x)), x, y), [a, b], Done(Some(a), [if a != 0 then 0 else 1]))
  {
    TwoVars(x, y, a, b);
    TwoVars(x, y, b, b);
    var s, s1, set_ := [map[x := a, y := b]], [map[x := b, y := b]], Assign(x, Var(y));
    assert EvalExpr(set_, s) == (b, s1);
    assert Scoped(set_, {x, y}) && Scoped(Var(x), {x, y});
    assert Read(s, x) == a && Read(s1, x) == b;
    hide MachineStops, IntScoped, Read;
    var both, either, no := And(Var(x), set_), Or(Var(x), set_), Not(Var(x));
    assert EvalExpr(both, s) == if a != 0 then (Bit(b != 0), s1) else (0, s);
    assert EvalExpr(either, s) == if a != 0 then (1, s) else (Bit(b != 0), s1);
    assert EvalExpr(no, s) == (Bit(a == 0), s);
    assert Scoped(both, {x, y}) && Scoped(either, {x, y}) && Scoped(no, {x, y});
    ExprIsPrinted(both, x, y, a, b, EvalExpr(both, s).0, if a != 0 then b else a);
    ExprIsPrinted(either, x, y, a, b, EvalExpr(either, s).0, if a != 0 then a else b);
    ExprIsPrinted(no, x, y, a, b, EvalExpr(no, s).0, a);
  }

  // ----- range loops -------------------------------------------------------------------------

  /** `for x in lo..<hi { print(x) }`, or with `..=` */
  function Counts(x: string, lo: string, hi: string, inclusive: bool): Function {
    Function([lo, hi], [ForRange(x, Var(lo), Var(hi), inclusive, [Print(Var(x))])], true)
  }

  /** v, v + 1, ..., end - 1 */
  function UpTo(v: int, end: int): (r: seq<int>)
    ensures |r| == (if v < end then end - v else 0)
    ensures forall k :: 0 <= k < |r| ==> r[k] == v + k
    decreases end - v
  {
    if v >= end then [] else [v] + UpTo(v + 1, end)
  }

  lemma RoundPrints(s: map<string, int>, x: string, v: int, out: seq<int>, ctx: seq<Nest>, fuel: nat)
    ensures ExecBlock([Print(Var(x))], ctx, State([s, map[x := v]], out), fuel)
            == (Normal, State([s, map[x := v]], out + [v]))
  {
    var s1, s2, p := [s, map[x := v]], [s, map[x := v], map[]], Print(Var(x));
    assert s1 + [map[]] == s2 && s2[..2] == s1;
    assert Level(s1, x) == 2 && Level(s2, x) == 2;
    assert EvalExpr(Var(x), s2) == (v, s2);
    hide EvalExpr, Level;
    OneStatement(p, ctx, State(s2, out), fuel, {});
    assert ExecStmt(p, ctx, State(s2, out), fuel) == (Normal, State(s2, out + [v]));
    hide ExecStmt, ExecStmts;
  }

  lemma RoundSteps(s: map<string, int>, x: string, v: int)
    ensures Read([s, map[x := v]], x) == v
    ensures AfterRound(Some(IncDec(x, true, true)), [s, map[x := v]]) == [s, map[x := Apply(Add, v, 1)]]
  {
    hide Apply;
    var s1, w := [s, map[x := v]], Apply(Add, v, 1);
    assert Level(s1, x) == 2;
    assert map[x := v][x := w] == map[x := w];
    assert s1[1 := map[x := w]] == [s, map[x := w]];
  }

  /** One round prints the variable and adds one to it. */
  lemma RoundRuns(s: map<string, int>, x: string, v: int, out: seq<int>, ctx: seq<Nest>, fuel: nat)
    ensures Read([s, map[x := v]], x) == v
    ensures ExecBlock([Print(Var(x))], ctx, State([s, map[x := v]], out), fuel)
            == (Normal, State([s, map[x := v]], out + [v]))
    ensures AfterRound(Some(IncDec(x, true, true)), [s, map[x := v]]) == [s, map[x := Apply(Add, v, 1)]]
  {
    hide Read, ExecBlock, AfterRound, Apply;
    RoundPrints(s, x, v, out, ctx, fuel);
    RoundSteps(s, x, v);
  }

  lemma {:induction false} LoopCounts(s: map<string, int>, x: string, v: int, hi: int, inclusive: bool, out: seq<int>,
                                      fuel: nat)
    requires InRange(v) && InRange(hi) && (inclusive ==> InRange(hi + 1))
    requires var end := if inclusive then hi + 1 else hi; v <= end && end - v < fuel
    ensures var end := if inclusive then hi + 1 else hi;
      ExecLoop(GuardRange(x, hi, inclusive), [Print(Var(x))], Some(IncDec(x, true, true)), [], "",
               State([s, map[x := v]], out), fuel)
      == (Normal, State([s, map[x := end]], out + UpTo(v, end)))
    decreases fuel
  {
    hide ExecBlock, AfterRound, Read;
    var end := if inclusive then hi + 1 else hi;
    RoundRuns(s, x, v, out, [Nest("", true)], fuel - 1);
    assert [] + [Nest("", true)] == [Nest("", true)];
    if v < end {
      LowBits(v, 1);
      KeptIsUnique(Apply(Add, v, 1), v + 1, v + 1);
      LoopCounts(s, x, v + 1, hi, inclusive, out + [v], fuel - 1);
      assert out + [v] + UpTo(v + 1, end) == out + UpTo(v, end);
    } else {
      assert out + UpTo(v, end) == out;
    }
  }

  /** A loop whose bounds are crossed prints nothing. */
  lemma LoopSkips(s: map<string, int>, x: string, v: int, hi: int, inclusive: bool, out: seq<int>, fuel: nat)
    requires (if inclusive then hi + 1 else hi) <= v && fuel > 0
    ensures ExecLoop(GuardRange(x, hi, inclusive), [Print(Var(x))], Some(IncDec(x, true, true)), [], "",
                     State([s, map[x := v]], out), fuel)
            == (Normal, State([s, map[x := v]], out))
  {
    RoundRuns(s, x, v, out, [], fuel);
  }

  /** The loop that prints up to the greatest integer, that integer included, goes on for ever. */
  lemma {:induction false} LoopGoesOn(s: map<string, int>, x: string, v: int, out: seq<int>, fuel: nat)
    requires InRange(v)
    ensures ExecLoop(GuardRange(x, 0x7fff_ffff, true), [Print(Var(x))], Some(IncDec(x, true, true)), [], "",
                     State([s, map[x := v]], out), fuel).0 == Timeout
    decreases fuel
  {
    hide ExecBlock, AfterRound, Read, Apply;
    if fuel > 0 {
      RoundRuns(s, x, v, out, [Nest("", true)], fuel - 1);
      assert [] + [Nest("", true)] == [Nest("", true)];
      LowBits(v, 1);
      LoopGoesOn(s, x, Apply(Add, v, 1), out + [v], fuel - 1);
    }
  }

  lemma CountsIsScoped(x: string, lo: string, hi: string, inclusive: bool)
    requires x != lo && x != hi
    ensures ScopedFunction(Counts(x, lo, hi, inclusive))
  {
    var names := Names([lo, hi]);
    var f := Counts(x, lo, hi, inclusive);
    VarScoped(lo, names);
    VarScoped(hi, names);
    VarScoped(x, names + {x});
    OneStatement(Print(Var(x)), [], State([], []), 0, names + {x});
    assert ScopedStmt(Print(Var(x)), names + {x});
    assert f.body == [f.body[0]];
    assert ScopedStmt(f.body[0], names);
    OneStatement(f.body[0], [], State([], []), 0, names);
  }

  /** A call of the counting function is its loop. */
  lemma CountsCall(x: string, lo: string, hi: string, inclusive: bool, a: int, b: int, fuel: nat)
    requires x != lo && x != hi && lo != hi
    ensures var (o, st) := ExecLoop(GuardRange(x, b, inclusive), [Print(Var(x))], Some(IncDec(x, true, true)), [],
                                    "", State([Bind([lo, hi], [a, b]), map[x := a]], []), fuel);
      Call(Counts(x, lo, hi, inclusive), [a, b], fuel)
      == (if o.Normal? then Returned(None) else o, st.out)
  {
    hide ExecLoop;
    TwoParams(lo, hi, a, b);
    var f := Counts(x, lo, hi, inclusive);
    var s := [Bind([lo, hi], [a, b])];
    assert EvalExpr(Var(lo), s) == (a, s) && EvalExpr(Var(hi), s) == (b, s);
    assert s + [map[x := a]] == [Bind([lo, hi], [a, b]), map[x := a]];
    OneStatement(f.body[0], [], State(s, []), fuel, {});
    assert f.body == [f.body[0]];
    hide ExecStmts, Bind;
  }

  /** A range loop prints the integers of the range, one after the other and no others, when it ends;
      and it ends exactly when it is not up to and including the greatest integer. */
  lemma RangeIsPrinted(x: string, lo: string, hi: string, inclusive: bool, a: int, b: int)
    requires x != lo && x != hi && lo != hi && InRange(a) && InRange(b)
    ensures var f := Counts(x, lo, hi, inclusive);
      if inclusive && b == 0x7fff_ffff then NeverStops(f, [a, b])
      else MachineStops(f, [a, b], Done(None, UpTo(a, if inclusive then b + 1 else b)))
  {
    hide MachineStops, NeverStops, ExecLoop, Call, UpTo, Bind, ScopedFunction;
    var f, s := Counts(x, lo, hi, inclusive), Bind([lo, hi], [a, b]);
    CountsIsScoped(x, lo, hi, inclusive);
    if inclusive && b == 0x7fff_ffff {
      forall fuel: nat ensures Call(f, [a, b], fuel).0 == Timeout {
        CountsCall(x, lo, hi, inclusive, a, b, fuel);
        LoopGoesOn(s, x, a, [], fuel);
      }
      DivergenceIsPreserved(f, [a, b]);
    } else {
      var end := if inclusive then b + 1 else b;
      var fuel: nat := if a <= end then end - a + 1 else 1;
      CountsCall(x, lo, hi, inclusive, a, b, fuel);
      if a <= end {
        LoopCounts(s, x, a, b, inclusive, [], fuel);
        assert [] + UpTo(a, end) == UpTo(a, end);
      } else {
        LoopSkips(s, x, a, b, inclusive, [], fuel);
        assert UpTo(a, end) == [];
      }
      assert Call(f, [a, b], fuel) == (Returned(None), UpTo(a, end));
      LoweringIsCorrect(f, [a, b], Returned(None), UpTo(a, end));
    }
  }

  // ----- branches ----------------------------------------------------------------------------

  /** `if (x) { return y; } else { return x; }` */
  function Branches(x: string, y: string): Function {
    Function([x, y], [If(Var(x), [Return(Some(Var(y)))], [Return(Some(Var(x)))])], false)
  }

  lemma BlockReturns(x: string, s: Store)
    ensures var (o, st) := ExecBlock([Return(Some(Var(x)))], [], State(s, []), 0);
      o == Returned(Some(Read(s, x))) && st.out == []
  {
    var s1, r := s + [map[]], Return(Some(Var(x)));
    assert s1[..|s|] == s;
    assert Level(s1, x) == Level(s, x);
    VarIsRead(x, s1);
    assert Read(s1, x) == Read(s, x);
    hide Read;
    OneStatement(r, [], State(s1, []), 0, {});
    assert ExecStmt(r, [], State(s1, []), 0) == (Returned(Some(Read(s, x))), State(s1, []));
  }

  /** The first branch is taken exactly when the condition is not zero. */
  lemma BranchIsTaken(x: string, y: string, a: int, b: int)
    requires x != y
    ensures MachineStops(Branches(x, y), [a, b], Done(Some(if a != 0 then b else 0), []))
  {
    TwoParams(x, y, a, b);
    TwoVars(x, y, a, b);
    var f, s, v := Branches(x, y), [map[x := a, y := b]], if a != 0 then b else 0;
    var i := f.body[0];
    BlockReturns(x, s);
    BlockReturns(y, s);
    assert Read(s, x) == a && Read(s, y) == b;
    hide ExecBlock, Read, Bind, MachineStops;
    assert ExecStmt(i, [], State(s, []), 0).0 == Returned(Some(v)) && ExecStmt(i, [], State(s, []), 0).1.out == [];
    OneStatement(i, [], State(s, []), 0, {x, y});
    OneStatement(Return(Some(Var(x))), [], State(s, []), 0, {x, y});
    OneStatement(Return(Some(Var(y))), [], State(s, []), 0, {x, y});
    assert ScopedStmt(Return(Some(Var(x))), {x, y}) && ScopedStmt(Return(Some(Var(y))), {x, y});
    assert ScopedStmt(i, {x, y});
    assert f.body == [i];
    hide ExecStmts, ScopedStmts, ExecStmt, ScopedStmt;
    assert Call(f, [a, b], 0) == (Returned(Some(v)), []);
    LoweringIsCorrect(f, [a, b], Returned(Some(v)), []);
  }

  // ----- labels ------------------------------------------------------------------------------

  /** `while@l (1) { while (1) { break l; } }` */
  function LabelledBreak(l: string): Function {
    Function([], [While(Some(l), Lit(1), [While(None, Lit(1), [Break(Some(l))])])], true)
  }

  /** A break with a label leaves the loop of that label: the function returns. */
  lemma LabelledBreakLeavesBoth(l: string)
    requires l != ""
    ensures MachineStops(LabelledBreak(l), [], Done(None, []))
  {
    var f, inner, st := LabelledBreak(l), While(None, Lit(1), [Break(Some(l))]), State([map[]], []);
    var ctx := [Nest(l, true), Nest("", true)];
    var st1, st2 := State([map[], map[]], []), State([map[], map[], map[]], []);
    assert st.store + [map[]] == st1.store && st1.store + [map[]] == st2.store;
    assert Pop(st2.store) == st1.store && Pop(st1.store) == st.store;
    assert ctx[..1] == [Nest(l, true)];
    LabelIsInnermost(ctx, l);
    assert InnermostLabel(ctx, l, 0);
    assert ExecStmt(Break(Some(l)), ctx, st2, 0) == (BreakTo(0), st2);
    OneStatement(Break(Some(l)), ctx, st2, 0, {});
    assert ExecBlock([Break(Some(l))], ctx, st1, 0) == (BreakTo(0), st1);
    assert [Nest(l, true)] + [Nest("", true)] == ctx;
    assert ExecStmt(inner, [Nest(l, true)], st1, 1) == (BreakTo(0), st1);
    OneStatement(inner, [Nest(l, true)], st1, 1, {});
    assert ExecBlock([inner], [Nest(l, true)], st, 1) == (BreakTo(0), st);
    assert [] + [Nest(l, true)] == [Nest(l, true)];
    assert ExecStmt(f.body[0], [], st, 2) == (Normal, st);
    assert f.body == [f.body[0]];
    OneStatement(f.body[0], [], st, 2, {});
    assert Call(f, [], 2) == (Returned(None), []);
    OneStatement(Break(Some(l)), [], st, 0, Names([]));
    OneStatement(inner, [], st, 0, Names([]));
    OneStatement(f.body[0], [], st, 0, Names([]));
    LoweringIsCorrect(f, [], Returned(None), []);
  }
}
