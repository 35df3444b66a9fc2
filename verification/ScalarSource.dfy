/** The scalar statements of Dux (integer variables of one 32-bit width) and what they mean.

    Statements follow the shapes the parser builds: branches and loop bodies are blocks, labels sit
    on `while` only.  Meaning is given by a definitional interpreter with a budget of loop
    iterations; a run that exhausts it is `Timeout`. */
module ScalarSource {
  import opened Common

  datatype ArithOp = Add | Sub | Mul | Div | Rem

  datatype CmpOp = Eq | Ne | Lt | Gt | Le | Ge

  datatype Expr =
    | Lit(n: int)
    | Var(x: string)
    | Arith(aop: ArithOp, l: Expr, r: Expr)
    | Cmp(cop: CmpOp, l: Expr, r: Expr)
    | And(l: Expr, r: Expr)
    | Or(l: Expr, r: Expr)
    | Not(e: Expr)
    | Neg(e: Expr)
    | Assign(x: string, e: Expr)                              // x = e
    | Compound(aop: ArithOp, x: string, e: Expr)              // x += e, ...
    | IncDec(x: string, up: bool, prefix: bool)               // x++, ++x, x--, --x
  {
    /** Comparisons and logical operators yield one bit; the rest yield the integer width. */
    predicate IsBool() { Cmp? || And? || Or? || Not? }
  }

  datatype Stmt =
    | Eval(e: Expr)
    | Print(e: Expr)
    | Decl(x: string, init: Option<Expr>)
    | Block(body: seq<Stmt>)
    | If(cond: Expr, thenBr: seq<Stmt>, elseBr: seq<Stmt>)    // a missing else is an empty one
    | While(tag: Option<string>, cond: Expr, body: seq<Stmt>)
    | DoWhile(body: seq<Stmt>, cond: Expr)
    | ForRange(x: string, lo: Expr, hi: Expr, inclusive: bool, body: seq<Stmt>)
    | ForC(x: string, start: Expr, cond: Expr, incr: Expr, body: seq<Stmt>)
    | Switch(e: Expr, cases: seq<Case>)
    | Break(target: Option<string>)
    | Continue(target: Option<string>)
    | Return(value: Option<Expr>)

  /** `default` is the case without a value; it may stand anywhere. */
  datatype Case = Case(value: Option<int>, body: seq<Stmt>)

  // ----- 32-bit arithmetic -------------------------------------------------------------------

  /** The two's complement value of the low 32 bits. */
  function Wrap(n: int): int {
    (n + 0x8000_0000) % 0x1_0000_0000 - 0x8000_0000
  }

  /** Division truncates toward zero.  A zero divisor is undefined behaviour of the target, so any
      fixed result will do. */
  function Quotient(a: int, b: int): int {
    if b == 0 then 0
    else if (a < 0) == (b < 0) then (if a < 0 then -a else a) / (if b < 0 then -b else b)
    else -((if a < 0 then -a else a) / (if b < 0 then -b else b))
  }

  function Apply(op: ArithOp, a: int, b: int): int {
    match op
    case Add => Wrap(a + b)
    case Sub => Wrap(a - b)
    case Mul => Wrap(a * b)
    case Div => Wrap(Quotient(a, b))
    case Rem => Wrap(a - b * Quotient(a, b))
  }

  function Bit(b: bool): int { if b then 1 else 0 }

  function Compare(op: CmpOp, a: int, b: int): int {
    match op
    case Eq => Bit(a == b)
    case Ne => Bit(a != b)
    case Lt => Bit(a < b)
    case Gt => Bit(a > b)
    case Le => Bit(a <= b)
    case Ge => Bit(a >= b)
  }

  // ----- scopes ------------------------------------------------------------------------------

  /** A stack of scopes, innermost last. */
  type Scopes<V> = seq<map<string, V>>

  /** One more than the level of the innermost scope that binds x; 0 when no scope does. */
  function Level<V>(ss: Scopes<V>, x: string): (n: nat)
    ensures n <= |ss|
    ensures n > 0 ==> x in ss[n - 1]
  {
    if |ss| == 0 then 0
    else if x in ss[|ss| - 1] then |ss|
    else Level(ss[..|ss| - 1], x)
  }

  function Find<V>(ss: Scopes<V>, x: string): Option<V> {
    var n := Level(ss, x);
    if n == 0 then None else Some(ss[n - 1][x])
  }

  function Define<V>(ss: Scopes<V>, x: string, v: V): (r: Scopes<V>)
    ensures |r| == |ss|
  {
    if |ss| == 0 then ss else ss[|ss| - 1 := ss[|ss| - 1][x := v]]
  }

  function Pop<V>(ss: Scopes<V>): Scopes<V> {
    if |ss| == 0 then ss else ss[..|ss| - 1]
  }

  type Store = Scopes<int>

  function Read(s: Store, x: string): int {
    match Find(s, x) case Some(v) => v case None => 0
  }

  function Write(s: Store, x: string, v: int): (r: Store)
    ensures |r| == |s|
  {
    var n := Level(s, x);
    if n == 0 then s else s[n - 1 := s[n - 1][x := v]]
  }

  // ----- expressions -------------------------------------------------------------------------

  function EvalExpr(e: Expr, s: Store): (r: (int, Store))
    ensures |r.1| == |s|
  {
    match e
    case Lit(n) => (Wrap(n), s)
    case Var(x) => (Read(s, x), s)
    case Arith(op, l, r) =>
      var (a, s1) := EvalExpr(l, s);
      var (b, s2) := EvalExpr(r, s1);
      (Apply(op, a, b), s2)
    case Cmp(op, l, r) =>
      var (a, s1) := EvalExpr(l, s);
      var (b, s2) := EvalExpr(r, s1);
      (Compare(op, a, b), s2)
    case And(l, r) =>
      var (a, s1) := EvalExpr(l, s);
      if a == 0 then (0, s1)
      else var (b, s2) := EvalExpr(r, s1); (Bit(b != 0), s2)
    case Or(l, r) =>
      var (a, s1) := EvalExpr(l, s);
      if a != 0 then (1, s1)
      else var (b, s2) := EvalExpr(r, s1); (Bit(b != 0), s2)
    case Not(e1) =>
      var (a, s1) := EvalExpr(e1, s);
      (Bit(a == 0), s1)
    case Neg(e1) =>
      var (a, s1) := EvalExpr(e1, s);
      (Apply(Sub, 0, a), s1)
    case Assign(x, e1) =>
      var (a, s1) := EvalExpr(e1, s);
      (a, Write(s1, x, a))
    case Compound(op, x, e1) =>
      // the variable is read after the right-hand side has run
      var (b, s1) := EvalExpr(e1, s);
      var v := Apply(op, Read(s1, x), b);
      (v, Write(s1, x, v))
    case IncDec(x, up, prefix) =>
      var a := Read(s, x);
      var v := Apply(if up then Add else Sub, a, 1);
      (if prefix then v else a, Write(s, x, v))
  }

  // ----- statements --------------------------------------------------------------------------

  datatype State = State(store: Store, out: seq<int>)

  /** What a statement sits in, outermost first: loops with their labels, and switches. */
  datatype Nest = Nest(tag: string, isLoop: bool)

  datatype Outcome =
    | Normal
    | BreakTo(level: nat)
    | ContinueTo(level: nat)
    | Returned(v: Option<int>)
    | Wrong        // an unlabelled continue directly in a switch
    | Timeout

  function LastWithLabel(ctx: seq<Nest>, l: string): (r: Option<nat>)
    ensures r.Some? ==> r.value < |ctx| && ctx[r.value].tag == l
  {
    if |ctx| == 0 then None
    else if ctx[|ctx| - 1].tag == l then Some(|ctx| - 1)
    else LastWithLabel(ctx[..|ctx| - 1], l)
  }

  /** The loop or switch a break or continue speaks of.  A jump that has none does nothing. */
  function TargetLevel(ctx: seq<Nest>, tag: Option<string>): (r: Option<nat>)
    ensures r.Some? ==> r.value < |ctx|
  {
    match tag
    case Some(l) => LastWithLabel(ctx, l)
    case None => if |ctx| == 0 then None else Some(|ctx| - 1)
  }

  /** Where a switch on v starts: the first case with that value, else the last default, else past
      the end. */
  function FirstCase(cases: seq<Case>, v: int): (i: nat)
    ensures i <= |cases|
  {
    if cases == [] then 0
    else if cases[0].value == Some(v) then 0
    else 1 + FirstCase(cases[1..], v)
  }

  function LastDefault(cases: seq<Case>): (i: Option<nat>)
    ensures i.Some? ==> i.value < |cases| && cases[i.value].value.None?
  {
    if |cases| == 0 then None
    else if cases[|cases| - 1].value.None? then Some(|cases| - 1)
    else LastDefault(cases[..|cases| - 1])
  }

  function EntryCase(cases: seq<Case>, v: int): (i: nat)
    ensures i <= |cases|
  {
    var i := FirstCase(cases, v);
    if i < |cases| then i
    else match LastDefault(cases) case Some(d) => d case None => |cases|
  }

  /** What a pre-tested loop tests.  The upper bound of a range is fixed when the loop is entered. */
  datatype Guard = GuardExpr(e: Expr) | GuardRange(x: string, hi: int, inclusive: bool)

  function EvalGuard(g: Guard, s: Store): (r: (int, Store))
    ensures |r.1| == |s|
  {
    match g
    case GuardExpr(e) => EvalExpr(e, s)
    case GuardRange(x, hi, inclusive) =>
      (Compare(if inclusive then Le else Lt, Read(s, x), hi), s)
  }

  /** What a pre-tested loop does between two rounds. */
  function AfterRound(incr: Option<Expr>, s: Store): (r: Store)
    ensures |r| == |s|
  {
    match incr case None => s case Some(e) => EvalExpr(e, s).1
  }

  function ExecStmt(s: Stmt, ctx: seq<Nest>, st: State, fuel: nat): (r: (Outcome, State))
    ensures |r.1.store| == |st.store|
    decreases fuel, s, 3
  {
    match s
    case Eval(e) => (Normal, st.(store := EvalExpr(e, st.store).1))
    case Print(e) =>
      var (v, s1) := EvalExpr(e, st.store);
      (Normal, State(s1, st.out + [v]))
    case Decl(x, None) => (Normal, st.(store := Define(st.store, x, 0)))
    case Decl(x, Some(e)) =>
      var (v, s1) := EvalExpr(e, st.store);
      (Normal, st.(store := Define(s1, x, v)))
    case Block(body) => ExecBlock(body, ctx, st, fuel)
    case If(c, t, f) =>
      var (v, s1) := EvalExpr(c, st.store);
      ExecBlock(if v != 0 then t else f, ctx, st.(store := s1), fuel)
    case While(tag, c, body) =>
      ExecLoop(GuardExpr(c), body, None, ctx, LabelText(tag), st, fuel)
    case DoWhile(body, c) => ExecDo(body, c, ctx, st, fuel)
    case ForRange(x, lo, hi, inclusive, body) =>
      var (a, s1) := EvalExpr(lo, st.store);
      var (b, s2) := EvalExpr(hi, s1);
      var (o, st1) := ExecLoop(GuardRange(x, b, inclusive), body, Some(IncDec(x, true, true)),
                               ctx, "", st.(store := s2 + [map[x := a]]), fuel);
      (o, st1.(store := Pop(st1.store)))
    case ForC(x, start, c, incr, body) =>
      var (a, s1) := EvalExpr(start, st.store);
      var (o, st1) := ExecLoop(GuardExpr(c), body, Some(incr), ctx, "",
                               st.(store := s1 + [map[x := a]]), fuel);
      (o, st1.(store := Pop(st1.store)))
    case Switch(e, cases) =>
      var (v, s1) := EvalExpr(e, st.store);
      var (o, st1) := ExecCases(cases, EntryCase(cases, v), ctx + [Nest("", false)],
                                st.(store := s1), fuel);
      (if o == BreakTo(|ctx|) then Normal else o, st1)
    case Break(target) =>
      (match TargetLevel(ctx, target) case None => Normal case Some(i) => BreakTo(i), st)
    case Continue(target) =>
      (match TargetLevel(ctx, target)
       case None => Normal
       case Some(i) => if ctx[i].isLoop then ContinueTo(i) else Wrong, st)
    case Return(None) => (Returned(None), st)
    case Return(Some(e)) =>
      var (v, s1) := EvalExpr(e, st.store);
      (Returned(Some(v)), st.(store := s1))
  }

  function LabelText(tag: Option<string>): string {
    match tag case None => "" case Some(l) => l
  }

  function ExecStmts(ss: seq<Stmt>, ctx: seq<Nest>, st: State, fuel: nat): (r: (Outcome, State))
    ensures |r.1.store| == |st.store|
    decreases fuel, ss, 1
  {
    if ss == [] then (Normal, st)
    else
      var (o, st1) := ExecStmt(ss[0], ctx, st, fuel);
      if o.Normal? then ExecStmts(ss[1..], ctx, st1, fuel) else (o, st1)
  }

  function ExecBlock(ss: seq<Stmt>, ctx: seq<Nest>, st: State, fuel: nat): (r: (Outcome, State))
    ensures |r.1.store| == |st.store|
    decreases fuel, ss, 2
  {
    var (o, st1) := ExecStmts(ss, ctx, st.(store := st.store + [map[]]), fuel);
    (o, st1.(store := Pop(st1.store)))
  }

  /** while, range-for and C-for: test, body, then the step between rounds.  `continue` goes to
      that step. */
  function ExecLoop(g: Guard, body: seq<Stmt>, incr: Option<Expr>, ctx: seq<Nest>, tag: string,
                    st: State, fuel: nat): (r: (Outcome, State))
    ensures |r.1.store| == |st.store|
    decreases fuel, body, 2
  {
    if fuel == 0 then (Timeout, st)
    else
      var (v, s1) := EvalGuard(g, st.store);
      if v == 0 then (Normal, st.(store := s1))
      else
        var (o, st1) := ExecBlock(body, ctx + [Nest(tag, true)], st.(store := s1), fuel - 1);
        if o == BreakTo(|ctx|) then (Normal, st1)
        else if o == Normal || o == ContinueTo(|ctx|) then
          ExecLoop(g, body, incr, ctx, tag, st1.(store := AfterRound(incr, st1.store)), fuel - 1)
        else (o, st1)
  }

  function ExecDo(body: seq<Stmt>, c: Expr, ctx: seq<Nest>, st: State, fuel: nat)
    : (r: (Outcome, State))
    ensures |r.1.store| == |st.store|
    decreases fuel, body, 3
  {
    if fuel == 0 then (Timeout, st)
    else
      var (o, st1) := ExecBlock(body, ctx + [Nest("", true)], st, fuel);
      if o == BreakTo(|ctx|) then (Normal, st1)
      else if o == Normal || o == ContinueTo(|ctx|) then
        var (v, s1) := EvalExpr(c, st1.store);
        if v == 0 then (Normal, st1.(store := s1))
        else ExecDo(body, c, ctx, st1.(store := s1), fuel - 1)
      else (o, st1)
  }

  /** Run the case bodies from the i-th on, falling through until something jumps. */
  function ExecCases(cases: seq<Case>, i: nat, ctx: seq<Nest>, st: State, fuel: nat)
    : (r: (Outcome, State))
    requires i <= |cases|
    ensures |r.1.store| == |st.store|
    decreases fuel, cases, |cases| - i
  {
    if i == |cases| then (Normal, st)
    else
      var (o, st1) := ExecBlock(cases[i].body, ctx, st, fuel);
      if o.Normal? then ExecCases(cases, i + 1, ctx, st1, fuel) else (o, st1)
  }

  // ----- functions ---------------------------------------------------------------------------

  /** isVoid tells whether falling off the end returns nothing or the null value 0. */
  datatype Function = Function(params: seq<string>, body: seq<Stmt>, isVoid: bool)

  function Bind(params: seq<string>, args: seq<int>): map<string, int>
    requires |params| == |args|
  {
    if |params| == 0 then map[]
    else Bind(params[..|params| - 1], args[..|params| - 1])[params[|params| - 1] := args[|params| - 1]]
  }

  function Call(f: Function, args: seq<int>, fuel: nat): (Outcome, seq<int>)
    requires |args| == |f.params|
  {
    var (o, st) := ExecStmts(f.body, [], State([Bind(f.params, args)], []), fuel);
    (if o.Normal? then Returned(if f.isVoid then None else Some(0)) else o, st.out)
  }
}
