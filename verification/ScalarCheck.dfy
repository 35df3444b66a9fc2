/** The programs that the results on lowering are about.  The semantic checker grants most of it before
    code is generated: every variable is declared in an enclosing scope, and one-bit values are used as
    conditions only.  It does not grant that the bounds of a range leave the loop variable's name
    alone: it takes that name for an outer variable there, and the emitter for the new one.  Whether a
    bound mentions the name is the exact condition under which the two agree on the code
    (LowerRange.RangeIsTheOuterOne), and without it the results fail (LowerRange.OwnBoundIsLost). */
module ScalarCheck {
  import opened Common
  import opened ScalarSource

  predicate Mentions(e: Expr, x: string) {
    match e
    case Lit(_) => false
    case Var(y) => x == y
    case Arith(_, l, r) => Mentions(l, x) || Mentions(r, x)
    case Cmp(_, l, r) => Mentions(l, x) || Mentions(r, x)
    case And(l, r) => Mentions(l, x) || Mentions(r, x)
    case Or(l, r) => Mentions(l, x) || Mentions(r, x)
    case Not(e1) => Mentions(e1, x)
    case Neg(e1) => Mentions(e1, x)
    case Assign(y, e1) => x == y || Mentions(e1, x)
    case Compound(_, y, e1) => x == y || Mentions(e1, x)
    case IncDec(y, _, _) => x == y
  }

  predicate Scoped(e: Expr, names: set<string>)
    decreases e, 0
  {
    match e
    case Lit(_) => true
    case Var(x) => x in names
    case Arith(_, l, r) => IntScoped(l, names) && IntScoped(r, names)
    case Cmp(_, l, r) => IntScoped(l, names) && IntScoped(r, names)
    case And(l, r) => Scoped(l, names) && Scoped(r, names)
    case Or(l, r) => Scoped(l, names) && Scoped(r, names)
    case Not(e1) => Scoped(e1, names)
    case Neg(e1) => IntScoped(e1, names)
    case Assign(x, e1) => x in names && IntScoped(e1, names)
    case Compound(_, x, e1) => x in names && IntScoped(e1, names)
    case IncDec(x, _, _) => x in names
  }

  predicate IntScoped(e: Expr, names: set<string>)
    decreases e, 1
  {
    Scoped(e, names) && !e.IsBool()
  }

  function Declared(s: Stmt): set<string> { if s.Decl? then {s.x} else {} }

  predicate ScopedStmts(ss: seq<Stmt>, names: set<string>)
    decreases ss, 0
  {
    ss == [] || (ScopedStmt(ss[0], names) && ScopedStmts(ss[1..], names + Declared(ss[0])))
  }

  /** The bounds of a range do not mention the loop variable's name.  Nor does the start of a C-style
      loop; there the checker, too, has the new variable in scope, so that reading it is reading a
      variable that has no value yet. */
  predicate ScopedStmt(s: Stmt, names: set<string>)
    decreases s, 0
  {
    match s
    case Eval(e) => Scoped(e, names)
    case Print(e) => Scoped(e, names)
    case Decl(_, init) => init.Some? ==> IntScoped(init.value, names)
    case Block(body) => ScopedStmts(body, names)
    case If(c, t, f) => Scoped(c, names) && ScopedStmts(t, names) && ScopedStmts(f, names)
    case While(_, c, body) => Scoped(c, names) && ScopedStmts(body, names)
    case DoWhile(body, c) => Scoped(c, names) && ScopedStmts(body, names)
    case ForRange(x, lo, hi, _, body) =>
      && IntScoped(lo, names) && !Mentions(lo, x)
      && IntScoped(hi, names) && !Mentions(hi, x)
      && ScopedStmts(body, names + {x})
    case ForC(x, start, c, incr, body) =>
      && IntScoped(start, names) && !Mentions(start, x)
      && Scoped(c, names + {x}) && Scoped(incr, names + {x})
      && ScopedStmts(body, names + {x})
    case Switch(e, cases) =>
      IntScoped(e, names) && forall i :: 0 <= i < |cases| ==> ScopedStmts(cases[i].body, names)
    case Break(_) => true
    case Continue(_) => true
    case Return(value) => value.Some? ==> IntScoped(value.value, names)
  }

  function Names(params: seq<string>): set<string> { set x | x in params }

  predicate ScopedFunction(f: Function) {
    ScopedStmts(f.body, Names(f.params))
  }

  /** A scope that binds only a name the expression does not mention makes no difference to it. */
  lemma {:induction false} UnmentionedScope(e: Expr, s: Store, x: string, v: int)
    requires !Mentions(e, x)
    ensures EvalExpr(e, s + [map[x := v]]) == (EvalExpr(e, s).0, EvalExpr(e, s).1 + [map[x := v]])
  {
    var t := s + [map[x := v]];
    assert forall y :: y != x ==> Level(t, y) == Level(s, y) by {
      assert t[..|t| - 1] == s;
    }
    match e {
      case Lit(_) =>
      case Var(_) =>
      case Arith(_, l, r) => UnmentionedScope(l, s, x, v); UnmentionedScope(r, EvalExpr(l, s).1, x, v);
      case Cmp(_, l, r) => UnmentionedScope(l, s, x, v); UnmentionedScope(r, EvalExpr(l, s).1, x, v);
      case And(l, r) => UnmentionedScope(l, s, x, v); UnmentionedScope(r, EvalExpr(l, s).1, x, v);
      case Or(l, r) => UnmentionedScope(l, s, x, v); UnmentionedScope(r, EvalExpr(l, s).1, x, v);
      case Not(e1) => UnmentionedScope(e1, s, x, v);
      case Neg(e1) => UnmentionedScope(e1, s, x, v);
      case Assign(y, e1) =>
        UnmentionedScope(e1, s, x, v);
        UnmentionedWrite(EvalExpr(e1, s).1, x, v, y, EvalExpr(e1, s).0);
      case Compound(op, y, e1) =>
        UnmentionedScope(e1, s, x, v);
        var (b, s1) := EvalExpr(e1, s);
        UnmentionedWrite(s1, x, v, y, Apply(op, Read(s1, y), b));
      case IncDec(y, up, _) =>
        UnmentionedWrite(s, x, v, y, Apply(if up then Add else Sub, Read(s, y), 1));
    }
  }

  lemma UnmentionedWrite(s: Store, x: string, v: int, y: string, w: int)
    requires x != y
    ensures Read(s + [map[x := v]], y) == Read(s, y)
    ensures Write(s + [map[x := v]], y, w) == Write(s, y, w) + [map[x := v]]
  {
    var t := s + [map[x := v]];
    assert t[..|t| - 1] == s;
  }
}
