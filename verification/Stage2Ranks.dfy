/** How expressions without parentheses are read. */
module Stage2Ranks {
  import opened Stage2
  import opened Stage2Proof

  // ----- three operands ----------------------------------------------------------------------

  /** An operand: a base with its postfix forms, under any prefix operators, or in parentheses. */
  predicate Operand(f: Form) { Unary(f) && Fine(f) }

  /** x o y p z */
  function Chain(x: Form, o: Tok, y: Form, p: Tok, z: Form, rest: seq<Tok>): seq<Tok> {
    Text(x) + [o] + Text(y) + [p] + Text(z) + rest
  }

  lemma TwoIsFine(o: Tok, l: Form, r: Form)
    requires Fine(l) && Fine(r) && IsOperator(o) && Operands(o, l, r)
    ensures Fine(Two(o, l, r))
  {}

  lemma TwoText(o: Tok, l: Form, r: Form)
    ensures Text(Two(o, l, r)) == Text(l) + [o] + Text(r) && Erase(Two(o, l, r)) == Bin(o, Erase(l), Erase(r))
  {}

  lemma Regrouped(a: seq<Tok>, b: seq<Tok>, c: seq<Tok>, d: seq<Tok>, e: seq<Tok>, rest: seq<Tok>)
    ensures a + b + (c + d + e) + rest == a + b + c + d + e + rest
  {}

  lemma ChainRight(x: Form, o: Tok, y: Form, p: Tok, z: Form, rest: seq<Tok>)
    requires Operand(x) && Operand(y) && Operand(z) && IsOperator(o) && IsOperator(p) && Rank(o) < Rank(p)
    requires Ends(Head(rest))
    ensures ParseExpr(Chain(x, o, y, p, z, rest)) == (Bin(o, Erase(x), Bin(p, Erase(y), Erase(z))), rest)
  {
    hide Fine, ParseExpr, Text, Erase, IsOperator, Rank, Ends;
    var inner := Two(p, y, z);
    TwoIsFine(p, y, z);
    TwoIsFine(o, x, inner);
    TwoText(p, y, z);
    TwoText(o, x, inner);
    Regrouped(Text(x), [o], Text(y), [p], Text(z), rest);
    WholeBack(Two(o, x, inner), rest);
  }

  lemma ChainLeft(x: Form, o: Tok, y: Form, p: Tok, z: Form, rest: seq<Tok>)
    requires Operand(x) && Operand(y) && Operand(z) && IsOperator(o) && IsOperator(p)
    requires if p.Cmp? then Rank(o) > Rank(p) else Rank(o) >= Rank(p)
    requires Ends(Head(rest))
    ensures ParseExpr(Chain(x, o, y, p, z, rest)) == (Bin(p, Bin(o, Erase(x), Erase(y)), Erase(z)), rest)
  {
    hide Fine, ParseExpr, Text, Erase, IsOperator, Rank, Ends;
    var inner := Two(o, x, y);
    TwoIsFine(o, x, y);
    TwoIsFine(p, inner, z);
    TwoText(o, x, y);
    TwoText(p, inner, z);
    WholeBack(Two(p, inner, z), rest);
  }

  /** `x + y * z` is `x + (y * z)` and `x * y + z` is `(x * y) + z`, for + and - and for *, / and %. */
  lemma ProductsBeforeSums(x: Form, y: Form, z: Form, sum: Tok, product: Tok, rest: seq<Tok>)
    requires Operand(x) && Operand(y) && Operand(z) && Ends(Head(rest))
    requires sum in {Plus, Minus} && product in {Star, Slash, Percent}
    ensures ParseExpr(Chain(x, sum, y, product, z, rest))
            == (Bin(sum, Erase(x), Bin(product, Erase(y), Erase(z))), rest)
    ensures ParseExpr(Chain(x, product, y, sum, z, rest))
            == (Bin(sum, Bin(product, Erase(x), Erase(y)), Erase(z)), rest)
  {
    hide Operand, Chain, Erase, ParseExpr, Ends;
    ChainRight(x, sum, y, product, z, rest);
    ChainLeft(x, product, y, sum, z, rest);
  }

  /** `x < y + z` is `x < (y + z)` and `x + y < z` is `(x + y) < z`; so for products. */
  lemma SumsBeforeComparisons(x: Form, y: Form, z: Form, sum: Tok, cmp: string, rest: seq<Tok>)
    requires Operand(x) && Operand(y) && Operand(z) && Ends(Head(rest))
    requires sum in {Plus, Minus, Star, Slash, Percent}
    ensures ParseExpr(Chain(x, Cmp(cmp), y, sum, z, rest))
            == (Bin(Cmp(cmp), Erase(x), Bin(sum, Erase(y), Erase(z))), rest)
    ensures ParseExpr(Chain(x, sum, y, Cmp(cmp), z, rest))
            == (Bin(Cmp(cmp), Bin(sum, Erase(x), Erase(y)), Erase(z)), rest)
  {
    hide Operand, Chain, Erase, ParseExpr, Ends;
    ChainRight(x, Cmp(cmp), y, sum, z, rest);
    ChainLeft(x, sum, y, Cmp(cmp), z, rest);
  }

  /** `x && y < z` is `x && (y < z)` and `x < y && z` is `(x < y) && z`; `x || y && z` is `x || (y && z)`
      and `x && y || z` is `(x && y) || z`; and a comparison binds tighter than `||`. */
  lemma ComparisonsBeforeAndBeforeOr(x: Form, y: Form, z: Form, cmp: string, rest: seq<Tok>)
    requires Operand(x) && Operand(y) && Operand(z) && Ends(Head(rest))
    ensures ParseExpr(Chain(x, And, y, Cmp(cmp), z, rest))
            == (Bin(And, Erase(x), Bin(Cmp(cmp), Erase(y), Erase(z))), rest)
    ensures ParseExpr(Chain(x, Cmp(cmp), y, And, z, rest))
            == (Bin(And, Bin(Cmp(cmp), Erase(x), Erase(y)), Erase(z)), rest)
    ensures ParseExpr(Chain(x, Or, y, And, z, rest))
            == (Bin(Or, Erase(x), Bin(And, Erase(y), Erase(z))), rest)
    ensures ParseExpr(Chain(x, And, y, Or, z, rest))
            == (Bin(Or, Bin(And, Erase(x), Erase(y)), Erase(z)), rest)
    ensures ParseExpr(Chain(x, Or, y, Cmp(cmp), z, rest))
            == (Bin(Or, Erase(x), Bin(Cmp(cmp), Erase(y), Erase(z))), rest)
    ensures ParseExpr(Chain(x, Cmp(cmp), y, Or, z, rest))
            == (Bin(Or, Bin(Cmp(cmp), Erase(x), Erase(y)), Erase(z)), rest)
  {
    hide Operand, Chain, Erase, ParseExpr, Ends;
    ChainRight(x, And, y, Cmp(cmp), z, rest);
    ChainLeft(x, Cmp(cmp), y, And, z, rest);
    ChainRight(x, Or, y, And, z, rest);
    ChainLeft(x, And, y, Or, z, rest);
    ChainRight(x, Or, y, Cmp(cmp), z, rest);
    ChainLeft(x, Cmp(cmp), y, Or, z, rest);
  }

  /** `x - y - z` is `(x - y) - z`; likewise for any two sums, any two products, && and ||. */
  lemma LeftToRight(x: Form, o: Tok, y: Form, p: Tok, z: Form, rest: seq<Tok>)
    requires Operand(x) && Operand(y) && Operand(z) && Ends(Head(rest))
    requires (o in {Plus, Minus} && p in {Plus, Minus}) || (o in {Star, Slash, Percent} && p in {Star, Slash, Percent})
             || (o == p && o in {And, Or})
    ensures ParseExpr(Chain(x, o, y, p, z, rest)) == (Bin(p, Bin(o, Erase(x), Erase(y)), Erase(z)), rest)
  {
    hide Operand, Chain, Erase, ParseExpr, Ends;
    ChainLeft(x, o, y, p, z, rest);
  }

  /** In `x < y < z` the second comparison is left unread. */
  lemma SecondComparisonIsLeft(x: Form, c: string, y: Form, d: string, z: Form, rest: seq<Tok>)
    requires Operand(x) && Operand(y)
    ensures ParseExpr(Chain(x, Cmp(c), y, Cmp(d), z, rest))
            == (Bin(Cmp(c), Erase(x), Erase(y)), [Cmp(d)] + Text(z) + rest)
  {
    var left := [Cmp(d)] + Text(z) + rest;
    var f := Two(Cmp(c), x, y);
    var tail := [Cmp(c)] + (Text(y) + left);
    var ts := Text(f) + left;
    assert Chain(x, Cmp(c), y, Cmp(d), z, rest) == ts;
    MiddleText(f, left);
    ConsTail(Cmp(c), Text(y) + left);
    hide Fine, Text, Erase, LevelLoop, ParseLevel;
    LevelBack(3, x, tail);
    LevelBack(3, y, left);
    ThirdLevel(ts, Erase(x), tail, Erase(y), left);
    LevelsUp(Bin(Cmp(c), Erase(x), Erase(y)), ts, left);
  }

  lemma ThirdLevel(ts: seq<Tok>, l: Expr, tail: seq<Tok>, r: Expr, left: seq<Tok>)
    requires ParseLevel(3, ts) == (l, tail) && tail != [] && tail[0].Cmp? && ParseLevel(3, tail[1..]) == (r, left)
    ensures ParseLevel(2, ts) == (Bin(tail[0], l, r), left)
  {}

  lemma LevelsUp(e: Expr, ts: seq<Tok>, left: seq<Tok>)
    requires ParseLevel(2, ts) == (e, left) && Head(left).Cmp?
    ensures ParseExpr(ts) == (e, left)
  {
    assert ParseLevel(1, ts) == (e, left);
    assert ParseLevel(0, ts) == (e, left);
  }

  /** Each of ! - ~ and await applies to the operand behind it before any binary operator does. */
  lemma PrefixesFirst(o: Tok, x: Form, p: Tok, y: Form, rest: seq<Tok>)
    requires o in {Bang, Minus, Tilde, Await} && Operand(x) && Operand(y) && IsOperator(p) && Ends(Head(rest))
    ensures ParseExpr([o] + Text(x) + [p] + Text(y) + rest) == (Bin(p, Pre(o, Erase(x)), Erase(y)), rest)
  {
    var f := Two(p, Pref(o, x), y);
    assert Fine(f);
    hide Fine, ParseExpr;
    assert Text(f) == [o] + Text(x) + [p] + Text(y);
    WholeBack(f, rest);
  }

  // ----- as few parentheses as possible ------------------------------------------------------

  /** In parentheses, unless it binds at least as tightly as k. */
  function At(k: nat, f: Form): Form { if f.Asg? || RankOf(f) < k then Par(f) else f }

  function AsBase(f: Form): Form { if Base(f) then f else Par(f) }

  /** A tree with parentheses only where an operand does not bind tightly enough. */
  function Written(e: Expr): Form
    decreases e
  {
    match e
    case Atom(t) => Leaf(t)
    case Bin(o, l, r) => Two(o, At(if o.Cmp? then 3 else Rank(o), Written(l)), At(Rank(o) + 1, Written(r)))
    case Pre(o, e1) => Pref(o, At(5, Written(e1)))
    case Member(e1, t) => Suf(AsBase(Written(e1)), Dotted(t))
    case Call(e1, args) => Suf(AsBase(Written(e1)), Called(WrittenAll(args)))
    case Index(e1, i) => Suf(AsBase(Written(e1)), Indexed(Written(i)))
    case Post(e1, o) => Suf(AsBase(Written(e1)), Stepped(o))
    case ListLit(args) => Lst(WrittenAll(args))
    case DictLit(pairs) => Dct(WrittenPairs(pairs))
    case RangeOf(args) => Rng(WrittenAll(args))
    case Assign(o, l, r) => Asg(o, At(0, Written(l)), Written(r))
  }

  function WrittenAll(es: seq<Expr>): (r: seq<Form>)
    ensures |r| == |es|
    decreases es
  {
    if es == [] then [] else [Written(es[0])] + WrittenAll(es[1..])
  }

  function WrittenPairs(ps: seq<Pair>): (r: seq<FormPair>)
    ensures |r| == |ps|
    decreases ps
  {
    if ps == [] then [] else [WrittenPair(ps[0])] + WrittenPairs(ps[1..])
  }

  function WrittenPair(p: Pair): FormPair
    decreases p
  {
    FormPair(Written(p.key), Written(p.val))
  }

  lemma AtOk(k: nat, f: Form)
    requires k <= 5 && Fine(f)
    ensures Fine(At(k, f)) && !At(k, f).Asg? && RankOf(At(k, f)) >= k && Erase(At(k, f)) == Erase(f)
  {}

  lemma AsBaseOk(f: Form)
    requires Fine(f)
    ensures Fine(AsBase(f)) && Base(AsBase(f)) && Erase(AsBase(f)) == Erase(f)
  {}

  lemma {:induction false} WrittenOk(e: Expr)
    requires RightTokens(e)
    ensures Fine(Written(e)) && Erase(Written(e)) == e
    decreases e
  {
    match e {
      case Atom(_) =>
      case Bin(o, l, r) => BinOk(e);
      case Pre(o, e1) =>
        WrittenOk(e1);
        AtOk(5, Written(e1));
      case ListLit(args) => WrittenAllOk(args);
      case DictLit(pairs) => WrittenPairsOk(pairs);
      case RangeOf(args) => WrittenAllOk(args);
      case Assign(_, l, r) =>
        WrittenOk(l);
        WrittenOk(r);
        AtOk(0, Written(l));
      case Call(e1, args) =>
        WrittenOk(e1);
        AsBaseOk(Written(e1));
        WrittenAllOk(args);
      case Index(e1, i) =>
        WrittenOk(e1);
        AsBaseOk(Written(e1));
        WrittenOk(i);
      case _ =>
        WrittenOk(e.e);
        AsBaseOk(Written(e.e));
    }
  }

  lemma {:induction false} BinOk(e: Expr)
    requires RightTokens(e) && e.Bin?
    ensures Fine(Written(e)) && Erase(Written(e)) == e
    decreases e, 0
  {
    WrittenOk(e.l);
    WrittenOk(e.r);
    RankIsLevel(e.o);
    AtOk(if e.o.Cmp? then 3 else Rank(e.o), Written(e.l));
    AtOk(Rank(e.o) + 1, Written(e.r));
  }

  lemma {:induction false} WrittenAllOk(es: seq<Expr>)
    requires AllRight(es)
    ensures FineAll(WrittenAll(es)) && EraseAll(WrittenAll(es)) == es
    decreases es
  {
    hide RightTokens, Fine, Written, Erase;
    if es != [] {
      WrittenOk(es[0]);
      WrittenAllOk(es[1..]);
      assert WrittenAll(es)[1..] == WrittenAll(es[1..]);
    }
  }

  lemma {:induction false} WrittenPairsOk(ps: seq<Pair>)
    requires PairsRight(ps)
    ensures FinePairs(WrittenPairs(ps)) && ErasePairs(WrittenPairs(ps)) == ps
    decreases ps
  {
    hide PairRight, FinePair, WrittenPair, ErasePair;
    if ps != [] {
      WrittenPairOk(ps[0]);
      WrittenPairsOk(ps[1..]);
      assert WrittenPairs(ps)[1..] == WrittenPairs(ps[1..]);
    }
  }

  lemma {:induction false} WrittenPairOk(p: Pair)
    requires PairRight(p)
    ensures FinePair(WrittenPair(p)) && ErasePair(WrittenPair(p)) == p
    decreases p
  {
    WrittenOk(p.key);
    WrittenOk(p.val);
  }

  /** Main result: every tree comes back from the text that has parentheses only where an operand binds
      less tightly than its operator asks for. */
  lemma WrittenComesBack(e: Expr, rest: seq<Tok>)
    requires RightTokens(e) && Ends(Head(rest))
    ensures ParseExpr(Text(Written(e)) + rest) == (e, rest)
  {
    hide Fine, ParseExpr, Text, Erase, RightTokens, Written;
    WrittenOk(e);
    WholeBack(Written(e), rest);
  }
}
