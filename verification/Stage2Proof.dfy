/** What a printed expression parses back to: its tokens are the text of a form with parentheses, and every
    such form parses to its tree. */
module Stage2Proof {
  import opened Stage2

  // ----- trees -------------------------------------------------------------------------------

  predicate IsAtom(t: Tok) { t.Lit? || t.Ident? }

  predicate IsStep(t: Tok) { t == PP || t == MM }

  predicate IsPostfix(e: Expr) { e.Member? || e.Call? || e.Index? || e.Post? }

  /** What a postfix form or call may be applied to without parentheses. */
  predicate IsBase(e: Expr) { !e.Pre? && !e.Assign? }

  /** Every token is of the kind that its place asks for. */
  predicate RightTokens(e: Expr)
    decreases e
  {
    match e
    case Atom(t) => IsAtom(t)
    case Bin(o, l, r) => Level(o) < 5 && RightTokens(l) && RightTokens(r)
    case Pre(o, e1) => IsPrefix(o) && RightTokens(e1)
    case Member(e1, t) => t != Eof && RightTokens(e1)
    case Call(e1, args) => RightTokens(e1) && AllRight(args)
    case Index(e1, i) => RightTokens(e1) && RightTokens(i)
    case Post(e1, o) => IsStep(o) && RightTokens(e1)
    case ListLit(args) => AllRight(args)
    case DictLit(pairs) => PairsRight(pairs)
    case RangeOf(args) => AllRight(args)
    case Assign(o, l, r) => o.Set? && RightTokens(l) && RightTokens(r)
  }

  predicate AllRight(es: seq<Expr>)
    decreases es
  {
    es == [] || (RightTokens(es[0]) && AllRight(es[1..]))
  }

  predicate PairsRight(ps: seq<Pair>)
    decreases ps
  {
    ps == [] || (PairRight(ps[0]) && PairsRight(ps[1..]))
  }

  predicate PairRight(p: Pair)
    decreases p
  {
    RightTokens(p.key) && RightTokens(p.val)
  }

  /** The bases of postfix forms are not prefix forms, and assignments stand only where a whole
      expression does: at the top, as argument, index, element or right side. */
  predicate Good(e: Expr)
    decreases e
  {
    match e
    case Atom(t) => IsAtom(t)
    case Bin(o, l, r) => Level(o) < 5 && !l.Assign? && !r.Assign? && Good(l) && Good(r)
    case Pre(o, e1) => IsPrefix(o) && !e1.Assign? && Good(e1)
    case Member(e1, t) => t != Eof && IsBase(e1) && Good(e1)
    case Call(e1, args) => IsBase(e1) && Good(e1) && GoodAll(args)
    case Index(e1, i) => IsBase(e1) && Good(e1) && Good(i)
    case Post(e1, o) => IsStep(o) && IsBase(e1) && Good(e1)
    case ListLit(args) => GoodAll(args)
    case DictLit(pairs) => GoodPairs(pairs)
    case RangeOf(args) => GoodAll(args)
    case Assign(o, l, r) => o.Set? && !l.Assign? && Good(l) && Good(r)
  }

  predicate GoodAll(es: seq<Expr>)
    decreases es
  {
    es == [] || (Good(es[0]) && GoodAll(es[1..]))
  }

  predicate GoodPairs(ps: seq<Pair>)
    decreases ps
  {
    ps == [] || (GoodPair(ps[0]) && GoodPairs(ps[1..]))
  }

  predicate GoodPair(p: Pair)
    decreases p
  {
    Good(p.key) && Good(p.val)
  }

  // ----- forms -------------------------------------------------------------------------------

  /** An expression as it is written, with its parentheses. */
  datatype Form =
    | Leaf(t: Tok)
    | Par(inner: Form)
    | Two(o: Tok, l: Form, r: Form)
    | Pref(o: Tok, f: Form)
    | Suf(f: Form, s: Suffix)
    | Lst(args: seq<Form>)
    | Dct(pairs: seq<FormPair>)
    | Rng(args: seq<Form>)
    | Asg(o: Tok, l: Form, r: Form)

  datatype Suffix = Dotted(t: Tok) | Called(args: seq<Form>) | Indexed(i: Form) | Stepped(o: Tok)

  datatype FormPair = FormPair(key: Form, val: Form)

  function Text(f: Form): seq<Tok>
    decreases f
  {
    match f
    case Leaf(t) => [t]
    case Par(g) => [LP] + Text(g) + [RP]
    case Two(o, l, r) => Text(l) + [o] + Text(r)
    case Pref(o, g) => [o] + Text(g)
    case Suf(g, s) => Text(g) + SufText(s)
    case Lst(args) => [LB] + ArgsText(args) + [RB]
    case Dct(pairs) => [LC] + PairsText(pairs) + [RC]
    case Rng(args) => [Range, LP] + ArgsText(args) + [RP]
    case Asg(o, l, r) => Text(l) + [o] + Text(r)
  }

  function SufText(s: Suffix): seq<Tok>
    decreases s
  {
    match s
    case Dotted(t) => [Dot, t]
    case Called(args) => [LP] + ArgsText(args) + [RP]
    case Indexed(i) => [LB] + Text(i) + [RB]
    case Stepped(o) => [o]
  }

  function ArgsText(args: seq<Form>): seq<Tok>
    decreases args
  {
    if args == [] then []
    else Text(args[0]) + (if |args| == 1 then [] else [Comma] + ArgsText(args[1..]))
  }

  function PairsText(pairs: seq<FormPair>): seq<Tok>
    decreases pairs
  {
    if pairs == [] then []
    else PairText(pairs[0]) + (if |pairs| == 1 then [] else [Comma] + PairsText(pairs[1..]))
  }

  function PairText(p: FormPair): seq<Tok>
    decreases p
  {
    Text(p.key) + [Colon] + Text(p.val)
  }

  /** The tree without the parentheses. */
  function Erase(f: Form): Expr
    decreases f
  {
    match f
    case Leaf(t) => Atom(t)
    case Par(g) => Erase(g)
    case Two(o, l, r) => Bin(o, Erase(l), Erase(r))
    case Pref(o, g) => Pre(o, Erase(g))
    case Suf(g, s) => EraseSuf(Erase(g), s)
    case Lst(args) => ListLit(EraseAll(args))
    case Dct(pairs) => DictLit(ErasePairs(pairs))
    case Rng(args) => RangeOf(EraseAll(args))
    case Asg(o, l, r) => Assign(o, Erase(l), Erase(r))
  }

  function EraseSuf(e: Expr, s: Suffix): (r: Expr)
    ensures IsPostfix(r)
    decreases s
  {
    match s
    case Dotted(t) => Member(e, t)
    case Called(args) => Call(e, EraseAll(args))
    case Indexed(i) => Index(e, Erase(i))
    case Stepped(o) => Post(e, o)
  }

  function EraseAll(fs: seq<Form>): (r: seq<Expr>)
    ensures |r| == |fs|
    decreases fs
  {
    if fs == [] then [] else [Erase(fs[0])] + EraseAll(fs[1..])
  }

  function ErasePairs(ps: seq<FormPair>): (r: seq<Pair>)
    ensures |r| == |ps|
    decreases ps
  {
    if ps == [] then [] else [ErasePair(ps[0])] + ErasePairs(ps[1..])
  }

  function ErasePair(p: FormPair): Pair
    decreases p
  {
    Pair(Erase(p.key), Erase(p.val))
  }

  predicate Unary(f: Form) { !f.Asg? && !f.Two? }

  predicate Base(f: Form) { Unary(f) && !f.Pref? }

  predicate IsProduct(t: Tok) { t == Star || t == Slash || t == Percent }

  predicate IsSum(t: Tok) { t == Plus || t == Minus }

  predicate IsOperator(t: Tok) { IsProduct(t) || IsSum(t) || t.Cmp? || t == And || t == Or }

  /** Products bind tightest, then sums, comparisons, and, or. */
  function Rank(t: Tok): (r: nat)
    ensures r < 5
  {
    if IsProduct(t) then 4 else if IsSum(t) then 3 else if t.Cmp? then 2 else if t == And then 1 else 0
  }

  /** How tightly a form holds together. */
  function RankOf(f: Form): nat { if f.Two? then Rank(f.o) else 5 }

  /** The parser's levels are these ranks. */
  lemma RankIsLevel(t: Tok)
    ensures IsOperator(t) <==> Level(t) < 5
    ensures IsOperator(t) ==> Level(t) == Rank(t)
  {}

  /** Operands without parentheses: what binds tighter on either side, and on the left also what binds
      as tightly, except for a comparison. */
  predicate Operands(o: Tok, l: Form, r: Form) {
    && !l.Asg? && !r.Asg? && RankOf(r) > Rank(o)
    && if o.Cmp? then RankOf(l) > Rank(o) else RankOf(l) >= Rank(o)
  }

  /** What the grammar allows: binary operators between operands that bind tighter, assignments around
      them, prefix operators around postfix forms. */
  predicate Fine(f: Form)
    decreases f
  {
    match f
    case Leaf(t) => IsAtom(t)
    case Par(g) => Fine(g)
    case Two(o, l, r) => IsOperator(o) && Operands(o, l, r) && Fine(l) && Fine(r)
    case Pref(o, g) => IsPrefix(o) && Unary(g) && Fine(g)
    case Suf(g, s) => Base(g) && Fine(g) && FineSuf(s)
    case Lst(args) => FineAll(args)
    case Dct(pairs) => FinePairs(pairs)
    case Rng(args) => FineAll(args)
    case Asg(o, l, r) => o.Set? && !l.Asg? && Fine(l) && Fine(r)
  }

  predicate FineSuf(s: Suffix)
    decreases s
  {
    match s
    case Dotted(t) => t != Eof
    case Called(args) => FineAll(args)
    case Indexed(i) => Fine(i)
    case Stepped(o) => IsStep(o)
  }

  predicate FineAll(fs: seq<Form>)
    decreases fs
  {
    fs == [] || (Fine(fs[0]) && FineAll(fs[1..]))
  }

  predicate FinePairs(ps: seq<FormPair>)
    decreases ps
  {
    ps == [] || (FinePair(ps[0]) && FinePairs(ps[1..]))
  }

  predicate FinePair(p: FormPair)
    decreases p
  {
    Fine(p.key) && Fine(p.val)
  }

  // ----- what may follow ---------------------------------------------------------------------

  predicate StartsPostfix(t: Tok) { t == Dot || t == LP || t == LB || t == PP || t == MM }

  /** t does not continue an operand of level k. */
  predicate Stops(k: nat, t: Tok) { !StartsPostfix(t) && (Level(t) < k || Level(t) > 4) }

  /** t does not continue a whole expression. */
  predicate Ends(t: Tok) { Stops(0, t) && !t.Set? }

  predicate Closing(t: Tok) { t == RP || t == RB || t == RC || t == Eof || t == Comma }

  /** The first token: not a closing one, and a prefix operator only for a prefix form. */
  lemma {:induction false} FirstToken(f: Form)
    requires Fine(f)
    ensures Text(f) != [] && !Closing(Text(f)[0])
    ensures Base(f) ==> !IsPrefix(Text(f)[0])
    decreases f
  {
    match f {
      case Two(_, l, _) => FirstToken(l);
      case Suf(g, _) => FirstToken(g);
      case Asg(_, l, _) => FirstToken(l);
      case _ =>
    }
  }

  lemma HeadText(f: Form, rest: seq<Tok>)
    requires Fine(f)
    ensures var ts := Text(f) + rest; ts != [] && !Closing(Head(ts)) && (Base(f) ==> !IsPrefix(Head(ts)))
  {
    FirstToken(f);
  }

  // ----- forms parse back --------------------------------------------------------------------

  lemma FineParts(f: Form)
    requires Fine(f)
    ensures f.Pref? ==> Fine(f.f) && Unary(f.f) && IsPrefix(f.o)
    ensures f.Two? ==> Fine(f.l) && Fine(f.r) && IsOperator(f.o) && Operands(f.o, f.l, f.r)
    ensures f.Asg? ==> Fine(f.l) && Fine(f.r) && !f.l.Asg? && f.o.Set?
    ensures f.Suf? ==> Fine(f.f) && Base(f.f) && FineSuf(f.s)
  {}

  lemma PrefText(f: Form, rest: seq<Tok>)
    ensures f.Pref? ==> Text(f) + rest == [f.o] + (Text(f.f) + rest) && Erase(f) == Pre(f.o, Erase(f.f))
  {}

  lemma PrefixRead(o: Tok, ts: seq<Tok>, e: Expr, rest: seq<Tok>)
    requires IsPrefix(o) && ParseUnary(ts) == (e, rest)
    ensures ParseUnary([o] + ts) == (Pre(o, e), rest)
  {
    assert ([o] + ts)[1..] == ts;
  }

  lemma BaseRead(ts: seq<Tok>, e: Expr, rest: seq<Tok>)
    requires !IsPrefix(Head(ts)) && !StartsPostfix(Head(rest))
    requires var (b, r) := ParsePrimary(ts); PostfixLoop(b, r) == PostfixLoop(e, rest)
    ensures ParseUnary(ts) == (e, rest)
  {
    hide ParsePrimary;
    assert PostfixLoop(e, rest) == (e, rest);
  }

  /** An operand of a binary operator. */
  lemma {:induction false} UnaryBack(f: Form, rest: seq<Tok>)
    requires Fine(f) && Unary(f) && !StartsPostfix(Head(rest))
    ensures ParseUnary(Text(f) + rest) == (Erase(f), rest)
    decreases f, 3
  {
    HeadText(f, rest);
    FineParts(f);
    PrefText(f, rest);
    hide Fine, ParsePrimary, PostfixLoop, ParseUnary, IsPrefix, StartsPostfix, Head, Text, Erase;
    if f.Pref? {
      UnaryBack(f.f, rest);
      PrefixRead(f.o, Text(f.f) + rest, Erase(f.f), rest);
    } else {
      BaseBack(f, rest);
      BaseRead(Text(f) + rest, Erase(f), rest);
    }
  }

  /** A base, with whatever postfix forms follow it. */
  lemma {:induction false} BaseBack(f: Form, rest: seq<Tok>)
    requires Fine(f) && Base(f)
    ensures var (b, r) := ParsePrimary(Text(f) + rest); PostfixLoop(b, r) == PostfixLoop(Erase(f), rest)
    decreases f, 2
  {
    hide Fine, ParsePrimary, PostfixLoop;
    if f.Suf? {
      FineParts(f);
      SuffixBack(Erase(f.f), f.s, rest);
      assert Text(f) + rest == Text(f.f) + (SufText(f.s) + rest);
      BaseBack(f.f, SufText(f.s) + rest);
    } else {
      PrimaryBack(f, rest);
    }
  }

  /** A postfix form takes one turn of the loop. */
  lemma {:induction false} SuffixBack(e: Expr, s: Suffix, rest: seq<Tok>)
    requires FineSuf(s)
    ensures PostfixLoop(e, SufText(s) + rest) == PostfixLoop(EraseSuf(e, s), rest)
    decreases s, 1
  {
    hide PostfixLoop, ArgsText, Text;
    match s {
      case Dotted(t) => DottedBack(e, t, rest);
      case Called(args) => CalledBack(e, s, rest);
      case Indexed(i) => IndexedBack(e, s, rest);
      case Stepped(o) => SteppedBack(e, o, rest);
    }
  }

  lemma DottedBack(e: Expr, t: Tok, rest: seq<Tok>)
    ensures PostfixLoop(e, [Dot, t] + rest) == PostfixLoop(Member(e, t), rest)
  {
    var ts := [Dot, t] + rest;
    assert ts[1..] == [t] + rest && ([t] + rest)[1..] == rest;
  }

  lemma SteppedBack(e: Expr, o: Tok, rest: seq<Tok>)
    requires IsStep(o)
    ensures PostfixLoop(e, [o] + rest) == PostfixLoop(Post(e, o), rest)
  {
    assert ([o] + rest)[1..] == rest;
  }

  lemma {:induction false} CalledBack(e: Expr, s: Suffix, rest: seq<Tok>)
    requires FineSuf(s) && s.Called?
    ensures PostfixLoop(e, SufText(s) + rest) == PostfixLoop(EraseSuf(e, s), rest)
    decreases s, 0
  {
    hide ParseArgs, ArgsText, EraseAll;
    var ts := SufText(s) + rest;
    assert ts[1..] == ArgsText(s.args) + ([RP] + rest);
    ArgsBack(s.args, RP, rest);
    assert ([RP] + rest)[1..] == rest;
  }

  lemma {:induction false} IndexedBack(e: Expr, s: Suffix, rest: seq<Tok>)
    requires FineSuf(s) && s.Indexed?
    ensures PostfixLoop(e, SufText(s) + rest) == PostfixLoop(EraseSuf(e, s), rest)
    decreases s, 0
  {
    hide ParseExpr, Text, Erase, Fine;
    var ts := SufText(s) + rest;
    assert ts[1..] == Text(s.i) + ([RB] + rest);
    WholeBack(s.i, [RB] + rest);
    assert ([RB] + rest)[1..] == rest;
  }

  lemma {:induction false} PrimaryBack(f: Form, rest: seq<Tok>)
    requires Fine(f) && Base(f) && !f.Suf?
    ensures ParsePrimary(Text(f) + rest) == (Erase(f), rest)
    decreases f, 1
  {
    hide ParseExpr, ArgsText, PairsText, ParseArgs, ParsePairs;
    if f.Leaf? {
      assert (Text(f) + rest)[1..] == rest;
    } else if f.Par? {
      assert (Text(f) + rest)[1..] == Text(f.inner) + ([RP] + rest);
      WholeBack(f.inner, [RP] + rest);
      assert ([RP] + rest)[1..] == rest;
    } else {
      BracketBack(f, rest);
    }
  }

  lemma ConsTail(t: Tok, ts: seq<Tok>)
    ensures ([t] + ts)[1..] == ts && [t] + ts != [] && Head([t] + ts) == t
  {}

  lemma BracketText(f: Form, rest: seq<Tok>)
    ensures f.Lst? ==> Text(f) + rest == [LB] + (ArgsText(f.args) + ([RB] + rest))
    ensures f.Dct? ==> Text(f) + rest == [LC] + (PairsText(f.pairs) + ([RC] + rest))
    ensures f.Rng? ==> Text(f) + rest == [Range] + ([LP] + (ArgsText(f.args) + ([RP] + rest)))
  {}

  lemma {:induction false} BracketBack(f: Form, rest: seq<Tok>)
    requires Fine(f) && (f.Lst? || f.Dct? || f.Rng?)
    ensures ParsePrimary(Text(f) + rest) == (Erase(f), rest)
    decreases f, 0
  {
    BracketText(f, rest);
    hide ParsePrimary, ParseArgs, ParsePairs, Text, ArgsText, PairsText, EraseAll, ErasePairs;
    match f {
      case Lst(args) =>
        ArgsBack(args, RB, rest);
        ListRead(ArgsText(args), EraseAll(args), rest);
      case Dct(pairs) =>
        PairsBack(pairs, rest);
        DictRead(PairsText(pairs), ErasePairs(pairs), rest);
      case Rng(args) =>
        ArgsBack(args, RP, rest);
        RangeRead(ArgsText(args), EraseAll(args), rest);
    }
  }

  lemma ListRead(ts: seq<Tok>, es: seq<Expr>, rest: seq<Tok>)
    requires ParseArgs(ts + ([RB] + rest), RB) == (es, [RB] + rest)
    ensures ParsePrimary([LB] + (ts + ([RB] + rest))) == (ListLit(es), rest)
  {
    hide ParseArgs;
    ConsTail(LB, ts + ([RB] + rest));
    ConsTail(RB, rest);
  }

  lemma DictRead(ts: seq<Tok>, ps: seq<Pair>, rest: seq<Tok>)
    requires ParsePairs(ts + ([RC] + rest)) == (ps, [RC] + rest)
    ensures ParsePrimary([LC] + (ts + ([RC] + rest))) == (DictLit(ps), rest)
  {
    hide ParsePairs;
    ConsTail(LC, ts + ([RC] + rest));
    ConsTail(RC, rest);
  }

  lemma RangeRead(ts: seq<Tok>, es: seq<Expr>, rest: seq<Tok>)
    requires ParseArgs(ts + ([RP] + rest), RP) == (es, [RP] + rest)
    ensures ParsePrimary([Range] + ([LP] + (ts + ([RP] + rest)))) == (RangeOf(es), rest)
  {
    hide ParseArgs;
    ConsTail(Range, [LP] + (ts + ([RP] + rest)));
    ConsTail(LP, ts + ([RP] + rest));
    ConsTail(RP, rest);
  }

  lemma MiddleText(f: Form, rest: seq<Tok>)
    requires f.Two? || f.Asg?
    ensures Text(f) + rest == Text(f.l) + ([f.o] + (Text(f.r) + rest))
    ensures Erase(f) == if f.Two? then Bin(f.o, Erase(f.l), Erase(f.r)) else Assign(f.o, Erase(f.l), Erase(f.r))
  {
    var l, r := Text(f.l), Text(f.r);
    assert Text(f) == l + [f.o] + r;
    hide Text, Erase;
    assert (l + [f.o] + r) + rest == l + ([f.o] + (r + rest));
  }

  /** One turn of the loop, for an operator of its level. */
  lemma LoopTurn(k: nat, l: Expr, r: Expr, tail: seq<Tok>, rest: seq<Tok>)
    requires k < 5 && tail != [] && Level(tail[0]) == k && ParseLevel(k + 1, tail[1..]) == (r, rest)
    ensures LevelLoop(k, l, tail)
            == if k == 2 then (Bin(tail[0], l, r), rest) else LevelLoop(k, Bin(tail[0], l, r), rest)
  {}

  /** An operand of level k. */
  lemma {:induction false} LevelBack(k: nat, f: Form, rest: seq<Tok>)
    requires k <= 5 && Fine(f) && !f.Asg? && RankOf(f) >= k && Stops(k, Head(rest))
    ensures ParseLevel(k, Text(f) + rest) == (Erase(f), rest)
    decreases f, 4 + 2 * (5 - k)
  {
    hide Fine, ParseUnary, Text, Erase, LevelLoop;
    FineParts(f);
    if k == 5 {
      UnaryBack(f, rest);
    } else if k == 2 && RankOf(f) == 2 {
      var tail, ts := [f.o] + (Text(f.r) + rest), Text(f) + rest;
      MiddleText(f, rest);
      ConsTail(f.o, Text(f.r) + rest);
      LevelBack(3, f.l, tail);
      LevelBack(3, f.r, rest);
      LoopTurn(2, Erase(f.l), Erase(f.r), tail, rest);
    } else {
      RankAt(k, f);
      ChainBack(k, f, rest);
      LoopStops(k, Erase(f), rest);
    }
  }

  lemma RankAt(k: nat, f: Form)
    ensures RankOf(f) == k && k < 5 && k != 2 ==> f.Two? && !f.o.Cmp?
  {}

  lemma LoopStops(k: nat, e: Expr, rest: seq<Tok>)
    requires k < 5 && Level(Head(rest)) != k
    ensures LevelLoop(k, e, rest) == (e, rest)
  {}

  /** A chain of operators of level k, whatever follows it on this level: the loop has come to its end
      with its tree. */
  lemma {:induction false} ChainBack(k: nat, f: Form, rest: seq<Tok>)
    requires k < 5 && Fine(f) && !f.Asg? && RankOf(f) >= k && Stops(k + 1, Head(rest))
    requires RankOf(f) > k || k != 2
    ensures var (a, r) := ParseLevel(k + 1, Text(f) + rest); LevelLoop(k, a, r) == LevelLoop(k, Erase(f), rest)
    decreases f, 3 + 2 * (5 - k)
  {
    hide Fine, ParseLevel, Text, Erase, LevelLoop;
    FineParts(f);
    if RankOf(f) > k {
      LevelBack(k + 1, f, rest);
    } else {
      var tail := [f.o] + (Text(f.r) + rest);
      MiddleText(f, rest);
      ConsTail(f.o, Text(f.r) + rest);
      RankIsLevel(f.o);
      ChainBack(k, f.l, tail);
      LevelBack(k + 1, f.r, rest);
      LoopTurn(k, Erase(f.l), Erase(f.r), tail, rest);
    }
  }

  /** One side of an assignment, or an expression that is none. */
  lemma {:induction false} SideBack(f: Form, rest: seq<Tok>)
    requires Fine(f) && !f.Asg? && Stops(0, Head(rest))
    ensures ParseLevel(0, Text(f) + rest) == (Erase(f), rest)
    decreases f, 15
  {
    LevelBack(0, f, rest);
  }

  lemma SetOnce(l: Expr, r: Expr, ts: seq<Tok>, tail: seq<Tok>, rest: seq<Tok>)
    requires ParseLevel(0, ts) == (l, tail) && Head(tail).Set? && ParseExpr(tail[1..]) == (r, rest)
    ensures ParseExpr(ts) == (Assign(tail[0], l, r), rest)
  {
    hide ParseLevel;
  }

  lemma NoSet(e: Expr, ts: seq<Tok>, rest: seq<Tok>)
    requires ParseLevel(0, ts) == (e, rest) && !Head(rest).Set?
    ensures ParseExpr(ts) == (e, rest)
  {}

  /** A whole expression. */
  lemma {:induction false} WholeBack(f: Form, rest: seq<Tok>)
    requires Fine(f) && Ends(Head(rest))
    ensures ParseExpr(Text(f) + rest) == (Erase(f), rest)
    decreases f, 16
  {
    hide Fine, ParseExpr, ParseLevel, Text, Erase;
    FineParts(f);
    if f.Asg? {
      var tail := [f.o] + (Text(f.r) + rest);
      MiddleText(f, rest);
      ConsTail(f.o, Text(f.r) + rest);
      SideBack(f.l, tail);
      WholeBack(f.r, rest);
      SetOnce(Erase(f.l), Erase(f.r), Text(f) + rest, tail, rest);
    } else {
      SideBack(f, rest);
      NoSet(Erase(f), Text(f) + rest, rest);
    }
  }

  lemma ArgsTurn(ts: seq<Tok>, close: Tok, e: Expr, tail: seq<Tok>, es: seq<Expr>, rest: seq<Tok>)
    requires ts != [] && Head(ts) != close && Head(ts) != Eof && ParseExpr(ts) == (e, tail)
    requires ParseArgs(SkipComma(tail), close) == (es, rest)
    ensures ParseArgs(ts, close) == ([e] + es, rest)
  {
    hide ParseExpr;
  }

  lemma ArgsEnd(close: Tok, rest: seq<Tok>)
    requires close != Comma
    ensures var t := [close] + rest;
            ParseArgs(t, close) == ([], t) && SkipComma(t) == t
  {}

  /** The first of several, and the rest of them. */
  lemma ArgsSplit(args: seq<Form>, end: seq<Tok>) returns (tail: seq<Tok>)
    requires args != []
    ensures ArgsText(args) + end == Text(args[0]) + tail
    ensures if |args| == 1 then tail == end
            else tail == [Comma] + (ArgsText(args[1..]) + end)
  {
    tail := if |args| == 1 then end else [Comma] + (ArgsText(args[1..]) + end);
  }

  lemma {:induction false} ArgsBack(args: seq<Form>, close: Tok, rest: seq<Tok>)
    requires FineAll(args) && (close == RP || close == RB)
    ensures ParseArgs(ArgsText(args) + ([close] + rest), close) == (EraseAll(args), [close] + rest)
    decreases args
  {
    hide ParseExpr, ParseArgs, Fine, Text;
    var ts, end := ArgsText(args) + ([close] + rest), [close] + rest;
    ArgsEnd(close, rest);
    if args == [] {
      assert ts == end;
    } else {
      hide ArgsText, Head, SkipComma, Ends;
      var tail := ArgsSplit(args, end);
      var more := args[1..];
      EndsHere(tail, close, rest, ArgsText(more) + end);
      OpensHere(args[0], tail, close);
      WholeBack(args[0], tail);
      if |args| > 1 { ArgsBack(more, close, rest); } else { assert EraseAll(more) == []; }
      ArgsTurn(ts, close, Erase(args[0]), tail, EraseAll(more), end);
    }
  }

  lemma OpensHere(f: Form, tail: seq<Tok>, close: Tok)
    requires Fine(f) && Closing(close)
    ensures var ts := Text(f) + tail; ts != [] && Head(ts) != close && Head(ts) != Eof
  {
    HeadText(f, tail);
  }

  lemma PairsTurn(ts: seq<Tok>, p: Pair, tail: seq<Tok>, ps: seq<Pair>, rest: seq<Tok>)
    requires ts != [] && Head(ts) != RC && Head(ts) != Eof
    requires ParseExpr(ts).0 == p.key && ParseExpr(Expect(ParseExpr(ts).1)) == (p.val, tail)
    requires ParsePairs(SkipComma(tail)) == (ps, rest)
    ensures ParsePairs(ts) == ([p] + ps, rest)
  {
    hide ParseExpr;
  }

  lemma PairsEnd(rest: seq<Tok>)
    ensures var t := [RC] + rest;
            ParsePairs(t) == ([], t) && SkipComma(t) == t
  {}

  lemma EndsHere(tail: seq<Tok>, close: Tok, rest: seq<Tok>, more: seq<Tok>)
    requires tail == [close] + rest || tail == [Comma] + more
    requires close == RP || close == RB || close == RC
    ensures Ends(Head(tail)) && (tail == [Comma] + more ==> SkipComma(tail) == more)
  {}

  lemma PairsSplit(ps: seq<FormPair>, end: seq<Tok>) returns (tail: seq<Tok>)
    requires ps != []
    ensures PairsText(ps) + end == PairText(ps[0]) + tail
    ensures if |ps| == 1 then tail == end
            else tail == [Comma] + (PairsText(ps[1..]) + end)
  {
    tail := if |ps| == 1 then end else [Comma] + (PairsText(ps[1..]) + end);
  }

  lemma {:induction false} PairsBack(pairs: seq<FormPair>, rest: seq<Tok>)
    requires FinePairs(pairs)
    ensures ParsePairs(PairsText(pairs) + ([RC] + rest)) == (ErasePairs(pairs), [RC] + rest)
    decreases pairs
  {
    hide ParseExpr, ParsePairs, PairText, FinePair, ErasePair;
    var ts, end := PairsText(pairs) + ([RC] + rest), [RC] + rest;
    PairsEnd(rest);
    if pairs == [] {
      assert ts == end;
    } else {
      hide PairsText, Head, SkipComma, Ends;
      var tail := PairsSplit(pairs, end);
      var more := pairs[1..];
      EndsHere(tail, RC, rest, PairsText(more) + end);
      PairBack(pairs[0], tail);
      if |pairs| > 1 { PairsBack(more, rest); } else { assert ErasePairs(more) == []; }
      PairsTurn(ts, ErasePair(pairs[0]), tail, ErasePairs(more), end);
    }
  }

  lemma {:induction false} PairBack(p: FormPair, tail: seq<Tok>)
    requires FinePair(p) && Ends(Head(tail))
    ensures var ts, q := PairText(p) + tail, ErasePair(p);
            && ts != [] && Head(ts) != RC && Head(ts) != Eof
            && ParseExpr(ts).0 == q.key && ParseExpr(Expect(ParseExpr(ts).1)) == (q.val, tail)
    decreases p
  {
    hide ParseExpr, Fine, Text, Erase;
    var mid := [Colon] + (Text(p.val) + tail);
    assert PairText(p) + tail == Text(p.key) + mid;
    OpensHere(p.key, mid, RC);
    WholeBack(p.key, mid);
    ConsTail(Colon, Text(p.val) + tail);
    WholeBack(p.val, tail);
  }

  // ----- the form of a printed tree ----------------------------------------------------------

  /** A postfix form after a form: it goes to the last operand. */
  function Hang(f: Form, s: Suffix): Form
    decreases f
  {
    match f
    case Asg(o, l, r) => Asg(o, l, Hang(r, s))
    case Two(o, l, r) => Two(o, l, Hang(r, s))
    case Pref(o, g) => Pref(o, Hang(g, s))
    case _ => Suf(f, s)
  }

  /** A prefix operator before a form: it goes to the first operand. */
  function Push(o: Tok, f: Form): Form
    decreases f
  {
    match f
    case Asg(q, l, r) => Asg(q, Push(o, l), r)
    case Two(q, l, r) => Two(q, Push(o, l), r)
    case _ => Pref(o, f)
  }

  function JoinSet(l: Form, o: Tok, r: Form): Form
    decreases l
  {
    match l
    case Asg(q, x, y) => Asg(q, x, JoinSet(y, o, r))
    case _ => Asg(o, l, r)
  }

  /** A binary operator between two forms: it takes the operands that are next to it. */
  function JoinTwo(l: Form, o: Tok, r: Form): Form
    decreases l
  {
    match l
    case Asg(q, x, y) => Asg(q, x, JoinTwo(y, o, r))
    case _ => match r case Asg(q, x, y) => Asg(q, Two(o, l, x), y) case _ => Two(o, l, r)
  }

  /** How the printed tokens of a tree are read. */
  function Norm(e: Expr): Form
    decreases e
  {
    match e
    case Atom(t) => Leaf(t)
    case Bin(o, l, r) => Par(JoinTwo(Norm(l), o, Norm(r)))
    case Pre(o, e1) => Push(o, Norm(e1))
    case Member(e1, t) => Hang(Norm(e1), Dotted(t))
    case Call(e1, args) => Hang(Norm(e1), Called(NormAll(args)))
    case Index(e1, i) => Hang(Norm(e1), Indexed(Norm(i)))
    case Post(e1, o) => Hang(Norm(e1), Stepped(o))
    case ListLit(args) => Lst(NormAll(args))
    case DictLit(pairs) => Dct(NormPairs(pairs))
    case RangeOf(args) => Rng(NormAll(args))
    case Assign(o, l, r) => JoinSet(Norm(l), o, Norm(r))
  }

  function NormAll(es: seq<Expr>): (r: seq<Form>)
    ensures |r| == |es|
    decreases es
  {
    if es == [] then [] else [Norm(es[0])] + NormAll(es[1..])
  }

  function NormPairs(ps: seq<Pair>): (r: seq<FormPair>)
    ensures |r| == |ps|
    decreases ps
  {
    if ps == [] then [] else [NormPair(ps[0])] + NormPairs(ps[1..])
  }

  function NormPair(p: Pair): FormPair
    decreases p
  {
    FormPair(Norm(p.key), Norm(p.val))
  }

  /** The tree that a printed tree comes back as. */
  function Back(e: Expr): Expr { Erase(Norm(e)) }

  /** No binary operator outside parentheses. */
  predicate Spine(f: Form)
    decreases f
  {
    match f
    case Asg(_, l, r) => !l.Two? && Spine(r)
    case Two(_, _, _) => false
    case _ => true
  }

  lemma {:induction false} HangText(f: Form, s: Suffix)
    ensures Text(Hang(f, s)) == Text(f) + SufText(s)
    decreases f
  {
    hide SufText;
    match f {
      case Asg(_, _, r) => HangText(r, s);
      case Two(_, _, r) => HangText(r, s);
      case Pref(_, g) => HangText(g, s);
      case _ =>
    }
  }

  lemma {:induction false} HangRank(f: Form, s: Suffix)
    ensures f.Asg? == Hang(f, s).Asg? && RankOf(Hang(f, s)) == RankOf(f)
    ensures Unary(f) ==> Unary(Hang(f, s))
    ensures Spine(f) ==> Spine(Hang(f, s))
    decreases f
  {
    hide Rank;
    match f {
      case Asg(_, _, r) => HangRank(r, s);
      case Two(_, _, r) =>
      case Pref(_, g) => HangRank(g, s);
      case _ =>
    }
  }

  lemma {:induction false} HangOk(f: Form, s: Suffix)
    requires Fine(f) && FineSuf(s)
    ensures Text(Hang(f, s)) == Text(f) + SufText(s)
    ensures Fine(Hang(f, s)) && (Spine(f) ==> Spine(Hang(f, s)))
    decreases f
  {
    hide Text, SufText, FineSuf, Rank, IsOperator, Spine;
    HangText(f, s);
    HangRank(f, s);
    match f {
      case Asg(_, _, r) => HangOk(r, s);
      case Two(_, _, r) =>
        HangOk(r, s);
        HangRank(r, s);
      case Pref(_, g) =>
        HangOk(g, s);
        HangRank(g, s);
      case _ =>
    }
  }

  lemma {:induction false} PushOk(o: Tok, f: Form)
    requires Fine(f) && IsPrefix(o) && Spine(f)
    ensures Text(Push(o, f)) == [o] + Text(f)
    ensures Fine(Push(o, f)) && Spine(Push(o, f))
    decreases f
  {
    if f.Asg? {
      assert Push(o, f.l) == Pref(o, f.l);
      assert [o] + (Text(f.l) + [f.o] + Text(f.r)) == [o] + Text(f.l) + [f.o] + Text(f.r);
    }
  }

  lemma Regroup(a: seq<Tok>, b: seq<Tok>, c: seq<Tok>, d: seq<Tok>, e: seq<Tok>)
    ensures a + b + (c + d + e) == (a + b + c) + d + e
  {}

  lemma {:induction false} JoinSetOk(l: Form, o: Tok, r: Form)
    requires Fine(l) && Fine(r) && o.Set? && Spine(l) && Spine(r)
    ensures Text(JoinSet(l, o, r)) == Text(l) + [o] + Text(r)
    ensures Fine(JoinSet(l, o, r)) && Spine(JoinSet(l, o, r))
    decreases l
  {
    if l.Asg? {
      JoinSetOk(l.r, o, r);
      Regroup(Text(l.l), [l.o], Text(l.r), [o], Text(r));
    }
  }

  lemma {:induction false} JoinTwoText(l: Form, o: Tok, r: Form)
    requires Spine(l) && Spine(r)
    ensures Text(JoinTwo(l, o, r)) == Text(l) + [o] + Text(r)
    decreases l
  {
    if l.Asg? {
      JoinTwoText(l.r, o, r);
      Regroup(Text(l.l), [l.o], Text(l.r), [o], Text(r));
    } else if r.Asg? {
      Regroup(Text(l), [o], Text(r.l), [r.o], Text(r.r));
    }
  }

  lemma {:induction false} JoinTwoOk(l: Form, o: Tok, r: Form)
    requires Fine(l) && Fine(r) && Level(o) < 5 && Spine(l) && Spine(r)
    ensures Text(JoinTwo(l, o, r)) == Text(l) + [o] + Text(r)
    ensures Fine(JoinTwo(l, o, r))
    decreases l
  {
    JoinTwoText(l, o, r);
    RankIsLevel(o);
    hide Text, Level, IsOperator;
    if l.Asg? { JoinTwoOk(l.r, o, r); }
  }

  /** The form of a tree is one of the grammar, and its text is what is printed. */
  lemma {:induction false} NormOk(e: Expr)
    requires RightTokens(e)
    ensures Fine(Norm(e)) && Spine(Norm(e)) && Text(Norm(e)) == Print(e)
    decreases e, 1
  {
    hide Fine, FineSuf, Spine, Hang, Push, JoinSet, JoinTwo, Text, ArgsText, PairsText, PrintArgs, PrintPairs;
    match e {
      case Atom(t) => AtomOk(t);
      case Bin(o, l, r) =>
        NormOk(l);
        NormOk(r);
        JoinTwoOk(Norm(l), o, Norm(r));
        ParOk(JoinTwo(Norm(l), o, Norm(r)), Print(l), [o], Print(r));
      case Pre(o, e1) =>
        NormOk(e1);
        PushOk(o, Norm(e1));
      case ListLit(args) =>
        NormAllOk(args);
        LstOk(Norm(e));
      case DictLit(pairs) =>
        NormPairsOk(pairs);
        LstOk(Norm(e));
      case RangeOf(args) =>
        NormAllOk(args);
        LstOk(Norm(e));
      case Assign(o, l, r) =>
        NormOk(l);
        NormOk(r);
        JoinSetOk(Norm(l), o, Norm(r));
      case _ =>
        NormOk(e.e);
        SuffixOk(e);
        HangOk(Norm(e.e), SuffixOf(e));
    }
  }

  lemma AtomOk(t: Tok)
    requires IsAtom(t)
    ensures Fine(Leaf(t)) && Spine(Leaf(t)) && Text(Leaf(t)) == Out(t)
  {}

  lemma ParOk(f: Form, a: seq<Tok>, b: seq<Tok>, c: seq<Tok>)
    requires Fine(f) && Text(f) == a + b + c
    ensures Fine(Par(f)) && Spine(Par(f)) && Text(Par(f)) == [LP] + a + b + c + [RP]
  {}

  lemma LstOk(f: Form)
    requires f.Lst? || f.Dct? || f.Rng?
    requires if f.Dct? then FinePairs(f.pairs) else FineAll(f.args)
    ensures Fine(f) && Spine(f)
    ensures f.Lst? ==> Text(f) == [LB] + ArgsText(f.args) + [RB]
    ensures f.Dct? ==> Text(f) == [LC] + PairsText(f.pairs) + [RC]
    ensures f.Rng? ==> Text(f) == [Range, LP] + ArgsText(f.args) + [RP]
  {}

  function SuffixOf(e: Expr): Suffix
    requires IsPostfix(e)
  {
    match e
    case Member(_, t) => Dotted(t)
    case Call(_, args) => Called(NormAll(args))
    case Index(_, i) => Indexed(Norm(i))
    case Post(_, o) => Stepped(o)
  }

  lemma SuffixForm(e: Expr)
    requires IsPostfix(e)
    ensures Norm(e) == Hang(Norm(e.e), SuffixOf(e))
  {
    hide Hang, NormAll;
  }

  /** The parts of a postfix form, and how it is printed. */
  lemma PostfixParts(e: Expr)
    requires RightTokens(e) && IsPostfix(e)
    ensures RightTokens(e.e)
    ensures e.Member? ==> e.t != Eof && Print(e) == Print(e.e) + [Dot, e.t]
    ensures e.Call? ==> AllRight(e.args) && Print(e) == Print(e.e) + ([LP] + PrintArgs(e.args) + [RP])
    ensures e.Index? ==> RightTokens(e.i) && Print(e) == Print(e.e) + ([LB] + Print(e.i) + [RB])
    ensures e.Post? ==> IsStep(e.o) && Print(e) == Print(e.e) + [e.o]
  {
    hide PrintArgs, AllRight;
  }

  lemma {:induction false} SuffixOk(e: Expr)
    requires RightTokens(e) && IsPostfix(e)
    ensures FineSuf(SuffixOf(e)) && Print(e) == Print(e.e) + SufText(SuffixOf(e))
    ensures Norm(e) == Hang(Norm(e.e), SuffixOf(e))
    decreases e, 0
  {
    SuffixForm(e);
    PostfixParts(e);
    hide Fine, Hang, Norm, Text, NormAll, ArgsText, PrintArgs, Spine, Print, RightTokens, AllRight;
    match e {
      case Call(_, args) => NormAllOk(args);
      case Index(_, i) => NormOk(i);
      case _ =>
    }
  }

  lemma {:induction false} NormAllOk(es: seq<Expr>)
    requires AllRight(es)
    ensures FineAll(NormAll(es)) && ArgsText(NormAll(es)) == PrintArgs(es)
    decreases es
  {
    hide Fine, Norm, Print, Text, RightTokens;
    if es != [] {
      NormOk(es[0]);
      NormAllOk(es[1..]);
      assert NormAll(es)[1..] == NormAll(es[1..]);
    }
  }

  lemma {:induction false} NormPairsOk(ps: seq<Pair>)
    requires PairsRight(ps)
    ensures FinePairs(NormPairs(ps)) && PairsText(NormPairs(ps)) == PrintPairs(ps)
    decreases ps
  {
    hide FinePair, NormPair, PrintPair, PairText, PairRight;
    if ps != [] {
      NormPairOk(ps[0]);
      NormPairsOk(ps[1..]);
      assert NormPairs(ps)[1..] == NormPairs(ps[1..]);
    }
  }

  lemma {:induction false} NormPairOk(p: Pair)
    requires PairRight(p)
    ensures FinePair(NormPair(p)) && PairText(NormPair(p)) == PrintPair(p)
    decreases p
  {
    NormOk(p.key);
    NormOk(p.val);
  }
}
