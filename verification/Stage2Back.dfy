/** Which printed expressions come back as they were. */
module Stage2Back {
  import opened Stage2
  import opened Stage2Proof

  /** Main result: the printed tokens of any tree parse to the tree Back(e), and exactly those tokens are
      used, whatever follows that does not continue an expression. */
  lemma PrintedParsesBack(e: Expr, rest: seq<Tok>)
    requires RightTokens(e) && Ends(Head(rest))
    ensures ParseExpr(Print(e) + rest) == (Back(e), rest)
  {
    NormOk(e);
    WholeBack(Norm(e), rest);
  }

  // ----- good trees come back ----------------------------------------------------------------

  lemma {:induction false} GoodIsRight(e: Expr)
    requires Good(e)
    ensures RightTokens(e)
    decreases e
  {
    match e {
      case Atom(_) =>
      case Bin(_, l, r) => GoodIsRight(l); GoodIsRight(r);
      case Assign(_, l, r) => GoodIsRight(l); GoodIsRight(r);
      case ListLit(args) => GoodAllRight(args);
      case RangeOf(args) => GoodAllRight(args);
      case DictLit(pairs) => GoodPairsRight(pairs);
      case Call(e1, args) => GoodIsRight(e1); GoodAllRight(args);
      case Index(e1, i) => GoodIsRight(e1); GoodIsRight(i);
      case _ => GoodIsRight(e.e);
    }
  }

  lemma {:induction false} GoodAllRight(es: seq<Expr>)
    requires GoodAll(es)
    ensures AllRight(es)
    decreases es
  {
    if es != [] { GoodIsRight(es[0]); GoodAllRight(es[1..]); }
  }

  lemma {:induction false} GoodPairsRight(ps: seq<Pair>)
    requires GoodPairs(ps)
    ensures PairsRight(ps)
    decreases ps
  {
    if ps != [] { GoodPairRight(ps[0]); GoodPairsRight(ps[1..]); }
  }

  lemma {:induction false} GoodPairRight(p: Pair)
    requires GoodPair(p)
    ensures PairRight(p)
    decreases p
  {
    GoodIsRight(p.key);
    GoodIsRight(p.val);
  }

  /** What the form of a tree starts with. */
  lemma {:induction false} NormRoot(e: Expr)
    ensures e.Assign? ==> Norm(e).Asg?
    ensures e.Pre? ==> Norm(e).Asg? || Norm(e).Pref? || Norm(e).Two?
  {}

  lemma {:induction false} GoodComesBack(e: Expr)
    requires Good(e)
    ensures Back(e) == e
    ensures (Norm(e).Asg? ==> e.Assign?) && (Norm(e).Pref? ==> e.Pre?) && !Norm(e).Two?
    decreases e
  {
    hide Print, Hang;
    match e {
      case Atom(_) =>
      case Bin(o, l, r) =>
        GoodComesBack(l);
        GoodComesBack(r);
        BinForm(e);
        JoinTwoRoot(Norm(l), o, Norm(r));
      case Pre(_, e1) => GoodComesBack(e1);
      case Assign(_, l, r) => GoodComesBack(l); GoodComesBack(r);
      case ListLit(args) => AllComeBack(args);
      case RangeOf(args) => AllComeBack(args);
      case DictLit(pairs) => PairsComeBack(pairs);
      case Call(e1, args) => GoodComesBack(e1); AllComeBack(args); PostfixStays(e);
      case Index(e1, i) => GoodComesBack(e1); GoodComesBack(i); PostfixStays(e);
      case _ => GoodComesBack(e.e); PostfixStays(e);
    }
  }

  lemma PostfixStays(e: Expr)
    requires IsPostfix(e) && Base(Norm(e.e)) && Back(e.e) == e.e
    requires e.Call? ==> EraseAll(NormAll(e.args)) == e.args
    requires e.Index? ==> Back(e.i) == e.i
    ensures Back(e) == e && Norm(e).Suf?
  {
    var n, s := Norm(e.e), SuffixOf(e);
    SuffixForm(e);
    hide Norm, NormAll, EraseAll;
    assert Hang(n, s) == Suf(n, s);
    assert Erase(Suf(n, s)) == EraseSuf(Erase(n), s);
  }

  lemma {:induction false} AllComeBack(es: seq<Expr>)
    requires GoodAll(es)
    ensures EraseAll(NormAll(es)) == es
    decreases es
  {
    hide Good, Norm, Erase;
    if es != [] {
      GoodComesBack(es[0]);
      AllComeBack(es[1..]);
      assert NormAll(es)[1..] == NormAll(es[1..]);
    }
  }

  lemma {:induction false} PairsComeBack(ps: seq<Pair>)
    requires GoodPairs(ps)
    ensures ErasePairs(NormPairs(ps)) == ps
    decreases ps
  {
    hide GoodPair, NormPair, ErasePair;
    if ps != [] {
      PairComesBack(ps[0]);
      PairsComeBack(ps[1..]);
      assert NormPairs(ps)[1..] == NormPairs(ps[1..]);
    }
  }

  lemma {:induction false} PairComesBack(p: Pair)
    requires GoodPair(p)
    ensures ErasePair(NormPair(p)) == p
    decreases p
  {
    GoodComesBack(p.key);
    GoodComesBack(p.val);
  }

  // ----- the number of nodes stays the same --------------------------------------------------

  function Nodes(e: Expr): nat
    decreases e
  {
    1 + match e
        case Atom(_) => 0
        case Bin(_, l, r) => Nodes(l) + Nodes(r)
        case Pre(_, e1) => Nodes(e1)
        case Member(e1, _) => Nodes(e1)
        case Call(e1, args) => Nodes(e1) + NodesAll(args)
        case Index(e1, i) => Nodes(e1) + Nodes(i)
        case Post(e1, _) => Nodes(e1)
        case ListLit(args) => NodesAll(args)
        case DictLit(pairs) => NodesPairs(pairs)
        case RangeOf(args) => NodesAll(args)
        case Assign(_, l, r) => Nodes(l) + Nodes(r)
  }

  function NodesAll(es: seq<Expr>): nat
    decreases es
  {
    if es == [] then 0 else Nodes(es[0]) + NodesAll(es[1..])
  }

  function NodesPairs(ps: seq<Pair>): nat
    decreases ps
  {
    if ps == [] then 0 else NodesPair(ps[0]) + NodesPairs(ps[1..])
  }

  function NodesPair(p: Pair): nat
    decreases p
  {
    Nodes(p.key) + Nodes(p.val)
  }

  /** What a suffix adds. */
  function Extra(s: Suffix): nat {
    1 + match s
        case Dotted(_) => 0
        case Called(args) => NodesAll(EraseAll(args))
        case Indexed(i) => Nodes(Erase(i))
        case Stepped(_) => 0
  }

  /** The size of a form's tree. */
  function Size(f: Form): nat { Nodes(Erase(f)) }

  lemma SizeParts(f: Form)
    ensures f.Asg? || f.Two? ==> Size(f) == Size(f.l) + Size(f.r) + 1
    ensures f.Pref? ==> Size(f) == Size(f.f) + 1
    ensures f.Par? ==> Size(f) == Size(f.inner)
  {}

  lemma SufNodes(e: Expr, s: Suffix)
    ensures Nodes(EraseSuf(e, s)) == Nodes(e) + Extra(s)
  {}

  lemma {:induction false} HangNodes(f: Form, s: Suffix)
    ensures Size(Hang(f, s)) == Size(f) + Extra(s)
    decreases f
  {
    SizeParts(f);
    SizeParts(Hang(f, s));
    SufNodes(Erase(f), s);
    assert Erase(Suf(f, s)) == EraseSuf(Erase(f), s);
    hide Extra, EraseSuf, Nodes, Erase;
    match f {
      case Asg(_, _, r) => HangNodes(r, s);
      case Two(_, _, r) => HangNodes(r, s);
      case Pref(_, g) => HangNodes(g, s);
      case _ =>
    }
  }

  lemma {:induction false} PushNodes(o: Tok, f: Form)
    ensures Size(Push(o, f)) == Size(f) + 1
    decreases f
  {
    SizeParts(f);
    SizeParts(Push(o, f));
    hide Size;
    match f {
      case Asg(_, l, _) => PushNodes(o, l);
      case Two(_, l, _) => PushNodes(o, l);
      case _ =>
    }
  }

  lemma {:induction false} JoinSetNodes(l: Form, o: Tok, r: Form)
    ensures Size(JoinSet(l, o, r)) == Size(l) + Size(r) + 1
    decreases l
  {
    SizeParts(l);
    SizeParts(JoinSet(l, o, r));
    hide Size;
    if l.Asg? { JoinSetNodes(l.r, o, r); }
  }

  lemma {:induction false} JoinTwoNodes(l: Form, o: Tok, r: Form)
    ensures Size(JoinTwo(l, o, r)) == Size(l) + Size(r) + 1
    decreases l
  {
    SizeParts(l);
    SizeParts(r);
    SizeParts(JoinTwo(l, o, r));
    if r.Asg? { SizeParts(Two(o, l, r.l)); }
    hide Size;
    if l.Asg? { JoinTwoNodes(l.r, o, r); }
  }

  lemma {:induction false} BackNodes(e: Expr)
    ensures Nodes(Back(e)) == Nodes(e)
    decreases e
  {
    hide Hang, Push, JoinSet, JoinTwo, RightTokens, NodesAll, NodesPairs, EraseAll, ErasePairs, NormAll, NormPairs;
    match e {
      case Atom(_) =>
      case Bin(o, l, r) =>
        BackNodes(l);
        BackNodes(r);
        JoinTwoNodes(Norm(l), o, Norm(r));
        SizeParts(Norm(e));
      case Pre(o, e1) =>
        BackNodes(e1);
        PushNodes(o, Norm(e1));
      case Assign(o, l, r) =>
        BackNodes(l);
        BackNodes(r);
        JoinSetNodes(Norm(l), o, Norm(r));
      case ListLit(args) => AllBackNodes(args);
      case RangeOf(args) => AllBackNodes(args);
      case DictLit(pairs) => PairsBackNodes(pairs);
      case Call(e1, args) =>
        BackNodes(e1);
        AllBackNodes(args);
        PostfixNodes(e);
      case Index(e1, i) =>
        BackNodes(e1);
        BackNodes(i);
        PostfixNodes(e);
      case _ =>
        BackNodes(e.e);
        PostfixNodes(e);
    }
  }

  lemma PostfixNodes(e: Expr)
    requires IsPostfix(e) && Nodes(Back(e.e)) == Nodes(e.e)
    requires e.Call? ==> NodesAll(EraseAll(NormAll(e.args))) == NodesAll(e.args)
    requires e.Index? ==> Nodes(Back(e.i)) == Nodes(e.i)
    ensures Nodes(Back(e)) == Nodes(e)
  {
    SuffixForm(e);
    HangNodes(Norm(e.e), SuffixOf(e));
    hide Norm, Hang, Erase, NodesAll, EraseAll, NormAll;
  }

  lemma {:induction false} AllBackNodes(es: seq<Expr>)
    ensures NodesAll(EraseAll(NormAll(es))) == NodesAll(es)
    decreases es
  {
    hide Nodes, Norm, Erase;
    if es != [] {
      BackNodes(es[0]);
      AllBackNodes(es[1..]);
      assert NormAll(es)[1..] == NormAll(es[1..]);
      assert EraseAll(NormAll(es))[1..] == EraseAll(NormAll(es[1..]));
    }
  }

  lemma {:induction false} PairsBackNodes(ps: seq<Pair>)
    ensures NodesPairs(ErasePairs(NormPairs(ps))) == NodesPairs(ps)
    decreases ps
  {
    hide NodesPair, NormPair, ErasePair;
    if ps != [] {
      PairBackNodes(ps[0]);
      PairsBackNodes(ps[1..]);
      assert NormPairs(ps)[1..] == NormPairs(ps[1..]);
      assert ErasePairs(NormPairs(ps))[1..] == ErasePairs(NormPairs(ps[1..]));
    }
  }

  lemma {:induction false} PairBackNodes(p: Pair)
    ensures NodesPair(ErasePair(NormPair(p))) == NodesPair(p)
    decreases p
  {
    BackNodes(p.key);
    BackNodes(p.val);
  }

  // ----- only good trees come back -----------------------------------------------------------

  lemma {:induction false} OnlyGoodComesBack(e: Expr)
    requires RightTokens(e) && Back(e) == e
    ensures Good(e)
    decreases e
  {
    hide Fine, Nodes, Text, Print;
    match e {
      case Atom(_) =>
      case Bin(o, l, r) =>
        BinComesBack(e);
        NormRoot(l);
        NormRoot(r);
        OnlyGoodComesBack(l);
        OnlyGoodComesBack(r);
      case Pre(o, e1) =>
        NormOk(e1);
        NormRoot(e1);
        OnlyGoodComesBack(e1);
      case Assign(o, l, r) =>
        NormRoot(l);
        AssignComesBack(e);
        OnlyGoodComesBack(l);
        OnlyGoodComesBack(r);
      case ListLit(args) => AllComingBack(args);
      case RangeOf(args) => AllComingBack(args);
      case DictLit(pairs) => PairsComingBack(pairs);
      case Call(e1, args) =>
        PostfixComesBack(e);
        OnlyGoodComesBack(e1);
        AllComingBack(args);
      case Index(e1, i) =>
        PostfixComesBack(e);
        OnlyGoodComesBack(e1);
        OnlyGoodComesBack(i);
      case _ =>
        PostfixComesBack(e);
        OnlyGoodComesBack(e.e);
    }
  }

  /** A postfix form comes back only if its base is one. */
  lemma PostfixComesBack(e: Expr)
    requires RightTokens(e) && IsPostfix(e) && Back(e) == e
    ensures IsBase(e.e) && Back(e.e) == e.e
    ensures e.Call? ==> EraseAll(NormAll(e.args)) == e.args
    ensures e.Index? ==> Back(e.i) == e.i
  {
    NormOk(e.e);
    NormRoot(e.e);
    SuffixForm(e);
    hide Norm, NormAll, EraseAll, Fine, Text, Print, RightTokens;
    var n, s := Norm(e.e), SuffixOf(e);
    assert !n.Asg? && !n.Pref? by { HangRoot(n, s); }
    assert Hang(n, s) == Suf(n, s);
    assert Erase(Suf(n, s)) == EraseSuf(Erase(n), s);
  }

  lemma HangRoot(f: Form, s: Suffix)
    ensures f.Asg? ==> Erase(Hang(f, s)).Assign?
    ensures f.Pref? ==> Erase(Hang(f, s)).Pre?
  {}

  lemma JoinTwoRoot(l: Form, o: Tok, r: Form)
    ensures if l.Asg? || r.Asg? then Erase(Par(JoinTwo(l, o, r))).Assign?
            else Erase(Par(JoinTwo(l, o, r))) == Bin(o, Erase(l), Erase(r))
  {
    hide Erase;
    var j := JoinTwo(l, o, r);
    assert if l.Asg? || r.Asg? then j.Asg? else j == Two(o, l, r);
    EraseRoot(j);
  }

  lemma EraseRoot(f: Form)
    ensures Erase(Par(f)) == Erase(f)
    ensures f.Asg? ==> Erase(f).Assign?
    ensures f.Two? ==> Erase(f) == Bin(f.o, Erase(f.l), Erase(f.r))
  {}

  lemma BinForm(e: Expr)
    requires e.Bin?
    ensures Norm(e) == Par(JoinTwo(Norm(e.l), e.o, Norm(e.r)))
  {
    hide JoinTwo;
  }

  /** A binary form comes back only if its operands do and are no assignments. */
  lemma BinComesBack(e: Expr)
    requires e.Bin? && Back(e) == e
    ensures !Norm(e.l).Asg? && !Norm(e.r).Asg? && Back(e.l) == e.l && Back(e.r) == e.r
  {
    BinForm(e);
    JoinTwoRoot(Norm(e.l), e.o, Norm(e.r));
    hide Norm, Erase, JoinTwo;
  }

  lemma LeftIsSmaller(f: Form)
    ensures f.Asg? ==> Nodes(Erase(f.l)) < Nodes(Erase(f))
  {}

  /** An assignment to an assignment would come back with a smaller left side. */
  lemma AssignComesBack(e: Expr)
    requires e.Assign? && Back(e) == e
    ensures !Norm(e.l).Asg? && Back(e.l) == e.l && Back(e.r) == e.r
  {
    var n := Norm(e.l);
    BackNodes(e.l);
    assert Norm(e) == JoinSet(n, e.o, Norm(e.r));
    hide Norm;
    LeftIsSmaller(n);
  }

  lemma {:induction false} AllComingBack(es: seq<Expr>)
    requires AllRight(es) && EraseAll(NormAll(es)) == es
    ensures GoodAll(es)
    decreases es
  {
    hide Good, Norm, Erase, RightTokens;
    if es != [] {
      assert NormAll(es)[1..] == NormAll(es[1..]);
      assert EraseAll(NormAll(es))[1..] == EraseAll(NormAll(es[1..]));
      OnlyGoodComesBack(es[0]);
      AllComingBack(es[1..]);
    }
  }

  lemma {:induction false} PairsComingBack(ps: seq<Pair>)
    requires PairsRight(ps) && ErasePairs(NormPairs(ps)) == ps
    ensures GoodPairs(ps)
    decreases ps
  {
    hide GoodPair, NormPair, ErasePair, PairRight;
    if ps != [] {
      assert NormPairs(ps)[1..] == NormPairs(ps[1..]);
      assert ErasePairs(NormPairs(ps))[1..] == ErasePairs(NormPairs(ps[1..]));
      PairComingBack(ps[0]);
      PairsComingBack(ps[1..]);
    }
  }

  lemma {:induction false} PairComingBack(p: Pair)
    requires PairRight(p) && ErasePair(NormPair(p)) == p
    ensures GoodPair(p)
    decreases p
  {
    OnlyGoodComesBack(p.key);
    OnlyGoodComesBack(p.val);
  }

  // ----- results -----------------------------------------------------------------------------

  /** Main result: a tree comes back from its printed tokens if and only if it is good - no prefix form
      under a postfix form, and no assignment as an operand or as the left side of an assignment. */
  lemma ComesBackIffGood(e: Expr)
    requires RightTokens(e)
    ensures ParseExpr(Print(e)) == (e, []) <==> Good(e)
  {
    hide ParseExpr, Print, Good, RightTokens;
    assert Print(e) + [] == Print(e);
    PrintedParsesBack(e, []);
    if Good(e) { GoodComesBack(e); }
    if Back(e) == e { OnlyGoodComesBack(e); }
  }

  /** A postfix form of a prefix form comes back as a prefix form or an assignment: (-x).f prints as
      -x.f, which is -(x.f). */
  lemma PrefixBaseIsLost(e: Expr)
    requires RightTokens(e) && IsPostfix(e) && e.e.Pre?
    ensures var b := ParseExpr(Print(e)).0; b.Pre? || b.Assign?
  {
    hide ParseExpr, Print;
    assert Print(e) + [] == Print(e);
    PrintedParsesBack(e, []);
    NormOk(e.e);
    NormRoot(e.e);
    SuffixForm(e);
  }

  /** An assignment as an operand takes the whole expression: (x = y) + z prints as (x = y + z), which
      assigns the sum. */
  lemma AssignmentOperandIsLost(e: Expr)
    requires RightTokens(e)
    requires (e.Bin? && (e.l.Assign? || e.r.Assign?)) || ((e.Pre? || IsPostfix(e)) && e.e.Assign?)
    ensures ParseExpr(Print(e)).0.Assign?
  {
    hide ParseExpr, Print, RightTokens, Hang, JoinTwo;
    assert Print(e) + [] == Print(e);
    PrintedParsesBack(e, []);
    if e.Bin? {
      NormRoot(e.l);
      NormRoot(e.r);
      BinForm(e);
      JoinTwoRoot(Norm(e.l), e.o, Norm(e.r));
    } else if e.Pre? {
      NormRoot(e.e);
    } else {
      NormRoot(e.e);
      SuffixForm(e);
      HangRoot(Norm(e.e), SuffixOf(e));
    }
  }
}
