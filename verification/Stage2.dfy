/** The expression parser of the second bootstrap stage and the text it prints, on tokens, as total
    functions that end on a token count. */
module Stage2 {

  datatype Tok =
    | Eof | Lit(text: string) | Ident(name: string)
    | Or | And | Cmp(cmp: string) | Plus | Minus | Star | Slash | Percent
    | Bang | Tilde | Await | Set(op: string)
    | LP | RP | LB | RB | LC | RC | Comma | Colon | Dot | PP | MM | Range
    | Word(word: string)                    // any other token

  datatype Expr =
    | Atom(t: Tok)                          // a literal or name; else a token that fits nowhere
    | Bin(o: Tok, l: Expr, r: Expr)
    | Pre(o: Tok, e: Expr)
    | Member(e: Expr, t: Tok)
    | Call(e: Expr, args: seq<Expr>)
    | Index(e: Expr, i: Expr)
    | Post(e: Expr, o: Tok)
    | ListLit(args: seq<Expr>)
    | DictLit(pairs: seq<Pair>)
    | RangeOf(args: seq<Expr>)
    | Assign(o: Tok, l: Expr, r: Expr)

  datatype Pair = Pair(key: Expr, val: Expr)

  // ----- printing ----------------------------------------------------------------------------

  function Out(t: Tok): seq<Tok> { if t == Eof then [] else [t] }

  /** Every binary operator is put in parentheses; nothing else is. */
  function Print(e: Expr): seq<Tok>
    decreases e
  {
    match e
    case Atom(t) => Out(t)
    case Bin(o, l, r) => [LP] + Print(l) + [o] + Print(r) + [RP]
    case Pre(o, e1) => [o] + Print(e1)
    case Member(e1, t) => Print(e1) + [Dot] + Out(t)
    case Call(e1, args) => Print(e1) + [LP] + PrintArgs(args) + [RP]
    case Index(e1, i) => Print(e1) + [LB] + Print(i) + [RB]
    case Post(e1, o) => Print(e1) + [o]
    case ListLit(args) => [LB] + PrintArgs(args) + [RB]
    case DictLit(pairs) => [LC] + PrintPairs(pairs) + [RC]
    case RangeOf(args) => [Range, LP] + PrintArgs(args) + [RP]
    case Assign(o, l, r) => Print(l) + [o] + Print(r)
  }

  function PrintArgs(args: seq<Expr>): seq<Tok>
    decreases args
  {
    if args == [] then []
    else Print(args[0]) + (if |args| == 1 then [] else [Comma] + PrintArgs(args[1..]))
  }

  function PrintPairs(pairs: seq<Pair>): seq<Tok>
    decreases pairs
  {
    if pairs == [] then []
    else PrintPair(pairs[0]) + (if |pairs| == 1 then [] else [Comma] + PrintPairs(pairs[1..]))
  }

  function PrintPair(p: Pair): seq<Tok>
    decreases p
  {
    Print(p.key) + [Colon] + Print(p.val)
  }

  // ----- parsing -----------------------------------------------------------------------------

  /** The token at the front; past the end there is nothing but Eof. */
  function Head(ts: seq<Tok>): Tok { if ts == [] then Eof else ts[0] }

  function Advance(ts: seq<Tok>): seq<Tok> { if ts == [] then [] else ts[1..] }

  /** A mismatch is reported, and the token is passed over all the same. */
  function Expect(ts: seq<Tok>): seq<Tok> { Advance(ts) }

  /** The level at which a binary operator binds: or, and, comparison, sum, product. */
  function Level(t: Tok): nat {
    match t
    case Or => 0
    case And => 1
    case Cmp(_) => 2
    case Plus => 3
    case Minus => 3
    case Star => 4
    case Slash => 4
    case Percent => 4
    case _ => 9
  }

  predicate IsPrefix(t: Tok) { t == Bang || t == Minus || t == Tilde || t == Await }

  function ParseExpr(ts: seq<Tok>): (r: (Expr, seq<Tok>))
    ensures |r.1| <= |ts| && (ts != [] ==> |r.1| < |ts|)
    decreases |ts|, 20
  {
    var (l, rest) := ParseLevel(0, ts);
    if Head(rest).Set? then
      var (r, rest1) := ParseExpr(rest[1..]);
      (Assign(rest[0], l, r), rest1)
    else (l, rest)
  }

  /** One level of binary operators; above the products come the prefix operators. */
  function ParseLevel(k: nat, ts: seq<Tok>): (r: (Expr, seq<Tok>))
    requires k <= 5
    ensures |r.1| <= |ts| && (ts != [] ==> |r.1| < |ts|)
    decreases |ts|, 19 - 2 * k
  {
    if k == 5 then ParseUnary(ts)
    else
      var (l, rest) := ParseLevel(k + 1, ts);
      LevelLoop(k, l, rest)
  }

  /** Left-associative, but a comparison is taken only once. */
  function LevelLoop(k: nat, l: Expr, ts: seq<Tok>): (r: (Expr, seq<Tok>))
    requires k < 5
    ensures |r.1| <= |ts|
    decreases |ts|, 18 - 2 * k
  {
    if Level(Head(ts)) != k then (l, ts)
    else
      var (r, rest) := ParseLevel(k + 1, ts[1..]);
      if k == 2 then (Bin(ts[0], l, r), rest) else LevelLoop(k, Bin(ts[0], l, r), rest)
  }

  function ParseUnary(ts: seq<Tok>): (r: (Expr, seq<Tok>))
    ensures |r.1| <= |ts| && (ts != [] ==> |r.1| < |ts|)
    decreases |ts|, 8
  {
    if IsPrefix(Head(ts)) then
      var (e, rest) := ParseUnary(ts[1..]);
      (Pre(ts[0], e), rest)
    else
      var (b, rest) := ParsePrimary(ts);
      PostfixLoop(b, rest)
  }

  function PostfixLoop(b: Expr, ts: seq<Tok>): (r: (Expr, seq<Tok>))
    ensures |r.1| <= |ts|
    decreases |ts|, 6
  {
    match Head(ts)
    case Dot => PostfixLoop(Member(b, Head(ts[1..])), Advance(ts[1..]))
    case LP =>
      var (args, rest) := ParseArgs(ts[1..], RP);
      PostfixLoop(Call(b, args), Expect(rest))
    case LB =>
      var (i, rest) := ParseExpr(ts[1..]);
      PostfixLoop(Index(b, i), Expect(rest))
    case PP => PostfixLoop(Post(b, PP), ts[1..])
    case MM => PostfixLoop(Post(b, MM), ts[1..])
    case _ => (b, ts)
  }

  function SkipComma(ts: seq<Tok>): (r: seq<Tok>)
    ensures |r| <= |ts|
  {
    if Head(ts) == Comma then ts[1..] else ts
  }

  /** Expressions up to the closing token; commas between them are optional. */
  function ParseArgs(ts: seq<Tok>, close: Tok): (r: (seq<Expr>, seq<Tok>))
    ensures |r.1| <= |ts|
    decreases |ts|, 22
  {
    if ts == [] || Head(ts) == close || Head(ts) == Eof then ([], ts)
    else
      var (e, rest) := ParseExpr(ts);
      var (es, rest1) := ParseArgs(SkipComma(rest), close);
      ([e] + es, rest1)
  }

  function ParsePairs(ts: seq<Tok>): (r: (seq<Pair>, seq<Tok>))
    ensures |r.1| <= |ts|
    decreases |ts|, 22
  {
    if ts == [] || Head(ts) == RC || Head(ts) == Eof then ([], ts)
    else
      var (k, rest) := ParseExpr(ts);
      var (v, rest1) := ParseExpr(Expect(rest));
      var (ps, rest2) := ParsePairs(SkipComma(rest1));
      ([Pair(k, v)] + ps, rest2)
  }

  function ParsePrimary(ts: seq<Tok>): (r: (Expr, seq<Tok>))
    ensures |r.1| <= |ts| && (ts != [] ==> |r.1| < |ts|)
    decreases |ts|, 4
  {
    match Head(ts)
    case LP =>
      var (e, rest) := ParseExpr(ts[1..]);
      (e, Expect(rest))
    case LB =>
      var (es, rest) := ParseArgs(ts[1..], RB);
      (ListLit(es), Expect(rest))
    case LC =>
      var (ps, rest) := ParsePairs(ts[1..]);
      (DictLit(ps), Expect(rest))
    case Range =>
      var (es, rest) := ParseArgs(Expect(ts[1..]), RP);
      (RangeOf(es), Expect(rest))
    case t => (Atom(t), Advance(ts))
  }
}
