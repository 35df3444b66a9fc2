/** The parser object: it moves over the tokens and builds text. */
module Stage2Parser {
  import S = Stage2
  import Proof = Stage2Proof
  import Back = Stage2Back

  type Tok = S.Tok

  class Parser {
    const toks: seq<Tok>
    var pos: nat

    ghost predicate Valid() reads this { pos <= |toks| }

    ghost function Rest(): seq<Tok>
      requires Valid()
      reads this
    {
      toks[pos..]
    }

    constructor (toks: seq<Tok>)
      ensures Valid() && Rest() == toks
    {
      this.toks, pos := toks, 0;
    }

    method Peek() returns (t: Tok)
      requires Valid()
      ensures t == S.Head(Rest())
    {
      return if pos < |toks| then toks[pos] else S.Eof;
    }

    method Advance()
      requires Valid()
      modifies this
      ensures Valid() && Rest() == S.Advance(old(Rest()))
    {
      if pos < |toks| { pos := pos + 1; }
    }

    /** The token at the front, passed over. */
    method Take() returns (out: seq<Tok>)
      requires Valid()
      modifies this
      ensures Valid() && Rest() == S.Advance(old(Rest())) && out == S.Out(S.Head(old(Rest())))
    {
      var t := Peek();
      Advance();
      return S.Out(t);
    }

    method SkipComma()
      requires Valid()
      modifies this
      ensures Valid() && Rest() == S.SkipComma(old(Rest()))
    {
      var t := Peek();
      if t == S.Comma { Advance(); }
    }

    method ParseExpr() returns (out: seq<Tok>)
      requires Valid()
      modifies this
      ensures Valid() && (var (e, rest) := S.ParseExpr(old(Rest())); out == S.Print(e) && Rest() == rest)
      decreases |Rest()|, 20
    {
      hide S.ParseLevel;
      out := ParseLevel(0);
      var t := Peek();
      if t.Set? {
        Advance();
        var right := ParseExpr();
        out := out + [t] + right;
      }
    }

    method ParseLevel(k: nat) returns (out: seq<Tok>)
      requires Valid() && k <= 5
      modifies this
      ensures Valid() && (var (e, rest) := S.ParseLevel(k, old(Rest())); out == S.Print(e) && Rest() == rest)
      decreases |Rest()|, 19 - 2 * k
    {
      if k == 5 {
        out := ParseUnary();
        return;
      }
      ghost var (e, rest) := S.ParseLevel(k + 1, Rest());
      out := ParseLevel(k + 1);
      assert S.ParseLevel(k, old(Rest())) == S.LevelLoop(k, e, rest);
      hide S.ParseLevel, S.ParseUnary, S.Print;
      var t := Peek();
      ghost var whole := S.LevelLoop(k, e, Rest());
      while S.Level(t) == k
        invariant Valid() && |Rest()| <= |old(Rest())| && (|old(Rest())| > 0 ==> |Rest()| < |old(Rest())|)
        invariant t == S.Head(Rest()) && out == S.Print(e)
        invariant S.LevelLoop(k, e, Rest()) == whole
        decreases |Rest()|
      {
        ghost var before := Rest();
        Advance();
        ghost var (r, rest1) := S.ParseLevel(k + 1, Rest());
        var right := ParseLevel(k + 1);
        out := [S.LP] + out + [t] + right + [S.RP];
        PrintBin(t, e, r);
        e := S.Bin(t, e, r);
        if k == 2 { return; }
        t := Peek();
      }
    }

    method ParseUnary() returns (out: seq<Tok>)
      requires Valid()
      modifies this
      ensures Valid() && (var (e, rest) := S.ParseUnary(old(Rest())); out == S.Print(e) && Rest() == rest)
      decreases |Rest()|, 8
    {
      hide S.ParsePrimary;
      var t := Peek();
      if S.IsPrefix(t) {
        Advance();
        var operand := ParseUnary();
        out := [t] + operand;
      } else {
        out := ParsePostfix();
      }
    }

    method ParsePostfix() returns (out: seq<Tok>)
      requires Valid()
      modifies this
      ensures Valid()
      ensures var (b, r) := S.ParsePrimary(old(Rest()));
              var (e, rest) := S.PostfixLoop(b, r);
              out == S.Print(e) && Rest() == rest
      decreases |Rest()|, 7
    {
      ghost var (b, r) := S.ParsePrimary(Rest());
      out := ParsePrimary();
      hide S.ParsePrimary, S.Print, S.ParseArgs, S.ParseExpr;
      ghost var whole := S.PostfixLoop(b, r);
      var going := true;
      while going
        invariant Valid() && |Rest()| <= |old(Rest())| && (|old(Rest())| > 0 ==> |Rest()| < |old(Rest())|)
        invariant out == S.Print(b)
        invariant if going then S.PostfixLoop(b, Rest()) == whole else (b, Rest()) == whole
        decreases |Rest()|, if going then 1 else 0
      {
        var t := Peek();
        going := StartsPostfix(t);
        if going {
          b, out := Postfix(b, out, t);
        }
      }
    }

    static function StartsPostfix(t: Tok): bool { t == S.Dot || t == S.LP || t == S.LB || t == S.PP || t == S.MM }

    /** One turn of the postfix loop. */
    method Postfix(ghost b: S.Expr, sofar: seq<Tok>, t: Tok) returns (ghost b1: S.Expr, out: seq<Tok>)
      requires Valid() && t == S.Head(Rest()) && StartsPostfix(t) && sofar == S.Print(b)
      modifies this
      ensures Valid() && |Rest()| < |old(Rest())| && out == S.Print(b1)
      ensures S.PostfixLoop(b1, Rest()) == S.PostfixLoop(b, old(Rest()))
      decreases |Rest()|, 5
    {
      hide S.ParseArgs, S.ParseExpr, S.PostfixLoop, S.PrintArgs, S.Print;
      PrintPostfix(b);
      PostfixTurn(b, Rest());
      Advance();
      match t {
        case Dot =>
          b1 := S.Member(b, S.Head(Rest()));
          var member := Take();
          out := sofar + [S.Dot] + member;
        case LP =>
          b1 := S.Call(b, S.ParseArgs(Rest(), S.RP).0);
          var args := ParseArgs(S.RP);
          Advance();
          out := sofar + [S.LP] + args + [S.RP];
        case LB =>
          b1 := S.Index(b, S.ParseExpr(Rest()).0);
          var index := ParseExpr();
          Advance();
          out := sofar + [S.LB] + index + [S.RB];
        case PP =>
          b1 := S.Post(b, S.PP);
          out := sofar + [S.PP];
        case MM =>
          b1 := S.Post(b, S.MM);
          out := sofar + [S.MM];
      }
    }

    /** One element and the comma after it, if there is one. */
    method ParseElement() returns (out: seq<Tok>, ghost e: S.Expr)
      requires Valid() && Rest() != []
      modifies this
      ensures Valid() && |Rest()| < |old(Rest())| && out == S.Print(e)
      ensures e == S.ParseExpr(old(Rest())).0 && Rest() == S.SkipComma(S.ParseExpr(old(Rest())).1)
      decreases |Rest()|, 21
    {
      hide S.ParseExpr, S.Print;
      e := S.ParseExpr(Rest()).0;
      out := ParseExpr();
      SkipComma();
    }

    /** Arguments or elements, up to the closing token, with commas put between them. */
    method ParseArgs(close: Tok) returns (out: seq<Tok>)
      requires Valid()
      modifies this
      ensures Valid() && (var (es, rest) := S.ParseArgs(old(Rest()), close); out == S.PrintArgs(es) && Rest() == rest)
      decreases |Rest()|, 22
    {
      hide S.ParseExpr, S.ParseArgs, S.Print, S.PrintArgs, S.SkipComma;
      ghost var whole, done := S.ParseArgs(Rest(), close), [];
      NoArgs();
      assert [] + whole.0 == whole.0;
      out := [];
      var first := true;
      var t := Peek();
      while t != close && t != S.Eof && pos < |toks|
        invariant Valid() && |Rest()| <= |old(Rest())| && t == S.Head(Rest())
        invariant out == S.PrintArgs(done) && (first <==> done == [])
        invariant var (es, rest) := S.ParseArgs(Rest(), close); whole == (done + es, rest)
        decreases |Rest()|
      {
        ArgsStep(Rest(), close);
        var next, e := ParseElement();
        SnocArgs(done, e);
        Reassociate(done, e, S.ParseArgs(Rest(), close).0);
        done := done + [e];
        out := out + (if first then [] else [S.Comma]) + next;
        first := false;
        t := Peek();
      }
      ArgsStep(Rest(), close);
      assert done + [] == done;
    }

    /** One key and value, and the comma after them. */
    method ParsePair() returns (out: seq<Tok>, ghost p: S.Pair)
      requires Valid() && Rest() != []
      modifies this
      ensures Valid() && |Rest()| < |old(Rest())| && out == S.PrintPair(p)
      ensures var (k, r) := S.ParseExpr(old(Rest()));
              var (v, r1) := S.ParseExpr(S.Expect(r));
              p == S.Pair(k, v) && Rest() == S.SkipComma(r1)
      decreases |Rest()|, 21
    {
      hide S.ParseExpr, S.Print, S.SkipComma;
      ghost var k := S.ParseExpr(Rest()).0;
      var key := ParseExpr();
      Advance();
      ghost var v := S.ParseExpr(Rest()).0;
      var val := ParseExpr();
      SkipComma();
      p := S.Pair(k, v);
      out := key + [S.Colon] + val;
    }

    method ParsePairs() returns (out: seq<Tok>)
      requires Valid()
      modifies this
      ensures Valid() && (var (ps, rest) := S.ParsePairs(old(Rest())); out == S.PrintPairs(ps) && Rest() == rest)
      decreases |Rest()|, 22
    {
      hide S.ParseExpr, S.ParsePairs, S.PrintPair, S.PrintPairs, S.SkipComma;
      ghost var whole, done := S.ParsePairs(Rest()), [];
      NoPairs();
      assert [] + whole.0 == whole.0;
      out := [];
      var first := true;
      var t := Peek();
      while t != S.RC && t != S.Eof && pos < |toks|
        invariant Valid() && |Rest()| <= |old(Rest())| && t == S.Head(Rest())
        invariant out == S.PrintPairs(done) && (first <==> done == [])
        invariant var (ps, rest) := S.ParsePairs(Rest()); whole == (done + ps, rest)
        decreases |Rest()|
      {
        PairsStep(Rest());
        var next, p := ParsePair();
        SnocPairs(done, p);
        Reassociate(done, p, S.ParsePairs(Rest()).0);
        done := done + [p];
        out := out + (if first then [] else [S.Comma]) + next;
        first := false;
        t := Peek();
      }
      PairsStep(Rest());
      assert done + [] == done;
    }

    method ParsePrimary() returns (out: seq<Tok>)
      requires Valid()
      modifies this
      ensures Valid() && (var (e, rest) := S.ParsePrimary(old(Rest())); out == S.Print(e) && Rest() == rest)
      decreases |Rest()|, 4
    {
      hide S.ParseExpr, S.ParseArgs, S.ParsePairs, S.PrintArgs, S.PrintPairs;
      var t := Peek();
      if t == S.LP {
        Advance();
        out := ParseExpr();
        Advance();
      } else if t == S.LB || t == S.LC || t == S.Range {
        out := ParseBracket(t);
      } else {
        out := Take();
      }
    }

    /** A list, a dictionary or a range. */
    method ParseBracket(t: Tok) returns (out: seq<Tok>)
      requires Valid() && t == S.Head(Rest()) && (t == S.LB || t == S.LC || t == S.Range)
      modifies this
      ensures Valid() && (var (e, rest) := S.ParsePrimary(old(Rest())); out == S.Print(e) && Rest() == rest)
      decreases |Rest()|, 3
    {
      hide S.ParseExpr, S.ParseArgs, S.ParsePairs, S.PrintArgs, S.PrintPairs;
      Advance();
      match t {
        case LB =>
          var elems := ParseArgs(S.RB);
          Advance();
          out := [S.LB] + elems + [S.RB];
        case LC =>
          var pairs := ParsePairs();
          Advance();
          out := [S.LC] + pairs + [S.RC];
        case Range =>
          Advance();
          var args := ParseArgs(S.RP);
          Advance();
          out := [S.Range, S.LP] + args + [S.RP];
      }
    }
  }

  lemma PrintBin(o: Tok, l: S.Expr, r: S.Expr)
    ensures S.Print(S.Bin(o, l, r)) == [S.LP] + S.Print(l) + [o] + S.Print(r) + [S.RP]
  {}

  lemma Reassociate<T>(a: seq<T>, x: T, b: seq<T>)
    ensures a + ([x] + b) == (a + [x]) + b
  {}

  lemma NoArgs()
    ensures S.PrintArgs([]) == []
  {}

  lemma NoPairs()
    ensures S.PrintPairs([]) == []
  {}

  /** One element of a list, or its end. */
  lemma ArgsStep(ts: seq<Tok>, close: Tok)
    ensures if ts == [] || S.Head(ts) == close || S.Head(ts) == S.Eof then S.ParseArgs(ts, close) == ([], ts)
            else
              var (e, r) := S.ParseExpr(ts);
              var (es, rest) := S.ParseArgs(S.SkipComma(r), close);
              S.ParseArgs(ts, close) == ([e] + es, rest)
  {
    hide S.ParseExpr;
  }

  lemma PairsStep(ts: seq<Tok>)
    ensures if ts == [] || S.Head(ts) == S.RC || S.Head(ts) == S.Eof then S.ParsePairs(ts) == ([], ts)
            else
              var (k, r) := S.ParseExpr(ts);
              var (v, r1) := S.ParseExpr(S.Expect(r));
              var (ps, rest) := S.ParsePairs(S.SkipComma(r1));
              S.ParsePairs(ts) == ([S.Pair(k, v)] + ps, rest)
  {
    hide S.ParseExpr;
  }

  /** One turn of the postfix loop, case by case. */
  lemma PostfixTurn(b: S.Expr, ts: seq<Tok>)
    requires Parser.StartsPostfix(S.Head(ts))
    ensures S.Head(ts) == S.Dot ==>
              S.PostfixLoop(b, ts) == S.PostfixLoop(S.Member(b, S.Head(ts[1..])), S.Advance(ts[1..]))
    ensures S.Head(ts) == S.LP ==>
              var (args, rest) := S.ParseArgs(ts[1..], S.RP);
              S.PostfixLoop(b, ts) == S.PostfixLoop(S.Call(b, args), S.Expect(rest))
    ensures S.Head(ts) == S.LB ==>
              var (i, rest) := S.ParseExpr(ts[1..]);
              S.PostfixLoop(b, ts) == S.PostfixLoop(S.Index(b, i), S.Expect(rest))
    ensures S.Head(ts) == S.PP ==> S.PostfixLoop(b, ts) == S.PostfixLoop(S.Post(b, S.PP), ts[1..])
    ensures S.Head(ts) == S.MM ==> S.PostfixLoop(b, ts) == S.PostfixLoop(S.Post(b, S.MM), ts[1..])
  {
    hide S.ParseExpr, S.ParseArgs;
  }

  lemma PrintPostfix(b: S.Expr)
    ensures forall t :: S.Print(S.Member(b, t)) == S.Print(b) + [S.Dot] + S.Out(t)
    ensures forall args :: S.Print(S.Call(b, args)) == S.Print(b) + [S.LP] + S.PrintArgs(args) + [S.RP]
    ensures forall i :: S.Print(S.Index(b, i)) == S.Print(b) + [S.LB] + S.Print(i) + [S.RB]
    ensures forall o :: S.Print(S.Post(b, o)) == S.Print(b) + [o]
  {
    hide S.PrintArgs, S.PrintPairs, S.Out;
  }

  lemma {:induction false} SnocArgs(es: seq<S.Expr>, e: S.Expr)
    ensures S.PrintArgs(es + [e]) == S.PrintArgs(es) + (if es == [] then [] else [S.Comma]) + S.Print(e)
    decreases |es|
  {
    hide S.Print;
    if es == [] {
      assert [] + [e] == [e];
    } else {
      SnocArgs(es[1..], e);
      assert (es + [e])[1..] == es[1..] + [e] && (es + [e])[0] == es[0];
    }
  }

  lemma {:induction false} SnocPairs(ps: seq<S.Pair>, p: S.Pair)
    ensures S.PrintPairs(ps + [p]) == S.PrintPairs(ps) + (if ps == [] then [] else [S.Comma]) + S.PrintPair(p)
    decreases |ps|
  {
    hide S.PrintPair;
    if ps == [] {
      assert [] + [p] == [p];
    } else {
      SnocPairs(ps[1..], p);
      assert (ps + [p])[1..] == ps[1..] + [p] && (ps + [p])[0] == ps[0];
    }
  }

  /** Printing is stable: the parser run on its own output gives that output again. */
  method Twice(toks: seq<Tok>) returns (once: seq<Tok>, again: seq<Tok>)
    ensures once == S.Print(S.ParseExpr(toks).0)
    ensures Proof.Good(S.ParseExpr(toks).0) ==> again == once
    ensures Proof.RightTokens(S.ParseExpr(toks).0) ==> again == S.Print(Proof.Back(S.ParseExpr(toks).0))
  {
    hide S.ParseExpr, S.Print, Proof.Good, Proof.RightTokens, Proof.Back;
    ghost var e := S.ParseExpr(toks).0;
    var p := new Parser(toks);
    once := p.ParseExpr();
    var q := new Parser(once);
    again := q.ParseExpr();
    assert once + [] == once;
    if Proof.Good(e) { Back.GoodComesBack(e); Back.GoodIsRight(e); }
    if Proof.RightTokens(e) { Back.PrintedParsesBack(e, []); }
  }
}
