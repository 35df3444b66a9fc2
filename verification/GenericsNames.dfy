/** When different types get different mangled names. */
module GenericsNames {
  import opened Common
  import opened Generics

  /** The names of a type in the order in which they are mangled. */
  function Words(te: Te): (ws: seq<string>)
    ensures ws != []
    decreases te
  {
    [te.name] + WordsAll(te.typeArgs)
  }

  function WordsAll(tes: seq<Te>): seq<string>
    decreases tes
  {
    if tes == [] then [] else WordsAll(tes[..|tes| - 1]) + Words(tes[|tes| - 1])
  }

  function Join(ws: seq<string>): string
    requires ws != []
  {
    if |ws| == 1 then ws[0] else ws[0] + "__" + Join(ws[1..])
  }

  lemma {:induction false} JoinAppend(a: seq<string>, b: seq<string>)
    requires a != [] && b != []
    ensures Join(a + b) == Join(a) + "__" + Join(b)
  {
    if |a| == 1 {
      assert (a + b)[1..] == b;
    } else {
      assert (a + b)[1..] == a[1..] + b;
      JoinAppend(a[1..], b);
      assert a[0] + "__" + (Join(a[1..]) + "__" + Join(b)) == (a[0] + "__" + Join(a[1..])) + "__" + Join(b);
    }
  }

  lemma {:induction false} PieceIsJoin(te: Te)
    ensures Piece(te) == Join(Words(te))
    decreases te
  {
    MangleIsJoin(te.name, te.typeArgs);
    if te.typeArgs == [] { assert Words(te) == [te.name]; }
  }

  lemma {:induction false} MangleIsJoin(name: string, args: seq<Te>)
    ensures Mangle(name, args) == Join([name] + WordsAll(args))
    decreases args
  {
    if args != [] {
      var front, last := args[..|args| - 1], args[|args| - 1];
      MangleIsJoin(name, front);
      PieceIsJoin(last);
      JoinAppend([name] + WordsAll(front), Words(last));
      assert [name] + WordsAll(args) == ([name] + WordsAll(front)) + Words(last);
    }
  }

  // ----- splitting a mangled name ------------------------------------------------------------

  function At(s: string, i: nat): Option<char> { if i < |s| then Some(s[i]) else None }

  /** No underscore is followed by another one, or by the end. */
  predicate GoodName(n: string) {
    forall i :: 0 <= i < |n| && At(n, i) == Some('_') ==> At(n, i + 1) != Some('_') && At(n, i + 1) != None
  }

  predicate GoodNames(ws: seq<string>) { forall i :: 0 <= i < |ws| ==> GoodName(ws[i]) }

  lemma JoinStart(ws: seq<string>)
    requires ws != []
    ensures ws[0] <= Join(ws) && (|ws| == 1 ==> |Join(ws)| == |ws[0]|)
    ensures |ws| > 1 ==>
              && At(Join(ws), |ws[0]|) == Some('_') && At(Join(ws), |ws[0]| + 1) == Some('_')
              && |Join(ws)| >= |ws[0]| + 2 && Join(ws)[|ws[0]| + 2..] == Join(ws[1..])
  {}

  /** A good name at the start of s ends before two underscores do. */
  lemma EndsBefore(w: string, s: string, n: nat)
    requires GoodName(w) && w <= s && (|s| == n || (At(s, n) == Some('_') && At(s, n + 1) == Some('_')))
    ensures |w| <= n
  {
    PrefixAt(w, s, n);
    PrefixAt(w, s, n + 1);
  }

  lemma PrefixAt(w: string, s: string, i: nat)
    requires w <= s
    ensures At(w, i) == if i < |w| then At(s, i) else None
  {}

  lemma {:induction false} JoinInjective(a: seq<string>, b: seq<string>)
    requires a != [] && b != [] && GoodNames(a) && GoodNames(b) && Join(a) == Join(b)
    ensures a == b
    decreases |a|
  {
    JoinStart(a);
    JoinStart(b);
    EndsBefore(b[0], Join(a), |a[0]|);
    EndsBefore(a[0], Join(b), |b[0]|);
    assert a[0] == Join(a)[..|a[0]|] == b[0];
    if |a| > 1 && |b| > 1 {
      JoinInjective(a[1..], b[1..]);
      assert a == [a[0]] + a[1..] && b == [b[0]] + b[1..];
    }
  }

  // ----- reading a type back -----------------------------------------------------------------

  /** Every name has as many arguments as its declaration says, and there is no function type. */
  predicate Fits(te: Te, arity: map<string, nat>)
    decreases te
  {
    && te.name in arity && |te.typeArgs| == arity[te.name]
    && te.fnParams == [] && te.fnRet == ""
    && AllFit(te.typeArgs, arity)
  }

  predicate AllFit(tes: seq<Te>, arity: map<string, nat>)
    decreases tes
  {
    tes == [] || (AllFit(tes[..|tes| - 1], arity) && Fits(tes[|tes| - 1], arity))
  }

  /** Mangling does not show const. */
  function NoConst(te: Te): Te
    decreases te
  {
    te.(isConst := false, typeArgs := AllNoConst(te.typeArgs))
  }

  function AllNoConst(tes: seq<Te>): seq<Te>
    decreases tes
  {
    if tes == [] then [] else AllNoConst(tes[..|tes| - 1]) + [NoConst(tes[|tes| - 1])]
  }

  lemma {:induction false} Decode(s: Te, t: Te, x: seq<string>, y: seq<string>, arity: map<string, nat>)
    requires Fits(s, arity) && Fits(t, arity) && Words(s) + x == Words(t) + y
    ensures NoConst(s) == NoConst(t) && x == y
    decreases s
  {
    assert (Words(s) + x)[0] == s.name && (Words(t) + y)[0] == t.name;
    assert (Words(s) + x)[1..] == WordsAll(s.typeArgs) + x;
    assert (Words(t) + y)[1..] == WordsAll(t.typeArgs) + y;
    DecodeAll(s.typeArgs, t.typeArgs, x, y, arity);
  }

  lemma {:induction false} DecodeAll(s: seq<Te>, t: seq<Te>, x: seq<string>, y: seq<string>,
                                     arity: map<string, nat>)
    requires |s| == |t| && AllFit(s, arity) && AllFit(t, arity) && WordsAll(s) + x == WordsAll(t) + y
    ensures AllNoConst(s) == AllNoConst(t) && x == y
    decreases s
  {
    if s == [] {
      assert WordsAll(s) + x == x && WordsAll(t) + y == y;
    } else {
      var n := |s| - 1;
      assert WordsAll(s) + x == WordsAll(s[..n]) + (Words(s[n]) + x);
      assert WordsAll(t) + y == WordsAll(t[..n]) + (Words(t[n]) + y);
      DecodeAll(s[..n], t[..n], Words(s[n]) + x, Words(t[n]) + y, arity);
      Decode(s[n], t[n], x, y, arity);
    }
  }

  /** Main result: with one arity per name and good names, types that differ in more than const get
      different names. */
  lemma NamesAreFaithful(s: Te, t: Te, arity: map<string, nat>)
    requires Fits(s, arity) && Fits(t, arity) && GoodNames(Words(s)) && GoodNames(Words(t))
    ensures Resolve(s).name == Resolve(t).name <==> NoConst(s) == NoConst(t)
  {
    ResolvedName(s);
    ResolvedName(t);
    PieceIsJoin(s);
    PieceIsJoin(t);
    if Resolve(s).name == Resolve(t).name {
      JoinInjective(Words(s), Words(t));
      assert Words(s) + [] == Words(t) + [];
      Decode(s, t, [], [], arity);
    }
    if NoConst(s) == NoConst(t) {
      SameWords(s);
      SameWords(t);
    }
  }

  lemma {:induction false} SameWords(te: Te)
    ensures Words(NoConst(te)) == Words(te)
    decreases te
  {
    AllSameWords(te.typeArgs);
  }

  lemma {:induction false} AllSameWords(tes: seq<Te>)
    ensures WordsAll(AllNoConst(tes)) == WordsAll(tes)
    decreases tes
  {
    if tes != [] {
      var front := tes[..|tes| - 1];
      AllSameWords(front);
      SameWords(tes[|tes| - 1]);
      assert AllNoConst(tes)[..|tes| - 1] == AllNoConst(front) by { LengthNoConst(front); }
    }
  }

  lemma {:induction false} LengthNoConst(tes: seq<Te>)
    ensures |AllNoConst(tes)| == |tes|
    decreases tes
  {
    if tes != [] { LengthNoConst(tes[..|tes| - 1]); }
  }

  // ----- why each condition is there ---------------------------------------------------------

  function App(name: string, a: Te): Te { Te(name, false, [], "", [a]) }

  /** A trailing underscore, a double underscore, two arities of one name: different types collide. */
  lemma NamesCollide()
    ensures Piece(App("A_", Plain("B"))) == Piece(App("A", Plain("_B")))
    ensures Piece(App("A", Plain("B"))) == Piece(Plain("A__B"))
    ensures Piece(App("A", App("B", Plain("C"))))
            == Piece(Te("A", false, [], "", [Plain("B"), Plain("C")]))
  {
    var b, c := Plain("B"), Plain("C");
    assert Mangle("A_", [b]) == "A_" + "__" + "B";
    assert Mangle("A", [Plain("_B")]) == "A" + "__" + "_B";
    assert Mangle("A", [b]) == "A" + "__" + "B";
    assert Mangle("B", [c]) == "B" + "__" + "C";
    assert Mangle("A", [App("B", c)]) == "A" + "__" + ("B" + "__" + "C");
    assert [b, c][..1] == [b];
    assert Mangle("A", [b, c]) == ("A" + "__" + "B") + "__" + "C";
  }
}
