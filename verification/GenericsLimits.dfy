/** Programs that show why the results on expansion have their conditions: no end, no template, names with
    two meanings, names that are taken. */
module GenericsLimits {
  import opened Common
  import opened Generics
  import opened GenericsExpand
  import opened GenericsNames
  import opened GenericsMain
  import opened GenericsDecls
  import opened GenericsTurns

  function Of(name: string, args: seq<Te>): Te { Te(name, false, [], "", args) }

  lemma TwoOf<T>(a: T, b: T)
    ensures [a, b][..1] == [a] && [a][..0] == []
  {}

  // ----- an expansion without end ------------------------------------------------------------

  /** class A<T> { A<A<T>> f; } and a use of A<int>. */
  function Growing(): Prog {
    Prog([Class("A", ["T"], Node(Walked, [Ty(Of("A", [Of("A", [Plain("T")])]))]))],
         Node(Walked, [Ty(Of("A", [Plain("int")]))]))
  }

  function KeyOf(a: Te): Key { Key("A", [a], Mangle("A", [a])) }

  lemma OneMangle(a: Te)
    ensures Mangle("A", [a]) == "A" + "__" + Piece(a)
  {
    assert [a][..0] == [];
    assert Mangle("A", []) == "A";
  }

  lemma KeysOne(a: Te)
    requires Resolved(a) && a.fnParams == []
    ensures Keys(Of("A", [a])) == [KeyOf(a)] && Resolve(Of("A", [a])) == Plain(KeyOf(a).mangled)
  {
    ResolvedStays(a);
    assert [a][..0] == [];
    assert ResolveAll([a]) == [a] && KeysAll([a]) == [];
  }

  lemma GrowingTemplates()
    ensures Templates(Growing().decls, true) == map["A" := Growing().decls[0]]
  {
    assert Growing().decls[..0] == [];
  }

  lemma ReplaceOne(t: Te, s: Subst)
    requires t.name != "__fn" && t.typeArgs == [] && t.name in s && !t.isConst
    ensures Replace(t, s) == s[t.name]
  {}

  lemma ReplaceIn(a: Te, r: Te, s: Subst)
    requires Replace(a, s) == r
    ensures Replace(Of("A", [a]), s) == Of("A", [r])
  {
    assert [a][..0] == [];
    assert ReplaceAll([a], s) == [r];
  }

  lemma BindOne(a: Te)
    ensures Bind(["T"], [a]) == map["T" := a]
  {
    assert ["T"][..0] == [] && [a][..0] == [];
  }

  lemma OneItem(i: Item, s: Subst)
    ensures CloneItems([i], s) == [CloneItem(i, s)] && ItemsKeys([i]) == ItemKeys(i)
  {
    assert [i][..0] == [];
  }

  function Field(a: Te): Item { Ty(Of("A", [Of("A", [a])])) }

  lemma FieldCopy(a: Te)
    ensures CloneItem(Field(Plain("T")), map["T" := a]) == Field(a)
  {
    hide Replace;
    var t, s := Plain("T"), map["T" := a];
    ReplaceOne(t, s);
    ReplaceIn(t, a, s);
    ReplaceIn(Of("A", [t]), Of("A", [a]), s);
  }

  lemma FieldKeys(a: Te)
    requires Resolved(a) && a.fnParams == []
    ensures ItemKeys(Field(a)) == [KeyOf(a), KeyOf(Plain(KeyOf(a).mangled))]
  {
    KeysOne(a);
    var inner, last := Of("A", [a]), KeyOf(Plain(KeyOf(a).mangled));
    assert [inner][..0] == [];
    assert ResolveAll([inner]) == [Plain(KeyOf(a).mangled)];
    assert KeysAll([inner]) == [KeyOf(a)];
    assert Keys(Of("A", [inner])) == KeysAll([inner]) + KeysAll([]) + [last];
  }

  lemma GrowingLookup(a: Te)
    ensures Lookup(Growing(), KeyOf(a)) == Some(Growing().decls[0])
  {
    GrowingTemplates();
    hide Templates;
  }

  lemma GrowingCopy(a: Te)
    ensures Lookup(Growing(), KeyOf(a)).Some?
    ensures Copy(Growing(), KeyOf(a)) == Class(KeyOf(a).mangled, [], Node(Walked, [Field(a)]))
  {
    GrowingLookup(a);
    hide Lookup, CloneItem, CloneItems;
    BindOne(a);
    FieldCopy(a);
    OneItem(Field(Plain("T")), map["T" := a]);
    assert Growing().decls[0].body.items == [Field(Plain("T"))];
  }

  /** Instantiating A at a needs A at a again and A at A<a>. */
  lemma GrowingStep(a: Te)
    requires Resolved(a) && a.fnParams == []
    ensures Lookup(Growing(), KeyOf(a)).Some?
    ensures CopyKeys(Growing(), KeyOf(a)) == [KeyOf(a), KeyOf(Plain(KeyOf(a).mangled))]
  {
    GrowingCopy(a);
    FieldKeys(a);
    OneItem(Field(a), map[]);
    hide Lookup, Copy, ItemKeys, KeyOf;
  }

  // ----- its worklist never ends -------------------------------------------------------------

  function Name(x: string): string { KeyOf(Plain(x)).mangled }

  lemma NameIs(x: string)
    ensures Name(x) == "A" + "__" + x
  {
    OneMangle(Plain(x));
  }

  lemma NamesDiffer(x: string, y: string)
    requires Name(x) == Name(y)
    ensures x == y
  {
    NameIs(x);
    NameIs(y);
    assert x == ("A" + "__" + x)[3..] && y == ("A" + "__" + y)[3..];
  }

  predicate Has(s: Stage, n: string) { n in s.done || n in Pending(s) }

  ghost predicate OfGrowing(k: Key) { exists x :: k == KeyOf(Plain(x)) }

  /** The next name is marked or pending when a name is marked. */
  ghost predicate Goes(s: Stage) {
    && (forall k :: k in s.pending ==> OfGrowing(k))
    && (forall x :: Name(x) in s.done ==> Has(s, Name(Name(x))))
    && Has(s, Name("int"))
  }

  lemma GoesFirst()
    ensures Goes(After(Growing(), 0))
  {
    var k := KeyOf(Plain("int"));
    OnlyUse();
    hide KeyOf;
    assert [k][..0] == [];
    assert Pushes([k], {}) == [k];
    assert k in After(Growing(), 0).pending;
  }

  lemma OnlyUse()
    ensures FirstKeys(Growing()) == [KeyOf(Plain("int"))]
  {
    var use := Ty(Of("A", [Plain("int")]));
    KeysOne(Plain("int"));
    OneItem(use, map[]);
    assert BodyKeys(Growing().stmts) == [KeyOf(Plain("int"))];
    assert Growing().decls[..0] == [] && AllDeclKeys([]) == [];
    assert AllDeclKeys(Growing().decls) == AllDeclKeys([]) + DeclKeys(Growing().decls[0]);
  }

  /** A turn on a key whose name is marked. */
  lemma GoesPast(s: Stage, s1: Stage, k: Key)
    requires Goes(s) && k.mangled in s.done
    requires s.pending == s1.pending + [k] && s1.done == s.done
    ensures Goes(s1)
  {
    hide KeyOf, Name, OfGrowing;
    assert forall x :: x in s1.pending ==> x in s.pending;
    forall n | Has(s, n) ensures Has(s1, n) {
      if n !in s.done {
        var x :| x in s.pending && x.mangled == n;
        assert x in s1.pending;
      }
    }
  }

  /** A turn on a key whose name is not marked. */
  lemma GoesOn(s: Stage, s1: Stage, rest: seq<Key>, y: string)
    requires Goes(s) && s.pending == rest + [KeyOf(Plain(y))]
    requires s1.done == s.done + {Name(y)}
    requires s1.pending == rest + Pushes([KeyOf(Plain(y)), KeyOf(Plain(Name(y)))], s1.done)
    ensures Goes(s1)
  {
    var two := [KeyOf(Plain(y)), KeyOf(Plain(Name(y)))];
    assert Name(y) == KeyOf(Plain(y)).mangled && Name(Name(y)) == two[1].mangled;
    forall k | k in s1.pending ensures OfGrowing(k) {
      if k in rest { assert k in s.pending; } else { assert k in two; }
    }
    hide KeyOf, OfGrowing;
    forall n | Has(s, n) ensures Has(s1, n) {
      if n !in s1.done {
        var x :| x in s.pending && x.mangled == n;
        assert x in rest;
        assert x in s1.pending;
      }
    }
    assert Has(s1, Name(Name(y))) by {
      if Name(Name(y)) !in s1.done { assert two[1] in s1.pending; }
    }
    forall x | Name(x) in s1.done ensures Has(s1, Name(Name(x))) {
      if Name(x) !in s.done { NamesDiffer(x, y); }
    }
  }

  lemma {:induction false} GoesAlways(n: nat)
    ensures Goes(After(Growing(), n))
  {
    hide Goes, KeyOf, Lookup, CopyKeys, FirstKeys, Growing, Pushes;
    var p := Growing();
    if n == 0 {
      GoesFirst();
    } else {
      GoesAlways(n - 1);
      var s, s1 := After(p, n - 1), After(p, n);
      if s.pending != [] {
        var rest, k := s.pending[..|s.pending| - 1], s.pending[|s.pending| - 1];
        assert s.pending == rest + [k];
        if k.mangled in s.done {
          GoesPast(s, s1, k);
        } else {
          var y := WhichKey(s, k);
          GrowingStep(Plain(y));
          GoesOn(s, s1, rest, y);
        }
      }
    }
  }

  lemma WhichKey(s: Stage, k: Key) returns (y: string)
    requires Goes(s) && k in s.pending
    ensures k == KeyOf(Plain(y)) && k.mangled == Name(y) && Resolved(Plain(y)) && Plain(y).fnParams == []
  {
    assert OfGrowing(k);
    y :| k == KeyOf(Plain(y));
  }

  /** int, A__int, A__A__int, ... */
  function Grown(n: nat): string { if n == 0 then "int" else Name(Grown(n - 1)) }

  lemma {:induction false} AllMarked(s: Stage, n: nat)
    requires Goes(s) && s.pending == []
    ensures Name(Grown(n)) in s.done && |Grown(n)| >= n
  {
    hide Name;
    assert Pending(s) == {};
    if n > 0 {
      AllMarked(s, n - 1);
      NameIs(Grown(n - 1));
    }
  }

  lemma {:induction false} Longest(names: set<string>) returns (n: nat)
    ensures forall x :: x in names ==> |x| < n
    decreases |names|
  {
    if names == {} {
      n := 0;
    } else {
      var x :| x in names;
      n := Longest(names - {x});
      n := if n > |x| then n else |x| + 1;
    }
  }

  /** After every number of turns something is pending. */
  lemma NeverEnds()
    ensures !Ends(Growing())
  {
    hide Goes, Name, Grown, After;
    if Ends(Growing()) {
      var m: nat :| After(Growing(), m).pending == [];
      var s := After(Growing(), m);
      GoesAlways(m);
      var n := Longest(s.done);
      AllMarked(s, n);
      NameIs(Grown(n));
    }
  }

  /** Nor is there a finite set of instantiations for it to stay in. */
  lemma ExpansionWithoutEnd(K: set<Key>)
    ensures !Closed(Growing(), K)
  {
    hide Closed, Growing;
    NeverEnds();
    if Closed(Growing(), K) { EndsWhenClosed(Growing(), K); }
  }

  // ----- a program without templates ---------------------------------------------------------

  /** A use of A<int> and nothing else. */
  function Untemplated(): Prog { Prog([], Node(Walked, [Ty(Of("A", [Plain("int")]))])) }

  /** The pass gives up before it has resolved anything, and the type arguments stay. */
  lemma ArgumentsStay()
    ensures Closed(Untemplated(), {KeyOf(Plain("int"))})
    ensures forall K :: Closed(Untemplated(), K) ==>
              Expansion(Untemplated(), K) == Untemplated() && !Clean(Expansion(Untemplated(), K).stmts)
  {
    var p, use := Untemplated(), Ty(Of("A", [Plain("int")]));
    KeysOne(Plain("int"));
    OneItem(use, map[]);
    assert FirstKeys(p) == [KeyOf(Plain("int"))];
    assert !AnyTemplate(p);
    assert !Clean(p.stmts) by {
      assert !Resolved(use.te) && !CleanItem(use);
      assert [use][|[use]| - 1] == use;
    }
  }

  // ----- a name with two meanings ------------------------------------------------------------

  /** class A<T> {} with uses of A<B<C>> and of A<B, C>: both are named A__B__C, and the second, which
      has the wrong number of arguments, is taken first. */
  function TwoMeanings(): Prog {
    Prog([Class("A", ["T"], Node(Walked, []))],
         Node(Walked, [Ty(Of("A", [Of("B", [Plain("C")])])), Ty(Of("A", [Plain("B"), Plain("C")]))]))
  }

  lemma NameOne(a: string, b: string, ab: string)
    requires ab == a + "__" + b
    ensures Mangle(a, [Plain(b)]) == ab
    ensures Keys(Of(a, [Plain(b)])) == [Key(a, [Plain(b)], ab)] && Resolve(Of(a, [Plain(b)])) == Plain(ab)
  {
    var t := Plain(b);
    assert [t][..0] == [];
    assert Mangle(a, []) == a;
    assert Keys(t) == [] && Resolve(t) == t;
    assert ResolveAll([t]) == [t] && KeysAll([t]) == [];
  }

  lemma FirstMeaning()
    ensures Keys(Of("A", [Of("B", [Plain("C")])]))
            == [Key("B", [Plain("C")], "B__C"), Key("A", [Plain("B__C")], "A__B__C")]
  {
    var bc := Of("B", [Plain("C")]);
    assert "B__C" == "B" + "__" + "C" && "A__B__C" == "A" + "__" + "B__C";
    NameOne("B", "C", "B__C");
    NameOne("A", "B__C", "A__B__C");
    assert [bc][..0] == [];
    hide Mangle, Resolve, Keys;
    assert ResolveAll([bc]) == [Plain("B__C")] && KeysAll([bc]) == [Key("B", [Plain("C")], "B__C")];
    KeysOf("A", bc);
  }

  lemma KeysOf(name: string, a: Te)
    ensures Keys(Of(name, [a]))
            == KeysAll([a]) + [Key(name, ResolveAll([a]), Mangle(name, ResolveAll([a])))]
  {
    assert KeysAll([]) == [];
  }

  lemma SecondMeaning()
    ensures Keys(Of("A", [Plain("B"), Plain("C")]))
            == [Key("A", [Plain("B"), Plain("C")], "A__B__C")]
  {
    var b, c := Plain("B"), Plain("C");
    TwoOf(b, c);
    assert Keys(c) == [] && Resolve(c) == c && Keys(b) == [] && Resolve(b) == b;
    assert ResolveAll([b]) == [b] && KeysAll([b]) == [];
    assert ResolveAll([b, c]) == [b, c] && KeysAll([b, c]) == [];
    NameOne("A", "B", "A" + "__" + "B");
    assert Mangle("A", [b, c]) == ("A" + "__" + "B") + "__" + "C";
    assert "A__B__C" == ("A" + "__" + "B") + "__" + "C";
  }

  lemma TwoMeaningsKeys()
    ensures var b, one, two := Key("B", [Plain("C")], "B__C"), Key("A", [Plain("B__C")], "A__B__C"),
                               Key("A", [Plain("B"), Plain("C")], "A__B__C");
            FirstKeys(TwoMeanings()) == [b, one, two]
  {
    FirstMeaning();
    SecondMeaning();
    var x, y := Ty(Of("A", [Of("B", [Plain("C")])])), Ty(Of("A", [Plain("B"), Plain("C")]));
    hide Keys;
    TwoOf(x, y);
    OneItem(x, map[]);
    assert ItemsKeys([x, y]) == ItemsKeys([x]) + ItemKeys(y);
    assert TwoMeanings().decls[..0] == [];
    assert AllDeclKeys(TwoMeanings().decls) == [];
  }

  lemma TwoMeaningsLookup()
    ensures var b, one, two := Key("B", [Plain("C")], "B__C"), Key("A", [Plain("B__C")], "A__B__C"),
                               Key("A", [Plain("B"), Plain("C")], "A__B__C");
            var p := TwoMeanings();
            Lookup(p, b) == None && Lookup(p, two) == None && Lookup(p, one).Some?
  {
    var p := TwoMeanings();
    assert p.decls[..0] == [];
    assert Templates(p.decls, true) == map["A" := p.decls[0]] && Templates(p.decls, false) == map[];
  }

  /** A<B<C>> has a template of the right arity and is used, but is never declared. */
  lemma UsedButNotDeclared(K: set<Key>)
    requires Closed(TwoMeanings(), K)
    ensures var k := Key("A", [Plain("B__C")], "A__B__C");
            && k in FirstKeys(TwoMeanings()) && Lookup(TwoMeanings(), k).Some?
            && Log(TwoMeanings(), K) == []
  {
    var p := TwoMeanings();
    var b, one, two := Key("B", [Plain("C")], "B__C"), Key("A", [Plain("B__C")], "A__B__C"),
                       Key("A", [Plain("B"), Plain("C")], "A__B__C");
    hide FirstKeys, Lookup, CopyKeys, TwoMeanings, Closed, Work;
    TwoMeaningsKeys();
    TwoMeaningsLookup();
    PushAll(b, one, two);
    FirstInside(p, K);
    NothingBuilt(p, K, b, one, two);
  }

  lemma NothingBuilt(p: Prog, K: set<Key>, a: Key, b: Key, c: Key)
    requires Closed(p, K) && Inside([a, b, c], K) && Lookup(p, a) == None && Lookup(p, c) == None
    requires b.mangled == c.mangled
    ensures Work(p, K, {}, [a, b, c]) == []
  {
    hide Lookup, CopyKeys, Closed, Work;
    var done := {} + {c.mangled};
    assert [a, b, c][..2] == [a, b] && [a, b][..1] == [a] && [a][..0] == [];
    WorkTurn(p, K, {}, [a, b, c]);
    WorkTurn(p, K, done, [a, b]);
    WorkTurn(p, K, done, [a]);
    WorkEnd(p, K, done);
    WorkEnd(p, K, done + {a.mangled});
  }

  lemma PushAll(a: Key, b: Key, c: Key)
    ensures Pushes([a, b, c], {}) == [a, b, c]
  {
    assert [a, b, c][..2] == [a, b] && [a, b][..1] == [a] && [a][..0] == [];
    assert Pushes([a], {}) == [a];
    assert Pushes([a, b], {}) == [a] + [b];
  }

  // ----- a name that is declared already -----------------------------------------------------

  /** class A<T> {}, class A__int {} and a use of A<int>. */
  function Clash(): Prog {
    Prog([Class("A", ["T"], Node(Walked, [])), Class("A__int", [], Node(Walked, []))],
         Node(Walked, [Ty(Of("A", [Plain("int")]))]))
  }

  function ClashKey(): Key { Key("A", [Plain("int")], "A__int") }

  lemma ClashDecls()
    ensures var ds := Clash().decls;
            ds == [ds[0], ds[1]] && ds[..1] == [ds[0]] && ds[..1][..0] == []
  {}

  lemma ClashFirst()
    ensures FirstKeys(Clash()) == [ClashKey()]
  {
    var p, use := Clash(), Ty(Of("A", [Plain("int")]));
    assert "A__int" == "A" + "__" + "int";
    NameOne("A", "int", "A__int");
    ClashDecls();
    hide Keys;
    OneItem(use, map[]);
    assert BodyKeys(p.stmts) == [ClashKey()];
    assert AllDeclKeys(p.decls[..1]) == [] && AllDeclKeys(p.decls) == [];
  }

  lemma ClashLookup()
    ensures Lookup(Clash(), ClashKey()) == Some(Clash().decls[0])
  {
    var p := Clash();
    ClashDecls();
    assert Templates(p.decls[..1], true) == map["A" := p.decls[0]];
    assert Templates(p.decls, true) == map["A" := p.decls[0]];
  }

  lemma ClashKeys()
    ensures FirstKeys(Clash()) == [ClashKey()]
    ensures Lookup(Clash(), ClashKey()) == Some(Clash().decls[0]) && CopyKeys(Clash(), ClashKey()) == []
  {
    ClashFirst();
    ClashLookup();
    hide Lookup, FirstKeys, Bind;
    assert Copy(Clash(), ClashKey()) == Class("A__int", [], Node(Walked, []));
  }

  lemma ClashSane()
    ensures ProgSane(Clash(), map["A" := 1, "int" := 0])
  {
    var p, arity := Clash(), map["A" := 1, "int" := 0];
    ClashType(arity);
    var te := Of("A", [Plain("int")]);
    ClashDecls();
    hide Sane;
    assert ItemsSane([Ty(te)], arity) by { assert [Ty(te)][..0] == []; }
    assert DeclSane(p.decls[0], arity) && DeclSane(p.decls[1], arity);
    hide DeclSane;
    assert DeclsSane(p.decls[..1], arity);
    assert DeclsSane(p.decls, arity);
  }

  lemma ClashType(arity: map<string, nat>)
    requires arity == map["A" := 1, "int" := 0]
    ensures Sane(Of("A", [Plain("int")]), arity)
  {
    var int_ := Plain("int");
    SaneParts(int_, arity);
    assert AllSane([], arity);
    assert Sane(int_, arity);
    AllSaneParts([int_], arity);
    SaneParts(Of("A", [int_]), arity);
    hide Sane, AllSane;
    assert [int_][..0] == [];
    assert GoodName("A");
  }

  /** The program's own A__int and the instantiation of A at int are both declared. */
  lemma DeclaredTwice()
    ensures Closed(Clash(), {ClashKey()})
    ensures forall K :: Closed(Clash(), K) ==> Count(Expansion(Clash(), K).decls, "A__int") == 2
  {
    var p, k := Clash(), ClashKey();
    ClashKeys();
    ClashSane();
    assert Count(p.decls, "A__int") == 1 by {
      ClashDecls();
      assert Count(p.decls[..1], "A__int") == 0;
    }
    assert k in FirstKeys(p) && k.mangled == "A__int";
    hide Clash, FirstKeys, Lookup, CopyKeys, Expansion, Count, ProgSane;
    forall K | Closed(p, K) ensures Count(Expansion(p, K).decls, "A__int") == 2 {
      OneDeclarationEach(p, K, map["A" := 1, "int" := 0]);
      assert Needed(p, Log(p, K), k);
    }
  }
}
