/** What generic expansion leaves behind: types, declarations, templates. */
module GenericsMain {
  import opened Common
  import opened Generics
  import opened GenericsExpand

  // ----- the expanded program ----------------------------------------------------------------

  predicate AnyTemplate(p: Prog) {
    Templates(p.decls, true) != map[] || Templates(p.decls, false) != map[]
  }

  function Builds(p: Prog, log: seq<Key>): (r: seq<Decl>)
    requires forall i :: 0 <= i < |log| ==> Lookup(p, log[i]).Some?
    ensures |r| == |log| && forall i :: 0 <= i < |log| ==> r[i] == Build(p, log[i])
  {
    if log == [] then [] else Builds(p, log[..|log| - 1]) + [Build(p, log[|log| - 1])]
  }

  function Keep(ds: seq<Decl>): seq<Decl> {
    if ds == [] then []
    else Keep(ds[..|ds| - 1]) + (if IsTemplate(ds[|ds| - 1]) then [] else [ds[|ds| - 1]])
  }

  /** Templates are removed at the top and one namespace deep. */
  function Strip(ds: seq<Decl>): seq<Decl> {
    if ds == [] then []
    else
      var last := ds[|ds| - 1];
      Strip(ds[..|ds| - 1])
      + (if IsTemplate(last) then [] else if last.Space? then [last.(decls := Keep(last.decls))] else [last])
  }

  function Log(p: Prog, ghost K: set<Key>): seq<Key>
    requires Closed(p, K)
  {
    Work(p, K, {}, Pushes(FirstKeys(p), {}))
  }

  /** A program without templates is not touched. */
  function Expansion(p: Prog, ghost K: set<Key>): Prog
    requires Closed(p, K)
  {
    if !AnyTemplate(p) then p
    else
      assert Sound(p, K, Log(p, K), {}) by { WorkIsSound(p, K, {}, Pushes(FirstKeys(p), {})); }
      Prog(Strip(Builds(p, Log(p, K)) + FixDecls(p.decls)), Fix(p.stmts))
  }

  /** The worklist loop.  It ends because every name is marked at most once. */
  method Expand(p: Prog, ghost K: set<Key>) returns (r: Prog)
    requires Closed(p, K)
    ensures r == Expansion(p, K)
  {
    if !AnyTemplate(p) { return p; }
    var newDecls := Instantiate(p, K);
    r := Prog(Strip(newDecls + FixDecls(p.decls)), Fix(p.stmts));
  }

  method Instantiate(p: Prog, ghost K: set<Key>) returns (newDecls: seq<Decl>)
    requires Closed(p, K)
    ensures (forall i :: 0 <= i < |Log(p, K)| ==> Lookup(p, Log(p, K)[i]).Some?)
            && newDecls == Builds(p, Log(p, K))
  {
    hide Lookup, CopyKeys, Build, Closed, Work, Pushes, Inside, FirstKeys, Names;
    FirstInside(p, K);
    var done: set<string> := {};
    var pending := Pushes(FirstKeys(p), done);
    ghost var whole := Work(p, K, done, pending);
    newDecls := [];
    ghost var log: seq<Key> := [];
    while pending != []
      invariant Inside(pending, K)
      invariant forall i :: 0 <= i < |log| ==> Lookup(p, log[i]).Some?
      invariant newDecls == Builds(p, log)
      invariant log + Work(p, K, done, pending) == whole
      decreases |Names(K) - done|, |pending|
    {
      WorkTurn(p, K, done, pending);
      var k := pending[|pending| - 1];
      pending := pending[..|pending| - 1];
      if k.mangled !in done {
        done := done + {k.mangled};
        if Lookup(p, k).Some? {
          newDecls := newDecls + [Build(p, k)];
          pending := pending + Pushes(CopyKeys(p, k), done);
          assert (log + [k])[..|log|] == log;
          log := log + [k];
        }
      }
    }
    WorkEnd(p, K, done);
    assert log == Log(p, K);
  }

  lemma WorkEnd(p: Prog, K: set<Key>, done: set<string>)
    requires Closed(p, K)
    ensures Work(p, K, done, []) == []
  {}

  /** One turn of the loop. */
  lemma WorkTurn(p: Prog, K: set<Key>, done: set<string>, pending: seq<Key>)
    requires Closed(p, K) && Inside(pending, K) && pending != []
    ensures var k, rest := pending[|pending| - 1], pending[..|pending| - 1];
            var done1 := done + {k.mangled};
            && Inside(rest, K)
            && (k.mangled in done ==> Work(p, K, done, pending) == Work(p, K, done, rest))
            && (k.mangled !in done ==> |Names(K) - done1| < |Names(K) - done|)
            && (k.mangled !in done && Lookup(p, k).None? ==>
                  Work(p, K, done, pending) == Work(p, K, done1, rest))
            && (k.mangled !in done && Lookup(p, k).Some? ==>
                  var next := rest + Pushes(CopyKeys(p, k), done1);
                  Inside(next, K) && Work(p, K, done, pending) == [k] + Work(p, K, done1, next))
  {
    hide Lookup, CopyKeys;
    var k := pending[|pending| - 1];
    assert k in pending;
    if k.mangled !in done { assert Fewer(K, k, done); }
  }

  // ----- no type arguments -------------------------------------------------------------------

  predicate Clean(b: Body)
    decreases b
  {
    b.kind == Walked ==> CleanItems(b.items)
  }

  predicate CleanItems(items: seq<Item>)
    decreases items
  {
    items == [] || (CleanItems(items[..|items| - 1]) && CleanItem(items[|items| - 1]))
  }

  predicate CleanItem(i: Item)
    decreases i
  {
    match i case Ty(te) => Resolved(te) case Sub(b) => Clean(b)
  }

  /** No type argument on any walked node outside templates. */
  predicate CleanDecl(d: Decl)
    decreases d
  {
    match d
    case Class(_, ps, b) => ps != [] || Clean(b)
    case Func(_, ps, b) => ps != [] || Clean(b)
    case Space(ds, b) => CleanDecls(ds) && Clean(b)
    case Other => true
  }

  predicate CleanDecls(ds: seq<Decl>)
    decreases ds
  {
    ds == [] || (CleanDecls(ds[..|ds| - 1]) && CleanDecl(ds[|ds| - 1]))
  }

  lemma {:induction false} FixIsClean(b: Body)
    ensures Clean(Fix(b))
    decreases b
  {
    if b.kind == Walked { FixItemsAreClean(b.items); }
  }

  lemma {:induction false} FixItemsAreClean(items: seq<Item>)
    ensures CleanItems(FixItems(items))
    decreases items
  {
    if items != [] {
      var front := items[..|items| - 1];
      FixItemsAreClean(front);
      FixItemIsClean(items[|items| - 1]);
      assert FixItems(items)[..|FixItems(front)|] == FixItems(front);
    }
  }

  lemma {:induction false} FixItemIsClean(i: Item)
    ensures CleanItem(FixItem(i))
    decreases i
  {
    match i {
      case Ty(te) => ResolveIsResolved(te);
      case Sub(b) => FixIsClean(b);
    }
  }

  lemma {:induction false} FixDeclIsClean(d: Decl)
    ensures CleanDecl(FixDecl(d))
    decreases d
  {
    match d {
      case Class(_, _, b) => FixIsClean(b);
      case Func(_, _, b) => FixIsClean(b);
      case Space(ds, b) =>
        FixDeclsAreClean(ds);
        FixIsClean(b);
      case Other =>
    }
  }

  lemma {:induction false} FixDeclsAreClean(ds: seq<Decl>)
    ensures CleanDecls(FixDecls(ds))
    decreases ds
  {
    if ds != [] {
      var front := ds[..|ds| - 1];
      FixDeclsAreClean(front);
      FixDeclIsClean(ds[|ds| - 1]);
      assert FixDecls(ds)[..|FixDecls(front)|] == FixDecls(front);
    }
  }

  lemma {:induction false} CleanAppend(a: seq<Decl>, b: seq<Decl>)
    ensures CleanDecls(a + b) <==> CleanDecls(a) && CleanDecls(b)
    decreases |b|
  {
    if b == [] {
      assert a + b == a;
    } else {
      assert (a + b)[..|a + b| - 1] == a + b[..|b| - 1];
      CleanAppend(a, b[..|b| - 1]);
    }
  }

  lemma CleanOne(d: Decl)
    ensures CleanDecls([d]) <==> CleanDecl(d)
  {
    assert [d][..0] == [];
  }

  lemma {:induction false} KeepIsClean(ds: seq<Decl>)
    requires CleanDecls(ds)
    ensures CleanDecls(Keep(ds))
    decreases |ds|
  {
    if ds != [] {
      var front, last := ds[..|ds| - 1], ds[|ds| - 1];
      KeepIsClean(front);
      if !IsTemplate(last) {
        CleanOne(last);
        CleanAppend(Keep(front), [last]);
      } else {
        assert Keep(ds) == Keep(front);
      }
    }
  }

  lemma {:induction false} StripIsClean(ds: seq<Decl>)
    requires CleanDecls(ds)
    ensures CleanDecls(Strip(ds))
    decreases |ds|
  {
    if ds != [] {
      var front, last := ds[..|ds| - 1], ds[|ds| - 1];
      StripIsClean(front);
      if !IsTemplate(last) {
        if last.Space? { KeepIsClean(last.decls); }
        var d := if last.Space? then last.(decls := Keep(last.decls)) else last;
        CleanOne(d);
        CleanAppend(Strip(front), [d]);
      } else {
        assert Strip(ds) == Strip(front);
      }
    }
  }

  lemma {:induction false} BuildsAreClean(p: Prog, log: seq<Key>)
    requires forall i :: 0 <= i < |log| ==> Lookup(p, log[i]).Some?
    ensures CleanDecls(Builds(p, log))
    decreases |log|
  {
    hide Lookup, Copy, FixDecl;
    if log != [] {
      var front, k := log[..|log| - 1], log[|log| - 1];
      BuildsAreClean(p, front);
      FixDeclIsClean(Copy(p, k));
      assert Builds(p, log)[..|front|] == Builds(p, front);
    }
  }

  /** With any template in the program, everything that is walked is resolved. */
  lemma ExpansionIsClean(p: Prog, K: set<Key>)
    requires Closed(p, K) && AnyTemplate(p)
    ensures CleanDecls(Expansion(p, K).decls) && Clean(Expansion(p, K).stmts)
  {
    hide Closed, Strip, AnyTemplate;
    FirstInside(p, K);
    WorkIsSound(p, K, {}, Pushes(FirstKeys(p), {}));
    BuildsAreClean(p, Log(p, K));
    FixDeclsAreClean(p.decls);
    CleanAppend(Builds(p, Log(p, K)), FixDecls(p.decls));
    StripIsClean(Builds(p, Log(p, K)) + FixDecls(p.decls));
    FixIsClean(p.stmts);
  }

  /** Main result: no type expression on a walked node of the expanded program has type arguments if
      and only if there is a template in the program, or there were no type arguments to begin with. */
  lemma NoTypeArgumentsRemain(p: Prog, K: set<Key>)
    requires Closed(p, K)
    ensures CleanDecls(Expansion(p, K).decls) && Clean(Expansion(p, K).stmts)
            <==> AnyTemplate(p) || (CleanDecls(p.decls) && Clean(p.stmts))
  {
    hide Closed, Strip, CleanDecls, Clean;
    if AnyTemplate(p) { ExpansionIsClean(p, K); }
  }

  // ----- the log is complete -----------------------------------------------------------------

  predicate ExactlyOne(log: seq<Key>, name: string) {
    Named(log, name) && forall i, j :: 0 <= i < j < |log| ==> !(log[i].mangled == name && log[j].mangled == name)
  }

  /** Each name is instantiated at most once; and when keys of one name agree on whether they can be
      instantiated, each name that is used and has a template of the right arity exactly once. */
  lemma LogIsComplete(p: Prog, K: set<Key>)
    requires Closed(p, K)
    ensures var log := Log(p, K);
            && (forall i, j :: 0 <= i < j < |log| ==> log[i].mangled != log[j].mangled)
            && (Unambiguous(p, K) ==>
                  && (forall k :: k in FirstKeys(p) && Lookup(p, k).Some? ==> ExactlyOne(log, k.mangled))
                  && (forall i, k ::
                        (0 <= i < |log| && Lookup(p, log[i]).Some? && k in CopyKeys(p, log[i]) && Lookup(p, k).Some?)
                        ==> ExactlyOne(log, k.mangled)))
  {
    hide Lookup, CopyKeys, FirstKeys, Unambiguous, Closed, Work;
    var first := Pushes(FirstKeys(p), {});
    var log := Log(p, K);
    assert Inside(first, K) by { FirstInside(p, K); }
    WorkIsSound(p, K, {}, first);
    if Unambiguous(p, K) {
      WorkCovers(p, K, {}, first);
      forall k | k in FirstKeys(p) && Lookup(p, k).Some? ensures ExactlyOne(log, k.mangled) {
        assert k in first && Covered(p, log, {}, first);
      }
      forall i, k | 0 <= i < |log| && Lookup(p, log[i]).Some? && k in CopyKeys(p, log[i]) && Lookup(p, k).Some?
        ensures ExactlyOne(log, k.mangled)
      {
        assert Covered(p, log, {}, CopyKeys(p, log[i]));
      }
    }
  }

  lemma FirstInside(p: Prog, K: set<Key>)
    requires Closed(p, K)
    ensures Inside(Pushes(FirstKeys(p), {}), K)
  {}

  // ----- templates that survive --------------------------------------------------------------

  /** A template at any depth. */
  predicate HasTemplate(ds: seq<Decl>)
    decreases ds
  {
    ds != [] && (HasTemplate(ds[..|ds| - 1]) || DeclHasTemplate(ds[|ds| - 1]))
  }

  predicate DeclHasTemplate(d: Decl)
    decreases d
  {
    match d
    case Class(_, ps, _) => ps != []
    case Func(_, ps, _) => ps != []
    case Space(ds, _) => HasTemplate(ds)
    case Other => false
  }

  /** A template in a namespace of one of these declarations. */
  predicate InSpace(ds: seq<Decl>) {
    ds != [] && (InSpace(ds[..|ds| - 1]) || (ds[|ds| - 1].Space? && HasTemplate(ds[|ds| - 1].decls)))
  }

  /** A template inside a namespace inside a namespace. */
  predicate Deep(ds: seq<Decl>) {
    ds != [] && (Deep(ds[..|ds| - 1]) || (ds[|ds| - 1].Space? && InSpace(ds[|ds| - 1].decls)))
  }

  lemma {:induction false} HasAppend(a: seq<Decl>, b: seq<Decl>)
    ensures HasTemplate(a + b) <==> HasTemplate(a) || HasTemplate(b)
    decreases |b|
  {
    if b == [] {
      assert a + b == a;
    } else {
      assert (a + b)[..|a + b| - 1] == a + b[..|b| - 1];
      HasAppend(a, b[..|b| - 1]);
    }
  }

  lemma {:induction false} DeepAppend(a: seq<Decl>, b: seq<Decl>)
    ensures Deep(a + b) <==> Deep(a) || Deep(b)
    decreases |b|
  {
    if b == [] {
      assert a + b == a;
    } else {
      assert (a + b)[..|a + b| - 1] == a + b[..|b| - 1];
      DeepAppend(a, b[..|b| - 1]);
    }
  }

  lemma HasOne(d: Decl)
    ensures HasTemplate([d]) <==> DeclHasTemplate(d)
  {
    assert [d][..0] == [];
  }

  lemma {:induction false} KeepLeaves(ds: seq<Decl>)
    ensures HasTemplate(Keep(ds)) <==> InSpace(ds)
    decreases |ds|
  {
    if ds != [] {
      var front, last := ds[..|ds| - 1], ds[|ds| - 1];
      KeepLeaves(front);
      HasOne(last);
      HasAppend(Keep(front), if IsTemplate(last) then [] else [last]);
    }
  }

  lemma {:induction false} StripLeaves(ds: seq<Decl>)
    ensures HasTemplate(Strip(ds)) <==> Deep(ds)
    decreases |ds|
  {
    if ds != [] {
      var front, last := ds[..|ds| - 1], ds[|ds| - 1];
      StripLeaves(front);
      if last.Space? { KeepLeaves(last.decls); }
      var d := if last.Space? then last.(decls := Keep(last.decls)) else last;
      HasOne(d);
      HasAppend(Strip(front), if IsTemplate(last) then [] else [d]);
    }
  }

  /** Resolving types does not move templates. */
  lemma {:induction false} FixKeepsTemplates(ds: seq<Decl>)
    ensures HasTemplate(FixDecls(ds)) <==> HasTemplate(ds)
    ensures InSpace(FixDecls(ds)) <==> InSpace(ds)
    ensures Deep(FixDecls(ds)) <==> Deep(ds)
    decreases ds
  {
    if ds != [] {
      var front, last := ds[..|ds| - 1], ds[|ds| - 1];
      FixKeepsTemplates(front);
      FixKeepsTemplate(last);
      assert FixDecls(ds)[..|FixDecls(ds)| - 1] == FixDecls(front);
    }
  }

  lemma {:induction false} FixKeepsTemplate(d: Decl)
    ensures DeclHasTemplate(FixDecl(d)) <==> DeclHasTemplate(d)
    ensures d.Space? ==> (InSpace(FixDecl(d).decls) <==> InSpace(d.decls))
    decreases d
  {
    if d.Space? { FixKeepsTemplates(d.decls); }
  }

  lemma {:induction false} BuildsAreFlat(p: Prog, log: seq<Key>)
    requires forall i :: 0 <= i < |log| ==> Lookup(p, log[i]).Some?
    ensures !Deep(Builds(p, log))
    decreases |log|
  {
    hide Lookup;
    if log != [] {
      BuildsAreFlat(p, log[..|log| - 1]);
      assert Builds(p, log)[..|log| - 1] == Builds(p, log[..|log| - 1]);
    }
  }

  /** Main result: the expanded program still holds a template exactly when the original has one in a
      namespace inside a namespace. */
  lemma TemplatesRemainOnlyDeep(p: Prog, K: set<Key>)
    requires Closed(p, K) && AnyTemplate(p)
    ensures HasTemplate(Expansion(p, K).decls) <==> Deep(p.decls)
  {
    hide Closed, Strip, AnyTemplate, HasTemplate, Deep;
    FirstInside(p, K);
    WorkIsSound(p, K, {}, Pushes(FirstKeys(p), {}));
    var news := Builds(p, Log(p, K));
    BuildsAreFlat(p, Log(p, K));
    FixKeepsTemplates(p.decls);
    DeepAppend(news, FixDecls(p.decls));
    StripLeaves(news + FixDecls(p.decls));
  }
}
