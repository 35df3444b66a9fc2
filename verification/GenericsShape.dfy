/** What the expanded program consists of. */
module GenericsShape {
  import opened Common
  import opened Generics
  import opened GenericsExpand
  import opened GenericsBodies
  import opened GenericsMain
  import GenericsNames
  import opened GenericsDecls

  // ----- what is left of the original declarations -------------------------------------------

  /** The places of the declarations that are no templates, in order. */
  predicate Survivors(ds: seq<Decl>, from: seq<nat>) {
    && (forall i :: 0 <= i < |from| ==> from[i] < |ds|)
    && (forall i, j :: 0 <= i < j < |from| ==> from[i] < from[j])
    && (forall k :: 0 <= k < |ds| ==> (k in from <==> !IsTemplate(ds[k])))
  }

  /** The declarations of a namespace: templates are gone, the rest is reduced. */
  ghost predicate Kept(ds: seq<Decl>, rs: seq<Decl>) {
    exists from: seq<nat> :: KeptFrom(ds, rs, from)
  }

  predicate KeptFrom(ds: seq<Decl>, rs: seq<Decl>, from: seq<nat>) {
    && |from| == |rs| && Survivors(ds, from)
    && forall i :: 0 <= i < |rs| ==> DeclReduced(ds[from[i]], rs[i])
  }

  /** A declaration at the top: in a namespace, templates are gone. */
  ghost predicate TopReduced(d: Decl, r: Decl) {
    if d.Space? then r.Space? && BodyReduced(d.stmts, r.stmts) && Kept(d.decls, r.decls) else DeclReduced(d, r)
  }

  ghost predicate TopKept(ds: seq<Decl>, rs: seq<Decl>, from: seq<nat>) {
    && |from| == |rs| && Survivors(ds, from)
    && forall i :: 0 <= i < |rs| ==> TopReduced(ds[from[i]], rs[i])
  }

  lemma SurvivorsMore(ds: seq<Decl>, d: Decl, from: seq<nat>)
    requires Survivors(ds, from)
    ensures Survivors(ds + [d], if IsTemplate(d) then from else from + [|ds|])
  {
    var all, more := ds + [d], if IsTemplate(d) then from else from + [|ds|];
    forall k | 0 <= k < |all| ensures k in more <==> !IsTemplate(all[k]) {
      if k < |ds| { assert all[k] == ds[k]; }
    }
  }

  lemma KeptMore(ds: seq<Decl>, d: Decl, rs: seq<Decl>, r: Decl, from: seq<nat>)
    requires KeptFrom(ds, rs, from) && DeclReduced(d, r)
    ensures KeptFrom(ds + [d], if IsTemplate(d) then rs else rs + [r], if IsTemplate(d) then from else from + [|ds|])
  {
    SurvivorsMore(ds, d, from);
    hide DeclReduced, IsTemplate;
    var more, all := if IsTemplate(d) then from else from + [|ds|], if IsTemplate(d) then rs else rs + [r];
    forall i | 0 <= i < |all| ensures DeclReduced((ds + [d])[more[i]], all[i]) {
      if i < |rs| { assert (ds + [d])[from[i]] == ds[from[i]]; }
    }
  }

  lemma TopKeptMore(ds: seq<Decl>, d: Decl, rs: seq<Decl>, r: Decl, from: seq<nat>)
    requires TopKept(ds, rs, from) && TopReduced(d, r)
    ensures TopKept(ds + [d], if IsTemplate(d) then rs else rs + [r], if IsTemplate(d) then from else from + [|ds|])
  {
    SurvivorsMore(ds, d, from);
    hide TopReduced, IsTemplate;
    var more, all := if IsTemplate(d) then from else from + [|ds|], if IsTemplate(d) then rs else rs + [r];
    forall i | 0 <= i < |all| ensures TopReduced((ds + [d])[more[i]], all[i]) {
      if i < |rs| { assert (ds + [d])[from[i]] == ds[from[i]]; }
    }
  }

  lemma KeepTurn(ds: seq<Decl>, d: Decl, from: seq<nat>)
    requires KeptFrom(ds, Keep(FixDecls(ds)), from)
    ensures KeptFrom(ds + [d], Keep(FixDecls(ds + [d])), if IsTemplate(d) then from else from + [|ds|])
  {
    hide *;
    FixDeclReduces(d);
    FixStep(ds, d);
    KeepStep(FixDecls(ds), FixDecl(d));
    TemplateStays(d);
    KeptMore(ds, d, Keep(FixDecls(ds)), FixDecl(d), from);
  }

  lemma KeepNone()
    ensures KeptFrom([], Keep(FixDecls([])), [])
  {}

  lemma {:induction false} KeepKeeps(ds: seq<Decl>) returns (from: seq<nat>)
    ensures KeptFrom(ds, Keep(FixDecls(ds)), from)
    decreases |ds|
  {
    hide *;
    if ds == [] {
      from := [];
      KeepNone();
    } else {
      var front, d := ds[..|ds| - 1], ds[|ds| - 1];
      from := KeepKeeps(front);
      KeepTurn(front, d, from);
      if !IsTemplate(d) { from := from + [|front|]; }
      assert ds == front + [d];
    }
  }

  lemma FixStep(ds: seq<Decl>, d: Decl)
    ensures FixDecls(ds + [d]) == FixDecls(ds) + [FixDecl(d)]
  {
    hide FixDecl;
    assert (ds + [d])[..|ds|] == ds;
  }

  lemma KeepStep(ds: seq<Decl>, d: Decl)
    ensures Keep(ds + [d]) == if IsTemplate(d) then Keep(ds) else Keep(ds) + [d]
  {
    assert (ds + [d])[..|ds|] == ds;
  }

  lemma StripStep(ds: seq<Decl>, d: Decl)
    ensures Strip(ds + [d]) == if IsTemplate(d) then Strip(ds)
                               else Strip(ds) + [if d.Space? then Space(Keep(d.decls), d.stmts) else d]
  {
    assert (ds + [d])[..|ds|] == ds;
  }

  lemma TemplateStays(d: Decl)
    ensures IsTemplate(FixDecl(d)) <==> IsTemplate(d)
    ensures FixDecl(d).Space? <==> d.Space?
    ensures d.Space? ==> FixDecl(d) == Space(FixDecls(d.decls), Fix(d.stmts))
  {}

  lemma TopIs(d: Decl) returns (r: Decl)
    ensures r == if d.Space? then Space(Keep(FixDecls(d.decls)), Fix(d.stmts)) else FixDecl(d)
    ensures TopReduced(d, r)
  {
    r := if d.Space? then Space(Keep(FixDecls(d.decls)), Fix(d.stmts)) else FixDecl(d);
    if d.Space? {
      FixReduces(d.stmts);
      var inner := KeepKeeps(d.decls);
      assert Kept(d.decls, r.decls);
    } else {
      FixDeclReduces(d);
    }
  }

  lemma StripTurn(ds: seq<Decl>, d: Decl, from: seq<nat>)
    requires TopKept(ds, Strip(FixDecls(ds)), from)
    ensures TopKept(ds + [d], Strip(FixDecls(ds + [d])), if IsTemplate(d) then from else from + [|ds|])
  {
    hide *;
    FixStep(ds, d);
    StripStep(FixDecls(ds), FixDecl(d));
    TemplateStays(d);
    var r := TopIs(d);
    TopKeptMore(ds, d, Strip(FixDecls(ds)), r, from);
  }

  lemma StripNone()
    ensures TopKept([], Strip(FixDecls([])), [])
  {}

  lemma {:induction false} StripKeeps(ds: seq<Decl>) returns (from: seq<nat>)
    ensures TopKept(ds, Strip(FixDecls(ds)), from)
    decreases |ds|
  {
    hide *;
    if ds == [] {
      from := [];
      StripNone();
    } else {
      var front, d := ds[..|ds| - 1], ds[|ds| - 1];
      from := StripKeeps(front);
      StripTurn(front, d, from);
      if !IsTemplate(d) { from := from + [|front|]; }
      assert ds == front + [d];
    }
  }

  lemma {:induction false} StripAppend(a: seq<Decl>, b: seq<Decl>)
    ensures Strip(a + b) == Strip(a) + Strip(b)
    decreases |b|
  {
    if b == [] {
      assert a + b == a;
    } else {
      assert (a + b)[..|a + b| - 1] == a + b[..|b| - 1];
      StripAppend(a, b[..|b| - 1]);
    }
  }

  /** New declarations stay. */
  lemma {:induction false} StripLeavesNew(p: Prog, log: seq<Key>)
    requires forall i :: 0 <= i < |log| ==> Lookup(p, log[i]).Some?
    ensures Strip(Builds(p, log)) == Builds(p, log)
    decreases |log|
  {
    hide Lookup, Strip, Build;
    if log == [] {
      assert Strip([]) == [] by { StripNothing(); }
    } else {
      var front, k := log[..|log| - 1], log[|log| - 1];
      StripLeavesNew(p, front);
      BuildIsFlat(p, k);
      StripStep(Builds(p, front), Build(p, k));
    }
  }

  lemma StripNothing()
    ensures Strip([]) == []
  {}

  lemma BuildIsFlat(p: Prog, k: Key)
    requires Lookup(p, k).Some?
    ensures !IsTemplate(Build(p, k)) && !Build(p, k).Space?
  {
    hide Lookup;
  }

  // ----- what an instantiation is ------------------------------------------------------------

  /** t is what the name with n arguments is instantiated from: the last class template of the name
      that is declared anywhere, else the last function template, with n parameters. */
  ghost predicate TemplateFor(p: Prog, name: string, n: nat, t: Decl) {
    && (t.Class? || t.Func?) && |t.params| == n
    && (LastTemplate(Declared(p.decls), t, true, name)
        || (NoneOf(Declared(p.decls), true, name) && LastTemplate(Declared(p.decls), t, false, name)))
  }

  lemma LastIsOne(ts: seq<Decl>, t: Decl, u: Decl, classes: bool, n: string)
    requires LastTemplate(ts, t, classes, n) && LastTemplate(ts, u, classes, n)
    ensures t == u && !NoneOf(ts, classes, n)
  {
    var i :| 0 <= i < |ts| && ts[i] == t && IsOf(t, classes, n)
             && forall j :: i < j < |ts| ==> !IsOf(ts[j], classes, n);
    var k :| 0 <= k < |ts| && ts[k] == u && IsOf(u, classes, n)
             && forall j :: k < j < |ts| ==> !IsOf(ts[j], classes, n);
  }

  lemma LookupFinds(p: Prog, k: Key, t: Decl)
    ensures Lookup(p, k) == Some(t) <==> TemplateFor(p, k.generic, |k.args|, t)
  {
    var ts := Declared(p.decls);
    TemplatesAreLast(p.decls, true, k.generic);
    TemplatesAreLast(p.decls, false, k.generic);
    var classes, funcs := Templates(p.decls, true), Templates(p.decls, false);
    hide LastTemplate, NoneOf, Templates, Declared;
    if k.generic in classes && LastTemplate(ts, t, true, k.generic) {
      LastIsOne(ts, classes[k.generic], t, true, k.generic);
    }
    if k.generic in funcs && LastTemplate(ts, t, false, k.generic) {
      LastIsOne(ts, funcs[k.generic], t, false, k.generic);
    }
    if LastTemplate(ts, t, true, k.generic) { LastIsOne(ts, t, t, true, k.generic); }
    if LastTemplate(ts, t, false, k.generic) { LastIsOne(ts, t, t, false, k.generic); }
  }

  /** d is the template with its parameters read as the arguments, under the mangled name. */
  ghost predicate InstanceFor(p: Prog, k: Key, t: Decl, d: Decl) {
    && TemplateFor(p, k.generic, |k.args|, t)
    && (d.Class? || d.Func?) && d.Class? == t.Class?
    && d.name == k.mangled && d.params == [] && BodyInstance(t.body, d.body, t.params, k.args)
  }

  ghost predicate InstanceOfSome(p: Prog, k: Key, d: Decl) { exists t :: InstanceFor(p, k, t, d) }

  lemma BuildIsInstance(p: Prog, k: Key)
    requires Lookup(p, k).Some?
    ensures InstanceOfSome(p, k, Build(p, k))
  {
    var t := Lookup(p, k).value;
    LookupFinds(p, k, t);
    hide TemplateFor, Lookup, Bind;
    CloneReads(t.body, t.params, k.args);
    var mid := Clone(t.body, Bind(t.params, k.args));
    FixReduces(mid);
    hide Clone, Fix;
    InstanceOf(t.body, mid, Fix(mid), t.params, k.args);
    assert InstanceFor(p, k, t, Build(p, k));
  }

  // ----- the result --------------------------------------------------------------------------

  /** Main result: expansion puts one declaration in front for each instantiation of its log, which is
      the template by that name with params[i] read as args[i] and then reduced; what follows are the
      original declarations without the templates, each of the same shape with every type on a walked
      node reduced; and so for the statements. */
  lemma ExpandedProgram(p: Prog, K: set<Key>) returns (from: seq<nat>)
    requires Closed(p, K)
    ensures !AnyTemplate(p) ==> Expansion(p, K) == p
    ensures AnyTemplate(p) ==>
      var r, log := Expansion(p, K), Log(p, K);
      && BodyReduced(p.stmts, r.stmts)
      && |r.decls| >= |log|
      && (forall i :: 0 <= i < |log| ==> InstanceOfSome(p, log[i], r.decls[i]))
      && TopKept(p.decls, r.decls[|log|..], from)
  {
    from := [];
    if AnyTemplate(p) {
      hide Closed, Strip, Lookup, BodyReduced, InstanceOfSome, TopKept, FixDecls, Fix, AnyTemplate;
      FirstInside(p, K);
      WorkIsSound(p, K, {}, Pushes(FirstKeys(p), {}));
      var log := Log(p, K);
      FixReduces(p.stmts);
      from := StripKeeps(p.decls);
      StripAppend(Builds(p, log), FixDecls(p.decls));
      StripLeavesNew(p, log);
      var r := Expansion(p, K);
      assert r.decls[|log|..] == Strip(FixDecls(p.decls));
      forall i | 0 <= i < |log| ensures InstanceOfSome(p, log[i], r.decls[i]) {
        BuildIsInstance(p, log[i]);
        assert r.decls[i] == Builds(p, log)[i];
      }
    }
  }
}
