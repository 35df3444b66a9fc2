/** How often each name is declared after expansion. */
module GenericsDecls {
  import opened Common
  import opened Generics
  import opened GenericsNames
  import opened GenericsExpand
  import opened GenericsMain

  // ----- counting declarations ---------------------------------------------------------------

  /** The classes and functions of that name that are not templates, inside namespaces too. */
  function Count(ds: seq<Decl>, n: string): nat
    decreases ds
  {
    if ds == [] then 0 else Count(ds[..|ds| - 1], n) + CountOne(ds[|ds| - 1], n)
  }

  function CountOne(d: Decl, n: string): nat
    decreases d
  {
    match d
    case Class(name, ps, _) => if ps == [] && name == n then 1 else 0
    case Func(name, ps, _) => if ps == [] && name == n then 1 else 0
    case Space(ds, _) => Count(ds, n)
    case Other => 0
  }

  lemma {:induction false} CountAppend(a: seq<Decl>, b: seq<Decl>, n: string)
    ensures Count(a + b, n) == Count(a, n) + Count(b, n)
    decreases |b|
  {
    if b == [] {
      assert a + b == a;
    } else {
      assert (a + b)[..|a + b| - 1] == a + b[..|b| - 1];
      CountAppend(a, b[..|b| - 1], n);
    }
  }

  lemma CountSingle(d: Decl, n: string)
    ensures Count([d], n) == CountOne(d, n) && Count([], n) == 0
  {
    assert [d][..0] == [];
  }

  lemma {:induction false} FixKeepsCount(ds: seq<Decl>, n: string)
    ensures Count(FixDecls(ds), n) == Count(ds, n)
    decreases ds
  {
    if ds != [] {
      var front, last := ds[..|ds| - 1], ds[|ds| - 1];
      FixKeepsCount(front, n);
      FixKeepsCountOne(last, n);
      assert FixDecls(ds)[..|FixDecls(front)|] == FixDecls(front);
    }
  }

  lemma {:induction false} FixKeepsCountOne(d: Decl, n: string)
    ensures CountOne(FixDecl(d), n) == CountOne(d, n)
    decreases d
  {
    if d.Space? { FixKeepsCount(d.decls, n); }
  }

  lemma {:induction false} KeepKeepsCount(ds: seq<Decl>, n: string)
    ensures Count(Keep(ds), n) == Count(ds, n)
    decreases |ds|
  {
    if ds != [] {
      var front, last := ds[..|ds| - 1], ds[|ds| - 1];
      KeepKeepsCount(front, n);
      CountSingle(last, n);
      CountAppend(Keep(front), if IsTemplate(last) then [] else [last], n);
    }
  }

  lemma {:induction false} StripKeepsCount(ds: seq<Decl>, n: string)
    ensures Count(Strip(ds), n) == Count(ds, n)
    decreases |ds|
  {
    if ds != [] {
      var front, last := ds[..|ds| - 1], ds[|ds| - 1];
      StripKeepsCount(front, n);
      if last.Space? { KeepKeepsCount(last.decls, n); }
      var d := if last.Space? then last.(decls := Keep(last.decls)) else last;
      CountSingle(d, n);
      CountAppend(Strip(front), if IsTemplate(last) then [] else [d], n);
    }
  }

  /** Each instantiation in the log is one declaration of its name. */
  lemma {:induction false} BuildsCount(p: Prog, log: seq<Key>, n: string)
    requires forall i :: 0 <= i < |log| ==> Lookup(p, log[i]).Some?
    requires forall i, j :: 0 <= i < j < |log| ==> log[i].mangled != log[j].mangled
    ensures Count(Builds(p, log), n) == if Named(log, n) then 1 else 0
    decreases |log|
  {
    hide Lookup;
    if log != [] {
      var front, k := log[..|log| - 1], log[|log| - 1];
      BuildsCount(p, front, n);
      assert Builds(p, log)[..|front|] == Builds(p, front);
      BuildCount(p, k, n);
      NamedMore(front, k, n);
      assert log == front + [k];
      assert k.mangled == n ==> !Named(front, n);
    }
  }

  lemma NamedMore(log: seq<Key>, k: Key, n: string)
    ensures Named(log + [k], n) <==> Named(log, n) || k.mangled == n
  {
    assert (log + [k])[|log|] == k;
    assert forall i :: 0 <= i < |log| ==> (log + [k])[i] == log[i];
  }

  lemma BuildCount(p: Prog, k: Key, n: string)
    requires Lookup(p, k).Some?
    ensures CountOne(Build(p, k), n) == if k.mangled == n then 1 else 0
  {
    FixKeepsCountOne(Copy(p, k), n);
  }

  lemma NoTemplateNoLookup(p: Prog, k: Key)
    requires !AnyTemplate(p)
    ensures Lookup(p, k) == None
  {}

  /** Expansion declares each name in its log once and leaves the other declarations as they are. */
  lemma DeclarationCount(p: Prog, K: set<Key>, n: string)
    requires Closed(p, K)
    ensures Count(Expansion(p, K).decls, n)
            == Count(p.decls, n) + (if Named(Log(p, K), n) then 1 else 0)
  {
    hide Closed, AnyTemplate, Strip, Lookup, Work, Pushes, Inside, FirstKeys;
    FirstInside(p, K);
    WorkIsSound(p, K, {}, Pushes(FirstKeys(p), {}));
    var log := Log(p, K);
    if AnyTemplate(p) {
      BuildsCount(p, log, n);
      FixKeepsCount(p.decls, n);
      CountAppend(Builds(p, log), FixDecls(p.decls), n);
      StripKeepsCount(Builds(p, log) + FixDecls(p.decls), n);
    } else if log != [] {
      NoTemplateNoLookup(p, log[0]);
      assert false;
    }
  }

  // ----- programs with one arity per name ----------------------------------------------------

  /** One arity per name, no function types, and names that mangling does not confuse. */
  predicate Sane(te: Te, arity: map<string, nat>) {
    Fits(te, arity) && GoodNames(Words(te))
  }

  predicate AllSane(tes: seq<Te>, arity: map<string, nat>) {
    AllFit(tes, arity) && GoodNames(WordsAll(tes))
  }

  predicate BodySane(b: Body, arity: map<string, nat>)
    decreases b
  {
    b.kind == Walked ==> ItemsSane(b.items, arity)
  }

  predicate ItemsSane(items: seq<Item>, arity: map<string, nat>)
    decreases items
  {
    items == [] || (ItemsSane(items[..|items| - 1], arity) && ItemSane(items[|items| - 1], arity))
  }

  predicate ItemSane(i: Item, arity: map<string, nat>)
    decreases i
  {
    match i case Ty(te) => Sane(te, arity) case Sub(b) => BodySane(b, arity)
  }

  predicate DeclsSane(ds: seq<Decl>, arity: map<string, nat>)
    decreases ds
  {
    ds == [] || (DeclsSane(ds[..|ds| - 1], arity) && DeclSane(ds[|ds| - 1], arity))
  }

  predicate DeclSane(d: Decl, arity: map<string, nat>)
    decreases d
  {
    match d
    case Class(_, _, b) => BodySane(b, arity)
    case Func(_, _, b) => BodySane(b, arity)
    case Space(ds, b) => DeclsSane(ds, arity) && BodySane(b, arity)
    case Other => true
  }

  predicate ProgSane(p: Prog, arity: map<string, nat>) {
    DeclsSane(p.decls, arity) && BodySane(p.stmts, arity)
  }

  lemma GoodAppend(a: seq<string>, b: seq<string>)
    ensures GoodNames(a + b) <==> GoodNames(a) && GoodNames(b)
  {
    hide GoodName;
    var s := a + b;
    assert forall i :: 0 <= i < |a| ==> s[i] == a[i];
    assert forall i :: 0 <= i < |b| ==> s[|a| + i] == b[i];
    if GoodNames(s) {
      forall i | 0 <= i < |b| ensures GoodName(b[i]) { assert s[|a| + i] == b[i]; }
      forall i | 0 <= i < |a| ensures GoodName(a[i]) { assert s[i] == a[i]; }
    }
  }

  lemma SaneParts(te: Te, arity: map<string, nat>)
    ensures Sane(te, arity) <==>
              && te.name in arity && |te.typeArgs| == arity[te.name] && te.fnParams == [] && te.fnRet == ""
              && GoodName(te.name) && AllSane(te.typeArgs, arity)
  {
    hide GoodName;
    GoodAppend([te.name], WordsAll(te.typeArgs));
    assert GoodNames([te.name]) <==> GoodName([te.name][0]);
  }

  lemma AllSaneParts(tes: seq<Te>, arity: map<string, nat>)
    requires tes != []
    ensures AllSane(tes, arity) <==> AllSane(tes[..|tes| - 1], arity) && Sane(tes[|tes| - 1], arity)
  {
    GoodAppend(WordsAll(tes[..|tes| - 1]), Words(tes[|tes| - 1]));
    hide GoodNames;
  }

  predicate SubstSane(s: Subst, arity: map<string, nat>) { forall x :: x in s ==> Sane(s[x], arity) }

  lemma {:induction false} ReplaceSane(te: Te, s: Subst, arity: map<string, nat>)
    requires Sane(te, arity) && SubstSane(s, arity)
    ensures Sane(Replace(te, s), arity)
    decreases te
  {
    SaneParts(te, arity);
    SaneParts(Replace(te, s), arity);
    hide Sane, GoodName, AllSane;
    if te.name != "__fn" && te.typeArgs == [] && te.name in s {
      SaneParts(s[te.name], arity);
    } else {
      ReplaceAllSane(te.typeArgs, s, arity);
    }
  }

  lemma {:induction false} ReplaceAllSane(tes: seq<Te>, s: Subst, arity: map<string, nat>)
    requires AllSane(tes, arity) && SubstSane(s, arity)
    ensures AllSane(ReplaceAll(tes, s), arity)
    decreases tes
  {
    hide Sane, Replace;
    if tes != [] {
      var front, last := tes[..|tes| - 1], tes[|tes| - 1];
      AllSaneParts(tes, arity);
      ReplaceAllSane(front, s, arity);
      ReplaceSane(last, s, arity);
      assert ReplaceAll(tes, s)[..|front|] == ReplaceAll(front, s);
      AllSaneParts(ReplaceAll(tes, s), arity);
    }
  }

  // ----- where keys come from ----------------------------------------------------------------

  /** The instantiation that a type with arguments needs itself. */
  function OwnKey(te: Te): Key {
    var args := ResolveAll(te.typeArgs);
    Key(te.name, args, Mangle(te.name, args))
  }

  ghost predicate FromType(k: Key, arity: map<string, nat>) {
    exists te :: Sane(te, arity) && te.typeArgs != [] && k == OwnKey(te)
  }

  ghost predicate AllFrom(keys: seq<Key>, arity: map<string, nat>) {
    forall k :: k in keys ==> FromType(k, arity)
  }

  lemma FromOwn(te: Te, arity: map<string, nat>)
    requires Sane(te, arity) && te.typeArgs != []
    ensures FromType(OwnKey(te), arity)
  {}

  lemma {:induction false} KeysFrom(te: Te, arity: map<string, nat>)
    requires Sane(te, arity)
    ensures AllFrom(Keys(te), arity)
    decreases te
  {
    SaneParts(te, arity);
    KeysAllFrom(te.typeArgs, arity);
    if te.typeArgs != [] { FromOwn(te, arity); }
    hide FromType, Sane, AllSane;
    assert KeysAll(te.fnParams) == [];
  }

  lemma {:induction false} KeysAllFrom(tes: seq<Te>, arity: map<string, nat>)
    requires AllSane(tes, arity)
    ensures AllFrom(KeysAll(tes), arity)
    decreases tes
  {
    hide FromType, Sane, AllSane, Keys;
    if tes != [] {
      AllSaneParts(tes, arity);
      KeysAllFrom(tes[..|tes| - 1], arity);
      KeysFrom(tes[|tes| - 1], arity);
    }
  }

  lemma KeysSplit(te: Te)
    requires te.fnParams == []
    ensures Keys(te) == KeysAll(te.typeArgs) + (if te.typeArgs == [] then [] else [OwnKey(te)])
  {
    assert KeysAll(te.fnParams) == [];
  }

  /** A type that is replaced is resolved already and needs nothing. */
  lemma ReplacedNeedsNothing(te: Te, s: Subst)
    requires te.name != "__fn" && te.typeArgs == [] && te.name in s
    ensures Keys(Replace(te, ResolveSubst(s))) == []
  {
    ResolveIsResolved(s[te.name]);
    ResolvedStays(Replace(te, ResolveSubst(s)));
  }

  lemma ReplacedParts(te: Te, s: Subst)
    requires !(te.name != "__fn" && te.typeArgs == [] && te.name in s) && te.fnParams == []
    ensures Replace(te, s) == te.(typeArgs := ReplaceAll(te.typeArgs, s))
    ensures te.typeArgs == [] <==> Replace(te, s).typeArgs == []
  {}

  /** After substituting resolved arguments the keys are those that the originals would need. */
  lemma {:induction false} SubstKeysFrom(te: Te, s: Subst, arity: map<string, nat>)
    requires Sane(te, arity) && SubstSane(s, arity)
    ensures AllFrom(Keys(Replace(te, ResolveSubst(s))), arity)
    decreases te
  {
    var s' := ResolveSubst(s);
    SaneParts(te, arity);
    hide FromType, Sane, AllSane, SubstSane, Keys, Replace, OwnKey, ReplaceAll;
    if te.name != "__fn" && te.typeArgs == [] && te.name in s {
      ReplacedNeedsNothing(te, s);
    } else {
      SubstKeysAllFrom(te.typeArgs, s, arity);
      ReplacedParts(te, s');
      KeysSplit(Replace(te, s'));
      if te.typeArgs != [] { OwnKeyFrom(te, s, arity); }
    }
  }

  lemma OwnKeyFrom(te: Te, s: Subst, arity: map<string, nat>)
    requires Sane(te, arity) && SubstSane(s, arity) && te.typeArgs != []
    ensures FromType(OwnKey(Replace(te, ResolveSubst(s))), arity)
  {
    SaneParts(te, arity);
    ReplaceSane(te, s, arity);
    hide FromType, Sane, AllSane, SubstSane, Keys, Replace;
    ReplacedParts(te, s);
    ReplacedParts(te, ResolveSubst(s));
    SubstAllResolve(te.typeArgs, s);
    FromOwn(Replace(te, s), arity);
  }

  lemma {:induction false} SubstKeysAllFrom(tes: seq<Te>, s: Subst, arity: map<string, nat>)
    requires AllSane(tes, arity) && SubstSane(s, arity)
    ensures AllFrom(KeysAll(ReplaceAll(tes, ResolveSubst(s))), arity)
    decreases tes
  {
    hide FromType, Sane, AllSane, SubstSane, Keys, Replace;
    if tes != [] {
      var front, last, s' := tes[..|tes| - 1], tes[|tes| - 1], ResolveSubst(s);
      AllSaneParts(tes, arity);
      SubstKeysAllFrom(front, s, arity);
      SubstKeysFrom(last, s, arity);
      assert ReplaceAll(tes, s')[..|front|] == ReplaceAll(front, s');
    }
  }

  lemma {:induction false} BodyKeysFrom(b: Body, arity: map<string, nat>)
    requires BodySane(b, arity)
    ensures AllFrom(BodyKeys(b), arity)
    decreases b
  {
    if b.kind == Walked { ItemsKeysFrom(b.items, arity); }
  }

  lemma {:induction false} ItemsKeysFrom(items: seq<Item>, arity: map<string, nat>)
    requires ItemsSane(items, arity)
    ensures AllFrom(ItemsKeys(items), arity)
    decreases items
  {
    hide FromType, Sane;
    if items != [] {
      ItemsKeysFrom(items[..|items| - 1], arity);
      ItemKeysFrom(items[|items| - 1], arity);
    }
  }

  lemma {:induction false} ItemKeysFrom(i: Item, arity: map<string, nat>)
    requires ItemSane(i, arity)
    ensures AllFrom(ItemKeys(i), arity)
    decreases i
  {
    match i {
      case Ty(te) => KeysFrom(te, arity);
      case Sub(b) => BodyKeysFrom(b, arity);
    }
  }

  lemma {:induction false} CloneKeysFrom(b: Body, s: Subst, arity: map<string, nat>)
    requires BodySane(b, arity) && SubstSane(s, arity)
    ensures AllFrom(BodyKeys(Clone(b, ResolveSubst(s))), arity)
    decreases b
  {
    if b.kind == Walked { CloneItemsFrom(b.items, s, arity); }
  }

  lemma {:induction false} CloneItemsFrom(items: seq<Item>, s: Subst, arity: map<string, nat>)
    requires ItemsSane(items, arity) && SubstSane(s, arity)
    ensures AllFrom(ItemsKeys(CloneItems(items, ResolveSubst(s))), arity)
    decreases items
  {
    hide FromType, Sane, SubstSane;
    if items != [] {
      var front, s' := items[..|items| - 1], ResolveSubst(s);
      CloneItemsFrom(front, s, arity);
      CloneItemFrom(items[|items| - 1], s, arity);
      assert CloneItems(items, s')[..|CloneItems(front, s')|] == CloneItems(front, s');
    }
  }

  lemma {:induction false} CloneItemFrom(i: Item, s: Subst, arity: map<string, nat>)
    requires ItemSane(i, arity) && SubstSane(s, arity)
    ensures AllFrom(ItemKeys(CloneItem(i, ResolveSubst(s))), arity)
    decreases i
  {
    match i {
      case Ty(te) => SubstKeysFrom(te, s, arity);
      case Sub(b) => CloneKeysFrom(b, s, arity);
    }
  }

  lemma {:induction false} DeclKeysFrom(d: Decl, arity: map<string, nat>)
    requires DeclSane(d, arity)
    ensures AllFrom(DeclKeys(d), arity)
    decreases d
  {
    hide FromType;
    match d {
      case Class(_, _, b) => BodyKeysFrom(b, arity);
      case Func(_, _, b) => BodyKeysFrom(b, arity);
      case Space(ds, b) =>
        DeclsKeysFrom(ds, arity);
        BodyKeysFrom(b, arity);
      case Other =>
    }
  }

  lemma {:induction false} DeclsKeysFrom(ds: seq<Decl>, arity: map<string, nat>)
    requires DeclsSane(ds, arity)
    ensures AllFrom(AllDeclKeys(ds), arity)
    decreases ds
  {
    hide FromType;
    if ds != [] {
      DeclsKeysFrom(ds[..|ds| - 1], arity);
      DeclKeysFrom(ds[|ds| - 1], arity);
    }
  }

  lemma {:induction false} TemplatesSane(ds: seq<Decl>, classes: bool, arity: map<string, nat>)
    requires DeclsSane(ds, arity)
    ensures forall n :: n in Templates(ds, classes) ==> BodySane(Templates(ds, classes)[n].body, arity)
    decreases ds
  {
    if ds != [] {
      TemplatesSane(ds[..|ds| - 1], classes, arity);
      if ds[|ds| - 1].Space? { TemplatesSane(ds[|ds| - 1].decls, classes, arity); }
    }
  }

  lemma {:induction false} BindResolves(params: seq<string>, args: seq<Te>, arity: map<string, nat>)
    requires |params| == |args| && AllSane(args, arity)
    ensures Bind(params, ResolveAll(args)) == ResolveSubst(Bind(params, args))
    ensures SubstSane(Bind(params, args), arity)
    decreases |params|
  {
    hide Sane, AllSane;
    if params != [] {
      var n := |params| - 1;
      AllSaneParts(args, arity);
      BindResolves(params[..n], args[..n], arity);
      assert ResolveAll(args)[..n] == ResolveAll(args[..n]);
    }
  }

  /** The instantiations of an instantiation come from types of the program, too. */
  lemma CopyKeysFrom(p: Prog, k: Key, arity: map<string, nat>)
    requires ProgSane(p, arity) && FromType(k, arity) && Lookup(p, k).Some?
    ensures AllFrom(CopyKeys(p, k), arity)
  {
    var te :| Sane(te, arity) && te.typeArgs != [] && k == OwnKey(te);
    var t := Lookup(p, k).value;
    TemplatesSane(p.decls, true, arity);
    TemplatesSane(p.decls, false, arity);
    assert BodySane(t.body, arity);
    SaneParts(te, arity);
    BindResolves(t.params, te.typeArgs, arity);
    CloneKeysFrom(t.body, Bind(t.params, te.typeArgs), arity);
    hide FromType, Lookup, BodyKeys, Clone, Sane;
    assert Copy(p, k).body == Clone(t.body, ResolveSubst(Bind(t.params, te.typeArgs)));
  }

  lemma FirstKeysFrom(p: Prog, arity: map<string, nat>)
    requires ProgSane(p, arity)
    ensures AllFrom(FirstKeys(p), arity)
  {
    DeclsKeysFrom(p.decls, arity);
    BodyKeysFrom(p.stmts, arity);
    hide FromType;
  }

  // ----- no name has two meanings ------------------------------------------------------------

  ghost function Real(K: set<Key>, arity: map<string, nat>): set<Key> {
    set k | k in K && FromType(k, arity)
  }

  lemma RealClosed(p: Prog, K: set<Key>, arity: map<string, nat>)
    requires Closed(p, K) && ProgSane(p, arity)
    ensures Closed(p, Real(K, arity)) && Inside(Pushes(FirstKeys(p), {}), Real(K, arity))
  {
    hide FromType, Lookup, CopyKeys, FirstKeys, ProgSane;
    FirstKeysFrom(p, arity);
    var R := Real(K, arity);
    forall k, k' | k in R && Lookup(p, k).Some? && k' in CopyKeys(p, k) ensures k' in R {
      CopyKeysFrom(p, k, arity);
    }
  }

  lemma {:induction false} OwnName(te: Te)
    requires te.typeArgs != []
    ensures OwnKey(te).mangled == Resolve(te).name && |OwnKey(te).args| == |te.typeArgs|
  {}

  lemma RealUnambiguous(p: Prog, K: set<Key>, arity: map<string, nat>)
    ensures Unambiguous(p, Real(K, arity))
  {
    var R := Real(K, arity);
    forall k, k' | k in R && k' in R && k.mangled == k'.mangled
      ensures Lookup(p, k).Some? <==> Lookup(p, k').Some?
    {
      var s :| Sane(s, arity) && s.typeArgs != [] && k == OwnKey(s);
      var t :| Sane(t, arity) && t.typeArgs != [] && k' == OwnKey(t);
      OwnName(s);
      OwnName(t);
      NamesAreFaithful(s, t, arity);
      assert s.name == NoConst(s).name == NoConst(t).name == t.name;
      LengthNoConst(s.typeArgs);
      LengthNoConst(t.typeArgs);
      assert k.generic == k'.generic && |k.args| == |k'.args|;
    }
  }

  /** The set only bounds the worklist; it does not decide what it does. */
  lemma {:induction false} WorkSame(p: Prog, K: set<Key>, K1: set<Key>, done: set<string>, pending: seq<Key>)
    requires Closed(p, K) && Closed(p, K1) && Inside(pending, K) && Inside(pending, K1)
    ensures Work(p, K, done, pending) == Work(p, K1, done, pending)
    decreases |Names(K) - done|, |pending|
  {
    hide Lookup, CopyKeys, Work, Closed, Names, Inside, Pushes;
    if pending == [] {
      WorkEnd(p, K, done);
      WorkEnd(p, K1, done);
    } else {
      WorkTurn(p, K, done, pending);
      WorkTurn(p, K1, done, pending);
      var k, rest := pending[|pending| - 1], pending[..|pending| - 1];
      var done1 := done + {k.mangled};
      if k.mangled in done {
        WorkSame(p, K, K1, done, rest);
      } else if Lookup(p, k).None? {
        WorkSame(p, K, K1, done1, rest);
      } else {
        WorkSame(p, K, K1, done1, rest + Pushes(CopyKeys(p, k), done1));
      }
    }
  }

  /** What a program or an instantiation needs and a template of the right arity can give. */
  predicate Needed(p: Prog, log: seq<Key>, k: Key) {
    && Lookup(p, k).Some?
    && (k in FirstKeys(p)
        || exists i :: 0 <= i < |log| && Lookup(p, log[i]).Some? && k in CopyKeys(p, log[i]))
  }

  lemma NeededIsNamed(p: Prog, K: set<Key>, arity: map<string, nat>, k: Key)
    requires Closed(p, K) && ProgSane(p, arity) && Needed(p, Log(p, K), k)
    ensures Named(Log(p, K), k.mangled)
  {
    hide Lookup, CopyKeys, FirstKeys, Unambiguous, Closed, Work, Pushes, Inside, Named, ProgSane, Real;
    var R := Real(K, arity);
    RealClosed(p, K, arity);
    RealUnambiguous(p, K, arity);
    FirstInside(p, K);
    WorkSame(p, K, R, {}, Pushes(FirstKeys(p), {}));
    LogIsComplete(p, R);
    assert Log(p, R) == Log(p, K);
  }

  /** Main result, on the program that expansion returns: with one arity per name, no function types
      and names that mangling does not confuse, every instantiation that is needed - by the program or
      by a declaration that expansion makes - and has a template of the right arity is declared once,
      next to whatever the program declares by that name itself; no other name is declared anew. */
  lemma OneDeclarationEach(p: Prog, K: set<Key>, arity: map<string, nat>)
    requires Closed(p, K) && ProgSane(p, arity)
    ensures forall k :: Needed(p, Log(p, K), k) ==>
              Count(Expansion(p, K).decls, k.mangled) == Count(p.decls, k.mangled) + 1
    ensures forall n :: Count(p.decls, n) <= Count(Expansion(p, K).decls, n) <= Count(p.decls, n) + 1
    ensures forall n :: Count(Expansion(p, K).decls, n) > Count(p.decls, n) ==> Named(Log(p, K), n)
  {
    hide Closed, ProgSane, Log, Expansion, Needed, Count, Named;
    forall k | Needed(p, Log(p, K), k)
      ensures Count(Expansion(p, K).decls, k.mangled) == Count(p.decls, k.mangled) + 1
    {
      NeededIsNamed(p, K, arity, k);
      DeclarationCount(p, K, k.mangled);
    }
    forall n
      ensures Count(p.decls, n) <= Count(Expansion(p, K).decls, n) <= Count(p.decls, n) + 1
      ensures Count(Expansion(p, K).decls, n) > Count(p.decls, n) ==> Named(Log(p, K), n)
    {
      DeclarationCount(p, K, n);
    }
  }
}
