/** Which instantiations a program needs: those of the types with arguments that stand on its walked nodes, at any
    depth, and no others. */
module GenericsUses {
  import opened Common
  import opened Generics
  import opened GenericsExpand
  import opened GenericsBodies
  import opened GenericsMain
  import opened GenericsDecls
  import opened GenericsShape

  // ----- the key of a type -------------------------------------------------------------------

  /** k asks for x: its name, its arguments reduced, and the name that mangling gives. */
  predicate Asks(k: Key, x: Te) {
    && x.typeArgs != [] && k.generic == x.name && k.mangled == Piece(x) && |k.args| == |x.typeArgs|
    && forall i :: 0 <= i < |k.args| ==> Reduced(x.typeArgs[i], k.args[i])
  }

  lemma {:induction false} ReducedIsOne(te: Te, r: Te, q: Te)
    requires Reduced(te, r) && Reduced(te, q)
    ensures r == q
    decreases te
  {
    forall i | 0 <= i < |te.fnParams| ensures r.fnParams[i] == q.fnParams[i] {
      ReducedIsOne(te.fnParams[i], r.fnParams[i], q.fnParams[i]);
    }
    assert r.fnParams == q.fnParams;
  }

  lemma OwnAsks(k: Key, x: Te)
    requires x.typeArgs != []
    ensures Asks(k, x) <==> k == OwnKey(x)
  {
    var args := ResolveAll(x.typeArgs);
    MangleResolved(x.name, x.typeArgs);
    forall i | 0 <= i < |args| ensures Reduced(x.typeArgs[i], args[i]) {
      ResolveAllAt(x.typeArgs, i);
      ResolveReduces(x.typeArgs[i]);
    }
    hide Reduced;
    if Asks(k, x) {
      forall i | 0 <= i < |args| ensures args[i] == k.args[i] { ReducedIsOne(x.typeArgs[i], args[i], k.args[i]); }
      assert args == k.args;
    }
  }

  // ----- types -------------------------------------------------------------------------------

  /** x stands in te. */
  predicate Uses(te: Te, x: Te)
    decreases te
  {
    || x == te
    || (exists i :: 0 <= i < |te.typeArgs| && Uses(te.typeArgs[i], x))
    || (exists i :: 0 <= i < |te.fnParams| && Uses(te.fnParams[i], x))
  }

  ghost predicate Needs(te: Te, k: Key) { exists x :: Uses(te, x) && Asks(k, x) }

  lemma {:induction false} KeysAllAt(tes: seq<Te>, k: Key)
    ensures k in KeysAll(tes) <==> exists i :: 0 <= i < |tes| && k in Keys(tes[i])
    decreases |tes|
  {
    hide Keys;
    if tes != [] {
      var n := |tes| - 1;
      var front := tes[..n];
      KeysAllAt(front, k);
      assert k in KeysAll(tes) <==> k in KeysAll(front) || k in Keys(tes[n]);
      hide KeysAll;
      forall i | 0 <= i < n ensures front[i] == tes[i] {}
      if k in KeysAll(front) {
        var i :| 0 <= i < |front| && k in Keys(front[i]);
        assert k in Keys(tes[i]);
      }
    }
  }

  lemma {:induction false} KeysAreNeeds(te: Te, k: Key)
    ensures k in Keys(te) <==> Needs(te, k)
    decreases te
  {
    KeysAllAt(te.typeArgs, k);
    KeysAllAt(te.fnParams, k);
    KeysSplit(te, k);
    forall i | 0 <= i < |te.typeArgs| ensures k in Keys(te.typeArgs[i]) <==> Needs(te.typeArgs[i], k) {
      KeysAreNeeds(te.typeArgs[i], k);
    }
    forall i | 0 <= i < |te.fnParams| ensures k in Keys(te.fnParams[i]) <==> Needs(te.fnParams[i], k) {
      KeysAreNeeds(te.fnParams[i], k);
    }
    hide Keys, KeysAll, Asks;
    NeedsSplit(te, k);
  }

  lemma KeysSplit(te: Te, k: Key)
    ensures k in Keys(te) <==> k in KeysAll(te.typeArgs) || k in KeysAll(te.fnParams) || Asks(k, te)
  {
    hide KeysAll, Asks;
    if te.typeArgs != [] {
      OwnAsks(k, te);
    } else {
      NoArgumentsNoKey(k, te);
    }
  }

  lemma NoArgumentsNoKey(k: Key, te: Te)
    requires te.typeArgs == []
    ensures !Asks(k, te)
  {}

  lemma NeedsSplit(te: Te, k: Key)
    ensures Needs(te, k) <==>
      || Asks(k, te)
      || (exists i :: 0 <= i < |te.typeArgs| && Needs(te.typeArgs[i], k))
      || (exists i :: 0 <= i < |te.fnParams| && Needs(te.fnParams[i], k))
  {
    hide Asks;
    if Needs(te, k) {
      var x :| Uses(te, x) && Asks(k, x);
      if x != te {
        if exists i :: 0 <= i < |te.typeArgs| && Uses(te.typeArgs[i], x) {
          var i :| 0 <= i < |te.typeArgs| && Uses(te.typeArgs[i], x);
          assert Needs(te.typeArgs[i], k);
        } else {
          var i :| 0 <= i < |te.fnParams| && Uses(te.fnParams[i], x);
          assert Needs(te.fnParams[i], k);
        }
      }
    }
    if Asks(k, te) { assert Uses(te, te); }
    forall i | 0 <= i < |te.typeArgs| && Needs(te.typeArgs[i], k) ensures Needs(te, k) {
      var x :| Uses(te.typeArgs[i], x) && Asks(k, x);
      assert Uses(te, x);
    }
    forall i | 0 <= i < |te.fnParams| && Needs(te.fnParams[i], k) ensures Needs(te, k) {
      var x :| Uses(te.fnParams[i], x) && Asks(k, x);
      assert Uses(te, x);
    }
  }

  // ----- bodies ------------------------------------------------------------------------------

  /** A type on a walked node of the body needs k. */
  ghost predicate BodyNeeds(b: Body, k: Key)
    decreases b
  {
    b.kind == Walked && exists i :: 0 <= i < |b.items| && ItemNeeds(b.items[i], k)
  }

  ghost predicate ItemNeeds(i: Item, k: Key)
    decreases i
  {
    match i case Ty(te) => Needs(te, k) case Sub(b) => BodyNeeds(b, k)
  }

  lemma {:induction false} ItemsKeysAt(items: seq<Item>, k: Key)
    ensures k in ItemsKeys(items) <==> exists i :: 0 <= i < |items| && k in ItemKeys(items[i])
    decreases |items|
  {
    hide ItemKeys;
    if items != [] {
      var n := |items| - 1;
      var front := items[..n];
      ItemsKeysAt(front, k);
      assert k in ItemsKeys(items) <==> k in ItemsKeys(front) || k in ItemKeys(items[n]);
      hide ItemsKeys;
      forall i | 0 <= i < n ensures front[i] == items[i] {}
      if k in ItemsKeys(front) {
        var i :| 0 <= i < |front| && k in ItemKeys(front[i]);
        assert k in ItemKeys(items[i]);
      }
    }
  }

  lemma {:induction false} BodyKeysAreNeeds(b: Body, k: Key)
    ensures k in BodyKeys(b) <==> BodyNeeds(b, k)
    decreases b
  {
    if b.kind == Walked {
      ItemsKeysAt(b.items, k);
      forall i | 0 <= i < |b.items| ensures k in ItemKeys(b.items[i]) <==> ItemNeeds(b.items[i], k) {
        match b.items[i] {
          case Ty(te) => KeysAreNeeds(te, k);
          case Sub(c) => BodyKeysAreNeeds(c, k);
        }
      }
      hide ItemKeys, ItemNeeds, ItemsKeys;
    }
  }

  /** A type on a walked node outside templates needs k. */
  ghost predicate DeclNeeds(d: Decl, k: Key)
    decreases d
  {
    !IsTemplate(d) &&
    match d
    case Class(_, _, b) => BodyNeeds(b, k)
    case Func(_, _, b) => BodyNeeds(b, k)
    case Space(ds, b) => BodyNeeds(b, k) || exists i :: 0 <= i < |ds| && DeclNeeds(ds[i], k)
    case Other => false
  }

  lemma {:induction false} AllDeclKeysAt(ds: seq<Decl>, k: Key)
    ensures k in AllDeclKeys(ds) <==> exists i :: 0 <= i < |ds| && k in DeclKeys(ds[i])
    decreases |ds|
  {
    hide DeclKeys;
    if ds != [] {
      var n := |ds| - 1;
      var front := ds[..n];
      AllDeclKeysAt(front, k);
      assert k in AllDeclKeys(ds) <==> k in AllDeclKeys(front) || k in DeclKeys(ds[n]);
      hide AllDeclKeys;
      forall i | 0 <= i < n ensures front[i] == ds[i] {}
      if k in AllDeclKeys(front) {
        var i :| 0 <= i < |front| && k in DeclKeys(front[i]);
        assert k in DeclKeys(ds[i]);
      }
    }
  }

  lemma {:induction false} DeclKeysAreNeeds(d: Decl, k: Key)
    ensures k in DeclKeys(d) <==> DeclNeeds(d, k)
    decreases d
  {
    hide BodyKeys, BodyNeeds;
    if !IsTemplate(d) {
      match d {
        case Class(_, _, b) => BodyKeysAreNeeds(b, k);
        case Func(_, _, b) => BodyKeysAreNeeds(b, k);
        case Other =>
        case Space(ds, b) =>
          BodyKeysAreNeeds(b, k);
          AllDeclKeysAt(ds, k);
          forall i | 0 <= i < |ds| ensures k in DeclKeys(ds[i]) <==> DeclNeeds(ds[i], k) {
            DeclKeysAreNeeds(ds[i], k);
          }
      }
    }
  }

  ghost predicate ProgNeeds(p: Prog, k: Key) {
    BodyNeeds(p.stmts, k) || exists i :: 0 <= i < |p.decls| && DeclNeeds(p.decls[i], k)
  }

  /** The worklist starts with what the program needs. */
  lemma FirstKeysAreNeeds(p: Prog, k: Key)
    ensures k in FirstKeys(p) <==> ProgNeeds(p, k)
  {
    hide BodyKeys, BodyNeeds, DeclKeys, DeclNeeds, AllDeclKeys;
    BodyKeysAreNeeds(p.stmts, k);
    AllDeclKeysAt(p.decls, k);
    forall i | 0 <= i < |p.decls| ensures k in DeclKeys(p.decls[i]) <==> DeclNeeds(p.decls[i], k) {
      DeclKeysAreNeeds(p.decls[i], k);
    }
  }

  /** An instantiation adds what its template needs when it is read with the arguments. */
  lemma CopyKeysAreNeeds(p: Prog, k: Key, k': Key) returns (mid: Body)
    requires Lookup(p, k).Some?
    ensures var t := Lookup(p, k).value; BodyRead(t.body, mid, t.params, k.args)
    ensures k' in CopyKeys(p, k) <==> BodyNeeds(mid, k')
  {
    var t := Lookup(p, k).value;
    hide Lookup, Bind, BodyKeys, BodyNeeds, Clone;
    mid := Clone(t.body, Bind(t.params, k.args));
    CloneReads(t.body, t.params, k.args);
    BodyKeysAreNeeds(mid, k');
  }

  // ----- uses are declared -------------------------------------------------------------------

  /** Main result: when a type on a walked node of the program asks for an instantiation, and there is a
      template of that name and arity, the returned program declares its mangled name once more than the
      program does itself. */
  lemma NeedsAreDeclared(p: Prog, K: set<Key>, arity: map<string, nat>, k: Key, t: Decl)
    requires Closed(p, K) && ProgSane(p, arity)
    requires ProgNeeds(p, k) && TemplateFor(p, k.generic, |k.args|, t)
    ensures Count(Expansion(p, K).decls, k.mangled) == Count(p.decls, k.mangled) + 1
  {
    hide Closed, ProgSane, Count, Expansion, ProgNeeds, TemplateFor, Lookup, FirstKeys, CopyKeys;
    FirstKeysAreNeeds(p, k);
    LookupFinds(p, k, t);
    assert Needed(p, Log(p, K), k);
    OneDeclarationEach(p, K, arity);
  }
}
