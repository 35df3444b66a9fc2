/** What becomes of types and bodies, by position and without the functions that compute it: a type reduced to a
    plain one, a body walked, a template read with its arguments. */
module GenericsBodies {
  import opened Common
  import opened Generics
  import opened GenericsExpand

  // ----- types -------------------------------------------------------------------------------

  /** r is te with its type arguments gone into its name, and so in the parameters of function types. */
  predicate Reduced(te: Te, r: Te)
    decreases te
  {
    && r.name == Piece(te) && r.isConst == te.isConst && r.fnRet == te.fnRet && r.typeArgs == []
    && |r.fnParams| == |te.fnParams|
    && forall i :: 0 <= i < |te.fnParams| ==> Reduced(te.fnParams[i], r.fnParams[i])
  }

  lemma {:induction false} ResolveAllAt(tes: seq<Te>, i: nat)
    requires i < |tes|
    ensures ResolveAll(tes)[i] == Resolve(tes[i])
    decreases |tes|
  {
    if i < |tes| - 1 { ResolveAllAt(tes[..|tes| - 1], i); }
  }

  lemma {:induction false} ResolveReduces(te: Te)
    ensures Reduced(te, Resolve(te))
    decreases te
  {
    ResolvedName(te);
    hide Piece;
    forall i | 0 <= i < |te.fnParams| ensures Reduced(te.fnParams[i], Resolve(te).fnParams[i]) {
      ResolveAllAt(te.fnParams, i);
      ResolveReduces(te.fnParams[i]);
    }
  }

  /** i is the last place of x. */
  predicate LastAt(params: seq<string>, x: string, i: nat) {
    i < |params| && params[i] == x && forall j :: i < j < |params| ==> params[j] != x
  }

  /** r is te with params[i] read as args[i]: of two parameters of one name the last counts, and a const
      stays const. */
  ghost predicate Read(te: Te, r: Te, params: seq<string>, args: seq<Te>)
    requires |params| == |args|
    decreases te
  {
    if te.name != "__fn" && te.typeArgs == [] && te.name in params then
      forall i: nat :: LastAt(params, te.name, i) ==>
        r == Te(args[i].name, args[i].isConst || te.isConst, args[i].fnParams, args[i].fnRet, args[i].typeArgs)
    else
      && r.name == te.name && r.isConst == te.isConst && r.fnRet == te.fnRet
      && |r.fnParams| == |te.fnParams| && |r.typeArgs| == |te.typeArgs|
      && (forall i :: 0 <= i < |te.fnParams| ==> Read(te.fnParams[i], r.fnParams[i], params, args))
      && (forall i :: 0 <= i < |te.typeArgs| ==> Read(te.typeArgs[i], r.typeArgs[i], params, args))
  }

  lemma {:induction false} BindAt(params: seq<string>, args: seq<Te>, x: string)
    requires |params| == |args|
    ensures x in Bind(params, args) <==> x in params
    ensures forall i: nat :: LastAt(params, x, i) ==> x in Bind(params, args) && Bind(params, args)[x] == args[i]
    decreases |params|
  {
    if params != [] {
      var n := |params| - 1;
      BindAt(params[..n], args[..n], x);
      assert params == params[..n] + [params[n]];
      forall i: nat | LastAt(params, x, i) ensures x in Bind(params, args) && Bind(params, args)[x] == args[i] {
        if i < n { assert params[n] != x && LastAt(params[..n], x, i); }
      }
    }
  }

  lemma {:induction false} ReplaceAllAt(tes: seq<Te>, s: Subst, i: nat)
    requires i < |tes|
    ensures ReplaceAll(tes, s)[i] == Replace(tes[i], s)
    decreases |tes|
  {
    if i < |tes| - 1 { ReplaceAllAt(tes[..|tes| - 1], s, i); }
  }

  lemma {:induction false} ReplaceReads(te: Te, params: seq<string>, args: seq<Te>)
    requires |params| == |args|
    ensures Read(te, Replace(te, Bind(params, args)), params, args)
    decreases te
  {
    var s := Bind(params, args);
    BindAt(params, args, te.name);
    hide Bind;
    if te.name != "__fn" && te.typeArgs == [] && te.name in params {
    } else {
      forall i | 0 <= i < |te.fnParams| ensures Read(te.fnParams[i], Replace(te, s).fnParams[i], params, args) {
        ReplaceAllAt(te.fnParams, s, i);
        ReplaceReads(te.fnParams[i], params, args);
      }
      forall i | 0 <= i < |te.typeArgs| ensures Read(te.typeArgs[i], Replace(te, s).typeArgs[i], params, args) {
        ReplaceAllAt(te.typeArgs, s, i);
        ReplaceReads(te.typeArgs[i], params, args);
      }
    }
  }

  // ----- bodies ------------------------------------------------------------------------------

  /** A walked body: the same shape and as many items at every level, each type reduced; a skipped or
      opaque node is as it was. */
  predicate BodyReduced(b: Body, r: Body)
    decreases b
  {
    if b.kind != Walked then r == b
    else
      && r.kind == Walked && |r.items| == |b.items|
      && forall i :: 0 <= i < |b.items| ==> ItemReduced(b.items[i], r.items[i])
  }

  predicate ItemReduced(i: Item, r: Item)
    decreases i
  {
    match i
    case Ty(te) => r.Ty? && Reduced(te, r.te)
    case Sub(b) => r.Sub? && BodyReduced(b, r.b)
  }

  lemma {:induction false} FixItemsAt(items: seq<Item>, i: nat)
    requires i < |items|
    ensures |FixItems(items)| == |items| && FixItems(items)[i] == FixItem(items[i])
    decreases |items|
  {
    hide FixItem;
    FixItemsLength(items[..|items| - 1]);
    if i < |items| - 1 { FixItemsAt(items[..|items| - 1], i); }
  }

  lemma {:induction false} FixItemsLength(items: seq<Item>)
    ensures |FixItems(items)| == |items|
    decreases |items|
  {
    if items != [] { FixItemsLength(items[..|items| - 1]); }
  }

  lemma {:induction false} FixReduces(b: Body)
    ensures BodyReduced(b, Fix(b))
    decreases b
  {
    if b.kind == Walked {
      FixItemsLength(b.items);
      forall i | 0 <= i < |b.items| ensures ItemReduced(b.items[i], Fix(b).items[i]) {
        FixItemsAt(b.items, i);
        match b.items[i] {
          case Ty(te) => ResolveReduces(te);
          case Sub(c) => FixReduces(c);
        }
      }
    }
  }

  /** A template read with its arguments: the same shape, each type read; an opaque node leaves an empty
      one. */
  ghost predicate BodyRead(b: Body, r: Body, params: seq<string>, args: seq<Te>)
    requires |params| == |args|
    decreases b
  {
    if b.kind == Opaque then r == Node(Walked, [])
    else
      && r.kind == b.kind && |r.items| == |b.items|
      && forall i :: 0 <= i < |b.items| ==> ItemRead(b.items[i], r.items[i], params, args)
  }

  ghost predicate ItemRead(i: Item, r: Item, params: seq<string>, args: seq<Te>)
    requires |params| == |args|
    decreases i
  {
    match i
    case Ty(te) => r.Ty? && Read(te, r.te, params, args)
    case Sub(b) => r.Sub? && BodyRead(b, r.b, params, args)
  }

  lemma {:induction false} CloneItemsLength(items: seq<Item>, s: Subst)
    ensures |CloneItems(items, s)| == |items|
    decreases |items|
  {
    if items != [] { CloneItemsLength(items[..|items| - 1], s); }
  }

  lemma {:induction false} CloneItemsAt(items: seq<Item>, s: Subst, i: nat)
    requires i < |items|
    ensures |CloneItems(items, s)| == |items| && CloneItems(items, s)[i] == CloneItem(items[i], s)
    decreases |items|
  {
    hide CloneItem;
    CloneItemsLength(items[..|items| - 1], s);
    if i < |items| - 1 { CloneItemsAt(items[..|items| - 1], s, i); }
  }

  lemma {:induction false} CloneReads(b: Body, params: seq<string>, args: seq<Te>)
    requires |params| == |args|
    ensures BodyRead(b, Clone(b, Bind(params, args)), params, args)
    decreases b
  {
    hide Bind;
    var s := Bind(params, args);
    if b.kind != Opaque {
      CloneItemsLength(b.items, s);
      forall i | 0 <= i < |b.items| ensures ItemRead(b.items[i], Clone(b, s).items[i], params, args) {
        CloneItemsAt(b.items, s, i);
        match b.items[i] {
          case Ty(te) => ReplaceReads(te, params, args);
          case Sub(c) => CloneReads(c, params, args);
        }
      }
    }
  }

  /** An instantiated body: each type on a walked node is read and then reduced; skipped nodes are only
      read. */
  ghost predicate BodyInstance(b: Body, r: Body, params: seq<string>, args: seq<Te>)
    requires |params| == |args|
    decreases b
  {
    match b.kind
    case Opaque => r == Node(Walked, [])
    case Skipped => BodyRead(b, r, params, args)
    case Walked =>
      && r.kind == Walked && |r.items| == |b.items|
      && forall i :: 0 <= i < |b.items| ==> ItemInstance(b.items[i], r.items[i], params, args)
  }

  ghost predicate ItemInstance(i: Item, r: Item, params: seq<string>, args: seq<Te>)
    requires |params| == |args|
    decreases i
  {
    match i
    case Ty(te) => r.Ty? && exists mid :: Read(te, mid, params, args) && Reduced(mid, r.te)
    case Sub(b) => r.Sub? && BodyInstance(b, r.b, params, args)
  }

  lemma {:induction false} InstanceOf(b: Body, mid: Body, r: Body, params: seq<string>, args: seq<Te>)
    requires |params| == |args| && BodyRead(b, mid, params, args) && BodyReduced(mid, r)
    ensures BodyInstance(b, r, params, args)
    decreases b
  {
    hide Read, Reduced;
    if b.kind == Walked {
      forall i | 0 <= i < |b.items| ensures ItemInstance(b.items[i], r.items[i], params, args) {
        assert ItemRead(b.items[i], mid.items[i], params, args) && ItemReduced(mid.items[i], r.items[i]);
        match b.items[i] {
          case Ty(te) => assert Read(te, mid.items[i].te, params, args);
          case Sub(c) => InstanceOf(c, mid.items[i].b, r.items[i].b, params, args);
        }
      }
    }
  }

  // ----- declarations ------------------------------------------------------------------------

  /** A declaration after the walk; templates are passed over. */
  predicate DeclReduced(d: Decl, r: Decl)
    decreases d
  {
    if IsTemplate(d) then r == d
    else match d
         case Class(n, ps, b) => r.Class? && r.name == n && r.params == ps && BodyReduced(b, r.body)
         case Func(n, ps, b) => r.Func? && r.name == n && r.params == ps && BodyReduced(b, r.body)
         case Other => r == Other
         case Space(ds, b) =>
           && r.Space? && BodyReduced(b, r.stmts) && |r.decls| == |ds|
           && forall i :: 0 <= i < |ds| ==> DeclReduced(ds[i], r.decls[i])
  }

  lemma {:induction false} FixDeclsLength(ds: seq<Decl>)
    ensures |FixDecls(ds)| == |ds|
    decreases |ds|
  {
    if ds != [] { FixDeclsLength(ds[..|ds| - 1]); }
  }

  lemma {:induction false} FixDeclsAt(ds: seq<Decl>, i: nat)
    requires i < |ds|
    ensures |FixDecls(ds)| == |ds| && FixDecls(ds)[i] == FixDecl(ds[i])
    decreases |ds|
  {
    hide FixDecl;
    FixDeclsLength(ds[..|ds| - 1]);
    if i < |ds| - 1 { FixDeclsAt(ds[..|ds| - 1], i); }
  }

  lemma {:induction false} FixDeclReduces(d: Decl)
    ensures DeclReduced(d, FixDecl(d))
    decreases d
  {
    hide Fix, BodyReduced;
    match d {
      case Class(_, _, b) => FixReduces(b);
      case Func(_, _, b) => FixReduces(b);
      case Other =>
      case Space(ds, b) =>
        FixReduces(b);
        FixDeclsLength(ds);
        forall i | 0 <= i < |ds| ensures DeclReduced(ds[i], FixDecl(d).decls[i]) {
          FixDeclsAt(ds, i);
          FixDeclReduces(ds[i]);
        }
    }
  }

  // ----- templates ---------------------------------------------------------------------------

  /** The templates in the order in which they are declared, inside namespaces too. */
  function Declared(ds: seq<Decl>): (r: seq<Decl>)
    decreases ds
  {
    if ds == [] then []
    else
      var last := ds[|ds| - 1];
      Declared(ds[..|ds| - 1])
      + (if last.Space? then Declared(last.decls) else if IsTemplate(last) then [last] else [])
  }

  /** t is the last template of its sort and name. */
  ghost predicate LastTemplate(ts: seq<Decl>, t: Decl, classes: bool, n: string) {
    exists i :: 0 <= i < |ts| && ts[i] == t && IsOf(t, classes, n)
                && forall j :: i < j < |ts| ==> !IsOf(ts[j], classes, n)
  }

  predicate IsOf(t: Decl, classes: bool, n: string) {
    if classes then t.Class? && t.name == n else t.Func? && t.name == n
  }

  ghost predicate NoneOf(ts: seq<Decl>, classes: bool, n: string) {
    forall i :: 0 <= i < |ts| ==> !IsOf(ts[i], classes, n)
  }

  lemma LastOfBoth(a: seq<Decl>, b: seq<Decl>, classes: bool, n: string)
    ensures NoneOf(a + b, classes, n) <==> NoneOf(a, classes, n) && NoneOf(b, classes, n)
    ensures forall t :: LastTemplate(b, t, classes, n) ==> LastTemplate(a + b, t, classes, n)
    ensures NoneOf(b, classes, n) ==> forall t :: LastTemplate(a, t, classes, n) ==> LastTemplate(a + b, t, classes, n)
  {
    var c := a + b;
    hide IsOf;
    assert NoneOf(c, classes, n) ==> NoneOf(a, classes, n) && NoneOf(b, classes, n) by {
      if NoneOf(c, classes, n) {
        forall i | 0 <= i < |a| ensures !IsOf(a[i], classes, n) { assert c[i] == a[i]; }
        forall i | 0 <= i < |b| ensures !IsOf(b[i], classes, n) { assert c[|a| + i] == b[i]; }
      }
    }
    forall t | LastTemplate(b, t, classes, n) ensures LastTemplate(c, t, classes, n) {
      var i :| 0 <= i < |b| && b[i] == t && IsOf(t, classes, n) && forall j :: i < j < |b| ==> !IsOf(b[j], classes, n);
      assert c[|a| + i] == t;
      forall j | |a| + i < j < |c| ensures !IsOf(c[j], classes, n) { assert c[j] == b[j - |a|]; }
    }
    if NoneOf(b, classes, n) {
      forall t | LastTemplate(a, t, classes, n) ensures LastTemplate(c, t, classes, n) {
        var i :| 0 <= i < |a| && a[i] == t && IsOf(t, classes, n)
                 && forall j :: i < j < |a| ==> !IsOf(a[j], classes, n);
        assert c[i] == t;
        forall j | i < j < |c| ensures !IsOf(c[j], classes, n) {
          if j < |a| { assert c[j] == a[j]; } else { assert c[j] == b[j - |a|]; }
        }
      }
    }
  }

  lemma {:induction false} TemplatesAreLast(ds: seq<Decl>, classes: bool, n: string)
    ensures n in Templates(ds, classes) ==> LastTemplate(Declared(ds), Templates(ds, classes)[n], classes, n)
    ensures n !in Templates(ds, classes) <==> NoneOf(Declared(ds), classes, n)
    decreases ds
  {
    hide LastTemplate, NoneOf;
    if ds == [] {
      NoneInNothing(classes, n);
    } else {
      var front, last := ds[..|ds| - 1], ds[|ds| - 1];
      TemplatesAreLast(front, classes, n);
      var more := if last.Space? then Declared(last.decls) else if IsTemplate(last) then [last] else [];
      LastOfBoth(Declared(front), more, classes, n);
      if last.Space? { TemplatesAreLast(last.decls, classes, n); } else { LastOfOne(last, classes, n); }
    }
  }

  lemma NoneInNothing(classes: bool, n: string)
    ensures NoneOf([], classes, n)
  {}

  lemma LastOfOne(d: Decl, classes: bool, n: string)
    ensures NoneOf([], classes, n)
    ensures if IsOf(d, classes, n) then LastTemplate([d], d, classes, n) && !NoneOf([d], classes, n)
            else NoneOf([d], classes, n)
  {
    assert [d][0] == d;
  }
}
