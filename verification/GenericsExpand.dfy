/** The worklist that instantiates generic classes and functions: cloning templates, walking what they
    need, and what is instantiated in which order. */
module GenericsExpand {
  import opened Common
  import opened Generics

  // ----- programs ----------------------------------------------------------------------------

  /** How the two walks treat a syntax node.  Walked: cloned, and its types are resolved.  Skipped:
      cloned only (field initialisers, constructor initialisers).  Opaque: left alone, and cloned to
      nothing (match, await). */
  datatype Kind = Walked | Skipped | Opaque

  datatype Body = Node(kind: Kind, items: seq<Item>)

  /** A node's types and parts in the order of the walk. */
  datatype Item = Ty(te: Te) | Sub(b: Body)

  datatype Decl =
    | Class(name: string, params: seq<string>, body: Body)
    | Func(name: string, params: seq<string>, body: Body)
    | Space(decls: seq<Decl>, stmts: Body)
    | Other

  datatype Prog = Prog(decls: seq<Decl>, stmts: Body)

  predicate IsTemplate(d: Decl) { (d.Class? || d.Func?) && d.params != [] }

  // ----- cloning -----------------------------------------------------------------------------

  function Clone(b: Body, s: Subst): Body
    decreases b
  {
    if b.kind == Opaque then Node(Walked, []) else b.(items := CloneItems(b.items, s))
  }

  function CloneItems(items: seq<Item>, s: Subst): seq<Item>
    decreases items
  {
    if items == [] then [] else CloneItems(items[..|items| - 1], s) + [CloneItem(items[|items| - 1], s)]
  }

  function CloneItem(i: Item, s: Subst): Item
    decreases i
  {
    match i case Ty(te) => Ty(Replace(te, s)) case Sub(b) => Sub(Clone(b, s))
  }

  // ----- walking -----------------------------------------------------------------------------

  function Fix(b: Body): Body
    decreases b
  {
    if b.kind == Walked then b.(items := FixItems(b.items)) else b
  }

  function FixItems(items: seq<Item>): seq<Item>
    decreases items
  {
    if items == [] then [] else FixItems(items[..|items| - 1]) + [FixItem(items[|items| - 1])]
  }

  function FixItem(i: Item): Item
    decreases i
  {
    match i case Ty(te) => Ty(Resolve(te)) case Sub(b) => Sub(Fix(b))
  }

  function BodyKeys(b: Body): seq<Key>
    decreases b
  {
    if b.kind == Walked then ItemsKeys(b.items) else []
  }

  function ItemsKeys(items: seq<Item>): seq<Key>
    decreases items
  {
    if items == [] then [] else ItemsKeys(items[..|items| - 1]) + ItemKeys(items[|items| - 1])
  }

  function ItemKeys(i: Item): seq<Key>
    decreases i
  {
    match i case Ty(te) => Keys(te) case Sub(b) => BodyKeys(b)
  }

  /** Templates are passed over. */
  function FixDecl(d: Decl): Decl
    decreases d
  {
    if IsTemplate(d) then d
    else match d
         case Space(decls, stmts) => Space(FixDecls(decls), Fix(stmts))
         case Class(n, ps, b) => Class(n, ps, Fix(b))
         case Func(n, ps, b) => Func(n, ps, Fix(b))
         case Other => Other
  }

  function FixDecls(ds: seq<Decl>): seq<Decl>
    decreases ds
  {
    if ds == [] then [] else FixDecls(ds[..|ds| - 1]) + [FixDecl(ds[|ds| - 1])]
  }

  function DeclKeys(d: Decl): seq<Key>
    decreases d
  {
    if IsTemplate(d) then []
    else match d
         case Space(decls, stmts) => AllDeclKeys(decls) + BodyKeys(stmts)
         case Class(_, _, b) => BodyKeys(b)
         case Func(_, _, b) => BodyKeys(b)
         case Other => []
  }

  function AllDeclKeys(ds: seq<Decl>): seq<Key>
    decreases ds
  {
    if ds == [] then [] else AllDeclKeys(ds[..|ds| - 1]) + DeclKeys(ds[|ds| - 1])
  }

  function FirstKeys(p: Prog): seq<Key> { AllDeclKeys(p.decls) + BodyKeys(p.stmts) }

  // ----- templates ---------------------------------------------------------------------------

  /** The templates of one sort by name, inside namespaces too; a later one replaces an earlier one. */
  function Templates(ds: seq<Decl>, classes: bool): (m: map<string, Decl>)
    ensures forall n :: n in m ==> IsTemplate(m[n])
    decreases ds
  {
    if ds == [] then map[]
    else
      var last := ds[|ds| - 1];
      Templates(ds[..|ds| - 1], classes)
      + match last
        case Space(decls, _) => Templates(decls, classes)
        case Class(n, ps, _) => if classes && ps != [] then map[n := last] else map[]
        case Func(n, ps, _) => if !classes && ps != [] then map[n := last] else map[]
        case Other => map[]
  }

  /** The template that a key instantiates: classes first, and only with the right number of
      arguments. */
  function Lookup(p: Prog, k: Key): (r: Option<Decl>)
    ensures r.Some? ==> IsTemplate(r.value) && |r.value.params| == |k.args|
  {
    var classes, funcs := Templates(p.decls, true), Templates(p.decls, false);
    if k.generic in classes then
      if |classes[k.generic].params| == |k.args| then Some(classes[k.generic]) else None
    else if k.generic in funcs && |funcs[k.generic].params| == |k.args| then Some(funcs[k.generic])
    else None
  }

  function Bind(params: seq<string>, args: seq<Te>): Subst
    requires |params| == |args|
  {
    if params == [] then map[]
    else Bind(params[..|params| - 1], args[..|args| - 1])[params[|params| - 1] := args[|args| - 1]]
  }

  /** The copy of the template with its arguments put in. */
  function Copy(p: Prog, k: Key): Decl
    requires Lookup(p, k).Some?
  {
    var t := Lookup(p, k).value;
    t.(name := k.mangled, params := [], body := Clone(t.body, Bind(t.params, k.args)))
  }

  function CopyKeys(p: Prog, k: Key): seq<Key>
    requires Lookup(p, k).Some?
  {
    DeclKeys(Copy(p, k))
  }

  function Build(p: Prog, k: Key): Decl
    requires Lookup(p, k).Some?
  {
    FixDecl(Copy(p, k))
  }

  // ----- the worklist ------------------------------------------------------------------------

  /** The instantiations never leave K. */
  predicate Closed(p: Prog, K: set<Key>) {
    && (forall k :: k in FirstKeys(p) ==> k in K)
    && forall k, k' :: k in K && Lookup(p, k).Some? && k' in CopyKeys(p, k) ==> k' in K
  }

  function Names(K: set<Key>): set<string> { set k | k in K :: k.mangled }

  function Pushes(keys: seq<Key>, done: set<string>): (r: seq<Key>)
    ensures forall k :: k in r <==> k in keys && k.mangled !in done
  {
    if keys == [] then []
    else Pushes(keys[..|keys| - 1], done)
         + (if keys[|keys| - 1].mangled in done then [] else [keys[|keys| - 1]])
  }

  predicate Inside(keys: seq<Key>, K: set<Key>) { forall k :: k in keys ==> k in K }

  /** The keys that are instantiated, in order; the last pending one is taken first. */
  function Work(p: Prog, ghost K: set<Key>, done: set<string>, pending: seq<Key>): seq<Key>
    requires Closed(p, K) && Inside(pending, K)
    decreases |Names(K) - done|, |pending|
  {
    if pending == [] then []
    else
      var k, rest := pending[|pending| - 1], pending[..|pending| - 1];
      if k.mangled in done then Work(p, K, done, rest)
      else
        var done1 := done + {k.mangled};
        assert k in K && Fewer(K, k, done);
        if Lookup(p, k).Some? then [k] + Work(p, K, done1, rest + Pushes(CopyKeys(p, k), done1))
        else Work(p, K, done1, rest)
  }

  /** Marking a name of K makes what is left of K smaller. */
  predicate Fewer(K: set<Key>, k: Key, done: set<string>)
    requires k in K && k.mangled !in done
    ensures Fewer(K, k, done) && |Names(K) - (done + {k.mangled})| < |Names(K) - done|
  {
    assert k.mangled in Names(K) - done;
    assert Names(K) - (done + {k.mangled}) == Names(K) - done - {k.mangled};
    true
  }

  /** Keys of one name agree on whether they can be instantiated. */
  predicate Unambiguous(p: Prog, K: set<Key>) {
    forall k, k' :: k in K && k' in K && k.mangled == k'.mangled ==>
      (Lookup(p, k).Some? <==> Lookup(p, k').Some?)
  }

  predicate Named(log: seq<Key>, name: string) { exists i :: 0 <= i < |log| && log[i].mangled == name }

  predicate Covered(p: Prog, log: seq<Key>, done: set<string>, keys: seq<Key>) {
    forall k :: k in keys && Lookup(p, k).Some? && k.mangled !in done ==> Named(log, k.mangled)
  }

  /** Every name is instantiated at most once, and only from a template with the right arity. */
  predicate Sound(p: Prog, K: set<Key>, log: seq<Key>, done: set<string>) {
    && (forall i :: 0 <= i < |log| ==> log[i] in K && Lookup(p, log[i]).Some? && log[i].mangled !in done)
    && (forall i, j :: 0 <= i < j < |log| ==> log[i].mangled != log[j].mangled)
  }

  lemma {:induction false} WorkIsSound(p: Prog, K: set<Key>, done: set<string>, pending: seq<Key>)
    requires Closed(p, K) && Inside(pending, K)
    ensures Sound(p, K, Work(p, K, done, pending), done)
    decreases |Names(K) - done|, |pending|
  {
    hide Lookup, CopyKeys, Pushes;
    if pending != [] {
      var k, rest := pending[|pending| - 1], pending[..|pending| - 1];
      var done1 := done + {k.mangled};
      if k.mangled in done {
        WorkIsSound(p, K, done, rest);
      } else {
        assert Fewer(K, k, done);
        var next := if Lookup(p, k).Some? then rest + Pushes(CopyKeys(p, k), done1) else rest;
        WorkIsSound(p, K, done1, next);
      }
    }
  }

  /** Nothing that is needed is forgotten. */
  lemma {:induction false} WorkCovers(p: Prog, K: set<Key>, done: set<string>, pending: seq<Key>)
    requires Closed(p, K) && Inside(pending, K) && Unambiguous(p, K)
    ensures var log := Work(p, K, done, pending);
            && Covered(p, log, done, pending)
            && forall i :: 0 <= i < |log| && Lookup(p, log[i]).Some? ==>
                 Covered(p, log, done, CopyKeys(p, log[i]))
    decreases |Names(K) - done|, |pending|
  {
    hide Lookup, CopyKeys;
    if pending != [] {
      var k, rest := pending[|pending| - 1], pending[..|pending| - 1];
      assert pending == rest + [k];
      if k.mangled in done {
        WorkCovers(p, K, done, rest);
      } else {
        assert Fewer(K, k, done);
        var done1 := done + {k.mangled};
        var next := if Lookup(p, k).Some? then rest + Pushes(CopyKeys(p, k), done1) else rest;
        WorkCovers(p, K, done1, next);
        var tail := Work(p, K, done1, next);
        var log := Work(p, K, done, pending);
        assert log == if Lookup(p, k).Some? then [k] + tail else tail;
        CoveredLonger(p, K, k, log, tail, done, rest);
        if Lookup(p, k).Some? {
          CoveredLonger(p, K, k, log, tail, done, CopyKeys(p, k));
        }
        forall i | 0 <= i < |log| && Lookup(p, log[i]).Some?
          ensures Covered(p, log, done, CopyKeys(p, log[i]))
        {
          if !(Lookup(p, k).Some? && i == 0) {
            var j := if Lookup(p, k).Some? then i - 1 else i;
            assert log[i] == tail[j];
            WorkIsSound(p, K, done1, next);
            CoveredLonger(p, K, k, log, tail, done, CopyKeys(p, tail[j]));
          }
        }
        assert Lookup(p, k).Some? ==> Named(log, k.mangled) by {
          if Lookup(p, k).Some? { assert log[0].mangled == k.mangled; }
        }
      }
    }
  }

  lemma CoveredLonger(p: Prog, K: set<Key>, k: Key, log: seq<Key>, tail: seq<Key>, done: set<string>,
                      keys: seq<Key>)
    requires k in K && Unambiguous(p, K) && Inside(keys, K)
    requires log == if Lookup(p, k).Some? then [k] + tail else tail
    requires forall x :: x in keys && Lookup(p, x).Some? && x.mangled !in done + {k.mangled} ==>
               Named(tail, x.mangled)
    ensures Covered(p, log, done, keys)
  {
    hide Lookup;
    forall x | x in keys && Lookup(p, x).Some? && x.mangled !in done ensures Named(log, x.mangled) {
      if x.mangled == k.mangled {
        assert log[0].mangled == k.mangled;
      } else {
        assert Named(tail, x.mangled);
        var i :| 0 <= i < |tail| && tail[i].mangled == x.mangled;
        assert log[if Lookup(p, k).Some? then i + 1 else i].mangled == x.mangled;
      }
    }
  }
}
