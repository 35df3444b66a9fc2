/** Generic type expressions: mangling, substitution and resolving. */
module Generics {

  /** A type expression.  A function type has the name __fn, its parameters and, as text, its result. */
  datatype Te = Te(name: string, isConst: bool, fnParams: seq<Te>, fnRet: string, typeArgs: seq<Te>)

  function Plain(name: string): Te { Te(name, false, [], "", []) }

  // ----- mangling ----------------------------------------------------------------------------

  function Mangle(name: string, args: seq<Te>): string
    decreases args
  {
    if args == [] then name
    else Mangle(name, args[..|args| - 1]) + "__" + Piece(args[|args| - 1])
  }

  /** How an argument shows in a mangled name. */
  function Piece(a: Te): string
    decreases a
  {
    if a.typeArgs == [] then a.name else Mangle(a.name, a.typeArgs)
  }

  // ----- substitution ------------------------------------------------------------------------

  type Subst = map<string, Te>

  function Replace(te: Te, s: Subst): Te
    decreases te
  {
    if te.name != "__fn" && te.typeArgs == [] && te.name in s then
      var r := s[te.name];
      r.(isConst := r.isConst || te.isConst)
    else te.(fnParams := ReplaceAll(te.fnParams, s), typeArgs := ReplaceAll(te.typeArgs, s))
  }

  function ReplaceAll(tes: seq<Te>, s: Subst): (r: seq<Te>)
    ensures |r| == |tes|
    decreases tes
  {
    if tes == [] then [] else ReplaceAll(tes[..|tes| - 1], s) + [Replace(tes[|tes| - 1], s)]
  }

  // ----- resolving ---------------------------------------------------------------------------

  /** An instantiation that is needed: the template, its arguments, and the name it will have. */
  datatype Key = Key(generic: string, args: seq<Te>, mangled: string)

  /** The type after its arguments have been resolved and mangled into its name. */
  function Resolve(te: Te): (r: Te)
    decreases te
  {
    var args, params := ResolveAll(te.typeArgs), ResolveAll(te.fnParams);
    if args == [] then te.(fnParams := params)
    else te.(name := Mangle(te.name, args), fnParams := params, typeArgs := [])
  }

  function ResolveAll(tes: seq<Te>): (r: seq<Te>)
    ensures |r| == |tes|
    decreases tes
  {
    if tes == [] then [] else ResolveAll(tes[..|tes| - 1]) + [Resolve(tes[|tes| - 1])]
  }

  /** The instantiations met on the way, innermost first. */
  function Keys(te: Te): seq<Key>
    decreases te
  {
    var args := ResolveAll(te.typeArgs);
    KeysAll(te.typeArgs) + KeysAll(te.fnParams)
    + (if args == [] then [] else [Key(te.name, args, Mangle(te.name, args))])
  }

  function KeysAll(tes: seq<Te>): seq<Key>
    decreases tes
  {
    if tes == [] then [] else KeysAll(tes[..|tes| - 1]) + Keys(tes[|tes| - 1])
  }

  // ----- consistency -------------------------------------------------------------------------

  /** No type argument anywhere. */
  predicate Resolved(te: Te)
    decreases te
  {
    te.typeArgs == [] && AllResolved(te.fnParams)
  }

  predicate AllResolved(tes: seq<Te>)
    decreases tes
  {
    tes == [] || (AllResolved(tes[..|tes| - 1]) && Resolved(tes[|tes| - 1]))
  }

  lemma {:induction false} ResolveIsResolved(te: Te)
    ensures Resolved(Resolve(te))
    decreases te
  {
    ResolveAllIsResolved(te.fnParams);
  }

  lemma {:induction false} ResolveAllIsResolved(tes: seq<Te>)
    ensures AllResolved(ResolveAll(tes))
    decreases tes
  {
    if tes != [] {
      ResolveAllIsResolved(tes[..|tes| - 1]);
      ResolveIsResolved(tes[|tes| - 1]);
      assert ResolveAll(tes)[..|tes| - 1] == ResolveAll(tes[..|tes| - 1]);
    }
  }

  lemma {:induction false} ResolvedStays(te: Te)
    requires Resolved(te)
    ensures Resolve(te) == te && Keys(te) == []
    decreases te
  {
    AllResolvedStay(te.fnParams);
  }

  lemma {:induction false} AllResolvedStay(tes: seq<Te>)
    requires AllResolved(tes)
    ensures ResolveAll(tes) == tes && KeysAll(tes) == []
    decreases tes
  {
    if tes != [] {
      AllResolvedStay(tes[..|tes| - 1]);
      ResolvedStays(tes[|tes| - 1]);
    }
  }

  /** Resolving bottom-up gives the name that mangling the whole tree gives. */
  lemma {:induction false} ResolvedName(te: Te)
    ensures Resolve(te).name == Piece(te)
    decreases te
  {
    MangleResolved(te.name, te.typeArgs);
  }

  lemma {:induction false} MangleResolved(name: string, args: seq<Te>)
    ensures Mangle(name, ResolveAll(args)) == Mangle(name, args)
    decreases args
  {
    if args != [] {
      var front, last := args[..|args| - 1], args[|args| - 1];
      MangleResolved(name, front);
      ResolvedName(last);
      assert ResolveAll(args)[..|args| - 1] == ResolveAll(front);
    }
  }

  function ResolveSubst(s: Subst): Subst { map x | x in s :: Resolve(s[x]) }

  /** Substituting resolved arguments and then resolving is substituting the originals and then
      resolving. */
  lemma {:induction false} SubstResolves(te: Te, s: Subst)
    ensures Resolve(Replace(te, ResolveSubst(s))) == Resolve(Replace(te, s))
    decreases te
  {
    if te.name != "__fn" && te.typeArgs == [] && te.name in s {
      var r := s[te.name];
      ResolveIsResolved(r);
      ResolvedStays(Resolve(r));
    } else {
      SubstAllResolve(te.fnParams, s);
      SubstAllResolve(te.typeArgs, s);
    }
  }

  lemma {:induction false} SubstAllResolve(tes: seq<Te>, s: Subst)
    ensures ResolveAll(ReplaceAll(tes, ResolveSubst(s))) == ResolveAll(ReplaceAll(tes, s))
    decreases tes
  {
    if tes != [] {
      var front, last, s' := tes[..|tes| - 1], tes[|tes| - 1], ResolveSubst(s);
      SubstAllResolve(front, s);
      SubstResolves(last, s);
      assert ReplaceAll(tes, s)[..|tes| - 1] == ReplaceAll(front, s);
      assert ReplaceAll(tes, s')[..|tes| - 1] == ReplaceAll(front, s');
    }
  }
}
