/** The worklist turn by turn, for programs on which it may not end: it ends if and only if the names that
    are ever pending are finitely many. */
module GenericsTurns {
  import opened Common
  import opened Generics
  import opened GenericsExpand
  import opened GenericsMain

  datatype Stage = Stage(done: set<string>, pending: seq<Key>)

  /** One turn of the loop; it stays where it is when nothing is pending. */
  function Turn(p: Prog, s: Stage): Stage {
    if s.pending == [] then s
    else
      var k, rest := s.pending[|s.pending| - 1], s.pending[..|s.pending| - 1];
      if k.mangled in s.done then Stage(s.done, rest)
      else
        var done := s.done + {k.mangled};
        Stage(done, if Lookup(p, k).Some? then rest + Pushes(CopyKeys(p, k), done) else rest)
  }

  function After(p: Prog, n: nat): Stage {
    if n == 0 then Stage({}, Pushes(FirstKeys(p), {})) else Turn(p, After(p, n - 1))
  }

  function Pending(s: Stage): set<string> { set k | k in s.pending :: k.mangled }

  ghost predicate Ends(p: Prog) { exists n: nat :: After(p, n).pending == [] }

  ghost predicate NamesWithin(p: Prog, names: set<string>) { forall n: nat :: Pending(After(p, n)) <= names }

  // ----- when it ends ------------------------------------------------------------------------

  function NamesUpTo(p: Prog, n: nat): set<string> {
    Pending(After(p, n)) + (if n == 0 then {} else NamesUpTo(p, n - 1))
  }

  lemma {:induction false} UpToHas(p: Prog, m: nat, n: nat)
    requires m <= n
    ensures Pending(After(p, m)) <= NamesUpTo(p, n)
    decreases n
  {
    hide After, Pending;
    if m < n { UpToHas(p, m, n - 1); }
  }

  lemma {:induction false} StaysEmpty(p: Prog, m: nat, n: nat)
    requires m <= n && After(p, m).pending == []
    ensures After(p, n).pending == []
    decreases n
  {
    hide Turn, FirstKeys;
    if m < n {
      StaysEmpty(p, m, n - 1);
      EmptyTurn(p, After(p, n - 1));
    }
  }

  lemma EmptyTurn(p: Prog, s: Stage)
    requires s.pending == []
    ensures Turn(p, s) == s
  {}

  /** A turn marks a new name or takes one key away. */
  lemma TurnGoesOn(p: Prog, s: Stage, names: set<string>)
    requires s.pending != [] && Pending(s) <= names
    ensures var s1 := Turn(p, s);
            |names - s1.done| < |names - s.done| || (s1.done == s.done && |s1.pending| < |s.pending|)
  {
    hide Lookup, CopyKeys;
    var k := s.pending[|s.pending| - 1];
    assert k in s.pending && k.mangled in Pending(s);
    if k.mangled !in s.done {
      assert names - (s.done + {k.mangled}) == names - s.done - {k.mangled};
      assert k.mangled in names - s.done;
    }
  }

  lemma {:induction false} RunOut(p: Prog, names: set<string>, n: nat) returns (m: nat)
    requires NamesWithin(p, names)
    ensures After(p, m).pending == []
    decreases |names - After(p, n).done|, |After(p, n).pending|
  {
    hide Turn, Pending;
    if After(p, n).pending == [] {
      m := n;
    } else {
      assert Pending(After(p, n)) <= names;
      TurnGoesOn(p, After(p, n), names);
      m := RunOut(p, names, n + 1);
    }
  }

  /** Main result: the worklist ends if and only if the names that are ever pending are finitely many. */
  lemma EndsIffNamesAreFinite(p: Prog)
    ensures Ends(p) <==> exists names :: NamesWithin(p, names)
  {
    hide After, Pending;
    if Ends(p) {
      var m: nat :| After(p, m).pending == [];
      forall n: nat ensures Pending(After(p, n)) <= NamesUpTo(p, m) {
        if n <= m {
          UpToHas(p, n, m);
        } else {
          StaysEmpty(p, m, n);
          NothingPending(After(p, n));
        }
      }
      assert NamesWithin(p, NamesUpTo(p, m));
    }
    if exists names :: NamesWithin(p, names) {
      var names :| NamesWithin(p, names);
      var m := RunOut(p, names, 0);
    }
  }

  lemma NothingPending(s: Stage)
    requires s.pending == []
    ensures Pending(s) == {}
  {}

  lemma {:induction false} StaysInside(p: Prog, K: set<Key>, n: nat)
    requires Closed(p, K)
    ensures Inside(After(p, n).pending, K)
  {
    hide Closed, Lookup, CopyKeys, FirstKeys, Pushes, Work, Inside;
    if n == 0 {
      FirstInside(p, K);
    } else {
      StaysInside(p, K, n - 1);
      var s := After(p, n - 1);
      if s.pending != [] { WorkTurn(p, K, s.done, s.pending); }
    }
  }

  /** It ends whenever the instantiations stay inside a finite closed set. */
  lemma EndsWhenClosed(p: Prog, K: set<Key>)
    requires Closed(p, K)
    ensures Ends(p)
  {
    forall n: nat ensures Pending(After(p, n)) <= Names(K) { StaysInside(p, K, n); }
    hide After, Pending, Closed, Names;
    assert NamesWithin(p, Names(K));
    EndsIffNamesAreFinite(p);
  }
}
