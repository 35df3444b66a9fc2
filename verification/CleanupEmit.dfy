/** What holds of the emitter at every moment: variables have slots of their own, registered in the
    scope that binds them, and statements leave the scopes around them as they were. */
module CleanupEmit {
  import opened Common
  import opened Cleanup

  // ----- unwinding ---------------------------------------------------------------------------

  /** Releases are for list slots and destructors for object slots. */
  predicate Kinds(es: seq<Entry>) {
    forall i :: 0 <= i < |es| && !es[i].Deferred? ==> es[i] == EntryOf(es[i].slot)
  }

  lemma {:induction false} UnwindAppend(a: seq<Entry>, b: seq<Entry>)
    ensures Unwind(a + b) == Unwind(b) + Unwind(a)
    decreases |b|
  {
    if b == [] {
      assert a + b == a;
    } else {
      assert (a + b)[..|a + b| - 1] == a + b[..|b| - 1];
      UnwindAppend(a, b[..|b| - 1]);
    }
  }

  lemma {:induction false} UnwindAllFlat(scopes: seq<seq<Entry>>)
    ensures UnwindAll(scopes) == Unwind(Flatten(scopes))
  {
    if scopes != [] {
      UnwindAllFlat(scopes[..|scopes| - 1]);
      UnwindAppend(Flatten(scopes[..|scopes| - 1]), scopes[|scopes| - 1]);
    }
  }

  // ----- the emitter -------------------------------------------------------------------------

  predicate EnvOk(em: Emitter) {
    && |em.env| == |em.scopes|
    && forall i, x :: 0 <= i < |em.env| && x in em.env[i] ==> EntryOf(em.env[i][x]) in em.scopes[i]
  }

  /** No two variables share a slot. */
  predicate OwnSlots(env: seq<map<string, Slot>>) {
    forall i, x, j, y :: 0 <= i < |env| && 0 <= j < |env| && x in env[i] && y in env[j] && env[i][x] == env[j][y] ==>
      i == j && x == y
  }

  function Number(e: Entry): nat { if e.Deferred? then e.n else e.slot.n }

  /** Numbers are handed out in increasing order. */
  predicate SlotsBelow(es: seq<Entry>, n: nat) {
    Kinds(es) && forall i :: 0 <= i < |es| ==> Number(es[i]) < n
  }

  predicate EmOk(em: Emitter) {
    && EnvOk(em) && OwnSlots(em.env)
    && (forall i :: 0 <= i < |em.scopes| ==> SlotsBelow(em.scopes[i], em.next))
    && (forall i :: 0 <= i < |em.loops| ==> em.loops[i] <= |em.scopes|)
  }

  /** Inside a block: the loops around began before the innermost scope. */
  predicate Inside(em: Emitter) {
    EmOk(em) && em.scopes != [] && forall i :: 0 <= i < |em.loops| ==> em.loops[i] < |em.scopes|
  }

  /** What statements do to the emitter: the innermost scope grows. */
  predicate Later(em: Emitter, em1: Emitter) {
    && |em1.scopes| == |em.scopes| > 0
    && em1.scopes[..|em.scopes| - 1] == em.scopes[..|em.scopes| - 1]
    && |em1.env| == |em.env| > 0
    && em1.env[..|em.env| - 1] == em.env[..|em.env| - 1]
    && em1.loops == em.loops && em.next <= em1.next
  }

  lemma {:induction false} LookupOk(em: Emitter, x: string)
    requires EnvOk(em) && Lookup(em.env, x).Some?
    ensures EntryOf(Lookup(em.env, x).value) in Flatten(em.scopes)
    decreases |em.env|
  {
    var n := |em.env| - 1;
    if x !in em.env[n] {
      LookupOk(em.(env := em.env[..n], scopes := em.scopes[..n]), x);
    }
  }

  lemma {:induction false} FlatBelow(scopes: seq<seq<Entry>>, n: nat)
    requires forall i :: 0 <= i < |scopes| ==> SlotsBelow(scopes[i], n)
    ensures SlotsBelow(Flatten(scopes), n)
  {
    if scopes != [] {
      FlatBelow(scopes[..|scopes| - 1], n);
      SlotsBelowAppend(Flatten(scopes[..|scopes| - 1]), scopes[|scopes| - 1], n);
    }
  }

  lemma SlotsBelowAppend(a: seq<Entry>, b: seq<Entry>, n: nat)
    requires SlotsBelow(a, n) && SlotsBelow(b, n)
    ensures SlotsBelow(a + b, n)
  {}

  lemma RegisterLater(em: Emitter, e: Entry)
    requires Inside(em) && Number(e) < em.next && Kinds([e])
    ensures Inside(Register(em, e)) && Later(em, Register(em, e))
    ensures Flatten(Register(em, e).scopes) == Flatten(em.scopes) + [e]
  {
    var em1, n := Register(em, e), |em.scopes| - 1;
    assert em1.scopes[..n] == em.scopes[..n];
    assert Flatten(em1.scopes) == Flatten(em.scopes[..n]) + (em.scopes[n] + [e]);
    assert Flatten(em1.scopes) == Flatten(em.scopes) + [e];
    SlotsBelowAppend(em.scopes[n], [e], em.next);
  }

  lemma DefineLater(em: Emitter, x: string, obj: bool)
    requires Inside(em)
    ensures var em1 := Define(em, x, obj);
            && Inside(em1) && Later(em, em1)
            && Flatten(em1.scopes) == Flatten(em.scopes) + [EntryOf(Slot(em.next, obj))]
  {
    hide SlotsBelow, Flatten, EnvOk, OwnSlots;
    var s := Slot(em.next, obj);
    var em0 := em.(next := em.next + 1);
    NewSlot(em, s);
    MoreSlots(em, em.next + 1);
    RegisterLater(em0, EntryOf(s));
    RegisterLast(em0, EntryOf(s));
    BindLater(em0, Register(em0, EntryOf(s)), x, s);
  }

  lemma RegisterLast(em: Emitter, e: Entry)
    requires em.scopes != []
    ensures var em1 := Register(em, e);
            em1.scopes != [] && e in em1.scopes[|em1.scopes| - 1] && em1.env == em.env
  {
    var top := em.scopes[|em.scopes| - 1];
    assert (top + [e])[|top|] == e;
  }

  predicate Unused(env: seq<map<string, Slot>>, s: Slot) {
    forall i, y :: 0 <= i < |env| && y in env[i] ==> env[i][y] != s
  }

  lemma NewSlot(em: Emitter, s: Slot)
    requires Inside(em) && s.n >= em.next
    ensures Unused(em.env, s)
  {
    forall i, y | 0 <= i < |em.env| && y in em.env[i] ensures em.env[i][y] != s {
      assert SlotsBelow(em.scopes[i], em.next);
      assert EntryOf(em.env[i][y]) in em.scopes[i];
    }
  }

  /** Binding a name to a registered slot. */
  lemma BindLater(em: Emitter, em1: Emitter, x: string, s: Slot)
    requires Inside(em1) && Later(em, em1) && em1.env == em.env && Unused(em1.env, s)
    requires EntryOf(s) in em1.scopes[|em1.scopes| - 1]
    ensures var n := |em1.env| - 1;
            var em2 := em1.(env := em1.env[n := em1.env[n][x := s]]);
            Inside(em2) && Later(em, em2)
  {
    hide SlotsBelow, EntryOf;
    var n := |em1.env| - 1;
    var env2 := em1.env[n := em1.env[n][x := s]];
    assert env2[..n] == em1.env[..n];
    forall i, y | 0 <= i < |env2| && y in env2[i] ensures EntryOf(env2[i][y]) in em1.scopes[i] {
      if i == n && y == x { assert env2[i][y] == s; } else { assert y in em1.env[i]; }
    }
  }

  lemma LaterTrans(a: Emitter, b: Emitter, c: Emitter)
    requires Later(a, b) && Later(b, c)
    ensures Later(a, c)
  {}

  lemma PushInside(em: Emitter)
    requires EmOk(em)
    ensures Inside(Push(em)) && Flatten(Push(em).scopes) == Flatten(em.scopes)
  {
    assert Push(em).scopes[..|em.scopes|] == em.scopes;
  }

  lemma PopBack(em: Emitter, em1: Emitter)
    requires EmOk(em) && Inside(em1) && Later(Push(em), em1)
    ensures Pop(em1) == em.(next := em1.next) && EmOk(Pop(em1))
  {
    assert Push(em).scopes[..|em.scopes|] == em.scopes && Push(em).env[..|em.env|] == em.env;
    forall i | 0 <= i < |em.scopes| ensures SlotsBelow(em.scopes[i], em1.next) {
      assert SlotsBelow(em.scopes[i], em.next);
    }
  }

  lemma {:induction false} StmtsLater(em: Emitter, ss: seq<Stmt>)
    requires Inside(em)
    ensures Inside(GenStmts(em, ss).em) && Later(em, GenStmts(em, ss).em)
    decreases ss, 0
  {
    hide GenStmt, Inside, Later;
    if ss == [] {
      LaterSelf(em);
    } else {
      StmtLater(em, ss[0]);
      var a := GenStmt(em, ss[0]);
      if a.live {
        StmtsLater(a.em, ss[1..]);
        LaterTrans(em, a.em, GenStmts(a.em, ss[1..]).em);
      }
    }
  }

  lemma LaterSelf(em: Emitter)
    requires Inside(em)
    ensures Later(em, em)
  {}

  /** A block gives the scopes back as they were. */
  lemma {:induction false} BlockBack(em: Emitter, ss: seq<Stmt>)
    requires EmOk(em)
    ensures GenBlock(em, ss).em == em.(next := GenBlock(em, ss).em.next)
    ensures EmOk(GenBlock(em, ss).em) && em.next <= GenBlock(em, ss).em.next
    decreases ss, 1
  {
    hide GenStmts, EnvOk, SlotsBelow;
    PushInside(em);
    StmtsLater(Push(em), ss);
    PopBack(em, GenStmts(Push(em), ss).em);
  }

  lemma MoreSlots(em: Emitter, n: nat)
    requires Inside(em) && em.next <= n
    ensures Inside(em.(next := n)) && Later(em, em.(next := n))
  {
    forall i | 0 <= i < |em.scopes| ensures SlotsBelow(em.scopes[i], n) {
      assert SlotsBelow(em.scopes[i], em.next);
    }
  }

  lemma EnterLoop(em: Emitter)
    requires Inside(em)
    ensures EmOk(em.(loops := em.loops + [|em.scopes|]))
  {}

  lemma DeferLater(em: Emitter, id: nat)
    requires Inside(em)
    ensures var e, em1 := Deferred(id, em.next), GenStmt(em, Defer(id)).em;
            && Inside(em1) && Later(em, em1)
            && Flatten(em1.scopes) == Flatten(em.scopes) + [e]
            && GenStmt(em, Defer(id)).code == [Note(e)]
  {
    hide EnvOk, OwnSlots, SlotsBelow, Flatten;
    var e, em0 := Deferred(id, em.next), em.(next := em.next + 1);
    MoreSlots(em, em.next + 1);
    RegisterLater(em0, e);
    assert GenStmt(em, Defer(id)).em == Register(em0, e);
    LaterTrans(em, em0, Register(em0, e));
  }

  lemma {:induction false} StmtLater(em: Emitter, s: Stmt)
    requires Inside(em)
    ensures Inside(GenStmt(em, s).em) && Later(em, GenStmt(em, s).em)
    decreases s, 1
  {
    hide GenBlock, Later, Define, Register, EnvOk, SlotsBelow;
    LaterSelf(em);
    match s {
      case DeclList(x, init) =>
        if SourceOf(em, init).Some? { DefineLater(em, x, false); }
      case DeclObj(x, isNew) => DefineLater(em, x, true);
      case Defer(id) => DeferLater(em, id);
      case Block(body) =>
        BlockBack(em, body);
        MoreSlots(em, GenBlock(em, body).em.next);
      case If(t, f) =>
        BlockBack(em, t);
        BlockBack(GenBlock(em, t).em, f);
        MoreSlots(em, GenStmt(em, s).em.next);
      case Loop(body) =>
        EnterLoop(em);
        BlockBack(em.(loops := em.loops + [|em.scopes|]), body);
        MoreSlots(em, GenStmt(em, s).em.next);
      case _ =>
    }
  }
}
