/** Every run of the emitted code keeps the counts and the order of cleanups, from any statement on and
    wherever it is cut off. */
module CleanupSim {
  import opened Common
  import opened Cleanup
  import opened CleanupRun
  import opened CleanupEmit
  import opened CleanupProof
  import opened CleanupTrace

  // ----- the invariant -----------------------------------------------------------------------

  /** The record says rightly which variables hold something. */
  ghost predicate Linked(st: State) {
    forall s :: s in st.slots <==> EntryOf(s) in Pending(st.trace)
  }

  ghost predicate Good(st: State, es: seq<Entry>) {
    Sound(st) && Linked(st) && Track(st.trace, es) && Self(1) !in st.trace
  }

  /** Of a run that is cut off at any point. */
  ghost predicate Fine(st: State) {
    Sound(st) && TraceOk(st.trace) && Self(1) !in st.trace
  }

  ghost predicate RunOk(r: Run, es: seq<Entry>, inLoop: bool, around: seq<Entry>) {
    match r.o
    case Normal => Good(r.st, es) && r.st.result == None
    case Exited => inLoop && Good(r.st, around) && r.st.result == None
    case Continued => inLoop && Good(r.st, around) && r.st.result == None
    case Returned => Good(r.st, [])
    case Stopped => Fine(r.st)
    case Faulted => Self(1) in r.st.trace
  }

  lemma GoodFine(st: State, es: seq<Entry>)
    requires Good(st, es)
    ensures Fine(st) && !st.fault
  {}

  /** Nothing has been registered between two moments. */
  ghost predicate SameSince(t: seq<Event>, t1: seq<Event>) {
    forall e :: Since(t1, e) == Since(t, e)
  }

  lemma EntryOfOne()
    ensures forall s, s1 :: EntryOf(s) == EntryOf(s1) ==> s == s1
    ensures forall s :: !EntryOf(s).Deferred? && EntryOf(s).slot == s
  {}

  lemma CleanedGood(st: State, es: seq<Entry>, e: Entry)
    requires Good(st, es + [e]) && (!e.Deferred? ==> e == EntryOf(e.slot))
    ensures Good(Cleaned(st, e), es) && Cleaned(st, e).result == st.result
    ensures SameSince(st.trace, Cleaned(st, e).trace)
  {
    hide Balanced, Typed, Track, Pending, Since, EntryOf;
    EntryOfOne();
    if e.Deferred? || e.slot in st.slots {
      var st1 := if e.Deferred? then st else Clear(st, e.slot);
      if !e.Deferred? { ClearBalanced(st, e.slot, One(st.result)); }
      SoundLog(st1, Ran(e));
      TrackRan(st.trace, es, e);
      PendingAppend(st.trace, Ran(e));
      SinceSame(st.trace, Ran(e), es);
    } else {
      TrackSkipped(st.trace, es, e);
    }
  }

  /** A run of cleanups ends well or is cut off. */
  ghost predicate CleansUp(r: Run, st: State, base: seq<Entry>) {
    match r.o
    case Normal => Good(r.st, base) && r.st.result == st.result && SameSince(st.trace, r.st.trace)
    case Stopped => Fine(r.st)
    case _ => false
  }

  lemma {:induction false} UnwindGood(st: State, base: seq<Entry>, es: seq<Entry>, oracle: seq<nat>)
    requires Good(st, base + es) && Kinds(es)
    ensures CleansUp(Exec(Unwind(es), st, oracle), st, base)
    decreases |es|
  {
    hide Good, Fine, Cleaned, Since, EntryOf;
    GoodFine(st, base + es);
    if es == [] {
      assert base + es == base;
    } else {
      var e, rest := es[|es| - 1], es[..|es| - 1];
      assert base + es == base + rest + [e];
      CleanedGood(st, base + rest, e);
      GoodFine(Cleaned(st, e), base + rest);
      assert Kinds(rest) by { assert forall i :: 0 <= i < |rest| ==> rest[i] == es[i]; }
      if oracle != [] { UnwindGood(Cleaned(st, e), base, rest, oracle[1..]); }
    }
  }

  // ----- runs --------------------------------------------------------------------------------

  lemma ExecOne(i: Instr, st: State, oracle: seq<nat>)
    ensures Exec([i], st, oracle) == ExecInstr(i, st, oracle)
  {
    var r := ExecInstr(i, st, oracle);
    assert Exec([i][1..], r.st, r.oracle) == Run(Normal, r.st, r.oracle);
  }

  lemma ExecTwo(i: Instr, j: Instr, st: State, oracle: seq<nat>)
    ensures var r := ExecInstr(i, st, oracle);
            Exec([i, j], st, oracle) == if r.o == Normal then ExecInstr(j, r.st, r.oracle) else r
  {
    hide ExecInstr;
    var r := ExecInstr(i, st, oracle);
    assert [i, j][1..] == [j] && [i, j][0] == i;
    if r.o == Normal { ExecOne(j, r.st, r.oracle); }
  }

  /** Control passes the registration of e, which may hold something already. */
  lemma RegisteredGood(st: State, es: seq<Entry>, e: Entry)
    requires Sound(st) && Track(st.trace, es) && Self(1) !in st.trace && e !in es
    requires !e.Deferred? ==> e == EntryOf(e.slot)
    requires forall s :: EntryOf(s) != e ==> (s in st.slots <==> EntryOf(s) in Pending(st.trace))
    ensures Good(Noticed(st, e), es + [e])
    ensures Noticed(st, e).result == st.result
  {
    hide Balanced, Typed, Track, Pending, EntryOf, TraceOk, Count;
    EntryOfOne();
    var st1, t1 := Log(st, Registered(e)), st.trace + [Registered(e)];
    SoundLog(st, Registered(e));
    TrackRegistered(st.trace, es, e);
    PendingAppend(st.trace, Registered(e));
    assert (es + [e])[|es|] == e;
    assert e !in Pending(st.trace) by { TrackPending(st.trace, es); }
    if !e.Deferred? && e.slot in st.slots {
      assert e.Destroy? ==> Count(t1, Filled(e)) < Count(t1, Registered(e)) by {
        if e.Destroy? { RoomToFill(st.trace, es, e); }
      }
      SoundLog(st1, Filled(e));
      TrackOther(t1, es + [e], Filled(e));
      PendingAppend(t1, Filled(e));
    }
  }

  lemma TrackPending(t: seq<Event>, es: seq<Entry>)
    requires Track(t, es)
    ensures forall e :: e in Pending(t) ==> e in es
  {}

  lemma RoomToFill(t: seq<Event>, es: seq<Entry>, e: Entry)
    requires Track(t, es) && e.Destroy?
    ensures var t1 := t + [Registered(e)]; Count(t1, Filled(e)) < Count(t1, Registered(e))
  {
    CountAppend(t, Registered(e));
  }

  /** A fresh slot holds nothing yet, even in a later round of a loop. */
  lemma FreshSlot(em: Emitter, st: State, obj: bool)
    requires Inside(em) && Good(st, Flatten(em.scopes))
    ensures Slot(em.next, obj) !in st.slots && EntryOf(Slot(em.next, obj)) !in Flatten(em.scopes)
  {
    hide Sound;
    FlatBelow(em.scopes, em.next);
    TrackPending(st.trace, Flatten(em.scopes));
  }

  lemma SimDecl(em: Emitter, x: string, src: Source, obj: bool, st: State, oracle: seq<nat>,
                inLoop: bool, around: seq<Entry>)
    requires Inside(em) && Good(st, Flatten(em.scopes)) && st.result == None && SourceFits(src, obj)
    ensures var a := GenDecl(em, x, src, obj);
            RunOk(Exec(a.code, st, oracle), Flatten(a.em.scopes), inLoop, around)
  {
    hide Balanced, Typed, Track, Inside, Define, Flatten, Initialised, EntryOf, Pending, Noticed, TraceOk;
    var s, es := Slot(em.next, obj), Flatten(em.scopes);
    var i, e := Init(s, src), EntryOf(s);
    EntryOfOne();
    DefineLater(em, x, obj);
    FreshSlot(em, st, obj);
    GoodFine(st, es);
    ExecTwo(i, Note(e), st, oracle);
    if oracle != [] {
      var st1 := Initialised(st, s, src, oracle[0]);
      InitSound(st, s, src, oracle[0]);
      Faultless(st1);
      RegisteredGood(st1, es, e);
      GoodFine(Noticed(st1, e), es + [e]);
    }
  }

  lemma SourceOk(em: Emitter, v: Option<Value>)
    requires SourceOf(em, v).Some?
    ensures SourceFits(SourceOf(em, v).value, false)
  {}

  /** The record follows a change of one variable. */
  lemma NotedGood(st: State, st1: State, d: Slot, es: seq<Entry>)
    requires Good(st, es) && Sound(st1) && st1.trace == st.trace && EntryOf(d) in es
    requires forall s :: s != d ==> (s in st1.slots <==> s in st.slots)
    requires d in st1.slots && d !in st.slots ==> !d.obj
    ensures Good(Noted(st, st1, d), es)
    ensures Noted(st, st1, d).result == st1.result && Noted(st, st1, d).fault == st1.fault
  {
    hide Balanced, Typed, Track, Pending;
    EntryOfOne();
    var e := EntryOf(d);
    if d in st1.slots && d !in st.slots {
      SoundLog(st1, Filled(e));
      TrackOther(st.trace, es, Filled(e));
      PendingAppend(st.trace, Filled(e));
    } else if d in st.slots && d !in st1.slots {
      SoundLog(st1, Emptied(e));
      TrackOther(st.trace, es, Emptied(e));
      PendingAppend(st.trace, Emptied(e));
    }
  }

  lemma SelfGood(st: State, st1: State, es: seq<Entry>, n: nat)
    requires Good(st, es) && n != 1
    requires Sound(st1) && st1.slots == st.slots && st1.trace == st.trace + [Self(n)]
    ensures Good(st1, es)
  {
    hide Balanced, Typed, Track, Pending;
    TrackOther(st.trace, es, Self(n));
    PendingAppend(st.trace, Self(n));
  }

  lemma SimAssign(em: Emitter, d: Slot, src: Source, st: State, oracle: seq<nat>, es: seq<Entry>,
                  inLoop: bool, around: seq<Entry>)
    requires EntryOf(d) in es && !d.obj && SourceFits(src, false)
    requires Good(st, es) && st.result == None
    ensures RunOk(Exec([Replace(d, src)], st, oracle), es, inLoop, around)
  {
    hide Balanced, Typed, Track, Assigned, Linked, TraceOk;
    var i := Replace(d, src);
    ExecOne(i, st, oracle);
    GoodFine(st, es);
    if oracle != [] {
      var b := oracle[0];
      var st1 := Assigned(st, d, src, b);
      if src == Load(d) {
        AssignSelf(st, d, b);
        if d in st.slots && st.slots[d] in st.heap {
          var n := st.heap[st.slots[d]];
          assert st1.trace[|st.trace|] == Self(n);
          if n == 1 {
            SelfStays(st, st1, d);
          } else {
            SelfGood(st, st1, es, n);
            Faultless(st1);
          }
        } else {
          Faultless(st);
        }
      } else {
        AssignOther(st, d, src, b);
        NotedGood(st, st1, d, es);
        Faultless(st1);
      }
    }
  }

  lemma SelfStays(st: State, st1: State, d: Slot)
    requires st1.fault && Self(1) in st1.trace
    ensures Noted(st, st1, d).fault && Self(1) in Noted(st, st1, d).trace
  {
    var i :| 0 <= i < |st1.trace| && st1.trace[i] == Self(1);
    assert Noted(st, st1, d).trace[i] == Self(1);
  }

  lemma SimDrop(d: Slot, st: State, oracle: seq<nat>, es: seq<Entry>, inLoop: bool, around: seq<Entry>)
    requires Good(st, es) && st.result == None && EntryOf(d) in es
    ensures RunOk(Exec([Drop(d)], st, oracle), es, inLoop, around)
  {
    hide Balanced, Typed, Track, Linked, TraceOk;
    ExecOne(Drop(d), st, oracle);
    GoodFine(st, es);
    ClearBalanced(st, d, One(st.result));
    NotedGood(st, Clear(st, d), d, es);
    Faultless(Clear(st, d));
  }

  lemma SimDefer(em: Emitter, id: nat, st: State, oracle: seq<nat>, inLoop: bool, around: seq<Entry>)
    requires Inside(em) && Good(st, Flatten(em.scopes)) && st.result == None
    ensures var a := GenStmt(em, Defer(id));
            RunOk(Exec(a.code, st, oracle), Flatten(a.em.scopes), inLoop, around)
  {
    hide Balanced, Typed, Track, GenStmt, Inside, EntryOf, TraceOk;
    var e, es := Deferred(id, em.next), Flatten(em.scopes);
    DeferLater(em, id);
    FreshDefer(em, id);
    GoodFine(st, es);
    EntryOfOne();
    ExecOne(Note(e), st, oracle);
    RegisteredGood(st, es, e);
    GoodFine(Noticed(st, e), es + [e]);
  }

  lemma FreshDefer(em: Emitter, id: nat)
    requires Inside(em)
    ensures Deferred(id, em.next) !in Flatten(em.scopes)
  {
    FlatBelow(em.scopes, em.next);
  }

  lemma {:induction false} SimUnwindAll(em: Emitter, st: State, oracle: seq<nat>)
    requires Inside(em) && Good(st, Flatten(em.scopes))
    ensures CleansUp(Exec(UnwindAll(em.scopes), st, oracle), st, [])
  {
    hide Good, Kinds, CleansUp;
    FlatBelow(em.scopes, em.next);
    UnwindAllFlat(em.scopes);
    assert [] + Flatten(em.scopes) == Flatten(em.scopes);
    UnwindGood(st, [], Flatten(em.scopes), oracle);
  }

  lemma {:induction false} FlattenPrefix(scopes: seq<seq<Entry>>, d: nat)
    requires d <= |scopes|
    ensures Flatten(scopes[..d]) <= Flatten(scopes)
    decreases |scopes|
  {
    if d == |scopes| {
      assert scopes[..d] == scopes;
    } else {
      var front := scopes[..|scopes| - 1];
      FlattenPrefix(front, d);
      assert front[..d] == scopes[..d];
    }
  }

  lemma AroundSorted(em: Emitter, t: seq<Event>)
    requires Sorted(t, Flatten(em.scopes))
    ensures Sorted(t, Around(em))
  {
    if em.loops != [] && em.loops[|em.loops| - 1] <= |em.scopes| {
      FlattenPrefix(em.scopes, em.loops[|em.loops| - 1]);
      SortedPrefix(t, Around(em), Flatten(em.scopes));
    }
  }

  lemma SortedStays(t: seq<Event>, t1: seq<Event>, es: seq<Entry>)
    requires SameSince(t, t1) && Sorted(t, es)
    ensures Sorted(t1, es)
  {
    hide Since;
  }

  lemma LeftGood(em: Emitter, st: State, st1: State)
    requires Good(st, Flatten(em.scopes)) && Good(st1, []) && SameSince(st.trace, st1.trace)
    ensures Good(Log(st1, Left(Around(em))), Around(em))
  {
    hide Balanced, Typed, TraceOk, Waiting, Tallies, Pending, Sorted, SameSince, Around;
    var x := Left(Around(em));
    AroundSorted(em, st.trace);
    SortedStays(st.trace, st1.trace, Around(em));
    TrackLeft(st1.trace, Around(em));
    PendingAppend(st1.trace, x);
    SoundLog(st1, x);
  }

  lemma SimJump(em: Emitter, i: Instr, st: State, oracle: seq<nat>, es: seq<Entry>)
    requires Inside(em) && Good(st, Flatten(em.scopes)) && st.result == None
    requires i == Exit(Around(em)) || i == Next(Around(em))
    ensures RunOk(Exec(UnwindAll(em.scopes) + [i], st, oracle), es, true, Around(em))
    ensures Exec(UnwindAll(em.scopes) + [i], st, oracle).o != Normal
  {
    hide Good, Fine, SameSince, Inside, Around;
    SimUnwindAll(em, st, oracle);
    ExecAppend(UnwindAll(em.scopes), [i], st, oracle);
    var r := Exec(UnwindAll(em.scopes), st, oracle);
    if r.o == Normal {
      ExecOne(i, r.st, r.oracle);
      GoodFine(r.st, []);
      LeftGood(em, st, r.st);
      GoodFine(Log(r.st, Left(Around(em))), Around(em));
    }
  }

  lemma KeptGood(st: State, st1: State, es: seq<Entry>)
    requires Good(st, es) && Sound(st1) && st1.slots == st.slots && st1.trace == st.trace
    ensures Good(st1, es)
  {
    hide Sound, Track, Pending;
  }

  lemma SimReturn(em: Emitter, src: Source, st: State, oracle: seq<nat>, es: seq<Entry>, inLoop: bool,
                  around: seq<Entry>)
    requires Inside(em) && Good(st, Flatten(em.scopes)) && st.result == None && SourceFits(src, false)
    ensures var r := Exec([SetResult(src)] + UnwindAll(em.scopes) + [Ret], st, oracle);
            RunOk(r, es, inLoop, around) && r.o != Normal
  {
    hide Balanced, Typed, Track, Kept, Inside, Linked, TraceOk;
    var i, all := SetResult(src), UnwindAll(em.scopes);
    ExecAppend([i] + all, [Ret], st, oracle);
    ExecAppend([i], all, st, oracle);
    ExecOne(i, st, oracle);
    GoodFine(st, Flatten(em.scopes));
    if oracle != [] {
      var st1 := Kept(st, src, oracle[0]);
      KeepSound(st, src, oracle[0]);
      KeptGood(st, st1, Flatten(em.scopes));
      GoodFine(st1, Flatten(em.scopes));
      SimUnwindAll(em, st1, oracle[1..]);
      var r := Exec(all, st1, oracle[1..]);
      if r.o == Normal {
        ExecOne(Ret, r.st, r.oracle);
        GoodFine(r.st, []);
      }
    }
  }

  // ----- statements --------------------------------------------------------------------------

  /** The run of a piece's code from a good state: as RunOk says, and a piece that ends in a jump does
      not fall through. */
  ghost predicate PieceOk(em: Emitter, a: Piece, r: Run) {
    RunOk(r, Flatten(a.em.scopes), em.loops != [], Around(em)) && (r.o == Normal ==> a.live)
  }

  lemma AroundSame(em: Emitter, em1: Emitter)
    requires Inside(em) && Later(em, em1)
    ensures Around(em1) == Around(em)
  {
    if em.loops != [] {
      var d, n := em.loops[|em.loops| - 1], |em.scopes| - 1;
      assert em1.scopes[..n][..d] == em.scopes[..n][..d];
      assert em1.scopes[..d] == em1.scopes[..n][..d] && em.scopes[..d] == em.scopes[..n][..d];
    }
  }

  lemma {:induction false} SimStmts(em: Emitter, ss: seq<Stmt>, st: State, oracle: seq<nat>)
    requires Inside(em) && Good(st, Flatten(em.scopes)) && st.result == None
    ensures PieceOk(em, GenStmts(em, ss), Exec(GenStmts(em, ss).code, st, oracle))
    decreases |oracle|, ss, 0
  {
    hide Good, GenStmt, Inside, Later, Flatten, Around;
    if ss != [] {
      SimStmt(em, ss[0], st, oracle);
      StmtLater(em, ss[0]);
      var a := GenStmt(em, ss[0]);
      var r := Exec(a.code, st, oracle);
      if a.live {
        var b := GenStmts(a.em, ss[1..]);
        ExecAppend(a.code, b.code, st, oracle);
        AroundSame(em, a.em);
        assert a.em.loops == em.loops by { LaterLoops(em, a.em); }
        if r.o == Normal { SimStmts(a.em, ss[1..], r.st, r.oracle); }
      }
    }
  }

  lemma LaterLoops(em: Emitter, em1: Emitter)
    requires Later(em, em1)
    ensures em1.loops == em.loops && em1.scopes != []
  {}

  lemma {:induction false} SimBlock(em: Emitter, ss: seq<Stmt>, st: State, oracle: seq<nat>)
    requires EmOk(em) && Good(st, Flatten(em.scopes)) && st.result == None
    ensures PieceOk(em, GenBlock(em, ss), Exec(GenBlock(em, ss).code, st, oracle))
    decreases |oracle|, ss, 1
  {
    hide Good, GenStmts, Inside, Flatten, Around, EmOk;
    var em0 := Push(em);
    PushInside(em);
    SimStmts(em0, ss, st, oracle);
    StmtsLater(em0, ss);
    BlockBack(em, ss);
    assert Around(em0) == Around(em) by { AroundPush(em); }
    var a := GenStmts(em0, ss);
    LaterLoops(em0, a.em);
    var r := Exec(a.code, st, oracle);
    if a.live {
      var top := a.em.scopes[|a.em.scopes| - 1];
      ExecAppend(a.code, Unwind(top), st, oracle);
      FlattenTop(a.em.scopes);
      assert a.em.scopes[..|a.em.scopes| - 1] == GenBlock(em, ss).em.scopes;
      TopKinds(a.em);
      if r.o == Normal { UnwindGood(r.st, Flatten(GenBlock(em, ss).em.scopes), top, r.oracle); }
    } else {
      assert a.code + [] == a.code;
    }
  }

  lemma TopKinds(em: Emitter)
    requires Inside(em)
    ensures Kinds(em.scopes[|em.scopes| - 1])
  {
    assert SlotsBelow(em.scopes[|em.scopes| - 1], em.next);
  }

  lemma AroundPush(em: Emitter)
    requires EmOk(em)
    ensures Around(Push(em)) == Around(em)
  {
    if em.loops != [] {
      var d := em.loops[|em.loops| - 1];
      assert Push(em).scopes[..d] == em.scopes[..d];
    }
  }

  lemma FlattenTop(scopes: seq<seq<Entry>>)
    requires scopes != []
    ensures Flatten(scopes) == Flatten(scopes[..|scopes| - 1]) + scopes[|scopes| - 1]
  {}

  lemma {:induction false} SimStmt(em: Emitter, s: Stmt, st: State, oracle: seq<nat>)
    requires Inside(em) && Good(st, Flatten(em.scopes)) && st.result == None
    ensures PieceOk(em, GenStmt(em, s), Exec(GenStmt(em, s).code, st, oracle))
    decreases |oracle|, s, 1
  {
    hide Good, GenBlock, Define, Inside, Flatten, Around, Lookup, UnwindAll, Register;
    var es := Flatten(em.scopes);
    match s {
      case DeclList(x, init) =>
        if SourceOf(em, init).Some? {
          SourceOk(em, init);
          SimDecl(em, x, SourceOf(em, init).value, false, st, oracle, em.loops != [], Around(em));
        }
      case DeclObj(x, isNew) =>
        SimDecl(em, x, if isNew then Fresh else NoValue, true, st, oracle, em.loops != [], Around(em));
      case Assign(x, value) => SimAssignStmt(em, s, st, oracle);
      case Delete(x) =>
        if Lookup(em.env, x).Some? {
          assert EnvOk(em) by { InsideOk(em); }
          LookupOk(em, x);
          SimDrop(Lookup(em.env, x).value, st, oracle, es, em.loops != [], Around(em));
        }
      case Defer(id) => SimDefer(em, id, st, oracle, em.loops != [], Around(em));
      case Block(body) =>
        assert EmOk(em) by { InsideOk(em); }
        SimBlock(em, body, st, oracle);
      case If(t, f) => SimIf(em, t, f, st, oracle);
      case Loop(body) => SimLoop(em, body, st, oracle);
      case Break => if em.loops != [] { SimBreak(em, Exit(Around(em)), st, oracle); }
      case Continue => if em.loops != [] { SimBreak(em, Next(Around(em)), st, oracle); }
      case Return(result) =>
        if SourceOf(em, result).Some? {
          SourceOk(em, result);
          SimReturn(em, SourceOf(em, result).value, st, oracle, es, em.loops != [], Around(em));
        }
    }
  }

  lemma InsideOk(em: Emitter)
    requires Inside(em)
    ensures EmOk(em) && EnvOk(em) && em.scopes != []
  {}

  lemma SimBreak(em: Emitter, i: Instr, st: State, oracle: seq<nat>)
    requires Inside(em) && Good(st, Flatten(em.scopes)) && st.result == None && em.loops != []
    requires i == Exit(Around(em)) || i == Next(Around(em))
    ensures PieceOk(em, Piece(UnwindAll(em.scopes) + [i], em, false),
                    Exec(UnwindAll(em.scopes) + [i], st, oracle))
  {
    hide Good;
    SimJump(em, i, st, oracle, Flatten(em.scopes));
  }

  lemma SimAssignStmt(em: Emitter, s: Stmt, st: State, oracle: seq<nat>)
    requires s.Assign? && Inside(em) && Good(st, Flatten(em.scopes)) && st.result == None
    ensures PieceOk(em, GenStmt(em, s), Exec(GenStmt(em, s).code, st, oracle))
  {
    hide Good, Flatten, Around, Lookup;
    var d, src := Lookup(em.env, s.x), SourceOf(em, Some(s.value));
    if d.Some? && src.Some? && !d.value.obj {
      LookupOk(em, s.x);
      SourceOk(em, Some(s.value));
      SimAssign(em, d.value, src.value, st, oracle, Flatten(em.scopes), em.loops != [], Around(em));
    }
  }

  lemma {:induction false} SimIf(em: Emitter, t: seq<Stmt>, f: seq<Stmt>, st: State, oracle: seq<nat>)
    requires Inside(em) && Good(st, Flatten(em.scopes)) && st.result == None
    ensures PieceOk(em, GenStmt(em, If(t, f)), Exec(GenStmt(em, If(t, f)).code, st, oracle))
    decreases |oracle|, t, f, 0
  {
    hide Good, GenBlock, Flatten, Around;
    var a := GenBlock(em, t);
    var b := GenBlock(a.em, f);
    BlockBack(em, t);
    BlockBack(a.em, f);
    ExecOne(Choice(a.code, b.code), st, oracle);
    if oracle != [] {
      assert Around(a.em) == Around(em) by { AroundSlots(em, a.em.next); }
      if oracle[0] != 0 { SimBlock(em, t, st, oracle[1..]); } else { SimBlock(a.em, f, st, oracle[1..]); }
    } else {
      GoodFine(st, Flatten(em.scopes));
    }
  }

  lemma AroundSlots(em: Emitter, n: nat)
    ensures Around(em.(next := n)) == Around(em)
  {}

  lemma {:induction false} SimLoop(em: Emitter, body: seq<Stmt>, st: State, oracle: seq<nat>)
    requires Inside(em) && Good(st, Flatten(em.scopes)) && st.result == None
    ensures PieceOk(em, GenStmt(em, Loop(body)), Exec(GenStmt(em, Loop(body)).code, st, oracle))
    decreases |oracle|, body, 2
  {
    hide Good, Fine, GenBlock, Flatten, Around, Inside, EmOk, Log;
    var em0 := em.(loops := em.loops + [|em.scopes|]);
    var a := GenBlock(em0, body);
    EnterLoop(em);
    BlockBack(em0, body);
    ExecOne(Repeat(a.code), st, oracle);
    if oracle == [] {
      GoodFine(st, Flatten(em.scopes));
    } else if oracle[0] != 0 {
      SimBlock(em0, body, st, oracle[1..]);
      AroundHere(em);
      var r := Exec(a.code, st, oracle[1..]);
      if r.o == Normal || r.o == Continued {
        SimLoop(em, body, r.st, r.oracle);
        ExecOne(Repeat(a.code), r.st, r.oracle);
      }
    }
  }

  lemma AroundHere(em: Emitter)
    ensures Around(em.(loops := em.loops + [|em.scopes|])) == Flatten(em.scopes)
  {
    assert em.scopes[..|em.scopes|] == em.scopes;
  }
}
