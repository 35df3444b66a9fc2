/** What holds of every run of a function with cleanups and counted lists. */
module CleanupMain {
  import opened Common
  import opened Cleanup
  import opened CleanupRun
  import opened CleanupProof
  import opened CleanupEmit
  import opened CleanupTrace
  import opened CleanupSim
  import opened CleanupStatic

  lemma EmptySound()
    ensures Sound(EMPTY)
  {}

  lemma EmptyGood()
    ensures Good(EMPTY, [])
  {
    EmptySound();
    hide Sound;
  }

  lemma StartInside()
    ensures Inside(Emitter([[]], [map[]], [], 0)) && Flatten([[]]) == []
  {
    var scopes: seq<seq<Entry>> := [[]];
    assert scopes[..0] == [];
  }

  lemma CallOk(body: seq<Stmt>, oracle: seq<nat>)
    ensures var r := CallOf(body, oracle);
            RunOk(r, [], false, []) && r.o != Normal
  {
    hide Good, GenStmts, Flatten, Inside;
    var em := Emitter([[]], [map[]], [], 0);
    var a := GenStmts(em, body);
    StartInside();
    EmptyGood();
    SimStmts(em, body, EMPTY, oracle);
    var r := Exec(a.code, EMPTY, oracle);
    assert a.code + [] == a.code;
    if a.live {
      ExecAppend(a.code, UnwindAll(a.em.scopes) + [Ret], EMPTY, oracle);
      if r.o == Normal {
        StmtsLater(em, body);
        SimUnwindAll(a.em, r.st, r.oracle);
        ExecAppend(UnwindAll(a.em.scopes), [Ret], r.st, r.oracle);
        var u := Exec(UnwindAll(a.em.scopes), r.st, r.oracle);
        if u.o == Normal {
          ExecOne(Ret, u.st, u.oracle);
          GoodFine(u.st, []);
        }
      }
    }
  }

  // ----- reference counts --------------------------------------------------------------------

  /** The counts of a state are right: each list or object that is not freed is held by that many
      slots, the result counting as one, and every slot that holds something holds something live. */
  ghost predicate CountsRight(st: State) {
    && (forall r :: r in st.heap ==>
          st.heap[r] > 0 && st.heap[r] == |Holders(st.slots, r)| + (if st.result == Some(r) then 1 else 0))
    && (forall s :: s in st.slots ==> st.slots[s] in st.heap)
  }

  lemma SoundCounts(st: State)
    requires Sound(st)
    ensures CountsRight(st)
    ensures st.result.Some? ==> st.result.value in st.heap
  {
    var x := One(st.result);
    forall r | r in st.heap
      ensures st.heap[r] > 0 && st.heap[r] == |Holders(st.slots, r)| + (if st.result == Some(r) then 1 else 0)
    {
      assert Counted(st, x, r);
    }
    forall s | s in st.slots ensures st.slots[s] in st.heap { SlotLive(st, s, x); }
    if st.result.Some? { assert Counted(st, x, st.result.value); }
  }

  /** A program without x = x never touches anything freed. */
  lemma NeverFaults(body: seq<Stmt>, oracle: seq<nat>)
    requires NoSelfAssign(body)
    ensures CallOf(body, oracle).o != Faulted
  {
    hide Good, Fine, GenStmts, Inside, NoSelf, Exec;
    var em := Emitter([[]], [map[]], [], 0);
    var a := GenStmts(em, body);
    StartInside();
    StmtsNoSelf(em, body);
    UnwindAllNoSelf(a.em.scopes, Ret);
    NoSelfSingle(Ret);
    NoSelfAppend(a.code, if a.live then UnwindAll(a.em.scopes) + [Ret] else []);
    RunFollows(GenFunction(body), EMPTY, oracle);
    CallOk(body, oracle);
    assert NoSelfs(EMPTY.trace);
  }

  /** Main result.  A function body run to any point keeps the counts; when it returns, nothing is
      left but the returned list, with count one.  The one way to touch something that is freed is to
      assign a variable its own value while it holds the only reference. */
  lemma CountsAreConserved(body: seq<Stmt>, oracle: seq<nat>)
    ensures var r := CallOf(body, oracle);
            && (r.o == Returned || r.o == Stopped || r.o == Faulted)
            && (NoSelfAssign(body) ==> r.o != Faulted)
            && (r.o == Faulted <==> Self(1) in r.st.trace)
            && (r.o != Faulted ==> CountsRight(r.st))
            && (r.o == Returned ==>
                  r.st.heap == match r.st.result case Some(v) => map[v := 1] case None => map[])
  {
    hide Balanced, TraceOk, Sorted, Tallies, NoSelfAssign;
    var r := CallOf(body, oracle);
    CallOk(body, oracle);
    if NoSelfAssign(body) { NeverFaults(body, oracle); }
    if r.o != Faulted { SoundCounts(r.st); }
    if r.o == Returned {
      NothingHeld(r.st);
      OnlyResult(r.st);
    }
  }

  lemma NothingHeld(st: State)
    requires Good(st, [])
    ensures st.slots == map[] && Pending(st.trace) == {}
  {
    hide Sound;
    assert Pending(st.trace) == {};
    forall s ensures s !in st.slots <==> EntryOf(s) !in Pending(st.trace) {}
  }

  lemma OnlyResult(st: State)
    requires Sound(st) && st.slots == map[]
    ensures st.heap == match st.result case Some(v) => map[v := 1] case None => map[]
  {
    var x := One(st.result);
    forall r ensures r in st.heap <==> st.result == Some(r) {
      assert Counted(st, x, r);
    }
    forall r | r in st.heap ensures st.heap[r] == 1 {
      assert Counted(st, x, r);
      assert Holders(st.slots, r) == {};
    }
  }

  /** One list variable declared with a literal. */
  lemma DeclaredList()
    ensures var d := Slot(0, false);
            GenStmt(Emitter([[]], [map[]], [], 0), DeclList("x", Some(Literal)))
            == Piece([Init(d, Fresh), Note(Release(d))], Emitter([[Release(d)]], [map["x" := d]], [], 1), true)
  {
    var em, d := Emitter([[]], [map[]], [], 0), Slot(0, false);
    assert em.scopes[0] + [Release(d)] == [Release(d)] && em.scopes[0 := [Release(d)]] == [[Release(d)]];
    assert em.env[0 := map["x" := d]] == [map["x" := d]];
  }

  lemma SelfCode() returns (tail: seq<Instr>)
    ensures var d := Slot(0, false);
            GenFunction([DeclList("x", Some(Literal)), Assign("x", Copy("x"))])
            == [Init(d, Fresh), Note(Release(d))] + ([Replace(d, Load(d))] + tail)
  {
    var s0, s1 := DeclList("x", Some(Literal)), Assign("x", Copy("x"));
    var em, d := Emitter([[]], [map[]], [], 0), Slot(0, false);
    var em1 := Emitter([[Release(d)]], [map["x" := d]], [], 1);
    DeclaredList();
    assert GenStmt(em1, s1) == Piece([Replace(d, Load(d))], em1, true);
    hide GenStmt, UnwindAll;
    assert [s0, s1][1..] == [s1] && [s1][1..] == [];
    assert GenStmts(em1, [s1]) == Piece([Replace(d, Load(d))] + [], em1, true);
    tail := UnwindAll(em1.scopes) + [Ret];
    assert GenStmts(em, [s0, s1])
           == Piece([Init(d, Fresh), Note(Release(d))] + ([Replace(d, Load(d))] + []), em1, true);
  }

  /** The failing case: list x = [..]; x = x. */
  lemma SelfAssignmentFails()
    ensures CallOf([DeclList("x", Some(Literal)), Assign("x", Copy("x"))], [0, 0, 0]).o == Faulted
  {
    hide GenFunction, Exec;
    var d, r := Slot(0, false), Ref(0, false);
    var tail := SelfCode();
    var st1 := State(map[d := r], map[r := 1], 1, None, false, []);
    var st2 := Log(Log(st1, Registered(Release(d))), Filled(Release(d)));
    assert Do(Init(d, Fresh), EMPTY, 0) == st1;
    var ticks := [0, 0, 0];
    assert ticks[1..] == [0, 0] && ticks[1..][1..] == [0];
    ExecTwo(Init(d, Fresh), Note(Release(d)), EMPTY, ticks);
    ExecAppend([Init(d, Fresh), Note(Release(d))], [Replace(d, Load(d))] + tail, EMPTY, ticks);
    ExecAppend([Replace(d, Load(d))], tail, st2, [0]);
    ExecOne(Replace(d, Load(d)), st2, [0]);
    assert Do(Replace(d, Load(d)), st2, 0).fault;
  }

  // ----- order of cleanups -------------------------------------------------------------------

  lemma CallTrace(body: seq<Stmt>, oracle: seq<nat>)
    requires CallOf(body, oracle).o != Faulted
    ensures var r := CallOf(body, oracle);
            TraceOk(r.st.trace) && (r.o == Returned ==> Pending(r.st.trace) == {} && Tallies(r.st.trace, []))
  {
    hide Sound, InReverse, SlotsOnce, Balances, Tallies;
    CallOk(body, oracle);
    if CallOf(body, oracle).o == Returned { NothingHeld(CallOf(body, oracle).st); }
  }

  /** Main result.  In every run, broken off anywhere, cleanups take effect in reverse order of
      registration: what runs is registered later than everything else that waits.  A release or
      destructor takes effect only for what its variable holds, and when the run returns nothing is
      held: whatever a variable came to hold was cleaned up once, or given up by delete or assignment.
      An object's destructor has run at most as often as its declaration was passed. */
  lemma CleanupsTakeEffectInReverse(body: seq<Stmt>, oracle: seq<nat>)
    requires CallOf(body, oracle).o != Faulted
    ensures var t := CallOf(body, oracle).st.trace;
            && InReverse(t) && SlotsOnce(t)
            && (forall e: Entry :: e.Destroy? ==> Count(t, Ran(e)) <= Count(t, Registered(e)))
            && (CallOf(body, oracle).o == Returned ==>
                  && Pending(t) == {}
                  && forall e: Entry :: !e.Deferred? ==>
                       Count(t, Filled(e)) == Count(t, Ran(e)) + Count(t, Emptied(e)))
  {
    hide InReverse, SlotsOnce, Count, Pending;
    var t := CallOf(body, oracle).st.trace;
    CallTrace(body, oracle);
    forall e: Entry | !e.Deferred?
      ensures Count(t, Filled(e)) >= Count(t, Ran(e)) + Count(t, Emptied(e))
      ensures Pending(t) == {} ==> Count(t, Filled(e)) == Count(t, Ran(e)) + Count(t, Emptied(e))
    {
      assert Balance(t, e);
    }
  }

  /** Main result.  In every run that returns, a deferred body has run as often as it was registered,
      and once more for each break and continue that was taken with it registered around the loop. */
  lemma DeferredRuns(body: seq<Stmt>, oracle: seq<nat>, d: Entry)
    requires CallOf(body, oracle).o == Returned && d.Deferred?
    ensures var t := CallOf(body, oracle).st.trace;
            Count(t, Ran(d)) == Count(t, Registered(d)) + Crossings(t, d)
  {
    CallTrace(body, oracle);
    assert Tally(CallOf(body, oracle).st.trace, [], d);
  }

  /** Any cleanup takes effect at most that often: a release takes effect more often than its variable
      was registered only where a jump was taken with the variable registered around the loop. */
  lemma EffectsAreBounded(body: seq<Stmt>, oracle: seq<nat>, e: Entry)
    requires CallOf(body, oracle).o == Returned
    ensures var t := CallOf(body, oracle).st.trace;
            && Count(t, Ran(e)) <= Count(t, Registered(e)) + Crossings(t, e)
            && (Uncrossed(t, e) ==> Count(t, Ran(e)) <= Count(t, Registered(e)))
  {
    CallTrace(body, oracle);
    var t := CallOf(body, oracle).st.trace;
    assert AtMost(t, [], e);
    NoCrossings(t, e);
  }

  lemma {:induction false} CrossedOnce(t: seq<Event>, i: nat, j: nat)
    requires i < |t| && t[i].Left? && j < |t[i].around| && t[i].around[j].Deferred?
    ensures Crossings(t, t[i].around[j]) > 0
    decreases |t|
  {
    var d := t[i].around[j];
    if i == |t| - 1 {
      assert d in t[i].around && multiset(t[i].around)[d] > 0;
    } else {
      assert t[..|t| - 1][i] == t[i];
      CrossedOnce(t[..|t| - 1], i, j);
    }
  }

  /** Hence in a run that returns every cleanup takes effect once, in reverse order, exactly when no
      break or continue was taken with a deferred body registered around its loop. */
  lemma CleanupsRunOnceInReverse(body: seq<Stmt>, oracle: seq<nat>)
    requires CallOf(body, oracle).o == Returned
    ensures var t := CallOf(body, oracle).st.trace; InReverse(t) && (Once(t) <==> DefersClear(t))
  {
    hide Count, Balance, Pending, Crossings, InReverse;
    var t := CallOf(body, oracle).st.trace;
    CallTrace(body, oracle);
    assert forall e: Entry :: e.Deferred? ==> Count(t, Filled(e)) == 0;
    if !DefersClear(t) && Once(t) {
      var i :| 0 <= i < |t| && t[i].Left? && HasDefer(t[i].around);
      var j :| 0 <= j < |t[i].around| && t[i].around[j].Deferred?;
      var d := t[i].around[j];
      CrossedOnce(t, i, j);
      DeferredRuns(body, oracle, d);
      OnceBounds(t, d);
    }
  }

  ghost predicate SomeRunTwice(body: seq<Stmt>) {
    exists oracle :: CallOf(body, oracle).o == Returned && !Once(CallOf(body, oracle).st.trace)
  }

  ghost predicate SomeRunFaults(body: seq<Stmt>) {
    exists oracle :: CallOf(body, oracle).o == Faulted
  }

  /** Main result, on the program: a run that returns can have a cleanup take effect without being
      registered anew only if control can come to a break or continue that code was generated for with
      a deferred body registered around its loop; and if it can, then some run does, or some run is
      broken off because x = x has freed the value of x, which takes an x = x in the program. */
  lemma WhenCleanupsRunTwice(body: seq<Stmt>)
    ensures SomeRunTwice(body) ==> JumpsOverDefer(GenFunction(body))
    ensures JumpsOverDefer(GenFunction(body)) ==> SomeRunTwice(body) || SomeRunFaults(body)
    ensures NoSelfAssign(body) ==> (SomeRunTwice(body) <==> JumpsOverDefer(GenFunction(body)))
  {
    hide NoSelfAssign, JumpsOverDefer, GenFunction, Exec, Once, DefersClear;
    if NoSelfAssign(body) {
      forall oracle ensures CallOf(body, oracle).o != Faulted { NeverFaults(body, oracle); }
    }
    if JumpsOverDefer(GenFunction(body)) {
      var o := DriveOver(GenFunction(body), EMPTY);
      CountsAreConserved(body, o);
      if CallOf(body, o).o == Returned { CleanupsRunOnceInReverse(body, o); }
    } else {
      forall oracle | CallOf(body, oracle).o == Returned ensures Once(CallOf(body, oracle).st.trace) {
        RunFollows(GenFunction(body), EMPTY, oracle);
        assert DefersClear(EMPTY.trace) by { EmptyClear(); }
        CleanupsRunOnceInReverse(body, oracle);
      }
    }
  }

  lemma EmptyClear()
    ensures DefersClear([])
  {}

  lemma UnwindOne(e: Entry, scopes: seq<seq<Entry>>)
    requires scopes == [[e]] || scopes == [[e], []]
    ensures UnwindAll(scopes) == [Clean(e)]
  {
    assert [e][..0] == [];
    assert Unwind([e]) == [Clean(e)];
    var one: seq<seq<Entry>> := [[e]];
    assert one[..0] == [];
    assert UnwindAll(one) == Unwind([e]) + UnwindAll([]);
    if scopes != one { assert scopes[..1] == one; }
  }

  lemma BreakLoop(em: Emitter, e: Entry)
    requires em.scopes == [[e]] && |em.env| == 1 && em.loops == []
    ensures GenStmt(em, Loop([Break])) == Piece([Repeat([Clean(e), Exit([e])])], em, true)
  {
    hide UnwindAll;
    var em1 := em.(loops := [1]);
    var em2 := Push(em1);
    assert em2.scopes == [[e], []] && em2.scopes[..1] == [[e]] && em.scopes[..0] == [];
    UnwindOne(e, em2.scopes);
    assert Flatten(em.scopes) == [e] && Around(em2) == [e];
    assert GenStmt(em2, Break) == Piece([Clean(e), Exit([e])], em2, false);
    assert GenStmts(em2, [Break]) == GenStmt(em2, Break);
    assert em2.env[..1] == em1.env;
    assert Pop(em2) == em1;
    assert GenBlock(em1, [Break]) == Piece([Clean(e), Exit([e])] + [], em1, false);
    assert em.loops + [|em.scopes|] == [1];
    assert em.(loops := em.loops + [|em.scopes|]) == em1;
    assert [Clean(e), Exit([e])] + [] == [Clean(e), Exit([e])];
    assert em1.(loops := em.loops) == em;
  }

  lemma BreakCode()
    ensures var e := Deferred(7, 0);
            GenFunction([Defer(7), Loop([Break])])
            == [Note(e), Repeat([Clean(e), Exit([e])]), Clean(e), Ret]
  {
    hide UnwindAll, GenBlock;
    var em := Emitter([[]], [map[]], [], 0);
    var e := Deferred(7, 0);
    var em1 := em.(scopes := [[e]], next := 1);
    assert GenStmt(em, Defer(7)) == Piece([Note(e)], em1, true) by {
      assert em.scopes[0] + [e] == [e];
      assert em.scopes[0 := [e]] == [[e]];
    }
    BreakLoop(em1, e);
    UnwindOne(e, em1.scopes);
    var loop := Loop([Break]);
    assert [loop][1..] == [];
    assert GenStmts(em1, [loop]) == Piece([Repeat([Clean(e), Exit([e])])] + [], em1, true);
    assert [Defer(7), loop][1..] == [loop];
  }

  lemma JumpLogs(st: State, es: seq<Entry>)
    ensures Do(Exit(es), st, 1) == Log(st, Left(es))
  {}

  /** One round, in which the loop is left, after the cleanup of e. */
  lemma LeaveLoop(e: Entry, st: State, st1: State, more: seq<nat>)
    requires Do(Clean(e), st, 1) == st1 && !st1.fault
    ensures ExecInstr(Repeat([Clean(e), Exit([e])]), st, [1, 1, 1] + more)
            == Run(Normal, Log(st1, Left([e])), more)
  {
    hide Exec, Do;
    var three := [1, 1, 1] + more;
    assert three[1..] == [1, 1] + more && three[1..][1..] == [1] + more && three[1..][1..][1..] == more;
    ExecTwo(Clean(e), Exit([e]), st, three[1..]);
    assert Do(Exit([e]), st1, 1) == Log(st1, Left([e])) by { JumpLogs(st1, [e]); }
  }

  lemma BreakRun(e: Entry, st: State)
    requires e.Deferred? && !st.fault
    ensures var i := Repeat([Clean(e), Exit([e])]);
            ExecInstr(i, st, [1, 1, 1, 1, 1]) == Run(Normal, Log(Log(st, Ran(e)), Left([e])), [1, 1])
  {
    var five: seq<nat> := [1, 1, 1, 1, 1];
    assert five == [1, 1, 1] + [1, 1];
    LeaveLoop(e, st, Log(st, Ran(e)), [1, 1]);
  }

  lemma BreakStart(e: Entry, st: State)
    requires e.Deferred? && st == Log(EMPTY, Registered(e))
    ensures Exec([Note(e), Repeat([Clean(e), Exit([e])])], EMPTY, [1, 1, 1, 1, 1, 1])
            == Run(Normal, Log(Log(st, Ran(e)), Left([e])), [1, 1])
  {
    hide Exec;
    var six: seq<nat> := [1, 1, 1, 1, 1, 1];
    assert six[1..] == [1, 1, 1, 1, 1];
    BreakRun(e, st);
    ExecTwo(Note(e), Repeat([Clean(e), Exit([e])]), EMPTY, six);
  }

  lemma BreakEnd(e: Entry, st: State)
    requires e.Deferred? && !st.fault
    ensures Exec([Clean(e), Ret], st, [1, 1]) == Run(Returned, Log(st, Ran(e)), [])
  {
    hide Exec;
    assert [1, 1][1..] == [1];
    ExecTwo(Clean(e), Ret, st, [1, 1]);
  }

  /** The failing case: defer, then a loop with a break.  The deferred body runs twice. */
  lemma BreakRunsDeferTwice()
    ensures var r := CallOf([Defer(7), Loop([Break])], [1, 1, 1, 1, 1, 1]);
            r.o == Returned && Count(r.st.trace, Registered(Deferred(7, 0))) == 1
            && Count(r.st.trace, Ran(Deferred(7, 0))) == 2
  {
    hide GenFunction, Exec, ExecInstr;
    BreakCode();
    var e := Deferred(7, 0);
    var loop := Repeat([Clean(e), Exit([e])]);
    var st1 := Log(EMPTY, Registered(e));
    var st2 := Log(Log(st1, Ran(e)), Left([e]));
    BreakStart(e, st1);
    BreakEnd(e, st2);
    ExecAppend([Note(e), loop], [Clean(e), Ret], EMPTY, [1, 1, 1, 1, 1, 1]);
    assert [Note(e), loop, Clean(e), Ret] == [Note(e), loop] + [Clean(e), Ret];
    assert Log(st2, Ran(e)).trace == [Registered(e), Ran(e), Left([e]), Ran(e)];
  }

  // ----- a variable that is filled again -----------------------------------------------------

  /** list x = [..]; loop { break; } x = [..]; */
  function Refilled(): seq<Stmt> {
    [DeclList("x", Some(Literal)), Loop([Break]), Assign("x", Literal)]
  }

  lemma RefilledCode()
    ensures var d := Slot(0, false);
            var e := Release(d);
            GenFunction(Refilled())
            == [Init(d, Fresh), Note(e), Repeat([Clean(e), Exit([e])])] + [Replace(d, Fresh), Clean(e), Ret]
  {
    hide UnwindAll, GenBlock;
    var ss, d := Refilled(), Slot(0, false);
    var e := Release(d);
    var em := Emitter([[]], [map[]], [], 0);
    var em1 := Emitter([[e]], [map["x" := d]], [], 1);
    DeclaredList();
    BreakLoop(em1, e);
    UnwindOne(e, em1.scopes);
    var loop := Repeat([Clean(e), Exit([e])]);
    assert GenStmt(em1, ss[2]) == Piece([Replace(d, Fresh)], em1, true);
    assert ss[1..] == [ss[1], ss[2]] && ss[1..][1..] == [ss[2]] && [ss[2]][1..] == [];
    assert GenStmts(em1, [ss[2]]) == Piece([Replace(d, Fresh)] + [], em1, true);
    assert GenStmts(em1, ss[1..]) == Piece([loop] + ([Replace(d, Fresh)] + []), em1, true);
    assert GenStmts(em, ss)
           == Piece([Init(d, Fresh), Note(e)] + ([loop] + ([Replace(d, Fresh)] + [])), em1, true);
  }

  /** An instruction that does not branch and touches nothing freed. */
  lemma OneStep(i: Instr, st: State, oracle: seq<nat>)
    requires oracle != [] && !i.Choice? && !i.Repeat? && !Do(i, st, oracle[0]).fault
    ensures ExecInstr(i, st, oracle) == Run(After(i), Do(i, st, oracle[0]), oracle[1..])
  {}

  lemma RefilledFirst(d: Slot, e: Entry, s1: State, s2: State, s3: State)
    requires Do(Init(d, Fresh), EMPTY, 1) == s1 && Do(Note(e), s1, 1) == s2 && Do(Clean(e), s2, 1) == s3
    requires !s1.fault && !s2.fault && !s3.fault
    ensures Exec([Init(d, Fresh), Note(e), Repeat([Clean(e), Exit([e])])], EMPTY, [1, 1, 1, 1, 1, 1, 1, 1])
            == Run(Normal, Log(s3, Left([e])), [1, 1, 1])
  {
    hide Exec, ExecInstr, Do;
    var loop, two := Repeat([Clean(e), Exit([e])]), [Init(d, Fresh), Note(e)];
    var eight: seq<nat> := [1, 1, 1, 1, 1, 1, 1, 1];
    assert eight[1..][1..] == [1, 1, 1] + [1, 1, 1];
    assert [Init(d, Fresh), Note(e), loop] == two + [loop];
    OneStep(Init(d, Fresh), EMPTY, eight);
    OneStep(Note(e), s1, eight[1..]);
    ExecTwo(Init(d, Fresh), Note(e), EMPTY, eight);
    ExecAppend(two, [loop], EMPTY, eight);
    LeaveLoop(e, s2, s3, [1, 1, 1]);
    ExecOne(loop, s2, [1, 1, 1] + [1, 1, 1]);
  }

  lemma RefilledLast(d: Slot, e: Entry, s4: State, s5: State, s6: State)
    requires Do(Replace(d, Fresh), s4, 1) == s5 && Do(Clean(e), s5, 1) == s6 && Do(Ret, s6, 1) == s6
    requires !s5.fault && !s6.fault
    ensures Exec([Replace(d, Fresh), Clean(e), Ret], s4, [1, 1, 1]) == Run(Returned, s6, [])
  {
    hide Exec, ExecInstr, Do;
    var three: seq<nat> := [1, 1, 1];
    assert three[1..][1..] == [1] && [1][1..] == [];
    assert [Replace(d, Fresh), Clean(e), Ret] == [Replace(d, Fresh), Clean(e)] + [Ret];
    OneStep(Replace(d, Fresh), s4, three);
    OneStep(Clean(e), s5, three[1..]);
    ExecTwo(Replace(d, Fresh), Clean(e), s4, three);
    ExecAppend([Replace(d, Fresh), Clean(e)], [Ret], s4, three);
    OneStep(Ret, s6, [1]);
    ExecOne(Ret, s6, [1]);
  }

  lemma RefilledTrace(e: Entry, t: seq<Event>)
    requires t == [] + [Registered(e)] + [Filled(e)] + [Ran(e)] + [Left([e])] + [Filled(e)] + [Ran(e)]
    ensures Count(t, Registered(e)) == 1 && Count(t, Ran(e)) == 2 && Count(t, Filled(e)) == 2
  {
    var t1: seq<Event> := [] + [Registered(e)];
    var t2 := t1 + [Filled(e)];
    var t3 := t2 + [Ran(e)];
    var t4 := t3 + [Left([e])];
    var t5 := t4 + [Filled(e)];
    CountAppend([], Registered(e));
    CountAppend(t1, Filled(e));
    CountAppend(t2, Ran(e));
    CountAppend(t3, Left([e]));
    CountAppend(t4, Filled(e));
    CountAppend(t5, Ran(e));
    assert forall x :: Count([], x) == 0;
    hide Count;
  }

  /** A variable that a break has emptied and an assignment has filled again is released again: twice
      in effect for one registration, but once for each list. */
  lemma RefilledIsReleasedTwice()
    ensures var r, e := CallOf(Refilled(), [1, 1, 1, 1, 1, 1, 1, 1]), Release(Slot(0, false));
            && r.o == Returned && Count(r.st.trace, Registered(e)) == 1
            && Count(r.st.trace, Ran(e)) == 2 && Count(r.st.trace, Filled(e)) == 2
  {
    hide GenFunction, Exec, ExecInstr, Do, Count;
    var d := Slot(0, false);
    var e := Release(d);
    var a, b := Ref(0, false), Ref(1, false);
    var loop := Repeat([Clean(e), Exit([e])]);
    var s1 := State(map[d := a], map[a := 1], 1, None, false, []);
    var s2 := Log(Log(s1, Registered(e)), Filled(e));
    var s3 := Log(s2.(slots := map[], heap := map[]), Ran(e));
    var s4 := Log(s3, Left([e]));
    var s5 := Log(s4.(slots := map[d := b], heap := map[b := 1], next := 2), Filled(e));
    var s6 := Log(s5.(slots := map[], heap := map[]), Ran(e));
    RefilledSteps(d, a, b, s1, s2, s3, s4, s5, s6);
    RefilledCode();
    var first, last := [Init(d, Fresh), Note(e), loop], [Replace(d, Fresh), Clean(e), Ret];
    var eight: seq<nat> := [1, 1, 1, 1, 1, 1, 1, 1];
    RefilledFirst(d, e, s1, s2, s3);
    RefilledLast(d, e, s4, s5, s6);
    ExecAppend(first, last, EMPTY, eight);
    RefilledTrace(e, s6.trace);
  }

  lemma RefilledSteps(d: Slot, a: Ref, b: Ref, s1: State, s2: State, s3: State, s4: State, s5: State, s6: State)
    requires d == Slot(0, false) && a == Ref(0, false) && b == Ref(1, false)
    requires s1 == State(map[d := a], map[a := 1], 1, None, false, [])
    requires s2 == Log(Log(s1, Registered(Release(d))), Filled(Release(d)))
    requires s3 == Log(s2.(slots := map[], heap := map[]), Ran(Release(d)))
    requires s4 == Log(s3, Left([Release(d)]))
    requires s5 == Log(s4.(slots := map[d := b], heap := map[b := 1], next := 2), Filled(Release(d)))
    requires s6 == Log(s5.(slots := map[], heap := map[]), Ran(Release(d)))
    ensures Do(Init(d, Fresh), EMPTY, 1) == s1 && Do(Note(Release(d)), s1, 1) == s2
    ensures Do(Clean(Release(d)), s2, 1) == s3 && Do(Replace(d, Fresh), s4, 1) == s5
    ensures Do(Clean(Release(d)), s5, 1) == s6 && Do(Ret, s6, 1) == s6
  {
    assert s2.heap - {a} == map[] && s2.slots - {d} == map[];
    assert s5.heap - {b} == map[] && s5.slots - {d} == map[];
    assert map[][b := 1] == map[b := 1] && map[][d := b] == map[d := b];
    assert Assigned(s4, d, Fresh, 1) == s4.(slots := map[d := b], heap := map[b := 1], next := 2);
  }
}
