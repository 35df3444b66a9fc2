/** What the program says about its runs: self-assignments, and jumps over deferred bodies that control
    can come to. */
module CleanupStatic {
  import opened Common
  import opened Cleanup
  import opened CleanupRun
  import opened CleanupEmit
  import opened CleanupTrace

  // ----- what the code can do ----------------------------------------------------------------

  /** Control can come out at the end, by some choice of branches. */
  predicate Passes(code: seq<Instr>)
    decreases code
  {
    code == [] || (PassesOne(code[0]) && Passes(code[1..]))
  }

  predicate PassesOne(i: Instr)
    decreases i
  {
    match i
    case Choice(t, f) => Passes(t) || Passes(f)
    case Exit(_) => false
    case Next(_) => false
    case Ret => false
    case _ => true
  }

  /** Control can come to a break or continue with a deferred body registered around its loop. */
  predicate JumpsOverDefer(code: seq<Instr>)
    decreases code
  {
    code != [] && (OneJumpsOver(code[0]) || (PassesOne(code[0]) && JumpsOverDefer(code[1..])))
  }

  predicate OneJumpsOver(i: Instr)
    decreases i
  {
    match i
    case Choice(t, f) => JumpsOverDefer(t) || JumpsOverDefer(f)
    case Repeat(body) => JumpsOverDefer(body)
    case Exit(around) => HasDefer(around)
    case Next(around) => HasDefer(around)
    case _ => false
  }

  /** No variable is assigned its own value. */
  predicate NoSelf(code: seq<Instr>)
    decreases code
  {
    code == [] || (NoSelfOne(code[0]) && NoSelf(code[1..]))
  }

  predicate NoSelfOne(i: Instr)
    decreases i
  {
    match i
    case Replace(d, src) => src != Load(d)
    case Choice(t, f) => NoSelf(t) && NoSelf(f)
    case Repeat(body) => NoSelf(body)
    case _ => true
  }

  // ----- what runs do ------------------------------------------------------------------------

  predicate NoSelfs(t: seq<Event>) { forall i :: 0 <= i < |t| ==> !t[i].Self? }

  lemma NoSelfsAppend(t: seq<Event>, x: Event)
    ensures NoSelfs(t + [x]) <==> NoSelfs(t) && !x.Self?
  {
    assert (t + [x])[|t|] == x;
    assert forall i :: 0 <= i < |t| ==> (t + [x])[i] == t[i];
  }

  /** The trace grows, and what the code cannot do is not in it. */
  ghost predicate Follows(t: seq<Event>, t1: seq<Event>, self: bool, over: bool) {
    && t <= t1
    && (self && NoSelfs(t) ==> NoSelfs(t1))
    && (over && DefersClear(t) ==> DefersClear(t1))
  }

  lemma FollowsTrans(a: seq<Event>, b: seq<Event>, c: seq<Event>, self: bool, over: bool)
    requires Follows(a, b, self, over) && Follows(b, c, self, over)
    ensures Follows(a, c, self, over)
  {}

  lemma FollowsOne(t: seq<Event>, x: Event, self: bool, over: bool)
    requires self ==> !x.Self?
    requires over && x.Left? ==> !HasDefer(x.around)
    ensures Follows(t, t + [x], self, over)
  {
    Append(t, x);
    NoSelfsAppend(t, x);
  }

  lemma SameTrace()
    ensures forall st, src, v :: Retain(st, src, v).trace == st.trace
    ensures forall st, v :: Decrement(st, v).trace == st.trace
    ensures forall st, s :: Clear(st, s).trace == st.trace
    ensures forall st, src, obj, o :: Eval(st, src, obj, o).0.trace == st.trace
  {}

  lemma DoFollows(i: Instr, st: State, oracle: nat)
    ensures Follows(st.trace, Do(i, st, oracle).trace, NoSelfOne(i), !OneJumpsOver(i))
  {
    hide Retain, Decrement, Free, Eval, Clear, Follows;
    var t, self, over := st.trace, NoSelfOne(i), !OneJumpsOver(i);
    SameTrace();
    FollowsSelf(t, self, over);
    match i {
      case Replace(d, src) =>
        if src == Load(d) && d in st.slots && st.slots[d] in st.heap {
          FollowsOne(t, Self(st.heap[st.slots[d]]), self, over);
        }
        NotedFollows(st, Assigned(st, d, src, oracle), d, self, over);
      case Drop(s) => NotedFollows(st, Clear(st, s), s, self, over);
      case Note(e) =>
        FollowsOne(t, Registered(e), self, over);
        FollowsOne(t + [Registered(e)], Filled(e), self, over);
        FollowsTrans(t, t + [Registered(e)], t + [Registered(e)] + [Filled(e)], self, over);
      case Clean(e) => FollowsOne(t, Ran(e), self, over);
      case Exit(around) => FollowsOne(t, Left(around), self, over);
      case Next(around) => FollowsOne(t, Left(around), self, over);
      case _ =>
    }
  }

  lemma FollowsSelf(t: seq<Event>, self: bool, over: bool)
    ensures Follows(t, t, self, over)
  {}

  lemma NotedFollows(st: State, st1: State, d: Slot, self: bool, over: bool)
    requires Follows(st.trace, st1.trace, self, over)
    ensures Follows(st.trace, Noted(st, st1, d).trace, self, over)
  {
    hide Follows;
    FollowsOne(st1.trace, Filled(EntryOf(d)), self, over);
    FollowsOne(st1.trace, Emptied(EntryOf(d)), self, over);
    var t1 := Noted(st, st1, d).trace;
    if t1 != st1.trace { FollowsTrans(st.trace, st1.trace, t1, self, over); }
  }

  /** Code that falls through can pass; and a run does what its code can do. */
  lemma {:induction false} RunFollows(code: seq<Instr>, st: State, oracle: seq<nat>)
    ensures var r := Exec(code, st, oracle);
            && Follows(st.trace, r.st.trace, NoSelf(code), !JumpsOverDefer(code))
            && (r.o == Normal ==> Passes(code))
    decreases |oracle|, code, 1
  {
    hide Follows, PassesOne, OneJumpsOver, NoSelfOne, ExecInstr;
    if code == [] {
      FollowsSelf(st.trace, true, true);
    } else {
      InstrFollows(code[0], st, oracle);
      var r := ExecInstr(code[0], st, oracle);
      var self, over := NoSelf(code), !JumpsOverDefer(code);
      Weaker(st.trace, r.st.trace, NoSelfOne(code[0]), !OneJumpsOver(code[0]), self, over);
      if r.o == Normal {
        RunFollows(code[1..], r.st, r.oracle);
        var t1 := Exec(code[1..], r.st, r.oracle).st.trace;
        Weaker(r.st.trace, t1, NoSelf(code[1..]), !JumpsOverDefer(code[1..]), self, over);
        FollowsTrans(st.trace, r.st.trace, t1, self, over);
      }
    }
  }

  lemma Weaker(t: seq<Event>, t1: seq<Event>, self: bool, over: bool, self1: bool, over1: bool)
    requires Follows(t, t1, self, over)
    requires (self1 ==> self) && (over1 ==> over)
    ensures Follows(t, t1, self1, over1)
  {}

  lemma {:induction false} InstrFollows(i: Instr, st: State, oracle: seq<nat>)
    ensures var r := ExecInstr(i, st, oracle);
            && Follows(st.trace, r.st.trace, NoSelfOne(i), !OneJumpsOver(i))
            && (r.o == Normal ==> PassesOne(i))
    decreases |oracle|, i, 0
  {
    hide Do, Follows;
    var self, over := NoSelfOne(i), !OneJumpsOver(i);
    FollowsSelf(st.trace, self, over);
    if oracle == [] {
    } else if i.Choice? {
      var b := if oracle[0] != 0 then i.t else i.f;
      RunFollows(b, st, oracle[1..]);
      Weaker(st.trace, Exec(b, st, oracle[1..]).st.trace, NoSelf(b), !JumpsOverDefer(b), self, over);
    } else if i.Repeat? {
      RunFollows(i.body, st, oracle[1..]);
      var r := Exec(i.body, st, oracle[1..]);
      if oracle[0] != 0 && (r.o == Normal || r.o == Continued) {
        InstrFollows(i, r.st, r.oracle);
        FollowsTrans(st.trace, r.st.trace, ExecInstr(i, r.st, r.oracle).st.trace, self, over);
      }
    } else {
      DoFollows(i, st, oracle[0]);
    }
  }

  // ----- driving a run -----------------------------------------------------------------------

  /** An oracle that has more to say than is asked. */
  lemma {:induction false} MoreOracle(code: seq<Instr>, st: State, oracle: seq<nat>, more: seq<nat>)
    requires Exec(code, st, oracle).o != Stopped
    ensures var r := Exec(code, st, oracle);
            Exec(code, st, oracle + more) == r.(oracle := r.oracle + more)
    decreases |oracle|, code, 1
  {
    hide ExecInstr;
    if code != [] {
      var r := ExecInstr(code[0], st, oracle);
      MoreOracleOne(code[0], st, oracle, more);
      if r.o == Normal { MoreOracle(code[1..], r.st, r.oracle, more); }
    }
  }

  lemma {:induction false} MoreOracleOne(i: Instr, st: State, oracle: seq<nat>, more: seq<nat>)
    requires ExecInstr(i, st, oracle).o != Stopped
    ensures var r := ExecInstr(i, st, oracle);
            ExecInstr(i, st, oracle + more) == r.(oracle := r.oracle + more)
    decreases |oracle|, i, 0
  {
    hide Do;
    assert oracle != [];
    assert (oracle + more)[1..] == oracle[1..] + more && (oracle + more)[0] == oracle[0];
    if i.Choice? {
      MoreOracle(if oracle[0] != 0 then i.t else i.f, st, oracle[1..], more);
    } else if i.Repeat? && oracle[0] != 0 {
      var r := Exec(i.body, st, oracle[1..]);
      MoreOracle(i.body, st, oracle[1..], more);
      if r.o == Normal || r.o == Continued { MoreOracleOne(i, r.st, r.oracle, more); }
    }
  }

  /** The run is over and has used the oracle up. */
  predicate Over(r: Run) { r.o != Stopped && r.oracle == [] }

  /** One instruction, and then the rest of the code. */
  lemma Join(code: seq<Instr>, st: State, a: seq<nat>, b: seq<nat>)
    requires code != [] && Over(ExecInstr(code[0], st, a)) && ExecInstr(code[0], st, a).o == Normal
    ensures Exec(code, st, a + b) == Exec(code[1..], ExecInstr(code[0], st, a).st, b)
  {
    hide ExecInstr;
    MoreOracleOne(code[0], st, a, b);
    assert [] + b == b;
  }

  lemma Cut(code: seq<Instr>, st: State, a: seq<nat>)
    requires code != [] && ExecInstr(code[0], st, a).o != Normal
    ensures Exec(code, st, a) == ExecInstr(code[0], st, a)
  {}

  /** Code that can pass does so for some oracle, unless something freed is touched. */
  lemma {:induction false} DrivePast(code: seq<Instr>, st: State) returns (o: seq<nat>)
    requires Passes(code)
    ensures var r := Exec(code, st, o); Over(r) && (r.o == Normal || r.o == Faulted)
    decreases code, 1
  {
    hide PassesOne, ExecInstr;
    if code == [] {
      o := [];
    } else {
      o := DrivePastOne(code[0], st);
      var r := ExecInstr(code[0], st, o);
      if r.o == Normal {
        var o1 := DrivePast(code[1..], r.st);
        Join(code, st, o, o1);
        o := o + o1;
      } else {
        Cut(code, st, o);
      }
    }
  }

  lemma ChooseBranch(i: Instr, st: State, b: nat, o: seq<nat>)
    requires i.Choice?
    ensures ExecInstr(i, st, [b] + o) == Exec(if b != 0 then i.t else i.f, st, o)
  {
    assert ([b] + o)[1..] == o;
  }

  lemma {:induction false} DrivePastOne(i: Instr, st: State) returns (o: seq<nat>)
    requires PassesOne(i)
    ensures var r := ExecInstr(i, st, o); Over(r) && (r.o == Normal || r.o == Faulted)
    decreases i, 0
  {
    hide Do;
    if i.Choice? {
      var b := if Passes(i.t) then 1 else 0;
      var o1 := DrivePast(if b != 0 then i.t else i.f, st);
      ChooseBranch(i, st, b, o1);
      o := [b] + o1;
    } else {
      o := [0];
    }
  }

  /** Any code comes to an end for some oracle. */
  lemma {:induction false} DriveOn(code: seq<Instr>, st: State) returns (o: seq<nat>)
    ensures Over(Exec(code, st, o))
    decreases code, 1
  {
    hide ExecInstr;
    if code == [] {
      o := [];
    } else {
      o := DriveOnOne(code[0], st);
      var r := ExecInstr(code[0], st, o);
      if r.o == Normal {
        var o1 := DriveOn(code[1..], r.st);
        Join(code, st, o, o1);
        o := o + o1;
      } else {
        Cut(code, st, o);
      }
    }
  }

  lemma {:induction false} DriveOnOne(i: Instr, st: State) returns (o: seq<nat>)
    ensures Over(ExecInstr(i, st, o))
    decreases i, 0
  {
    hide Do;
    if i.Choice? {
      var o1 := DriveOn(i.t, st);
      ChooseBranch(i, st, 1, o1);
      o := [1] + o1;
    } else {
      o := [0];
    }
  }

  /** A jump over a deferred body that can be reached is taken for some oracle. */
  lemma {:induction false} DriveOver(code: seq<Instr>, st: State) returns (o: seq<nat>)
    requires JumpsOverDefer(code)
    ensures var r := Exec(code, st, o); Over(r) && (r.o == Faulted || !DefersClear(r.st.trace))
    decreases code, 1
  {
    hide PassesOne, OneJumpsOver, ExecInstr;
    if OneJumpsOver(code[0]) {
      o := DriveOverOne(code[0], st);
      var r := ExecInstr(code[0], st, o);
      if r.o == Normal {
        var o1 := DriveOn(code[1..], r.st);
        Join(code, st, o, o1);
        StaysOver(code[1..], r.st, o1);
        o := o + o1;
      } else {
        Cut(code, st, o);
      }
    } else {
      o := DrivePastOne(code[0], st);
      var r := ExecInstr(code[0], st, o);
      if r.o == Normal {
        var o1 := DriveOver(code[1..], r.st);
        Join(code, st, o, o1);
        o := o + o1;
      } else {
        Cut(code, st, o);
      }
    }
  }

  lemma StaysOver(code: seq<Instr>, st: State, oracle: seq<nat>)
    requires !DefersClear(st.trace)
    ensures !DefersClear(Exec(code, st, oracle).st.trace)
  {
    hide Exec;
    RunFollows(code, st, oracle);
    var t, t1 := st.trace, Exec(code, st, oracle).st.trace;
    assert t <= t1;
    assert forall i :: 0 <= i < |t| ==> t1[i] == t[i];
  }

  lemma LeftOver(st: State, around: seq<Entry>)
    requires HasDefer(around)
    ensures !DefersClear(Log(st, Left(around)).trace)
  {
    assert Log(st, Left(around)).trace[|st.trace|] == Left(around);
  }

  /** One round of a loop, which is then left. */
  lemma OneRound(i: Instr, st: State, o: seq<nat>)
    requires i.Repeat? && Over(Exec(i.body, st, o))
    ensures var r, r1 := Exec(i.body, st, o), ExecInstr(i, st, [1] + o + [0]);
            if r.o == Normal || r.o == Continued then r1 == Run(Normal, r.st, [])
            else if r.o == Exited then r1 == Run(Normal, r.st, [0])
            else r1 == r.(oracle := [0])
  {
    hide Exec;
    assert ([1] + o + [0])[1..] == o + [0];
    MoreOracle(i.body, st, o, [0]);
  }

  lemma JustOnce(i: Instr, st: State, o: seq<nat>)
    requires i.Repeat? && Over(Exec(i.body, st, o))
    requires var r := Exec(i.body, st, o); r.o != Normal && r.o != Continued
    ensures var r := Exec(i.body, st, o);
            ExecInstr(i, st, [1] + o) == if r.o == Exited then r.(o := Normal) else r
  {
    hide Exec;
    assert ([1] + o)[1..] == o;
  }

  lemma {:induction false} DriveOverOne(i: Instr, st: State) returns (o: seq<nat>)
    requires OneJumpsOver(i)
    ensures var r := ExecInstr(i, st, o); Over(r) && (r.o == Faulted || !DefersClear(r.st.trace))
    decreases i, 0
  {
    hide JumpsOverDefer, Exec, DefersClear;
    match i {
      case Choice(t, f) =>
        var b := if JumpsOverDefer(t) then 1 else 0;
        var o1 := DriveOver(if b != 0 then t else f, st);
        ChooseBranch(i, st, b, o1);
        o := [b] + o1;
      case Repeat(body) =>
        var o1 := DriveOver(body, st);
        var r := Exec(body, st, o1);
        if r.o == Normal || r.o == Continued {
          OneRound(i, st, o1);
          o := [1] + o1 + [0];
        } else {
          JustOnce(i, st, o1);
          o := [1] + o1;
        }
      case Exit(around) =>
        LeftOver(st, around);
        o := [0];
      case Next(around) =>
        LeftOver(st, around);
        o := [0];
      case _ =>
    }
  }

  // ----- self-assignment in the source -------------------------------------------------------

  predicate NoSelfAssign(ss: seq<Stmt>)
    decreases ss
  {
    ss == [] || (NoSelfAssignOne(ss[0]) && NoSelfAssign(ss[1..]))
  }

  predicate NoSelfAssignOne(s: Stmt)
    decreases s
  {
    match s
    case Assign(x, value) => value != Copy(x)
    case Block(body) => NoSelfAssign(body)
    case If(t, f) => NoSelfAssign(t) && NoSelfAssign(f)
    case Loop(body) => NoSelfAssign(body)
    case _ => true
  }

  lemma {:induction false} NoSelfAppend(a: seq<Instr>, b: seq<Instr>)
    requires NoSelf(a) && NoSelf(b)
    ensures NoSelf(a + b)
    decreases a
  {
    if a == [] {
      assert a + b == b;
    } else {
      NoSelfAppend(a[1..], b);
      assert (a + b)[1..] == a[1..] + b;
    }
  }

  lemma NoSelfSingle(i: Instr)
    ensures NoSelf([i]) <==> NoSelfOne(i)
    ensures NoSelf([])
  {
    var none: seq<Instr> := [];
    assert [i][1..] == none && NoSelf(none);
  }

  lemma {:induction false} UnwindNoSelf(es: seq<Entry>)
    ensures NoSelf(Unwind(es))
    decreases |es|
  {
    if es != [] { UnwindNoSelf(es[..|es| - 1]); }
  }

  lemma UnwindAllNoSelf(scopes: seq<seq<Entry>>, i: Instr)
    requires i.Ret? || i.Exit? || i.Next?
    ensures NoSelf(UnwindAll(scopes) + [i])
  {
    UnwindAllFlat(scopes);
    UnwindNoSelf(Flatten(scopes));
    NoSelfSingle(i);
    NoSelfAppend(UnwindAll(scopes), [i]);
  }

  lemma {:induction false} LookupAt(env: seq<map<string, Slot>>, x: string) returns (i: nat)
    requires Lookup(env, x).Some?
    ensures i < |env| && x in env[i] && env[i][x] == Lookup(env, x).value
    decreases |env|
  {
    if x in env[|env| - 1] { i := |env| - 1; } else { i := LookupAt(env[..|env| - 1], x); }
  }

  lemma SameVariable(env: seq<map<string, Slot>>, x: string, y: string)
    requires OwnSlots(env) && Lookup(env, x).Some? && Lookup(env, x) == Lookup(env, y)
    ensures x == y
  {
    var i := LookupAt(env, x);
    var j := LookupAt(env, y);
  }

  lemma {:induction false} StmtsNoSelf(em: Emitter, ss: seq<Stmt>)
    requires Inside(em) && NoSelfAssign(ss)
    ensures NoSelf(GenStmts(em, ss).code)
    decreases ss, 0
  {
    hide GenStmt, Inside, NoSelfAssignOne;
    if ss != [] {
      StmtNoSelf(em, ss[0]);
      StmtLater(em, ss[0]);
      var a := GenStmt(em, ss[0]);
      if a.live {
        StmtsNoSelf(a.em, ss[1..]);
        NoSelfAppend(a.code, GenStmts(a.em, ss[1..]).code);
      }
    }
  }

  lemma {:induction false} BlockNoSelf(em: Emitter, ss: seq<Stmt>)
    requires EmOk(em) && NoSelfAssign(ss)
    ensures NoSelf(GenBlock(em, ss).code)
    decreases ss, 1
  {
    hide EmOk, Inside, GenStmts;
    PushInside(em);
    StmtsNoSelf(Push(em), ss);
    var a := GenStmts(Push(em), ss);
    if a.live && a.em.scopes != [] { UnwindNoSelf(a.em.scopes[|a.em.scopes| - 1]); }
    NoSelfAppend(a.code, if a.live && a.em.scopes != [] then Unwind(a.em.scopes[|a.em.scopes| - 1]) else []);
  }

  lemma {:induction false} StmtNoSelf(em: Emitter, s: Stmt)
    requires Inside(em) && NoSelfAssignOne(s)
    ensures NoSelf(GenStmt(em, s).code)
    decreases s, 1
  {
    hide GenBlock, UnwindAll, NoSelf, SlotsBelow, EnvOk, OwnSlots, Lookup;
    NoSelfSingle(Ret);
    forall i ensures NoSelf([i]) <==> NoSelfOne(i) { NoSelfSingle(i); }
    match s {
      case DeclList(x, init) =>
        if SourceOf(em, init).Some? { DeclNoSelf(em, x, SourceOf(em, init).value, false); }
      case DeclObj(x, isNew) => DeclNoSelf(em, x, if isNew then Fresh else NoValue, true);
      case Assign(x, Copy(y)) =>
        var d := Lookup(em.env, x);
        if d.Some? && d == Lookup(em.env, y) { SameVariable(em.env, x, y); }
      case Block(body) => BlockNoSelf(em, body);
      case If(t, f) =>
        BlockNoSelf(em, t);
        BlockBack(em, t);
        BlockNoSelf(GenBlock(em, t).em, f);
      case Loop(body) =>
        EnterLoop(em);
        BlockNoSelf(em.(loops := em.loops + [|em.scopes|]), body);
      case Break => UnwindAllNoSelf(em.scopes, Exit(Around(em)));
      case Continue => UnwindAllNoSelf(em.scopes, Next(Around(em)));
      case Return(result) =>
        if SourceOf(em, result).Some? {
          var i := SetResult(SourceOf(em, result).value);
          UnwindAllNoSelf(em.scopes, Ret);
          NoSelfAppend([i], UnwindAll(em.scopes) + [Ret]);
          assert [i] + (UnwindAll(em.scopes) + [Ret]) == [i] + UnwindAll(em.scopes) + [Ret];
        }
      case _ =>
    }
  }

  lemma DeclNoSelf(em: Emitter, x: string, src: Source, obj: bool)
    ensures NoSelf(GenDecl(em, x, src, obj).code)
  {
    var s := Slot(em.next, obj);
    var i, j := Init(s, src), Note(EntryOf(s));
    NoSelfSingle(i);
    NoSelfSingle(j);
    NoSelfAppend([i], [j]);
    assert [i] + [j] == [i, j];
  }
}
