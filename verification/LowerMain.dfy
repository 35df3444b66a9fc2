/** The generated function computes what the source function means. */
module LowerMain {
  import opened Common
  import opened ScalarSource
  import opened ScalarCheck
  import opened Ir
  import opened Lower
  import opened LowerFrame
  import opened LowerAgree
  import opened LowerSimExpr
  import opened LowerSim

  function Arguments(args: seq<int>): map<nat, int> {
    map i: nat | i < |args| :: args[i]
  }

  /** The machine on entry: arguments in the first registers. */
  function Entry(args: seq<int>): Machine {
    Running(0, 0, 0, Memory(Arguments(args), map[], []))
  }

  function ParamCode(em: Emitter, x: string, i: nat): Emitter {
    DefineVar(Emit(em, Store(Reg(i), em.nextSlot)), x)
  }

  /** Emitting the parameters appends one store after the other. */
  lemma {:induction false} ParamsGrow(em: Emitter, params: seq<string>, i: nat)
    requires i <= |params|
    ensures Grows(em, GenParams(em, params, i))
    decreases |params| - i
  {
    if i < |params| {
      var em1 := ParamCode(em, params[i], i);
      assert Grows(em, em1);
      ParamsGrow(em1, params, i + 1);
      GrowsTrans(em, em1, GenParams(em, params, i));
    }
  }

  lemma RunNone(p: seq<Code>, c: Machine)
    ensures Run(p, c, 0) == c
  {}

  /** One more parameter. */
  lemma BindNext(params: seq<string>, args: seq<int>, i: nat)
    requires i < |params| == |args|
    ensures Define([Bind(params[..i], args[..i])], params[i], args[i]) == [Bind(params[..i + 1], args[..i + 1])]
    ensures Names(params[..i + 1]) == Names(params[..i]) + {params[i]}
  {
    assert params[..i + 1] == params[..i] + [params[i]];
    assert params[..i + 1][..i] == params[..i] && args[..i + 1][..i] == args[..i];
  }

  lemma ParamOpen(em: Emitter, x: string, i: nat)
    ensures Open(ParamCode(em, x, i)) && ParamCode(em, x, i).loops == em.loops
  {}

  lemma ArgumentOf(args: seq<int>, i: nat)
    requires i < |args|
    ensures Value(Reg(i), Arguments(args)) == args[i]
  {}

  /** The store of one parameter. */
  lemma SimParam(p: seq<Code>, em: Emitter, params: seq<string>, args: seq<int>, i: nat, c: Machine)
    requires i < |params| == |args|
    requires Part(ParamCode(em, params[i], i).blocks, p)
    requires ExprReady(em, Names(params[..i]), [Bind(params[..i], args[..i])], c) && Open(em)
    requires c.m.regs == Arguments(args) && c.m.out == []
    ensures var em1, c1 := ParamCode(em, params[i], i), Run(p, c, 1);
            && ExprReady(em1, Names(params[..i + 1]), [Bind(params[..i + 1], args[..i + 1])], c1)
            && c1.m.regs == Arguments(args) && c1.m.out == []
  {
    hide Touch, Part, Agree, Distinct, Below, Run, Names, Bind, Define, EnvOk, Value, Covers;
    var s := [Bind(params[..i], args[..i])];
    StoreFresh(p, em, Reg(i), params[i], s, c);
    DefineOk(em.env, params[i], em.nextSlot);
    assert |em.env| > 0 by { AgreeLength(em.env, s, c.m.slots); }
    CoversDefine(em.env, Names(params[..i]), params[i], em.nextSlot);
    ArgumentOf(args, i);
    BindNext(params, args, i);
  }

  lemma AgreeLength(env: Scopes<nat>, s: Store, slots: map<nat, int>)
    requires Agree(env, s, slots)
    ensures |env| == |s|
  {}

  lemma {:induction false} SimParams(p: seq<Code>, em: Emitter, params: seq<string>, args: seq<int>,
                                     i: nat, c: Machine) returns (k: nat, c': Machine)
    requires i <= |params| == |args|
    requires Part(GenParams(em, params, i).blocks, p)
    requires ExprReady(em, Names(params[..i]), [Bind(params[..i], args[..i])], c) && Open(em)
    requires c.m.regs == Arguments(args) && c.m.out == []
    ensures Run(p, c, k) == c' && c'.Running?
    ensures ExprReady(GenParams(em, params, i), Names(params), [Bind(params, args)], c')
    ensures Open(GenParams(em, params, i)) && c'.m.out == []
    ensures GenParams(em, params, i).loops == em.loops
    decreases |params| - i
  {
    hide Touch, Part, ExprReady, Open, Run, Names, Bind, Grows;
    if i == |params| {
      k, c' := 0, c;
      RunNone(p, c);
      assert params[..i] == params && args[..i] == args;
    } else {
      var em1 := ParamCode(em, params[i], i);
      assert Part(em1.blocks, p) by { PartOfParams(em1, params, i + 1, p); }
      SimParam(p, em, params, args, i, c);
      ParamOpen(em, params[i], i);
      var c1 := Run(p, c, 1);
      k, c' := SimParams(p, em1, params, args, i + 1, c1);
      Chain(p, c, 1, c1, k, c');
      k := k + 1;
    }
    ReadyRuns(GenParams(em, params, i), Names(params), [Bind(params, args)], c');
  }

  lemma PartOfParams(em: Emitter, params: seq<string>, i: nat, p: seq<Code>)
    requires i <= |params| && Part(GenParams(em, params, i).blocks, p)
    ensures Part(em.blocks, p)
  {
    hide Touch, Part;
    ParamsGrow(em, params, i);
    PartBefore(em.blocks, GenParams(em, params, i).blocks, p, {em.cur});
  }

  lemma ReadyRuns(em: Emitter, names: set<string>, s: Store, c: Machine)
    requires ExprReady(em, names, s, c)
    ensures c.Running?
  {}

  /** The finished blocks contain everything emitted for the body. */
  lemma BodyPart(f: Function)
    ensures Part(GenStmts(Start(f), f.body).blocks, Compiled(f))
    ensures var em := GenStmts(Start(f), f.body);
            Open(em) ==> Part(Emit(em, Ret(if f.isVoid then None else Some(Const(0)))).blocks, Compiled(f))
  {
    var em := GenStmts(Start(f), f.body);
    GrowsEmit(em, Ret(if f.isVoid then None else Some(Const(0))));
  }

  /** What the machine does with the generated function, for every outcome of the source. */
  predicate CallDone(f: Function, args: seq<int>, fuel: nat, o: Outcome, out: seq<int>, k: nat) {
    var c := Run(Compiled(f), Entry(args), k);
    match o
    case Returned(v) => c == Done(v, out)
    case Wrong => c == Stuck(out)
    case Timeout => c.Running? && c.m.out == out && k >= fuel
    case _ => false
  }

  lemma StartReady(f: Function, args: seq<int>)
    requires |args| == |f.params|
    ensures ExprReady(Emitter([[]], 0, [], [map[]], 0, |f.params|, 0), Names(f.params[..0]),
                      [Bind(f.params[..0], args[..0])], Entry(args))
  {}

  /** From the entry to the first statement. */
  lemma SimEntry(f: Function, args: seq<int>) returns (k: nat, c: Machine)
    requires |args| == |f.params|
    ensures Run(Compiled(f), Entry(args), k) == c && c.Running?
    ensures StmtReady(Start(f), Names(f.params), State([Bind(f.params, args)], []), c)
    ensures Start(f).loops == []
  {
    hide Touch, Part, Agree, GenStmts, Run;
    BodyPart(f);
    var em1 := Start(f);
    var em2 := GenStmts(em1, f.body);
    GrowsStmts(em1, f.body);
    PartBefore(em1.blocks, em2.blocks, Compiled(f), {em1.cur});
    StartReady(f, args);
    k, c := SimParams(Compiled(f), Emitter([[]], 0, [], [map[]], 0, |f.params|, 0), f.params, args, 0,
                      Entry(args));
  }

  lemma SimCall(f: Function, args: seq<int>, fuel: nat) returns (k: nat)
    requires ScopedFunction(f) && |args| == |f.params|
    ensures CallDone(f, args, fuel, Call(f, args, fuel).0, Call(f, args, fuel).1, k)
  {
    hide Touch, Part, Agree, Keeps, GenStmts, ExecStmts, Run, Compiled, Start, StmtReady, Entry;
    var p := Compiled(f);
    var em2 := GenStmts(Start(f), f.body);
    var st := State([Bind(f.params, args)], []);
    BodyPart(f);
    var k1, c1 := SimEntry(f, args);
    var k2, c2 := SimStmts(p, Start(f), f.body, Names(f.params), st, fuel, c1);
    Chain(p, Entry(args), k1, c1, k2, c2);
    k := k1 + k2;
    assert Nests(Start(f).loops) == [];
    if ExecStmts(f.body, [], st, fuel).0.Normal? {
      StepEmitted(p, em2, Ret(if f.isVoid then None else Some(Const(0))), c2);
      Chain(p, Entry(args), k, c2, 1, Step(p, c2));
      k := k + 1;
    }
  }

  /** Once the machine has stopped it shows the same thing at every later moment. */
  lemma StoppedOnce(p: seq<Code>, c: Machine, k: nat, n: nat)
    requires !Run(p, c, k).Running? && (k <= n || !Run(p, c, n).Running?)
    ensures Run(p, c, n) == Run(p, c, k)
  {
    if k <= n {
      RunSplits(p, c, k, n - k);
      FinalStays(p, Run(p, c, k), n - k);
    } else {
      RunSplits(p, c, n, k - n);
      FinalStays(p, Run(p, c, n), k - n);
    }
  }

  ghost predicate MachineStops(f: Function, args: seq<int>, c: Machine) {
    !c.Running? && exists k :: Run(Compiled(f), Entry(args), k) == c
  }

  ghost predicate SourceEnds(f: Function, args: seq<int>, o: Outcome, out: seq<int>)
    requires |args| == |f.params|
  {
    exists fuel :: Call(f, args, fuel) == (o, out)
  }

  function Final(o: Outcome, out: seq<int>): Machine
    requires o.Returned? || o.Wrong?
  {
    if o.Returned? then Done(o.v, out) else Stuck(out)
  }

  /** Main result: the generated code returns v having printed out exactly when the source function
      does; and it is stuck exactly when the source runs a continue directly in a switch. */
  lemma LoweringIsCorrect(f: Function, args: seq<int>, o: Outcome, out: seq<int>)
    requires ScopedFunction(f) && |args| == |f.params| && (o.Returned? || o.Wrong?)
    ensures MachineStops(f, args, Final(o, out)) <==> SourceEnds(f, args, o, out)
  {
    var p, c := Compiled(f), Entry(args);
    if SourceEnds(f, args, o, out) {
      var fuel :| Call(f, args, fuel) == (o, out);
      var k := SimCall(f, args, fuel);
      assert Run(p, c, k) == Final(o, out);
    }
    if MachineStops(f, args, Final(o, out)) {
      var n :| Run(p, c, n) == Final(o, out);
      var fuel := n + 1;
      var k := SimCall(f, args, fuel);
      var (o2, out2) := Call(f, args, fuel);
      if !o2.Timeout? {
        StoppedOnce(p, c, k, n);
        assert o2 == o && out2 == out;
      } else {
        StoppedOnce(p, c, n, k);
        assert false;
      }
    }
  }

  ghost predicate NeverEnds(f: Function, args: seq<int>)
    requires |args| == |f.params|
  {
    forall fuel: nat :: Call(f, args, fuel).0 == Timeout
  }

  ghost predicate NeverStops(f: Function, args: seq<int>) {
    forall k: nat :: Run(Compiled(f), Entry(args), k).Running?
  }

  /** Hence a source function that never ends compiles to code that never stops, and only such a one. */
  lemma DivergenceIsPreserved(f: Function, args: seq<int>)
    requires ScopedFunction(f) && |args| == |f.params|
    ensures NeverEnds(f, args) <==> NeverStops(f, args)
  {
    hide Call, Compiled, Run;
    var p, c := Compiled(f), Entry(args);
    if NeverEnds(f, args) {
      forall n: nat ensures Run(p, c, n).Running? {
        var k := SimCall(f, args, n);
        assert Call(f, args, n).0 == Timeout;
        if !Run(p, c, n).Running? { StoppedOnce(p, c, n, k); }
      }
    }
    if NeverStops(f, args) {
      forall fuel: nat ensures Call(f, args, fuel).0 == Timeout {
        var k := SimCall(f, args, fuel);
        assert Run(p, c, k).Running?;
      }
    }
  }
}
