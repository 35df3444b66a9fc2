/** The cleanup emitter as the program has it: scope stacks that change. */
module CleanupCodegen {
  import opened Common
  import C = Cleanup

  class CleanupCodegen {
    var scopes: seq<seq<C.Entry>>
    var env: seq<map<string, C.Slot>>
    var loops: seq<nat>
    var next: nat
    var code: seq<C.Instr>       // of the piece that is being emitted
    var live: bool               // the insertion block has no terminator yet

    function State(): C.Emitter
      reads this
    {
      C.Emitter(scopes, env, loops, next)
    }

    /** The piece emitted so far is the given one after what was there before. */
    twostate predicate Emitted(p: C.Piece)
      reads this
    {
      code == old(code) + p.code && State() == p.em && live == p.live
    }

    constructor ()
      ensures State() == C.Emitter([[]], [map[]], [], 0) && code == [] && live
    {
      scopes, env, loops, next, code, live := [[]], [map[]], [], 0, [], true;
    }

    method Emit(i: C.Instr)
      modifies `code
      ensures code == old(code) + [i]
    {
      code := code + [i];
    }

    method EnvPush()
      modifies `scopes, `env
      ensures State() == C.Push(old(State()))
    {
      scopes := scopes + [[]];
      env := env + [map[]];
    }

    /** Cleanups of one scope, from its last entry to its first. */
    method EmitScope(scope: seq<C.Entry>)
      modifies `code
      ensures code == old(code) + C.Unwind(scope)
    {
      var i := |scope|;
      assert scope[..i] == scope;
      while i > 0
        invariant i <= |scope|
        invariant code + C.Unwind(scope[..i]) == old(code) + C.Unwind(scope)
      {
        i := i - 1;
        assert scope[..i + 1][..i] == scope[..i];
        Emit(C.Clean(scope[i]));
      }
    }

    /** Cleanups of every scope, from the innermost to the outermost. */
    method EmitAllScopes()
      modifies `code
      ensures code == old(code) + C.UnwindAll(scopes)
    {
      hide C.Unwind;
      var i := |scopes|;
      assert scopes[..i] == scopes;
      while i > 0
        invariant i <= |scopes|
        invariant code + C.UnwindAll(scopes[..i]) == old(code) + C.UnwindAll(scopes)
      {
        i := i - 1;
        assert scopes[..i + 1][..i] == scopes[..i];
        EmitScope(scopes[i]);
      }
    }

    method EnvPop()
      modifies `scopes, `env, `code
      ensures State() == C.Pop(old(State()))
      ensures code == old(code) + (if live && old(scopes) != [] then C.Unwind(old(scopes)[|old(scopes)| - 1]) else [])
    {
      if scopes != [] {
        if live { EmitScope(scopes[|scopes| - 1]); }
        scopes := scopes[..|scopes| - 1];
      }
      if env != [] { env := env[..|env| - 1]; }
    }

    method Register(e: C.Entry)
      modifies `scopes
      ensures State() == C.Register(old(State()), e)
    {
      if scopes != [] { scopes := scopes[|scopes| - 1 := scopes[|scopes| - 1] + [e]]; }
    }

    method EnvDefine(x: string, obj: bool) returns (s: C.Slot)
      modifies `scopes, `env, `next
      ensures State() == C.Define(old(State()), x, obj) && s == C.Slot(old(next), obj)
    {
      s := C.Slot(next, obj);
      next := next + 1;
      if env != [] { env := env[|env| - 1 := env[|env| - 1][x := s]]; }
      Register(C.EntryOf(s));
    }

    method Lookup(x: string) returns (s: Option<C.Slot>)
      ensures s == C.Lookup(env, x)
    {
      var i := |env|;
      assert env[..i] == env;
      while i > 0
        invariant i <= |env|
        invariant C.Lookup(env[..i], x) == C.Lookup(env, x)
      {
        i := i - 1;
        assert env[..i + 1][..i] == env[..i];
        if x in env[i] { return Some(env[i][x]); }
      }
      s := None;
    }

    method SourceOf(v: Option<C.Value>) returns (src: Option<C.Source>)
      ensures src == C.SourceOf(State(), v)
    {
      match v {
        case None => src := Some(C.NoValue);
        case Some(Literal) => src := Some(C.Fresh);
        case Some(Result) => src := Some(C.CallResult);
        case Some(Copy(y)) =>
          var s := Lookup(y);
          src := if s.Some? && !s.value.obj then Some(C.Load(s.value)) else None;
      }
    }

    // ----- statements ------------------------------------------------------------------------

    method GenStmts(ss: seq<C.Stmt>)
      requires live
      modifies this
      ensures Emitted(C.GenStmts(old(State()), ss))
      decreases ss, 0
    {
      var i := 0;
      assert ss[0..] == ss;
      while i < |ss|
        invariant i <= |ss|
        invariant var whole := C.GenStmts(old(State()), ss);
                  if live then
                    var rest := C.GenStmts(State(), ss[i..]);
                    code + rest.code == old(code) + whole.code && rest.em == whole.em && rest.live == whole.live
                  else Emitted(whole)
      {
        assert ss[i..][0] == ss[i] && ss[i..][1..] == ss[i + 1..];
        if live { GenStmt(ss[i]); }
        i := i + 1;
      }
    }

    method GenBlock(ss: seq<C.Stmt>)
      requires live
      modifies this
      ensures Emitted(C.GenBlock(old(State()), ss))
      decreases ss, 1
    {
      hide C.GenStmts, C.Unwind, C.Push, C.Pop;
      EnvPush();
      GenStmts(ss);
      EnvPop();
      assert code == old(code) + C.GenBlock(old(State()), ss).code;
    }

    method GenDecl(x: string, src: C.Source, obj: bool)
      requires live
      modifies this
      ensures Emitted(C.GenDecl(old(State()), x, src, obj))
    {
      var s := EnvDefine(x, obj);
      Emit(C.Init(s, src));
      Emit(C.Note(C.EntryOf(s)));
    }

    method GenStmt(s: C.Stmt)
      requires live
      modifies this
      ensures Emitted(C.GenStmt(old(State()), s))
      decreases s, 1
    {
      hide C.GenBlock, C.GenDecl, C.UnwindAll;
      match s {
        case DeclList(x, init) =>
          var src := SourceOf(init);
          if src.Some? { GenDecl(x, src.value, false); }
        case DeclObj(x, isNew) => GenDecl(x, if isNew then C.Fresh else C.NoValue, true);
        case Assign(x, value) =>
          var d := Lookup(x);
          var src := SourceOf(Some(value));
          if d.Some? && src.Some? && !d.value.obj { Emit(C.Replace(d.value, src.value)); }
        case Delete(x) =>
          var d := Lookup(x);
          if d.Some? { Emit(C.Drop(d.value)); }
        case Defer(id) =>
          var e := C.Deferred(id, next);
          next := next + 1;
          Register(e);
          Emit(C.Note(e));
        case Block(body) => GenBlock(body);
        case If(_, _) => GenIf(s);
        case Loop(_) => GenLoop(s);
        case Break => GenJump(true);
        case Continue => GenJump(false);
        case Return(result) =>
          var src := SourceOf(result);
          if src.Some? {
            Emit(C.SetResult(src.value));
            EmitAllScopes();
            Emit(C.Ret);
            live := false;
          }
      }
    }

    /** Each branch is emitted to blocks of its own. */
    method GenIf(s: C.Stmt)
      requires live && s.If?
      modifies this
      ensures Emitted(C.GenStmt(old(State()), s))
      decreases s, 0
    {
      hide C.GenBlock;
      var before := code;
      code := [];
      ghost var a := C.GenBlock(State(), s.thenBr);
      GenBlock(s.thenBr);
      assert code == a.code;
      var thenCode := code;
      code, live := [], true;
      GenBlock(s.elseBr);
      assert code == C.GenBlock(a.em, s.elseBr).code;
      code, live := before + [C.Choice(thenCode, code)], true;
    }

    method GenLoop(s: C.Stmt)
      requires live && s.Loop?
      modifies this
      ensures Emitted(C.GenStmt(old(State()), s))
      decreases s, 0
    {
      hide C.GenBlock;
      var before := code;
      loops := loops + [|scopes|];
      code := [];
      ghost var em0 := State();
      GenBlock(s.body);
      assert code == C.GenBlock(em0, s.body).code;
      LoopsBack(em0, s.body);
      loops := loops[..|loops| - 1];
      assert loops == old(loops);
      code, live := before + [C.Repeat(code)], true;
    }

    method GenJump(isBreak: bool)
      requires live
      modifies this
      ensures Emitted(C.GenStmt(old(State()), if isBreak then C.Break else C.Continue))
    {
      if loops == [] { return; }
      var around := C.Around(State());
      EmitAllScopes();
      Emit(if isBreak then C.Exit(around) else C.Next(around));
      live := false;
    }
  }

  lemma {:induction false} LoopsBack(em: C.Emitter, ss: seq<C.Stmt>)
    ensures C.GenBlock(em, ss).em.loops == em.loops
    decreases ss, 1
  {
    LoopsKept(C.Push(em), ss);
  }

  lemma {:induction false} LoopsKept(em: C.Emitter, ss: seq<C.Stmt>)
    ensures C.GenStmts(em, ss).em.loops == em.loops
    decreases ss, 0
  {
    if ss != [] {
      match ss[0] {
        case Block(body) => LoopsBack(em, body);
        case If(t, f) =>
          LoopsBack(em, t);
          LoopsBack(C.GenBlock(em, t).em, f);
        case _ =>
      }
      var a := C.GenStmt(em, ss[0]);
      if a.live { LoopsKept(a.em, ss[1..]); }
    }
  }

  /** A whole function: the code that the results on counts and order speak of. */
  method GenFunction(body: seq<C.Stmt>) returns (code: seq<C.Instr>)
    ensures code == C.GenFunction(body)
  {
    var g := new CleanupCodegen();
    g.GenStmts(body);
    if g.live {
      g.EmitAllScopes();
      g.Emit(C.Ret);
    }
    code := g.code;
  }
}
