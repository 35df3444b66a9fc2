/** Cleanup scopes: the small language of list and object variables, and the code that is emitted for
    it, with releases, destructors and defers at every scope exit and every return. */
module Cleanup {
  import opened Common

  // ----- source ------------------------------------------------------------------------------

  /** What a list variable is given: a literal, the result of a call, another variable. */
  datatype Value = Literal | Result | Copy(y: string)

  datatype Stmt =
    | DeclList(x: string, init: Option<Value>)
    | DeclObj(x: string, isNew: bool)      // an instance made here, or no initialiser
    | Assign(x: string, value: Value)
    | Delete(x: string)
    | Defer(id: nat)
    | Block(body: seq<Stmt>)
    | If(thenBr: seq<Stmt>, elseBr: seq<Stmt>)
    | Loop(body: seq<Stmt>)
    | Break
    | Continue
    | Return(result: Option<Value>)

  // ----- emitted code ------------------------------------------------------------------------

  /** A variable's stack slot; obj tells an object's from a list's. */
  datatype Slot = Slot(n: nat, obj: bool)

  /** What a scope has to do when it is left.  Every registration has a number of its own, in the order
      of emission; the number n tells apart defers whose bodies look alike. */
  datatype Entry = Release(slot: Slot) | Destroy(slot: Slot) | Deferred(id: nat, n: nat)

  datatype Source = Fresh | CallResult | Load(slot: Slot) | NoValue

  datatype Instr =
    | Init(dst: Slot, src: Source)         // first value of a variable
    | Replace(dst: Slot, src: Source)      // assignment
    | Drop(slot: Slot)                     // delete
    | Note(e: Entry)                       // no code: control has passed the registration of e
    | Clean(e: Entry)
    | SetResult(src: Source)
    | Ret
    | Choice(t: seq<Instr>, f: seq<Instr>)
    | Repeat(body: seq<Instr>)
    | Exit(around: seq<Entry>)             // jump out of the loop, around which these entries wait
    | Next(around: seq<Entry>)

  // ----- the emitter -------------------------------------------------------------------------

  /** loops: for each loop around, how many scopes there were outside it. */
  datatype Emitter = Emitter(scopes: seq<seq<Entry>>, env: seq<map<string, Slot>>, loops: seq<nat>,
                             next: nat)

  /** The code of a piece, the emitter after it, and whether the insertion block is still open. */
  datatype Piece = Piece(code: seq<Instr>, em: Emitter, live: bool)

  function Flatten(scopes: seq<seq<Entry>>): seq<Entry> {
    if scopes == [] then [] else Flatten(scopes[..|scopes| - 1]) + scopes[|scopes| - 1]
  }

  /** A scope's entries, last first. */
  function Unwind(es: seq<Entry>): seq<Instr> {
    if es == [] then [] else [Clean(es[|es| - 1])] + Unwind(es[..|es| - 1])
  }

  /** All scopes, innermost first. */
  function UnwindAll(scopes: seq<seq<Entry>>): seq<Instr> {
    if scopes == [] then []
    else Unwind(scopes[|scopes| - 1]) + UnwindAll(scopes[..|scopes| - 1])
  }

  function Lookup(env: seq<map<string, Slot>>, x: string): Option<Slot> {
    if env == [] then None
    else if x in env[|env| - 1] then Some(env[|env| - 1][x])
    else Lookup(env[..|env| - 1], x)
  }

  function Push(em: Emitter): Emitter {
    em.(scopes := em.scopes + [[]], env := em.env + [map[]])
  }

  function Pop(em: Emitter): Emitter {
    em.(scopes := if em.scopes == [] then [] else em.scopes[..|em.scopes| - 1],
        env := if em.env == [] then [] else em.env[..|em.env| - 1])
  }

  function Register(em: Emitter, e: Entry): Emitter {
    if em.scopes == [] then em
    else em.(scopes := em.scopes[|em.scopes| - 1 := em.scopes[|em.scopes| - 1] + [e]])
  }

  function EntryOf(s: Slot): Entry { if s.obj then Destroy(s) else Release(s) }

  /** A new variable in the innermost scope, to be cleaned up when that is left. */
  function Define(em: Emitter, x: string, obj: bool): Emitter {
    var s := Slot(em.next, obj);
    var em1 := Register(em, EntryOf(s)).(next := em.next + 1);
    if em.env == [] then em1
    else em1.(env := em.env[|em.env| - 1 := em.env[|em.env| - 1][x := s]])
  }

  /** None when the value does not name a list variable: the type checker has refused it. */
  function SourceOf(em: Emitter, v: Option<Value>): Option<Source> {
    match v
    case None => Some(NoValue)
    case Some(Literal) => Some(Fresh)
    case Some(Result) => Some(CallResult)
    case Some(Copy(y)) =>
      match Lookup(em.env, y)
      case Some(s) => if s.obj then None else Some(Load(s))
      case None => None
  }

  function GenStmts(em: Emitter, ss: seq<Stmt>): Piece
    decreases ss, 0
  {
    if ss == [] then Piece([], em, true)
    else
      var a := GenStmt(em, ss[0]);
      if !a.live then a
      else
        var b := GenStmts(a.em, ss[1..]);
        Piece(a.code + b.code, b.em, b.live)
  }

  /** The scope's own cleanups are emitted only where the end of the block can be reached. */
  function GenBlock(em: Emitter, ss: seq<Stmt>): Piece
    decreases ss, 1
  {
    var a := GenStmts(Push(em), ss);
    Piece(a.code + (if a.live && a.em.scopes != [] then Unwind(a.em.scopes[|a.em.scopes| - 1]) else []),
          Pop(a.em), a.live)
  }

  function GenDecl(em: Emitter, x: string, src: Source, obj: bool): Piece {
    var s := Slot(em.next, obj);
    Piece([Init(s, src), Note(EntryOf(s))], Define(em, x, obj), true)
  }

  /** The entries around the innermost loop. */
  function Around(em: Emitter): seq<Entry> {
    if em.loops == [] || em.loops[|em.loops| - 1] > |em.scopes| then []
    else Flatten(em.scopes[..em.loops[|em.loops| - 1]])
  }

  function GenStmt(em: Emitter, s: Stmt): Piece
    decreases s, 1
  {
    match s
    case DeclList(x, init) =>
      (match SourceOf(em, init)
       case Some(src) => GenDecl(em, x, src, false)
       case None => Piece([], em, true))
    case DeclObj(x, isNew) => GenDecl(em, x, if isNew then Fresh else NoValue, true)
    case Assign(x, value) =>
      Piece(match (Lookup(em.env, x), SourceOf(em, Some(value)))
            case (Some(d), Some(src)) => if d.obj then [] else [Replace(d, src)]
            case _ => [],
            em, true)
    case Delete(x) =>
      Piece(match Lookup(em.env, x) case Some(d) => [Drop(d)] case None => [], em, true)
    case Defer(id) =>
      var e := Deferred(id, em.next);
      Piece([Note(e)], Register(em, e).(next := em.next + 1), true)
    case Block(body) => GenBlock(em, body)
    case If(t, f) =>
      var a := GenBlock(em, t);
      var b := GenBlock(a.em, f);
      Piece([Choice(a.code, b.code)], b.em, true)
    case Loop(body) =>
      var a := GenBlock(em.(loops := em.loops + [|em.scopes|]), body);
      Piece([Repeat(a.code)], a.em.(loops := em.loops), true)
    case Break =>
      if em.loops == [] then Piece([], em, true)
      else Piece(UnwindAll(em.scopes) + [Exit(Around(em))], em, false)
    case Continue =>
      if em.loops == [] then Piece([], em, true)
      else Piece(UnwindAll(em.scopes) + [Next(Around(em))], em, false)
    case Return(result) =>
      match SourceOf(em, result)
      case Some(src) => Piece([SetResult(src)] + UnwindAll(em.scopes) + [Ret], em, false)
      case None => Piece([], em, true)
  }

  /** A function body; at an open end everything is cleaned up before the implicit return. */
  function GenFunction(body: seq<Stmt>): seq<Instr> {
    var a := GenStmts(Emitter([[]], [map[]], [], 0), body);
    a.code + (if a.live then UnwindAll(a.em.scopes) + [Ret] else [])
  }
}
