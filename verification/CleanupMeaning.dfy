/** What the language of list and object variables means by itself: names, scopes and what they hold.

    It knows no slots, no counts and no emitted code.  The oracle decides branches, rounds and calls as it
    does for the machine, and each statement takes as many of its values as there are steps in its code, so
    that a run of both can be cut off at the same point. */
module CleanupMeaning {
  import opened Common
  import opened Cleanup
  import opened CleanupRun

  /** What has been declared in a scope, in order: variables with what they hold, deferred bodies. */
  datatype Item = Variable(x: string, obj: bool, val: Option<Ref>) | Body

  /** Innermost scope last; next is the number of the next new list or object. */
  datatype World = World(scopes: seq<seq<Item>>, next: nat)

  datatype End = Fell | Broke | WentOn | Gave(v: Option<Ref>) | OutOfTime

  datatype Course = Course(e: End, w: World, oracle: seq<nat>)

  // ----- names -------------------------------------------------------------------------------

  /** The latest variable of that name in a scope. */
  function PlaceIn(items: seq<Item>, x: string): (r: Option<nat>)
    ensures r.Some? ==> r.value < |items| && items[r.value].Variable?
  {
    if items == [] then None
    else
      var n := |items| - 1;
      if items[n].Variable? && items[n].x == x then Some(n) else PlaceIn(items[..n], x)
  }

  /** In the innermost scope that has one. */
  function Place(scopes: seq<seq<Item>>, x: string): (r: Option<(nat, nat)>)
    ensures r.Some? ==> r.value.0 < |scopes| && r.value.1 < |scopes[r.value.0]|
    ensures r.Some? ==> scopes[r.value.0][r.value.1].Variable?
  {
    if scopes == [] then None
    else
      var n := |scopes| - 1;
      match PlaceIn(scopes[n], x)
      case Some(j) => Some((n, j))
      case None => Place(scopes[..n], x)
  }

  /** What the variable of that name holds; None, too, when there is no such variable. */
  function Holds(w: World, x: string): Option<Ref> {
    match Place(w.scopes, x) case Some(p) => w.scopes[p.0][p.1].val case None => None
  }

  predicate IsList(w: World, x: string) {
    match Place(w.scopes, x) case Some(p) => !w.scopes[p.0][p.1].obj case None => false
  }

  /** Some variable holds r. */
  predicate Alive(w: World, r: Ref) {
    exists i, j :: 0 <= i < |w.scopes| && 0 <= j < |w.scopes[i]| && w.scopes[i][j].Variable?
                   && w.scopes[i][j].val == Some(r)
  }

  /** x comes to hold v. */
  function Stored(w: World, x: string, v: Option<Ref>): World {
    match Place(w.scopes, x)
    case Some(p) => w.(scopes := w.scopes[p.0 := w.scopes[p.0][p.1 := w.scopes[p.0][p.1].(val := v)]])
    case None => w
  }

  /** One more item in the innermost scope. */
  function Added(w: World, i: Item): World {
    if w.scopes == [] then w
    else var n := |w.scopes| - 1; w.(scopes := w.scopes[n := w.scopes[n] + [i]])
  }

  function Items(scopes: seq<seq<Item>>): nat {
    if scopes == [] then 0 else Items(scopes[..|scopes| - 1]) + |scopes[|scopes| - 1]|
  }

  function Bare(i: Item): Item { if i.Variable? then i.(val := None) else i }

  /** No variable holds anything: after a jump out of or on with a loop, which cleans up every scope. */
  function Emptied(w: World): World {
    w.(scopes := seq(|w.scopes|, i requires 0 <= i < |w.scopes| =>
      seq(|w.scopes[i]|, j requires 0 <= j < |w.scopes[i]| => Bare(w.scopes[i][j]))))
  }

  function Inner(w: World): World { w.(scopes := w.scopes + [[]]) }

  function Outer(w: World): World { w.(scopes := if w.scopes == [] then [] else w.scopes[..|w.scopes| - 1]) }

  // ----- values ------------------------------------------------------------------------------

  /** A literal is a new list; a call gives null, a list that is alive, or a new one; a name gives what
      its variable holds. */
  function Given(w: World, v: Option<Value>, tick: nat): (World, Option<Ref>) {
    match v
    case None => (w, None)
    case Some(Literal) => Made(w, false)
    case Some(Result) =>
      if tick == 0 then (w, None)
      else if Alive(w, Ref(tick - 1, false)) then (w, Some(Ref(tick - 1, false)))
      else Made(w, false)
    case Some(Copy(y)) => (w, Holds(w, y))
  }

  function Made(w: World, obj: bool): (World, Option<Ref>) {
    (w.(next := w.next + 1), Some(Ref(w.next, obj)))
  }

  /** The type checker lets only list variables stand for a list. */
  predicate Typed(w: World, v: Option<Value>) {
    match v case Some(Copy(y)) => IsList(w, y) case _ => true
  }

  // ----- statements --------------------------------------------------------------------------

  function Late(w: World): Course { Course(OutOfTime, w, []) }

  /** n steps, and then the given end. */
  function Ending(n: nat, e: End, w: World, oracle: seq<nat>): (c: Course)
    ensures |c.oracle| <= |oracle|
  {
    if |oracle| < n then Late(w) else Course(e, w, oracle[n..])
  }

  function MeanStmts(ss: seq<Stmt>, w: World, inLoop: bool, oracle: seq<nat>): (c: Course)
    ensures |c.oracle| <= |oracle|
    decreases |oracle|, ss, 0
  {
    if ss == [] then Course(Fell, w, oracle)
    else
      var c := MeanStmt(ss[0], w, inLoop, oracle);
      if c.e.Fell? then MeanStmts(ss[1..], c.w, inLoop, c.oracle) else c
  }

  /** A scope of its own; at its end one step for each thing declared in it. */
  function MeanBlock(ss: seq<Stmt>, w: World, inLoop: bool, oracle: seq<nat>): (c: Course)
    ensures |c.oracle| <= |oracle|
    decreases |oracle|, ss, 1
  {
    var c := MeanStmts(ss, Inner(w), inLoop, oracle);
    var n := if c.e.Fell? && c.w.scopes != [] then |c.w.scopes[|c.w.scopes| - 1]| else 0;
    Ending(n, c.e, Outer(c.w), c.oracle)
  }

  function MeanStmt(s: Stmt, w: World, inLoop: bool, oracle: seq<nat>): (c: Course)
    ensures |c.oracle| <= |oracle|
    decreases |oracle|, s, 1
  {
    match s
    case DeclList(x, init) =>
      if !Typed(w, init) then Course(Fell, w, oracle)
      else if |oracle| < 2 then Late(w)
      else
        var (w1, v) := Given(w, init, oracle[0]);
        Course(Fell, Added(w1, Variable(x, false, v)), oracle[2..])
    case DeclObj(x, isNew) =>
      var (w1, v) := if isNew then Made(w, true) else (w, None);
      Ending(2, Fell, Added(w1, Variable(x, true, v)), oracle)
    case Assign(x, value) =>
      if !IsList(w, x) || !Typed(w, Some(value)) then Course(Fell, w, oracle)
      else if oracle == [] then Late(w)
      else
        var (w1, v) := Given(w, Some(value), oracle[0]);
        Course(Fell, Stored(w1, x, v), oracle[1..])
    case Delete(x) =>
      if Place(w.scopes, x).None? then Course(Fell, w, oracle) else Ending(1, Fell, Stored(w, x, None), oracle)
    case Defer(_) => Ending(1, Fell, Added(w, Body), oracle)
    case Block(body) => MeanBlock(body, w, inLoop, oracle)
    case If(t, f) =>
      if oracle == [] then Late(w) else MeanBlock(if oracle[0] != 0 then t else f, w, inLoop, oracle[1..])
    case Loop(body) =>
      if oracle == [] then Late(w)
      else if oracle[0] == 0 then Course(Fell, w, oracle[1..])
      else
        var c := MeanBlock(body, w, true, oracle[1..]);
        if c.e.Broke? then c.(e := Fell)
        else if c.e.Fell? || c.e.WentOn? then MeanStmt(s, c.w, inLoop, c.oracle)
        else c
    case Break =>
      if !inLoop then Course(Fell, w, oracle) else Ending(Items(w.scopes) + 1, Broke, Emptied(w), oracle)
    case Continue =>
      if !inLoop then Course(Fell, w, oracle) else Ending(Items(w.scopes) + 1, WentOn, Emptied(w), oracle)
    case Return(result) =>
      if !Typed(w, result) then Course(Fell, w, oracle)
      else if oracle == [] then Late(w)
      else Ending(Items(w.scopes) + 2, Gave(Given(w, result, oracle[0]).1), w, oracle)
  }

  /** What a function gives; null when it ends without a return. */
  function MeanFunction(body: seq<Stmt>, oracle: seq<nat>): End {
    var c := MeanStmts(body, World([[]], 0), false, oracle);
    if c.e.Fell? then Ending(Items(c.w.scopes) + 1, Gave(None), c.w, c.oracle).e else c.e
  }
}
