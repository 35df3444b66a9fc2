/** Names, values and returns, said without the meaning and without the code. */
module CleanupLaws {
  import opened Common
  import opened Cleanup
  import opened CleanupRun
  import opened CleanupMain
  import opened CleanupStatic
  import opened CleanupMeaning
  import opened CleanupAgree

  // ----- names -------------------------------------------------------------------------------

  /** The item at (i, j) is a variable of that name, with none of that name later in its scope or in a
      scope further in. */
  predicate IsLatest(scopes: seq<seq<Item>>, x: string, i: nat, j: nat) {
    && i < |scopes| && j < |scopes[i]| && Names(scopes[i][j], x)
    && (forall l :: j < l < |scopes[i]| ==> !Names(scopes[i][l], x))
    && (forall k, l :: i < k < |scopes| && 0 <= l < |scopes[k]| ==> !Names(scopes[k][l], x))
  }

  predicate Names(i: Item, x: string) { i.Variable? && i.x == x }

  lemma {:induction false} PlaceInIsLatest(items: seq<Item>, x: string)
    ensures match PlaceIn(items, x)
            case Some(j) => Names(items[j], x) && forall l :: j < l < |items| ==> !Names(items[l], x)
            case None => forall l :: 0 <= l < |items| ==> !Names(items[l], x)
    decreases |items|
  {
    if items != [] {
      var n := |items| - 1;
      PlaceInIsLatest(items[..n], x);
      assert forall l :: 0 <= l < n ==> items[..n][l] == items[l];
    }
  }

  /** A name means the latest variable of the innermost scope that has one. */
  lemma {:induction false} PlaceIsLatest(scopes: seq<seq<Item>>, x: string)
    ensures match Place(scopes, x)
            case Some(p) => IsLatest(scopes, x, p.0, p.1)
            case None => forall i, j :: 0 <= i < |scopes| && 0 <= j < |scopes[i]| ==> !Names(scopes[i][j], x)
    decreases |scopes|
  {
    if scopes != [] {
      var n := |scopes| - 1;
      PlaceInIsLatest(scopes[n], x);
      PlaceIsLatest(scopes[..n], x);
      hide Names;
      assert forall i :: 0 <= i < n ==> scopes[..n][i] == scopes[i];
    }
  }

  lemma OneLatest(scopes: seq<seq<Item>>, x: string, i: nat, j: nat)
    requires IsLatest(scopes, x, i, j)
    ensures Place(scopes, x) == Some((i, j))
  {
    hide Names;
    PlaceIsLatest(scopes, x);
  }

  /** A store changes no names. */
  lemma StoredPlace(w: World, x: string, v: Option<Ref>, z: string)
    requires Place(w.scopes, x).Some?
    ensures Place(Stored(w, x, v).scopes, z) == Place(w.scopes, z)
  {
    var s, t := w.scopes, Stored(w, x, v).scopes;
    assert forall k, l :: 0 <= k < |t| && 0 <= l < |t[k]| ==> (Names(t[k][l], z) <==> Names(s[k][l], z));
    PlaceIsLatest(s, z);
    PlaceIsLatest(t, z);
    hide Names, Place;
    if Place(s, z).Some? {
      var q := Place(s, z).value;
      assert IsLatest(t, z, q.0, q.1);
      OneLatest(t, z, q.0, q.1);
    }
  }

  /** After a store the variable holds the value, and every other name what it held. */
  lemma StoredHolds(w: World, x: string, v: Option<Ref>, z: string)
    requires Place(w.scopes, x).Some?
    ensures Holds(Stored(w, x, v), x) == v
    ensures z != x ==> Holds(Stored(w, x, v), z) == Holds(w, z)
  {
    StoredPlace(w, x, v, x);
    StoredPlace(w, x, v, z);
    PlaceIsLatest(w.scopes, x);
    PlaceIsLatest(w.scopes, z);
    hide Names, Place;
    if z != x && Place(w.scopes, z).Some? {
      DifferentPlaces(w.scopes, x, Place(w.scopes, x).value, z, Place(w.scopes, z).value);
    }
  }

  lemma DifferentPlaces(scopes: seq<seq<Item>>, x: string, p: (nat, nat), z: string, q: (nat, nat))
    requires x != z && IsLatest(scopes, x, p.0, p.1) && IsLatest(scopes, z, q.0, q.1)
    ensures p != q
  {}

  // ----- whole functions ---------------------------------------------------------------------

  lemma DeclStep(items: seq<Item>, n: nat, x: string, init: Value, m: nat, v: Option<Ref>, inLoop: bool,
                 oracle: seq<nat>)
    requires |oracle| >= 2 && !init.Copy?
    requires Given(World([items], n), Some(init), oracle[0]) == (World([items], m), v)
    ensures MeanStmt(DeclList(x, Some(init)), World([items], n), inLoop, oracle)
            == Course(Fell, World([items + [Variable(x, false, v)]], m), oracle[2..])
  {
    hide Given;
  }

  /** `return x` gives what x holds. */
  lemma ReturnStep(w: World, x: string, inLoop: bool, oracle: seq<nat>)
    requires IsList(w, x) && |oracle| >= Items(w.scopes) + 2
    ensures MeanStmt(Return(Some(Copy(x))), w, inLoop, oracle).e == Gave(Holds(w, x))
  {
    hide IsList, Holds, Items;
  }

  /** After `y = x`, y holds what x holds, and every other variable what it held. */
  lemma AssignStep(w: World, y: string, x: string, inLoop: bool, oracle: seq<nat>, z: string)
    requires IsList(w, x) && IsList(w, y) && oracle != []
    ensures var c := MeanStmt(Assign(y, Copy(x)), w, inLoop, oracle);
      && c.e == Fell && c.oracle == oracle[1..] && Holds(c.w, y) == Holds(w, x)
      && (z != y ==> Holds(c.w, z) == Holds(w, z))
      && Items(c.w.scopes) == Items(w.scopes) && IsList(c.w, y)
  {
    var c := MeanStmt(Assign(y, Copy(x)), w, inLoop, oracle);
    assert c == Course(Fell, Stored(w, y, Holds(w, x)), oracle[1..]);
    StoredHolds(w, y, Holds(w, x), z);
    StoredShape(w, y, Holds(w, x));
  }

  lemma StoredShape(w: World, y: string, v: Option<Ref>)
    requires IsList(w, y)
    ensures Items(Stored(w, y, v).scopes) == Items(w.scopes) && IsList(Stored(w, y, v), y)
  {
    var p, t := Place(w.scopes, y).value, Stored(w, y, v).scopes;
    SameItems(w.scopes, t);
    PlaceIsLatest(w.scopes, y);
    OneLatest(t, y, p.0, p.1);
  }

  lemma {:induction false} SameItems(a: seq<seq<Item>>, b: seq<seq<Item>>)
    requires |a| == |b| && forall i :: 0 <= i < |a| ==> |a[i]| == |b[i]|
    ensures Items(a) == Items(b)
    decreases |a|
  {
    if a != [] { SameItems(a[..|a| - 1], b[..|b| - 1]); }
  }

  /** A literal is a list that no variable holds, as long as what variables hold has been made before. */
  lemma LiteralIsNew(w: World, tick: nat, r: Ref)
    requires Alive(w, r) && r.n < w.next
    ensures Given(w, Some(Literal), tick).1.Some? && Given(w, Some(Literal), tick).1 != Some(r)
  {}

  lemma NoSelfMore(s: Stmt, ss: seq<Stmt>)
    requires NoSelfAssignOne(s) && NoSelfAssign(ss)
    ensures NoSelfAssign([s] + ss)
  {
    hide NoSelfAssignOne;
    assert ([s] + ss)[1..] == ss;
  }

  lemma StmtsMore(s: Stmt, ss: seq<Stmt>, w: World, oracle: seq<nat>)
    ensures var c := MeanStmt(s, w, false, oracle);
      MeanStmts([s] + ss, w, false, oracle) == if c.e.Fell? then MeanStmts(ss, c.w, false, c.oracle) else c
  {
    hide MeanStmt;
    assert ([s] + ss)[1..] == ss;
  }

  lemma FunctionGives(body: seq<Stmt>, oracle: seq<nat>, v: Option<Ref>)
    requires NoSelfAssign(body) && MeanStmts(body, World([[]], 0), false, oracle).e == Gave(v)
    ensures var r := CallOf(body, oracle);
      && r.o == Returned && r.st.result == v
      && r.st.heap == match v case Some(x) => map[x := 1] case None => map[]
  {
    hide CallOf, MeanStmts, NoSelfAssign;
    assert MeanFunction(body, oracle) == Gave(v);
    CodeMeans(body, oracle);
    CountsAreConserved(body, oracle);
  }

  /** `list x = [..]; return x;` returns the list with one reference to it, and nothing else is left. */
  lemma LiteralIsReturned(x: string, oracle: seq<nat>)
    requires |oracle| >= 5
    ensures var r := CallOf([DeclList(x, Some(Literal)), Return(Some(Copy(x)))], oracle);
      r.o == Returned && r.st.result == Some(Ref(0, false)) && r.st.heap == map[Ref(0, false) := 1]
  {
    var a, b := DeclList(x, Some(Literal)), Return(Some(Copy(x)));
    var v := Some(Ref(0, false));
    var w := World([[Variable(x, false, v)]], 1);
    assert NoSelfAssignOne(a) && NoSelfAssignOne(b) && NoSelfAssign([]);
    DeclStep([], 0, x, Literal, 1, v, false, oracle);
    assert [] + [Variable(x, false, v)] == [Variable(x, false, v)];
    OneScope(w.scopes, x, 0);
    assert IsList(w, x) && Holds(w, x) == v;
    hide CallOf, MeanStmt, MeanStmts, NoSelfAssignOne, NoSelfAssign, IsList, Holds, Items, Place;
    ReturnStep(w, x, false, oracle[2..]);
    NoSelfMore(b, []);
    NoSelfMore(a, [b]);
    assert [b] + [] == [b] && [a] + [b] == [a, b];
    StmtsMore(b, [], w, oracle[2..]);
    StmtsMore(a, [b], World([[]], 0), oracle);
    FunctionGives([a, b], oracle, v);
  }

  lemma OneScope(scopes: seq<seq<Item>>, x: string, j: nat)
    requires |scopes| == 1 && IsLatest(scopes, x, 0, j)
    ensures Place(scopes, x) == Some((0, j)) && Items(scopes) == |scopes[0]|
  {
    OneLatest(scopes, x, 0, j);
    assert Items(scopes[..0]) == 0;
  }

  /** `list x = f(); list y = [..]; y = x; return y;` returns what the call gave, and the literal is gone. */
  lemma AssignedIsReturned(x: string, y: string, oracle: seq<nat>)
    requires x != y && |oracle| >= 9
    ensures var v := if oracle[0] == 0 then None else Some(Ref(0, false));
            var r := CallOf([DeclList(x, Some(Result)), DeclList(y, Some(Literal)), Assign(y, Copy(x)),
                             Return(Some(Copy(y)))], oracle);
      && r.o == Returned && r.st.result == v
      && r.st.heap == match v case Some(u) => map[u := 1] case None => map[]
  {
    var a, b := DeclList(x, Some(Result)), DeclList(y, Some(Literal));
    var c, d := Assign(y, Copy(x)), Return(Some(Copy(y)));
    assert NoSelfAssignOne(a) && NoSelfAssignOne(b) && NoSelfAssignOne(c) && NoSelfAssignOne(d);
    var v := if oracle[0] == 0 then None else Some(Ref(0, false));
    hide *;
    var w1, w2 := TwoLists(x, y, v, oracle);
    AssignStep(w2, y, x, false, oracle[4..], x);
    var w3 := MeanStmt(c, w2, false, oracle[4..]).w;
    ReturnStep(w3, y, false, oracle[4..][1..]);
    FourNoSelf(a, b, c, d);
    FourStatements(a, b, c, d, w1, w2, w3, oracle, v);
    FunctionGives([a, b, c, d], oracle, v);
  }

  lemma FourNoSelf(a: Stmt, b: Stmt, c: Stmt, d: Stmt)
    requires NoSelfAssignOne(a) && NoSelfAssignOne(b) && NoSelfAssignOne(c) && NoSelfAssignOne(d)
    ensures NoSelfAssign([a, b, c, d])
  {
    hide NoSelfAssignOne;
    assert NoSelfAssign([]);
    hide NoSelfAssign;
    NoSelfMore(d, []);
    NoSelfMore(c, [d]);
    NoSelfMore(b, [c, d]);
    NoSelfMore(a, [b, c, d]);
    assert [d] + [] == [d] && [c] + [d] == [c, d] && [b] + [c, d] == [b, c, d] && [a] + [b, c, d] == [a, b, c, d];
  }

  lemma FourStatements(a: Stmt, b: Stmt, c: Stmt, d: Stmt, w1: World, w2: World, w3: World, oracle: seq<nat>,
                       v: Option<Ref>)
    requires |oracle| >= 5 && MeanStmt(a, World([[]], 0), false, oracle) == Course(Fell, w1, oracle[2..])
    requires MeanStmt(b, w1, false, oracle[2..]) == Course(Fell, w2, oracle[4..])
    requires MeanStmt(c, w2, false, oracle[4..]) == Course(Fell, w3, oracle[4..][1..])
    requires MeanStmt(d, w3, false, oracle[4..][1..]).e == Gave(v)
    ensures MeanStmts([a, b, c, d], World([[]], 0), false, oracle).e == Gave(v)
  {
    hide MeanStmt, MeanStmts;
    StmtsMore(d, [], w3, oracle[4..][1..]);
    StmtsMore(c, [d], w2, oracle[4..]);
    StmtsMore(b, [c, d], w1, oracle[2..]);
    StmtsMore(a, [b, c, d], World([[]], 0), oracle);
    assert [d] + [] == [d] && [c] + [d] == [c, d] && [b] + [c, d] == [b, c, d] && [a] + [b, c, d] == [a, b, c, d];
  }

  /** A list from a call and a literal. */
  lemma TwoLists(x: string, y: string, v: Option<Ref>, oracle: seq<nat>) returns (w1: World, w2: World)
    requires x != y && |oracle| >= 4 && v == if oracle[0] == 0 then None else Some(Ref(0, false))
    ensures MeanStmt(DeclList(x, Some(Result)), World([[]], 0), false, oracle) == Course(Fell, w1, oracle[2..])
    ensures MeanStmt(DeclList(y, Some(Literal)), w1, false, oracle[2..]) == Course(Fell, w2, oracle[4..])
    ensures IsList(w2, x) && IsList(w2, y) && Holds(w2, x) == v && Items(w2.scopes) == 2
  {
    var n := if oracle[0] == 0 then 0 else 1;
    var vx, vy := Variable(x, false, v), Variable(y, false, Some(Ref(n, false)));
    w1, w2 := World([[vx]], n), World([[vx, vy]], n + 1);
    assert Given(World([[]], 0), Some(Result), oracle[0]) == (World([[]], n), v);
    hide MeanStmt, Place, Items;
    DeclStep([], 0, x, Result, n, v, false, oracle);
    assert [] + [vx] == [vx] && [vx] + [vy] == [vx, vy];
    DeclStep([vx], n, y, Literal, n + 1, Some(Ref(n, false)), false, oracle[2..]);
    assert oracle[2..][2..] == oracle[4..];
    OneScope(w2.scopes, x, 0);
    OneScope(w2.scopes, y, 1);
  }
}
