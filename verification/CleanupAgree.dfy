/** The emitted code does what the language means: every run that returns has exactly the reference that the meaning
    gives, statement by statement through blocks, branches, loops and jumps. */
module CleanupAgree {
  import opened Common
  import opened Cleanup
  import opened CleanupRun
  import opened CleanupProof
  import opened CleanupEmit
  import opened CleanupTrace
  import opened CleanupSim
  import opened CleanupMain
  import M = CleanupMeaning

  // ----- items and entries -------------------------------------------------------------------

  /** An entry stands for an item, and the slot holds what the variable holds. */
  predicate ItemShows(e: Entry, i: M.Item, slots: map<Slot, Ref>) {
    match i
    case Variable(_, obj, v) =>
      && !e.Deferred? && e == EntryOf(e.slot) && e.slot.obj == obj
      && v == (if e.slot in slots then Some(slots[e.slot]) else None)
    case Body => e.Deferred?
  }

  predicate ScopeShows(es: seq<Entry>, items: seq<M.Item>, slots: map<Slot, Ref>) {
    |es| == |items| && forall j :: 0 <= j < |es| ==> ItemShows(es[j], items[j], slots)
  }

  /** A name stands for the slot of its latest variable. */
  predicate NameShows(env: map<string, Slot>, es: seq<Entry>, items: seq<M.Item>, x: string)
    requires |es| == |items|
  {
    match M.PlaceIn(items, x)
    case Some(j) => x in env && es[j] == EntryOf(env[x])
    case None => x !in env
  }

  ghost predicate NamesShow(env: map<string, Slot>, es: seq<Entry>, items: seq<M.Item>)
    requires |es| == |items|
  {
    forall x :: NameShows(env, es, items, x)
  }

  ghost predicate LevelShows(env: map<string, Slot>, es: seq<Entry>, items: seq<M.Item>, slots: map<Slot, Ref>) {
    ScopeShows(es, items, slots) && NamesShow(env, es, items)
  }

  /** The first n scopes of emitter and world agree. */
  ghost predicate LevelsShow(em: Emitter, w: M.World, slots: map<Slot, Ref>, n: nat) {
    && n <= |em.scopes| == |em.env| == |w.scopes|
    && forall i :: 0 <= i < n ==> LevelShows(em.env[i], em.scopes[i], w.scopes[i], slots)
  }

  /** No registration stands twice. */
  predicate EntriesDiffer(scopes: seq<seq<Entry>>) {
    forall i, j, k, l ::
      (0 <= i < |scopes| && 0 <= j < |scopes[i]| && 0 <= k < |scopes| && 0 <= l < |scopes[k]|
       && scopes[i][j] == scopes[k][l])
      ==> i == k && j == l
  }

  ghost predicate Shows(em: Emitter, w: M.World, st: State) {
    LevelsShow(em, w, st.slots, |em.scopes|) && w.next == st.next && EntriesDiffer(em.scopes)
  }

  lemma OneSlot()
    ensures forall s, t :: EntryOf(s) == EntryOf(t) ==> s == t
    ensures forall s :: !EntryOf(s).Deferred? && EntryOf(s).slot == s
  {}

  /** The emitter finds the slot of the variable that the name means. */
  lemma {:induction false} LookupShows(em: Emitter, w: M.World, slots: map<Slot, Ref>, n: nat, x: string)
    requires LevelsShow(em, w, slots, n)
    ensures match M.Place(w.scopes[..n], x)
            case Some(p) =>
              var d := Lookup(em.env[..n], x);
              && p.0 < n && p.1 < |em.scopes[p.0]| == |w.scopes[p.0]|
              && d.Some? && em.scopes[p.0][p.1] == EntryOf(d.value)
              && w.scopes[p.0][p.1].obj == d.value.obj
              && w.scopes[p.0][p.1].val == (if d.value in slots then Some(slots[d.value]) else None)
            case None => Lookup(em.env[..n], x) == None
    decreases n
  {
    OneSlot();
    if n > 0 {
      assert LevelShows(em.env[n - 1], em.scopes[n - 1], w.scopes[n - 1], slots);
      assert NameShows(em.env[n - 1], em.scopes[n - 1], w.scopes[n - 1], x);
      assert em.env[..n][..n - 1] == em.env[..n - 1] && w.scopes[..n][..n - 1] == w.scopes[..n - 1];
      LookupShows(em, w, slots, n - 1, x);
      hide EntryOf;
      match M.PlaceIn(w.scopes[n - 1], x) {
        case Some(j) => assert ItemShows(em.scopes[n - 1][j], w.scopes[n - 1][j], slots);
        case None =>
      }
    }
  }

  lemma NameShown(em: Emitter, w: M.World, st: State, x: string)
    requires Shows(em, w, st)
    ensures match M.Place(w.scopes, x)
            case Some(p) =>
              var d := Lookup(em.env, x);
              && p.0 < |em.scopes| && p.1 < |em.scopes[p.0]| == |w.scopes[p.0]|
              && d.Some? && em.scopes[p.0][p.1] == EntryOf(d.value)
              && w.scopes[p.0][p.1].obj == d.value.obj
              && w.scopes[p.0][p.1].val == Get(st, d.value)
            case None => Lookup(em.env, x) == None
  {
    LookupShows(em, w, st.slots, |em.scopes|, x);
    assert em.env[..|em.scopes|] == em.env && w.scopes[..|em.scopes|] == w.scopes;
  }

  lemma {:induction false} FlattenHas(scopes: seq<seq<Entry>>, e: Entry)
    requires e in Flatten(scopes)
    ensures exists i, j :: 0 <= i < |scopes| && 0 <= j < |scopes[i]| && scopes[i][j] == e
    decreases |scopes|
  {
    var n := |scopes| - 1;
    if e in scopes[n] {
      var j :| 0 <= j < |scopes[n]| && scopes[n][j] == e;
    } else {
      FlattenHas(scopes[..n], e);
      var i, j :| 0 <= i < n && 0 <= j < |scopes[..n][i]| && scopes[..n][i][j] == e;
      assert scopes[i][j] == e;
    }
  }

  /** What some variable holds is what is in the heap. */
  lemma AliveIsInHeap(em: Emitter, w: M.World, st: State, r: Ref)
    requires Good(st, Flatten(em.scopes)) && st.result == None && Shows(em, w, st)
    ensures M.Alive(w, r) <==> r in st.heap
  {
    hide Typed, Track;
    OneSlot();
    assert Counted(st, multiset{}, r);
    if M.Alive(w, r) {
      var i, j :| 0 <= i < |w.scopes| && 0 <= j < |w.scopes[i]| && w.scopes[i][j].Variable?
                  && w.scopes[i][j].val == Some(r);
      assert LevelShows(em.env[i], em.scopes[i], w.scopes[i], st.slots);
      assert ItemShows(em.scopes[i][j], w.scopes[i][j], st.slots);
      assert em.scopes[i][j].slot in Holders(st.slots, r);
    }
    if r in st.heap {
      var s :| s in Holders(st.slots, r);
      assert EntryOf(s) in Flatten(em.scopes) by { PendingInside(st, em.scopes, s); }
      FlattenHas(em.scopes, EntryOf(s));
      var i, j :| 0 <= i < |em.scopes| && 0 <= j < |em.scopes[i]| && em.scopes[i][j] == EntryOf(s);
      assert LevelShows(em.env[i], em.scopes[i], w.scopes[i], st.slots);
      assert ItemShows(em.scopes[i][j], w.scopes[i][j], st.slots);
      assert w.scopes[i][j].val == Some(r);
    }
  }

  lemma PendingInside(st: State, scopes: seq<seq<Entry>>, s: Slot)
    requires Good(st, Flatten(scopes)) && s in st.slots
    ensures EntryOf(s) in Flatten(scopes)
  {
    hide Sound;
    TrackPending(st.trace, Flatten(scopes));
  }

  // ----- values ------------------------------------------------------------------------------

  lemma TypedShows(em: Emitter, w: M.World, st: State, v: Option<Value>)
    requires Shows(em, w, st)
    ensures SourceOf(em, v).Some? <==> M.Typed(w, v)
  {
    if v.Some? && v.value.Copy? {
      hide Shows, Lookup, M.Place;
      NameShown(em, w, st, v.value.y);
    }
  }

  /** The value of a source is what the expression gives. */
  lemma GivenShows(em: Emitter, w: M.World, st: State, v: Option<Value>, tick: nat)
    requires Good(st, Flatten(em.scopes)) && st.result == None && Shows(em, w, st)
    requires SourceOf(em, v).Some?
    ensures var (st1, x) := Eval(st, SourceOf(em, v).value, false, tick);
            && st1.slots == st.slots && M.Given(w, v, tick) == (w.(next := st1.next), x)
  {
    assert w.next == st.next;
    hide Good, Shows, Lookup, M.Place, M.Alive;
    if v == Some(Result) {
      GivenByCall(em, w, st, tick);
    } else if v.Some? && v.value.Copy? {
      GivenByName(em, w, st, v.value.y, tick);
    }
  }

  lemma GivenByName(em: Emitter, w: M.World, st: State, y: string, tick: nat)
    requires Shows(em, w, st) && SourceOf(em, Some(Copy(y))).Some?
    ensures var (st1, x) := Eval(st, SourceOf(em, Some(Copy(y))).value, false, tick);
            && st1.slots == st.slots && M.Given(w, Some(Copy(y)), tick) == (w.(next := st1.next), x)
  {
    assert w.next == st.next;
    hide Shows, Lookup, M.Place;
    NameShown(em, w, st, y);
  }

  lemma GivenByCall(em: Emitter, w: M.World, st: State, tick: nat)
    requires Good(st, Flatten(em.scopes)) && st.result == None && Shows(em, w, st)
    ensures var (st1, x) := Handed(st, false, tick);
            && st1.slots == st.slots && M.Given(w, Some(Result), tick) == (w.(next := st1.next), x)
  {
    assert w.next == st.next;
    hide Good, Shows, M.Alive;
    if tick > 0 { AliveIsInHeap(em, w, st, Ref(tick - 1, false)); }
  }

  // ----- changes -----------------------------------------------------------------------------

  /** One variable's slot changes. */
  lemma StoredShows(em: Emitter, w: M.World, st: State, x: string, st1: State, v: Option<Ref>)
    requires Shows(em, w, st) && M.Place(w.scopes, x).Some?
    requires Lookup(em.env, x).Some? ==> Get(st1, Lookup(em.env, x).value) == v
    requires forall s :: Lookup(em.env, x) != Some(s) ==> Get(st1, s) == Get(st, s)
    ensures Shows(em, M.Stored(w, x, v).(next := st1.next), st1)
  {
    NameShown(em, w, st, x);
    var p, d := M.Place(w.scopes, x).value, Lookup(em.env, x).value;
    var w1 := M.Stored(w, x, v).(next := st1.next);
    hide Lookup, M.Place, EntryOf;
    OneSlot();
    forall i | 0 <= i < |em.scopes| ensures LevelShows(em.env[i], em.scopes[i], w1.scopes[i], st1.slots) {
      var es, items, items1 := em.scopes[i], w.scopes[i], w1.scopes[i];
      assert LevelShows(em.env[i], es, items, st.slots);
      forall j | 0 <= j < |es| ensures ItemShows(es[j], items1[j], st1.slots) {
        assert ItemShows(es[j], items[j], st.slots);
        if i == p.0 && j == p.1 {
          assert es[j] == EntryOf(d);
        } else {
          assert items1[j] == items[j];
          assert es[j] != em.scopes[p.0][p.1];
          if !es[j].Deferred? { assert Get(st1, es[j].slot) == Get(st, es[j].slot); }
        }
      }
      if i == p.0 { SameNames(items, p.1, items1); }
      forall y ensures NameShows(em.env[i], es, items1, y) {
        assert NameShows(em.env[i], es, items, y);
        if i == p.0 { assert M.PlaceIn(items1, y) == M.PlaceIn(items, y); }
      }
    }
  }

  lemma {:induction false} SameNames(items: seq<M.Item>, j: nat, items1: seq<M.Item>)
    requires j < |items| && items[j].Variable?
    requires |items1| == |items| && items1[j].Variable? && items1[j].x == items[j].x
    requires forall k :: 0 <= k < |items| && k != j ==> items1[k] == items[k]
    ensures forall y :: M.PlaceIn(items1, y) == M.PlaceIn(items, y)
    decreases |items|
  {
    var n := |items| - 1;
    if j < n {
      SameNames(items[..n], j, items1[..n]);
    } else {
      assert items1[..n] == items[..n];
    }
  }

  /** A level that gets one more entry and item, and whose other slots stay. */
  lemma LevelMore(env: map<string, Slot>, es: seq<Entry>, items: seq<M.Item>, slots: map<Slot, Ref>, e: Entry,
                  i: M.Item, env1: map<string, Slot>, slots1: map<Slot, Ref>)
    requires LevelShows(env, es, items, slots) && ItemShows(e, i, slots1)
    requires forall j :: 0 <= j < |es| && !es[j].Deferred? ==> SlotSame(slots, slots1, es[j].slot)
    requires env1 == if i.Variable? && !e.Deferred? then env[i.x := e.slot] else env
    ensures LevelShows(env1, es + [e], items + [i], slots1)
  {
    OneSlot();
    forall j | 0 <= j < |es| ensures ItemShows(es[j], items[j], slots1) {
      assert ItemShows(es[j], items[j], slots);
    }
    forall y ensures NameShows(env1, es + [e], items + [i], y) {
      assert NameShows(env, es, items, y);
      assert (items + [i])[..|items|] == items;
    }
  }

  predicate SlotSame(slots: map<Slot, Ref>, slots1: map<Slot, Ref>, s: Slot) {
    (s in slots <==> s in slots1) && (s in slots ==> slots[s] == slots1[s])
  }

  /** A level whose slots stay. */
  lemma LevelStays(env: map<string, Slot>, es: seq<Entry>, items: seq<M.Item>, slots: map<Slot, Ref>,
                   slots1: map<Slot, Ref>)
    requires LevelShows(env, es, items, slots)
    requires forall j :: 0 <= j < |es| && !es[j].Deferred? ==> SlotSame(slots, slots1, es[j].slot)
    ensures LevelShows(env, es, items, slots1)
  {
    forall j | 0 <= j < |es| ensures ItemShows(es[j], items[j], slots1) {
      assert ItemShows(es[j], items[j], slots);
    }
  }

  /** One more entry in the innermost scope, whose slot has not been used. */
  lemma AddedShows(em: Emitter, w: M.World, st: State, e: Entry, i: M.Item, em1: Emitter, st1: State)
    requires Inside(em) && Shows(em, w, st) && Number(e) >= em.next && ItemShows(e, i, st1.slots)
    requires var n := |em.scopes| - 1;
      && em1.scopes == em.scopes[n := em.scopes[n] + [e]]
      && em1.env == em.env[n := if i.Variable? && !e.Deferred? then em.env[n][i.x := e.slot] else em.env[n]]
    requires forall s: Slot :: s.n < em.next ==> SlotSame(st.slots, st1.slots, s)
    ensures Shows(em1, M.Added(w.(next := st1.next), i), st1)
  {
    hide EntryOf, LevelShows, ItemShows, SlotSame;
    var n, w1 := |em.scopes| - 1, M.Added(w.(next := st1.next), i);
    forall k | 0 <= k < |em.scopes| ensures LevelShows(em1.env[k], em1.scopes[k], w1.scopes[k], st1.slots) {
      assert LevelShows(em.env[k], em.scopes[k], w.scopes[k], st.slots);
      assert SlotsBelow(em.scopes[k], em.next);
      forall j | 0 <= j < |em.scopes[k]| && !em.scopes[k][j].Deferred?
        ensures SlotSame(st.slots, st1.slots, em.scopes[k][j].slot)
      {
        assert Number(em.scopes[k][j]) < em.next;
      }
      if k == n {
        LevelMore(em.env[k], em.scopes[k], w.scopes[k], st.slots, e, i, em1.env[k], st1.slots);
      } else {
        LevelStays(em.env[k], em.scopes[k], w.scopes[k], st.slots, st1.slots);
      }
    }
    EntriesMore(em, e, em1.scopes);
  }

  lemma EntriesMore(em: Emitter, e: Entry, scopes: seq<seq<Entry>>)
    requires Inside(em) && EntriesDiffer(em.scopes) && Number(e) >= em.next
    requires var n := |em.scopes| - 1; scopes == em.scopes[n := em.scopes[n] + [e]]
    ensures EntriesDiffer(scopes)
  {
    var n := |em.scopes| - 1;
    forall i, j | 0 <= i < |em.scopes| && 0 <= j < |em.scopes[i]| ensures em.scopes[i][j] != e {
      assert SlotsBelow(em.scopes[i], em.next);
    }
    forall i, j | 0 <= i < |scopes| && 0 <= j < |scopes[i]|
      ensures if i == n && j == |em.scopes[n]| then scopes[i][j] == e
              else j < |em.scopes[i]| && scopes[i][j] == em.scopes[i][j]
    {}
  }

  // ----- cleaning up -------------------------------------------------------------------------

  /** A run of cleanups takes a step for each entry and leaves all other slots alone. */
  lemma {:induction false} UnwindRuns(es: seq<Entry>, st: State, oracle: seq<nat>)
    requires Kinds(es)
    ensures var r := Exec(Unwind(es), st, oracle);
      match r.o
      case Normal =>
        && |oracle| >= |es| && r.oracle == oracle[|es|..] && r.st.next == st.next && r.st.result == st.result
        && forall s :: EntryOf(s) !in es ==> SlotSame(st.slots, r.st.slots, s)
      case Stopped => |oracle| < |es|
      case o => o == Faulted
    decreases |es|
  {
    if es != [] && oracle != [] {
      var e, rest := es[|es| - 1], es[..|es| - 1];
      CleanedOne(st, e);
      var st1 := Cleaned(st, e);
      assert es == rest + [e] && Kinds(rest);
      hide Cleaned, EntryOf;
      assert Exec(Unwind(es), st, oracle) == if st1.fault then Run(Faulted, st1, oracle[1..])
                                             else Exec(Unwind(rest), st1, oracle[1..]);
      if !st1.fault {
        UnwindRuns(rest, st1, oracle[1..]);
      }
    }
  }

  lemma CleanedOne(st: State, e: Entry)
    requires Kinds([e])
    ensures Cleaned(st, e).next == st.next && Cleaned(st, e).result == st.result
    ensures forall s :: EntryOf(s) != e ==> SlotSame(st.slots, Cleaned(st, e).slots, s)
  {
    assert [e][0] == e;
  }

  lemma {:induction false} ItemsAreEntries(scopes: seq<seq<Entry>>, items: seq<seq<M.Item>>)
    requires |scopes| == |items| && forall i :: 0 <= i < |scopes| ==> |scopes[i]| == |items[i]|
    ensures |Flatten(scopes)| == M.Items(items)
    decreases |scopes|
  {
    if scopes != [] {
      var n := |scopes| - 1;
      ItemsAreEntries(scopes[..n], items[..n]);
    }
  }

  lemma ItemsShown(em: Emitter, w: M.World, st: State)
    requires Shows(em, w, st)
    ensures |Flatten(em.scopes)| == M.Items(w.scopes)
  {
    forall i | 0 <= i < |em.scopes| ensures |em.scopes[i]| == |w.scopes[i]| {
      assert LevelShows(em.env[i], em.scopes[i], w.scopes[i], st.slots);
    }
    ItemsAreEntries(em.scopes, w.scopes);
  }

  /** All scopes are cleaned up: no slot holds anything, and neither does any variable. */
  lemma EmptiedShows(em: Emitter, w: M.World, st: State, st1: State)
    requires Shows(em, w, st) && st1.slots == map[] && st1.next == st.next
    ensures Shows(em, M.Emptied(w), st1)
  {
    hide EntryOf;
    forall i | 0 <= i < |em.scopes|
      ensures LevelShows(em.env[i], em.scopes[i], M.Emptied(w).scopes[i], st1.slots)
    {
      assert LevelShows(em.env[i], em.scopes[i], w.scopes[i], st.slots);
      var items := w.scopes[i];
      var items1 := M.Emptied(w).scopes[i];
      forall j | 0 <= j < |items| ensures ItemShows(em.scopes[i][j], items1[j], st1.slots) {
        assert ItemShows(em.scopes[i][j], items[j], st.slots);
      }
      BareNames(items, items1);
      forall x ensures NameShows(em.env[i], em.scopes[i], items1, x) {
        assert NameShows(em.env[i], em.scopes[i], items, x);
      }
    }
  }

  lemma {:induction false} BareNames(items: seq<M.Item>, items1: seq<M.Item>)
    requires |items1| == |items| && forall k :: 0 <= k < |items| ==> items1[k] == M.Bare(items[k])
    ensures forall y :: M.PlaceIn(items1, y) == M.PlaceIn(items, y)
    decreases |items|
  {
    if items != [] { BareNames(items[..|items| - 1], items1[..|items| - 1]); }
  }

  /** The innermost scope is left: what the outer ones hold stays. */
  lemma OuterShown(em: Emitter, w: M.World, st: State, em1: Emitter, st1: State)
    requires Shows(em, w, st) && em.scopes != [] && st1.next == st.next
    requires var n := |em.scopes| - 1; em1.scopes == em.scopes[..n] && em1.env == em.env[..n]
    requires forall s :: EntryOf(s) !in em.scopes[|em.scopes| - 1] ==> SlotSame(st.slots, st1.slots, s)
    requires forall i :: 0 <= i < |em.scopes| ==> Kinds(em.scopes[i])
    ensures Shows(em1, M.Outer(w), st1)
  {
    hide LevelShows, SlotSame, EntryOf;
    OneSlot();
    var n := |em.scopes| - 1;
    forall i | 0 <= i < n ensures LevelShows(em.env[i], em.scopes[i], w.scopes[i], st1.slots) {
      assert LevelShows(em.env[i], em.scopes[i], w.scopes[i], st.slots);
      var es := em.scopes[i];
      forall j | 0 <= j < |es| && !es[j].Deferred? ensures SlotSame(st.slots, st1.slots, es[j].slot) {
        assert es[j] == EntryOf(es[j].slot);
        assert es[j] !in em.scopes[n];
      }
      LevelStays(em.env[i], es, w.scopes[i], st.slots, st1.slots);
    }
  }

  // ----- runs --------------------------------------------------------------------------------

  /** All scopes but the innermost agree: what is known when a jump leaves it. */
  ghost predicate OuterShows(em: Emitter, w: M.World, st: State) {
    em.scopes != [] && LevelsShow(em, w, st.slots, |em.scopes| - 1) && w.next == st.next
  }

  ghost predicate Matches(em: Emitter, a: Piece, r: Run, c: M.Course) {
    match r.o
    case Normal => c.e.Fell? && c.oracle == r.oracle && Shows(a.em, c.w, r.st)
    case Exited => c.e.Broke? && c.oracle == r.oracle && OuterShows(em, c.w, r.st)
    case Continued => c.e.WentOn? && c.oracle == r.oracle && OuterShows(em, c.w, r.st)
    case Returned => c.e == M.Gave(r.st.result)
    case Stopped => c.e.OutOfTime?
    case Faulted => true
  }

  /** Of a block, whose own scope is gone at its end. */
  ghost predicate BlockMatches(em: Emitter, r: Run, c: M.Course) {
    match r.o
    case Normal => c.e.Fell? && c.oracle == r.oracle && Shows(em, c.w, r.st)
    case Exited => c.e.Broke? && c.oracle == r.oracle && Shows(em, c.w, r.st)
    case Continued => c.e.WentOn? && c.oracle == r.oracle && Shows(em, c.w, r.st)
    case Returned => c.e == M.Gave(r.st.result)
    case Stopped => c.e.OutOfTime?
    case Faulted => true
  }

  lemma ShowsOuter(em: Emitter, w: M.World, st: State)
    requires Shows(em, w, st) && em.scopes != []
    ensures OuterShows(em, w, st)
  {}

  /** Statements in the innermost scope do not touch the scopes around it. */
  lemma OuterBefore(em: Emitter, em1: Emitter, w: M.World, st: State)
    requires Later(em, em1) && OuterShows(em1, w, st) && |em.env| == |em.scopes|
    ensures OuterShows(em, w, st)
  {
    var n := |em.scopes| - 1;
    forall i | 0 <= i < n ensures LevelShows(em.env[i], em.scopes[i], w.scopes[i], st.slots) {
      assert em1.scopes[..n][i] == em.scopes[..n][i] && em1.env[..n][i] == em.env[..n][i];
      assert LevelShows(em1.env[i], em1.scopes[i], w.scopes[i], st.slots);
    }
  }

  lemma ShowsSame(em: Emitter, em1: Emitter, w: M.World, st: State)
    requires Shows(em, w, st) && em1.scopes == em.scopes && em1.env == em.env
    ensures Shows(em1, w, st)
  {
    hide LevelShows;
  }

  // ----- simple statements -------------------------------------------------------------------

  lemma MeansDecl(em: Emitter, x: string, src: Source, obj: bool, w: M.World, st: State, oracle: seq<nat>,
                  w1: M.World, v: Option<Ref>)
    requires Inside(em) && Shows(em, w, st)
    requires oracle != [] ==> var (st1, u) := Eval(st, src, obj, oracle[0]);
      st1.slots == st.slots && v == u && w1 == w.(next := st1.next)
    ensures var a := GenDecl(em, x, src, obj);
      Matches(em, a, Exec(a.code, st, oracle),
              if |oracle| < 2 then M.Late(w) else M.Course(M.Fell, M.Added(w1, M.Variable(x, obj, v)), oracle[2..]))
  {
    var a, e := GenDecl(em, x, src, obj), EntryOf(Slot(em.next, obj));
    assert a.code == [Init(Slot(em.next, obj), src), Note(e)] && a.em == Define(em, x, obj);
    hide Eval, Shows, Inside, M.Added, Define, LevelShows, Initialised, Noticed;
    ExecTwo(Init(Slot(em.next, obj), src), Note(e), st, oracle);
    if |oracle| >= 2 {
      DeclRuns(em, src, obj, st, oracle[0]);
      var st2 := Noticed(Initialised(st, Slot(em.next, obj), src, oracle[0]), e);
      DefineIs(em, x, obj);
      AddedShows(em, w, st, e, M.Variable(x, obj, v), a.em, st2);
      assert oracle[1..][1..] == oracle[2..];
    }
  }

  /** The slot of a declaration holds the first value, and no other slot changes. */
  lemma DeclRuns(em: Emitter, src: Source, obj: bool, st: State, tick: nat)
    requires Eval(st, src, obj, tick).0.slots == st.slots
    ensures var s, (st1, v) := Slot(em.next, obj), Eval(st, src, obj, tick);
            var st2 := Noticed(Initialised(st, s, src, tick), EntryOf(s));
      && st2.next == st1.next
      && (forall x: string :: ItemShows(EntryOf(s), M.Variable(x, obj, v), st2.slots))
      && forall t: Slot :: t.n < em.next ==> SlotSame(st.slots, st2.slots, t)
  {
    hide Eval;
    OneSlot();
  }

  lemma DefineIs(em: Emitter, x: string, obj: bool)
    requires Inside(em)
    ensures var em1, n, s := Define(em, x, obj), |em.scopes| - 1, Slot(em.next, obj);
      && em1.scopes == em.scopes[n := em.scopes[n] + [EntryOf(s)]]
      && em1.env == em.env[n := em.env[n][x := s]]
  {}

  /** One variable is changed in one step. */
  lemma MeansChange(em: Emitter, i: Instr, x: string, d: Slot, w: M.World, st: State, oracle: seq<nat>,
                    st1: State, v: Option<Ref>, c: M.Course)
    requires Shows(em, w, st) && Lookup(em.env, x) == Some(d) && M.Place(w.scopes, x).Some?
    requires !i.Choice? && !i.Repeat? && After(i) == Normal
    requires oracle != [] ==> Do(i, st, oracle[0]) == st1
    requires oracle != [] ==> Get(st1, d) == v && forall s :: s != d ==> Get(st1, s) == Get(st, s)
    requires oracle != [] ==> c == M.Course(M.Fell, M.Stored(w, x, v).(next := st1.next), oracle[1..])
    requires oracle == [] ==> c.e.OutOfTime?
    ensures Matches(em, Piece([i], em, true), Exec([i], st, oracle), c)
  {
    hide Do, Shows, Lookup, M.Place, M.Stored;
    ExecOne(i, st, oracle);
    if oracle != [] && !st1.fault { StoredShows(em, w, st, x, st1, v); }
  }

  lemma NotedIs(st: State, st1: State, d: Slot)
    ensures Noted(st, st1, d).slots == st1.slots && Noted(st, st1, d).next == st1.next
  {}

  lemma DecrementIs(st: State, v: Option<Ref>)
    ensures Decrement(st, v).slots == st.slots && Decrement(st, v).next == st.next
  {}

  lemma RetainIs(st: State, src: Source, v: Option<Ref>)
    ensures Retain(st, src, v).slots == st.slots && Retain(st, src, v).next == st.next
  {}

  /** The record does not matter to a value. */
  lemma EvalLogged(st: State, e: Event, src: Source, obj: bool, oracle: nat)
    ensures Eval(Log(st, e), src, obj, oracle) == (Log(Eval(st, src, obj, oracle).0, e), Eval(st, src, obj, oracle).1)
  {}

  lemma AssignedIs(st: State, d: Slot, src: Source, oracle: nat)
    ensures var st1 := Noted(st, Assigned(st, d, src, oracle), d);
            var (st2, v) := Eval(st, src, d.obj, oracle);
      && Get(st1, d) == v && st1.next == st2.next
      && (st2.slots == st.slots ==> forall s :: s != d ==> Get(st1, s) == Get(st, s))
  {
    var (st2, v) := Eval(st, src, d.obj, oracle);
    var self := src == Load(d) && d in st.slots && st.slots[d] in st.heap;
    var st0 := if self then Log(st, Self(st.heap[st.slots[d]])) else st;
    if self { EvalLogged(st, Self(st.heap[st.slots[d]]), src, d.obj, oracle); }
    var st3 := Eval(st0, src, d.obj, oracle).0;
    assert st3.slots == st2.slots && st3.next == st2.next;
    hide Eval, Decrement, Retain, Noted;
    DecrementIs(st3, Get(st3, d));
    RetainIs(Decrement(st3, Get(st3, d)), src, v);
    NotedIs(st, Assigned(st, d, src, oracle), d);
  }

  lemma MeansAssign(em: Emitter, s: Stmt, w: M.World, st: State, oracle: seq<nat>)
    requires s.Assign? && Inside(em) && Good(st, Flatten(em.scopes)) && st.result == None && Shows(em, w, st)
    ensures var a := GenStmt(em, s);
      Matches(em, a, Exec(a.code, st, oracle), M.MeanStmt(s, w, em.loops != [], oracle))
  {
    hide Good, Flatten, Shows, Lookup, M.Place, M.Stored, Assigned, Inside, Matches;
    NameShown(em, w, st, s.x);
    TypedShows(em, w, st, Some(s.value));
    var d, src := Lookup(em.env, s.x), SourceOf(em, Some(s.value));
    if d.Some? && src.Some? && !d.value.obj {
      var i := Replace(d.value, src.value);
      var c := M.MeanStmt(s, w, em.loops != [], oracle);
      if oracle != [] {
        var (w1, v) := M.Given(w, Some(s.value), oracle[0]);
        var st1 := Do(i, st, oracle[0]);
        GivenShows(em, w, st, Some(s.value), oracle[0]);
        AssignedIs(st, d.value, src.value, oracle[0]);
        StoredNext(w, s.x, v, st1.next);
        MeansChange(em, i, s.x, d.value, w, st, oracle, st1, v, c);
      } else {
        MeansChange(em, i, s.x, d.value, w, st, oracle, st, None, c);
      }
    } else {
      NothingMatches(em, w, st, oracle);
    }
  }

  lemma StoredNext(w: M.World, x: string, v: Option<Ref>, n: nat)
    ensures M.Stored(w.(next := n), x, v) == M.Stored(w, x, v).(next := n)
  {}

  lemma NothingMatches(em: Emitter, w: M.World, st: State, oracle: seq<nat>)
    requires Shows(em, w, st)
    ensures Matches(em, Piece([], em, true), Exec([], st, oracle), M.Course(M.Fell, w, oracle))
  {}

  lemma ClearIs(st: State, d: Slot)
    ensures var st1 := Noted(st, Clear(st, d), d);
      Get(st1, d) == None && st1.next == st.next && forall s :: s != d ==> Get(st1, s) == Get(st, s)
  {
    hide EntryOf;
  }

  lemma MeansDelete(em: Emitter, x: string, w: M.World, st: State, oracle: seq<nat>)
    requires Shows(em, w, st)
    ensures var a := GenStmt(em, Delete(x));
      Matches(em, a, Exec(a.code, st, oracle), M.MeanStmt(Delete(x), w, em.loops != [], oracle))
  {
    assert w.next == st.next;
    hide Shows, Lookup, M.Place, M.Stored, Clear, Matches;
    NameShown(em, w, st, x);
    var d := Lookup(em.env, x);
    if d.Some? {
      ClearIs(st, d.value);
      StoredNext(w, x, None, st.next);
      var st1 := Noted(st, Clear(st, d.value), d.value);
      var c := M.MeanStmt(Delete(x), w, em.loops != [], oracle);
      MeansChange(em, Drop(d.value), x, d.value, w, st, oracle, st1, None, c);
    } else {
      NothingMatches(em, w, st, oracle);
    }
  }

  lemma MeansDefer(em: Emitter, id: nat, w: M.World, st: State, oracle: seq<nat>)
    requires Inside(em) && Shows(em, w, st)
    ensures var a := GenStmt(em, Defer(id));
      Matches(em, a, Exec(a.code, st, oracle), M.MeanStmt(Defer(id), w, em.loops != [], oracle))
  {
    var a, e := GenStmt(em, Defer(id)), Deferred(id, em.next);
    ExecOne(Note(e), st, oracle);
    if oracle != [] {
      var st1 := Noticed(st, e);
      DeferIs(em, id);
      assert w.next == st.next;
      hide Inside, Shows, M.Added, GenStmt;
      AddedShows(em, w, st, e, M.Body, a.em, st1);
      assert w.(next := st1.next) == w;
    }
  }

  lemma DeferIs(em: Emitter, id: nat)
    requires Inside(em)
    ensures var em1, n, e := GenStmt(em, Defer(id)).em, |em.scopes| - 1, Deferred(id, em.next);
      && em1.scopes == em.scopes[n := em.scopes[n] + [e]] && em1.env == em.env[n := em.env[n]]
  {
    InsideOk(em);
    EnvLength(em);
    hide Inside, EnvOk, EmOk;
    assert em.env[|em.scopes| - 1 := em.env[|em.scopes| - 1]] == em.env;
  }

  // ----- jumps and returns -------------------------------------------------------------------

  /** Cleaning up every scope takes a step for each item, and leaves nothing. */
  lemma UnwindAllRuns(em: Emitter, w: M.World, st: State, oracle: seq<nat>)
    requires Inside(em) && Good(st, Flatten(em.scopes)) && Shows(em, w, st)
    ensures var r, n := Exec(UnwindAll(em.scopes), st, oracle), M.Items(w.scopes);
      match r.o
      case Normal =>
        && |oracle| >= n && r.oracle == oracle[n..] && Good(r.st, []) && r.st.slots == map[]
        && r.st.next == st.next && r.st.result == st.result
      case Stopped => |oracle| < n
      case _ => false
  {
    hide Good, Shows, Inside, Kinds, SlotSame;
    ItemsShown(em, w, st);
    SimUnwindAll(em, st, oracle);
    UnwindAllFlat(em.scopes);
    assert Kinds(Flatten(em.scopes)) by { EntriesKinds(em); }
    UnwindRuns(Flatten(em.scopes), st, oracle);
    var r := Exec(UnwindAll(em.scopes), st, oracle);
    if r.o == Normal { NothingHeld(r.st); }
  }

  lemma EntriesKinds(em: Emitter)
    requires Inside(em)
    ensures Kinds(Flatten(em.scopes)) && forall i :: 0 <= i < |em.scopes| ==> Kinds(em.scopes[i])
  {
    FlatBelow(em.scopes, em.next);
    forall i | 0 <= i < |em.scopes| ensures Kinds(em.scopes[i]) { assert SlotsBelow(em.scopes[i], em.next); }
  }

  lemma JumpStep(em: Emitter, i: Instr, st: State, oracle: seq<nat>)
    requires !st.fault && (i == Exit(Around(em)) || i == Next(Around(em)))
    ensures var o := if i.Exit? then Exited else Continued;
      Exec([i], st, oracle) == if oracle == [] then Run(Stopped, st, [])
                               else Run(o, Log(st, Left(Around(em))), oracle[1..])
  {
    ExecOne(i, st, oracle);
  }

  lemma MatchesStopped(em: Emitter, a: Piece, r: Run, c: M.Course)
    requires r.o == Stopped && c.e.OutOfTime?
    ensures Matches(em, a, r, c)
  {}

  lemma MatchesFaulted(em: Emitter, a: Piece, r: Run, c: M.Course)
    requires r.o == Faulted
    ensures Matches(em, a, r, c)
  {}

  lemma MatchesReturned(em: Emitter, a: Piece, r: Run, c: M.Course)
    requires r.o == Returned && c.e == M.Gave(r.st.result)
    ensures Matches(em, a, r, c)
  {}

  lemma MatchesJump(em: Emitter, a: Piece, r: Run, c: M.Course)
    requires (r.o == Exited && c.e == M.Broke) || (r.o == Continued && c.e == M.WentOn)
    requires c.oracle == r.oracle && OuterShows(em, c.w, r.st)
    ensures Matches(em, a, r, c)
  {}

  lemma LateEnds(n: nat, e: M.End, w: M.World, oracle: seq<nat>)
    ensures if |oracle| < n then M.Ending(n, e, w, oracle).e.OutOfTime?
            else M.Ending(n, e, w, oracle) == M.Course(e, w, oracle[n..])
  {}

  /** The code of a jump: as many steps as there are items, and one more. */
  lemma JumpRuns(em: Emitter, i: Instr, w: M.World, st: State, oracle: seq<nat>)
    requires Inside(em) && Good(st, Flatten(em.scopes)) && Shows(em, w, st)
    requires i == Exit(Around(em)) || i == Next(Around(em))
    ensures var r, n := Exec(UnwindAll(em.scopes) + [i], st, oracle), M.Items(w.scopes) + 1;
      if r.o == Stopped then |oracle| < n
      else
        && r.o == (if i.Exit? then Exited else Continued)
        && |oracle| >= n && r.oracle == oracle[n..] && Shows(em, M.Emptied(w), r.st)
  {
    hide Good, Shows, Inside, Around, M.Emptied, M.Items, UnwindAll, Exec;
    var n := M.Items(w.scopes);
    UnwindAllRuns(em, w, st, oracle);
    ExecAppend(UnwindAll(em.scopes), [i], st, oracle);
    var r := Exec(UnwindAll(em.scopes), st, oracle);
    if r.o == Normal {
      GoodFine(r.st, []);
      JumpStep(em, i, r.st, r.oracle);
      EmptiedShows(em, w, st, Log(r.st, Left(Around(em))));
      if r.oracle != [] { assert oracle[n..][1..] == oracle[n + 1..]; }
    }
  }

  lemma MeansJump(em: Emitter, i: Instr, e: M.End, w: M.World, st: State, oracle: seq<nat>)
    requires Inside(em) && Good(st, Flatten(em.scopes)) && Shows(em, w, st)
    requires (i == Exit(Around(em)) && e == M.Broke) || (i == Next(Around(em)) && e == M.WentOn)
    ensures Matches(em, Piece(UnwindAll(em.scopes) + [i], em, false), Exec(UnwindAll(em.scopes) + [i], st, oracle),
                    M.Ending(M.Items(w.scopes) + 1, e, M.Emptied(w), oracle))
  {
    hide *;
    InsideOk(em);
    JumpRuns(em, i, w, st, oracle);
    LateEnds(M.Items(w.scopes) + 1, e, M.Emptied(w), oracle);
    var a := Piece(UnwindAll(em.scopes) + [i], em, false);
    var r, c := Exec(a.code, st, oracle), M.Ending(M.Items(w.scopes) + 1, e, M.Emptied(w), oracle);
    if r.o == Stopped {
      MatchesStopped(em, a, r, c);
    } else {
      ShowsOuter(em, M.Emptied(w), r.st);
      MatchesJump(em, a, r, c);
    }
  }

  lemma KeptIs(st: State, src: Source, oracle: nat)
    ensures var st1 := Kept(st, src, oracle);
            var (st2, v) := Eval(st, src, false, oracle);
      st1.result == v && st1.next == st2.next && st1.slots == st2.slots
  {}

  /** The code of a return: a step for the value, one for each item, and one for the return. */
  lemma ReturnRuns(em: Emitter, src: Source, w: M.World, st: State, oracle: seq<nat>)
    requires Inside(em) && Good(st, Flatten(em.scopes)) && st.result == None && Shows(em, w, st)
    requires SourceFits(src, false)
    requires oracle != [] ==> Eval(st, src, false, oracle[0]).0.slots == st.slots
    ensures var r, n := Exec([SetResult(src)] + UnwindAll(em.scopes) + [Ret], st, oracle), M.Items(w.scopes) + 2;
      if r.o == Stopped then |oracle| < n
      else r.o == Returned && |oracle| >= n && r.st.result == Eval(st, src, false, oracle[0]).1
  {
    hide Good, Shows, Inside, M.Items, UnwindAll, Exec, Kept, Eval;
    var i, all := SetResult(src), UnwindAll(em.scopes);
    ExecAppend([i] + all, [Ret], st, oracle);
    ExecAppend([i], all, st, oracle);
    KeptStep(em, src, st, oracle);
    if oracle != [] {
      var st1 := Kept(st, src, oracle[0]);
      KeptShows(em, src, w, st, oracle[0]);
      var w1 := w.(next := st1.next);
      UnwindAllRuns(em, w1, st1, oracle[1..]);
      var r := Exec(all, st1, oracle[1..]);
      if r.o == Normal {
        GoodFine(r.st, []);
        RetStep(r.st, r.oracle);
      }
    }
  }

  lemma RetStep(st: State, oracle: seq<nat>)
    requires !st.fault
    ensures Exec([Ret], st, oracle) == if oracle == [] then Run(Stopped, st, []) else Run(Returned, st, oracle[1..])
  {
    ExecOne(Ret, st, oracle);
  }

  lemma KeptStep(em: Emitter, src: Source, st: State, oracle: seq<nat>)
    requires Good(st, Flatten(em.scopes)) && st.result == None && SourceFits(src, false)
    ensures Exec([SetResult(src)], st, oracle)
            == if oracle == [] then Run(Stopped, st, []) else Run(Normal, Kept(st, src, oracle[0]), oracle[1..])
    ensures oracle != [] ==> Good(Kept(st, src, oracle[0]), Flatten(em.scopes))
  {
    ExecOne(SetResult(src), st, oracle);
    hide Balanced, Typed, Track, Kept, Linked, TraceOk;
    if oracle != [] {
      var st1 := Kept(st, src, oracle[0]);
      KeepSound(st, src, oracle[0]);
      KeptGood(st, st1, Flatten(em.scopes));
      GoodFine(st1, Flatten(em.scopes));
    }
  }

  lemma KeptShows(em: Emitter, src: Source, w: M.World, st: State, oracle: nat)
    requires Shows(em, w, st) && Eval(st, src, false, oracle).0.slots == st.slots
    ensures var st1 := Kept(st, src, oracle);
      Shows(em, w.(next := st1.next), st1) && st1.result == Eval(st, src, false, oracle).1
  {
    hide LevelShows;
    KeptIs(st, src, oracle);
    assert LevelsShow(em, w, st.slots, |em.scopes|);
  }

  lemma ReturnMeans(w: M.World, inLoop: bool, result: Option<Value>, oracle: seq<nat>)
    requires M.Typed(w, result)
    ensures var c := M.MeanStmt(Return(result), w, inLoop, oracle);
      if |oracle| < M.Items(w.scopes) + 2 then c.e.OutOfTime? else c.e == M.Gave(M.Given(w, result, oracle[0]).1)
  {}

  lemma ReturnCode(em: Emitter, result: Option<Value>)
    ensures var a := GenStmt(em, Return(result));
      if SourceOf(em, result).Some?
      then a.code == [SetResult(SourceOf(em, result).value)] + UnwindAll(em.scopes) + [Ret]
      else a == Piece([], em, true)
  {}

  lemma ReturnNothing(w: M.World, inLoop: bool, result: Option<Value>, oracle: seq<nat>)
    requires !M.Typed(w, result)
    ensures M.MeanStmt(Return(result), w, inLoop, oracle) == M.Course(M.Fell, w, oracle)
  {}

  lemma MeansReturn(em: Emitter, result: Option<Value>, w: M.World, st: State, oracle: seq<nat>)
    requires Inside(em) && Good(st, Flatten(em.scopes)) && st.result == None && Shows(em, w, st)
    ensures var a := GenStmt(em, Return(result));
      Matches(em, a, Exec(a.code, st, oracle), M.MeanStmt(Return(result), w, em.loops != [], oracle))
  {
    hide *;
    var a, c := GenStmt(em, Return(result)), M.MeanStmt(Return(result), w, em.loops != [], oracle);
    TypedShows(em, w, st, result);
    ReturnCode(em, result);
    if SourceOf(em, result).Some? {
      SourceOk(em, result);
      if oracle != [] { GivenShows(em, w, st, result, oracle[0]); }
      ReturnRuns(em, SourceOf(em, result).value, w, st, oracle);
      ReturnMeans(w, em.loops != [], result, oracle);
      var r := Exec(a.code, st, oracle);
      if r.o == Stopped { MatchesStopped(em, a, r, c); } else { MatchesReturned(em, a, r, c); }
    } else {
      ReturnNothing(w, em.loops != [], result, oracle);
      NothingMatches(em, w, st, oracle);
    }
  }

  // ----- statements --------------------------------------------------------------------------

  lemma {:induction false} MeansStmts(em: Emitter, ss: seq<Stmt>, w: M.World, st: State, oracle: seq<nat>)
    requires Inside(em) && Good(st, Flatten(em.scopes)) && st.result == None && Shows(em, w, st)
    ensures var a := GenStmts(em, ss);
      Matches(em, a, Exec(a.code, st, oracle), M.MeanStmts(ss, w, em.loops != [], oracle))
    decreases |oracle|, ss, 0
  {
    hide Good, Shows, OuterShows, GenStmt, M.MeanStmt, Inside, Later, Flatten, Around;
    if ss == [] {
      NothingMatches(em, w, st, oracle);
    } else {
      MeansStmt(em, ss[0], w, st, oracle);
      SimStmt(em, ss[0], st, oracle);
      StmtLater(em, ss[0]);
      var a := GenStmt(em, ss[0]);
      var r := Exec(a.code, st, oracle);
      if a.live {
        var b := GenStmts(a.em, ss[1..]);
        ExecAppend(a.code, b.code, st, oracle);
        LaterLoops(em, a.em);
        if r.o == Normal {
          var c := M.MeanStmt(ss[0], w, em.loops != [], oracle);
          MeansStmts(a.em, ss[1..], c.w, r.st, r.oracle);
          MatchesBefore(em, a.em, b, Exec(b.code, r.st, r.oracle), M.MeanStmts(ss[1..], c.w, em.loops != [], r.oracle));
        }
      }
    }
  }

  lemma MatchesBefore(em: Emitter, em1: Emitter, a: Piece, r: Run, c: M.Course)
    requires Inside(em) && Later(em, em1) && Matches(em1, a, r, c)
    ensures Matches(em, a, r, c)
  {
    hide OuterShows, Shows;
    InsideOk(em);
    if r.o == Exited || r.o == Continued { OuterBefore(em, em1, c.w, r.st); }
  }

  lemma PushShows(em: Emitter, w: M.World, st: State)
    requires Shows(em, w, st)
    ensures Shows(Push(em), M.Inner(w), st)
  {
    hide LevelShows;
    var em1, w1 := Push(em), M.Inner(w);
    forall i | 0 <= i < |em1.scopes| ensures LevelShows(em1.env[i], em1.scopes[i], w1.scopes[i], st.slots) {
      if i < |em.scopes| {
        assert LevelShows(em.env[i], em.scopes[i], w.scopes[i], st.slots);
      } else {
        EmptyLevel(st.slots);
      }
    }
  }

  lemma EmptyLevel(slots: map<Slot, Ref>)
    ensures LevelShows(map[], [], [], slots)
  {}

  /** A scope is left by a jump. */
  lemma OuterPopped(em: Emitter, em1: Emitter, w: M.World, st: State)
    requires EntriesDiffer(em.scopes) && |em.env| == |em.scopes|
    requires em1.scopes != [] && em1.scopes[..|em1.scopes| - 1] == em.scopes
    requires em1.env != [] && em1.env[..|em1.env| - 1] == em.env
    requires OuterShows(em1, w, st)
    ensures Shows(em, M.Outer(w), st)
  {
    forall i | 0 <= i < |em.scopes| ensures LevelShows(em.env[i], em.scopes[i], M.Outer(w).scopes[i], st.slots) {
      assert LevelShows(em1.env[i], em1.scopes[i], w.scopes[i], st.slots);
    }
  }

  /** The code of a block is that of its statements and, where its end can be reached, the cleanups of
      its scope. */
  lemma BlockCode(em: Emitter, ss: seq<Stmt>, st: State, oracle: seq<nat>)
    requires GenStmts(Push(em), ss).em.scopes != []
    ensures var a := GenStmts(Push(em), ss);
            var r, q := Exec(a.code, st, oracle), Exec(GenBlock(em, ss).code, st, oracle);
      && (r.o != Normal ==> q == r)
      && (r.o == Normal && a.live ==> q == Exec(Unwind(a.em.scopes[|a.em.scopes| - 1]), r.st, r.oracle))
  {
    hide GenStmts, Push, Exec;
    var a := GenStmts(Push(em), ss);
    if a.live {
      ExecAppend(a.code, Unwind(a.em.scopes[|a.em.scopes| - 1]), st, oracle);
    } else {
      assert a.code + [] == a.code;
    }
  }

  lemma BlockMeans(ss: seq<Stmt>, w: M.World, inLoop: bool, oracle: seq<nat>)
    ensures var c, b := M.MeanStmts(ss, M.Inner(w), inLoop, oracle), M.MeanBlock(ss, w, inLoop, oracle);
      && (!c.e.Fell? ==> b == M.Course(c.e, M.Outer(c.w), c.oracle))
      && (c.e.Fell? && c.w.scopes != [] ==>
            b == M.Ending(|c.w.scopes[|c.w.scopes| - 1]|, M.Fell, M.Outer(c.w), c.oracle))
  {
    hide M.MeanStmts, M.Inner, M.Outer;
    var c := M.MeanStmts(ss, M.Inner(w), inLoop, oracle);
    assert c.oracle[0..] == c.oracle;
  }

  /** The end of a block is reached. */
  lemma BlockFell(em: Emitter, em1: Emitter, w: M.World, st: State, oracle: seq<nat>)
    requires Inside(em1) && Good(st, Flatten(em1.scopes)) && st.result == None && Shows(em1, w, st)
    requires em1.scopes[..|em1.scopes| - 1] == em.scopes && em1.env[..|em1.env| - 1] == em.env
    ensures w.scopes != [] && em1.scopes != []
    ensures BlockMatches(em, Exec(Unwind(em1.scopes[|em1.scopes| - 1]), st, oracle),
                         M.Ending(|w.scopes[|w.scopes| - 1]|, M.Fell, M.Outer(w), oracle))
  {
    var n := |em1.scopes| - 1;
    var top := em1.scopes[n];
    assert |top| == |w.scopes[n]| by { assert LevelShows(em1.env[n], top, w.scopes[n], st.slots); }
    EntriesKinds(em1);
    FlattenTop(em1.scopes);
    var r := Exec(Unwind(top), st, oracle);
    hide Good, Shows, Inside, Flatten, Exec, Unwind, M.Outer;
    UnwindGood(st, Flatten(em1.scopes[..n]), top, oracle);
    UnwindRuns(top, st, oracle);
    LateEnds(|top|, M.Fell, M.Outer(w), oracle);
    hide M.Ending;
    if r.o == Normal {
      assert |em1.env| == |em1.scopes| by { InsideOk(em1); EnvLength(em1); }
      OuterShown(em1, w, st, em, r.st);
    }
  }

  lemma EnvLength(em: Emitter)
    requires EnvOk(em)
    ensures |em.env| == |em.scopes|
  {}

  lemma {:induction false} MeansBlock(em: Emitter, ss: seq<Stmt>, w: M.World, st: State, oracle: seq<nat>)
    requires EmOk(em) && Good(st, Flatten(em.scopes)) && st.result == None && Shows(em, w, st)
    ensures BlockMatches(em, Exec(GenBlock(em, ss).code, st, oracle), M.MeanBlock(ss, w, em.loops != [], oracle))
    decreases |oracle|, ss, 1
  {
    hide *;
    var em0 := Push(em);
    PushInside(em);
    PushShows(em, w, st);
    assert em0.loops == em.loops by { PushLoops(em); }
    MeansStmts(em0, ss, M.Inner(w), st, oracle);
    SimStmts(em0, ss, st, oracle);
    StmtsLater(em0, ss);
    var a := GenStmts(em0, ss);
    LaterLoops(em0, a.em);
    BlockCode(em, ss, st, oracle);
    BlockMeans(ss, w, em.loops != [], oracle);
    ShowsDiffer(em, w, st);
    var r := Exec(a.code, st, oracle);
    var c := M.MeanStmts(ss, M.Inner(w), em.loops != [], oracle);
    BlockDone(em, a, r, c, Exec(GenBlock(em, ss).code, st, oracle), M.MeanBlock(ss, w, em.loops != [], oracle));
  }

  lemma ShowsDiffer(em: Emitter, w: M.World, st: State)
    requires Shows(em, w, st)
    ensures EntriesDiffer(em.scopes)
  {}

  lemma PushLoops(em: Emitter)
    ensures Push(em).loops == em.loops
    ensures Push(em).scopes == em.scopes + [[]] && Push(em).env == em.env + [map[]]
  {}

  /** From the run of a block's statements to the run of the block. */
  lemma BlockDone(em: Emitter, a: Piece, r: Run, c: M.Course, q: Run, b: M.Course)
    requires EmOk(em) && EntriesDiffer(em.scopes) && Later(Push(em), a.em) && Inside(a.em)
    requires Matches(Push(em), a, r, c) && PieceOk(Push(em), a, r)
    requires r.o != Normal ==> q == r
    requires r.o == Normal && a.live ==> q == Exec(Unwind(a.em.scopes[|a.em.scopes| - 1]), r.st, r.oracle)
    requires !c.e.Fell? ==> b == M.Course(c.e, M.Outer(c.w), c.oracle)
    requires c.e.Fell? && c.w.scopes != [] ==>
      b == M.Ending(|c.w.scopes[|c.w.scopes| - 1]|, M.Fell, M.Outer(c.w), c.oracle)
    ensures BlockMatches(em, q, b)
  {
    hide *;
    PushFront(em);
    MatchesParts(Push(em), a, r, c);
    if r.o == Normal {
      PieceGood(Push(em), a, r);
      FrontSame(em, a.em);
      BlockFell(em, a.em, c.w, r.st, r.oracle);
    } else if r.o == Exited || r.o == Continued {
      OuterPopped(em, Push(em), c.w, r.st);
      BlockJumped(em, r, b);
    } else {
      BlockOver(em, r, b);
    }
  }

  lemma MatchesParts(em: Emitter, a: Piece, r: Run, c: M.Course)
    requires Matches(em, a, r, c)
    ensures r.o == Normal ==> c.e.Fell? && c.oracle == r.oracle && Shows(a.em, c.w, r.st)
    ensures r.o == Exited || r.o == Continued ==> c.oracle == r.oracle && OuterShows(em, c.w, r.st)
    ensures r.o == Exited ==> c.e == M.Broke
    ensures r.o == Continued ==> c.e == M.WentOn
    ensures r.o == Returned ==> c.e == M.Gave(r.st.result)
    ensures r.o == Stopped ==> c.e == M.OutOfTime
  {
    hide Shows, OuterShows;
  }

  lemma BlockJumped(em: Emitter, r: Run, b: M.Course)
    requires (r.o == Exited && b.e == M.Broke) || (r.o == Continued && b.e == M.WentOn)
    requires b.oracle == r.oracle && Shows(em, b.w, r.st)
    ensures BlockMatches(em, r, b)
  {
    hide Shows;
  }

  lemma BlockOver(em: Emitter, r: Run, b: M.Course)
    requires r.o == Returned || r.o == Stopped || r.o == Faulted
    requires r.o == Returned ==> b.e == M.Gave(r.st.result)
    requires r.o == Stopped ==> b.e == M.OutOfTime
    ensures BlockMatches(em, r, b)
  {}

  lemma PushFront(em: Emitter)
    requires EmOk(em)
    ensures var em0 := Push(em);
      && em0.scopes != [] && em0.env != [] && |em.env| == |em.scopes|
      && em0.scopes[..|em0.scopes| - 1] == em.scopes && em0.env[..|em0.env| - 1] == em.env
  {}

  lemma FrontSame(em: Emitter, em1: Emitter)
    requires EmOk(em) && Later(Push(em), em1)
    ensures em1.scopes != [] && em1.env != []
    ensures em1.scopes[..|em1.scopes| - 1] == em.scopes && em1.env[..|em1.env| - 1] == em.env
  {
    PushFront(em);
  }

  lemma PieceGood(em: Emitter, a: Piece, r: Run)
    requires PieceOk(em, a, r) && r.o == Normal
    ensures Good(r.st, Flatten(a.em.scopes)) && r.st.result == None && a.live
  {
    hide Good, Flatten;
  }

  lemma NextShows(em: Emitter, n: nat, loops: seq<nat>, w: M.World, st: State)
    ensures Shows(em.(next := n, loops := loops), w, st) <==> Shows(em, w, st)
  {
    hide LevelShows;
  }

  /** A block as a statement. */
  lemma BlockIsStmt(em: Emitter, a: Piece, r: Run, c: M.Course)
    requires em.scopes != [] && BlockMatches(em, r, c) && a.em == em.(next := a.em.next)
    ensures Matches(em, a, r, c)
  {
    hide Shows, OuterShows;
    if r.o == Normal { NextShows(em, a.em.next, em.loops, c.w, r.st); }
    if r.o == Exited || r.o == Continued { ShowsOuter(em, c.w, r.st); }
  }

  lemma {:induction false} MeansStmt(em: Emitter, s: Stmt, w: M.World, st: State, oracle: seq<nat>)
    requires Inside(em) && Good(st, Flatten(em.scopes)) && st.result == None && Shows(em, w, st)
    ensures var a := GenStmt(em, s);
      Matches(em, a, Exec(a.code, st, oracle), M.MeanStmt(s, w, em.loops != [], oracle))
    decreases |oracle|, s, 1
  {
    hide *;
    match s {
      case DeclList(x, init) => MeansDeclList(em, x, init, w, st, oracle);
      case DeclObj(x, isNew) => MeansDeclObj(em, x, isNew, w, st, oracle);
      case Assign(_, _) => MeansAssign(em, s, w, st, oracle);
      case Delete(x) => MeansDelete(em, x, w, st, oracle);
      case Defer(id) => MeansDefer(em, id, w, st, oracle);
      case Block(body) => MeansScope(em, body, w, st, oracle);
      case If(t, f) => MeansIf(em, t, f, w, st, oracle);
      case Loop(body) => MeansLoop(em, body, w, st, oracle);
      case Break => MeansBreak(em, s, w, st, oracle);
      case Continue => MeansBreak(em, s, w, st, oracle);
      case Return(result) => MeansReturn(em, result, w, st, oracle);
    }
  }

  lemma {:induction false} MeansScope(em: Emitter, body: seq<Stmt>, w: M.World, st: State, oracle: seq<nat>)
    requires Inside(em) && Good(st, Flatten(em.scopes)) && st.result == None && Shows(em, w, st)
    ensures var a := GenStmt(em, Block(body));
      Matches(em, a, Exec(a.code, st, oracle), M.MeanStmt(Block(body), w, em.loops != [], oracle))
    decreases |oracle|, body, 2
  {
    ScopeCode(em, body, w, oracle);
    hide *;
    InsideOk(em);
    MeansBlock(em, body, w, st, oracle);
    BlockBack(em, body);
    BlockIsStmt(em, GenBlock(em, body), Exec(GenBlock(em, body).code, st, oracle),
                M.MeanBlock(body, w, em.loops != [], oracle));
  }

  lemma ScopeCode(em: Emitter, body: seq<Stmt>, w: M.World, oracle: seq<nat>)
    ensures GenStmt(em, Block(body)) == GenBlock(em, body)
    ensures M.MeanStmt(Block(body), w, em.loops != [], oracle) == M.MeanBlock(body, w, em.loops != [], oracle)
  {
    hide GenBlock, M.MeanBlock;
  }

  lemma JumpCode(em: Emitter, s: Stmt, w: M.World, oracle: seq<nat>)
    requires s.Break? || s.Continue?
    ensures em.loops != [] ==> var i := if s.Break? then Exit(Around(em)) else Next(Around(em));
      GenStmt(em, s) == Piece(UnwindAll(em.scopes) + [i], em, false)
    ensures M.MeanStmt(s, w, true, oracle)
            == M.Ending(M.Items(w.scopes) + 1, if s.Break? then M.Broke else M.WentOn, M.Emptied(w), oracle)
    ensures em.loops == [] ==>
      GenStmt(em, s) == Piece([], em, true) && M.MeanStmt(s, w, false, oracle) == M.Course(M.Fell, w, oracle)
  {}

  lemma MeansBreak(em: Emitter, s: Stmt, w: M.World, st: State, oracle: seq<nat>)
    requires s.Break? || s.Continue?
    requires Inside(em) && Good(st, Flatten(em.scopes)) && Shows(em, w, st)
    ensures var a := GenStmt(em, s);
      Matches(em, a, Exec(a.code, st, oracle), M.MeanStmt(s, w, em.loops != [], oracle))
  {
    hide *;
    JumpCode(em, s, w, oracle);
    if em.loops == [] {
      NothingMatches(em, w, st, oracle);
    } else if s.Break? {
      MeansJump(em, Exit(Around(em)), M.Broke, w, st, oracle);
    } else {
      MeansJump(em, Next(Around(em)), M.WentOn, w, st, oracle);
    }
  }

  lemma MeansDeclList(em: Emitter, x: string, init: Option<Value>, w: M.World, st: State, oracle: seq<nat>)
    requires Inside(em) && Good(st, Flatten(em.scopes)) && st.result == None && Shows(em, w, st)
    ensures var a := GenStmt(em, DeclList(x, init));
      Matches(em, a, Exec(a.code, st, oracle), M.MeanStmt(DeclList(x, init), w, em.loops != [], oracle))
  {
    hide Good, Shows, Inside, Flatten, Matches, Exec, GenDecl, M.Given, M.Typed, M.Added, SourceOf, Eval;
    TypedShows(em, w, st, init);
    if SourceOf(em, init).Some? {
      var src := SourceOf(em, init).value;
      var (w1, v) := M.Given(w, init, if oracle == [] then 0 else oracle[0]);
      if oracle != [] { GivenShows(em, w, st, init, oracle[0]); }
      MeansDecl(em, x, src, false, w, st, oracle, w1, v);
    } else {
      NothingMatches(em, w, st, oracle);
    }
  }

  lemma MeansDeclObj(em: Emitter, x: string, isNew: bool, w: M.World, st: State, oracle: seq<nat>)
    requires Inside(em) && Shows(em, w, st)
    ensures var a := GenStmt(em, DeclObj(x, isNew));
      Matches(em, a, Exec(a.code, st, oracle), M.MeanStmt(DeclObj(x, isNew), w, em.loops != [], oracle))
  {
    var (w1, v) := if isNew then M.Made(w, true) else (w, None);
    assert w.next == st.next;
    hide Shows, Inside, GenDecl, M.Added, Exec;
    MeansDecl(em, x, if isNew then Fresh else NoValue, true, w, st, oracle, w1, v);
  }

  lemma IfCode(em: Emitter, t: seq<Stmt>, f: seq<Stmt>, w: M.World, st: State, oracle: seq<nat>)
    ensures var p, a := GenStmt(em, If(t, f)), GenBlock(em, t);
            var b := GenBlock(a.em, f);
      && p == Piece([Choice(a.code, b.code)], b.em, true)
      && Exec(p.code, st, oracle) == (if oracle == [] then Run(Stopped, st, [])
                                      else Exec(if oracle[0] != 0 then a.code else b.code, st, oracle[1..]))
    ensures M.MeanStmt(If(t, f), w, em.loops != [], oracle)
            == if oracle == [] then M.Late(w)
               else M.MeanBlock(if oracle[0] != 0 then t else f, w, em.loops != [], oracle[1..])
  {
    hide GenBlock, M.MeanBlock;
    var a := GenBlock(em, t);
    ExecOne(Choice(a.code, GenBlock(a.em, f).code), st, oracle);
  }

  lemma LateIs(w: M.World)
    ensures M.Late(w).e.OutOfTime?
  {}

  lemma {:induction false} MeansIf(em: Emitter, t: seq<Stmt>, f: seq<Stmt>, w: M.World, st: State, oracle: seq<nat>)
    requires Inside(em) && Good(st, Flatten(em.scopes)) && st.result == None && Shows(em, w, st)
    ensures var a := GenStmt(em, If(t, f));
      Matches(em, a, Exec(a.code, st, oracle), M.MeanStmt(If(t, f), w, em.loops != [], oracle))
    decreases |oracle|, t, f, 0
  {
    hide *;
    var p, inLoop := GenStmt(em, If(t, f)), em.loops != [];
    var a := GenBlock(em, t);
    var b := GenBlock(a.em, f);
    InsideOk(em);
    BlockBack(em, t);
    BlockBack(a.em, f);
    IfCode(em, t, f, w, st, oracle);
    if oracle == [] {
      LateIs(w);
      MatchesStopped(em, p, Exec(p.code, st, oracle), M.Late(w));
    } else if oracle[0] != 0 {
      MeansBlock(em, t, w, st, oracle[1..]);
      BlockIsStmt(em, p, Exec(a.code, st, oracle[1..]), M.MeanBlock(t, w, inLoop, oracle[1..]));
    } else {
      NextShows(em, a.em.next, em.loops, w, st);
      MeansBlock(a.em, f, w, st, oracle[1..]);
      BlockNext(em, a.em, Exec(b.code, st, oracle[1..]), M.MeanBlock(f, w, inLoop, oracle[1..]));
      BlockIsStmt(em, p, Exec(b.code, st, oracle[1..]), M.MeanBlock(f, w, inLoop, oracle[1..]));
    }
  }

  /** Only the scopes and the names of the emitter matter. */
  lemma BlockNext(em: Emitter, em1: Emitter, r: Run, c: M.Course)
    requires BlockMatches(em1, r, c) && em1.scopes == em.scopes && em1.env == em.env
    ensures BlockMatches(em, r, c)
  {
    hide Shows;
    if r.o == Normal || r.o == Exited || r.o == Continued { ShowsSame(em1, em, c.w, r.st); }
  }

  lemma LoopCode(em: Emitter, body: seq<Stmt>, w: M.World, st: State, oracle: seq<nat>)
    ensures var em0 := em.(loops := em.loops + [|em.scopes|]);
            var p, a := GenStmt(em, Loop(body)), GenBlock(em0, body);
            var inLoop := em.loops != [];
            var q, d := Exec(p.code, st, oracle), M.MeanStmt(Loop(body), w, inLoop, oracle);
      && p == Piece([Repeat(a.code)], a.em.(loops := em.loops), true)
      && (oracle == [] ==> q == Run(Stopped, st, []) && d == M.Late(w))
      && (oracle != [] && oracle[0] == 0 ==>
            q == Run(Normal, st, oracle[1..]) && d == M.Course(M.Fell, w, oracle[1..]))
      && (oracle != [] && oracle[0] != 0 ==>
            var r, c := Exec(a.code, st, oracle[1..]), M.MeanBlock(body, w, true, oracle[1..]);
            && q == (if r.o == Exited then r.(o := Normal)
                     else if r.o == Normal || r.o == Continued then Exec(p.code, r.st, r.oracle) else r)
            && d == (if c.e.Broke? then c.(e := M.Fell)
                     else if c.e.Fell? || c.e.WentOn? then M.MeanStmt(Loop(body), c.w, inLoop, c.oracle) else c))
  {
    hide GenBlock, M.MeanBlock;
    var a := GenBlock(em.(loops := em.loops + [|em.scopes|]), body);
    ExecOne(Repeat(a.code), st, oracle);
    if oracle != [] {
      var r := Exec(a.code, st, oracle[1..]);
      ExecOne(Repeat(a.code), r.st, r.oracle);
    }
  }

  lemma {:induction false} MeansLoop(em: Emitter, body: seq<Stmt>, w: M.World, st: State, oracle: seq<nat>)
    requires Inside(em) && Good(st, Flatten(em.scopes)) && st.result == None && Shows(em, w, st)
    ensures var a := GenStmt(em, Loop(body));
      Matches(em, a, Exec(a.code, st, oracle), M.MeanStmt(Loop(body), w, em.loops != [], oracle))
    decreases |oracle|, body, 2
  {
    hide *;
    var em0 := em.(loops := em.loops + [|em.scopes|]);
    var p, a := GenStmt(em, Loop(body)), GenBlock(em0, body);
    EnterLoop(em);
    BlockBack(em0, body);
    LoopCode(em, body, w, st, oracle);
    if oracle == [] {
      LateIs(w);
      MatchesStopped(em, p, Exec(p.code, st, oracle), M.Late(w));
    } else if oracle[0] == 0 {
      MatchesFell(em, p, w, st, oracle[1..]);
    } else {
      NextShows(em, em.next, em0.loops, w, st);
      MeansBlock(em0, body, w, st, oracle[1..]);
      SimBlock(em0, body, st, oracle[1..]);
      AroundHere(em);
      var r := Exec(a.code, st, oracle[1..]);
      var c := M.MeanBlock(body, w, true, oracle[1..]);
      BlockNext(em, em0, r, c);
      RoundDone(em, em0, a, r, c);
      if r.o == Normal || r.o == Continued {
        MeansLoop(em, body, c.w, r.st, r.oracle);
      } else if r.o == Exited {
        MatchesFell(em, p, c.w, r.st, r.oracle);
      } else if r.o == Faulted {
        MatchesFaulted(em, p, r, M.MeanStmt(Loop(body), w, em.loops != [], oracle));
      } else {
        RoundOver(em, p, r, c);
      }
    }
  }

  lemma MatchesFell(em: Emitter, a: Piece, w: M.World, st: State, oracle: seq<nat>)
    requires Shows(em, w, st) && a.em.scopes == em.scopes && a.em.env == em.env
    ensures Matches(em, a, Run(Normal, st, oracle), M.Course(M.Fell, w, oracle))
  {
    ShowsSame(em, a.em, w, st);
  }

  /** What a round of a loop leaves. */
  lemma RoundDone(em: Emitter, em0: Emitter, a: Piece, r: Run, c: M.Course)
    requires BlockMatches(em, r, c) && PieceOk(em0, a, r) && em0.loops != []
    requires a.em.scopes == em.scopes && Around(em0) == Flatten(em.scopes)
    ensures r.o == Normal || r.o == Continued || r.o == Exited ==>
      Good(r.st, Flatten(em.scopes)) && r.st.result == None && Shows(em, c.w, r.st) && c.oracle == r.oracle
    ensures match r.o case Normal => c.e.Fell? case Continued => c.e.WentOn? case Exited => c.e.Broke?
                      case Faulted => true
                      case _ => !c.e.Fell? && !c.e.WentOn? && !c.e.Broke?
  {
    hide Good, Shows, Flatten, Around;
  }

  /** A round that ends the function, or is cut off. */
  lemma RoundOver(em: Emitter, p: Piece, r: Run, c: M.Course)
    requires BlockMatches(em, r, c) && r.o != Normal && r.o != Continued && r.o != Exited
    ensures Matches(em, p, r, c)
  {}

  // ----- functions ---------------------------------------------------------------------------

  lemma StartShows()
    ensures Shows(Emitter([[]], [map[]], [], 0), M.World([[]], 0), EMPTY)
  {
    EmptyLevel(map[]);
  }

  /** Main result: a run of the emitted code that touches nothing freed returns exactly the reference
      that the meaning of the body gives, and is cut off exactly when the meaning is. */
  lemma CodeMeans(body: seq<Stmt>, oracle: seq<nat>)
    ensures var r, e := CallOf(body, oracle), M.MeanFunction(body, oracle);
      r.o != Faulted ==>
        && (r.o == Returned || r.o == Stopped)
        && (r.o == Returned ==> e == M.Gave(r.st.result))
        && (r.o == Stopped ==> e == M.OutOfTime)
  {
    hide *;
    var em, w := Emitter([[]], [map[]], [], 0), M.World([[]], 0);
    var a := GenStmts(em, body);
    FunctionCode(body, oracle);
    FunctionMeans(body, oracle);
    StartShows();
    StartGood();
    SimStmts(em, body, EMPTY, oracle);
    MeansStmts(em, body, w, EMPTY, oracle);
    StmtsLater(em, body);
    var r := Exec(a.code, EMPTY, oracle);
    var c := M.MeanStmts(body, w, false, oracle);
    RunEnds(em, a, r, c);
    if r.o == Normal {
      PieceGood(em, a, r);
      UnwindAllRuns(a.em, c.w, r.st, r.oracle);
      LateEnds(M.Items(c.w.scopes) + 1, M.Gave(None), c.w, c.oracle);
      var u := Exec(UnwindAll(a.em.scopes), r.st, r.oracle);
      if u.o == Normal {
        GoodFine(u.st, []);
        RetStep(u.st, u.oracle);
      }
    }
  }

  lemma StartGood()
    ensures var em := Emitter([[]], [map[]], [], 0); Inside(em) && Good(EMPTY, Flatten(em.scopes))
    ensures EMPTY.result == None
  {
    hide Good, Inside;
    StartInside();
    EmptyGood();
  }

  lemma FunctionCode(body: seq<Stmt>, oracle: seq<nat>)
    ensures var a, q := GenStmts(Emitter([[]], [map[]], [], 0), body), CallOf(body, oracle);
            var r := Exec(a.code, EMPTY, oracle);
      && (r.o != Normal ==> q == r)
      && (r.o == Normal && a.live ==>
            var u := Exec(UnwindAll(a.em.scopes), r.st, r.oracle);
            q == if u.o == Normal then Exec([Ret], u.st, u.oracle) else u)
  {
    hide GenStmts, Exec;
    var a := GenStmts(Emitter([[]], [map[]], [], 0), body);
    var r := Exec(a.code, EMPTY, oracle);
    if a.live {
      ExecAppend(a.code, UnwindAll(a.em.scopes) + [Ret], EMPTY, oracle);
      ExecAppend(UnwindAll(a.em.scopes), [Ret], r.st, r.oracle);
    } else {
      assert a.code + [] == a.code;
    }
  }

  lemma FunctionMeans(body: seq<Stmt>, oracle: seq<nat>)
    ensures var c := M.MeanStmts(body, M.World([[]], 0), false, oracle);
      M.MeanFunction(body, oracle)
      == if c.e.Fell? then M.Ending(M.Items(c.w.scopes) + 1, M.Gave(None), c.w, c.oracle).e else c.e
  {
    hide M.MeanStmts, M.Ending;
  }

  /** A body is in no loop: it does not end in a jump. */
  lemma RunEnds(em: Emitter, a: Piece, r: Run, c: M.Course)
    requires PieceOk(em, a, r) && Matches(em, a, r, c) && em.loops == []
    ensures match r.o
            case Normal => c.e.Fell? && c.oracle == r.oracle && Shows(a.em, c.w, r.st)
            case Returned => c.e == M.Gave(r.st.result)
            case Stopped => c.e.OutOfTime?
            case o => o == Faulted
  {
    hide Good, Shows, OuterShows, Flatten, Around;
  }
}
