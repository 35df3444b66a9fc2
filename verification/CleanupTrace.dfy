/** What every trace keeps: the entries that the emitter has registered and not yet left are the ones
    that may still wait, in the order in which they were registered. */
module CleanupTrace {
  import opened Cleanup
  import opened CleanupRun

  predicate Sorted(t: seq<Event>, es: seq<Entry>) {
    forall i, j :: 0 <= i < j < |es| ==> Since(t, es[i]) < Since(t, es[j])
  }

  function Count(t: seq<Event>, x: Event): nat { multiset(t)[x] }

  /** Deferred bodies run as often as they are registered, and once more for every jump over them. */
  predicate Tally(t: seq<Event>, es: seq<Entry>, d: Entry) {
    Count(t, Ran(d)) + multiset(es)[d] == Count(t, Registered(d)) + Crossings(t, d)
  }

  /** Nothing takes effect more often than it is registered and jumped over. */
  predicate AtMost(t: seq<Event>, es: seq<Entry>, e: Entry) {
    Count(t, Ran(e)) + multiset(es)[e] <= Count(t, Registered(e)) + Crossings(t, e)
  }

  ghost predicate Tallies(t: seq<Event>, es: seq<Entry>) {
    && (forall d: Entry :: d.Deferred? ==> Tally(t, es, d))
    && (forall e: Entry :: AtMost(t, es, e))
  }

  /** Each time a variable comes to hold something, that is cleaned up or given up once. */
  predicate Balance(t: seq<Event>, e: Entry) {
    Count(t, Filled(e)) == Count(t, Ran(e)) + Count(t, Emptied(e)) + (if e in Pending(t) then 1 else 0)
  }

  ghost predicate Balances(t: seq<Event>) {
    && (forall e: Entry :: !e.Deferred? ==> Balance(t, e))
    && (forall e: Entry :: e.Destroy? ==> Count(t, Filled(e)) <= Count(t, Registered(e)))
    && (forall e: Entry :: e.Deferred? ==> Count(t, Filled(e)) == 0)
  }

  ghost predicate TraceOk(t: seq<Event>) {
    InReverse(t) && SlotsOnce(t) && Balances(t) && (DefersClear(t) ==> Once(t))
  }

  predicate Waiting(t: seq<Event>, es: seq<Entry>) {
    && (forall e :: e in Pending(t) ==> e in es)
    && (DefersClear(t) ==> forall i :: 0 <= i < |es| && es[i].Deferred? ==> es[i] in Pending(t))
  }

  /** es are the entries that the emitter has registered and not yet left. */
  ghost predicate Track(t: seq<Event>, es: seq<Entry>) {
    TraceOk(t) && Sorted(t, es) && Waiting(t, es) && Tallies(t, es)
  }

  // ----- one more event ----------------------------------------------------------------------

  lemma CountAppend(t: seq<Event>, x: Event)
    ensures forall y :: Count(t + [x], y) == Count(t, y) + (if y == x then 1 else 0)
    ensures (t + [x])[..|t|] == t
  {}

  lemma Append(t: seq<Event>, x: Event)
    ensures var t1 := t + [x];
            && t1[..|t|] == t && t1[|t|] == x
            && (DefersClear(t1) <==> DefersClear(t) && (x.Left? ==> !HasDefer(x.around)))
            && (InReverse(t1) <==> InReverse(t) && (x.Ran? ==> Latest(t, x.e)))
            && (SlotsOnce(t1) <==> SlotsOnce(t) && (x.Ran? && !x.e.Deferred? ==> x.e in Pending(t)))
            && (Once(t1) <==> Once(t) && (x.Ran? ==> x.e in Pending(t)))
  {
    hide Latest, Pending, HasDefer;
    var t1 := t + [x];
    assert t1[..|t|] == t && t1[|t|] == x;
    assert forall i :: 0 <= i < |t| ==> t1[i] == t[i] && t1[..i] == t[..i];
  }

  lemma {:induction false} SinceBound(t: seq<Event>, e: Entry)
    ensures Since(t, e) <= |t|
  {
    if t != [] { SinceBound(t[..|t| - 1], e); }
  }

  lemma SinceAppend(t: seq<Event>, x: Event, e: Entry)
    ensures Since(t + [x], e) == if x == Registered(e) then |t| + 1 else Since(t, e)
  {
    assert (t + [x])[..|t|] == t;
  }

  /** Events that are not registrations leave the order of registration alone. */
  lemma SinceSame(t: seq<Event>, x: Event, es: seq<Entry>)
    requires !x.Registered?
    ensures forall e :: Since(t + [x], e) == Since(t, e)
    ensures Sorted(t + [x], es) <==> Sorted(t, es)
  {
    forall e ensures Since(t + [x], e) == Since(t, e) { SinceAppend(t, x, e); }
  }

  lemma SortedOnce(t: seq<Event>, es: seq<Entry>, i: nat, j: nat)
    requires Sorted(t, es) && i < j < |es|
    ensures es[i] != es[j]
  {}

  lemma SortedPrefix(t: seq<Event>, a: seq<Entry>, es: seq<Entry>)
    requires Sorted(t, es) && a <= es
    ensures Sorted(t, a)
  {}

  lemma TallyOther(t: seq<Event>, x: Event, es: seq<Entry>)
    requires Tallies(t, es) && (x.Filled? || x.Emptied? || x.Self?)
    ensures Tallies(t + [x], es)
  {
    CountAppend(t, x);
    hide Count;
    forall d: Entry | d.Deferred? ensures Tally(t + [x], es, d) { assert Tally(t, es, d); }
    forall e: Entry ensures AtMost(t + [x], es, e) { assert AtMost(t, es, e); }
  }

  lemma PendingAppend(t: seq<Event>, x: Event)
    ensures Pending(t + [x]) == Waits(Pending(t), x)
  {
    assert (t + [x])[..|t|] == t;
  }

  /** x fits what its variable holds. */
  predicate Fits(t: seq<Event>, x: Event) {
    && (x.Filled? ==> !x.e.Deferred? && x.e !in Pending(t)
                      && (x.e.Destroy? ==> Count(t, Filled(x.e)) < Count(t, Registered(x.e))))
    && (x.Emptied? ==> !x.e.Deferred? && x.e in Pending(t))
    && (x.Ran? && !x.e.Deferred? ==> x.e in Pending(t))
  }

  lemma BalancesKept(t: seq<Event>, x: Event)
    requires Balances(t) && Fits(t, x)
    ensures Balances(t + [x])
  {
    CountAppend(t, x);
    PendingAppend(t, x);
    hide Count, Pending;
    forall y: Entry | !y.Deferred? ensures Balance(t + [x], y) { assert Balance(t, y); }
  }

  /** The cleanups stay in order. */
  lemma TraceKept(t: seq<Event>, x: Event)
    requires TraceOk(t) && Fits(t, x) && (x.Ran? ==> Latest(t, x.e))
    requires x.Ran? && x.e.Deferred? && DefersClear(t) ==> x.e in Pending(t)
    ensures TraceOk(t + [x])
  {
    Append(t, x);
    BalancesKept(t, x);
    hide Balances, InReverse, SlotsOnce, Once, DefersClear, Latest, Pending;
  }

  lemma TallyRegistered(t: seq<Event>, es: seq<Entry>, e: Entry)
    requires Tallies(t, es)
    ensures Tallies(t + [Registered(e)], es + [e])
  {
    CountAppend(t, Registered(e));
    hide Count;
    assert multiset(es + [e]) == multiset(es) + multiset{e};
    forall d: Entry | d.Deferred? ensures Tally(t + [Registered(e)], es + [e], d) { assert Tally(t, es, d); }
    forall y: Entry ensures AtMost(t + [Registered(e)], es + [e], y) { assert AtMost(t, es, y); }
  }

  lemma SortedRegistered(t: seq<Event>, es: seq<Entry>, e: Entry)
    requires Sorted(t, es) && e !in es
    ensures Sorted(t + [Registered(e)], es + [e])
  {
    var x, es1 := Registered(e), es + [e];
    hide Since;
    forall i, j | 0 <= i < j < |es1| ensures Since(t + [x], es1[i]) < Since(t + [x], es1[j]) {
      SinceAppend(t, x, es1[i]);
      SinceAppend(t, x, es1[j]);
      SinceBound(t, es1[i]);
    }
  }

  lemma TrackRegistered(t: seq<Event>, es: seq<Entry>, e: Entry)
    requires Track(t, es) && e !in es
    ensures Track(t + [Registered(e)], es + [e])
  {
    var x := Registered(e);
    Append(t, x);
    TraceKept(t, x);
    PendingAppend(t, x);
    TallyRegistered(t, es, e);
    SortedRegistered(t, es, e);
    hide TraceOk, DefersClear, Pending, Tallies, Sorted;
    assert (es + [e])[|es|] == e;
  }

  /** A variable comes to hold something, or gives it up, or is assigned to itself. */
  lemma TrackOther(t: seq<Event>, es: seq<Entry>, x: Event)
    requires Track(t, es) && Fits(t, x) && (x.Filled? || x.Emptied? || x.Self?)
    requires x.Filled? ==> x.e in es
    ensures Track(t + [x], es)
  {
    Append(t, x);
    TraceKept(t, x);
    PendingAppend(t, x);
    SinceSame(t, x, es);
    TallyOther(t, x, es);
    hide Count, TraceOk, DefersClear, Pending, Tallies, Sorted;
  }

  lemma LatestOfSorted(t: seq<Event>, es: seq<Entry>, e: Entry)
    requires Sorted(t, es + [e]) && Waiting(t, es + [e])
    ensures Latest(t, e)
  {
    hide Since, Pending;
    forall x | x in Pending(t) && x != e ensures Since(t, x) < Since(t, e) {
      var i :| 0 <= i < |es + [e]| && (es + [e])[i] == x;
      assert (es + [e])[|es|] == e;
    }
  }

  lemma TallyRan(t: seq<Event>, es: seq<Entry>, e: Entry)
    requires Tallies(t, es + [e])
    ensures Tallies(t + [Ran(e)], es) && (!e.Deferred? ==> Tallies(t, es))
  {
    CountAppend(t, Ran(e));
    hide Count;
    assert multiset(es + [e]) == multiset(es) + multiset{e};
    forall d: Entry | d.Deferred? ensures Tally(t + [Ran(e)], es, d) { assert Tally(t, es + [e], d); }
    forall y: Entry ensures AtMost(t + [Ran(e)], es, y) && AtMost(t, es, y) { assert AtMost(t, es + [e], y); }
    if !e.Deferred? {
      forall d: Entry | d.Deferred? ensures Tally(t, es, d) { assert Tally(t, es + [e], d); }
    }
  }

  /** The entries before the last one. */
  lemma WithoutLast(t: seq<Event>, es: seq<Entry>, e: Entry)
    requires Sorted(t, es + [e])
    ensures Sorted(t, es) && e !in es && (es + [e])[|es|] == e
  {
    var es0 := es + [e];
    assert es0[|es|] == e;
    forall i | 0 <= i < |es| ensures es[i] != e && es[i] == es0[i] { SortedOnce(t, es0, i, |es|); }
    SortedPrefix(t, es, es0);
  }

  /** The last entry is cleaned up; a release or destructor only if its variable holds something. */
  lemma TrackRan(t: seq<Event>, es: seq<Entry>, e: Entry)
    requires Track(t, es + [e]) && (!e.Deferred? ==> e in Pending(t))
    ensures Track(t + [Ran(e)], es)
  {
    var x, es0 := Ran(e), es + [e];
    WithoutLast(t, es, e);
    LatestOfSorted(t, es, e);
    TraceKept(t, x);
    Append(t, x);
    PendingAppend(t, x);
    SinceSame(t, x, es);
    TallyRan(t, es, e);
    hide Count, TraceOk, DefersClear, Pending, Tallies, Sorted;
    forall i | 0 <= i < |es| ensures es[i] == es0[i] {}
  }

  /** The last entry is left although there is nothing to clean up. */
  lemma TrackSkipped(t: seq<Event>, es: seq<Entry>, e: Entry)
    requires Track(t, es + [e]) && !e.Deferred? && e !in Pending(t)
    ensures Track(t, es)
  {
    var es0 := es + [e];
    WithoutLast(t, es, e);
    TallyRan(t, es, e);
    hide Count, TraceOk, DefersClear, Pending, Tallies, Sorted;
    forall i | 0 <= i < |es| ensures es[i] == es0[i] {}
  }

  lemma TallyLeft(t: seq<Event>, around: seq<Entry>)
    requires Tallies(t, [])
    ensures Tallies(t + [Left(around)], around)
  {
    CountAppend(t, Left(around));
    hide Count;
    forall d: Entry | d.Deferred? ensures Tally(t + [Left(around)], around, d) { assert Tally(t, [], d); }
    forall e: Entry ensures AtMost(t + [Left(around)], around, e) { assert AtMost(t, [], e); }
  }

  /** A jump has cleaned up everything; the entries around the loop will be cleaned up again. */
  lemma TrackLeft(t: seq<Event>, around: seq<Entry>)
    requires Track(t, []) && Sorted(t, around)
    ensures Track(t + [Left(around)], around)
  {
    var x := Left(around);
    Append(t, x);
    TraceKept(t, x);
    PendingAppend(t, x);
    SinceSame(t, x, around);
    TallyLeft(t, around);
    hide Count, TraceOk, DefersClear, Pending, Tallies, Sorted;
  }

  // ----- at the end --------------------------------------------------------------------------

  /** No break or continue was taken with e registered around its loop. */
  predicate Uncrossed(t: seq<Event>, e: Entry) {
    forall i :: 0 <= i < |t| && t[i].Left? ==> e !in t[i].around
  }

  lemma {:induction false} NoCrossings(t: seq<Event>, e: Entry)
    ensures Crossings(t, e) == 0 <==> Uncrossed(t, e)
    decreases |t|
  {
    if t != [] {
      var t0, x := t[..|t| - 1], t[|t| - 1];
      NoCrossings(t0, e);
      assert forall i :: 0 <= i < |t0| ==> t0[i] == t[i];
    }
  }

  /** A deferred body that only ever runs when it waits runs at most as often as it is registered. */
  lemma {:induction false} OnceBounds(t: seq<Event>, d: Entry)
    requires d.Deferred? && Once(t)
    ensures Count(t, Ran(d)) + (if d in Pending(t) then 1 else 0)
            <= Count(t, Registered(d)) + Count(t, Filled(d))
    decreases |t|
  {
    if t != [] {
      var t0, x := t[..|t| - 1], t[|t| - 1];
      assert t == t0 + [x];
      Append(t0, x);
      CountAppend(t0, x);
      hide Count, Once;
      OnceBounds(t0, d);
    }
  }
}
