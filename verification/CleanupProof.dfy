/** Every count is the number of slots that hold it plus the value in flight. */
module CleanupProof {
  import opened Common
  import opened Cleanup
  import opened CleanupRun

  // ----- counting ----------------------------------------------------------------------------

  function Holders(slots: map<Slot, Ref>, r: Ref): set<Slot> {
    set s | s in slots && slots[s] == r
  }

  /** Every live reference is accounted for by the slots and the owners in x, and nothing else is
      live. */
  predicate Counted(st: State, x: multiset<Ref>, r: Ref) {
    && (r in st.heap <==> Holders(st.slots, r) != {} || x[r] > 0)
    && (r in st.heap ==> st.heap[r] == |Holders(st.slots, r)| + x[r] && r.n < st.next)
  }

  ghost predicate Balanced(st: State, x: multiset<Ref>) {
    !st.fault && forall r :: Counted(st, x, r)
  }

  /** Lists are in list slots and objects in object slots; an object has one owner. */
  predicate Typed(st: State) {
    && (forall s :: s in st.slots ==> st.slots[s].obj == s.obj)
    && (forall r :: r in st.heap && r.obj ==> st.heap[r] == 1)
  }

  function One(v: Option<Ref>): multiset<Ref> {
    match v case Some(r) => multiset{r} case None => multiset{}
  }

  lemma HoldersPut(slots: map<Slot, Ref>, s: Slot, v: Ref, r: Ref)
    requires s !in slots
    ensures Holders(slots[s := v], r) == Holders(slots, r) + (if r == v then {s} else {})
    ensures s !in Holders(slots, r)
  {}

  lemma HoldersRemove(slots: map<Slot, Ref>, s: Slot, r: Ref)
    requires s in slots
    ensures Holders(slots - {s}, r) == Holders(slots, r) - (if r == slots[s] then {s} else {})
    ensures s in Holders(slots, slots[s])
  {}

  /** A value in flight is stored to an empty slot. */
  lemma StoreBalanced(st: State, s: Slot, v: Ref, x: multiset<Ref>)
    requires Balanced(st, x + multiset{v}) && s !in st.slots
    ensures Balanced(Put(st, s, Some(v)), x)
  {
    hide Holders;
    forall r ensures Counted(Put(st, s, Some(v)), x, r) {
      assert Counted(st, x + multiset{v}, r);
      HoldersPut(st.slots, s, v, r);
    }
  }

  /** A slot gives up its value. */
  lemma TakeBalanced(st: State, s: Slot, x: multiset<Ref>)
    requires Balanced(st, x) && s in st.slots
    ensures Balanced(Put(st, s, None), x + multiset{st.slots[s]})
  {
    hide Holders;
    var v := st.slots[s];
    forall r ensures Counted(Put(st, s, None), x + multiset{v}, r) {
      assert Counted(st, x, r);
      HoldersRemove(st.slots, s, r);
    }
  }

  lemma AllocBalanced(st: State, obj: bool, x: multiset<Ref>)
    requires Balanced(st, x)
    ensures var (st1, v) := Alloc(st, obj);
            Balanced(st1, x + One(v)) && (Typed(st) ==> Typed(st1)) && st1.heap[v.value] == 1
  {
    hide Holders;
    var new_ := Ref(st.next, obj);
    assert Counted(st, x, new_);
    forall r ensures Counted(Alloc(st, obj).0, x + multiset{new_}, r) {
      assert Counted(st, x, r);
    }
  }

  lemma DecrementBalanced(st: State, v: Ref, x: multiset<Ref>)
    requires Balanced(st, x + multiset{v})
    ensures v in st.heap && Balanced(Decrement(st, Some(v)), x)
    ensures Typed(st) ==> Typed(Decrement(st, Some(v)))
  {
    hide Holders;
    assert Counted(st, x + multiset{v}, v);
    forall r ensures Counted(Decrement(st, Some(v)), x, r) {
      assert Counted(st, x + multiset{v}, r);
    }
  }

  /** Freeing outright is giving up the only reference. */
  lemma FreeIsDecrement(st: State, v: Option<Ref>)
    requires v.Some? && v.value in st.heap ==> st.heap[v.value] == 1
    ensures Free(st, v) == Decrement(st, v)
  {}

  lemma RetainBalanced(st: State, s: Slot, x: multiset<Ref>)
    requires Balanced(st, x) && s in st.slots && Typed(st) && !s.obj
    ensures var st1 := Retain(st, Load(s), Some(st.slots[s]));
            Balanced(st1, x + multiset{st.slots[s]}) && Typed(st1)
  {
    hide Holders;
    var v := st.slots[s];
    assert Counted(st, x, v) && s in Holders(st.slots, v) by { HoldersRemove(st.slots, s, v); }
    forall r ensures Counted(Retain(st, Load(s), Some(v)), x + multiset{v}, r) {
      assert Counted(st, x, r);
    }
  }

  /** A call hands over a list that is alive, or a new one, or null. */
  lemma HandedBalanced(st: State, obj: bool, oracle: nat, x: multiset<Ref>)
    requires Balanced(st, x) && Typed(st)
    ensures var (st1, v) := Handed(st, obj, oracle);
            && Balanced(st1, x + One(v)) && Typed(st1)
            && (v.Some? ==> v.value.obj == obj) && st1.slots == st.slots && SameElse(st, st1)
  {
    hide Holders;
    var (st1, v) := Handed(st, obj, oracle);
    AllocBalanced(st, obj, x);
    assert x + multiset{} == x;
    forall r ensures Counted(st1, x + One(v), r) { assert Counted(st, x, r); }
  }

  lemma SlotLive(st: State, s: Slot, x: multiset<Ref>)
    requires Balanced(st, x) && s in st.slots
    ensures st.slots[s] in st.heap
  {
    assert Counted(st, x, st.slots[s]) && s in Holders(st.slots, st.slots[s]);
  }

  /** Nulling a slot releases what it held. */
  lemma ClearBalanced(st: State, s: Slot, x: multiset<Ref>)
    requires Balanced(st, x) && Typed(st)
    ensures Balanced(Clear(st, s), x) && Typed(Clear(st, s))
    ensures Clear(st, s).slots == st.slots - {s}
    ensures Clear(st, s).(slots := st.slots, heap := st.heap) == st
  {
    hide Counted, Holders;
    if s in st.slots {
      var v := st.slots[s];
      SlotLive(st, s, x);
      if s.obj { FreeIsDecrement(st, Some(v)); }
      TakeBalanced(st, s, x);
      DecrementBalanced(Put(st, s, None), v, x);
      assert Clear(st, s) == Decrement(Put(st, s, None), Some(v));
    } else {
      assert st.slots - {s} == st.slots;
      assert Clear(st, s) == st;
    }
  }

  // ----- instructions ------------------------------------------------------------------------

  ghost predicate Sound(st: State) { Balanced(st, One(st.result)) && Typed(st) }

  /** Nothing but the slots, the heap and its allocator has changed. */
  predicate SameElse(st: State, st1: State) {
    st1.result == st.result && st1.trace == st.trace
  }

  predicate SourceFits(src: Source, obj: bool) {
    src.Load? ==> !src.slot.obj && !obj
  }

  /** A value that does not come from a slot. */
  lemma MadeBalanced(st: State, src: Source, obj: bool, oracle: nat, x: multiset<Ref>)
    requires Balanced(st, x) && Typed(st) && !src.Load?
    ensures var (st1, v) := Eval(st, src, obj, oracle);
            && Balanced(st1, x + One(v)) && Typed(st1) && (v.Some? ==> v.value.obj == obj)
            && st1.slots == st.slots && SameElse(st, st1)
  {
    hide Balanced, Typed, Handed;
    AllocBalanced(st, obj, x);
    HandedBalanced(st, obj, oracle, x);
    assert x + multiset{} == x;
  }

  /** A value is computed and, if it comes from a slot, given a reference of its own. */
  lemma AcquireSound(st: State, src: Source, obj: bool, oracle: nat, x: multiset<Ref>)
    requires Balanced(st, x) && Typed(st) && SourceFits(src, obj)
    ensures var (st1, v) := Eval(st, src, obj, oracle);
            var st2 := Retain(st1, src, v);
            && Balanced(st2, x + One(v)) && Typed(st2)
            && (v.Some? ==> v.value.obj == obj)
            && st2.slots == st.slots && SameElse(st, st2)
  {
    hide Counted, Holders, Handed, Alloc;
    if !src.Load? {
      MadeBalanced(st, src, obj, oracle, x);
    } else if src.slot in st.slots {
      SlotKind(st, src.slot);
      RetainBalanced(st, src.slot, x);
    } else {
      assert x + multiset{} == x;
    }
  }

  lemma SlotKind(st: State, s: Slot)
    requires Typed(st) && s in st.slots
    ensures st.slots[s].obj == s.obj
  {}

  /** A value in flight is stored to an empty slot of its kind; null leaves it empty. */
  lemma PutSound(st: State, d: Slot, v: Option<Ref>, x: multiset<Ref>)
    requires Balanced(st, x + One(v)) && Typed(st) && d !in st.slots
    requires v.Some? ==> v.value.obj == d.obj
    ensures Balanced(Put(st, d, v), x) && Typed(Put(st, d, v))
  {
    hide Counted, Holders;
    if v.Some? {
      StoreBalanced(st, d, v.value, x);
    } else {
      assert st.slots - {d} == st.slots && x + multiset{} == x;
      assert Put(st, d, v) == st;
    }
  }

  lemma InitSound(st: State, d: Slot, src: Source, oracle: nat)
    requires Sound(st) && SourceFits(src, d.obj) && d !in st.slots
    ensures var st1 := Initialised(st, d, src, oracle);
            && Sound(st1) && SameElse(st, st1)
            && forall s :: s != d ==> (s in st1.slots <==> s in st.slots)
  {
    hide Balanced, Typed;
    var x := One(st.result);
    AcquireSound(st, src, d.obj, oracle, x);
    var (st1, v) := Eval(st, src, d.obj, oracle);
    PutSound(Retain(st1, src, v), d, v, x);
  }

  lemma KeepSound(st: State, src: Source, oracle: nat)
    requires Sound(st) && SourceFits(src, false) && st.result == None
    ensures var st1 := Kept(st, src, oracle);
            && Sound(st1) && st1.slots == st.slots && st1.trace == st.trace
  {
    hide Counted, Holders;
    AcquireSound(st, src, false, oracle, multiset{});
    var (st1, v) := Eval(st, src, false, oracle);
    assert multiset{} + One(v) == One(v);
    SameCounts(Retain(st1, src, v), Kept(st, src, oracle), One(v));
  }

  lemma SameCounts(st: State, st1: State, x: multiset<Ref>)
    requires Balanced(st, x) && st1.slots == st.slots && st1.heap == st.heap && st1.next == st.next
    requires st1.fault == st.fault
    ensures Balanced(st1, x)
  {
    hide Holders;
    forall r ensures Counted(st1, x, r) { assert Counted(st, x, r); }
  }

  /** Overwriting a slot is nulling it and storing to it. */
  lemma PutTwice(st: State, d: Slot, src: Source, v: Option<Ref>)
    ensures Put(Retain(Put(st, d, None), src, v), d, v) == Put(Retain(st, src, v), d, v)
  {
    match v {
      case None => assert st.slots - {d} - {d} == st.slots - {d};
      case Some(r) => assert (st.slots - {d})[d := r] == st.slots[d := r];
    }
  }

  /** Up to the store: the old value given up, the new one in flight. */
  lemma AssignMiddle(st: State, d: Slot, src: Source, oracle: nat, x: multiset<Ref>)
    requires Balanced(st, x) && Typed(st) && SourceFits(src, d.obj) && !d.obj && src != Load(d)
    ensures var (st1, v) := Eval(st, src, d.obj, oracle);
            var st3 := Retain(Clear(st1, d), src, v);
            && Balanced(st3, x + One(v)) && Typed(st3) && (v.Some? ==> !v.value.obj)
            && st3.slots == st.slots - {d} && SameElse(st, st3)
  {
    hide Balanced, Typed, Clear, Alloc, Handed;
    var (st1, v) := Eval(st, src, d.obj, oracle);
    if src.Load? {
      ClearBalanced(st, d, x);
      AcquireSound(Clear(st, d), src, d.obj, oracle, x);
      assert Eval(Clear(st, d), src, d.obj, oracle).1 == v;
    } else {
      MadeBalanced(st, src, d.obj, oracle, x);
      ClearBalanced(st1, d, x + One(v));
      assert Retain(Clear(st1, d), src, v) == Clear(st1, d);
    }
  }

  /** An assignment other than of a variable to itself. */
  lemma AssignOther(st: State, d: Slot, src: Source, oracle: nat)
    requires Sound(st) && SourceFits(src, d.obj) && !d.obj && src != Load(d)
    ensures var st1 := Assigned(st, d, src, oracle);
            && Sound(st1) && SameElse(st, st1)
            && forall s :: s != d ==> (s in st1.slots <==> s in st.slots)
  {
    hide Balanced, Typed, Retain, Decrement, Eval;
    var x := One(st.result);
    var (st1, v) := Eval(st, src, d.obj, oracle);
    AssignMiddle(st, d, src, oracle, x);
    PutSound(Retain(Clear(st1, d), src, v), d, v, x);
    PutTwice(Decrement(st1, Get(st1, d)), d, src, v);
    assert Clear(st1, d) == Put(Decrement(st1, Get(st1, d)), d, None);
    assert Assigned(st, d, src, oracle) == Put(Retain(Clear(st1, d), src, v), d, v);
  }

  /** x = x: the old value is released before it is retained, so the only reference is lost. */
  lemma AssignSelf(st: State, d: Slot, oracle: nat)
    requires Sound(st) && !d.obj
    ensures var st1 := Assigned(st, d, Load(d), oracle);
            if d in st.slots && st.slots[d] in st.heap
            then
              var n := st.heap[st.slots[d]];
              && (st1.fault <==> n == 1)
              && st1.trace == st.trace + [Self(n)] && st1.result == st.result
              && (n != 1 ==> Sound(st1) && st1.slots == st.slots)
            else st1 == st
  {
    hide Balanced, Typed, Holders;
    assert !st.fault by { Faultless(st); }
    if d in st.slots {
      var v := st.slots[d];
      SlotCount(st, d, One(st.result));
      var n := st.heap[v];
      var st1 := Assigned(st, d, Load(d), oracle);
      assert st.slots[d := v] == st.slots;
      if n != 1 {
        assert st.heap[v := n - 1][v := n] == st.heap;
        assert st1 == Log(st, Self(n));
        SoundLog(st, Self(n));
      }
    } else {
      assert st.slots - {d} == st.slots;
    }
  }

  lemma Faultless(st: State)
    requires Sound(st)
    ensures !st.fault
  {}

  lemma SlotCount(st: State, d: Slot, x: multiset<Ref>)
    requires Balanced(st, x) && d in st.slots
    ensures st.slots[d] in st.heap && st.heap[st.slots[d]] >= 1
  {
    SlotLive(st, d, x);
    assert Counted(st, x, st.slots[d]) && d in Holders(st.slots, st.slots[d]);
  }

  lemma SoundLog(st: State, e: Event)
    requires Sound(st)
    ensures Sound(Log(st, e))
  {
    SameCounts(st, Log(st, e), One(st.result));
  }
}
