/** The machine that runs the emitted code: slots, the heap with its reference counts, and a record
    of what is registered, held and cleaned up.  An oracle gives one value to each step; it decides
    branches, rounds and calls, and when it runs out the run is cut off there. */
module CleanupRun {
  import opened Common
  import opened Cleanup

  datatype Ref = Ref(n: nat, obj: bool)

  datatype Event =
    | Registered(e: Entry)
    | Filled(e: Entry)               // the variable of e has come to hold something
    | Emptied(e: Entry)              // it holds nothing any more: delete, or null assigned
    | Ran(e: Entry)                  // a cleanup had an effect: the null guards let it through
    | Left(around: seq<Entry>)       // a break or continue, with these entries around its loop
    | Self(count: nat)               // x = x for a list with that count

  /** A slot that is not in the map holds null.  fault: something freed was touched. */
  datatype State = State(slots: map<Slot, Ref>, heap: map<Ref, nat>, next: nat, result: Option<Ref>,
                         fault: bool, trace: seq<Event>)

  datatype Outcome = Normal | Exited | Continued | Returned | Stopped | Faulted

  function Log(st: State, e: Event): State { st.(trace := st.trace + [e]) }

  /** A new list or object, with count one. */
  function Alloc(st: State, obj: bool): (State, Option<Ref>) {
    var r := Ref(st.next, obj);
    (st.(heap := st.heap[r := 1], next := st.next + 1), Some(r))
  }

  /** What a call hands over: null, a list that is alive with one more reference, or a new one. */
  function Handed(st: State, obj: bool, oracle: nat): (State, Option<Ref>) {
    if oracle == 0 then (st, None)
    else
      var r := Ref(oracle - 1, obj);
      if !obj && r in st.heap then (st.(heap := st.heap[r := st.heap[r] + 1]), Some(r))
      else Alloc(st, obj)
  }

  function Eval(st: State, src: Source, obj: bool, oracle: nat): (State, Option<Ref>) {
    match src
    case Fresh => Alloc(st, obj)
    case CallResult => Handed(st, obj, oracle)
    case Load(s) => (st, if s in st.slots then Some(st.slots[s]) else None)
    case NoValue => (st, None)
  }

  /** Only a loaded value needs a reference of its own; what a call returns has one. */
  function Retain(st: State, src: Source, v: Option<Ref>): State {
    if !src.Load? || v.None? then st
    else if v.value !in st.heap then st.(fault := true)
    else st.(heap := st.heap[v.value := st.heap[v.value] + 1])
  }

  function Decrement(st: State, v: Option<Ref>): State {
    if v.None? then st
    else if v.value !in st.heap then st.(fault := true)
    else if st.heap[v.value] <= 1 then st.(heap := st.heap - {v.value})
    else st.(heap := st.heap[v.value := st.heap[v.value] - 1])
  }

  /** Destructor and free, whatever the count. */
  function Free(st: State, v: Option<Ref>): State {
    if v.None? then st
    else if v.value !in st.heap then st.(fault := true)
    else st.(heap := st.heap - {v.value})
  }

  function Get(st: State, s: Slot): Option<Ref> {
    if s in st.slots then Some(st.slots[s]) else None
  }

  function Put(st: State, s: Slot, v: Option<Ref>): State {
    st.(slots := match v case Some(r) => st.slots[s := r] case None => st.slots - {s})
  }

  /** Release or destroy what the slot holds, and set it to null. */
  function Clear(st: State, s: Slot): State {
    Put(if s.obj then Free(st, Get(st, s)) else Decrement(st, Get(st, s)), s, None)
  }

  /** Records whether the slot has come to hold something, or nothing, since st. */
  function Noted(st: State, st1: State, s: Slot): State {
    if s in st1.slots && s !in st.slots then Log(st1, Filled(EntryOf(s)))
    else if s in st.slots && s !in st1.slots then Log(st1, Emptied(EntryOf(s)))
    else st1
  }

  /** Assignment: the new value is computed, the old one released, then the new one retained. */
  function Assigned(st: State, d: Slot, src: Source, oracle: nat): State {
    var st0 :=
      if src == Load(d) && d in st.slots && st.slots[d] in st.heap
      then Log(st, Self(st.heap[st.slots[d]])) else st;
    var (st1, v) := Eval(st0, src, d.obj, oracle);
    var st2 := Decrement(st1, Get(st1, d));
    Put(Retain(st2, src, v), d, v)
  }

  function Initialised(st: State, d: Slot, src: Source, oracle: nat): State {
    var (st1, v) := Eval(st, src, d.obj, oracle);
    Put(Retain(st1, src, v), d, v)
  }

  function Kept(st: State, src: Source, oracle: nat): State {
    var (st1, v) := Eval(st, src, false, oracle);
    Retain(st1, src, v).(result := v)
  }

  /** A deferred body always runs; a release or destructor only when the slot holds something. */
  function Cleaned(st: State, e: Entry): State {
    match e
    case Deferred(_, _) => Log(st, Ran(e))
    case _ => if e.slot in st.slots then Log(Clear(st, e.slot), Ran(e)) else st
  }

  function Noticed(st: State, e: Entry): State {
    var st1 := Log(st, Registered(e));
    if !e.Deferred? && e.slot in st.slots then Log(st1, Filled(e)) else st1
  }

  /** An instruction that does not branch; the oracle says what a call hands over. */
  function Do(i: Instr, st: State, oracle: nat): State {
    match i
    case Init(d, src) => Initialised(st, d, src, oracle)
    case Replace(d, src) => Noted(st, Assigned(st, d, src, oracle), d)
    case Drop(s) => Noted(st, Clear(st, s), s)
    case Note(e) => Noticed(st, e)
    case Clean(e) => Cleaned(st, e)
    case SetResult(src) => Kept(st, src, oracle)
    case Exit(around) => Log(st, Left(around))
    case Next(around) => Log(st, Left(around))
    case _ => st
  }

  function After(i: Instr): Outcome {
    match i
    case Exit(_) => Exited
    case Next(_) => Continued
    case Ret => Returned
    case _ => Normal
  }

  datatype Run = Run(o: Outcome, st: State, oracle: seq<nat>)

  function ExecInstr(i: Instr, st: State, oracle: seq<nat>): (r: Run)
    ensures |r.oracle| <= |oracle|
    decreases |oracle|, i, 0
  {
    match i
    case Choice(t, f) =>
      if oracle == [] then Run(Stopped, st, [])
      else Exec(if oracle[0] != 0 then t else f, st, oracle[1..])
    case Repeat(body) =>
      if oracle == [] then Run(Stopped, st, [])
      else if oracle[0] == 0 then Run(Normal, st, oracle[1..])
      else
        var r := Exec(body, st, oracle[1..]);
        if r.o == Exited then r.(o := Normal)
        else if r.o == Normal || r.o == Continued then ExecInstr(i, r.st, r.oracle)
        else r
    case _ =>
      if oracle == [] then Run(Stopped, st, [])
      else
        var st1 := Do(i, st, oracle[0]);
        Run(if st1.fault then Faulted else After(i), st1, oracle[1..])
  }

  function Exec(code: seq<Instr>, st: State, oracle: seq<nat>): (r: Run)
    ensures |r.oracle| <= |oracle|
    decreases |oracle|, code, 1
  {
    if code == [] then Run(Normal, st, oracle)
    else
      var r := ExecInstr(code[0], st, oracle);
      if r.o == Normal then Exec(code[1..], r.st, r.oracle) else r
  }

  lemma {:induction false} ExecAppend(a: seq<Instr>, b: seq<Instr>, st: State, oracle: seq<nat>)
    ensures var r := Exec(a, st, oracle);
            Exec(a + b, st, oracle) == if r.o == Normal then Exec(b, r.st, r.oracle) else r
    decreases a
  {
    if a == [] {
      assert a + b == b;
    } else {
      assert (a + b)[1..] == a[1..] + b && (a + b)[0] == a[0];
      var r := ExecInstr(a[0], st, oracle);
      if r.o == Normal { ExecAppend(a[1..], b, r.st, r.oracle); }
    }
  }

  const EMPTY := State(map[], map[], 0, None, false, [])

  /** A run of a whole function. */
  function CallOf(body: seq<Stmt>, oracle: seq<nat>): Run {
    Exec(GenFunction(body), EMPTY, oracle)
  }

  // ----- reading a trace ---------------------------------------------------------------------

  /** What waits for its cleanup: deferred bodies that are registered and have not run, and variables
      that hold something. */
  function Pending(t: seq<Event>): set<Entry> {
    if t == [] then {} else Waits(Pending(t[..|t| - 1]), t[|t| - 1])
  }

  function Waits(p: set<Entry>, x: Event): set<Entry> {
    match x
    case Registered(e) => if e.Deferred? then p + {e} else p
    case Filled(e) => p + {e}
    case Emptied(e) => p - {e}
    case Ran(e) => p - {e}
    case _ => p
  }

  /** When e was last registered; 0 when it was not. */
  function Since(t: seq<Event>, e: Entry): nat {
    if t == [] then 0
    else if t[|t| - 1] == Registered(e) then |t|
    else Since(t[..|t| - 1], e)
  }

  /** Everything else that waits was registered before e. */
  predicate Latest(t: seq<Event>, e: Entry) {
    forall x :: x in Pending(t) && x != e ==> Since(t, x) < Since(t, e)
  }

  /** Cleanups take effect in reverse order of registration: always the latest one that waits. */
  predicate InReverse(t: seq<Event>) {
    forall i :: 0 <= i < |t| && t[i].Ran? ==> Latest(t[..i], t[i].e)
  }

  /** No release and no destructor takes effect without something to clean up. */
  predicate SlotsOnce(t: seq<Event>) {
    forall i :: 0 <= i < |t| && t[i].Ran? && !t[i].e.Deferred? ==> t[i].e in Pending(t[..i])
  }

  /** Nor does a deferred body run without having been registered anew. */
  predicate Once(t: seq<Event>) {
    forall i :: 0 <= i < |t| && t[i].Ran? ==> t[i].e in Pending(t[..i])
  }

  predicate HasDefer(es: seq<Entry>) { exists i :: 0 <= i < |es| && es[i].Deferred? }

  /** No break or continue was taken with a deferred body registered around its loop. */
  predicate DefersClear(t: seq<Event>) {
    forall i :: 0 <= i < |t| && t[i].Left? ==> !HasDefer(t[i].around)
  }

  /** How often a break or continue was taken with e registered around its loop. */
  function Crossings(t: seq<Event>, e: Entry): nat {
    if t == [] then 0
    else Crossings(t[..|t| - 1], e) + (if t[|t| - 1].Left? then multiset(t[|t| - 1].around)[e] else 0)
  }
}
