/** The table of the dictionary as a value: probe chains and counting. */
module DictTable {

  type Val = int

  /** A C string, without its terminator. */
  type Key = seq<bv8>

  const FNV_OFFSET: bv64 := 14695981039346656037
  const FNV_PRIME: bv64 := 1099511628211

  function Scramble(h: bv64): bv64 { h * FNV_PRIME }

  function Mix(h: bv64, b: bv8): bv64 { Scramble(h ^ (b as bv64)) }

  function HashFrom(h: bv64, key: Key): bv64
    decreases |key|
  {
    if key == [] then h else HashFrom(Mix(h, key[0]), key[1..])
  }

  function Hash(key: Key): bv64 { HashFrom(FNV_OFFSET, key) }

  datatype Entry = Empty | Tomb | Live(key: Key, hash: bv64, val: Val)

  /** Where a probe for a hash starts.  The capacity is a power of two, so that masking with cap - 1 is
      taking the remainder. */
  function Home(h: bv64, cap: nat): (i: nat)
    requires cap > 0
    ensures i < cap
  {
    Remainder(h as nat, cap)
  }

  function Remainder(n: nat, cap: nat): (i: nat)
    requires cap > 0
    ensures i < cap
  {
    n % cap
  }

  /** The slot j steps after home, going around. */
  function Place(home: nat, j: nat, cap: nat): (i: nat)
    requires home < cap && j < cap
    ensures i < cap
  {
    if home + j < cap then home + j else home + j - cap
  }

  /** How many steps after home a slot is. */
  function Steps(home: nat, i: nat, cap: nat): (j: nat)
    requires home < cap && i < cap
    ensures j < cap && Place(home, j, cap) == i
  {
    if i >= home then i - home else i + cap - home
  }

  lemma StepsOfPlace(home: nat, j: nat, cap: nat)
    requires home < cap && j < cap
    ensures Steps(home, Place(home, j, cap), cap) == j
  {}

  // ----- the invariant -----------------------------------------------------------------------

  /** pos says where each live key is. */
  predicate Indexed(t: seq<Entry>, pos: map<Key, nat>) {
    && (forall k :: k in pos ==> pos[k] < |t| && t[pos[k]].Live? && t[pos[k]].key == k)
    && (forall i :: 0 <= i < |t| && t[i].Live? ==>
          t[i].key in pos && pos[t[i].key] == i && t[i].hash == Hash(t[i].key))
  }

  predicate Filled(t: seq<Entry>, home: nat, j: nat)
    requires home < |t| && j < |t|
  {
    t[Place(home, j, |t|)] != Empty
  }

  /** No empty slot lies between a key's home and where it is. */
  predicate Chained(t: seq<Entry>, pos: map<Key, nat>)
    requires |t| > 0 && Indexed(t, pos)
  {
    forall k, j :: k in pos && 0 <= j < Steps(Home(Hash(k), |t|), pos[k], |t|) ==>
      Filled(t, Home(Hash(k), |t|), j)
  }

  /** Slots that are not empty. */
  function Used(t: seq<Entry>): (n: nat)
    ensures n <= |t|
  {
    if t == [] then 0 else Used(t[..|t| - 1]) + (if t[|t| - 1] == Empty then 0 else 1)
  }

  /** The contents. */
  function Model(t: seq<Entry>, pos: map<Key, nat>): map<Key, Val>
    requires Indexed(t, pos)
  {
    map k | k in pos :: t[pos[k]].val
  }

  // ----- counting ----------------------------------------------------------------------------

  lemma {:induction false} UsedUpdate(t: seq<Entry>, i: nat, e: Entry)
    requires i < |t|
    ensures Used(t[i := e])
            == Used(t) - (if t[i] == Empty then 0 else 1) + (if e == Empty then 0 else 1)
    decreases |t|
  {
    var n := |t| - 1;
    if i == n {
      assert t[i := e][..n] == t[..n];
    } else {
      assert t[i := e][..n] == t[..n][i := e];
      UsedUpdate(t[..n], i, e);
    }
  }

  /** A table that is not full has an empty slot. */
  lemma {:induction false} SomeEmpty(t: seq<Entry>) returns (i: nat)
    requires Used(t) < |t|
    ensures i < |t| && t[i] == Empty
    decreases |t|
  {
    i := |t| - 1;
    if t[i] != Empty { i := SomeEmpty(t[..i]); }
  }

  lemma {:induction false} UsedEmpty(t: seq<Entry>)
    requires forall i :: 0 <= i < |t| ==> t[i] == Empty
    ensures Used(t) == 0
  {
    if t != [] { UsedEmpty(t[..|t| - 1]); }
  }

  // ----- probing -----------------------------------------------------------------------------

  /** A probe for k has gone past the first j slots: all in use, none with k. */
  predicate Passed(t: seq<Entry>, k: Key, home: nat, j: nat)
    requires home < |t| && j <= |t|
  {
    forall i :: 0 <= i < j ==> Filled(t, home, i) && !HasKey(t[Place(home, i, |t|)], k)
  }

  predicate HasKey(e: Entry, k: Key) { e.Live? && e.key == k }

  /** What the program compares: the cached hash first, then the key. */
  lemma HashFilter(t: seq<Entry>, pos: map<Key, nat>, i: nat, k: Key)
    requires Indexed(t, pos) && i < |t|
    ensures (t[i].Live? && t[i].hash == Hash(k) && t[i].key == k) <==> HasKey(t[i], k)
  {}

  /** A probe cannot go all the way around. */
  lemma ProbeEnds(t: seq<Entry>, k: Key, home: nat, j: nat, e: nat)
    requires home < |t| && j < |t| && Passed(t, k, home, j + 1)
    requires e < |t| && t[e] == Empty
    ensures j + 1 < |t|
  {
    assert !Filled(t, home, Steps(home, e, |t|));
  }

  lemma PassOne(t: seq<Entry>, k: Key, home: nat, j: nat)
    requires home < |t| && j < |t| && Passed(t, k, home, j)
    requires t[Place(home, j, |t|)] != Empty && !HasKey(t[Place(home, j, |t|)], k)
    ensures Passed(t, k, home, j + 1)
  {}

  /** A probe for a key that is there is not stopped before it. */
  lemma ProbeGoesOn(t: seq<Entry>, pos: map<Key, nat>, k: Key, j: nat)
    requires |t| > 0 && Indexed(t, pos) && Chained(t, pos) && j < |t| && k in pos
    requires Passed(t, k, Home(Hash(k), |t|), j)
    ensures t[Place(Home(Hash(k), |t|), j, |t|)] != Empty
  {
    hide Home, Hash;
    var home := Home(Hash(k), |t|);
    var s := Steps(home, pos[k], |t|);
    assert Filled(t, home, s) && HasKey(t[Place(home, s, |t|)], k);
    assert j < s ==> Filled(t, home, j);
  }

  /** A probe that meets an empty slot has shown that the key is not there. */
  lemma ProbeMisses(t: seq<Entry>, pos: map<Key, nat>, k: Key, j: nat)
    requires |t| > 0 && Indexed(t, pos) && Chained(t, pos) && j < |t|
    requires var home := Home(Hash(k), |t|); Passed(t, k, home, j) && t[Place(home, j, |t|)] == Empty
    ensures k !in pos
  {
    hide Home, Hash, Indexed, Chained, Passed;
    if k in pos { ProbeGoesOn(t, pos, k, j); }
  }

  /** A new table. */
  lemma FreshTable(t: seq<Entry>)
    requires |t| > 0 && forall i :: 0 <= i < |t| ==> t[i] == Empty
    ensures Indexed(t, map[]) && Chained(t, map[]) && Model(t, map[]) == map[] && Used(t) == 0
  {
    UsedEmpty(t);
  }

  // ----- updates -----------------------------------------------------------------------------

  /** A new key goes to a slot that holds no live entry, behind a probe that found nothing. */
  lemma Inserted(t: seq<Entry>, pos: map<Key, nat>, k: Key, v: Val, j: nat)
    requires |t| > 0 && Indexed(t, pos) && Chained(t, pos) && k !in pos && j < |t|
    requires var home := Home(Hash(k), |t|);
             Passed(t, k, home, j) && !t[Place(home, j, |t|)].Live?
    ensures var i := Place(Home(Hash(k), |t|), j, |t|);
            var (t1, pos1) := (t[i := Live(k, Hash(k), v)], pos[k := i]);
            && Indexed(t1, pos1) && Chained(t1, pos1)
            && Model(t1, pos1) == Model(t, pos)[k := v]
  {
    hide Home, Hash;
    var home := Home(Hash(k), |t|);
    var i := Place(home, j, |t|);
    var (t1, pos1) := (t[i := Live(k, Hash(k), v)], pos[k := i]);
    StepsOfPlace(home, j, |t|);
    forall k', j' | k' in pos1 && 0 <= j' < Steps(Home(Hash(k'), |t|), pos1[k'], |t|)
      ensures Filled(t1, Home(Hash(k'), |t|), j')
    {
      assert Filled(t, Home(Hash(k'), |t|), j');
    }
  }

  /** The value of a key that is there. */
  lemma Updated(t: seq<Entry>, pos: map<Key, nat>, k: Key, v: Val)
    requires |t| > 0 && Indexed(t, pos) && Chained(t, pos) && k in pos
    ensures var t1 := t[pos[k] := t[pos[k]].(val := v)];
            Indexed(t1, pos) && Chained(t1, pos) && Model(t1, pos) == Model(t, pos)[k := v]
  {
    hide Home, Hash;
    var t1 := t[pos[k] := t[pos[k]].(val := v)];
    forall k', j' | k' in pos && 0 <= j' < Steps(Home(Hash(k'), |t|), pos[k'], |t|)
      ensures Filled(t1, Home(Hash(k'), |t|), j')
    {
      assert Filled(t, Home(Hash(k'), |t|), j');
    }
  }

  /** A tombstone keeps the chains of the other keys. */
  lemma Deleted(t: seq<Entry>, pos: map<Key, nat>, k: Key)
    requires |t| > 0 && Indexed(t, pos) && Chained(t, pos) && k in pos
    ensures var (t1, pos1) := (t[pos[k] := Tomb], pos - {k});
            && Indexed(t1, pos1) && Chained(t1, pos1)
            && Model(t1, pos1) == Model(t, pos) - {k}
  {
    hide Home, Hash;
    var (t1, pos1) := (t[pos[k] := Tomb], pos - {k});
    forall i | 0 <= i < |t1| && t1[i].Live?
      ensures t1[i].key in pos1 && pos1[t1[i].key] == i && t1[i].hash == Hash(t1[i].key)
    {
      assert t1[i] == t[i];
    }
    assert Indexed(t1, pos1);
    forall k', j' | k' in pos1 && 0 <= j' < Steps(Home(Hash(k'), |t|), pos1[k'], |t|)
      ensures Filled(t1, Home(Hash(k'), |t|), j')
    {
      assert Filled(t, Home(Hash(k'), |t|), j');
    }
  }

  lemma RemoveSize(pos: map<Key, nat>, k: Key)
    requires k in pos
    ensures |pos - {k}| == |pos| - 1
  {
    assert pos == (pos - {k})[k := pos[k]];
  }
}
