/** The dictionary object: an array probed, filled and grown in place. */
module Dict {
  import opened Common
  import opened DictTable

  const INIT_CAP := 16

  function Doubled(n: nat): nat { if n == 0 then INIT_CAP else 2 * Doubled(n - 1) }

  class Dict {
    var entries: array<Entry>
    var len: nat
    var cap: nat
    var tomb: nat                    // tombstones made since the last growth, reused ones included
    ghost var pos: map<Key, nat>
    ghost var grown: nat             // how often the table has grown

    /** The table is sound, whatever its load. */
    ghost predicate Sound()
      reads this, entries
    {
      && entries.Length == cap > 0 && cap == Doubled(grown)
      && Indexed(entries[..], pos) && Chained(entries[..], pos)
      && len == |pos| && Used(entries[..]) <= len + tomb
    }

    ghost predicate Valid()
      reads this, entries
    {
      Sound() && 4 * (len + tomb) <= 3 * cap
    }

    ghost function Contents(): map<Key, Val>
      requires Sound()
      reads this, entries
    {
      Model(entries[..], pos)
    }

    constructor ()
      ensures Valid() && Contents() == map[] && fresh(entries)
    {
      len, cap, tomb, pos, grown := 0, INIT_CAP, 0, map[], 0;
      entries := new Entry[INIT_CAP](_ => Empty);
      new;
      FreshTable(entries[..]);
    }

    /** FNV-1a over the bytes of the key. */
    static method HashStr(key: Key) returns (h: bv64)
      ensures h == Hash(key)
    {
      hide Scramble;
      h := FNV_OFFSET;
      var i := 0;
      while i < |key|
        invariant i <= |key| && HashFrom(h, key[i..]) == Hash(key)
      {
        assert key[i..][0] == key[i] && key[i..][1..] == key[i + 1..];
        h := Scramble(h ^ (key[i] as bv64));
        i := i + 1;
      }
    }

    method NextSlot(i: nat) returns (n: nat)
      requires i < cap
      ensures n == if i + 1 < cap then i + 1 else 0
    {
      n := (i + 1) % cap;
    }

    /** Where a key is; the probe ends because an empty slot always remains. */
    method Find(key: Key) returns (r: Option<nat>)
      requires Sound() && len + tomb < cap
      ensures r == if key in pos then Some(pos[key]) else None
      ensures r.Some? ==> r.value < cap && entries[r.value].Live?
    {
      hide Hash, Home, Used, Chained, Passed, Doubled;
      var h := HashStr(key);
      var idx := Home(h, cap);
      ghost var t, home, j := entries[..], idx, 0;
      ghost var e := SomeEmpty(t);
      PassedNone(t, key, home);
      while !entries[idx].Empty?
        invariant j < cap && idx == Place(home, j, cap) && Passed(t, key, home, j)
        decreases cap - j
      {
        HashFilter(t, pos, idx, key);
        if entries[idx].Live? && entries[idx].hash == h && entries[idx].key == key { return Some(idx); }
        PassOne(t, key, home, j);
        ProbeEnds(t, key, home, j, e);
        idx := NextSlot(idx);
        j := j + 1;
      }
      ProbeMisses(t, pos, key, j);
      r := None;
    }

    /** Insert or overwrite; a new key takes the first tombstone on its way. */
    method InsertRaw(key: Key, h: bv64, val: Val)
      requires Sound() && len + tomb < cap && h == Hash(key)
      modifies `len, `pos, entries
      ensures Sound() && Contents() == old(Contents())[key := val] && len <= old(len) + 1
    {
      hide Hash, Home, Used, Chained, Passed, Doubled, Indexed, Model, HasKey;
      var idx := Home(h, cap);
      var grave: Option<nat> := None;
      ghost var t, home, j, g := entries[..], idx, 0, 0;
      ghost var e := SomeEmpty(t);
      PassedNone(t, key, home);
      while !entries[idx].Empty?
        invariant entries[..] == t && pos == old(pos) && len == old(len) && Sound()
        invariant j < cap && idx == Place(home, j, cap) && Passed(t, key, home, j)
        invariant grave.Some? ==> g < j && grave.value == Place(home, g, cap) && t[grave.value] == Tomb
        decreases cap - j
      {
        HashFilter(t, pos, idx, key);
        if entries[idx].Tomb? {
          if grave.None? { grave, g := Some(idx), j; }
        } else if entries[idx].hash == h && entries[idx].key == key {
          IsThere(t, pos, idx, key);
          Overwrite(idx, key, val);
          return;
        }
        PassOne(t, key, home, j);
        ProbeEnds(t, key, home, j, e);
        idx := NextSlot(idx);
        j := j + 1;
      }
      ProbeMisses(t, pos, key, j);
      if grave.Some? {
        PassedLess(t, key, home, g, j);
        idx, j := grave.value, g;
      }
      Fill(idx, key, h, val, j);
    }

    method Overwrite(idx: nat, key: Key, val: Val)
      requires Sound() && key in pos && pos[key] == idx < cap && entries[idx].Live?
      modifies entries
      ensures Sound() && Contents() == old(Contents())[key := val]
    {
      hide Hash, Home, Used, Chained, Indexed, Model, Doubled;
      ghost var t := entries[..];
      Updated(t, pos, key, val);
      UsedUpdate(t, idx, entries[idx].(val := val));
      entries[idx] := entries[idx].(val := val);
      assert entries[..] == t[idx := t[idx].(val := val)];
    }

    method Fill(idx: nat, key: Key, h: bv64, val: Val, ghost j: nat)
      requires Sound() && key !in pos && h == Hash(key) && j < cap
      requires idx == Place(Home(h, cap), j, cap) && !entries[idx].Live?
      requires Passed(entries[..], key, Home(h, cap), j)
      modifies `len, `pos, entries
      ensures Sound() && Contents() == old(Contents())[key := val] && len == old(len) + 1
    {
      hide Hash, Home, Used, Chained, Indexed, Model, Doubled, Passed;
      ghost var t := entries[..];
      Inserted(t, pos, key, val, j);
      UsedUpdate(t, idx, Live(key, h, val));
      entries[idx] := Live(key, h, val);
      len := len + 1;
      pos := pos[key := idx];
      assert entries[..] == t[idx := Live(key, h, val)];
    }

    /** A table of twice the size with the same contents and no tombstones. */
    method Grow()
      requires Valid()
      modifies this
      ensures Valid() && Contents() == old(Contents()) && fresh(entries)
      ensures tomb == 0 && cap == 2 * old(cap) && 2 * len + 2 <= cap
    {
      hide Hash, Used, Chained, Indexed, Model, Before;
      var was := entries;
      ghost var p := pos;
      MultipleOfFour(grown);
      cap := 2 * cap;
      len, tomb, pos, grown := 0, 0, map[], grown + 1;
      entries := new Entry[cap](_ => Empty);
      FreshTable(entries[..]);
      BeforeAll(was[..], p);
      Refill(was, p);
    }

    method Refill(was: array<Entry>, ghost p: map<Key, nat>)
      requires Sound() && Contents() == map[] && tomb == 0 && entries != was
      requires Indexed(was[..], p) && cap == 2 * was.Length && 4 * |p| <= 3 * was.Length && was.Length >= 16
      modifies `len, `pos, entries
      ensures Sound() && Contents() == Model(was[..], p) && len == |p|
    {
      hide Hash, Used, Chained, Indexed, Model, Before, Doubled;
      ghost var t := was[..];
      BeforeAll(t, p);
      var i := 0;
      while i < was.Length
        invariant i <= was.Length && was[..] == t && Sound() && Contents() == Before(t, p, i)
      {
        BeforeNext(t, p, i);
        BeforeSize(t, p, i);
        ContentsSize(entries[..], pos);
        if was[i].Live? { InsertRaw(was[i].key, was[i].hash, was[i].val); }
        i := i + 1;
      }
      ContentsSize(t, p);
      ContentsSize(entries[..], pos);
    }

    method Set(key: Key, val: Val)
      requires Valid()
      modifies this, entries
      ensures Valid() && Contents() == old(Contents())[key := val]
      ensures fresh(entries) || entries == old(entries)
      ensures if 4 * (old(len) + old(tomb)) >= 3 * old(cap) then cap == 2 * old(cap) && tomb == 0
              else cap == old(cap) && tomb == old(tomb)
    {
      hide Hash, Used, Chained, Indexed, Model, Doubled;
      if (len + tomb) * 4 >= cap * 3 { Grow(); }
      MultipleOfFour(grown);
      RoomForOne(len + tomb, cap);
      var h := HashStr(key);
      InsertRaw(key, h, val);
    }

    /** NULL, here None, when the key is not there. */
    method Get(key: Key) returns (r: Option<Val>)
      requires Valid()
      ensures r == if key in Contents() then Some(Contents()[key]) else None
    {
      var i := Find(key);
      if i.Some? { return Some(entries[i.value].val); }
      return None;
    }

    method Has(key: Key) returns (r: bool)
      requires Valid()
      ensures r <==> key in Contents()
    {
      var i := Find(key);
      return i.Some?;
    }

    method Del(key: Key)
      requires Valid()
      modifies `len, `tomb, `pos, entries
      ensures Valid() && Contents() == old(Contents()) - {key}
      ensures tomb == old(tomb) + (if key in old(Contents()) then 1 else 0)
    {
      hide Hash, Used, Chained, Indexed, Doubled;
      var i := Find(key);
      if i.Some? { Bury(i.value, key); } else { assert Contents() - {key} == Contents(); }
    }

    /** The entry becomes a tombstone. */
    method Bury(idx: nat, key: Key)
      requires Sound() && key in pos && pos[key] == idx < cap && entries[idx].Live?
      modifies `len, `tomb, `pos, entries
      ensures Sound() && Contents() == old(Contents()) - {key}
      ensures tomb == old(tomb) + 1 && len + 1 == old(len)
    {
      hide Hash, Home, Used, Chained, Indexed, Model, Doubled;
      ghost var t := entries[..];
      Deleted(t, pos, key);
      UsedUpdate(t, idx, Tomb);
      RemoveSize(pos, key);
      entries[idx] := Tomb;
      pos := pos - {key};
      len := len - 1;
      tomb := tomb + 1;
      assert entries[..] == t[idx := Tomb];
    }

    method Len() returns (n: nat)
      requires Valid()
      ensures n == |Contents()|
    {
      ContentsSize(entries[..], pos);
      return len;
    }
  }

  lemma DoubleOfFour(d: nat)
    requires d % 4 == 0
    ensures 2 * d % 4 == 0
  {
    var q := d / 4;
    assert d == 4 * q;
    assert 2 * d == 4 * (2 * q);
  }

  lemma {:induction false} MultipleOfFour(n: nat)
    ensures Doubled(n) % 4 == 0 && Doubled(n) >= INIT_CAP
  {
    if n > 0 {
      MultipleOfFour(n - 1);
      DoubleOfFour(Doubled(n - 1));
    }
  }

  /** Below the load limit, a quarter of the table is still free after one more insertion. */
  lemma RoomForOne(used: nat, cap: nat)
    requires cap % 4 == 0 && 4 * used < 3 * cap
    ensures 4 * (used + 1) <= 3 * cap && used < cap
  {}

  lemma IsThere(t: seq<Entry>, pos: map<Key, nat>, i: nat, k: Key)
    requires Indexed(t, pos) && i < |t| && t[i].Live? && t[i].key == k
    ensures k in pos && pos[k] == i
  {}

  lemma PassedNone(t: seq<Entry>, k: Key, home: nat)
    requires home < |t|
    ensures Passed(t, k, home, 0)
  {}

  lemma PassedLess(t: seq<Entry>, k: Key, home: nat, g: nat, j: nat)
    requires home < |t| && g <= j <= |t| && Passed(t, k, home, j)
    ensures Passed(t, k, home, g)
  {}

  lemma ContentsSize(t: seq<Entry>, pos: map<Key, nat>)
    requires Indexed(t, pos)
    ensures |Model(t, pos)| == |pos|
  {
    assert Model(t, pos).Keys == pos.Keys;
    assert |Model(t, pos).Keys| == |Model(t, pos)| && |pos.Keys| == |pos|;
  }

  // ----- growing -----------------------------------------------------------------------------

  /** The contents of the first i slots. */
  function Before(t: seq<Entry>, pos: map<Key, nat>, i: nat): map<Key, Val>
    requires Indexed(t, pos)
  {
    map k | k in pos && pos[k] < i :: t[pos[k]].val
  }

  lemma BeforeNext(t: seq<Entry>, pos: map<Key, nat>, i: nat)
    requires Indexed(t, pos) && i < |t|
    ensures Before(t, pos, i + 1)
            == if t[i].Live? then Before(t, pos, i)[t[i].key := t[i].val] else Before(t, pos, i)
    ensures t[i].Live? ==> t[i].hash == Hash(t[i].key)
  {}

  lemma BeforeAll(t: seq<Entry>, pos: map<Key, nat>)
    requires Indexed(t, pos)
    ensures Before(t, pos, 0) == map[] && Before(t, pos, |t|) == Model(t, pos)
  {}

  lemma BeforeSize(t: seq<Entry>, pos: map<Key, nat>, i: nat)
    requires Indexed(t, pos)
    ensures |Before(t, pos, i)| <= |pos|
  {
    assert Before(t, pos, i).Keys <= pos.Keys;
    SmallerMap(Before(t, pos, i).Keys, pos.Keys);
    assert |Before(t, pos, i).Keys| == |Before(t, pos, i)| && |pos.Keys| == |pos|;
  }

  lemma {:induction false} SmallerMap<T>(a: set<T>, b: set<T>)
    requires a <= b
    ensures |a| <= |b|
    decreases |a|
  {
    if a != {} {
      var x :| x in a;
      SmallerMap(a - {x}, b - {x});
    }
  }

  // ----- any sequence of operations ----------------------------------------------------------

  datatype Op = Set(key: Key, val: Val) | Del(key: Key) | Get(key: Key) | Has(key: Key) | Len

  datatype Reply = Done | Found(r: Option<Val>) | Answer(b: bool) | Size(n: nat)

  /** The operation on a mathematical map. */
  function Apply(m: map<Key, Val>, op: Op): (map<Key, Val>, Reply) {
    match op
    case Set(k, v) => (m[k := v], Done)
    case Del(k) => (m - {k}, Done)
    case Get(k) => (m, Found(if k in m then Some(m[k]) else None))
    case Has(k) => (m, Answer(k in m))
    case Len => (m, Size(|m|))
  }

  function Replies(m: map<Key, Val>, ops: seq<Op>): (r: seq<Reply>)
    ensures |r| == |ops|
    decreases |ops|
  {
    if ops == [] then [] else var (m1, x) := Apply(m, ops[0]); [x] + Replies(m1, ops[1..])
  }

  method StepOn(d: Dict, op: Op) returns (x: Reply)
    requires d.Valid()
    modifies d, d.entries
    ensures d.Valid() && (d.Contents(), x) == Apply(old(d.Contents()), op)
    ensures fresh(d.entries) || d.entries == old(d.entries)
  {
    match op {
      case Set(k, v) => d.Set(k, v); return Done;
      case Del(k) => d.Del(k); return Done;
      case Get(k) => var r := d.Get(k); return Found(r);
      case Has(k) => var b := d.Has(k); return Answer(b);
      case Len => var n := d.Len(); return Size(n);
    }
  }

  /** A new dictionary answers every sequence of operations as a map does. */
  method RunOps(ops: seq<Op>) returns (replies: seq<Reply>)
    ensures replies == Replies(map[], ops)
  {
    var d := new Dict();
    replies := [];
    var i := 0;
    while i < |ops|
      invariant i <= |ops| && d.Valid() && fresh(d) && fresh(d.entries)
      invariant replies + Replies(d.Contents(), ops[i..]) == Replies(map[], ops)
    {
      assert ops[i..][0] == ops[i] && ops[i..][1..] == ops[i + 1..];
      var x := StepOn(d, ops[i]);
      replies := replies + [x];
      i := i + 1;
    }
  }
}
