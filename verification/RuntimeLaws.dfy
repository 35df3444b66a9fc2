/** The runtime's hash, list indices, channel and pool, with their answers named outright. */
module RuntimeLaws {
  import opened Common
  import C = Channel
  import D = DictTable
  import L = List
  import P = Pool

  // ----- FNV-1a ------------------------------------------------------------------------------

  /** One more byte is mixed into the hash of those before it. */
  lemma {:induction false} HashOfLonger(key: D.Key, b: bv8)
    ensures D.Hash(key + [b]) == D.Mix(D.Hash(key), b)
  {
    hide D.Mix, D.HashFrom;
    HashFromLonger(D.FNV_OFFSET, key, b);
  }

  lemma {:induction false} HashFromLonger(h: bv64, key: D.Key, b: bv8)
    ensures D.HashFrom(h, key + [b]) == D.Mix(D.HashFrom(h, key), b)
    decreases |key|
  {
    hide D.Mix;
    if key == [] {
      assert (key + [b])[1..] == [];
    } else {
      assert (key + [b])[1..] == key[1..] + [b];
      HashFromLonger(D.Mix(h, key[0]), key[1..], b);
    }
  }

  /** The prime is 2^40 + 2^8 + 0xB3, and "", "a" and "ab" have the published values. */
  lemma KnownHashes()
    ensures D.FNV_PRIME == 0x100_0000_01B3
    ensures D.Hash([]) == 0xCBF2_9CE4_8422_2325
    ensures D.Hash([0x61]) == 0xAF63_DC4C_8601_EC8C
    ensures D.Hash([0x61, 0x62]) == 0x089C_4407_B545_986A
  {
    FirstHashes();
    hide D.Mix, D.HashFrom;
    var none: D.Key, a: D.Key, ab: D.Key := [], [0x61], [0x61, 0x62];
    assert none + [0x61] == a && a + [0x62] == ab;
    HashOfLonger(none, 0x61);
    HashOfLonger(a, 0x62);
  }

  lemma FirstHashes()
    ensures D.Hash([]) == 0xCBF2_9CE4_8422_2325
    ensures D.Mix(0xCBF2_9CE4_8422_2325, 0x61) == 0xAF63_DC4C_8601_EC8C
    ensures D.Mix(0xAF63_DC4C_8601_EC8C, 0x62) == 0x089C_4407_B545_986A
  {}

  // ----- list indices ------------------------------------------------------------------------

  /** An index from 0 on counts from the front, a negative one from the end: -1 is the last element.
      Anything else is an error. */
  lemma IndexMeans<T>(s: seq<T>, i: int)
    ensures 0 <= i < |s| ==> L.Got(s, i) == L.Ok(s[i])
    ensures 0 < -i <= |s| ==> L.Got(s, i) == L.Ok(s[|s| + i])
    ensures i >= |s| || -i > |s| ==> L.Got(s, i) == L.IndexError(i, |s|)
  {}

  /** What is put at an index is read back there, and any other element is as it was. */
  lemma PutIsRead<T>(s: seq<T>, i: int, v: T, k: int)
    requires L.Got(s, i).Ok? && 0 <= k < |s|
    ensures |L.Put(s, i, v)| == |s| && L.Got(L.Put(s, i, v), i) == L.Ok(v)
    ensures k != i && k != |s| + i ==> L.Put(s, i, v)[k] == s[k]
  {}

  // ----- channels ----------------------------------------------------------------------------

  /** A send that has the mutex of an open channel with room leaves the call with its value accepted,
      whomever it may signal. */
  lemma SendsWithRoom(s: C.Sys, t: C.Tid, w: C.Tid)
    requires t in s.threads && s.threads[t].role == C.Sender && s.threads[t].mode != C.Asleep
    requires !s.chan.closed && (s.chan.cap <= 0 || |s.chan.items| < s.chan.cap)
    requires C.CanSignal(s.threads - {t}, C.Receiver, w)
    ensures C.Step(s, C.Pass(t, w)).Some?
    ensures var s1, v := C.Step(s, C.Pass(t, w)).value, s.threads[t].v;
      s1.accepted == s.accepted + [v] && s1.chan.items == s.chan.items + [v] && t !in s1.threads
  {}

  /** A receive that has the mutex of a channel with items leaves the call with the first one. */
  lemma ReceivesFirst(s: C.Sys, t: C.Tid, w: C.Tid)
    requires t in s.threads && s.threads[t].role == C.Receiver && s.threads[t].mode != C.Asleep
    requires s.chan.items != [] && C.CanSignal(s.threads - {t}, C.Sender, w)
    ensures C.Step(s, C.Pass(t, w)).Some?
    ensures var s1 := C.Step(s, C.Pass(t, w)).value;
      s1.delivered == s.delivered + [s.chan.items[0]] && s1.chan.items == s.chan.items[1..] && t !in s1.threads
  {}

  /** Without room, or without items, a call on an open channel sleeps, and one on a closed channel ends
      with nothing sent or received. */
  lemma WaitsOrEnds(s: C.Sys, t: C.Tid, w: C.Tid)
    requires t in s.threads && s.threads[t].mode != C.Asleep
    requires if s.threads[t].role == C.Sender then s.chan.closed || (s.chan.cap > 0 && |s.chan.items| >= s.chan.cap)
             else s.chan.items == []
    ensures C.Step(s, C.Pass(t, w)).Some?
    ensures var s1 := C.Step(s, C.Pass(t, w)).value;
      && s1.chan == s.chan && s1.accepted == s.accepted && s1.delivered == s.delivered
      && (if s.chan.closed then t !in s1.threads else t in s1.threads && s1.threads[t].mode == C.Asleep)
  {}

  // ----- the pool ----------------------------------------------------------------------------

  /** A worker that has the mutex starts the first task; with none, it sleeps or, after a shutdown,
      exits. */
  lemma WorkersTakeTheFirst(s: P.Sys, w: P.Tid)
    requires w in s.workers && s.workers[w].mode in {P.AtTop, P.Signalled, P.Woken}
    ensures P.Step(s, P.Pass(w)).Some?
    ensures var s1, q := P.Step(s, P.Pass(w)).value, s.p.queue;
      if q != [] then s1.started == s.started + [q[0]] && s1.p.queue == q[1..] && s1.workers[w].mode == P.Running
      else s1.started == s.started && s1.workers[w].mode == if s.p.shutdown then P.Exited else P.Asleep
  {}

  /** A pool of n workers has n, and four when n is not positive. */
  lemma PoolSize(n: int)
    ensures |P.Start(n).workers| == if n <= 0 then 4 else n
    ensures forall w :: w in P.Start(n).workers ==> P.Start(n).workers[w].mode == P.AtTop
  {
    FreshSize(if n <= 0 then 4 else n);
  }

  lemma {:induction false} FreshSize(n: nat)
    ensures |P.Fresh(n)| == n
    ensures forall w :: w in P.Fresh(n) ==> w < n && P.Fresh(n)[w].mode == P.AtTop
    decreases n
  {
    if n > 0 {
      FreshSize(n - 1);
      assert n - 1 !in P.Fresh(n - 1);
      MoreKeys(P.Fresh(n - 1), n - 1, P.Worker(P.AtTop, 0));
    }
  }

  lemma MoreKeys(m: map<P.Tid, P.Worker>, k: P.Tid, v: P.Worker)
    requires k !in m
    ensures |m[k := v]| == |m| + 1
  {
    assert m[k := v].Keys == m.Keys + {k};
    assert |m[k := v].Keys| == |m.Keys| + 1;
  }
}
