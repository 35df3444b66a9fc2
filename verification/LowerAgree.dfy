/** When the stack slots of the running code agree with the variables of the source program, and what keeps
    them in agreement. */
module LowerAgree {
  import opened Common
  import opened ScalarSource
  import opened Ir

  predicate LevelAgrees(e: map<string, nat>, l: map<string, int>, slots: map<nat, int>) {
    e.Keys == l.Keys && forall x :: x in e ==> Get(slots, e[x]) == l[x]
  }

  /** Scope by scope, the environment's slots hold the store's values. */
  predicate Agree(env: Scopes<nat>, s: Store, slots: map<nat, int>) {
    |env| == |s| && forall i :: 0 <= i < |env| ==> LevelAgrees(env[i], s[i], slots)
  }

  /** No two variables share a slot. */
  predicate Distinct(env: Scopes<nat>) {
    forall i, j, x, y ::
      0 <= i < |env| && 0 <= j < |env| && x in env[i] && y in env[j] && env[i][x] == env[j][y]
      ==> i == j && x == y
  }

  predicate Below(env: Scopes<nat>, n: nat) {
    forall i, x :: 0 <= i < |env| && x in env[i] ==> env[i][x] < n
  }

  predicate EnvOk(env: Scopes<nat>, nextSlot: nat) {
    |env| > 0 && Distinct(env) && Below(env, nextSlot)
  }

  predicate Covers<V>(env: Scopes<V>, names: set<string>) {
    forall x :: x in names ==> Level(env, x) > 0
  }

  lemma {:induction false} LevelsAgree(env: Scopes<nat>, s: Store, slots: map<nat, int>, x: string)
    requires Agree(env, s, slots)
    ensures Level(env, x) == Level(s, x)
  {
    if |env| > 0 {
      assert LevelAgrees(env[|env| - 1], s[|env| - 1], slots);
      PopAgrees(env, s, slots);
      LevelsAgree(env[..|env| - 1], s[..|env| - 1], slots, x);
    }
  }

  lemma PopAgrees(env: Scopes<nat>, s: Store, slots: map<nat, int>)
    requires Agree(env, s, slots)
    ensures Agree(Pop(env), Pop(s), slots)
  {
    forall i | 0 <= i < |Pop(env)| ensures LevelAgrees(Pop(env)[i], Pop(s)[i], slots) {
      assert LevelAgrees(env[i], s[i], slots);
    }
  }

  lemma ReadAgrees(env: Scopes<nat>, s: Store, slots: map<nat, int>, x: string)
    requires Agree(env, s, slots) && Level(env, x) > 0
    ensures Find(env, x).Some? && Get(slots, Find(env, x).value) == Read(s, x)
  {
    LevelsAgree(env, s, slots, x);
    var n := Level(env, x) - 1;
    assert LevelAgrees(env[n], s[n], slots);
  }

  lemma WriteAgrees(env: Scopes<nat>, s: Store, slots: map<nat, int>, x: string, v: int)
    requires Agree(env, s, slots) && Distinct(env) && Level(env, x) > 0
    ensures Agree(env, Write(s, x, v), slots[Find(env, x).value := v])
  {
    LevelsAgree(env, s, slots, x);
    var n := Level(env, x) - 1;
    var slot := env[n][x];
    assert Find(env, x) == Some(slot);
    var s1, slots1 := Write(s, x, v), slots[slot := v];
    hide Level, Find;
    forall i | 0 <= i < |env| ensures LevelAgrees(env[i], s1[i], slots1) {
      assert LevelAgrees(env[i], s[i], slots);
      forall y | y in env[i] ensures Get(slots1, env[i][y]) == s1[i][y] {
        if i != n || y != x { assert env[i][y] != env[n][x]; }
      }
    }
  }

  lemma DefineAgrees(env: Scopes<nat>, s: Store, slots: map<nat, int>, x: string, v: int, n: nat)
    requires Agree(env, s, slots) && EnvOk(env, n)
    ensures Agree(Define(env, x, n), Define(s, x, v), slots[n := v])
  {
    var e1, s1, slots1 := Define(env, x, n), Define(s, x, v), slots[n := v];
    forall i | 0 <= i < |e1| ensures LevelAgrees(e1[i], s1[i], slots1) {
      assert LevelAgrees(env[i], s[i], slots);
      forall y | y in e1[i] ensures Get(slots1, e1[i][y]) == s1[i][y] {
        if i == |env| - 1 && y == x {} else { assert env[i][y] < n; }
      }
    }
  }

  lemma DefineOk(env: Scopes<nat>, x: string, n: nat)
    requires EnvOk(env, n)
    ensures EnvOk(Define(env, x, n), n + 1)
  {
    var e1 := Define(env, x, n);
    forall i, y | 0 <= i < |e1| && y in e1[i]
      ensures e1[i][y] < n + 1
      ensures e1[i][y] == n ==> i == |env| - 1 && y == x
      ensures e1[i][y] != n ==> y in env[i] && e1[i][y] == env[i][y]
    {
      if i == |env| - 1 && y == x {} else { assert y in env[i] && env[i][y] < n; }
    }
  }

  lemma PushAgrees(env: Scopes<nat>, s: Store, slots: map<nat, int>)
    requires Agree(env, s, slots)
    ensures Agree(env + [map[]], s + [map[]], slots)
  {
    var e1, s1 := env + [map[]], s + [map[]];
    forall i | 0 <= i < |e1| ensures LevelAgrees(e1[i], s1[i], slots) {
      if i < |env| { assert LevelAgrees(env[i], s[i], slots); }
    }
  }

  lemma PushOk(env: Scopes<nat>, n: nat)
    requires EnvOk(env, n)
    ensures EnvOk(env + [map[]], n)
  {
    var e1 := env + [map[]];
    forall i, y | 0 <= i < |e1| && y in e1[i] ensures y in env[i] && i < |env| {}
  }

  lemma EnvOkLater(env: Scopes<nat>, m: nat, n: nat)
    requires EnvOk(env, m) && m <= n
    ensures EnvOk(env, n)
  {}

  lemma CoversDefine<V>(env: Scopes<V>, names: set<string>, x: string, v: V)
    requires Covers(env, names) && |env| > 0
    ensures Covers(Define(env, x, v), names + {x})
  {
    var e1 := Define(env, x, v);
    assert e1[..|e1| - 1] == env[..|env| - 1];
  }

  lemma CoversPush<V>(env: Scopes<V>, names: set<string>)
    requires Covers(env, names)
    ensures Covers(env + [map[]], names)
  {
    var e1 := env + [map[]];
    assert e1[..|e1| - 1] == env;
  }
}
