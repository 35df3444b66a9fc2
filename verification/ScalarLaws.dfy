/** What source, emitter and machine share, said without it: 32-bit arithmetic, scopes, cases, labels. */
module ScalarLaws {
  import opened Common
  import opened ScalarSource

  // ----- arithmetic --------------------------------------------------------------------------

  predicate InRange(n: int) { -0x8000_0000 <= n < 0x8000_0000 }

  /** v is what 32 bits keep of n. */
  predicate Keeps32(v: int, n: int) { InRange(v) && (v - n) % 0x1_0000_0000 == 0 }

  /** There is only one such v. */
  lemma KeptIsUnique(v: int, w: int, n: int)
    requires Keeps32(v, n) && Keeps32(w, n)
    ensures v == w
  {
    assert v - w == (v - n) - (w - n);
  }

  lemma LowBits(a: int, b: int)
    ensures Keeps32(Apply(Add, a, b), a + b)
    ensures Keeps32(Apply(Sub, a, b), a - b)
    ensures Keeps32(Apply(Mul, a, b), a * b)
    ensures Keeps32(Wrap(a), a)
  {
    WrapKeeps(a + b);
    WrapKeeps(a - b);
    WrapKeeps(a * b);
    WrapKeeps(a);
  }

  lemma WrapKeeps(n: int)
    ensures Keeps32(Wrap(n), n)
    ensures InRange(n) ==> Wrap(n) == n
  {
    var m := n + 0x8000_0000;
    assert Wrap(n) - n == -(m / 0x1_0000_0000) * 0x1_0000_0000;
  }

  /** q and r are quotient and remainder of a division that truncates toward zero. */
  predicate Truncates(a: int, b: int, q: int, r: int) {
    && a == q * b + r
    && Magnitude(r) < Magnitude(b)
    && (r == 0 || (r < 0 <==> a < 0))
  }

  function Magnitude(n: int): nat { if n < 0 then -n else n }

  /** The operands for which the target defines a division. */
  predicate Divides(a: int, b: int) {
    InRange(a) && InRange(b) && b != 0 && !(a == -0x8000_0000 && b == -1)
  }

  lemma DivisionTruncates(a: int, b: int)
    requires Divides(a, b)
    ensures Truncates(a, b, Apply(Div, a, b), Apply(Rem, a, b))
    ensures InRange(Apply(Div, a, b)) && InRange(Apply(Rem, a, b))
  {
    hide Wrap;
    QuotientTruncates(a, b);
    var q := Quotient(a, b);
    WrapKeeps(q);
    WrapKeeps(a - b * q);
  }

  lemma QuotientTruncates(a: int, b: int)
    requires Divides(a, b)
    ensures InRange(Quotient(a, b)) && InRange(a - b * Quotient(a, b))
    ensures Truncates(a, b, Quotient(a, b), a - b * Quotient(a, b))
  {
    hide Quotient, InRange, Truncates;
    QuotientIs(a, b);
    Divided(Magnitude(a), Magnitude(b), Magnitude(a) / Magnitude(b), Magnitude(a) % Magnitude(b));
    Signed(a, b, Magnitude(a) / Magnitude(b), Magnitude(a) % Magnitude(b), Quotient(a, b));
  }

  lemma QuotientIs(a: int, b: int)
    requires b != 0
    ensures var k: int := Magnitude(a) / Magnitude(b); Quotient(a, b) == if (a < 0) == (b < 0) then k else -k
  {}

  lemma Signed(a: int, b: int, k: int, m: int, q: int)
    requires Divides(a, b) && q == if (a < 0) == (b < 0) then k else -k
    requires var u, w := Magnitude(a), Magnitude(b);
      u == w * k + m && 0 <= m < w && 0 <= k <= u && (w >= 2 ==> k + k <= u)
    ensures InRange(q) && InRange(a - b * q) && Truncates(a, b, q, a - b * q)
  {
    SignedProduct(a, b, Magnitude(b), k, q);
  }

  lemma Divided(u: int, w: int, k: int, m: int)
    requires u >= 0 && w > 0 && k == u / w && m == u % w
    ensures u == w * k + m && 0 <= m < w && 0 <= k <= u && (w >= 2 ==> k + k <= u)
  {
    if w >= 2 { AtLeast(k, w, 2); } else { assert w == 1; }
  }

  lemma AtLeast(k: int, w: int, c: int)
    requires k >= 0 && w >= c
    ensures w * k >= c * k
  {}

  lemma SignedProduct(a: int, b: int, w: int, k: int, q: int)
    requires b != 0 && w == Magnitude(b)
    requires q == if (a < 0) == (b < 0) then k else -k
    ensures b * q == q * b == if a < 0 then -(w * k) else w * k
  {}

  lemma ComparesAsNamed(a: int, b: int)
    ensures Compare(Eq, a, b) == if a == b then 1 else 0
    ensures Compare(Ne, a, b) == if a == b then 0 else 1
    ensures Compare(Lt, a, b) == if a < b then 1 else 0
    ensures Compare(Gt, a, b) == if b < a then 1 else 0
    ensures Compare(Le, a, b) == if b < a then 0 else 1
    ensures Compare(Ge, a, b) == if a < b then 0 else 1
  {}

  // ----- scopes ------------------------------------------------------------------------------

  /** i is the innermost scope that binds x. */
  predicate Innermost<V>(ss: Scopes<V>, x: string, i: nat) {
    i < |ss| && x in ss[i] && forall j :: i < j < |ss| ==> x !in ss[j]
  }

  predicate Unbound<V>(ss: Scopes<V>, x: string) { forall i :: 0 <= i < |ss| ==> x !in ss[i] }

  lemma {:induction false} LevelIsInnermost<V>(ss: Scopes<V>, x: string)
    ensures forall i: nat :: Innermost(ss, x, i) <==> Level(ss, x) == i + 1
    ensures Unbound(ss, x) <==> Level(ss, x) == 0
  {
    if |ss| > 0 && x !in ss[|ss| - 1] {
      var outer := ss[..|ss| - 1];
      LevelIsInnermost(outer, x);
      forall i: nat ensures Innermost(ss, x, i) <==> Innermost(outer, x, i) {
        assert i < |outer| ==> outer[i] == ss[i];
        if Innermost(ss, x, i) { assert i < |outer|; }
      }
      assert Unbound(ss, x) <==> Unbound(outer, x) by {
        if Unbound(outer, x) {
          forall i | 0 <= i < |ss| ensures x !in ss[i] { if i < |outer| { assert ss[i] == outer[i]; } }
        }
      }
    } else if |ss| > 0 {
      assert Innermost(ss, x, |ss| - 1);
    }
  }

  /** A name is read from the innermost scope that binds it, and an assignment changes it there and
      nowhere else; a declaration binds it in the innermost scope of all. */
  lemma NamesAreInnermost<V>(ss: Scopes<V>, x: string, i: nat)
    requires Innermost(ss, x, i)
    ensures Find(ss, x) == Some(ss[i][x])
  {
    LevelIsInnermost(ss, x);
  }

  lemma UnboundIsNotFound<V>(ss: Scopes<V>, x: string)
    ensures Find(ss, x).None? <==> Unbound(ss, x)
  {
    LevelIsInnermost(ss, x);
  }

  lemma WriteChangesOne(s: Store, x: string, v: int, i: nat)
    requires Innermost(s, x, i)
    ensures |Write(s, x, v)| == |s| && x in Write(s, x, v)[i] && Write(s, x, v)[i][x] == v
    ensures Write(s, x, v)[i] - {x} == s[i] - {x}
    ensures forall j :: 0 <= j < |s| && j != i ==> Write(s, x, v)[j] == s[j]
    ensures Read(Write(s, x, v), x) == v
    ensures forall y :: y != x ==> Read(Write(s, x, v), y) == Read(s, y)
  {
    LevelIsInnermost(s, x);
    var t := Write(s, x, v);
    assert Innermost(t, x, i);
    LevelIsInnermost(t, x);
    forall y | y != x ensures Read(t, y) == Read(s, y) {
      OthersStay(s, t, y);
    }
  }

  /** Stores of one height that bind y alike give it the same value. */
  lemma OthersStay(s: Store, t: Store, y: string)
    requires |s| == |t|
    requires forall j :: 0 <= j < |s| ==> (y in s[j] <==> y in t[j]) && (y in s[j] ==> s[j][y] == t[j][y])
    ensures Read(t, y) == Read(s, y)
  {
    LevelIsInnermost(s, y);
    LevelIsInnermost(t, y);
    var n := Level(s, y);
    if n > 0 {
      assert Innermost(s, y, n - 1);
      assert Innermost(t, y, n - 1);
    } else {
      assert Unbound(t, y);
    }
  }

  lemma DefineBindsInnermost(s: Store, x: string, v: int)
    requires |s| > 0
    ensures Define(s, x, v)[..|s| - 1] == s[..|s| - 1]
    ensures Read(Define(s, x, v), x) == v
    ensures forall y :: y != x ==> Read(Define(s, x, v), y) == Read(s, y)
  {
    var t := Define(s, x, v);
    assert Innermost(t, x, |s| - 1);
    LevelIsInnermost(t, x);
    forall y | y != x ensures Read(t, y) == Read(s, y) {
      OthersStay(s, t, y);
    }
  }

  /** What a block declares is gone behind it. */
  lemma PopDropsInnermost<V>(ss: Scopes<V>, top: map<string, V>)
    ensures Pop(ss + [top]) == ss
  {
    assert (ss + [top])[..|ss|] == ss;
  }

  // ----- cases -------------------------------------------------------------------------------

  predicate LastDefaultAt(cases: seq<Case>, i: nat) {
    && i < |cases| && cases[i].value.None?
    && forall j :: i < j < |cases| ==> cases[j].value.Some?
  }

  predicate FirstWith(cases: seq<Case>, v: int, i: nat) {
    && i < |cases| && cases[i].value == Some(v)
    && forall j :: 0 <= j < i ==> cases[j].value != Some(v)
  }

  lemma {:induction false} DefaultIsTheLast(cases: seq<Case>)
    ensures forall i: nat :: LastDefaultAt(cases, i) <==> LastDefault(cases) == Some(i)
    ensures LastDefault(cases).None? <==> forall j :: 0 <= j < |cases| ==> cases[j].value.Some?
  {
    if |cases| > 0 && cases[|cases| - 1].value.Some? {
      var rest := cases[..|cases| - 1];
      DefaultIsTheLast(rest);
      assert forall j :: 0 <= j < |rest| ==> rest[j] == cases[j];
      forall i: nat ensures LastDefaultAt(cases, i) <==> LastDefaultAt(rest, i) {
        if LastDefaultAt(cases, i) { assert i < |rest|; }
      }
      assert (forall j :: 0 <= j < |rest| ==> rest[j].value.Some?) ==>
        forall j :: 0 <= j < |cases| ==> cases[j].value.Some?;
    } else if |cases| > 0 {
      assert LastDefaultAt(cases, |cases| - 1);
    }
  }

  lemma {:induction false} FirstIsFirst(cases: seq<Case>, v: int)
    ensures forall i: nat :: FirstWith(cases, v, i) <==> FirstCase(cases, v) == i && i < |cases|
    ensures FirstCase(cases, v) == |cases| <==> forall j :: 0 <= j < |cases| ==> cases[j].value != Some(v)
  {
    if cases != [] && cases[0].value != Some(v) {
      var rest := cases[1..];
      FirstIsFirst(rest, v);
      forall i: nat ensures FirstWith(cases, v, i) <==> i > 0 && FirstWith(rest, v, i - 1) {
        if i > 0 && FirstWith(rest, v, i - 1) {
          forall j | 0 <= j < i ensures cases[j].value != Some(v) {
            if j > 0 { assert cases[j] == rest[j - 1]; }
          }
        }
        if FirstWith(cases, v, i) {
          forall j | 0 <= j < i - 1 ensures rest[j].value != Some(v) { assert rest[j] == cases[j + 1]; }
        }
      }
      assert (forall j :: 0 <= j < |rest| ==> rest[j].value != Some(v)) <==>
             (forall j :: 0 <= j < |cases| ==> cases[j].value != Some(v)) by {
        if forall j :: 0 <= j < |rest| ==> rest[j].value != Some(v) {
          forall j | 0 <= j < |cases| ensures cases[j].value != Some(v) {
            if j > 0 { assert cases[j] == rest[j - 1]; }
          }
        }
      }
    }
  }

  /** A switch on v starts at the first case with v; without one, at the last default, wherever it
      stands; without either, behind the last case. */
  lemma SwitchStartsAt(cases: seq<Case>, v: int, i: nat)
    ensures FirstWith(cases, v, i) ==> EntryCase(cases, v) == i
    ensures (forall j :: 0 <= j < |cases| ==> cases[j].value != Some(v)) && LastDefaultAt(cases, i)
            ==> EntryCase(cases, v) == i
    ensures (forall j :: 0 <= j < |cases| ==> cases[j].value.Some? && cases[j].value != Some(v))
            ==> EntryCase(cases, v) == |cases|
  {
    FirstIsFirst(cases, v);
    DefaultIsTheLast(cases);
  }

  // ----- labels ------------------------------------------------------------------------------

  predicate InnermostLabel(ctx: seq<Nest>, l: string, i: nat) {
    i < |ctx| && ctx[i].tag == l && forall j :: i < j < |ctx| ==> ctx[j].tag != l
  }

  lemma {:induction false} LabelIsInnermost(ctx: seq<Nest>, l: string)
    ensures forall i: nat :: InnermostLabel(ctx, l, i) <==> TargetLevel(ctx, Some(l)) == Some(i)
    ensures TargetLevel(ctx, Some(l)).None? <==> forall i :: 0 <= i < |ctx| ==> ctx[i].tag != l
    ensures TargetLevel(ctx, None) == if ctx == [] then None else Some(|ctx| - 1)
  {
    if |ctx| > 0 && ctx[|ctx| - 1].tag != l {
      var outer := ctx[..|ctx| - 1];
      LabelIsInnermost(outer, l);
      assert forall j :: 0 <= j < |outer| ==> outer[j] == ctx[j];
      forall i: nat ensures InnermostLabel(ctx, l, i) <==> InnermostLabel(outer, l, i) {
        if InnermostLabel(ctx, l, i) { assert i < |outer|; }
      }
      assert (forall i :: 0 <= i < |outer| ==> outer[i].tag != l) ==>
        forall i :: 0 <= i < |ctx| ==> ctx[i].tag != l;
    } else if |ctx| > 0 {
      assert InnermostLabel(ctx, l, |ctx| - 1);
    }
  }
}
