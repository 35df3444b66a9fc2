/** Searching, splitting and replacing in strings: the pieces of a split are the only ones there can be. */
module Str {
  import opened Common
  import opened StrBuf

  predicate MatchAt(s: string, i: nat, n: string) { i + |n| <= |s| && s[i..i + |n|] == n }

  /** The first place where n occurs in s, from i on. */
  function First(s: string, n: string, i: nat): (r: Option<nat>)
    ensures r.Some? ==> i <= r.value && MatchAt(s, r.value, n)
    ensures forall j :: i <= j && (r.Some? ==> j < r.value) ==> !MatchAt(s, j, n)
    decreases |s| + 1 - i
  {
    if i + |n| > |s| then None else if MatchAt(s, i, n) then Some(i) else First(s, n, i + 1)
  }

  lemma FirstIs(s: string, n: string, k: nat)
    requires MatchAt(s, k, n) && forall j :: 0 <= j < k ==> !MatchAt(s, j, n)
    ensures First(s, n, 0) == Some(k)
  {
    assert First(s, n, 0).Some?;
  }

  // ----- splitting ---------------------------------------------------------------------------

  /** What is left of s from i on: cut at the first separator, then go on behind it. */
  function SplitFrom(s: string, sep: string, i: nat): (r: seq<string>)
    requires sep != "" && i <= |s|
    ensures r != []
    decreases |s| - i
  {
    match First(s, sep, i)
    case None => [s[i..]]
    case Some(k) => [s[i..k]] + SplitFrom(s, sep, k + |sep|)
  }

  function Split(s: string, sep: string): (r: seq<string>)
    requires sep != ""
    ensures r != []
  {
    SplitFrom(s, sep, 0)
  }

  function Join(pieces: seq<string>, sep: string): string {
    if pieces == [] then ""
    else if |pieces| == 1 then pieces[0]
    else pieces[0] + sep + Join(pieces[1..], sep)
  }

  lemma JoinCons(p: string, rest: seq<string>, sep: string)
    requires rest != []
    ensures Join([p] + rest, sep) == p + sep + Join(rest, sep)
  {
    assert ([p] + rest)[1..] == rest;
  }

  /** The separator that follows p begins where p ends, not before. */
  predicate EndsFirst(p: string, sep: string) { forall j :: 0 <= j < |p| ==> !MatchAt(p + sep, j, sep) }

  predicate Contains(p: string, sep: string) { exists j :: 0 <= j <= |p| && MatchAt(p, j, sep) }

  /** Pieces as a split makes them. */
  predicate Pieces(ps: seq<string>, sep: string) {
    && ps != [] && !Contains(ps[|ps| - 1], sep)
    && forall i :: 0 <= i < |ps| - 1 ==> EndsFirst(ps[i], sep) && !Contains(ps[i], sep)
  }

  /** A place in a part of s is a place in s. */
  lemma PlaceIn(s: string, i: nat, k: nat, j: nat, n: string)
    requires i <= k <= |s|
    ensures MatchAt(s[i..k], j, n) <==> i + j + |n| <= k && MatchAt(s, i + j, n)
  {
    if i + j + |n| <= k { SliceOf(s, i, k, j, j + |n|); }
  }

  lemma SliceOf(s: string, i: nat, k: nat, a: nat, b: nat)
    requires a <= b && i + b <= k <= |s|
    ensures s[i..k][a..b] == s[i + a..i + b]
  {
    var x, y := s[i..k][a..b], s[i + a..i + b];
    forall t | 0 <= t < |x| ensures x[t] == y[t] {
      assert x[t] == s[i..k][a + t] == s[i + (a + t)];
    }
    assert |x| == |y| && x == y;
  }

  lemma CutEndsFirst(s: string, sep: string, i: nat, k: nat)
    requires sep != "" && i <= |s| && First(s, sep, i) == Some(k)
    ensures EndsFirst(s[i..k], sep) && !Contains(s[i..k], sep)
    ensures s[i..] == s[i..k] + sep + s[k + |sep|..]
  {
    var p := s[i..k];
    assert p + sep == s[i..k + |sep|];
    forall j | 0 <= j < |p| ensures !MatchAt(p + sep, j, sep) {
      PlaceIn(s, i, k + |sep|, j, sep);
      assert !MatchAt(s, i + j, sep);
    }
    forall j | 0 <= j <= |p| ensures !MatchAt(p, j, sep) {
      PlaceIn(s, i, k, j, sep);
      assert i + j < k ==> !MatchAt(s, i + j, sep);
    }
  }

  lemma NoCut(s: string, sep: string, i: nat)
    requires sep != "" && i <= |s|
    ensures First(s, sep, i) == None <==> !Contains(s[i..], sep)
  {
    assert s[i..] == s[i..|s|];
    if First(s, sep, i) == None {
      forall j | 0 <= j <= |s[i..]| ensures !MatchAt(s[i..], j, sep) { PlaceIn(s, i, |s|, j, sep); }
    } else {
      var k := First(s, sep, i).value;
      PlaceIn(s, i, |s|, k - i, sep);
    }
  }

  /** Joining the pieces gives the string back, and the pieces are cut at the first separators. */
  lemma {:induction false} SplitIsPieces(s: string, sep: string, i: nat)
    requires sep != "" && i <= |s|
    ensures Join(SplitFrom(s, sep, i), sep) == s[i..] && Pieces(SplitFrom(s, sep, i), sep)
    decreases |s| - i
  {
    hide EndsFirst, Contains, Join;
    match First(s, sep, i) {
      case None =>
        NoCut(s, sep, i);
        JoinOne(s[i..], sep);
      case Some(k) =>
        var rest := SplitFrom(s, sep, k + |sep|);
        CutEndsFirst(s, sep, i, k);
        SplitIsPieces(s, sep, k + |sep|);
        JoinCons(s[i..k], rest, sep);
        PiecesCons(s[i..k], rest, sep);
    }
  }

  lemma JoinOne(p: string, sep: string)
    ensures Join([p], sep) == p
  {}

  lemma PiecesCons(p: string, rest: seq<string>, sep: string)
    requires rest != []
    ensures Pieces([p] + rest, sep) <==> Pieces(rest, sep) && EndsFirst(p, sep) && !Contains(p, sep)
  {
    hide EndsFirst, Contains;
    var ps := [p] + rest;
    assert ps[|ps| - 1] == rest[|rest| - 1];
    assert forall i :: 0 <= i < |rest| ==> ps[i + 1] == rest[i];
    if Pieces(ps, sep) {
      forall i | 0 <= i < |rest| - 1 ensures EndsFirst(rest[i], sep) && !Contains(rest[i], sep) {
        assert rest[i] == ps[i + 1];
      }
      assert ps[0] == p;
    }
  }

  lemma FirstBehind(p: string, sep: string, rest: string)
    requires sep != "" && EndsFirst(p, sep)
    ensures First(p + sep + rest, sep, 0) == Some(|p|)
  {
    var s := p + sep + rest;
    assert s[|p|..|p| + |sep|] == sep;
    forall j | 0 <= j < |p| ensures !MatchAt(s, j, sep) {
      assert !MatchAt(p + sep, j, sep);
      assert s[j..j + |sep|] == (p + sep)[j..j + |sep|];
    }
    FirstIs(s, sep, |p|);
  }

  lemma SplitStep(s: string, sep: string, i: nat)
    requires sep != "" && i <= |s|
    ensures SplitFrom(s, sep, i) == match First(s, sep, i)
                                    case None => [s[i..]]
                                    case Some(k) => [s[i..k]] + SplitFrom(s, sep, k + |sep|)
  {}

  /** Splitting from i on is splitting what is left. */
  lemma {:induction false} SplitShift(a: string, s: string, sep: string, i: nat)
    requires sep != "" && i <= |s|
    ensures SplitFrom(a + s, sep, |a| + i) == SplitFrom(s, sep, i)
    decreases |s| - i
  {
    hide SplitFrom, First;
    FirstShift(a, s, sep, i);
    SplitStep(s, sep, i);
    SplitStep(a + s, sep, |a| + i);
    match First(s, sep, i) {
      case None => assert (a + s)[|a| + i..] == s[i..];
      case Some(k) =>
        ShiftSlice(a, s, i, k);
        SplitShift(a, s, sep, k + |sep|);
    }
  }

  lemma ShiftSlice(a: string, s: string, i: nat, k: nat)
    requires i <= k <= |s|
    ensures (a + s)[|a| + i..|a| + k] == s[i..k]
  {}

  lemma MatchShift(a: string, s: string, n: string, i: nat)
    ensures MatchAt(a + s, |a| + i, n) <==> MatchAt(s, i, n)
  {
    if i + |n| <= |s| { ShiftSlice(a, s, i, i + |n|); }
  }

  lemma {:induction false} FirstShift(a: string, s: string, n: string, i: nat)
    requires i <= |s|
    ensures First(a + s, n, |a| + i) == match First(s, n, i) case Some(k) => Some(|a| + k) case None => None
    decreases |s| - i
  {
    hide MatchAt;
    MatchShift(a, s, n, i);
    if i + |n| <= |s| && !MatchAt(s, i, n) {
      if i < |s| { FirstShift(a, s, n, i + 1); } else { FirstEnd(s, n); }
    }
  }

  lemma FirstEnd(s: string, n: string)
    requires |n| <= 0
    ensures MatchAt(s, |s|, n)
  {}

  lemma {:induction false} PiecesAreSplit(ps: seq<string>, sep: string)
    requires sep != "" && Pieces(ps, sep)
    ensures Split(Join(ps, sep), sep) == ps
    decreases |ps|
  {
    hide EndsFirst, Contains, Join, SplitFrom;
    var p := ps[0];
    if |ps| == 1 {
      assert ps == [p] && p[0..] == p;
      JoinOne(p, sep);
      NoCut(p, sep, 0);
      SplitStep(p, sep, 0);
    } else {
      var more := ps[1..];
      assert ps == [p] + more;
      PiecesCons(p, more, sep);
      JoinCons(p, more, sep);
      var rest := Join(more, sep);
      FirstBehind(p, sep, rest);
      SplitStep(p + sep + rest, sep, 0);
      assert (p + sep + rest)[0..|p|] == p;
      SplitShift(p + sep, rest, sep, 0);
      PiecesAreSplit(more, sep);
    }
  }

  /** Main result: the split is the one way to cut s into such pieces. */
  lemma SplitIsTheOnlyOne(s: string, sep: string, ps: seq<string>)
    requires sep != ""
    ensures Pieces(ps, sep) && Join(ps, sep) == s <==> ps == Split(s, sep)
  {
    SplitIsPieces(s, sep, 0);
    assert s[0..] == s;
    if Pieces(ps, sep) { PiecesAreSplit(ps, sep); }
  }

  /** The first piece ends where find finds the separator. */
  lemma FirstPieceEndsAtFind(s: string, sep: string)
    requires sep != ""
    ensures Split(s, sep)[0] == match First(s, sep, 0) case Some(i) => s[..i] case None => s
  {
    assert s[0..] == s;
  }

  // ----- replacing ---------------------------------------------------------------------------

  /** Every occurrence replaced: the same pieces with another separator. */
  function Replaced(s: string, from: string, to: string): string
    requires from != ""
  {
    Join(Split(s, from), to)
  }

  function ReplacedFrom(s: string, from: string, to: string, i: nat): string
    requires from != "" && i <= |s|
  {
    Join(SplitFrom(s, from, i), to)
  }

  lemma ReplacedMatch(s: string, from: string, to: string, i: nat)
    requires from != "" && MatchAt(s, i, from)
    ensures ReplacedFrom(s, from, to, i) == to + ReplacedFrom(s, from, to, i + |from|)
  {
    assert First(s, from, i) == Some(i) && s[i..i] == "";
    JoinCons("", SplitFrom(s, from, i + |from|), to);
  }

  lemma ReplacedSkip(s: string, from: string, to: string, i: nat)
    requires from != "" && i + |from| <= |s| && !MatchAt(s, i, from)
    ensures ReplacedFrom(s, from, to, i) == [s[i]] + ReplacedFrom(s, from, to, i + 1)
  {
    hide Join;
    match First(s, from, i + 1) {
      case None =>
        JoinOne(s[i..], to);
        JoinOne(s[i + 1..], to);
      case Some(k) =>
        var rest := SplitFrom(s, from, k + |from|);
        assert s[i..k] == [s[i]] + s[i + 1..k];
        JoinCons(s[i..k], rest, to);
        JoinCons(s[i + 1..k], rest, to);
    }
  }

  lemma ReplacedShort(s: string, from: string, to: string, i: nat)
    requires from != "" && i <= |s| < i + |from|
    ensures ReplacedFrom(s, from, to, i) == s[i..]
  {}

  // ----- the program's loops -----------------------------------------------------------------

  method MemFind(h: string, n: string) returns (r: Option<nat>)
    ensures r == First(h, n, 0)
  {
    if n == "" {
      assert MatchAt(h, 0, n);
      return Some(0);
    }
    var i := 0;
    while i + |n| <= |h|
      invariant forall j :: 0 <= j < i ==> !MatchAt(h, j, n)
      invariant First(h, n, i) == First(h, n, 0)
    {
      if h[i..i + |n|] == n { return Some(i); }
      i := i + 1;
    }
    return None;
  }

  /** -1 when n does not occur. */
  method Find(h: string, n: string) returns (r: int)
    ensures r == match First(h, n, 0) case Some(i) => i case None => -1
  {
    if n == "" {
      assert MatchAt(h, 0, n);
      return 0;
    }
    var p := MemFind(h, n);
    return if p.Some? then p.value else -1;
  }

  /** With an empty separator every character is a piece. */
  method SplitString(s: string, sep: string) returns (pieces: seq<string>)
    ensures sep != "" ==> pieces == Split(s, sep)
    ensures sep == "" ==> |pieces| == |s| && forall i :: 0 <= i < |s| ==> pieces[i] == [s[i]]
  {
    if sep != "" {
      pieces := SplitOn(s, sep);
      return;
    }
    pieces := [];
    var i := 0;
    while i < |s|
      invariant i <= |s| && |pieces| == i && forall j :: 0 <= j < i ==> pieces[j] == [s[j]]
    {
      pieces := pieces + [[s[i]]];
      i := i + 1;
    }
  }

  method SplitOn(s: string, sep: string) returns (pieces: seq<string>)
    requires sep != ""
    ensures pieces == Split(s, sep)
  {
    hide MatchAt, SplitFrom;
    pieces := [];
    var i, prev := 0, 0;
    assert [] + Split(s, sep) == Split(s, sep);
    while i + |sep| <= |s|
      invariant 0 <= prev <= i <= |s|
      invariant First(s, sep, prev) == First(s, sep, i)
      invariant Split(s, sep) == pieces + SplitFrom(s, sep, prev)
    {
      IsMatch(s, i, sep);
      if s[i..i + |sep|] == sep {
        SplitStep(s, sep, prev);
        Append(pieces, s[prev..i], SplitFrom(s, sep, i + |sep|));
        pieces := pieces + [s[prev..i]];
        i := i + |sep|;
        prev := i;
      } else {
        i := i + 1;
      }
    }
    SplitStep(s, sep, prev);
    pieces := pieces + [s[prev..]];
  }

  lemma Append<T>(a: seq<T>, x: T, b: seq<T>)
    ensures a + ([x] + b) == (a + [x]) + b
  {}

  /** An empty `from` replaces nothing. */
  method ReplaceAll(s: string, from: string, to: string) returns (r: string)
    ensures r == if from == "" then s else Replaced(s, from, to)
  {
    if from == "" { return s; }
    hide MatchAt, ReplacedFrom, Replaced, First, Split, SplitFrom, Join;
    var buf := new StrBuf();
    var i := 0;
    FromStart(s, from, to);
    while i + |from| <= |s|
      invariant i <= |s| && buf.Valid() && fresh(buf) && fresh(buf.data)
      invariant Replaced(s, from, to) == buf.Contents() + ReplacedFrom(s, from, to, i)
    {
      i := ReplaceHere(buf, s, from, to, i);
    }
    ReplacedShort(s, from, to, i);
    if i < |s| { buf.Append(s[i..]); } else { NoTail(s, i, buf.Contents()); }
    r := buf.Build();
  }

  /** An occurrence or one character goes to the buffer. */
  method ReplaceHere(buf: StrBuf, s: string, from: string, to: string, i: nat) returns (j: nat)
    requires buf.Valid() && from != "" && i + |from| <= |s|
    modifies buf, buf.data
    ensures buf.Valid() && (fresh(buf.data) || buf.data == old(buf.data)) && i < j <= |s|
    ensures buf.Contents() + ReplacedFrom(s, from, to, j) == old(buf.Contents()) + ReplacedFrom(s, from, to, i)
  {
    hide MatchAt, ReplacedFrom;
    IsMatch(s, i, from);
    if s[i..i + |from|] == from {
      ReplacedMatch(s, from, to, i);
      j := i + |from|;
      AppendPiece(buf, to, ReplacedFrom(s, from, to, j));
    } else {
      ReplacedSkip(s, from, to, i);
      j := i + 1;
      AppendPiece(buf, [s[i]], ReplacedFrom(s, from, to, j));
    }
  }

  /** rest: what the replaced string still lacks after the piece. */
  method AppendPiece(buf: StrBuf, piece: string, ghost rest: string)
    requires buf.Valid()
    modifies buf, buf.data
    ensures buf.Valid() && (fresh(buf.data) || buf.data == old(buf.data))
    ensures buf.Contents() + rest == old(buf.Contents()) + (piece + rest)
  {
    buf.Append(piece);
    Reassociate(old(buf.Contents()), piece, rest);
  }

  lemma NoTail(s: string, i: nat, c: string)
    requires i == |s|
    ensures c + s[i..] == c
  {}

  lemma FromStart(s: string, from: string, to: string)
    requires from != ""
    ensures Replaced(s, from, to) == "" + ReplacedFrom(s, from, to, 0)
  {}

  lemma IsMatch(s: string, i: nat, n: string)
    requires i + |n| <= |s|
    ensures MatchAt(s, i, n) <==> s[i..i + |n|] == n
  {}

  lemma Reassociate(a: string, b: string, c: string)
    ensures a + (b + c) == (a + b) + c
  {}
}
