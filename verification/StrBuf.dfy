/** The string buffer: a growing array of characters. */
module StrBuf {

  const INIT_CAP := 64

  class StrBuf {
    var data: array<char>
    var len: nat
    var cap: nat
    ghost var moved: nat          // bytes that reallocations may have copied, whole blocks counted

    /** Always room for the terminator; what has been moved is paid for by the growth. */
    ghost predicate Valid()
      reads this, data
    {
      && data.Length == cap && len < cap && data[len] == '\0'
      && cap >= INIT_CAP && (cap == INIT_CAP || cap < 2 * (len + 1))
      && moved <= cap - INIT_CAP
    }

    ghost function Contents(): string
      requires len <= data.Length
      reads this, data
    {
      data[..len]
    }

    constructor ()
      ensures Valid() && Contents() == "" && fresh(data) && moved == 0
    {
      len, cap, moved := 0, INIT_CAP, 0;
      data := new char[INIT_CAP](_ => '\0');
    }

    /** Double until there is room for extra more and the terminator. */
    method Grow(extra: nat)
      requires Valid()
      modifies this
      ensures data.Length == cap > len + extra && len == old(len) && Contents() == old(Contents())
      ensures fresh(data) || data == old(data)
      ensures cap >= INIT_CAP && (cap == INIT_CAP || cap < 2 * (len + extra + 1))
      ensures moved <= cap - INIT_CAP
    {
      if len + extra + 1 <= cap { return; }
      var nc := cap;
      while nc < len + extra + 1
        invariant nc == cap || (2 * cap <= nc < 2 * (len + extra + 1))
      {
        nc := 2 * nc;
      }
      var bigger := new char[nc](i requires 0 <= i reads this, data => if i < data.Length then data[i] else '\0');
      assert bigger[..len] == data[..len];
      moved := moved + cap;
      data := bigger;
      cap := nc;
    }

    method Append(s: string)
      requires Valid()
      modifies this, data
      ensures Valid() && Contents() == old(Contents()) + s
      ensures fresh(data) || data == old(data)
    {
      if s == "" {
        assert Contents() == Contents() + s;
        return;
      }
      ghost var was := Contents();
      Grow(|s|);
      Copy(s);
      data[len + |s|] := '\0';
      assert data[len..len + |s|] == s;
      len := len + |s|;
      assert data[..len] == was + s;
    }

    /** The characters go behind the contents. */
    method Copy(s: string)
      requires len + |s| < data.Length
      modifies data
      ensures data[..len] == old(data[..len]) && data[len..len + |s|] == s
    {
      var i := 0;
      while i < |s|
        invariant i <= |s|
        invariant data[..len] == old(data[..len])
        invariant forall j :: 0 <= j < i ==> data[len + j] == s[j]
      {
        data[len + i] := s[i];
        i := i + 1;
      }
    }

    method Build() returns (s: string)
      requires Valid()
      ensures s == Contents()
    {
      s := data[..len];
    }
  }

  function Concat(parts: seq<string>): string {
    if parts == [] then "" else Concat(parts[..|parts| - 1]) + parts[|parts| - 1]
  }

  /** Main result: the buffer builds the concatenation of its parts, and all reallocations together
      move fewer than two bytes for each byte of the result and its terminator. */
  method BuildAll(parts: seq<string>) returns (s: string, ghost moved: nat)
    ensures s == Concat(parts) && moved < 2 * (|s| + 1)
  {
    var b := new StrBuf();
    var i := 0;
    assert parts[..0] == [];
    while i < |parts|
      invariant i <= |parts| && b.Valid() && fresh(b) && fresh(b.data)
      invariant b.Contents() == Concat(parts[..i])
    {
      b.Append(parts[i]);
      assert parts[..i + 1][..i] == parts[..i];
      i := i + 1;
    }
    assert parts[..i] == parts;
    s := b.Build();
    moved := b.moved;
  }
}
