/** Slash-separated names and the paths of tree nodes they stand for. */
module Paths {
  import opened ByteStrings

  const SLASH: byte := 47

  /** The names from the root down to a node; the root itself is []. */
  type Path = seq<Str>

  function Parent(p: Path): Path
    requires p != []
  {
    p[..|p| - 1]
  }

  function Last(p: Path): Str
    requires p != []
  {
    p[|p| - 1]
  }

  /** q is strictly below d. */
  predicate Under(d: Path, q: Path) {
    d < q
  }

  /** q is d or below it. */
  predicate Within(d: Path, q: Path) {
    d <= q
  }

  function TrimLeft(s: Str): Str {
    if s != [] && s[0] == SLASH then TrimLeft(s[1..]) else s
  }

  function TrimRight(s: Str): Str {
    if s != [] && s[|s| - 1] == SLASH then TrimRight(s[..|s| - 1]) else s
  }

  function Split(s: Str): (r: seq<Str>)
    ensures r != []
  {
    if s == [] then [[]]
    else if s[0] == SLASH then [[]] + Split(s[1..])
    else
      var r := Split(s[1..]);
      [[s[0]] + r[0]] + r[1..]
  }

  /** Outer slashes are trimmed; an inner double slash does give an empty name. */
  function Segments(s: Str): Path {
    var t := TrimRight(TrimLeft(s));
    if t == [] then [] else Split(t)
  }

  /** The length of s up to and including its last slash. */
  function DirLength(s: Str): (n: nat)
    ensures n <= |s|
  {
    if s == [] then 0 else if s[|s| - 1] == SLASH then |s| else DirLength(s[..|s| - 1])
  }

  function DirPart(s: Str): Str {
    s[..DirLength(s)]
  }

  function NamePart(s: Str): Str {
    s[DirLength(s)..]
  }

  function Join(p: Path): Str {
    if p == [] then [] else [SLASH] + p[0] + Join(p[1..])
  }

  function Rooted(p: Path): Str {
    if p == [] then [SLASH] else Join(p)
  }

  /** Where a filesystem object with this name is put. */
  function ObjectPath(s: Str): (p: Path)
    ensures p != []
  {
    Segments(DirPart(s)) + [NamePart(s)]
  }

  /** What a whiteout with this name removes. */
  function WhiteoutPath(s: Str): (p: Path)
    requires Segments(s) != []
    ensures p != []
  {
    Segments(Rooted(Parent(Segments(s)))) + [Last(Segments(s))]
  }

  // ---------------------------------------------------------------- clean names

  predicate Clean(p: Path) {
    forall i | 0 <= i < |p| :: p[i] != [] && SLASH !in p[i]
  }

  lemma {:induction false} SplitName(s: Str, rest: Str)
    requires SLASH !in s && (rest == [] || rest[0] == SLASH)
    ensures Split(s + rest) == [s] + (if rest == [] then [] else Split(rest[1..]))
    decreases |s|
  {
    if s == [] {
      assert s + rest == rest;
    } else {
      assert (s + rest)[1..] == s[1..] + rest;
      SplitName(s[1..], rest);
      assert [s[0]] + s[1..] == s;
    }
  }

  lemma {:induction false} SplitJoin(p: Path)
    requires Clean(p) && p != []
    ensures Join(p) != [] && Split(Join(p)[1..]) == p
    decreases |p|
  {
    var rest := Join(p[1..]);
    assert Join(p)[1..] == p[0] + rest;
    SplitName(p[0], rest);
    if p[1..] != [] {
      SplitJoin(p[1..]);
    }
    assert p == [p[0]] + p[1..];
  }

  lemma {:induction false} JoinLast(p: Path)
    requires p != []
    ensures Join(p) == Join(Parent(p)) + ([SLASH] + Last(p))
    decreases |p|
  {
    if |p| > 1 {
      JoinLast(p[1..]);
      assert Parent(p)[1..] == Parent(p[1..]);
      var head, tail := Join(Parent(p[1..])), [SLASH] + Last(p);
      assert [SLASH] + p[0] + (head + tail) == [SLASH] + p[0] + head + tail;
    }
  }

  lemma {:induction false} DirLengthOf(a: Str, s: Str)
    requires SLASH !in s
    ensures DirLength(a + [SLASH] + s) == |a| + 1
    decreases |s|
  {
    var w := a + [SLASH] + s;
    if s != [] {
      assert w[|w| - 1] == s[|s| - 1];
      DirLengthOf(a, s[..|s| - 1]);
      assert w[..|w| - 1] == a + [SLASH] + s[..|s| - 1];
    }
  }

  lemma TrimJoined(t: Str)
    requires t != [] && t[0] != SLASH && t[|t| - 1] != SLASH
    ensures TrimRight(TrimLeft([SLASH] + t)) == t && TrimRight(TrimLeft([SLASH] + t + [SLASH])) == t
  {
    LeftSlash(t);
    LeftSlash(t + [SLASH]);
    assert [SLASH] + (t + [SLASH]) == [SLASH] + t + [SLASH];
    RightSlash(t);
  }

  lemma LeftSlash(t: Str)
    requires t != [] && t[0] != SLASH
    ensures TrimLeft([SLASH] + t) == t
  {
    assert ([SLASH] + t)[1..] == t;
    assert TrimLeft(t) == t;
  }

  lemma RightSlash(t: Str)
    requires t != [] && t[|t| - 1] != SLASH
    ensures TrimRight(t) == t && TrimRight(t + [SLASH]) == t
  {
    assert (t + [SLASH])[..|t|] == t;
    assert TrimRight(t) == t;
  }

  lemma JoinEnds(p: Path)
    requires Clean(p) && p != []
    ensures var j := Join(p); |j| > 1 && j == [SLASH] + j[1..] && j[1] != SLASH && j[|j| - 1] != SLASH
  {
    JoinLast(p);
    var j := Join(p);
    assert j[1] == p[0][0] && j[1] in p[0];
    assert j[|j| - 1] == Last(p)[|Last(p)| - 1] && j[|j| - 1] in Last(p);
  }

  /** The trailing slash that path.Split leaves on the directory part does not matter. */
  lemma SegmentsOfJoin(p: Path)
    requires Clean(p)
    ensures Segments(Join(p)) == p && Segments(Join(p) + [SLASH]) == p
  {
    hide Clean, Split;
    if p == [] {
      assert Join(p) + [SLASH] == [SLASH] && [SLASH][1..] == [] && TrimLeft([SLASH]) == [];
    } else {
      hide Join, TrimLeft, TrimRight;
      SplitJoin(p);
      JoinEnds(p);
      TrimJoined(Join(p)[1..]);
    }
  }

  lemma SplitOfJoin(p: Path)
    requires Clean(p) && p != []
    ensures DirPart(Join(p)) == Join(Parent(p)) + [SLASH] && NamePart(Join(p)) == Last(p)
  {
    hide Join;
    JoinLast(p);
    var a, s := Join(Parent(p)), Last(p);
    assert a + ([SLASH] + s) == a + [SLASH] + s;
    DirLengthOf(a, s);
    assert (a + [SLASH] + s)[..|a| + 1] == a + [SLASH];
  }

  lemma SegmentsOfRooted(p: Path)
    requires Clean(p)
    ensures Segments(Rooted(p)) == p
  {
    SegmentsOfJoin(p);
    assert TrimLeft([SLASH]) == [];
  }

  /** On clean names every use of a name agrees, so the node a name stands for is the obvious one. */
  lemma CleanNames(p: Path)
    requires Clean(p) && p != []
    ensures Segments(Join(p)) == p && ObjectPath(Join(p)) == p && WhiteoutPath(Join(p)) == p && NamePart(Join(p)) != []
  {
    hide Join, Segments, Rooted, DirPart, NamePart;
    SegmentsOfJoin(p);
    SegmentsOfJoin(Parent(p));
    SegmentsOfRooted(Parent(p));
    SplitOfJoin(p);
    assert Parent(p) + [Last(p)] == p;
  }

  // ---------------------------------------------------------------- empty names

  predicate DoubleSlash(s: Str) {
    |s| >= 2 && ((s[0] == SLASH && s[1] == SLASH) || DoubleSlash(s[1..]))
  }

  predicate SomeEmpty(p: Path) {
    exists i :: 0 <= i < |p| && p[i] == []
  }

  lemma {:induction false} EmptyBehind(s: Str)
    ensures Split(s)[0] == [] <==> s == [] || s[0] == SLASH
    ensures SomeEmpty(Split(s)[1..]) <==> DoubleSlash(s) || (s != [] && s[|s| - 1] == SLASH)
    decreases |s|
  {
    if s != [] {
      var r := Split(s[1..]);
      EmptyBehind(s[1..]);
      if s[0] == SLASH {
        assert Split(s)[1..] == r && r == [r[0]] + r[1..];
        FirstOrLater(r);
      } else {
        assert Split(s)[1..] == r[1..];
      }
    }
  }

  lemma FirstOrLater(p: Path)
    requires p != []
    ensures SomeEmpty(p) <==> p[0] == [] || SomeEmpty(p[1..])
  {
    if i :| 0 <= i < |p| && p[i] == [] {
      if i > 0 { assert p[1..][i - 1] == []; }
    }
    if i :| 0 <= i < |p[1..]| && p[1..][i] == [] {
      assert p[i + 1] == [];
    }
  }

  lemma {:induction false} LeftTrimmed(s: Str)
    ensures TrimLeft(s) == [] || TrimLeft(s)[0] != SLASH
    decreases |s|
  {
    if s != [] && s[0] == SLASH { LeftTrimmed(s[1..]); }
  }

  lemma {:induction false} RightTrimmed(s: Str)
    ensures TrimRight(s) <= s && (TrimRight(s) == [] || TrimRight(s)[|TrimRight(s)| - 1] != SLASH)
    decreases |s|
  {
    if s != [] && s[|s| - 1] == SLASH { RightTrimmed(s[..|s| - 1]); }
  }

  /** A name has an empty segment exactly when a double slash is left once the outer slashes are trimmed. */
  lemma EmptySegmentIff(s: Str)
    ensures SomeEmpty(Segments(s)) <==> DoubleSlash(TrimRight(TrimLeft(s)))
  {
    hide SomeEmpty, Split, TrimLeft, TrimRight;
    LeftTrimmed(s);
    RightTrimmed(TrimLeft(s));
    var t := TrimRight(TrimLeft(s));
    EmptyBehind(t);
    FirstOrLater(Split(t));
    NoneEmpty();
  }

  lemma NoneEmpty()
    ensures !SomeEmpty([])
  {
  }
}
