/** Go strings are byte sequences, compared byte by byte. */
module ByteStrings {
  newtype byte = x: int | 0 <= x < 256

  type Str = seq<byte>

  /** The order of Go's < on strings. */
  predicate Less(a: Str, b: Str)
    decreases |a|
  {
    b != [] && (a == [] || a[0] < b[0] || (a[0] == b[0] && Less(a[1..], b[1..])))
  }

  ghost predicate LowerAt(a: Str, b: Str, i: int) {
    0 <= i < |a| && i < |b| && a[..i] == b[..i] && a[i] < b[i]
  }

  lemma LowerLater(a: Str, b: Str, i: int)
    requires LowerAt(a, b, i)
    ensures i > 0 ==> a[0] == b[0]
  {
    assert i > 0 ==> a[..i][0] == b[..i][0];
  }

  /** Less is the order of dictionaries: a proper prefix, or the lower byte where the two first differ. */
  lemma {:induction false} LessIff(a: Str, b: Str)
    ensures Less(a, b) <==> a < b || exists i :: LowerAt(a, b, i)
    decreases |a|
  {
    if a != [] && b != [] {
      if a[0] == b[0] {
        LessIff(a[1..], b[1..]);
        assert a == [a[0]] + a[1..] && b == [b[0]] + b[1..];
        if i :| LowerAt(a, b, i) {
          assert i > 0 && a[..i][0] == b[..i][0];
          assert a[1..][..i - 1] == a[..i][1..] && b[1..][..i - 1] == b[..i][1..];
          assert LowerAt(a[1..], b[1..], i - 1);
        }
        if i :| LowerAt(a[1..], b[1..], i) {
          assert a[..i + 1] == [a[0]] + a[1..][..i] && b[..i + 1] == [b[0]] + b[1..][..i];
          assert LowerAt(a, b, i + 1);
        }
      } else {
        forall i | LowerAt(a, b, i) ensures i == 0 { LowerLater(a, b, i); }
        if a[0] < b[0] { assert LowerAt(a, b, 0); }
      }
    }
  }

  lemma {:induction false} LessTotal(a: Str, b: Str)
    ensures a == b || Less(a, b) || Less(b, a)
    decreases |a|
  {
    if a != [] && b != [] && a[0] == b[0] {
      LessTotal(a[1..], b[1..]);
      assert a == [a[0]] + a[1..] && b == [b[0]] + b[1..];
    }
  }

  lemma {:induction false} LessIrreflexive(a: Str)
    ensures !Less(a, a)
    decreases |a|
  {
    if a != [] { LessIrreflexive(a[1..]); }
  }

  lemma {:induction false} LessTransitive(a: Str, b: Str, c: Str)
    requires Less(a, b) && Less(b, c)
    ensures Less(a, c)
    decreases |a|
  {
    if a != [] && a[0] == b[0] && b[0] == c[0] {
      LessTransitive(a[1..], b[1..], c[1..]);
    }
  }

  lemma LessAsymmetric(a: Str, b: Str)
    requires Less(a, b)
    ensures !Less(b, a) && a != b
  {
    LessIrreflexive(a);
    if Less(b, a) { LessTransitive(a, b, a); }
  }

  // ---------------------------------------------------------------- sorting a set of strings

  ghost predicate Ascending(s: seq<Str>) {
    forall i, j | 0 <= i < j < |s| :: Less(s[i], s[j])
  }

  ghost predicate IsLeast(a: Str, s: set<Str>) {
    a in s && forall b | b in s && b != a :: Less(a, b)
  }

  lemma {:induction false} LeastExists(s: set<Str>)
    requires s != {}
    ensures exists a :: IsLeast(a, s)
  {
    var a :| a in s;
    if s == {a} {
      assert IsLeast(a, s);
    } else {
      LeastExists(s - {a});
      var b :| IsLeast(b, s - {a});
      LessTotal(a, b);
      if Less(a, b) {
        forall c | c in s && c != a ensures Less(a, c) {
          if c != b { LessTransitive(a, b, c); }
        }
        assert IsLeast(a, s);
      } else {
        assert IsLeast(b, s);
      }
    }
  }

  /** The members of s in order: what sort.Strings makes of the keys of a map. */
  ghost function Sorted(s: set<Str>): (r: seq<Str>)
    ensures Ascending(r)
    ensures forall a :: a in r <==> a in s
    ensures |r| == |s|
  {
    if s == {} then [] else
      LeastExists(s);
      var a :| IsLeast(a, s);
      var rest := Sorted(s - {a});
      assert forall k | 0 <= k < |rest| :: rest[k] in rest;
      [a] + rest
  }

  /** Two ascending sequences of the same strings are the same sequence. */
  lemma {:induction false} AscendingUnique(r: seq<Str>, q: seq<Str>)
    requires Ascending(r) && Ascending(q) && forall a :: a in r <==> a in q
    ensures r == q
    decreases |r|
  {
    HasMember(r);
    HasMember(q);
    if r != [] {
      assert r[0] in q && q != [];
      AscendingHead(r, q);
      var r', q' := r[1..], q[1..];
      forall a ensures a in r' <==> a in q' {
        AscendingTail(r, a);
        AscendingTail(q, a);
      }
      AscendingUnique(r', q');
      assert r == [r[0]] + r' && q == [q[0]] + q';
    }
  }

  lemma HasMember(s: seq<Str>)
    ensures s != [] ==> exists a :: a in s
  {
    assert s != [] ==> s[0] in s;
  }

  lemma AscendingHead(r: seq<Str>, q: seq<Str>)
    requires Ascending(r) && Ascending(q) && r != [] && q != [] && r[0] in q && q[0] in r
    ensures r[0] == q[0]
  {
    var i :| 0 <= i < |q| && q[i] == r[0];
    var j :| 0 <= j < |r| && r[j] == q[0];
    assert i > 0 ==> Less(q[0], r[0]);
    assert j > 0 ==> Less(r[0], q[0]);
    if i > 0 {
      LessAsymmetric(q[0], r[0]);
    }
  }

  lemma AscendingTail(r: seq<Str>, a: Str)
    requires Ascending(r) && r != []
    ensures a in r[1..] <==> a in r && a != r[0]
  {
    LessIrreflexive(r[0]);
    if a in r && a != r[0] {
      var i :| 0 <= i < |r| && r[i] == a;
      assert r[1..][i - 1] == a;
    }
  }

  function Place(a: Str, s: seq<Str>): seq<Str>
    decreases |s|
  {
    if s == [] || Less(a, s[0]) then [a] + s else [s[0]] + Place(a, s[1..])
  }

  lemma {:induction false} PlaceKeepsOrder(a: Str, s: seq<Str>)
    requires Ascending(s) && a !in s
    ensures Ascending(Place(a, s)) && forall b :: b in Place(a, s) <==> b == a || b in s
    decreases |s|
  {
    if s != [] {
      assert forall b :: b in s <==> b == s[0] || b in s[1..];
      LessTotal(a, s[0]);
      if Less(a, s[0]) {
        forall k | 0 <= k < |s| ensures Less(a, s[k]) {
          if k > 0 { LessTransitive(a, s[0], s[k]); }
        }
      } else {
        PlaceKeepsOrder(a, s[1..]);
        var r := Place(a, s[1..]);
        forall k | 0 <= k < |r| ensures Less(s[0], r[k]) {
          assert r[k] in r;
        }
      }
    }
  }

  /** The keys of a map, collected in whatever order the map gives them and then sorted. */
  method SortedKeys<T>(m: map<Str, T>) returns (keys: seq<Str>)
    ensures keys == Sorted(m.Keys)
  {
    hide Ascending;
    keys := SortInto(m.Keys, [], {});
    assert {} + m.Keys == m.Keys;
  }

  /** The keys in either map, sorted, once each. */
  method SortedUnion<T>(l: map<Str, T>, r: map<Str, T>) returns (names: seq<Str>)
    ensures names == Sorted(l.Keys + r.Keys)
  {
    hide Sorted, Ascending;
    names := SortedKeys(l);
    names := SortInto(r.Keys - l.Keys, names, l.Keys);
    assert l.Keys + (r.Keys - l.Keys) == l.Keys + r.Keys;
  }

  method SortInto(s: set<Str>, start: seq<Str>, ghost had: set<Str>) returns (names: seq<Str>)
    requires start == Sorted(had) && s !! had
    ensures names == Sorted(had + s)
  {
    names := start;
    var todo := s;
    while todo != {}
      invariant todo <= s
      invariant Ascending(names) && forall k :: k in names <==> k in had + (s - todo)
      decreases todo
    {
      var k :| k in todo;
      PlaceKeepsOrder(k, names);
      names := Place(k, names);
      todo := todo - {k};
    }
    AscendingUnique(names, Sorted(had + s));
  }
}
