/** The cache of assembled comparisons: a small LRU in which each key is assembled once at a time. */
module ComparisonCache {
  import opened Options
  import opened Diff

  /** A pair of images at a pair of layer points. */
  datatype Key = Key(left: nat, right: nat, leftLayers: nat, rightLayers: nat)

  datatype Comparison = Comparison(key: Key, root: DiffNode)

  // ---------------------------------------------------------------- the list of entries

  function KeysOf(entries: seq<Comparison>): (r: seq<Key>)
    ensures |r| == |entries| && forall i | 0 <= i < |r| :: r[i] == entries[i].key
  {
    seq(|entries|, i requires 0 <= i < |entries| => entries[i].key)
  }

  ghost predicate Distinct<T>(s: seq<T>) {
    forall i, j | 0 <= i < j < |s| :: s[i] != s[j]
  }

  /** The place of a key, or the length. */
  function Find(entries: seq<Comparison>, key: Key): (i: nat)
    ensures i <= |entries|
    ensures i < |entries| ==> entries[i].key == key
    ensures forall j | 0 <= j < i :: entries[j].key != key
  {
    if entries == [] || entries[0].key == key then 0 else 1 + Find(entries[1..], key)
  }

  function ToFront(entries: seq<Comparison>, i: nat): seq<Comparison>
    requires i < |entries|
  {
    [entries[i]] + entries[..i] + entries[i + 1..]
  }

  /** What a lookup leaves: the found entry first, the others in order. */
  function Promoted(entries: seq<Comparison>, key: Key): seq<Comparison> {
    var i := Find(entries, key);
    if i < |entries| then ToFront(entries, i) else entries
  }

  function Inserted(entries: seq<Comparison>, cmp: Comparison, capacity: nat): seq<Comparison> {
    if Find(entries, cmp.key) < |entries| then Promoted(entries, cmp.key) else
      var all := [cmp] + entries;
      if |all| > capacity then all[..capacity] else all
  }

  class Cache {
    const capacity: nat
    var entries: seq<Comparison>

    constructor (capacity: nat)
      ensures this.capacity == capacity && entries == []
    {
      this.capacity := capacity;
      entries := [];
    }

    /** The cached comparison, promoted to most recent. */
    method LookupLocked(key: Key) returns (cmp: Option<Comparison>)
      modifies this
      ensures entries == Promoted(old(entries), key)
      ensures cmp == (var i := Find(old(entries), key); if i < |old(entries)| then Some(old(entries)[i]) else None)
    {
      var i := 0;
      while i < |entries|
        invariant 0 <= i <= |entries| && entries == old(entries)
        invariant Find(entries, key) >= i
      {
        var e := entries[i];
        if e.key == key {
          FindIs(entries, key, i);
          var k := i;
          while k > 0
            invariant 0 <= k <= i && |entries| == |old(entries)|
            invariant forall j | 0 <= j < k || i < j < |entries| :: entries[j] == old(entries)[j]
            invariant forall j | k < j <= i :: entries[j] == old(entries)[j - 1]
          {
            entries := entries[k := entries[k - 1]];
            k := k - 1;
          }
          entries := entries[0 := e];
          assert entries == ToFront(old(entries), i);
          return Some(e);
        }
        FindPast(entries, key, i);
        i := i + 1;
      }
      return None;
    }

    method InsertLocked(cmp: Comparison)
      modifies this
      ensures entries == Inserted(old(entries), cmp, capacity)
    {
      var existing := LookupLocked(cmp.key);
      if existing.Some? {
        return;
      }
      entries := [cmp] + entries;
      if |entries| > capacity {
        entries := entries[..capacity];
      }
    }
  }

  lemma FindIs(entries: seq<Comparison>, key: Key, i: nat)
    requires i < |entries| && entries[i].key == key && Find(entries, key) >= i
    ensures Find(entries, key) == i
  {
  }

  lemma FindPast(entries: seq<Comparison>, key: Key, i: nat)
    requires i < |entries| && entries[i].key != key && Find(entries, key) >= i
    ensures Find(entries, key) >= i + 1
  {
  }

  // ---------------------------------------------------------------- recency

  /** All keys ever used, most recent first, each once. */
  function Without(s: seq<Key>, k: Key): (r: seq<Key>)
    ensures forall x :: x in r <==> x in s && x != k
    ensures |r| <= |s| && (k !in s ==> r == s)
  {
    if s == [] then [] else if s[0] == k then Without(s[1..], k) else [s[0]] + Without(s[1..], k)
  }

  function Used(s: seq<Key>, k: Key): seq<Key> {
    [k] + Without(s, k)
  }

  function Recency(history: seq<Key>): seq<Key> {
    if history == [] then [] else Used(Recency(history[..|history| - 1]), history[|history| - 1])
  }

  function Take<T>(s: seq<T>, n: nat): seq<T> {
    if |s| <= n then s else s[..n]
  }

  lemma {:induction false} WithoutDistinct(s: seq<Key>, k: Key)
    requires Distinct(s)
    ensures Distinct(Without(s, k))
    decreases |s|
  {
    if s != [] {
      WithoutDistinct(s[1..], k);
      assert forall i | 0 <= i < |s[1..]| :: s[1..][i] == s[i + 1];
      assert s[0] !in s[1..];
      assert s[0] !in Without(s[1..], k);
    }
  }

  lemma {:induction false} RecencyDistinct(history: seq<Key>)
    ensures Distinct(Recency(history))
    decreases |history|
  {
    if history != [] {
      var s, k := Recency(history[..|history| - 1]), history[|history| - 1];
      RecencyDistinct(history[..|history| - 1]);
      WithoutDistinct(s, k);
      assert k !in Without(s, k);
    }
  }

  lemma {:induction false} WithoutAt(s: seq<Key>, i: nat)
    requires Distinct(s) && i < |s|
    ensures Without(s, s[i]) == s[..i] + s[i + 1..]
    decreases |s|
  {
    if i == 0 {
      assert s[0] !in s[1..];
    } else {
      assert s[1..][i - 1] == s[i];
      WithoutAt(s[1..], i - 1);
      assert [s[0]] + s[1..][..i - 1] == s[..i];
    }
  }

  /** The first n keys stay the most recent n when one of them is used. */
  lemma TakeUsed(s: seq<Key>, n: nat, i: nat)
    requires Distinct(s) && i < |s| && i < n
    ensures var t := Take(s, n); Take(Used(s, s[i]), n) == [t[i]] + t[..i] + t[i + 1..]
  {
    WithoutAt(s, i);
    var u := Used(s, s[i]);
    assert u == [s[i]] + (s[..i] + s[i + 1..]);
    var t := Take(s, n);
    assert Take(u, n) == [t[i]] + t[..i] + t[i + 1..];
  }

  /** Using a key that is not among the first n pushes the last of them out. */
  lemma TakeNew(s: seq<Key>, n: nat, k: Key)
    requires Distinct(s) && k !in Take(s, n)
    ensures Take(Used(s, k), n) == Take([k] + Take(s, n), n)
  {
    if k in s {
      var i :| 0 <= i < |s| && s[i] == k;
      assert i >= n;
      WithoutAt(s, i);
    }
  }
}
