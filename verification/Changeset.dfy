/** The byte stream a changeset digest hashes, and why it identifies the changeset. */
module Changeset {
  import opened ByteStrings
  import opened Entries

  const TWO_63 := 0x8000_0000_0000_0000
  const TWO_64 := 0x1_0000_0000_0000_0000

  // ---------------------------------------------------------------- writing

  /** The low k bytes of v, most significant first. */
  function BigEndian(v: nat, k: nat): (r: Str)
    ensures |r| == k
  {
    if k == 0 then [] else BigEndian(v / 256, k - 1) + [(v % 256) as byte]
  }

  /** Each Put writes one value in front of what follows it. */
  function PutUint(v: nat, rest: Str): Str {
    BigEndian(v, 8) + rest
  }

  /** A signed value is written as its two's complement. */
  function PutInt(v: Int64, rest: Str): Str {
    PutUint(if v < 0 then v + TWO_64 else v, rest)
  }

  function PutStr(s: Str, rest: Str): Str {
    PutUint(|s|, s + rest)
  }

  function PutPairs(keys: seq<Str>, m: map<Str, Str>, rest: Str): Str
    requires forall k | k in keys :: k in m
    decreases |keys|
  {
    if keys == [] then rest else PutStr(keys[0], PutStr(m[keys[0]], PutPairs(keys[1..], m, rest)))
  }

  ghost function PutXattrs(m: map<Str, Str>, rest: Str): Str {
    PutUint(|m|, PutPairs(Sorted(m.Keys), m, rest))
  }

  ghost function PutFields(path: Str, f: Fields, rest: Str): Str {
    PutStr(path, PutUint(f.kind.Rank(), PutUint(f.mode, PutInt(f.uid, PutInt(f.gid, PutStr(f.uname, PutStr(f.gname,
      PutInt(f.size, PutStr(f.link,
          PutInt(f.devmajor, PutInt(f.devminor, PutXattrs(f.xattrs, PutStr(f.sha, rest)))))))))))))
  }

  /** What the stream records of one entry. */
  type Row = (Str, Fields)

  function RowOf(e: Entry): Row {
    (e.path, FieldsOf(e.meta))
  }

  function RowsOf(es: seq<Entry>): (r: seq<Row>)
    ensures |r| == |es| && forall i | 0 <= i < |es| :: r[i] == RowOf(es[i])
  {
    seq(|es|, i requires 0 <= i < |es| => RowOf(es[i]))
  }

  ghost function PutRows(rows: seq<Row>, rest: Str): Str
    decreases |rows|
  {
    if rows == [] then rest else PutFields(rows[0].0, rows[0].1, PutRows(rows[1..], rest))
  }

  // ---------------------------------------------------------------- order

  predicate KeyLess(a: Entry, b: Entry) {
    Less(a.path, b.path) || (a.path == b.path && a.meta.kind.Rank() < b.meta.kind.Rank())
  }

  function Insert(e: Entry, es: seq<Entry>): (r: seq<Entry>)
    ensures multiset(r) == multiset(es) + multiset{e}
    decreases |es|
  {
    if es == [] || !KeyLess(es[0], e) then [e] + es else
      assert es == [es[0]] + es[1..];
      [es[0]] + Insert(e, es[1..])
  }

  /** Sorted by path and then kind; entries equal in both keep their order. */
  function SortEntries(es: seq<Entry>): (r: seq<Entry>)
    ensures multiset(r) == multiset(es)
    decreases |es|
  {
    if es == [] then [] else
      assert es == [es[0]] + es[1..];
      Insert(es[0], SortEntries(es[1..]))
  }

  /** The hashed stream of a changeset. */
  ghost function Stream(version: byte, es: seq<Entry>): Str {
    [version] + PutUint(|es|, PutRows(RowsOf(SortEntries(es)), []))
  }

  // ---------------------------------------------------------------- the hash state

  /** was + p + x, regrouped. */
  ghost function Grown(was: Str, p: Str, x: Str): (r: Str)
    ensures r == p + x && was + r == was + p + x
  {
    p + x
  }

  class Hash {
    var written: Str

    constructor ()
      ensures written == []
    {
      written := [];
    }

    method WriteUint(v: nat)
      modifies this
      ensures written == old(written) + PutUint(v, [])
    {
      written := written + BigEndian(v, 8);
    }

    method WriteInt(v: Int64)
      modifies this
      ensures written == old(written) + PutInt(v, [])
    {
      WriteUint(if v < 0 then v + TWO_64 else v);
    }

    method WriteStr(s: Str)
      modifies this
      ensures written == old(written) + PutStr(s, [])
    {
      WriteUint(|s|);
      written := written + s;
      PutUintThen(|s|, s);
    }

    method WriteFields(path: Str, f: Fields)
      modifies this
      ensures written == old(written) + PutFields(path, f, [])
    {
      hide PutUint, PutInt, PutStr, PutXattrs, PutFields;
      ghost var was := written;
      WriteStr(path);             ghost var p := PutStr(path, []);
      WriteUint(f.kind.Rank());   p := Grown(was, p, PutUint(f.kind.Rank(), []));
      WriteUint(f.mode);          p := Grown(was, p, PutUint(f.mode, []));
      WriteInt(f.uid);            p := Grown(was, p, PutInt(f.uid, []));
      WriteInt(f.gid);            p := Grown(was, p, PutInt(f.gid, []));
      WriteStr(f.uname);          p := Grown(was, p, PutStr(f.uname, []));
      WriteStr(f.gname);          p := Grown(was, p, PutStr(f.gname, []));
      WriteInt(f.size);           p := Grown(was, p, PutInt(f.size, []));
      WriteStr(f.link);           p := Grown(was, p, PutStr(f.link, []));
      WriteInt(f.devmajor);       p := Grown(was, p, PutInt(f.devmajor, []));
      WriteInt(f.devminor);       p := Grown(was, p, PutInt(f.devminor, []));
      WriteXattrs(f.xattrs);      p := Grown(was, p, PutXattrs(f.xattrs, []));
      WriteStr(f.sha);            p := Grown(was, p, PutStr(f.sha, []));
      PutFieldsIs(path, f);
    }

    method WriteXattrs(m: map<Str, Str>)
      modifies this
      ensures written == old(written) + PutXattrs(m, [])
    {
      hide PutUint, PutPairs;
      var keys := SortedKeys(m);
      WriteUint(|keys|);
      WritePairs(keys, m);
      PutUintThen(|keys|, PutPairs(keys, m, []));
    }

    method WritePairs(keys: seq<Str>, m: map<Str, Str>)
      requires forall k | k in keys :: k in m
      modifies this
      ensures written == old(written) + PutPairs(keys, m, [])
    {
      hide PutStr;
      ghost var was := written;
      ghost var p: Str := [];
      var i := 0;
      while i < |keys|
        invariant 0 <= i <= |keys|
        invariant written == was + p && PutPairs(keys, m, []) == p + PutPairs(keys[i..], m, [])
      {
        ghost var k, tail := keys[i], PutPairs(keys[i..][1..], m, []);
        PutStrThen(k, PutStr(m[k], tail));
        PutStrThen(m[k], tail);
        WriteStr(keys[i]);
        WriteStr(m[keys[i]]);
        ghost var q := Grown(was, p, PutStr(k, []));
        Regroup(p, PutStr(k, []), PutStr(m[k], []), tail);
        p := Grown(was, q, PutStr(m[k], []));
        i := i + 1;
        assert keys[i..] == keys[i - 1..][1..];
      }
      assert keys[i..] == [] && p + [] == p;
    }

    method WriteEntries(es: seq<Entry>)
      modifies this
      ensures written == old(written) + PutRows(RowsOf(es), [])
    {
      hide PutFields, RowOf;
      ghost var was, rows := written, RowsOf(es);
      ghost var p: Str := [];
      var i := 0;
      while i < |es|
        invariant 0 <= i <= |es|
        invariant written == was + p && PutRows(rows, []) == p + PutRows(rows[i..], [])
      {
        ghost var tail := PutRows(rows[i..][1..], []);
        PutFieldsThen(rows[i].0, rows[i].1, tail);
        RowIs(es[i]);
        WriteFields(es[i].path, FieldsOf(es[i].meta));
        p := Grown(was, p, PutFields(rows[i].0, rows[i].1, []));
        i := i + 1;
        assert rows[i..] == rows[i - 1..][1..];
      }
      assert rows[i..] == [] && p + [] == p;
    }
  }

  lemma RowIs(e: Entry)
    ensures RowOf(e) == (e.path, FieldsOf(e.meta))
  {
  }

  lemma Regroup(a: Str, b: Str, c: Str, d: Str)
    ensures a + (b + (c + d)) == a + b + c + d
  {
  }

  /** The digest: sha is the hash function, of which nothing is assumed. */
  method ChangesetDigest(version: byte, es: seq<Entry>, sha: Str -> Str) returns (digest: Str)
    ensures digest == sha(Stream(version, es))
  {
    hide PutUint, PutRows;
    var h := new Hash();
    h.written := [version];
    h.WriteUint(|es|);
    var ordered := SortEntries(es);
    h.WriteEntries(ordered);
    PutUintThen(|es|, PutRows(RowsOf(ordered), []));
    assert h.written == Stream(version, es);
    digest := sha(h.written);
  }

  lemma PutUintThen(v: nat, rest: Str)
    ensures PutUint(v, rest) == PutUint(v, []) + rest
  {
  }

  lemma PutIntThen(v: Int64, rest: Str)
    ensures PutInt(v, rest) == PutInt(v, []) + rest
  {
  }

  lemma PutStrThen(s: Str, rest: Str)
    ensures PutStr(s, rest) == PutStr(s, []) + rest
  {
  }

  lemma {:induction false} PutPairsThen(keys: seq<Str>, m: map<Str, Str>, rest: Str)
    requires forall k | k in keys :: k in m
    ensures PutPairs(keys, m, rest) == PutPairs(keys, m, []) + rest
    decreases |keys|
  {
    if keys != [] {
      var tail, tail' := PutPairs(keys[1..], m, rest), PutPairs(keys[1..], m, []);
      PutPairsThen(keys[1..], m, rest);
      PutStrThen(m[keys[0]], tail);
      PutStrThen(m[keys[0]], tail');
      PutStrThen(keys[0], PutStr(m[keys[0]], tail));
      PutStrThen(keys[0], PutStr(m[keys[0]], tail'));
    }
  }

  lemma PutXattrsThen(m: map<Str, Str>, rest: Str)
    ensures PutXattrs(m, rest) == PutXattrs(m, []) + rest
  {
    PutPairsThen(Sorted(m.Keys), m, rest);
    PutUintThen(|m|, PutPairs(Sorted(m.Keys), m, rest));
    PutUintThen(|m|, PutPairs(Sorted(m.Keys), m, []));
  }

  /** The fields before the extended attributes, as bytes. */
  ghost function Head(path: Str, f: Fields): Str {
    PutStr(path, []) + PutUint(f.kind.Rank(), []) + PutUint(f.mode, []) + PutInt(f.uid, []) + PutInt(f.gid, [])
    + PutStr(f.uname, []) + PutStr(f.gname, []) + PutInt(f.size, []) + PutStr(f.link, [])
    + PutInt(f.devmajor, []) + PutInt(f.devminor, [])
  }

  lemma PutHead(path: Str, f: Fields, rest: Str)
    ensures PutFields(path, f, rest) == Head(path, f) + PutXattrs(f.xattrs, PutStr(f.sha, rest))
  {
    hide PutUint, PutInt, PutStr, PutXattrs;
    var r0 := PutXattrs(f.xattrs, PutStr(f.sha, rest));
    var r1 := PutInt(f.devminor, r0);   PutIntThen(f.devminor, r0);
    var r2 := PutInt(f.devmajor, r1);   PutIntThen(f.devmajor, r1);
    var r3 := PutStr(f.link, r2);       PutStrThen(f.link, r2);
    var r4 := PutInt(f.size, r3);       PutIntThen(f.size, r3);
    var r5 := PutStr(f.gname, r4);      PutStrThen(f.gname, r4);
    var r6 := PutStr(f.uname, r5);      PutStrThen(f.uname, r5);
    var r7 := PutInt(f.gid, r6);        PutIntThen(f.gid, r6);
    var r8 := PutInt(f.uid, r7);        PutIntThen(f.uid, r7);
    var r9 := PutUint(f.mode, r8);      PutUintThen(f.mode, r8);
    var r10 := PutUint(f.kind.Rank(), r9); PutUintThen(f.kind.Rank(), r9);
    PutStrThen(path, r10);
    assert PutFields(path, f, rest) == Head(path, f) + r0;
  }

  lemma PutFieldsIs(path: Str, f: Fields)
    ensures PutFields(path, f, []) == Head(path, f) + PutXattrs(f.xattrs, []) + PutStr(f.sha, [])
  {
    PutHead(path, f, []);
    PutXattrsThen(f.xattrs, PutStr(f.sha, []));
  }

  lemma PutFieldsThen(path: Str, f: Fields, rest: Str)
    ensures PutFields(path, f, rest) == PutFields(path, f, []) + rest
  {
    hide PutUint, PutInt, PutStr, PutXattrs, Head, PutFields;
    PutHead(path, f, rest);
    PutFieldsIs(path, f);
    PutXattrsThen(f.xattrs, PutStr(f.sha, rest));
    PutStrThen(f.sha, rest);
  }

  // ---------------------------------------------------------------- reading the stream back

  /** A value read off the front of the stream, and what is left of it. */
  datatype Got<T> = Got(value: T, rest: Str) | Bad {
    predicate IsFailure() {
      Bad?
    }

    function PropagateFailure<U>(): Got<U>
      requires IsFailure()
    {
      Bad
    }

    function Extract(): (T, Str)
      requires !IsFailure()
    {
      (value, rest)
    }
  }

  function Value(s: Str): nat
    decreases |s|
  {
    if s == [] then 0 else Value(s[..|s| - 1]) * 256 + s[|s| - 1] as nat
  }

  function ReadUint(s: Str): Got<nat> {
    if |s| < 8 then Bad else Got(Value(s[..8]), s[8..])
  }

  function ReadInt(s: Str): Got<Int64> {
    var (v, rest) :- ReadUint(s);
    if v < TWO_63 then Got(v, rest) else if v < TWO_64 then Got(v - TWO_64, rest) else Bad
  }

  function ReadStr(s: Str): Got<Str> {
    var (n, rest) :- ReadUint(s);
    if n <= |rest| then Got(rest[..n], rest[n..]) else Bad
  }

  function ReadPairs(n: nat, s: Str): Got<map<Str, Str>> {
    if n == 0 then Got(map[], s) else
      var (k, r0) :- ReadStr(s);
      var (v, r1) :- ReadStr(r0);
      var (m, r2) :- ReadPairs(n - 1, r1);
      Got(m[k := v], r2)
  }

  function ReadXattrs(s: Str): Got<map<Str, Str>> {
    var (n, rest) :- ReadUint(s);
    ReadPairs(n, rest)
  }

  function KindOf(rank: nat): Kind {
    match rank
    case 0 => File
    case 1 => Dir
    case 2 => Symlink
    case 3 => Hardlink
    case 4 => Device
    case 5 => Fifo
    case 6 => Whiteout
    case _ => Opaque
  }

  function ReadRow(s: Str): Got<Row> {
    var (path, r0) :- ReadStr(s);
    var (kind, r1) :- ReadUint(r0);
    var (mode, r2) :- ReadUint(r1);
    var (uid, r3) :- ReadInt(r2);
    var (gid, r4) :- ReadInt(r3);
    var (uname, r5) :- ReadStr(r4);
    var (gname, r6) :- ReadStr(r5);
    var (size, r7) :- ReadInt(r6);
    var (link, r8) :- ReadStr(r7);
    var (devmajor, r9) :- ReadInt(r8);
    var (devminor, r10) :- ReadInt(r9);
    var (xattrs, r11) :- ReadXattrs(r10);
    var (sha, r12) :- ReadStr(r11);
    Got((path, Fields(KindOf(kind), mode, uid, gid, uname, gname, size, link, devmajor, devminor, xattrs, sha)), r12)
  }

  function ReadRows(n: nat, s: Str): Got<seq<Row>> {
    if n == 0 then Got([], s) else
      var (row, r0) :- ReadRow(s);
      var (rows, r1) :- ReadRows(n - 1, r0);
      Got([row] + rows, r1)
  }

  /** The version and the rows a stream was written from. */
  function ReadStream(s: Str): Got<(byte, seq<Row>)> {
    if s == [] then Bad else
      var (n, r0) :- ReadUint(s[1..]);
      var (rows, r1) :- ReadRows(n, r0);
      Got((s[0], rows), r1)
  }

  // ---------------------------------------------------------------- round trips

  /** Lengths of strings and maps are values of Go's int. */
  predicate FitsStr(s: Str) {
    |s| < TWO_63
  }

  predicate FitsMap(m: map<Str, Str>) {
    |m| < TWO_63 && forall k | k in m :: FitsStr(k) && FitsStr(m[k])
  }

  predicate FitsRow(r: Row) {
    && FitsStr(r.0) && r.1.mode < TWO_64 && FitsStr(r.1.uname) && FitsStr(r.1.gname) && FitsStr(r.1.link)
    && FitsMap(r.1.xattrs) && FitsStr(r.1.sha)
  }

  predicate FitsEntries(es: seq<Entry>) {
    |es| < TWO_63 && forall e | e in es :: FitsRow(RowOf(e))
  }

  function Bound(k: nat): nat {
    if k == 0 then 1 else 256 * Bound(k - 1)
  }

  lemma {:induction false} BigEndianValue(v: nat, k: nat)
    requires v < Bound(k)
    ensures Value(BigEndian(v, k)) == v
  {
    if k > 0 {
      BigEndianValue(v / 256, k - 1);
      var s := BigEndian(v, k);
      assert s[..|s| - 1] == BigEndian(v / 256, k - 1);
    }
  }

  lemma EightBytes()
    ensures Bound(8) == TWO_64
  {
  }

  lemma UintBack(v: nat, rest: Str)
    requires v < TWO_64
    ensures ReadUint(PutUint(v, rest)) == Got(v, rest)
  {
    EightBytes();
    BigEndianValue(v, 8);
    assert PutUint(v, rest)[..8] == BigEndian(v, 8) && PutUint(v, rest)[8..] == rest;
  }

  lemma IntBack(v: Int64, rest: Str)
    ensures ReadInt(PutInt(v, rest)) == Got(v, rest)
  {
    UintBack(if v < 0 then v + TWO_64 else v, rest);
  }

  lemma StrBack(s: Str, rest: Str)
    requires FitsStr(s)
    ensures ReadStr(PutStr(s, rest)) == Got(s, rest)
  {
    UintBack(|s|, s + rest);
    assert (s + rest)[..|s|] == s && (s + rest)[|s|..] == rest;
  }

  ghost function Part(m: map<Str, Str>, keys: seq<Str>): map<Str, Str> {
    map k | k in keys && k in m :: m[k]
  }

  lemma {:induction false} PairsBack(keys: seq<Str>, m: map<Str, Str>, rest: Str)
    requires forall k | k in keys :: k in m && FitsStr(k) && FitsStr(m[k])
    ensures ReadPairs(|keys|, PutPairs(keys, m, rest)) == Got(Part(m, keys), rest)
    decreases |keys|
  {
    hide PutStr, ReadStr, FitsStr;
    if keys == [] {
      assert Part(m, keys) == map[];
    } else {
      var k, tail := keys[0], PutPairs(keys[1..], m, rest);
      assert k in keys;
      StrBack(k, PutStr(m[k], tail));
      StrBack(m[k], tail);
      PairsBack(keys[1..], m, rest);
      assert keys == [k] + keys[1..];
      assert Part(m, keys) == Part(m, keys[1..])[k := m[k]];
    }
  }

  lemma XattrsBack(m: map<Str, Str>, rest: Str)
    requires FitsMap(m)
    ensures ReadXattrs(PutXattrs(m, rest)) == Got(m, rest)
  {
    hide PutUint, ReadUint, PutPairs, ReadPairs;
    var keys := Sorted(m.Keys);
    UintBack(|m|, PutPairs(keys, m, rest));
    PairsBack(keys, m, rest);
    assert Part(m, keys) == m;
  }

  lemma RowBack(row: Row, rest: Str)
    requires FitsRow(row)
    ensures ReadRow(PutFields(row.0, row.1, rest)) == Got(row, rest)
  {
    hide PutUint, ReadUint, PutInt, ReadInt, PutStr, ReadStr, PutXattrs, ReadXattrs, FitsStr, FitsMap;
    var f := row.1;
    var r12 := PutStr(f.sha, rest);        StrBack(f.sha, rest);
    var r11 := PutXattrs(f.xattrs, r12);   XattrsBack(f.xattrs, r12);
    var r10 := PutInt(f.devminor, r11);    IntBack(f.devminor, r11);
    var r9 := PutInt(f.devmajor, r10);     IntBack(f.devmajor, r10);
    var r8 := PutStr(f.link, r9);          StrBack(f.link, r9);
    var r7 := PutInt(f.size, r8);          IntBack(f.size, r8);
    var r6 := PutStr(f.gname, r7);         StrBack(f.gname, r7);
    var r5 := PutStr(f.uname, r6);         StrBack(f.uname, r6);
    var r4 := PutInt(f.gid, r5);           IntBack(f.gid, r5);
    var r3 := PutInt(f.uid, r4);           IntBack(f.uid, r4);
    var r2 := PutUint(f.mode, r3);         UintBack(f.mode, r3);
    var r1 := PutUint(f.kind.Rank(), r2);  UintBack(f.kind.Rank(), r2);
    StrBack(row.0, r1);
  }

  lemma {:induction false} RowsBack(rows: seq<Row>, rest: Str)
    requires forall r | r in rows :: FitsRow(r)
    ensures ReadRows(|rows|, PutRows(rows, rest)) == Got(rows, rest)
    decreases |rows|
  {
    hide PutFields, ReadRow, FitsRow;
    if rows != [] {
      assert rows[0] in rows && forall r | r in rows[1..] :: r in rows;
      RowBack(rows[0], PutRows(rows[1..], rest));
      RowsBack(rows[1..], rest);
      assert rows == [rows[0]] + rows[1..];
    }
  }

  /** The hashed stream gives back its version and its sorted rows, with nothing left over. */
  lemma StreamBack(version: byte, es: seq<Entry>)
    requires FitsEntries(es)
    ensures ReadStream(Stream(version, es)) == Got((version, RowsOf(SortEntries(es))), [])
  {
    hide PutUint, ReadUint, PutRows, ReadRows, FitsRow;
    var ordered := SortEntries(es);
    SameEntries(ordered, es);
    var rows := RowsOf(ordered);
    forall r | r in rows ensures FitsRow(r) {
      var i :| 0 <= i < |rows| && rows[i] == r;
      assert ordered[i] in ordered;
    }
    UintBack(|es|, PutRows(rows, []));
    RowsBack(rows, []);
    assert Stream(version, es)[1..] == PutUint(|es|, PutRows(rows, []));
  }

  lemma SameEntries(a: seq<Entry>, b: seq<Entry>)
    requires multiset(a) == multiset(b)
    ensures |a| == |b| && forall e :: e in a <==> e in b
  {
    assert |multiset(a)| == |a| && |multiset(b)| == |b|;
    assert forall e :: e in a <==> e in multiset(a);
    assert forall e :: e in b <==> e in multiset(b);
  }

  // ---------------------------------------------------------------- what the stream identifies

  predicate RowLess(a: Row, b: Row) {
    Less(a.0, b.0) || (a.0 == b.0 && a.1.kind.Rank() < b.1.kind.Rank())
  }

  ghost predicate RowsAscending(rows: seq<Row>) {
    forall i, j | 0 <= i < j < |rows| :: RowLess(rows[i], rows[j])
  }

  /** No two entries share both path and kind. */
  ghost predicate DistinctKeys(es: seq<Entry>) {
    forall i, j | 0 <= i < j < |es| :: es[i].path != es[j].path || es[i].meta.kind != es[j].meta.kind
  }

  lemma RowLessOrder(a: Row, b: Row)
    ensures (a.0 == b.0 && a.1.kind == b.1.kind) || RowLess(a, b) || RowLess(b, a)
    ensures RowLess(a, b) ==> !RowLess(b, a) && a != b
  {
    LessTotal(a.0, b.0);
    LessIrreflexive(a.0);
    if Less(a.0, b.0) { LessAsymmetric(a.0, b.0); }
  }

  lemma RowLessTransitive(a: Row, b: Row, c: Row)
    requires RowLess(a, b) && RowLess(b, c)
    ensures RowLess(a, c)
  {
    if Less(a.0, b.0) && Less(b.0, c.0) { LessTransitive(a.0, b.0, c.0); }
  }

  lemma {:induction false} InsertAscends(e: Entry, es: seq<Entry>)
    requires RowsAscending(RowsOf(es))
    requires forall x | x in es :: x.path != e.path || x.meta.kind != e.meta.kind
    ensures RowsAscending(RowsOf(Insert(e, es)))
    decreases |es|
  {
    hide RowLess, FieldsOf;
    if es != [] {
      KeyIsRowOrder(es[0], e);
      RowLessOrder(RowOf(es[0]), RowOf(e));
      KindKept(e);
      assert es[0] in es;
      KindKept(es[0]);
      var rows := RowsOf(es);
      if KeyLess(es[0], e) {
        assert RowsOf(es[1..]) == rows[1..];
        assert forall x | x in es[1..] :: x in es;
        InsertAscends(e, es[1..]);
        var r := Insert(e, es[1..]);
        forall k | 0 <= k < |r| ensures RowLess(RowOf(es[0]), RowOf(r[k])) {
          InsertedMember(e, es[1..], r[k]);
          if r[k] != e { HeadIsLeast(es, r[k]); }
        }
      } else {
        forall k | 0 <= k < |es| ensures RowLess(RowOf(e), rows[k]) {
          if k > 0 { RowLessTransitive(RowOf(e), rows[0], rows[k]); }
        }
      }
    }
  }

  lemma InsertedMember(e: Entry, es: seq<Entry>, x: Entry)
    requires x in Insert(e, es)
    ensures x == e || x in es
  {
    assert x in multiset(Insert(e, es));
  }

  lemma HeadIsLeast(es: seq<Entry>, x: Entry)
    requires es != [] && RowsAscending(RowsOf(es)) && x in es[1..]
    ensures RowLess(RowOf(es[0]), RowOf(x))
  {
  }

  lemma KeyIsRowOrder(a: Entry, b: Entry)
    ensures KeyLess(a, b) <==> RowLess(RowOf(a), RowOf(b))
  {
  }

  lemma KindKept(e: Entry)
    ensures RowOf(e).0 == e.path && RowOf(e).1.kind == e.meta.kind
  {
  }

  /** With distinct keys the sorted rows are strictly ascending. */
  lemma {:induction false} SortAscends(es: seq<Entry>)
    requires DistinctKeys(es)
    ensures RowsAscending(RowsOf(SortEntries(es)))
    decreases |es|
  {
    if es != [] {
      SortAscends(es[1..]);
      SameEntries(SortEntries(es[1..]), es[1..]);
      forall x | x in es[1..] ensures x.path != es[0].path || x.meta.kind != es[0].meta.kind {
        var j :| 0 <= j < |es[1..]| && es[1..][j] == x;
        assert es[j + 1] == x;
      }
      InsertAscends(es[0], SortEntries(es[1..]));
    }
  }

  /** Two strictly ascending sequences of the same rows are one. */
  lemma {:induction false} RowsUnique(r: seq<Row>, q: seq<Row>)
    requires RowsAscending(r) && RowsAscending(q) && forall x :: x in r <==> x in q
    ensures r == q
    decreases |r|
  {
    hide RowLess;
    RowHead(r, q);
    if r != [] && q != [] {
      var r', q' := r[1..], q[1..];
      forall x ensures x in r' <==> x in q' {
        RowTail(r, x);
        RowTail(q, x);
      }
      RowsUnique(r', q');
      assert r == [r[0]] + r' && q == [q[0]] + q';
    }
  }

  lemma RowHead(r: seq<Row>, q: seq<Row>)
    requires RowsAscending(r) && RowsAscending(q) && forall x :: x in r <==> x in q
    ensures r == [] <==> q == []
    ensures r != [] && q != [] ==> r[0] == q[0]
  {
    hide RowLess;
    assert r != [] ==> r[0] in r;
    assert q != [] ==> q[0] in q;
    if r != [] && q != [] {
      var i :| 0 <= i < |q| && q[i] == r[0];
      var j :| 0 <= j < |r| && r[j] == q[0];
      RowLessOrder(q[0], r[0]);
    }
  }

  lemma RowTail(r: seq<Row>, x: Row)
    requires RowsAscending(r) && r != []
    ensures x in r[1..] <==> x in r && x != r[0]
  {
    hide RowLess;
    if x in r && x != r[0] {
      var i :| 0 <= i < |r| && r[i] == x;
      assert r[1..][i - 1] == x;
    } else if x in r[1..] {
      var i :| 0 <= i < |r[1..]| && r[1..][i] == x;
      RowLessOrder(r[0], r[i + 1]);
    }
  }

  ghost predicate SameRows(es: seq<Entry>, fs: seq<Entry>) {
    forall r :: r in RowsOf(es) <==> r in RowsOf(fs)
  }

  lemma RowsOfPermuted(a: seq<Entry>, b: seq<Entry>)
    requires multiset(a) == multiset(b)
    ensures SameRows(a, b)
  {
    hide RowOf;
    SameEntries(a, b);
    RowsOfWithin(a, b);
    RowsOfWithin(b, a);
  }

  lemma RowsOfWithin(a: seq<Entry>, b: seq<Entry>)
    requires forall e | e in a :: e in b
    ensures forall r | r in RowsOf(a) :: r in RowsOf(b)
  {
    hide RowOf;
    forall r | r in RowsOf(a) ensures r in RowsOf(b) {
      var i :| 0 <= i < |a| && RowsOf(a)[i] == r;
      assert a[i] in b;
      var j :| 0 <= j < |b| && b[j] == a[i];
      assert RowsOf(b)[j] == r;
    }
  }

  ghost predicate Holds(fs: seq<Entry>, e: Entry) {
    exists f :: f in fs && f.path == e.path && SameMeta(f.meta, e.meta)
  }

  /** What either changeset has at a path, the other has there too. */
  ghost predicate SameContents(es: seq<Entry>, fs: seq<Entry>) {
    (forall e | e in es :: Holds(fs, e)) && (forall f | f in fs :: Holds(es, f))
  }

  lemma HoldsIsRow(fs: seq<Entry>, e: Entry)
    ensures Holds(fs, e) <==> RowOf(e) in RowsOf(fs)
  {
    hide SameMeta, FieldsOf;
    forall f: Entry ensures RowOf(f) == RowOf(e) <==> f.path == e.path && SameMeta(f.meta, e.meta) {
      FieldsAgree(f.meta, e.meta);
    }
    if RowOf(e) in RowsOf(fs) {
      var i :| 0 <= i < |RowsOf(fs)| && RowsOf(fs)[i] == RowOf(e);
      assert fs[i] in fs;
    }
    if f :| f in fs && f.path == e.path && SameMeta(f.meta, e.meta) {
      var i :| 0 <= i < |fs| && fs[i] == f;
      assert RowsOf(fs)[i] == RowOf(e);
    }
  }

  lemma SameRowsIff(es: seq<Entry>, fs: seq<Entry>)
    ensures SameRows(es, fs) <==> SameContents(es, fs)
  {
    hide Holds, RowOf;
    RowsWithinIff(es, fs);
    RowsWithinIff(fs, es);
  }

  lemma RowsWithinIff(es: seq<Entry>, fs: seq<Entry>)
    ensures (forall r | r in RowsOf(es) :: r in RowsOf(fs)) <==> forall e | e in es :: Holds(fs, e)
  {
    hide Holds, RowOf;
    forall e ensures Holds(fs, e) <==> RowOf(e) in RowsOf(fs) { HoldsIsRow(fs, e); }
    if forall e | e in es :: Holds(fs, e) {
      forall r | r in RowsOf(es) ensures r in RowsOf(fs) {
        var i :| 0 <= i < |RowsOf(es)| && RowsOf(es)[i] == r;
        assert es[i] in es;
      }
    } else {
      var e :| e in es && !Holds(fs, e);
      var i :| 0 <= i < |es| && es[i] == e;
      assert RowsOf(es)[i] == RowOf(e);
    }
  }

  /** Two streams of one version are equal exactly when the two changesets hold the same at the same paths. */
  lemma StreamsEqualIff(version: byte, es: seq<Entry>, fs: seq<Entry>)
    requires FitsEntries(es) && FitsEntries(fs) && DistinctKeys(es) && DistinctKeys(fs)
    ensures Stream(version, es) == Stream(version, fs) <==> SameContents(es, fs)
  {
    hide FitsEntries, RowsOf, RowsAscending, SameContents;
    SameRowsIff(es, fs);
    var a, b := SortEntries(es), SortEntries(fs);
    RowsOfPermuted(a, es);
    RowsOfPermuted(b, fs);
    if Stream(version, es) == Stream(version, fs) {
      StreamBack(version, es);
      StreamBack(version, fs);
    } else if SameRows(es, fs) {
      SortAscends(es);
      SortAscends(fs);
      RowsUnique(RowsOf(a), RowsOf(b));
      SortLength(es);
      SortLength(fs);
    }
  }

  lemma SortLength(es: seq<Entry>)
    ensures |RowsOf(SortEntries(es))| == |es|
  {
    SameEntries(SortEntries(es), es);
  }

  /** The digest does not depend on the order in which the entries are given. */
  lemma OrderIndependent(version: byte, es: seq<Entry>, fs: seq<Entry>)
    requires DistinctKeys(es) && multiset(es) == multiset(fs)
    ensures Stream(version, es) == Stream(version, fs)
  {
    hide RowsOf, RowsAscending;
    DistinctPermuted(es, fs);
    var a, b := SortEntries(es), SortEntries(fs);
    RowsOfPermuted(a, b);
    SortAscends(es);
    SortAscends(fs);
    RowsUnique(RowsOf(a), RowsOf(b));
    SameEntries(es, fs);
  }

  lemma DistinctPermuted(es: seq<Entry>, fs: seq<Entry>)
    requires DistinctKeys(es) && multiset(es) == multiset(fs)
    ensures DistinctKeys(fs)
  {
    forall i, j | 0 <= i < j < |fs| ensures fs[i].path != fs[j].path || fs[i].meta.kind != fs[j].meta.kind {
      SameEntries(es, fs);
      assert fs[i] in es && fs[j] in es;
      var p :| 0 <= p < |es| && es[p] == fs[i];
      var q :| 0 <= q < |es| && es[q] == fs[j];
      if p == q {
        TwiceInMultiset(fs, i, j);
        OnceInMultiset(es, p);
        assert false;
      }
      assert p < q || q < p;
    }
  }

  lemma TwiceInMultiset(s: seq<Entry>, i: nat, j: nat)
    requires i < j < |s| && s[i] == s[j]
    ensures multiset(s)[s[i]] >= 2
  {
    assert s == s[..j] + [s[j]] + s[j + 1..];
    assert s[i] in s[..j] by { assert s[..j][i] == s[i]; }
  }

  lemma OnceInMultiset(s: seq<Entry>, p: nat)
    requires p < |s| && DistinctKeys(s)
    ensures multiset(s)[s[p]] == 1
  {
    assert s == s[..p] + [s[p]] + s[p + 1..];
    assert s[p] !in s[..p];
    assert s[p] !in s[p + 1..];
  }

  // ---------------------------------------------------------------- the order of an index

  /** The order the indexer writes: strictly ascending by path and kind. */
  ghost predicate IndexOrder(es: seq<Entry>) {
    forall i, j | 0 <= i < j < |es| :: KeyLess(es[i], es[j])
  }

  lemma {:induction false} SortedAlready(es: seq<Entry>)
    requires IndexOrder(es)
    ensures SortEntries(es) == es
    decreases |es|
  {
    hide KeyLess;
    if es != [] {
      SortedAlready(es[1..]);
      if |es| > 1 { KeyNotBoth(es[0], es[1]); }
      assert es == [es[0]] + es[1..];
    }
  }

  lemma KeyNotBoth(a: Entry, b: Entry)
    requires KeyLess(a, b)
    ensures !KeyLess(b, a)
  {
    LessIrreflexive(a.path);
    if Less(a.path, b.path) { LessAsymmetric(a.path, b.path); }
  }

  lemma SortIsIndexOrder(es: seq<Entry>)
    requires DistinctKeys(es)
    ensures IndexOrder(SortEntries(es))
  {
    hide KeyLess, RowLess, RowOf;
    SortAscends(es);
    var s := SortEntries(es);
    forall i, j | 0 <= i < j < |s| ensures KeyLess(s[i], s[j]) {
      assert RowLess(RowsOf(s)[i], RowsOf(s)[j]);
      KeyIsRowOrder(s[i], s[j]);
    }
  }

  // ---------------------------------------------------------------- the bytes themselves

  /** The eight bytes of a value below 256. */
  function Word(n: byte): Str {
    [0, 0, 0, 0, 0, 0, 0, n]
  }

  /** A length of one, and the one byte. */
  function Letter(c: byte): Str {
    Word(1) + [c]
  }

  lemma WordIs(n: byte)
    ensures PutUint(n as nat, []) == Word(n)
    ensures PutInt(n as Int64, []) == Word(n)
  {
    assert BigEndian(0, 7) == [0, 0, 0, 0, 0, 0, 0];
    assert n as nat / 256 == 0;
    assert BigEndian(n as nat, 8) == Word(n);
  }

  lemma StrIs(c: byte)
    ensures PutStr([c], []) == Letter(c)
    ensures PutStr([], []) == Word(0)
  {
    WordIs(1);
    WordIs(0);
    PutUintThen(1, [c] + []);
    PutUintThen(0, [] + []);
  }

  const SOCKET := Entry([98], Meta(Device, 0x8000 + 0x1ed, 7, -2, 3, [117], [103], 8, 9,
                                   map[[121] := [50], [120] := [49]], 99, [108], [115]))
  const FOLDER := Entry([97], Meta(Dir, 0x1ed, 4, 0, 0, [], [], 0, 0, map[], 99, [], [116]))
  const MODE_755: Str := [0, 0, 0, 0, 0, 0, 1, 237]
  const MINUS_2: Str := [255, 255, 255, 255, 255, 255, 255, 254]

  lemma ModeIs()
    ensures PutUint(0x1ed, []) == MODE_755
  {
    assert BigEndian(0x1ed, 8) == MODE_755;
  }

  lemma MinusTwoIs()
    ensures PutInt(-2, []) == MINUS_2
  {
    assert BigEndian(0xFFFF_FFFF_FFFF_FFFE, 8) == MINUS_2;
  }

  ghost function FolderBytes(): Str {
    Letter(97) + Word(1) + MODE_755 + Word(0) + Word(0) + Word(0) + Word(0) + Word(0) + Word(0) + Word(0) + Word(0)
    + Word(0) + Word(0)
  }

  ghost function SocketBytes(): Str {
    Letter(98) + Word(4) + MODE_755 + MINUS_2 + Word(3) + Letter(117) + Letter(103) + Word(7) + Letter(108)
    + Word(8) + Word(9) + XattrBytes() + Letter(115)
  }

  function XattrBytes(): Str {
    Word(2) + (Letter(120) + (Letter(49) + (Letter(121) + Letter(50))))
  }

  lemma NoXattrs(none: map<Str, Str>)
    requires none == map[]
    ensures PutXattrs(none, []) == Word(0)
  {
    WordIs(0);
    assert Sorted(none.Keys) == [];
  }

  lemma TwoXattrs(m: map<Str, Str>)
    requires m == map[[121] := [50], [120] := [49]]
    ensures PutXattrs(m, []) == XattrBytes()
  {
    hide PutUint, PutStr, Word, Letter;
    var keys: seq<Str> := [[120], [121]];
    assert m.Keys == {[121], [120]};
    AscendingUnique(Sorted(m.Keys), keys);
    assert keys[1..] == [[121]] && keys[1..][1..] == [];
    StrIs(50);
    StrIs(121);
    StrIs(49);
    StrIs(120);
    WordIs(2);
    PutStrThen([121], Letter(50));
    PutStrThen([49], Letter(121) + Letter(50));
    PutStrThen([120], Letter(49) + (Letter(121) + Letter(50)));
    PutUintThen(2, Letter(120) + (Letter(49) + (Letter(121) + Letter(50))));
  }

  lemma FolderIs()
    ensures PutFields(RowOf(FOLDER).0, RowOf(FOLDER).1, []) == FolderBytes()
  {
    hide PutUint, PutInt, PutStr, PutXattrs, PutFields, Word, Letter;
    PutFieldsIs(RowOf(FOLDER).0, RowOf(FOLDER).1);
    StrIs(97);
    WordIs(1);
    ModeIs();
    WordIs(0);
    NoXattrs(map[]);
  }

  lemma SocketIs()
    ensures PutFields(RowOf(SOCKET).0, RowOf(SOCKET).1, []) == SocketBytes()
  {
    hide PutUint, PutInt, PutStr, PutXattrs, PutFields, Word, Letter, XattrBytes;
    PutFieldsIs(RowOf(SOCKET).0, RowOf(SOCKET).1);
    StrIs(98);
    WordIs(4);
    ModeIs();
    MinusTwoIs();
    WordIs(3);
    StrIs(117);
    StrIs(103);
    WordIs(7);
    StrIs(108);
    WordIs(8);
    WordIs(9);
    TwoXattrs(SOCKET.meta.xattrs);
    StrIs(115);
  }

  lemma FolderFirst()
    ensures SortEntries([SOCKET, FOLDER]) == [FOLDER, SOCKET]
  {
    assert [SOCKET, FOLDER][1..] == [FOLDER] && [FOLDER][1..] == [];
    assert SortEntries([FOLDER]) == [FOLDER];
    assert KeyLess(FOLDER, SOCKET);
  }

  /**
   * Byte by byte, the stream of a device and a directory given in the wrong order: the version, the count, the
   * directory first and without its size and hash, modes cut to twelve bits, -2 as two's complement, attributes sorted.
   */
  lemma TwoEntryStream()
    ensures Stream(1, [SOCKET, FOLDER]) == [1] + (Word(2) + (FolderBytes() + SocketBytes()))
  {
    hide PutFields, PutUint, Word, FolderBytes, SocketBytes, SortEntries, RowOf;
    FolderFirst();
    var rows := RowsOf([FOLDER, SOCKET]);
    assert rows == [RowOf(FOLDER), RowOf(SOCKET)] && rows[1..] == [RowOf(SOCKET)] && rows[1..][1..] == [];
    SocketIs();
    assert PutRows(rows[1..], []) == SocketBytes();
    FolderIs();
    PutFieldsThen(RowOf(FOLDER).0, RowOf(FOLDER).1, SocketBytes());
    WordIs(2);
    assert PutRows(rows, []) == FolderBytes() + SocketBytes();
    PutUintThen(2, FolderBytes() + SocketBytes());
  }
}
