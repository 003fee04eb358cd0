/** Pages over the sorted rows of one directory. */
module Paging {
  import opened Options
  import opened ByteStrings
  import opened Diff
  import opened DiffTheorems
  import opened DiffTotals
  import opened Entries
  import opened Filesystem
  import Utf8

  datatype Section = DirSection | FileSection

  /** What the cursor carries on the wire: the decoded payload, or text that is no cursor at all. */
  datatype Payload = Payload(section: Str, lastName: Str, query: Str)
  datatype Wire = NoCursor | Garbage | Encoded(payload: Payload)

  datatype Cursor = Cursor(section: Section, lastName: Str)

  /** A decoded cursor: none, one to resume from, or a refusal. */
  datatype Decoded = Start | Resume(cursor: Cursor) | BadCursor

  const DIR_NAME: Str := [100, 105, 114]        // dir
  const FILE_NAME: Str := [102, 105, 108, 101]  // file

  function SectionOf(d: DiffNode): Section {
    if IsDirRow(d) then DirSection else FileSection
  }

  function SectionRank(s: Section): nat {
    if s == DirSection then 0 else 1
  }

  function SectionName(s: Section): Str {
    if s == DirSection then DIR_NAME else FILE_NAME
  }

  /** JSON carries only valid UTF-8; the fingerprint of the query is hexadecimal. */
  function EncodeCursor(query: Str, d: DiffNode): Wire {
    Encoded(Payload(SectionName(SectionOf(d)), Utf8.ThroughJson(d.name), Utf8.ThroughJson(query)))
  }

  /** A cursor of another query is refused, not restarted from the first page. */
  function DecodeCursor(w: Wire, query: Str): Decoded {
    match w
    case NoCursor => Start
    case Garbage => BadCursor
    case Encoded(p) =>
      if p.section != DIR_NAME && p.section != FILE_NAME then BadCursor
      else if p.query != query then BadCursor
      else Resume(Cursor(if p.section == DIR_NAME then DirSection else FileSection, p.lastName))
  }

  /** A row's cursor decodes to the place right after the row exactly when its name is valid UTF-8. */
  lemma CursorBackIff(query: Str, d: DiffNode)
    requires Utf8.Valid(query)
    ensures DecodeCursor(EncodeCursor(query, d), query) == Resume(Cursor(SectionOf(d), d.name)) <==> Utf8.Valid(d.name)
  {
    Utf8.SurvivesIff(query);
    Utf8.SurvivesIff(d.name);
  }

  lemma OtherQueryRefused(query: Str, other: Str, d: DiffNode)
    requires Utf8.Valid(query) && query != other
    ensures DecodeCursor(EncodeCursor(query, d), other) == BadCursor
  {
    Utf8.SurvivesIff(query);
  }

  // ---------------------------------------------------------------- the resume point

  /** d sorts strictly after the cursor. */
  predicate After(d: DiffNode, c: Cursor) {
    var r, rank := SectionRank(SectionOf(d)), SectionRank(c.section);
    if r != rank then r > rank else Less(c.lastName, d.name)
  }

  function CursorOf(d: DiffNode): Cursor {
    Cursor(SectionOf(d), d.name)
  }

  lemma AfterIsOrder(d: DiffNode, e: DiffNode)
    ensures After(e, CursorOf(d)) <==> RowBefore(d, e)
  {
  }

  /** What is after the cursor stays after it along the rows. */
  lemma AfterSpreads(d: DiffNode, e: DiffNode, c: Cursor)
    requires RowBefore(d, e) && After(d, c)
    ensures After(e, c)
  {
    if SectionOf(d) == SectionOf(e) && SectionOf(d) == c.section {
      LessTransitive(c.lastName, d.name, e.name);
    }
  }

  /** How many rows are not after the cursor. */
  function NotAfter(rows: seq<DiffNode>, c: Cursor): (n: nat)
    ensures n <= |rows|
  {
    if rows == [] then 0 else (if After(rows[0], c) then 0 else 1) + NotAfter(rows[1..], c)
  }

  /** In sorted rows those are the first ones. */
  lemma {:induction false} NotAfterIsPrefix(rows: seq<DiffNode>, c: Cursor, k: nat)
    requires k <= |rows|
    requires forall i | 0 <= i < k :: !After(rows[i], c)
    requires forall i | k <= i < |rows| :: After(rows[i], c)
    ensures NotAfter(rows, c) == k
    decreases |rows|
  {
    if rows != [] {
      NotAfterIsPrefix(rows[1..], c, if k > 0 then k - 1 else 0);
    }
  }

  /** The binary search for the first row after the cursor. */
  method PageStart(rows: seq<DiffNode>, cur: Option<Cursor>) returns (start: nat)
    requires RowsInOrder(rows)
    ensures start == StartOf(rows, cur)
  {
    if cur.None? {
      return 0;
    }
    var c := cur.value;
    var lo, hi := 0, |rows|;
    while lo < hi
      invariant 0 <= lo <= hi <= |rows|
      invariant forall i | 0 <= i < lo :: !After(rows[i], c)
      invariant forall i | hi <= i < |rows| :: After(rows[i], c)
    {
      var mid := (lo + hi) / 2;
      if After(rows[mid], c) {
        forall i | mid < i < |rows| ensures After(rows[i], c) { AfterSpreads(rows[mid], rows[i], c); }
        hi := mid;
      } else {
        forall i | 0 <= i < mid ensures !After(rows[i], c) {
          if After(rows[i], c) { AfterSpreads(rows[i], rows[mid], c); }
        }
        lo := mid + 1;
      }
    }
    NotAfterIsPrefix(rows, c, lo);
    start := lo;
  }

  function StartOf(rows: seq<DiffNode>, cur: Option<Cursor>): (n: nat)
    ensures n <= |rows|
  {
    if cur.None? then 0 else NotAfter(rows, cur.value)
  }

  lemma RowBeforeIrreflexive(d: DiffNode)
    ensures !RowBefore(d, d)
  {
    LessIrreflexive(d.name);
  }

  /** Resuming after a row that is still there continues with the next row. */
  lemma ResumeAtNext(rows: seq<DiffNode>, i: nat)
    requires RowsInOrder(rows) && i < |rows|
    ensures NotAfter(rows, CursorOf(rows[i])) == i + 1
  {
    forall j | 0 <= j <= i ensures !After(rows[j], CursorOf(rows[i])) {
      AfterIsOrder(rows[i], rows[j]);
      RowBeforeIrreflexive(rows[i]);
      if j < i { RowBeforeOrder(rows[j], rows[i], rows[j]); }
    }
    forall j | i < j < |rows| ensures After(rows[j], CursorOf(rows[i])) {
      AfterIsOrder(rows[i], rows[j]);
    }
    NotAfterIsPrefix(rows, CursorOf(rows[i]), i + 1);
  }

  /** A row that has gone since does not matter: the rest of the walk is the same with and without it. */
  lemma ResumeWithoutRow(rows: seq<DiffNode>, i: nat)
    requires RowsInOrder(rows) && i < |rows|
    ensures var less := rows[..i] + rows[i + 1..];
            RowsInOrder(less) && less[NotAfter(less, CursorOf(rows[i]))..] == rows[i + 1..]
  {
    var less, c := rows[..i] + rows[i + 1..], CursorOf(rows[i]);
    forall j | 0 <= j < i ensures !After(less[j], c) {
      AfterIsOrder(rows[i], rows[j]);
      RowBeforeOrder(rows[j], rows[i], rows[j]);
    }
    forall j | i <= j < |less| ensures After(less[j], c) {
      AfterIsOrder(rows[i], rows[j + 1]);
    }
    NotAfterIsPrefix(less, c, i);
  }

  // ---------------------------------------------------------------- whole walks

  /** One page of filtered rows, and the cursor of the next one if there is more. */
  datatype Page = Page(rows: seq<DiffNode>, total: nat, maxBytes: int, next: Wire)

  function PageOf(rows: seq<DiffNode>, cur: Option<Cursor>, limit: nat, query: Str): (seq<DiffNode>, Wire)
    requires limit >= 1
  {
    var start := StartOf(rows, cur);
    var end := if start + limit < |rows| then start + limit else |rows|;
    (rows[start..end], if end < |rows| then EncodeCursor(query, rows[end - 1]) else NoCursor)
  }

  ghost predicate ValidNames(rows: seq<DiffNode>) {
    forall i | 0 <= i < |rows| :: Utf8.Valid(rows[i].name)
  }

  /** Following next from the page at cur, n pages at most: the rows shown, and whether the pages came to an end. */
  ghost function Walk(rows: seq<DiffNode>, cur: Option<Cursor>, limit: nat, query: Str, n: nat): (seq<DiffNode>, bool)
    requires limit >= 1
    decreases n
  {
    if n == 0 then ([], false) else
      var (page, next) := PageOf(rows, cur, limit, query);
      if next == NoCursor then (page, true) else
        match DecodeCursor(next, query)
        case Resume(c) => var (more, ended) := Walk(rows, Some(c), limit, query, n - 1); (page + more, ended)
        case _ => (page, false)
  }

  /** The cursor of a row as it comes back. */
  function WireCursor(d: DiffNode): Cursor {
    Cursor(SectionOf(d), Utf8.ThroughJson(d.name))
  }

  lemma ComesBack(query: Str, d: DiffNode)
    requires Utf8.Valid(query)
    ensures EncodeCursor(query, d) != NoCursor && DecodeCursor(EncodeCursor(query, d), query) == Resume(WireCursor(d))
  {
    Utf8.SurvivesIff(query);
  }

  /** Where the rows split at a cursor. */
  lemma {:induction false} SplitAt(rows: seq<DiffNode>, c: Cursor)
    requires RowsInOrder(rows)
    ensures forall i | 0 <= i < NotAfter(rows, c) :: !After(rows[i], c)
    ensures forall i | NotAfter(rows, c) <= i < |rows| :: After(rows[i], c)
    decreases |rows|
  {
    hide After, RowBefore;
    if rows != [] {
      if After(rows[0], c) {
        forall i | 0 < i < |rows| ensures After(rows[i], c) { AfterSpreads(rows[0], rows[i], c); }
        NotAfterIsPrefix(rows, c, 0);
      } else {
        SplitAt(rows[1..], c);
        assert forall i | 0 < i < |rows| :: rows[i] == rows[1..][i - 1];
      }
    }
  }

  /** The page after row i starts with row i + 1. */
  ghost predicate ResumesRight(rows: seq<DiffNode>, i: nat) {
    i < |rows| && NotAfter(rows, WireCursor(rows[i])) == i + 1
  }

  /** The name as it comes back is not before the name of row i, and is before the next name of the same section. */
  ghost predicate NameKeepsPlace(rows: seq<DiffNode>, i: nat)
    requires i + 1 < |rows|
  {
    var name := Utf8.ThroughJson(rows[i].name);
    !Less(name, rows[i].name) && (SectionOf(rows[i]) == SectionOf(rows[i + 1]) ==> Less(name, rows[i + 1].name))
  }

  /** Between two rows, resuming is right exactly when the name keeps its place. */
  lemma ResumesRightIff(rows: seq<DiffNode>, i: nat)
    requires RowsInOrder(rows) && i + 1 < |rows|
    ensures ResumesRight(rows, i) <==> NameKeepsPlace(rows, i)
  {
    var c := WireCursor(rows[i]);
    SplitAt(rows, c);
    assert RowBefore(rows[i], rows[i + 1]);
    if NameKeepsPlace(rows, i) {
      assert !After(rows[i], c) && After(rows[i + 1], c);
      assert NotAfter(rows, c) > i && NotAfter(rows, c) <= i + 1;
    }
  }

  /** Every page boundary from index start on resumes right. */
  ghost predicate BoundariesHold(rows: seq<DiffNode>, start: nat, limit: nat)
    requires limit >= 1
    decreases |rows| - start
  {
    start + limit >= |rows| || (ResumesRight(rows, start + limit - 1) && BoundariesHold(rows, start + limit, limit))
  }

  /** Row i is the last of a full page. */
  predicate EndsPage(i: int, limit: nat)
    requires limit >= 1
  {
    (i + 1) % limit == 0
  }

  lemma Scaled(e: int, limit: nat)
    ensures e >= 1 ==> e * limit >= limit
    ensures e <= -1 ==> e * limit + limit <= 0
  {
  }

  lemma Remainder(q: nat, d: nat, limit: nat)
    requires d < limit
    ensures (q * limit + d) % limit == d
  {
    var x := q * limit + d;
    var e := x / limit - q;
    assert e * limit == d - x % limit;
    Scaled(e, limit);
  }

  lemma NextMultiple(q: nat, d: nat, limit: nat)
    requires 1 <= d <= limit
    ensures (q * limit + d) % limit == 0 <==> d == limit
  {
    if d < limit {
      Remainder(q, d, limit);
    } else {
      Remainder(q + 1, 0, limit);
      assert q * limit + d == (q + 1) * limit + 0;
    }
  }

  lemma Quotient(n: nat, limit: nat) returns (q: nat)
    requires limit >= 1 && n % limit == 0
    ensures n == q * limit
  {
    q := n / limit;
  }

  /** The page that starts at a multiple of the limit ends limit rows later, and not before. */
  lemma PageEnds(start: nat, limit: nat, i: nat)
    requires limit >= 1 && start % limit == 0 && start <= i < start + limit
    ensures EndsPage(i, limit) <==> i == start + limit - 1
  {
    var q := Quotient(start, limit);
    var d := i + 1 - start;
    NextMultiple(q, d, limit);
    assert i + 1 == q * limit + d;
  }

  lemma NextStart(start: nat, limit: nat)
    requires limit >= 1 && EndsPage(start + limit - 1, limit)
    ensures (start + limit) % limit == 0
  {
  }

  lemma {:induction false} BoundariesFrom(rows: seq<DiffNode>, start: nat, limit: nat)
    requires limit >= 1 && start % limit == 0
    ensures BoundariesHold(rows, start, limit) <==>
            forall i | start <= i < |rows| - 1 && EndsPage(i, limit) :: ResumesRight(rows, i)
    decreases |rows| - start
  {
    hide ResumesRight, EndsPage;
    forall i | start <= i < start + limit ensures EndsPage(i, limit) <==> i == start + limit - 1 {
      PageEnds(start, limit, i);
    }
    if start + limit < |rows| {
      assert EndsPage(start + limit - 1, limit);
      NextStart(start, limit);
      BoundariesFrom(rows, start + limit, limit);
    }
  }

  lemma BoundariesAre(rows: seq<DiffNode>, limit: nat)
    requires limit >= 1 && RowsInOrder(rows)
    ensures BoundariesHold(rows, 0, limit) <==> BoundaryNamesKeep(rows, limit)
  {
    hide RowsInOrder, ResumesRight, NameKeepsPlace, BoundariesHold, EndsPage;
    BoundariesFrom(rows, 0, limit);
    forall i | 0 <= i < |rows| - 1 ensures ResumesRight(rows, i) <==> NameKeepsPlace(rows, i) {
      ResumesRightIff(rows, i);
    }
  }

  /** The first page of a walk, and the walk from its cursor as it comes back. */
  lemma WalkStep(rows: seq<DiffNode>, cur: Option<Cursor>, limit: nat, query: Str, n: nat)
    requires limit >= 1 && n > 0 && Utf8.Valid(query)
    ensures var start := StartOf(rows, cur);
            var end := start + limit;
            if end >= |rows| then Walk(rows, cur, limit, query, n) == (rows[start..], true) else
              var (more, ended) := Walk(rows, Some(WireCursor(rows[end - 1])), limit, query, n - 1);
              Walk(rows, cur, limit, query, n) == (rows[start..end] + more, ended)
  {
    hide NotAfter, EncodeCursor, DecodeCursor, WireCursor, Utf8.Valid;
    var start := StartOf(rows, cur);
    var end := start + limit;
    if end < |rows| {
      ComesBack(query, rows[end - 1]);
    } else {
      assert rows[start..|rows|] == rows[start..];
    }
  }

  lemma {:induction false} WalkHolds(rows: seq<DiffNode>, cur: Option<Cursor>, limit: nat, query: Str)
    requires limit >= 1 && RowsInOrder(rows) && Utf8.Valid(query) && BoundariesHold(rows, StartOf(rows, cur), limit)
    ensures Walk(rows, cur, limit, query, |rows| - StartOf(rows, cur) + 1) == (rows[StartOf(rows, cur)..], true)
    decreases |rows| - StartOf(rows, cur)
  {
    hide NotAfter, RowsInOrder, WireCursor, Utf8.Valid, Walk;
    var start := StartOf(rows, cur);
    var end := start + limit;
    WalkStep(rows, cur, limit, query, |rows| - start + 1);
    if end < |rows| {
      var next := Some(WireCursor(rows[end - 1]));
      assert StartOf(rows, next) == end;
      WalkHolds(rows, next, limit, query);
      MorePages(rows, next, limit, query, |rows| - end + 1, |rows| - start);
      assert rows[start..end] + rows[end..] == rows[start..];
    }
  }

  /** Once the pages have ended, asking for more of them changes nothing. */
  lemma {:induction false} MorePages(rows: seq<DiffNode>, cur: Option<Cursor>, limit: nat, query: Str, n: nat, m: nat)
    requires limit >= 1 && n <= m && Walk(rows, cur, limit, query, n).1
    ensures Walk(rows, cur, limit, query, m) == Walk(rows, cur, limit, query, n)
    decreases n
  {
    hide PageOf, DecodeCursor;
    var (page, next) := PageOf(rows, cur, limit, query);
    if n > 0 && next != NoCursor {
      var c := DecodeCursor(next, query).cursor;
      MorePages(rows, Some(c), limit, query, n - 1, m - 1);
    }
  }

  lemma FirstShown(rows: seq<DiffNode>, cur: Option<Cursor>, limit: nat, query: Str, n: nat)
    requires limit >= 1 && n > 0
    ensures var start, shown := StartOf(rows, cur), Walk(rows, cur, limit, query, n).0;
            if start < |rows| then shown != [] && shown[0] == rows[start] else shown == []
  {
    hide NotAfter, EncodeCursor, DecodeCursor;
  }

  lemma DistinctRows(rows: seq<DiffNode>, i: nat, j: nat)
    requires RowsInOrder(rows) && i < |rows| && j < |rows| && i != j
    ensures rows[i] != rows[j]
  {
    RowBeforeIrreflexive(rows[i]);
    assert i < j || j < i;
  }

  lemma NoPages(rows: seq<DiffNode>, cur: Option<Cursor>, limit: nat, query: Str)
    requires limit >= 1
    ensures Walk(rows, cur, limit, query, 0) == ([], false)
  {
  }

  /** A walk that starts at another row does not show the rows from i on. */
  lemma StartsElsewhere(rows: seq<DiffNode>, cur: Option<Cursor>, limit: nat, query: Str, n: nat, i: nat)
    requires limit >= 1 && RowsInOrder(rows) && i < |rows| && StartOf(rows, cur) != i
    ensures Walk(rows, cur, limit, query, n) != (rows[i..], true)
  {
    hide StartOf, RowsInOrder, Walk;
    NoPages(rows, cur, limit, query);
    if n > 0 {
      FirstShown(rows, cur, limit, query, n);
      assert rows[i..][0] == rows[i];
      if StartOf(rows, cur) < |rows| { DistinctRows(rows, i, StartOf(rows, cur)); }
    }
  }

  /** One boundary that resumes elsewhere, and the rows do not come out, however many pages are asked for. */
  lemma {:induction false} WalkFails(rows: seq<DiffNode>, cur: Option<Cursor>, limit: nat, query: Str, n: nat)
    requires limit >= 1 && RowsInOrder(rows) && Utf8.Valid(query) && !BoundariesHold(rows, StartOf(rows, cur), limit)
    ensures Walk(rows, cur, limit, query, n) != (rows[StartOf(rows, cur)..], true)
    decreases n
  {
    hide NotAfter, RowsInOrder, WireCursor, Utf8.Valid, Walk;
    var start := StartOf(rows, cur);
    var end := start + limit;
    NoPages(rows, cur, limit, query);
    if n > 0 {
      var next := Some(WireCursor(rows[end - 1]));
      WalkStep(rows, cur, limit, query, n);
      if StartOf(rows, next) == end {
        WalkFails(rows, next, limit, query, n - 1);
      } else {
        StartsElsewhere(rows, next, limit, query, n - 1, end);
      }
      SameRest(rows, start, end, Walk(rows, next, limit, query, n - 1).0);
    }
  }

  lemma SameRest(rows: seq<DiffNode>, start: nat, end: nat, more: seq<DiffNode>)
    requires start <= end <= |rows|
    ensures rows[start..end] + more == rows[start..] ==> more == rows[end..]
  {
    var n := end - start;
    assert more == (rows[start..end] + more)[n..];
    assert rows[end..] == rows[start..][n..];
  }

  /** Following next from the first page, the pages end having shown every row once and in order. */
  ghost predicate AllShown(rows: seq<DiffNode>, limit: nat, query: Str)
    requires limit >= 1
  {
    exists n :: Walk(rows, None, limit, query, n) == (rows, true)
  }

  /** At every page boundary the name keeps its place. */
  ghost predicate BoundaryNamesKeep(rows: seq<DiffNode>, limit: nat)
    requires limit >= 1
  {
    forall i | 0 <= i < |rows| - 1 && EndsPage(i, limit) :: NameKeepsPlace(rows, i)
  }

  /** A walk over sorted rows shows them all exactly when at every page boundary the name keeps its place. */
  lemma WalkIsAllRows(rows: seq<DiffNode>, limit: nat, query: Str)
    requires limit >= 1 && RowsInOrder(rows) && Utf8.Valid(query)
    ensures AllShown(rows, limit, query) <==> BoundaryNamesKeep(rows, limit)
  {
    hide Walk, RowsInOrder, Utf8.Valid, BoundariesHold, BoundaryNamesKeep;
    assert rows[0..] == rows;
    BoundariesAre(rows, limit);
    if BoundariesHold(rows, 0, limit) {
      WalkHolds(rows, None, limit, query);
    } else {
      forall n ensures Walk(rows, None, limit, query, n) != (rows, true) { WalkFails(rows, None, limit, query, n); }
    }
  }

  /** Names that are valid UTF-8 keep their places. */
  lemma ValidKeepsPlace(rows: seq<DiffNode>, i: nat)
    requires RowsInOrder(rows) && i + 1 < |rows| && Utf8.Valid(rows[i].name)
    ensures NameKeepsPlace(rows, i)
  {
    Utf8.SurvivesIff(rows[i].name);
    LessIrreflexive(rows[i].name);
    assert RowBefore(rows[i], rows[i + 1]);
  }

  // ---------------------------------------------------------------- a name that is not valid UTF-8

  const EMPTY_FOLDER := Tree([], IMPLICIT_DIR, map[])

  /** An empty file. */
  function OneFile(name: Str): Tree {
    Tree(name, Info(Meta(File, 0, 0, 0, 0, [], [], 0, 0, map[], 0, [], []), false), map[])
  }

  function TwoFiles(a: Str, b: Str): Tree {
    Tree([], IMPLICIT_DIR, map[a := OneFile(a), b := OneFile(b)])
  }

  /** The rows of a directory to which two files have been added. */
  ghost function TwoRows(a: Str, b: Str): seq<DiffNode> {
    DiffOf(EMPTY_FOLDER, TwoFiles(a, b)).children
  }

  ghost function Named(name: Str): DiffNode {
    MarkSubtree(OneFile(name), Added)
  }

  lemma NamedIs(name: Str)
    ensures Named(name).name == name && SectionOf(Named(name)) == FileSection
  {
  }

  lemma TwoNames(a: Str, b: Str)
    requires Less(a, b)
    ensures Sorted({a, b}) == [a, b]
  {
    LessIrreflexive(a);
    AscendingUnique([a, b], Sorted({a, b}));
  }

  lemma TwoRowsAre(a: Str, b: Str)
    requires Less(a, b)
    ensures TwoRows(a, b) == [Named(a), Named(b)] && RowsInOrder(TwoRows(a, b))
  {
    hide MarkSubtree, Sorted, SortRows, RowsInOrder;
    var l, r, rows := EMPTY_FOLDER, TwoFiles(a, b), [Named(a), Named(b)];
    LessIrreflexive(a);
    TwoNames(a, b);
    assert l.children.Keys + r.children.Keys == {a, b};
    assert DiffChildren(l, r) == rows;
    NamedIs(a);
    NamedIs(b);
    assert RowsInOrder(rows) by { BothInOrder(Named(a), Named(b)); }
    SortInOrder(rows);
    forall x ensures x in SortRows(rows) <==> x in rows { SortMembers(rows, x); }
    OrderUnique(SortRows(rows), rows);
  }

  lemma BothInOrder(d: DiffNode, e: DiffNode)
    requires RowBefore(d, e)
    ensures RowsInOrder([d, e])
  {
  }

  /** A name that comes back too late: the second page starts past the second row, which no page shows. */
  lemma InvalidNameLosesARow()
    ensures var rows := TwoRows([0x80], [0x81]);
            |rows| == 2 && RowsInOrder(rows) && Walk(rows, None, 1, [], 2) == (rows[..1], true)
  {
    hide TwoRows, Named, RowsInOrder;
    var rows := TwoRows([0x80], [0x81]);
    TwoRowsAre([0x80], [0x81]);
    NamedIs([0x80]);
    NamedIs([0x81]);
    var c := Cursor(FileSection, Utf8.REPLACEMENT);
    ComesBack([], rows[0]);
    assert [0x80 as byte][1..] == [] && Utf8.ThroughJson([0x80]) == Utf8.REPLACEMENT;
    assert !After(rows[0], c) && !After(rows[1], c);
    NotAfterIsPrefix(rows, c, 2);
    assert Walk(rows, Some(c), 1, [], 1) == ([], true);
    assert rows[..1] + [] == rows[..1];
  }

  /** A name that comes back too early: the second page is the first page again, and so on for ever. */
  lemma {:induction false} InvalidNameRepeats(n: nat)
    ensures var rows := TwoRows([0xFE], [0xFF]);
            |rows| == 2 && RowsInOrder(rows) && !Walk(rows, None, 1, [], n).1
    ensures var rows, c := TwoRows([0xFE], [0xFF]), Cursor(FileSection, Utf8.REPLACEMENT);
            PageOf(rows, Some(c), 1, []) == PageOf(rows, None, 1, []) && !Walk(rows, Some(c), 1, [], n).1
    decreases n
  {
    hide TwoRows, Named, RowsInOrder;
    var rows := TwoRows([0xFE], [0xFF]);
    TwoRowsAre([0xFE], [0xFF]);
    NamedIs([0xFE]);
    NamedIs([0xFF]);
    var c := Cursor(FileSection, Utf8.REPLACEMENT);
    ComesBack([], rows[0]);
    assert [0xFE as byte][1..] == [] && Utf8.ThroughJson([0xFE]) == Utf8.REPLACEMENT;
    assert After(rows[0], c) && After(rows[1], c);
    NotAfterIsPrefix(rows, c, 0);
    if n > 0 { InvalidNameRepeats(n - 1); }
  }

  // ---------------------------------------------------------------- the endpoint's paging

  ghost predicate IsTallest(maximum: int, rows: seq<DiffNode>) {
    && maximum >= 0
    && (forall i | 0 <= i < |rows| :: rows[i].agg.leftBytes + rows[i].agg.rightBytes <= maximum)
    && (maximum == 0 || exists i :: 0 <= i < |rows| && rows[i].agg.leftBytes + rows[i].agg.rightBytes == maximum)
  }

  /** The tallest bar: over all rows of the directory, not only those of the page. */
  method MaxSiblingBytes(rows: seq<DiffNode>) returns (maximum: int)
    ensures IsTallest(maximum, rows)
  {
    maximum := 0;
    for n := 0 to |rows|
      invariant maximum >= 0
      invariant forall i | 0 <= i < n :: rows[i].agg.leftBytes + rows[i].agg.rightBytes <= maximum
      invariant maximum == 0 || exists i :: 0 <= i < n && rows[i].agg.leftBytes + rows[i].agg.rightBytes == maximum
    {
      var total := rows[n].agg.leftBytes + rows[n].agg.rightBytes;
      if total > maximum {
        maximum := total;
      }
    }
  }

  lemma OneTallest(m: int, n: int, rows: seq<DiffNode>)
    requires IsTallest(m, rows) && IsTallest(n, rows)
    ensures m == n
  {
  }

  /** The page of sorted rows that starts at a cursor, with the total and the tallest bar of all the rows. */
  ghost predicate IsPage(page: Page, rows: seq<DiffNode>, cur: Option<Cursor>, limit: nat, query: Str)
    requires limit >= 1
  {
    && page.total == |rows| && IsTallest(page.maxBytes, rows)
    && (page.rows, page.next) == PageOf(rows, cur, limit, query)
  }

  datatype Reply = Refused | Reply(page: Page)

  /** One request for a page. */
  method TreePage(children: seq<DiffNode>, changedOnly: bool, limit: nat, cursor: Wire, query: Str) returns (r: Reply)
    requires RowsInOrder(children) && limit >= 1
    ensures r.Refused? <==> DecodeCursor(cursor, query) == BadCursor
    ensures r.Reply? ==>
      var rows, cur := Filtered(children, changedOnly), DecodeCursor(cursor, query);
      IsPage(r.page, rows, if cur == Start then None else Some(cur.cursor), limit, query)
  {
    hide Filtered, NotAfter, DecodeCursor, EncodeCursor, RowBefore, IsTallest;
    var cur := DecodeCursor(cursor, query);
    if cur == BadCursor {
      return Refused;
    }
    var rows := FilterRows(children, changedOnly);
    FilteredInOrder(children, changedOnly);
    var maximum := MaxSiblingBytes(rows);
    var start := PageStart(rows, if cur == Start then None else Some(cur.cursor));
    var end := if start + limit < |rows| then start + limit else |rows|;
    r := Reply(Page(rows[start..end], |rows|, maximum, if end < |rows| then EncodeCursor(query, rows[end - 1])
        else NoCursor));
  }

  lemma {:induction false} FilteredInOrder(rows: seq<DiffNode>, changedOnly: bool)
    requires RowsInOrder(rows)
    ensures RowsInOrder(Filtered(rows, changedOnly))
    decreases |rows|
  {
    hide RowBefore;
    if rows != [] {
      var n := |rows| - 1;
      var front := Filtered(rows[..n], changedOnly);
      FilteredInOrder(rows[..n], changedOnly);
      forall k | 0 <= k < |front| ensures RowBefore(front[k], rows[n]) {
        assert front[k] in rows[..n];
      }
    }
  }

  lemma FilteredValid(rows: seq<DiffNode>, changedOnly: bool)
    requires ValidNames(rows)
    ensures ValidNames(Filtered(rows, changedOnly))
  {
    hide Filtered, Utf8.Valid;
    var out := Filtered(rows, changedOnly);
    forall i | 0 <= i < |out| ensures Utf8.Valid(out[i].name) {
      assert out[i] in rows;
    }
  }

  /** For any directory of a comparison, any filter and any limit: the pages end with all the filtered rows, each
      once, exactly when the names at page boundaries keep their places, as valid UTF-8 does. */
  lemma PagesOfDirectory(l: Tree, r: Tree, row: DiffNode, changedOnly: bool, limit: nat, query: Str)
    requires Tidy(l) && Tidy(r) && BelowOrAt(DiffOf(l, r), row) && limit >= 1 && Utf8.Valid(query)
    ensures var rows := Filtered(row.children, changedOnly);
            && (AllShown(rows, limit, query) <==> BoundaryNamesKeep(rows, limit))
            && (ValidNames(row.children) ==> AllShown(rows, limit, query))
  {
    hide DiffOf, Tidy, RowsInOrder, Filtered, Walk, AllShown, Utf8.Valid, BelowOrAt, NameKeepsPlace;
    EveryLevelInOrder(l, r, row);
    FilteredInOrder(row.children, changedOnly);
    var rows := Filtered(row.children, changedOnly);
    WalkIsAllRows(rows, limit, query);
    if ValidNames(row.children) {
      FilteredValid(row.children, changedOnly);
      forall i | 0 <= i < |rows| - 1 ensures NameKeepsPlace(rows, i) { ValidKeepsPlace(rows, i); }
    }
  }
}
