/** Grandchildren sent along with a page, under one budget for the response, and what the client makes of them. */
module Embedding {
  import opened Options
  import opened ByteStrings
  import opened Diff
  import opened DiffTheorems
  import opened Paging
  import Utf8

  const MAX_EMBEDDED_CHILDREN: nat := 50
  const MAX_EMBEDDED_ROWS: nat := 2000

  /**
   * One row of the response: how many children an expand would show, those sent along if there are any, and whether
   * some were not.
   */
  datatype TreeRow = TreeRow(childCount: nat, children: Option<seq<DiffNode>>, truncated: bool) {
    function Embedded(): seq<DiffNode> {
      if children.Some? then children.value else []
    }
  }

  function Min(a: nat, b: nat): nat {
    if a < b then a else b
  }

  /** What a row could embed if the budget did not matter: nothing at depth 1. */
  function Wanted(d: DiffNode, depth: nat, limit: nat, changedOnly: bool): nat {
    if depth < 2 then 0 else Min(Min(limit, MAX_EMBEDDED_CHILDREN), |Filtered(d.children, changedOnly)|)
  }

  /** The row that sends its first n children along. */
  function RowWith(d: DiffNode, depth: nat, changedOnly: bool, n: nat): TreeRow
    requires n <= |Filtered(d.children, changedOnly)|
  {
    var children := Filtered(d.children, changedOnly);
    TreeRow(|children|, if n == 0 then None else Some(children[..n]), depth >= 2 && n < |children|)
  }

  /** Rows take from the budget in order. */
  function Spend(rows: seq<DiffNode>, depth: nat, limit: nat, changedOnly: bool, budget: nat): (out: seq<TreeRow>)
    ensures |out| == |rows|
  {
    if rows == [] then [] else
      var n := Min(Wanted(rows[0], depth, limit, changedOnly), budget);
      [RowWith(rows[0], depth, changedOnly, n)] + Spend(rows[1..], depth, limit, changedOnly, budget - n)
  }

  /** A row's share at depth 2: the least of the page limit, fifty, its children and what the budget has left. */
  ghost predicate IsShare(n: nat, depth: nat, limit: nat, count: nat, budget: int) {
    if depth < 2 then n == 0
    else n <= limit && n <= 50 && n <= count && n <= budget && (n == limit || n == 50 || n == count || n == budget)
  }

  method TreeRowOf(d: DiffNode, depth: nat, limit: nat, changedOnly: bool, budget: nat)
    returns (row: TreeRow, left: nat)
    ensures |row.Embedded()| <= budget && left == budget - |row.Embedded()|
    ensures [row] == Spend([d], depth, limit, changedOnly, budget)
    ensures IsShare(|row.Embedded()|, depth, limit, |Filtered(d.children, changedOnly)|, budget)
  {
    var children := FilterRows(d.children, changedOnly);
    if depth < 2 || |children| == 0 {
      return TreeRow(|children|, None, false), budget;
    }
    var embedded := Min(Min(limit, MAX_EMBEDDED_CHILDREN), |children|);
    embedded := Min(embedded, budget);
    var sent := None;
    left := budget;
    if embedded > 0 {
      sent := Some(children[..embedded]);
      left := budget - embedded;
    }
    row := TreeRow(|children|, sent, |children| > embedded);
  }

  method PageRows(rows: seq<DiffNode>, depth: nat, limit: nat, changedOnly: bool) returns (out: seq<TreeRow>)
    ensures out == Spend(rows, depth, limit, changedOnly, 2000)
  {
    hide Spend;
    out := [];
    var budget := MAX_EMBEDDED_ROWS;
    assert rows[0..] == rows;
    for i := 0 to |rows|
      invariant 0 <= budget
      invariant out + Spend(rows[i..], depth, limit, changedOnly, budget)
             == Spend(rows, depth, limit, changedOnly, MAX_EMBEDDED_ROWS)
    {
      assert rows[i..][1..] == rows[i + 1..];
      SpendOne(rows[i..], depth, limit, changedOnly, budget);
      var row: TreeRow;
      row, budget := TreeRowOf(rows[i], depth, limit, changedOnly, budget);
      out := out + [row];
    }
    assert rows[|rows|..] == [];
  }

  lemma SpendOne(rows: seq<DiffNode>, depth: nat, limit: nat, changedOnly: bool, budget: nat)
    requires rows != []
    ensures var row := Spend([rows[0]], depth, limit, changedOnly, budget)[0];
            var n := |row.Embedded()|;
            && n <= budget
            && Spend(rows, depth, limit, changedOnly, budget)
            == [row] + Spend(rows[1..], depth, limit, changedOnly, budget - n)
  {
    hide Filtered;
    assert [rows[0]][1..] == [];
  }

  function Sent(out: seq<TreeRow>): nat {
    if out == [] then 0 else |out[0].Embedded()| + Sent(out[1..])
  }

  /**
   * The response never embeds more rows than the budget; every row counts its children, gets as long a prefix of them
   * as the limits and what earlier rows left of the budget allow, and, at depth 2, says truncated exactly when that is
   * not all of them; once one row is cut short by the budget, later rows get none.
   */
  lemma {:induction false} BudgetKept(rows: seq<DiffNode>, depth: nat, limit: nat, changedOnly: bool, budget: nat)
    ensures var out := Spend(rows, depth, limit, changedOnly, budget);
            && Sent(out) <= budget
            && (forall i | 0 <= i < |out| :: Fair(rows[i], out[i], depth, limit, changedOnly))
            && (forall i | 0 <= i < |out| :: SharesAt(rows, out, depth, limit, changedOnly, budget, i))
            && (forall i, j | 0 <= i < j < |out| && |out[i].Embedded()| < Wanted(rows[i], depth, limit, changedOnly) ::
                  out[j].Embedded() == [])
    decreases |rows|
  {
    hide Filtered, Wanted, Fair, RowWith, SharesAt;
    if rows != [] {
      var n := Min(Wanted(rows[0], depth, limit, changedOnly), budget);
      WantedFits(rows[0], depth, limit, changedOnly);
      var row, rest := RowWith(rows[0], depth, changedOnly, n), Spend(rows[1..], depth, limit, changedOnly, budget - n);
      FairPrefix(rows[0], depth, limit, changedOnly, n);
      BudgetKept(rows[1..], depth, limit, changedOnly, budget - n);
      assert ([row] + rest)[1..] == rest;
      if n < Wanted(rows[0], depth, limit, changedOnly) {
        SentNothing(rest);
      }
      AllShares(rows, row, rest, [row] + rest, depth, limit, changedOnly, budget, budget - n);
    }
  }

  ghost predicate SharesAt(rows: seq<DiffNode>, out: seq<TreeRow>, depth: nat, limit: nat, changedOnly: bool,
                           budget: nat, i: nat)
    requires i < |rows| == |out|
  {
    IsShare(|out[i].Embedded()|, depth, limit, |Filtered(rows[i].children, changedOnly)|, budget - Sent(out[..i]))
  }

  lemma FirstShare(rows: seq<DiffNode>, out: seq<TreeRow>, depth: nat, limit: nat, changedOnly: bool, budget: nat)
    requires 0 < |rows| == |out|
    requires |out[0].Embedded()| == Min(Wanted(rows[0], depth, limit, changedOnly), budget)
    ensures SharesAt(rows, out, depth, limit, changedOnly, budget, 0)
  {
    hide Filtered;
  }

  lemma LaterShare(rows: seq<DiffNode>, row: TreeRow, rest: seq<TreeRow>, depth: nat, limit: nat, changedOnly: bool,
                   budget: nat, i: nat)
    requires 0 < i < |rows| == |rest| + 1 && |row.Embedded()| <= budget
    requires SharesAt(rows[1..], rest, depth, limit, changedOnly, budget - |row.Embedded()|, i - 1)
    ensures SharesAt(rows, [row] + rest, depth, limit, changedOnly, budget, i)
  {
    hide Filtered;
    assert ([row] + rest)[..i] == [row] + rest[..i - 1];
    assert ([row] + rest[..i - 1])[1..] == rest[..i - 1];
  }

  lemma AllShares(rows: seq<DiffNode>, row: TreeRow, rest: seq<TreeRow>, out: seq<TreeRow>, depth: nat, limit: nat,
                  changedOnly: bool, budget: nat, left: nat)
    requires rows != [] && |rows| == |rest| + 1 && out == [row] + rest && left == budget - |row.Embedded()|
    requires |row.Embedded()| == Min(Wanted(rows[0], depth, limit, changedOnly), budget)
    requires forall i | 0 <= i < |rest| :: SharesAt(rows[1..], rest, depth, limit, changedOnly, left, i)
    ensures forall i | 0 <= i < |rows| :: SharesAt(rows, out, depth, limit, changedOnly, budget, i)
  {
    hide SharesAt, Wanted;
    FirstShare(rows, out, depth, limit, changedOnly, budget);
    forall i | 0 < i < |rows| ensures SharesAt(rows, out, depth, limit, changedOnly, budget, i) {
      LaterShare(rows, row, rest, depth, limit, changedOnly, budget, i);
    }
  }

  ghost predicate Fair(d: DiffNode, row: TreeRow, depth: nat, limit: nat, changedOnly: bool) {
    && row.childCount == |Filtered(d.children, changedOnly)|
    && row.Embedded() <= Filtered(d.children, changedOnly)
    && (row.children.Some? <==> row.Embedded() != [])
    && (row.truncated <==> depth >= 2 && row.Embedded() != Filtered(d.children, changedOnly))
    && |row.Embedded()| <= Wanted(d, depth, limit, changedOnly)
  }

  lemma WantedFits(d: DiffNode, depth: nat, limit: nat, changedOnly: bool)
    ensures Wanted(d, depth, limit, changedOnly) <= |Filtered(d.children, changedOnly)|
    ensures Wanted(d, depth, limit, changedOnly) <= limit
  {
  }

  lemma FairPrefix(d: DiffNode, depth: nat, limit: nat, changedOnly: bool, n: nat)
    requires n <= Wanted(d, depth, limit, changedOnly) <= |Filtered(d.children, changedOnly)|
    ensures var row := RowWith(d, depth, changedOnly, n);
            Fair(d, row, depth, limit, changedOnly) && |row.Embedded()| == n
  {
    hide Filtered;
  }

  lemma {:induction false} SentNothing(out: seq<TreeRow>)
    requires Sent(out) == 0
    ensures forall i | 0 <= i < |out| :: out[i].Embedded() == []
    decreases |out|
  {
    if out != [] {
      SentNothing(out[1..]);
      forall i | 0 <= i < |out| ensures out[i].Embedded() == [] {
        if i > 0 { assert out[i] == out[1..][i - 1]; }
      }
    }
  }

  // ---------------------------------------------------------------- the client

  /** A first page made from embedded children; none if some were left out, or if there are none. */
  method SeedPage(row: TreeRow) returns (page: Option<Page>)
    ensures IsSeed(row, page)
  {
    if row.truncated || row.children.None? {
      return None;
    }
    var maximum := MaxSiblingBytes(row.children.value);
    page := Some(Page(row.children.value, row.childCount, maximum, NoCursor));
  }

  ghost predicate IsSeed(row: TreeRow, page: Option<Page>) {
    && (page.None? <==> row.truncated || row.children == None)
    && (page.Some? ==>
          && Some(page.value.rows) == row.children && page.value.total == row.childCount
          && IsTallest(page.value.maxBytes, page.value.rows) && page.value.next == NoCursor)
  }

  /** A directory is seeded exactly when it shows children and all of them were sent; the seed then is the one page that
      the server would send for the directory itself: its rows, total and largest size, with nothing more to follow. */
  lemma SeedIsServersPage(rows: seq<DiffNode>, depth: nat, limit: nat, changedOnly: bool, budget: nat, i: nat,
                          query: Str, page: Option<Page>)
    requires i < |rows| && limit >= 1
    requires IsSeed(Spend(rows, depth, limit, changedOnly, budget)[i], page)
    ensures var all := Filtered(rows[i].children, changedOnly);
            && (page.Some? <==> all != [] && Spend(rows, depth, limit, changedOnly, budget)[i].Embedded() == all)
            && (page.Some? ==> forall p :: IsPage(p, all, None, limit, query) <==> p == page.value)
  {
    hide Filtered, IsTallest, Spend;
    BudgetKept(rows, depth, limit, changedOnly, budget);
    var all := Filtered(rows[i].children, changedOnly);
    var row := Spend(rows, depth, limit, changedOnly, budget)[i];
    assert Fair(rows[i], row, depth, limit, changedOnly);
    WantedFits(rows[i], depth, limit, changedOnly);
    assert all[0..|all|] == all;
    if page.Some? {
      forall p | IsPage(p, all, None, limit, query) ensures p == page.value {
        OneTallest(p.maxBytes, page.value.maxBytes, all);
      }
    }
  }

  /** The client tells the rows of a directory apart by their paths, that is by their names as JSON brings them. */
  function NameSeen(d: DiffNode): Str {
    Utf8.ThroughJson(d.name)
  }

  function NamesOf(rows: seq<DiffNode>): set<Str> {
    set d | d in rows :: NameSeen(d)
  }

  lemma NamesWith(rows: seq<DiffNode>, d: DiffNode)
    ensures NamesOf(rows + [d]) == NamesOf(rows) + {NameSeen(d)}
  {
    hide NameSeen;
  }

  /** Each row once, where its name is first seen. */
  function Dedup(rows: seq<DiffNode>): (out: seq<DiffNode>)
    ensures NamesOf(out) == NamesOf(rows)
  {
    if rows == [] then [] else
      var n := |rows| - 1;
      var front := Dedup(rows[..n]);
      assert NamesOf(rows) == NamesOf(rows[..n]) + {NameSeen(rows[n])} by {
        NamesWith(rows[..n], rows[n]);
        assert rows == rows[..n] + [rows[n]];
      }
      if NameSeen(rows[n]) in NamesOf(front) then front else
        NamesWith(front, rows[n]);
        front + [rows[n]]
  }

  lemma DedupWith(rows: seq<DiffNode>, d: DiffNode)
    ensures Dedup(rows + [d]) == if NameSeen(d) in NamesOf(Dedup(rows)) then Dedup(rows) else Dedup(rows) + [d]
  {
    hide NameSeen;
    assert (rows + [d])[..|rows|] == rows;
  }

  function Concat(pages: seq<seq<DiffNode>>): seq<DiffNode> {
    if pages == [] then [] else Concat(pages[..|pages| - 1]) + pages[|pages| - 1]
  }

  /** The loaded pages of one directory put together; a row seen twice is kept once. */
  method MergePages(pages: seq<seq<DiffNode>>) returns (rows: seq<DiffNode>)
    ensures rows == Dedup(Concat(pages))
  {
    hide Dedup, NamesOf, NameSeen;
    NothingYet();
    rows := [];
    var seen: set<Str> := {};
    assert pages[..0] == [];
    for p := 0 to |pages|
      invariant rows == Dedup(Concat(pages[..p])) && seen == NamesOf(rows)
    {
      ghost var before := Concat(pages[..p]);
      assert pages[..p + 1][..p] == pages[..p];
      rows, seen := MergePage(before, rows, seen, pages[p]);
    }
    assert pages[..|pages|] == pages;
  }

  method MergePage(ghost before: seq<DiffNode>, start: seq<DiffNode>, had: set<Str>, page: seq<DiffNode>)
    returns (rows: seq<DiffNode>, seen: set<Str>)
    requires start == Dedup(before) && had == NamesOf(start)
    ensures rows == Dedup(before + page) && seen == NamesOf(rows)
  {
    hide Dedup, NamesOf, NameSeen;
    rows, seen := start, had;
    assert before + page[..0] == before;
    for i := 0 to |page|
      invariant rows == Dedup(before + page[..i]) && seen == NamesOf(rows)
    {
      DedupWith(before + page[..i], page[i]);
      NamesWith(rows, page[i]);
      assert before + page[..i + 1] == before + page[..i] + [page[i]];
      if NameSeen(page[i]) !in seen {
        seen := seen + {NameSeen(page[i])};
        rows := rows + [page[i]];
      }
    }
    assert page[..|page|] == page;
  }

  lemma NothingYet()
    ensures Dedup([]) == [] && NamesOf([]) == {}
  {
  }

  /** No two rows have one name as the client sees it. */
  ghost predicate SeenApart(rows: seq<DiffNode>) {
    forall i, j | 0 <= i < j < |rows| :: NameSeen(rows[i]) != NameSeen(rows[j])
  }

  lemma SeenApartWith(rows: seq<DiffNode>, d: DiffNode)
    ensures SeenApart(rows + [d]) <==> SeenApart(rows) && NameSeen(d) !in NamesOf(rows)
  {
    hide NameSeen;
    var more := rows + [d];
    if SeenApart(more) {
      assert forall i, j | 0 <= i < j < |rows| :: rows[i] == more[i] && rows[j] == more[j];
      forall e | e in rows ensures NameSeen(e) != NameSeen(d) {
        var i :| 0 <= i < |rows| && rows[i] == e;
        assert NameSeen(more[i]) != NameSeen(more[|rows|]);
      }
    }
  }

  lemma {:induction false} DedupShrinks(rows: seq<DiffNode>)
    ensures |Dedup(rows)| <= |rows|
    decreases |rows|
  {
    if rows != [] { DedupShrinks(rows[..|rows| - 1]); }
  }

  /** Merging keeps all rows exactly when their names stay distinct on the way to the client. */
  lemma {:induction false} DedupKeepsDistinct(rows: seq<DiffNode>)
    ensures Dedup(rows) == rows <==> SeenApart(rows)
    decreases |rows|
  {
    hide Dedup, SeenApart, NamesOf, NameSeen;
    if rows == [] {
      NothingYet();
      NothingApart();
    } else {
      var n := |rows| - 1;
      var front := rows[..n];
      DedupKeepsDistinct(front);
      DedupWith(front, rows[n]);
      SeenApartWith(front, rows[n]);
      DedupShrinks(front);
      assert rows == front + [rows[n]];
      if Dedup(rows) == rows {
        assert (Dedup(front) + [rows[n]])[..n] == rows[..n];
      }
    }
  }

  lemma NothingApart()
    ensures SeenApart([])
  {
  }

  /** Distinct names that are valid UTF-8 stay distinct. */
  lemma ValidSeenApart(rows: seq<DiffNode>)
    requires DistinctNames(rows) && ValidNames(rows)
    ensures SeenApart(rows)
  {
    hide Utf8.ThroughJson, Utf8.Valid;
    forall i | 0 <= i < |rows| ensures NameSeen(rows[i]) == rows[i].name { Utf8.SurvivesIff(rows[i].name); }
  }

  /** Siblings whose names differ only in a byte that is not UTF-8 arrive under one name, and one of them is dropped. */
  lemma InvalidSiblingDropped()
    ensures var rows := TwoRows([0x80], [0x81]);
            |rows| == 2 && DistinctNames(rows) && Dedup(rows) == rows[..1]
  {
    hide TwoRows, Named, Dedup;
    var rows := TwoRows([0x80], [0x81]);
    TwoRowsAre([0x80], [0x81]);
    NamedIs([0x80]);
    NamedIs([0x81]);
    assert [0x80 as byte][1..] == [] && [0x81 as byte][1..] == [];
    assert Utf8.ThroughJson([0x80]) == Utf8.REPLACEMENT == Utf8.ThroughJson([0x81]);
    NothingYet();
    DedupWith([], rows[0]);
    DedupWith([rows[0]], rows[1]);
    assert [] + [rows[0]] == [rows[0]] == rows[..1] && rows == [rows[0]] + [rows[1]];
  }

  /** A page loaded twice changes nothing. */
  lemma {:induction false} DedupTwice(rows: seq<DiffNode>, again: seq<DiffNode>)
    requires forall d | d in again :: d in rows
    ensures Dedup(rows + again) == Dedup(rows)
    decreases |again|
  {
    hide Dedup;
    if again == [] {
      assert rows + again == rows;
    } else {
      var n := |again| - 1;
      assert rows + again == rows + again[..n] + [again[n]];
      DedupTwice(rows, again[..n]);
      DedupWith(rows + again[..n], again[n]);
      assert again[n] in rows;
    }
  }
}
