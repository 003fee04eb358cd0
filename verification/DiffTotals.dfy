/** The totals of a comparison, against sums over the two trees themselves. */
module DiffTotals {
  import opened Options
  import opened Sums
  import opened ByteStrings
  import opened Entries
  import opened Filesystem
  import opened Diff
  import opened DiffTheorems

  /** The columns of a row's totals: four that total one side, and seven that say what changed. */
  datatype Column = LeftBytes | RightBytes | LeftFiles | RightFiles | AddedBytes | RemovedBytes | ModifiedBytesLeft
                  | ModifiedBytesRight | AddedFiles | RemovedFiles | ModifiedFiles {
    predicate Side() {
      LeftBytes? || RightBytes? || LeftFiles? || RightFiles?
    }

    predicate Left() {
      LeftBytes? || LeftFiles?
    }

    function Of(a: Agg): int {
      match this
      case LeftBytes => a.leftBytes
      case RightBytes => a.rightBytes
      case LeftFiles => a.leftFiles
      case RightFiles => a.rightFiles
      case AddedBytes => a.addedBytes
      case RemovedBytes => a.removedBytes
      case ModifiedBytesLeft => a.modifiedBytesLeft
      case ModifiedBytesRight => a.modifiedBytesRight
      case AddedFiles => a.addedFiles
      case RemovedFiles => a.removedFiles
      case ModifiedFiles => a.modifiedFiles
    }

    /** What one node counts for on a side: regular files only. */
    function Weight(i: Info): int {
      if i.meta.kind != File then 0 else if LeftBytes? || RightBytes? then i.meta.size else 1
    }
  }

  type SideColumn = c: Column | c.Side() witness LeftBytes

  type ChangeColumn = c: Column | !c.Side() witness AddedBytes

  /** The sum over all nodes of a tree. */
  ghost function Total(t: Tree, c: SideColumn): int
    decreases t, 1
  {
    c.Weight(t.info) + SumMap(ChildTotals(t, c))
  }

  ghost function ChildTotals(t: Tree, c: SideColumn): map<Str, int>
    decreases t, 0
  {
    map k | k in t.children :: Total(t.children[k], c)
  }

  /** A tree without what is below a path that is a directory on one side only. */
  ghost function Pruned(t: Tree, other: Tree): Tree {
    if t.info.meta.kind == Dir && other.info.meta.kind == Dir then
      Tree(t.name, t.info, map k | k in t.children ::
             if k in other.children then Pruned(t.children[k], other.children[k]) else t.children[k])
    else
      Tree(t.name, t.info, map[])
  }

  // ---------------------------------------------------------------- sums of rows

  lemma SumAdd(c: Column, a: Agg, b: Agg)
    ensures c.Of(AddAgg(a, b)) == c.Of(a) + c.Of(b)
  {
  }

  lemma {:induction false} SumPlaced(d: DiffNode, rows: seq<DiffNode>)
    ensures SumAggs(PlaceRow(d, rows)) == AddAgg(d.agg, SumAggs(rows))
    decreases |rows|
  {
    hide RowBefore;
    if rows != [] {
      SumPlaced(d, rows[1..]);
      assert ([d] + rows)[1..] == rows;
      assert ([rows[0]] + PlaceRow(d, rows[1..]))[1..] == PlaceRow(d, rows[1..]);
    }
  }

  lemma {:induction false} SumSorted(rows: seq<DiffNode>)
    ensures SumAggs(SortRows(rows)) == SumAggs(rows)
    decreases |rows|
  {
    if rows != [] {
      SumSorted(rows[1..]);
      SumPlaced(rows[0], SortRows(rows[1..]));
    }
  }

  lemma LaterNames(names: seq<Str>)
    requires names != [] && forall i, j | 0 <= i < j < |names| :: names[i] != names[j]
    ensures forall x :: x in names[1..] <==> x in names && x != names[0]
  {
    assert names == [names[0]] + names[1..];
    forall x | x in names[1..] ensures x != names[0] {
      var j :| 0 <= j < |names[1..]| && names[1..][j] == x;
      assert names[j + 1] == x;
    }
  }

  /** Rows listed by distinct names add up to the sum over the names. */
  lemma {:induction false} SumByName(rows: seq<DiffNode>, names: seq<Str>, m: map<Str, int>, c: Column)
    requires |rows| == |names| && (forall i, j | 0 <= i < j < |names| :: names[i] != names[j])
    requires forall k :: k in m <==> k in names
    requires forall i | 0 <= i < |rows| :: names[i] in m && c.Of(rows[i].agg) == m[names[i]]
    ensures c.Of(SumAggs(rows)) == SumMap(m)
    decreases |rows|
  {
    if rows == [] {
      assert m == map[];
    } else {
      var k := names[0];
      LaterNames(names);
      SumByName(rows[1..], names[1..], m - {k}, c);
      SumRemove(m, k);
      SumAdd(c, rows[0].agg, SumAggs(rows[1..]));
    }
  }

  /** Zeros do not count. */
  lemma {:induction false} SumPad(m: map<Str, int>, n: map<Str, int>)
    requires forall k | k in n :: k in m && m[k] == n[k]
    requires forall k | k in m && k !in n :: m[k] == 0
    ensures SumMap(m) == SumMap(n)
    decreases |m|
  {
    hide SumMap;
    if m == map[] {
      assert n == map[];
    } else {
      var k :| k in m;
      SumRemove(m, k);
      if k in n {
        SumRemove(n, k);
        SumPad(m - {k}, n - {k});
      } else {
        assert n - {k} == n;
        SumPad(m - {k}, n);
      }
    }
  }

  // ---------------------------------------------------------------- one side only

  lemma OwnColumn(c: SideColumn, status: Status, i: Info)
    ensures c.Of(OwnAgg(status, Some(SideOf(i)), None)) == if c.Left() then c.Weight(i) else 0
    ensures c.Of(OwnAgg(status, None, Some(SideOf(i)))) == if c.Left() then 0 else c.Weight(i)
  {
  }

  /** A one-sided subtree counts whole for its side and nothing for the other. */
  lemma {:induction false} MarkTotal(t: Tree, status: Status, c: SideColumn)
    requires status == Added || status == Removed
    ensures c.Of(MarkSubtree(t, status).agg) == if c.Left() == (status == Removed) then Total(t, c) else 0
    decreases t
  {
    hide MarkSubtree, SortRows, OwnAgg, Total, SumAggs, AddAgg, SumMap, Sorted, Less;
    var rows, names := MarkChildren(t, status), Sorted(t.children.Keys);
    var mine := c.Left() == (status == Removed);
    var m := map k | k in t.children :: if mine then Total(t.children[k], c) else 0;
    forall i | 0 <= i < |rows| ensures c.Of(rows[i].agg) == m[names[i]] {
      MarkTotal(t.children[names[i]], status, c);
    }
    NamesDistinct(names);
    SumByName(rows, names, m, c);
    SumSorted(rows);
    MarkIs(t, status);
    SumAdd(c, OwnAgg(status, MarkSubtree(t, status).left, MarkSubtree(t, status).right), SumAggs(rows));
    OwnColumn(c, status, t.info);
    if mine {
      TotalIs(t, c, m);
    } else {
      SumZero(m);
    }
  }

  lemma TotalIs(t: Tree, c: SideColumn, m: map<Str, int>)
    requires m.Keys == t.children.Keys && forall k | k in m :: m[k] == Total(t.children[k], c)
    ensures Total(t, c) == c.Weight(t.info) + SumMap(m)
  {
    hide SumMap;
    assert m == ChildTotals(t, c);
  }

  // ---------------------------------------------------------------- both sides

  ghost function ChildTotal(l: Tree, r: Tree, k: Str, c: SideColumn): int {
    var (t, other) := if c.Left() then (l, r) else (r, l);
    if k !in t.children then 0
    else if k in other.children then Total(Pruned(t.children[k], other.children[k]), c)
    else Total(t.children[k], c)
  }

  /**
   * The file bytes and file counts of a row are those of its own side's tree,
   * without what is below a directory that the other side has as something else.
   */
  lemma {:induction false} DiffTotal(l: Tree, r: Tree, c: SideColumn)
    ensures c.Of(DiffOf(l, r).agg) == Total(if c.Left() then Pruned(l, r) else Pruned(r, l), c)
    decreases l
  {
    hide DiffOf, MetaDiffers, SortRows, OwnAgg, SumAggs, AddAgg, Total, DiffChildren, Pruned, SumMap, MarkSubtree;
    DiffIs(l, r);
    var rows := if l.info.meta.kind == Dir && r.info.meta.kind == Dir then DiffChildren(l, r) else [];
    SumSorted(rows);
    SumAdd(c, OwnAgg(DiffOf(l, r).status, DiffOf(l, r).left, DiffOf(l, r).right), SumAggs(rows));
    OwnBoth(c, DiffOf(l, r).status, l.info, r.info);
    if l.info.meta.kind == Dir && r.info.meta.kind == Dir {
      var m := map k | k in l.children.Keys + r.children.Keys :: ChildTotal(l, r, k, c);
      forall k | k in m ensures c.Of(DiffChild(l, r, k).agg) == m[k] {
        if k !in l.children {
          MarkTotal(r.children[k], Added, c);
        } else if k !in r.children {
          MarkTotal(l.children[k], Removed, c);
        } else {
          DiffTotal(l.children[k], r.children[k], c);
        }
      }
      RowsTotal(l, r, c, m);
      PrunedTotal(l, r, c, m);
    } else {
      NothingPruned(l, r, c);
      assert SumAggs([]) == NO_AGG by { EmptySum(); }
    }
  }

  lemma EmptySum()
    ensures SumAggs([]) == NO_AGG
  {
  }

  lemma OwnBoth(c: SideColumn, status: Status, l: Info, r: Info)
    ensures c.Of(OwnAgg(status, Some(SideOf(l)), Some(SideOf(r)))) == c.Weight(if c.Left() then l else r)
  {
  }

  lemma RowsTotal(l: Tree, r: Tree, c: Column, m: map<Str, int>)
    requires m.Keys == l.children.Keys + r.children.Keys
    requires forall k | k in m :: c.Of(DiffChild(l, r, k).agg) == m[k]
    ensures c.Of(SumAggs(DiffChildren(l, r))) == SumMap(m)
  {
    hide DiffOf, MarkSubtree;
    var names := Sorted(l.children.Keys + r.children.Keys);
    NamesDistinct(names);
    forall i | 0 <= i < |names| ensures names[i] in m && c.Of(DiffChildren(l, r)[i].agg) == m[names[i]] {
      assert names[i] in names;
    }
    SumByName(DiffChildren(l, r), names, m, c);
  }

  lemma PrunedTotal(l: Tree, r: Tree, c: SideColumn, m: map<Str, int>)
    requires l.info.meta.kind == Dir && r.info.meta.kind == Dir
    requires m == map k | k in l.children.Keys + r.children.Keys :: ChildTotal(l, r, k, c)
    ensures Total(if c.Left() then Pruned(l, r) else Pruned(r, l), c)
        == c.Weight(if c.Left() then l.info else r.info) + SumMap(m)
  {
    hide Total;
    var p := if c.Left() then Pruned(l, r) else Pruned(r, l);
    SumPad(m, ChildTotals(p, c));
    TotalIs(p, c, ChildTotals(p, c));
  }

  lemma NothingPruned(l: Tree, r: Tree, c: SideColumn)
    requires l.info.meta.kind != Dir || r.info.meta.kind != Dir
    ensures Total(if c.Left() then Pruned(l, r) else Pruned(r, l), c) == c.Weight(if c.Left() then l.info else r.info)
  {
  }

  // ---------------------------------------------------------------- what changed

  /** What a tree that only one side has is booked to: its files to that side's columns, and nothing to any other. */
  ghost function Whole(t: Tree, status: Status, c: ChangeColumn): int {
    match (status, c)
    case (Added, AddedBytes) => Total(t, RightBytes)
    case (Added, AddedFiles) => Total(t, RightFiles)
    case (Removed, RemovedBytes) => Total(t, LeftBytes)
    case (Removed, RemovedFiles) => Total(t, LeftFiles)
    case _ => 0
  }

  /** What a path that both sides have, and disagree about, is booked to. */
  function Altered(l: Meta, r: Meta, c: ChangeColumn): int {
    match c
    case ModifiedBytesLeft => if l.kind == File then l.size else 0
    case ModifiedBytesRight => if r.kind == File then r.size else 0
    case ModifiedFiles => if l.kind == File || r.kind == File then 1 else 0
    case _ => 0
  }

  /** The changes between two trees, added up over both: each path is booked once, by which sides have it. */
  ghost function Booked(l: Tree, r: Tree, c: ChangeColumn): int
    decreases l, 2
  {
    (if SameInfo(l.info, r.info) then 0 else Altered(l.info.meta, r.info.meta, c))
    + if l.info.meta.kind == Dir && r.info.meta.kind == Dir then SumMap(ChildrenBooked(l, r, c)) else 0
  }

  ghost function ChildrenBooked(l: Tree, r: Tree, c: ChangeColumn): map<Str, int>
    decreases l, 1
  {
    map k | k in l.children.Keys + r.children.Keys :: ChildBooked(l, r, k, c)
  }

  ghost function ChildBooked(l: Tree, r: Tree, k: Str, c: ChangeColumn): int
    requires k in l.children.Keys + r.children.Keys
    decreases l, 0
  {
    if k !in l.children then Whole(r.children[k], Added, c)
    else if k !in r.children then Whole(l.children[k], Removed, c)
    else Booked(l.children[k], r.children[k], c)
  }

  lemma ChildBookedIs(l: Tree, r: Tree, k: Str, c: ChangeColumn)
    requires k in l.children.Keys + r.children.Keys
    ensures ChildrenBooked(l, r, c)[k] ==
      if k !in l.children then Whole(r.children[k], Added, c)
      else if k !in r.children then Whole(l.children[k], Removed, c)
      else Booked(l.children[k], r.children[k], c)
  {
  }

  ghost function OwnWhole(i: Info, status: Status, c: ChangeColumn): int {
    match (status, c)
    case (Added, AddedBytes) => RightBytes.Weight(i)
    case (Added, AddedFiles) => RightFiles.Weight(i)
    case (Removed, RemovedBytes) => LeftBytes.Weight(i)
    case (Removed, RemovedFiles) => LeftFiles.Weight(i)
    case _ => 0
  }

  lemma OwnMarked(i: Info, c: ChangeColumn)
    ensures c.Of(OwnAgg(Removed, Some(SideOf(i)), None)) == OwnWhole(i, Removed, c)
    ensures c.Of(OwnAgg(Added, None, Some(SideOf(i)))) == OwnWhole(i, Added, c)
  {
  }

  lemma WholeIs(t: Tree, status: Status, c: ChangeColumn, m: map<Str, int>)
    requires m.Keys == t.children.Keys && forall k | k in m :: m[k] == Whole(t.children[k], status, c)
    ensures Whole(t, status, c) == OwnWhole(t.info, status, c) + SumMap(m)
  {
    hide SumMap, Total;
    match (status, c)
    case (Added, AddedBytes) => TotalIs(t, RightBytes, m);
    case (Added, AddedFiles) => TotalIs(t, RightFiles, m);
    case (Removed, RemovedBytes) => TotalIs(t, LeftBytes, m);
    case (Removed, RemovedFiles) => TotalIs(t, LeftFiles, m);
    case _ => SumZero(m);
  }

  /** A removed subtree is booked as removed, an added one as added, and as nothing else. */
  lemma {:induction false} MarkChange(t: Tree, status: Status, c: ChangeColumn)
    requires status == Added || status == Removed
    ensures c.Of(MarkSubtree(t, status).agg) == Whole(t, status, c)
    decreases t
  {
    hide MarkSubtree, SortRows, OwnAgg, Total, SumAggs, AddAgg, SumMap, Sorted, Less, Whole, OwnWhole;
    var rows, names := MarkChildren(t, status), Sorted(t.children.Keys);
    var m := map k | k in t.children :: Whole(t.children[k], status, c);
    forall i | 0 <= i < |rows| ensures c.Of(rows[i].agg) == m[names[i]] {
      MarkChange(t.children[names[i]], status, c);
    }
    NamesDistinct(names);
    SumByName(rows, names, m, c);
    SumSorted(rows);
    MarkIs(t, status);
    SumAdd(c, OwnAgg(status, MarkSubtree(t, status).left, MarkSubtree(t, status).right), SumAggs(rows));
    OwnMarked(t.info, c);
    WholeIs(t, status, c, m);
  }

  lemma OwnChanged(status: Status, l: Info, r: Info, c: ChangeColumn)
    requires status == Unchanged || status == Modified
    requires l.meta.kind != Dir || r.meta.kind != Dir ==> (status == Modified <==> MetaDiffers(l, r))
    ensures c.Of(OwnAgg(status, Some(SideOf(l)), Some(SideOf(r))))
         == if SameInfo(l, r) then 0 else Altered(l.meta, r.meta, c)
  {
    DiffersIff(l, r);
  }

  /** Every change column of a comparison is the sum of what changed between the two trees. */
  lemma {:induction false} DiffChange(l: Tree, r: Tree, c: ChangeColumn)
    ensures c.Of(DiffOf(l, r).agg) == Booked(l, r, c)
    decreases l
  {
    hide DiffOf, MetaDiffers, SortRows, OwnAgg, SumAggs, AddAgg, DiffChildren, SumMap, MarkSubtree, SameInfo, Altered,
        Whole;
    DiffIs(l, r);
    var rows := if l.info.meta.kind == Dir && r.info.meta.kind == Dir then DiffChildren(l, r) else [];
    SumSorted(rows);
    SumAdd(c, OwnAgg(DiffOf(l, r).status, DiffOf(l, r).left, DiffOf(l, r).right), SumAggs(rows));
    NoneChanged();
    OwnChanged(DiffOf(l, r).status, l.info, r.info, c);
    if l.info.meta.kind == Dir && r.info.meta.kind == Dir {
      var m := ChildrenBooked(l, r, c);
      forall k | k in m ensures c.Of(DiffChild(l, r, k).agg) == m[k] {
        ChildBookedIs(l, r, k, c);
        if k !in l.children {
          MarkChange(r.children[k], Added, c);
        } else if k !in r.children {
          MarkChange(l.children[k], Removed, c);
        } else {
          DiffChange(l.children[k], r.children[k], c);
        }
      }
      RowsTotal(l, r, c, m);
    } else {
      assert SumAggs([]) == NO_AGG by { EmptySum(); }
    }
  }

  // ---------------------------------------------------------------- the breakdown

  /** The bytes of the unchanged regular files below a row, and its own. */
  ghost function SteadyBytes(d: DiffNode): int {
    (if d.status == Unchanged then Bytes(d.left) else 0) + SteadySum(d.children)
  }

  ghost function SteadySum(rows: seq<DiffNode>): int {
    if rows == [] then 0 else SteadyBytes(rows[0]) + SteadySum(rows[1..])
  }

  /** Totals are bottom-up, and a row's status agrees with what it has on each side. */
  ghost predicate Honest(d: DiffNode) {
    && d.agg == AddAgg(OwnAgg(d.status, d.left, d.right), SumAggs(d.children))
    && (match d.status
        case Unchanged => Bytes(d.left) == Bytes(d.right) && Count(d.left) == Count(d.right)
        case Added => d.left.None?
        case Removed => d.right.None?
        case Modified => d.left.Some? && d.right.Some?)
    && forall c | c in d.children :: Honest(c)
  }

  /** Each side's bytes are its removed or added, its modified, and the same unchanged bytes on both sides. */
  ghost predicate Balanced(a: Agg, steady: int) {
    && a.leftBytes == a.removedBytes + a.modifiedBytesLeft + steady
    && a.rightBytes == a.addedBytes + a.modifiedBytesRight + steady
  }

  lemma {:induction false} HonestBalanced(d: DiffNode)
    requires Honest(d)
    ensures Balanced(d.agg, SteadyBytes(d))
    decreases d, 1
  {
    hide SumAggs, SteadySum;
    HonestRows(d.children);
  }

  lemma {:induction false} HonestRows(rows: seq<DiffNode>)
    requires forall c | c in rows :: Honest(c)
    ensures Balanced(SumAggs(rows), SteadySum(rows))
    decreases rows, 0
  {
    hide Honest;
    if rows != [] {
      HonestBalanced(rows[0]);
      assert forall c | c in rows[1..] :: c in rows;
      HonestRows(rows[1..]);
    }
  }

  lemma {:induction false} MarkHonest(t: Tree, status: Status)
    requires status == Added || status == Removed
    ensures Honest(MarkSubtree(t, status))
    decreases t
  {
    hide MarkSubtree, SortRows, OwnAgg, SumAggs, AddAgg;
    MarkIs(t, status);
    var rows, names := MarkChildren(t, status), Sorted(t.children.Keys);
    forall c | c in MarkSubtree(t, status).children ensures Honest(c) {
      SortMembers(rows, c);
      var i :| 0 <= i < |rows| && rows[i] == c;
      MarkHonest(t.children[names[i]], status);
    }
  }

  lemma SameBytes(l: Info, r: Info)
    requires !MetaDiffers(l, r)
    ensures Bytes(Some(SideOf(l))) == Bytes(Some(SideOf(r))) && Count(Some(SideOf(l))) == Count(Some(SideOf(r)))
  {
  }

  lemma {:induction false} DiffHonest(l: Tree, r: Tree)
    ensures Honest(DiffOf(l, r))
    decreases l
  {
    hide DiffOf, MarkSubtree, MetaDiffers, SortRows, DiffChildren, OwnAgg, SumAggs, AddAgg, Bytes, Count;
    DiffIs(l, r);
    var d := DiffOf(l, r);
    if d.status == Unchanged { SameBytes(l.info, r.info); }
    forall c | c in d.children ensures Honest(c) {
      SortMembers(DiffChildren(l, r), c);
      var k := RowIsChild(l, r, c);
      if k !in l.children {
        MarkHonest(r.children[k], Added);
      } else if k !in r.children {
        MarkHonest(l.children[k], Removed);
      } else {
        DiffHonest(l.children[k], r.children[k]);
      }
    }
  }

  ghost predicate BelowOrAt(d: DiffNode, row: DiffNode) {
    row == d || exists route :: Route(d, route) && route != [] && route[|route| - 1] == row
  }

  lemma {:induction false} HonestBelow(d: DiffNode, route: seq<DiffNode>)
    requires Honest(d) && Route(d, route) && route != []
    ensures Honest(route[|route| - 1])
    decreases |route|
  {
    if |route| > 1 { HonestBelow(route[0], route[1..]); }
  }

  predicate DirOrNone(s: Option<Side>) {
    s.Some? ==> s.value.fields.kind == Dir
  }

  lemma HonestDir(d: DiffNode)
    requires Honest(d) && DirOrNone(d.left) && DirOrNone(d.right)
    ensures d.agg == SumAggs(d.children)
  {
    hide SumAggs;
  }

  lemma RowIsHonest(l: Tree, r: Tree, row: DiffNode)
    requires BelowOrAt(DiffOf(l, r), row)
    ensures Honest(row)
  {
    hide DiffOf, Honest;
    DiffHonest(l, r);
    if row != DiffOf(l, r) {
      var route :| Route(DiffOf(l, r), route) && route != [] && route[|route| - 1] == row;
      HonestBelow(DiffOf(l, r), route);
    }
  }

  /** At every row of a comparison the growth of the right side is what was added and modified less what was removed. */
  lemma EveryRowBalances(l: Tree, r: Tree, row: DiffNode)
    requires BelowOrAt(DiffOf(l, r), row)
    ensures Balanced(row.agg, SteadyBytes(row))
    ensures var a := row.agg;
            a.rightBytes - a.leftBytes == a.addedBytes + a.modifiedBytesRight - a.removedBytes - a.modifiedBytesLeft
    ensures DirOrNone(row.left) && DirOrNone(row.right) ==> row.agg == SumAggs(row.children)
  {
    hide DiffOf, Honest, SteadyBytes, SumAggs, BelowOrAt;
    RowIsHonest(l, r, row);
    HonestBalanced(row);
    if DirOrNone(row.left) && DirOrNone(row.right) { HonestDir(row); }
  }

  // ---------------------------------------------------------------- the size bar

  /** Header sizes are not negative. */
  ghost predicate Sized(t: Tree) {
    t.info.meta.size >= 0 && forall k | k in t.children :: Sized(t.children[k])
  }

  ghost predicate SizedRow(d: DiffNode) {
    Bytes(d.left) >= 0 && Bytes(d.right) >= 0 && forall c | c in d.children :: SizedRow(c)
  }

  lemma {:induction false} MarkSized(t: Tree, status: Status)
    requires Sized(t)
    ensures SizedRow(MarkSubtree(t, status))
    decreases t
  {
    hide MarkSubtree, SortRows, OwnAgg, SumAggs, AddAgg;
    MarkIs(t, status);
    var rows, names := MarkChildren(t, status), Sorted(t.children.Keys);
    forall c | c in MarkSubtree(t, status).children ensures SizedRow(c) {
      SortMembers(rows, c);
      var i :| 0 <= i < |rows| && rows[i] == c;
      MarkSized(t.children[names[i]], status);
    }
  }

  lemma {:induction false} DiffSized(l: Tree, r: Tree)
    requires Sized(l) && Sized(r)
    ensures SizedRow(DiffOf(l, r))
    decreases l
  {
    hide DiffOf, MarkSubtree, MetaDiffers, SortRows, DiffChildren, OwnAgg, SumAggs, AddAgg;
    DiffIs(l, r);
    forall c | c in DiffOf(l, r).children ensures SizedRow(c) {
      SortMembers(DiffChildren(l, r), c);
      var k := RowIsChild(l, r, c);
      if k !in l.children {
        MarkSized(r.children[k], Added);
      } else if k !in r.children {
        MarkSized(l.children[k], Removed);
      } else {
        DiffSized(l.children[k], r.children[k]);
      }
    }
  }

  lemma {:induction false} SteadyNotNegative(d: DiffNode)
    requires SizedRow(d)
    ensures SteadyBytes(d) >= 0
    decreases d, 1
  {
    SteadyRowsNotNegative(d.children);
  }

  lemma {:induction false} SteadyRowsNotNegative(rows: seq<DiffNode>)
    requires forall c | c in rows :: SizedRow(c)
    ensures SteadySum(rows) >= 0
    decreases rows, 0
  {
    hide SizedRow;
    if rows != [] {
      SteadyNotNegative(rows[0]);
      assert forall c | c in rows[1..] :: c in rows;
      SteadyRowsNotNegative(rows[1..]);
    }
  }

  lemma {:induction false} SizedBelow(d: DiffNode, route: seq<DiffNode>)
    requires SizedRow(d) && Route(d, route) && route != []
    ensures SizedRow(route[|route| - 1])
    decreases |route|
  {
    if |route| > 1 { SizedBelow(route[0], route[1..]); }
  }

  /** The neutral segment of the client's bar: what no change accounts for, cut off at zero. */
  function NeutralSegment(a: Agg): (r: int)
    ensures r >= 0
  {
    var rest := a.leftBytes + a.rightBytes - a.addedBytes - a.removedBytes
        - (a.modifiedBytesLeft + a.modifiedBytesRight);
    if rest < 0 then 0 else rest
  }

  /** The cut never happens: the segment is the unchanged bytes of both sides, and the four segments make up the
      total. */
  lemma ClampNeverFires(l: Tree, r: Tree, row: DiffNode)
    requires Sized(l) && Sized(r) && BelowOrAt(DiffOf(l, r), row)
    ensures NeutralSegment(row.agg) == 2 * SteadyBytes(row)
    ensures var a := row.agg;
            NeutralSegment(a) + a.modifiedBytesLeft + a.modifiedBytesRight + a.addedBytes + a.removedBytes
                == a.leftBytes + a.rightBytes
  {
    hide DiffOf, Sized, SizedRow, SteadyBytes, SumAggs;
    EveryRowBalances(l, r, row);
    DiffSized(l, r);
    if row != DiffOf(l, r) {
      var route :| Route(DiffOf(l, r), route) && route != [] && route[|route| - 1] == row;
      SizedBelow(DiffOf(l, r), route);
    }
    SteadyNotNegative(row);
  }

  // ---------------------------------------------------------------- order at every level

  /** The children of every row are sorted and have distinct names. */
  ghost predicate Ordered(d: DiffNode) {
    RowsInOrder(d.children) && DistinctNames(d.children) && forall c | c in d.children :: Ordered(c)
  }

  lemma SortDistinct(rows: seq<DiffNode>)
    requires DistinctNames(rows)
    ensures RowsInOrder(SortRows(rows)) && DistinctNames(SortRows(rows))
  {
    SortInOrder(rows);
    var s := SortRows(rows);
    forall i, j | 0 <= i < j < |s| ensures s[i].name != s[j].name {
      SortMembers(rows, s[i]);
      SortMembers(rows, s[j]);
      var p :| 0 <= p < |rows| && rows[p] == s[i];
      var q :| 0 <= q < |rows| && rows[q] == s[j];
      RowBeforeOrder(s[i], s[j], s[i]);
      assert p < q || q < p;
    }
  }

  lemma {:induction false} MarkOrdered(t: Tree, status: Status)
    requires Tidy(t)
    ensures Ordered(MarkSubtree(t, status))
    decreases t
  {
    hide MarkSubtree, SortRows, RowsInOrder, DistinctNames, Tidy;
    MarkIs(t, status);
    MarkDistinct(t, status);
    TidyChildren(t);
    var rows, names := MarkChildren(t, status), Sorted(t.children.Keys);
    SortDistinct(rows);
    forall c | c in MarkSubtree(t, status).children ensures Ordered(c) {
      SortMembers(rows, c);
      var i :| 0 <= i < |rows| && rows[i] == c;
      MarkOrdered(t.children[names[i]], status);
    }
  }

  lemma {:induction false} DiffOrdered(l: Tree, r: Tree)
    requires Tidy(l) && Tidy(r)
    ensures Ordered(DiffOf(l, r))
    decreases l
  {
    hide DiffOf, MarkSubtree, MetaDiffers, SortRows, DiffChildren, OwnAgg, SumAggs, AddAgg, RowsInOrder, DistinctNames,
        Tidy;
    DiffIs(l, r);
    DiffDistinct(l, r);
    NoRowsInOrder();
    TidyChildren(l);
    TidyChildren(r);
    SortDistinct(DiffChildren(l, r));
    forall c | c in DiffOf(l, r).children ensures Ordered(c) {
      SortMembers(DiffChildren(l, r), c);
      var k := RowIsChild(l, r, c);
      if k !in l.children {
        MarkOrdered(r.children[k], Added);
      } else if k !in r.children {
        MarkOrdered(l.children[k], Removed);
      } else {
        DiffOrdered(l.children[k], r.children[k]);
      }
    }
  }

  lemma NoRowsInOrder()
    ensures SortRows([]) == [] && RowsInOrder([]) && DistinctNames([])
  {
  }

  lemma {:induction false} OrderedBelow(d: DiffNode, route: seq<DiffNode>)
    requires Ordered(d) && Route(d, route) && route != []
    ensures Ordered(route[|route| - 1])
    decreases |route|
  {
    if |route| > 1 { OrderedBelow(route[0], route[1..]); }
  }

  /** A row counts as a directory if the right side is one, or the left where there is no right side. */
  ghost predicate DirectoryRow(d: DiffNode) {
    || (d.right.Some? && d.right.value.fields.kind == Dir)
    || (d.right.None? && d.left.Some? && d.left.value.fields.kind == Dir)
  }

  lemma InOrderMeans(rows: seq<DiffNode>, i: nat, j: nat)
    requires RowsInOrder(rows) && i < j < |rows|
    ensures DirectoryRow(rows[j]) ==> DirectoryRow(rows[i])
    ensures (DirectoryRow(rows[i]) <==> DirectoryRow(rows[j])) ==> Less(rows[i].name, rows[j].name)
  {
    assert RowBefore(rows[i], rows[j]);
  }

  /** Directories first and then names, at every level of a comparison, with no name twice. */
  lemma EveryLevelInOrder(l: Tree, r: Tree, row: DiffNode)
    requires Tidy(l) && Tidy(r) && BelowOrAt(DiffOf(l, r), row)
    ensures RowsInOrder(row.children) && DistinctNames(row.children)
    ensures forall i, j | 0 <= i < j < |row.children| ::
        && (DirectoryRow(row.children[j]) ==> DirectoryRow(row.children[i]))
        && ((DirectoryRow(row.children[i]) <==> DirectoryRow(row.children[j])) ==>
              Less(row.children[i].name, row.children[j].name))
  {
    hide DiffOf, Tidy, RowsInOrder, DistinctNames, DirectoryRow, Less;
    DiffOrdered(l, r);
    if row != DiffOf(l, r) {
      var route :| Route(DiffOf(l, r), route) && route != [] && route[|route| - 1] == row;
      OrderedBelow(DiffOf(l, r), route);
    }
    forall i, j | 0 <= i < j < |row.children|
      ensures DirectoryRow(row.children[j]) ==> DirectoryRow(row.children[i])
      ensures (DirectoryRow(row.children[i]) <==> DirectoryRow(row.children[j])) ==>
          Less(row.children[i].name, row.children[j].name)
    {
      InOrderMeans(row.children, i, j);
    }
  }
}
