/** Which rows a comparison has: one for every path either tree has above a directory-or-not clash. */
module DiffRows {
  import opened Options
  import opened ByteStrings
  import opened Entries
  import opened Paths
  import opened Diff
  import opened DiffTheorems
  import opened DiffTotals

  /** The first row with the name. */
  function FindRow(rows: seq<DiffNode>, name: Str): Option<DiffNode> {
    if rows == [] then None else if rows[0].name == name then Some(rows[0]) else FindRow(rows[1..], name)
  }

  /** The row at a path of names below d. */
  function RowAt(d: DiffNode, p: Path): Option<DiffNode>
    decreases |p|
  {
    if p == [] then Some(d) else
      match FindRow(d.children, p[0])
      case None => None
      case Some(c) => RowAt(c, p[1..])
  }

  /** The walk to a path; empty names are passed over. */
  method FindNode(root: DiffNode, s: Str) returns (node: Option<DiffNode>)
    ensures node == RowAt(root, NonEmpty(Split(TrimRight(TrimLeft(s)))))
  {
    var segs := Split(TrimRight(TrimLeft(s)));
    var cur := root;
    assert segs[0..] == segs;
    for i := 0 to |segs|
      invariant RowAt(cur, NonEmpty(segs[i..])) == RowAt(root, NonEmpty(segs))
    {
      assert segs[i..][1..] == segs[i + 1..];
      if segs[i] != [] {
        assert NonEmpty(segs[i..]) == [segs[i]] + NonEmpty(segs[i + 1..]);
        assert NonEmpty(segs[i..])[1..] == NonEmpty(segs[i + 1..]);
        var next := None;
        ghost var rows := cur.children;
        assert rows[0..] == rows;
        for j := 0 to |cur.children|
          invariant next == None && FindRow(rows[j..], segs[i]) == FindRow(rows, segs[i])
        {
          assert rows[j..][1..] == rows[j + 1..];
          if cur.children[j].name == segs[i] {
            next := Some(cur.children[j]);
            break;
          }
        }
        if next.None? {
          assert FindRow(rows, segs[i]) == None;
          return None;
        }
        cur := next.value;
      }
    }
    assert segs[|segs|..] == [];
    return Some(cur);
  }

  function NonEmpty(segs: seq<Str>): Path {
    if segs == [] then [] else if segs[0] == [] then NonEmpty(segs[1..]) else [segs[0]] + NonEmpty(segs[1..])
  }

  lemma {:induction false} NoneDropped(segs: seq<Str>)
    requires forall x | x in segs :: x != []
    ensures NonEmpty(segs) == segs
    decreases |segs|
  {
    if segs != [] {
      assert segs[0] in segs && forall x | x in segs[1..] :: x in segs;
      NoneDropped(segs[1..]);
    }
  }

  /** A path that is spelt out as usual leads to the row at it, with however many slashes around it. */
  lemma WalkPath(p: Path)
    requires Clean(p)
    ensures NonEmpty(Split(TrimRight(TrimLeft(Rooted(p))))) == p
    ensures NonEmpty(Split(TrimRight(TrimLeft([SLASH] + Rooted(p))))) == p
  {
    hide Split, TrimRight, Rooted, Join;
    SegmentsOfRooted(p);
    NoneDropped(p);
    EmptyName();
  }

  lemma EmptyName()
    ensures Split([]) == [[]] && NonEmpty([[]]) == []
  {
    var one: seq<Str> := [[]];
    assert one[1..] == [];
  }

  // ---------------------------------------------------------------- rows by name

  lemma {:induction false} FindMember(rows: seq<DiffNode>, c: DiffNode)
    requires DistinctNames(rows) && c in rows
    ensures FindRow(rows, c.name) == Some(c)
    decreases |rows|
  {
    if rows[0] != c {
      assert c in rows[1..];
      var j :| 0 <= j < |rows[1..]| && rows[1..][j] == c;
      assert rows[j + 1] == c;
      assert forall i, k | 0 <= i < k < |rows[1..]| :: rows[1..][i] == rows[i + 1] && rows[1..][k] == rows[k + 1];
      FindMember(rows[1..], c);
    }
  }

  lemma {:induction false} FindNone(rows: seq<DiffNode>, name: Str)
    requires forall c | c in rows :: c.name != name
    ensures FindRow(rows, name) == None
    decreases |rows|
  {
    if rows != [] {
      assert rows[0] in rows;
      FindNone(rows[1..], name);
    }
  }

  lemma MarkChild(t: Tree, status: Status, k: Str)
    requires Tidy(t)
    ensures FindRow(MarkSubtree(t, status).children, k)
         == if k in t.children then Some(MarkSubtree(t.children[k], status)) else None
  {
    hide MarkSubtree, SortRows, Tidy, FindRow, DistinctNames;
    var rows, names := MarkChildren(t, status), Sorted(t.children.Keys);
    MarkDistinct(t, status);
    SortDistinct(rows);
    if k in t.children {
      assert k in names;
      var i :| 0 <= i < |names| && names[i] == k;
      assert rows[i] in rows;
      SortMembers(rows, rows[i]);
      MarkNamed(t, status, k);
      FindMember(SortRows(rows), rows[i]);
    } else {
      forall c | c in SortRows(rows) ensures c.name != k {
        SortMembers(rows, c);
        var i :| 0 <= i < |rows| && rows[i] == c;
        MarkNamed(t, status, names[i]);
      }
      FindNone(SortRows(rows), k);
    }
  }

  lemma BothChild(l: Tree, r: Tree, k: Str)
    requires Tidy(l) && Tidy(r) && l.info.meta.kind == Dir && r.info.meta.kind == Dir
    ensures FindRow(DiffOf(l, r).children, k)
         == if k in l.children.Keys + r.children.Keys then Some(DiffChild(l, r, k)) else None
  {
    hide DiffOf, MarkSubtree, MetaDiffers, SortRows, DiffChildren, OwnAgg, SumAggs, AddAgg, Tidy, FindRow,
        DistinctNames, DiffChild;
    DiffIs(l, r);
    var rows := DiffChildren(l, r);
    DiffDistinct(l, r);
    SortDistinct(rows);
    if k in l.children.Keys + r.children.Keys {
      ChildRow(l, r, k);
      SortMembers(rows, DiffChild(l, r, k));
      DiffChildNamed(l, r, k);
      FindMember(SortRows(rows), DiffChild(l, r, k));
    } else {
      forall c | c in SortRows(rows) ensures c.name != k {
        SortMembers(rows, c);
        var n := RowIsChild(l, r, c);
        DiffChildNamed(l, r, n);
      }
      FindNone(SortRows(rows), k);
    }
  }

  // ---------------------------------------------------------------- rows by path

  lemma {:induction false} MarkRowAt(t: Tree, status: Status, p: Path)
    requires Tidy(t)
    ensures RowAt(MarkSubtree(t, status), p).Some? <==> Has(t, p)
    ensures Has(t, p) ==>
      var row := RowAt(MarkSubtree(t, status), p).value;
      && row.status == status
      && row.left == (if status == Added then None else Some(SideOf(At(t, p))))
      && row.right == (if status == Added then Some(SideOf(At(t, p))) else None)
    decreases |p|
  {
    hide MarkSubtree, FindRow, Tidy;
    MarkIs(t, status);
    if p != [] {
      MarkChild(t, status, p[0]);
      TidyChildren(t);
      if p[0] in t.children {
        MarkRowAt(t.children[p[0]], status, p[1..]);
      }
    }
  }

  ghost function SideAt(t: Tree, p: Path): Option<Side> {
    if Has(t, p) then Some(SideOf(At(t, p))) else None
  }

  lemma PrunedChild(t: Tree, other: Tree, k: Str)
    ensures Pruned(t, other).info == t.info
    ensures k in Pruned(t, other).children
        <==> k in t.children && t.info.meta.kind == Dir && other.info.meta.kind == Dir
    ensures k in Pruned(t, other).children ==>
      Pruned(t, other).children[k] == if k in other.children then Pruned(t.children[k], other.children[k])
          else t.children[k]
  {
  }

  /** What a row says of the two sides. */
  ghost predicate Shows(row: Option<DiffNode>, left: Option<Side>, right: Option<Side>) {
    && (row.Some? <==> left.Some? || right.Some?)
    && (row.Some? ==> row.value.left == left && row.value.right == right)
    && (row.Some? ==> (row.value.status == Added <==> left.None?) && (row.value.status == Removed <==> right.None?))
  }

  /**
   * There is a row exactly for each path that either tree has above a clash, with each side's metadata as that side
   * has it; it is Added or Removed exactly when the other side has nothing there.
   */
  lemma {:induction false} EveryPathHasItsRow(l: Tree, r: Tree, p: Path)
    requires Tidy(l) && Tidy(r)
    ensures Shows(RowAt(DiffOf(l, r), p), SideAt(Pruned(l, r), p), SideAt(Pruned(r, l), p))
    decreases |p|
  {
    hide DiffOf, MarkSubtree, MetaDiffers, SortRows, DiffChildren, OwnAgg, SumAggs, AddAgg, Tidy, FindRow, Pruned,
        DiffChild;
    DiffIs(l, r);
    if p == [] {
      PrunedChild(l, r, []);
      PrunedChild(r, l, []);
    } else {
      var k := p[0];
      PrunedChild(l, r, k);
      PrunedChild(r, l, k);
      if l.info.meta.kind == Dir && r.info.meta.kind == Dir {
        BothChild(l, r, k);
        TidyChildren(l);
        TidyChildren(r);
        if k in l.children && k in r.children {
          EveryPathHasItsRow(l.children[k], r.children[k], p[1..]);
          DiffChildIs(l, r, k);
        } else if k in l.children {
          OnlyIn(l, r, k);
          MarkRowAt(l.children[k], Removed, p[1..]);
        } else if k in r.children {
          OnlyIn(l, r, k);
          MarkRowAt(r.children[k], Added, p[1..]);
        }
      } else {
        NoRowsBelow(l, r, k);
      }
    }
  }

  lemma OnlyIn(l: Tree, r: Tree, k: Str)
    ensures k in l.children && k !in r.children ==> DiffChild(l, r, k) == MarkSubtree(l.children[k], Removed)
    ensures k !in l.children && k in r.children ==> DiffChild(l, r, k) == MarkSubtree(r.children[k], Added)
  {
  }

  lemma NoRowsBelow(l: Tree, r: Tree, k: Str)
    requires l.info.meta.kind != Dir || r.info.meta.kind != Dir
    ensures FindRow(DiffOf(l, r).children, k) == None
  {
  }

  // ---------------------------------------------------------------- the comparison at every path

  /** The subtree at a path. */
  ghost function Below(t: Tree, p: Path): Option<Tree>
    decreases |p|
  {
    if p == [] then Some(t) else if p[0] in t.children then Below(t.children[p[0]], p[1..]) else None
  }

  /** The subtree at a path that the comparison gets to: not below a directory that the other side has as something
      else. */
  ghost function Reached(t: Tree, other: Tree, p: Path): Option<Tree>
    decreases |p|
  {
    if p == [] then Some(t)
    else if t.info.meta.kind != Dir || other.info.meta.kind != Dir || p[0] !in t.children then None
    else if p[0] in other.children then Reached(t.children[p[0]], other.children[p[0]], p[1..])
    else Below(t.children[p[0]], p[1..])
  }

  lemma {:induction false} MarkRowIs(t: Tree, status: Status, p: Path)
    requires Tidy(t)
    ensures RowAt(MarkSubtree(t, status), p)
         == if Below(t, p).Some? then Some(MarkSubtree(Below(t, p).value, status)) else None
    decreases |p|
  {
    hide MarkSubtree, FindRow, Tidy;
    if p != [] {
      MarkChild(t, status, p[0]);
      TidyChildren(t);
      if p[0] in t.children {
        MarkRowIs(t.children[p[0]], status, p[1..]);
      }
    }
  }

  /** The row at a path is the comparison of the two subtrees there, or the marked subtree of the one side that has
      one. */
  lemma {:induction false} RowIsComparison(l: Tree, r: Tree, p: Path)
    requires Tidy(l) && Tidy(r)
    ensures RowAt(DiffOf(l, r), p) == DiffSpec(Reached(l, r, p), Reached(r, l, p))
    decreases |p|
  {
    hide DiffOf, MarkSubtree, Tidy, FindRow, DiffChild;
    if p != [] {
      var k := p[0];
      if l.info.meta.kind == Dir && r.info.meta.kind == Dir {
        BothChild(l, r, k);
        TidyChildren(l);
        TidyChildren(r);
        if k in l.children && k in r.children {
          RowIsComparison(l.children[k], r.children[k], p[1..]);
          DiffChildIs(l, r, k);
        } else if k in l.children {
          OnlyIn(l, r, k);
          MarkRowIs(l.children[k], Removed, p[1..]);
        } else if k in r.children {
          OnlyIn(l, r, k);
          MarkRowIs(r.children[k], Added, p[1..]);
        }
      } else {
        NoRowsBelow(l, r, k);
      }
    }
  }

  /** What the comparison gets to is the tree's own subtree; what it does not get to, while it gets to the other side's,
      is not there. */
  lemma {:induction false} ReachedIs(t: Tree, other: Tree, p: Path)
    ensures Reached(t, other, p).Some? ==> Below(t, p) == Reached(t, other, p)
    ensures Reached(t, other, p).None? && Reached(other, t, p).Some? ==> Below(t, p).None?
    decreases |p|
  {
    if p != [] && p[0] in t.children && p[0] in other.children {
      ReachedIs(t.children[p[0]], other.children[p[0]], p[1..]);
    }
  }

  /** Pruning commutes with going to a path. */
  lemma {:induction false} PrunedBelow(t: Tree, other: Tree, p: Path)
    ensures Below(Pruned(t, other), p) ==
            match (Reached(t, other, p), Reached(other, t, p))
            case (None, _) => None
            case (Some(u), None) => Some(u)
            case (Some(u), Some(v)) => Some(Pruned(u, v))
    decreases |p|
  {
    hide Pruned;
    if p != [] {
      PrunedChild(t, other, p[0]);
      if p[0] in t.children && p[0] in other.children {
        PrunedBelow(t.children[p[0]], other.children[p[0]], p[1..]);
      }
    }
  }

  /** The bytes and files that a tree has at and below a path. */
  ghost function TotalAt(t: Tree, p: Path, c: SideColumn): int {
    if Below(t, p).Some? then Total(Below(t, p).value, c) else 0
  }

  /** At every path the byte and file columns of the row are sums over what each pruned tree has there. */
  lemma EveryRowTotals(l: Tree, r: Tree, p: Path, c: SideColumn)
    requires Tidy(l) && Tidy(r) && RowAt(DiffOf(l, r), p).Some?
    ensures c.Of(RowAt(DiffOf(l, r), p).value.agg) == TotalAt(if c.Left() then Pruned(l, r) else Pruned(r, l), p, c)
  {
    hide DiffOf, MarkSubtree, Tidy, RowAt, Pruned, Total, Reached, Below;
    RowIsComparison(l, r, p);
    PrunedBelow(l, r, p);
    PrunedBelow(r, l, p);
    match (Reached(l, r, p), Reached(r, l, p))
    case (Some(t), Some(u)) => DiffTotal(t, u, c);
    case (Some(t), None) => MarkTotal(t, Removed, c);
    case (None, Some(u)) => MarkTotal(u, Added, c);
    case _ =>
  }

  /** What changed at and below a path that the comparison gets to on either side. */
  ghost function ChangeAt(l: Option<Tree>, r: Option<Tree>, c: ChangeColumn): int {
    match (l, r)
    case (Some(t), Some(u)) => Booked(t, u, c)
    case (Some(t), None) => Whole(t, Removed, c)
    case (None, Some(u)) => Whole(u, Added, c)
    case (None, None) => 0
  }

  /** At every path the change columns of the row are sums over the two subtrees there. */
  lemma EveryRowChanges(l: Tree, r: Tree, p: Path, c: ChangeColumn)
    requires Tidy(l) && Tidy(r) && RowAt(DiffOf(l, r), p).Some?
    ensures c.Of(RowAt(DiffOf(l, r), p).value.agg) == ChangeAt(Reached(l, r, p), Reached(r, l, p), c)
  {
    hide DiffOf, MarkSubtree, Tidy, RowAt, Booked, Whole, Reached;
    RowIsComparison(l, r, p);
    match (Reached(l, r, p), Reached(r, l, p))
    case (Some(t), Some(u)) => DiffChange(t, u, c);
    case (Some(t), None) => MarkChange(t, Removed, c);
    case (None, Some(u)) => MarkChange(u, Added, c);
    case _ =>
  }

  lemma {:induction false} HasBelow(t: Tree, p: Path, q: Path)
    ensures Has(t, p) <==> Below(t, p).Some?
    ensures Below(t, p).Some? ==> (Has(t, p + q) <==> Has(Below(t, p).value, q))
    ensures Below(t, p).Some? && Has(t, p + q) ==> At(t, p + q) == At(Below(t, p).value, q)
    decreases |p|
  {
    if p == [] {
      assert p + q == q;
    } else {
      assert (p + q)[1..] == p[1..] + q;
      if p[0] in t.children { HasBelow(t.children[p[0]], p[1..], q); }
    }
  }

  /** At every path the row is Unchanged exactly when the two trees agree there and at every path below. */
  lemma EveryRowUnchangedIff(l: Tree, r: Tree, p: Path)
    requires Tidy(l) && Tidy(r) && RowAt(DiffOf(l, r), p).Some?
    ensures RowAt(DiffOf(l, r), p).value.status == Unchanged <==> forall q :: SameAt(l, r, p + q)
  {
    hide DiffOf, MarkSubtree, Tidy, RowAt, Reached, Below, Has, At, MetaDiffers;
    RowIsComparison(l, r, p);
    ReachedIs(l, r, p);
    ReachedIs(r, l, p);
    var (t, u) := (Reached(l, r, p), Reached(r, l, p));
    if t.Some? && u.Some? {
      ReachedTidy(l, r, p);
      ReachedTidy(r, l, p);
      UnchangedIff(t.value, u.value);
      forall q ensures SameAt(l, r, p + q) <==> SameAt(t.value, u.value, q) {
        HasBelow(l, p, q);
        HasBelow(r, p, q);
      }
    } else {
      MarkStatus(if t.Some? then t.value else u.value, Added);
      MarkStatus(if t.Some? then t.value else u.value, Removed);
      HasBelow(l, p, []);
      HasBelow(r, p, []);
      assert p + [] == p && !SameAt(l, r, p + []);
    }
  }

  lemma MarkStatus(t: Tree, status: Status)
    ensures MarkSubtree(t, status).status == status
  {
  }

  lemma {:induction false} BelowTidy(t: Tree, p: Path)
    requires Tidy(t)
    ensures Below(t, p).Some? ==> Tidy(Below(t, p).value)
    decreases |p|
  {
    hide Tidy;
    if p != [] && p[0] in t.children {
      TidyChildren(t);
      BelowTidy(t.children[p[0]], p[1..]);
    }
  }

  lemma ReachedTidy(t: Tree, other: Tree, p: Path)
    requires Tidy(t)
    ensures Reached(t, other, p).Some? ==> Tidy(Reached(t, other, p).value)
  {
    hide Tidy, Reached, Below;
    ReachedIs(t, other, p);
    BelowTidy(t, p);
  }
}
