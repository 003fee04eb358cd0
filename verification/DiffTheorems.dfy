/** What the rows of a comparison say about the two trees. */
module DiffTheorems {
  import opened ByteStrings
  import opened Paths
  import opened Filesystem
  import opened Diff

  // ---------------------------------------------------------------- which rows are unchanged

  ghost predicate Has(t: Tree, p: Path)
    decreases |p|
  {
    p == [] || (p[0] in t.children && Has(t.children[p[0]], p[1..]))
  }

  ghost function At(t: Tree, p: Path): Info
    requires Has(t, p)
    decreases |p|
  {
    if p == [] then t.info else At(t.children[p[0]], p[1..])
  }

  /** Both trees have the path and agree there, or neither has it. */
  ghost predicate SameAt(l: Tree, r: Tree, p: Path) {
    (Has(l, p) <==> Has(r, p)) && (Has(l, p) && Has(r, p) ==> SameInfo(At(l, p), At(r, p)))
  }

  lemma ChildRow(l: Tree, r: Tree, k: Str)
    requires k in l.children.Keys + r.children.Keys
    ensures DiffChild(l, r, k) in DiffChildren(l, r)
  {
    hide DiffOf, MarkSubtree;
    var names := Sorted(l.children.Keys + r.children.Keys);
    assert k in names;
    var i :| 0 <= i < |names| && names[i] == k;
    assert DiffChildren(l, r)[i] == DiffChild(l, r, k);
  }

  lemma RowIsChild(l: Tree, r: Tree, d: DiffNode) returns (k: Str)
    requires d in DiffChildren(l, r)
    ensures k in l.children.Keys + r.children.Keys && d == DiffChild(l, r, k)
  {
    hide DiffOf, MarkSubtree;
    var names := Sorted(l.children.Keys + r.children.Keys);
    var i :| 0 <= i < |names| && DiffChildren(l, r)[i] == d;
    k := names[i];
    assert k in names;
  }

  lemma StepDown(l: Tree, r: Tree, k: Str, p: Path)
    requires k in l.children && k in r.children
    ensures SameAt(l, r, [k] + p) <==> SameAt(l.children[k], r.children[k], p)
  {
  }

  /** A row is Unchanged exactly when the two subtrees agree at every path. */
  lemma {:induction false} UnchangedIff(l: Tree, r: Tree)
    requires Tidy(l) && Tidy(r)
    ensures DiffOf(l, r).status == Unchanged <==> forall p :: SameAt(l, r, p)
    ensures DiffOf(l, r).status != Unchanged ==> DiffOf(l, r).status == Modified
    decreases l
  {
    hide DiffChildren, DiffOf, MarkSubtree, MetaDiffers, SameAt;
    DiffIs(l, r);
    AtRoot(l, r);
    if DiffOf(l, r).status == Unchanged {
      forall p ensures SameAt(l, r, p) {
        if p != [] { UnchangedBelow(l, r, p); }
      }
    } else if forall p :: SameAt(l, r, p) {
      assert SameAt(l, r, []);
      var d :| d in DiffChildren(l, r) && d.status != Unchanged;
      var k := RowIsChild(l, r, d);
      assert SameAt(l, r, [k]);
      OneLevel(l, r, k);
      TidyChildren(l);
      TidyChildren(r);
      forall p ensures SameAt(l.children[k], r.children[k], p) {
        assert SameAt(l, r, [k] + p);
        StepDown(l, r, k, p);
      }
      UnchangedIff(l.children[k], r.children[k]);
      DiffChildIs(l, r, k);
      assert false;
    }
  }

  lemma AtRoot(l: Tree, r: Tree)
    ensures SameAt(l, r, []) <==> !MetaDiffers(l.info, r.info)
  {
    hide MetaDiffers, SameInfo;
    DiffersIff(l.info, r.info);
  }

  lemma OneLevel(l: Tree, r: Tree, k: Str)
    requires SameAt(l, r, [k]) && (k in l.children || k in r.children)
    ensures k in l.children && k in r.children
  {
    HasOne(l, k);
    HasOne(r, k);
  }

  lemma HasOne(t: Tree, k: Str)
    ensures Has(t, [k]) <==> k in t.children
  {
  }

  lemma DiffChildIs(l: Tree, r: Tree, k: Str)
    requires k in l.children.Keys + r.children.Keys
    ensures k in l.children && k in r.children ==> DiffChild(l, r, k) == DiffOf(l.children[k], r.children[k])
    ensures k !in l.children ==> DiffChild(l, r, k).status == Added
    ensures k !in r.children ==> DiffChild(l, r, k).status == Removed
  {
  }

  lemma {:induction false} UnchangedBelow(l: Tree, r: Tree, p: Path)
    requires Tidy(l) && Tidy(r) && DiffOf(l, r).status == Unchanged && p != []
    ensures SameAt(l, r, p)
    decreases l, 0
  {
    hide DiffChildren, DiffOf, MarkSubtree, Has, At;
    DiffIs(l, r);
    var k := p[0];
    if k in l.children.Keys + r.children.Keys {
      ChildRow(l, r, k);
      DiffChildIs(l, r, k);
      TidyChildren(l);
      TidyChildren(r);
      assert p == [k] + p[1..];
      StepDown(l, r, k, p[1..]);
      UnchangedIff(l.children[k], r.children[k]);
    } else {
      NeitherHas(l, r, p);
    }
  }

  lemma NeitherHas(l: Tree, r: Tree, p: Path)
    requires p != [] && p[0] !in l.children && p[0] !in r.children
    ensures SameAt(l, r, p)
  {
  }

  // ---------------------------------------------------------------- the changed filter

  /** filter=changed keeps the rows that are not unchanged. */
  method FilterRows(rows: seq<DiffNode>, changedOnly: bool) returns (out: seq<DiffNode>)
    ensures out == Filtered(rows, changedOnly)
  {
    if !changedOnly {
      FilteredAll(rows);
      return rows;
    }
    out := [];
    assert rows[..0] == [];
    for i := 0 to |rows|
      invariant out == Filtered(rows[..i], true)
    {
      assert rows[..i + 1][..i] == rows[..i];
      if rows[i].status != Unchanged {
        out := out + [rows[i]];
      }
    }
    assert rows[..|rows|] == rows;
  }

  predicate Shown(d: DiffNode, changedOnly: bool) {
    changedOnly ==> d.status != Unchanged
  }

  function Filtered(rows: seq<DiffNode>, changedOnly: bool): (out: seq<DiffNode>)
    ensures forall d :: d in out <==> d in rows && Shown(d, changedOnly)
    ensures |out| <= |rows|
  {
    if rows == [] then [] else
      var n := |rows| - 1;
      var front := Filtered(rows[..n], changedOnly);
      assert rows == rows[..n] + [rows[n]];
      if Shown(rows[n], changedOnly) then front + [rows[n]] else front
  }

  lemma {:induction false} FilteredAll(rows: seq<DiffNode>)
    ensures Filtered(rows, false) == rows
  {
    if rows != [] {
      FilteredAll(rows[..|rows| - 1]);
      assert rows == rows[..|rows| - 1] + [rows[|rows| - 1]];
    }
  }

  /** Rows got by expanding one level after another, starting below d. */
  ghost predicate Route(d: DiffNode, route: seq<DiffNode>) {
    route == [] || (route[0] in d.children && Route(route[0], route[1..]))
  }

  /** The same with the filter applied at every level. */
  ghost predicate ChangedRoute(d: DiffNode, route: seq<DiffNode>) {
    route == [] || (route[0] in Filtered(d.children, true) && ChangedRoute(route[0], route[1..]))
  }

  /** No row has changed unless every row above it has. */
  ghost predicate Spreads(d: DiffNode) {
    forall c | c in d.children :: (c.status != Unchanged ==> d.status != Unchanged) && Spreads(c)
  }

  lemma {:induction false} MarkSpreads(t: Tree, status: Status)
    requires status != Unchanged
    ensures Spreads(MarkSubtree(t, status))
    decreases t
  {
    hide SortRows;
    var rows, names := MarkChildren(t, status), Sorted(t.children.Keys);
    forall c | c in MarkSubtree(t, status).children ensures Spreads(c) {
      SortMembers(rows, c);
      var i :| 0 <= i < |rows| && rows[i] == c;
      MarkSpreads(t.children[names[i]], status);
    }
  }

  lemma {:induction false} DiffSpreads(l: Tree, r: Tree)
    ensures Spreads(DiffOf(l, r))
    decreases l
  {
    hide DiffOf, MarkSubtree, MetaDiffers, SortRows, DiffChildren;
    DiffIs(l, r);
    forall c | c in DiffOf(l, r).children
      ensures (c.status != Unchanged ==> DiffOf(l, r).status != Unchanged) && Spreads(c)
    {
      SortMembers(DiffChildren(l, r), c);
      var k := RowIsChild(l, r, c);
      if k !in l.children {
        MarkSpreads(r.children[k], Added);
      } else if k !in r.children {
        MarkSpreads(l.children[k], Removed);
      } else {
        DiffSpreads(l.children[k], r.children[k]);
      }
    }
  }

  lemma {:induction false} RouteIsChanged(d: DiffNode, route: seq<DiffNode>)
    requires Spreads(d) && Route(d, route) && route != []
    ensures ChangedRoute(d, route) <==> route[|route| - 1].status != Unchanged
    ensures route[|route| - 1].status != Unchanged ==> d.status != Unchanged
    decreases |route|
  {
    if |route| > 1 {
      RouteIsChanged(route[0], route[1..]);
    } else {
      assert route[1..] == [];
    }
  }

  /** Level by level, filter=changed reaches exactly the changed rows: every one of them, and no other. */
  lemma ChangedRowsReached(l: Tree, r: Tree, route: seq<DiffNode>)
    requires Route(DiffOf(l, r), route) && route != []
    ensures ChangedRoute(DiffOf(l, r), route) <==> route[|route| - 1].status != Unchanged
    ensures DiffOf(l, r).status == Unchanged ==> route[|route| - 1].status == Unchanged
  {
    hide DiffOf;
    DiffSpreads(l, r);
    RouteIsChanged(DiffOf(l, r), route);
  }
}
