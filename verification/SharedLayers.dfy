/** Layers with one digest are one layer as far as a comparison can tell. */
module SharedLayers {
  import opened ByteStrings
  import opened Entries
  import opened Changeset
  import opened Paths
  import opened Filesystem
  import opened Diff
  import opened DiffTheorems
  import opened DiffTotals

  // ---------------------------------------------------------------- the tree of a path map

  ghost function Below(fs: Fs, p: Path): set<Path> {
    set q | q in fs && Under(p, q)
  }

  ghost function Names(fs: Fs, p: Path): set<Str> {
    set q | q in fs && q != [] && Parent(q) == p :: Last(q)
  }

  lemma NamesAre(fs: Fs, p: Path, k: Str)
    ensures k in Names(fs, p) <==> p + [k] in fs
  {
    if p + [k] in fs {
      assert Parent(p + [k]) == p && Last(p + [k]) == k;
    }
    if k in Names(fs, p) {
      var q :| q in fs && q != [] && Parent(q) == p && Last(q) == k;
      assert q == p + [k];
    }
  }

  lemma BelowShrinks(fs: Fs, p: Path, k: Str)
    requires p + [k] in fs
    ensures |Below(fs, p + [k])| < |Below(fs, p)|
  {
    var q := p + [k];
    assert q in Below(fs, p) && q !in Below(fs, q);
    assert Below(fs, q) <= Below(fs, p);
    assert Below(fs, q) < Below(fs, p);
    SmallerSubset(Below(fs, q), Below(fs, p));
  }

  lemma SmallerSubset(a: set<Path>, b: set<Path>)
    requires a < b
    ensures |a| < |b|
  {
    assert |b - a| + |a| == |b|;
    assert b - a != {};
  }

  ghost function TreeAt(fs: Fs, p: Path): Tree
    requires p in fs
    decreases |Below(fs, p)|
  {
    Tree(if p == [] then [SLASH] else Last(p), fs[p],
         map k | k in Names(fs, p) :: (NamesAre(fs, p, k); BelowShrinks(fs, p, k); TreeAt(fs, p + [k])))
  }

  lemma ChildrenAre(fs: Fs, p: Path, k: Str)
    requires p in fs
    ensures k in TreeAt(fs, p).children <==> p + [k] in fs
    ensures p + [k] in fs ==> TreeAt(fs, p).children[k] == TreeAt(fs, p + [k])
  {
    NamesAre(fs, p, k);
  }

  lemma {:induction false} TreeTidy(fs: Fs, p: Path)
    requires Proper(fs) && p in fs
    ensures Tidy(TreeAt(fs, p))
    decreases |Below(fs, p)|
  {
    var t := TreeAt(fs, p);
    forall k | k in t.children ensures t.children[k].name == k && Tidy(t.children[k]) && t.info.meta.kind == Dir {
      ChildrenAre(fs, p, k);
      BelowShrinks(fs, p, k);
      TreeTidy(fs, p + [k]);
      assert Under(p, p + [k]);
    }
  }

  /** What squashing gives is what comparing needs. */
  lemma SquashedIsTidy(layers: seq<seq<Entry>>)
    ensures [] in ApplyLayers(EMPTY, layers) && Tidy(TreeAt(ApplyLayers(EMPTY, layers), []))
  {
    hide ApplyLayers, TreeAt, Tidy;
    EmptyProper();
    LayersProper(EMPTY, layers);
    TreeTidy(ApplyLayers(EMPTY, layers), []);
  }

  lemma {:induction false} TreeHas(fs: Fs, p: Path, q: Path)
    requires Proper(fs) && p in fs
    ensures Has(TreeAt(fs, p), q) <==> p + q in fs
    ensures p + q in fs ==> At(TreeAt(fs, p), q) == fs[p + q]
    decreases |q|
  {
    hide TreeAt;
    if q == [] {
      assert p + q == p;
      InfoIs(fs, p);
    } else {
      var k := q[0];
      assert p + q == p + [k] + q[1..];
      ChildrenAre(fs, p, k);
      if p + [k] in fs {
        TreeHas(fs, p + [k], q[1..]);
      } else {
        NothingWithin(fs, p + [k], p + q);
      }
    }
  }

  lemma NothingWithin(fs: Fs, a: Path, q: Path)
    requires Proper(fs) && a !in fs && Within(a, q)
    ensures q !in fs
  {
    assert a == q || Under(a, q);
  }

  lemma InfoIs(fs: Fs, p: Path)
    requires p in fs
    ensures TreeAt(fs, p).info == fs[p]
  {
  }

  // ---------------------------------------------------------------- trees that differ only in what is not compared

  ghost predicate AlikeInfo(a: Info, b: Info) {
    FieldsOf(a.meta) == FieldsOf(b.meta) && a.implicit == b.implicit
  }

  ghost predicate Alike(f: Fs, g: Fs) {
    f.Keys == g.Keys && forall p | p in f :: AlikeInfo(f[p], g[p])
  }

  lemma AlikeKind(a: Info, b: Info)
    requires AlikeInfo(a, b)
    ensures a.meta.kind == b.meta.kind && SameInfo(a, b)
  {
    FieldsAgree(a.meta, b.meta);
  }

  lemma AlikeUnchanged(f: Fs, g: Fs)
    requires Proper(f) && Proper(g) && Alike(f, g)
    ensures DiffOf(TreeAt(f, []), TreeAt(g, [])).status == Unchanged
  {
    hide TreeAt, DiffOf, Has, At, MetaDiffers, SameInfo, AlikeInfo;
    var l, r := TreeAt(f, []), TreeAt(g, []);
    TreeTidy(f, []);
    TreeTidy(g, []);
    forall q ensures SameAt(l, r, q) {
      TreeHas(f, [], q);
      TreeHas(g, [], q);
      assert [] + q == q;
      if q in f { AlikeKind(f[q], g[q]); }
    }
    UnchangedIff(l, r);
  }

  /** The same on both sides, and nothing changed. */
  ghost predicate Even(a: Agg) {
    && a.leftBytes == a.rightBytes && a.leftFiles == a.rightFiles
    && a.addedBytes == 0 && a.removedBytes == 0 && a.modifiedBytesLeft == 0 && a.modifiedBytesRight == 0
    && a.addedFiles == 0 && a.removedFiles == 0 && a.modifiedFiles == 0
  }

  lemma {:induction false} UnchangedIsEven(d: DiffNode)
    requires Honest(d) && Spreads(d) && d.status == Unchanged
    ensures Even(d.agg)
    decreases d, 1
  {
    hide SumAggs;
    UnchangedRowsEven(d.children);
  }

  lemma {:induction false} UnchangedRowsEven(rows: seq<DiffNode>)
    requires forall c | c in rows :: Honest(c) && Spreads(c) && c.status == Unchanged
    ensures Even(SumAggs(rows))
    decreases rows, 0
  {
    hide Honest, Spreads;
    if rows != [] {
      assert rows[0] in rows && forall c | c in rows[1..] :: c in rows;
      UnchangedIsEven(rows[0]);
      UnchangedRowsEven(rows[1..]);
    }
  }

  lemma {:induction false} SpreadsBelow(d: DiffNode, route: seq<DiffNode>)
    requires Spreads(d) && Route(d, route) && route != []
    ensures Spreads(route[|route| - 1])
    decreases |route|
  {
    if |route| > 1 { SpreadsBelow(route[0], route[1..]); }
  }

  /** If the top row is unchanged then so is every row, with the same totals on both sides. */
  lemma UnchangedThroughout(l: Tree, r: Tree, row: DiffNode)
    requires DiffOf(l, r).status == Unchanged && BelowOrAt(DiffOf(l, r), row)
    ensures row.status == Unchanged && Even(row.agg)
  {
    hide DiffOf, Honest, Spreads, Even;
    RowIsHonest(l, r, row);
    DiffSpreads(l, r);
    if row != DiffOf(l, r) {
      var route :| Route(DiffOf(l, r), route) && route != [] && route[|route| - 1] == row;
      SpreadsBelow(DiffOf(l, r), route);
      ChangedRowsReached(l, r, route);
    }
    UnchangedIsEven(row);
  }

  // ---------------------------------------------------------------- layers with the same rows

  lemma PutAlike(f: Fs, g: Fs, p: Path, a: Info, b: Info)
    requires Alike(f, g) && AlikeInfo(a, b)
    ensures Alike(Put(f, p, a), Put(g, p, b))
  {
  }

  lemma RowsMatch(e: Entry, h: Entry)
    requires RowOf(e) == RowOf(h)
    ensures e.path == h.path && e.meta.kind == h.meta.kind && AlikeInfo(InfoOf(e), InfoOf(h))
  {
  }

  lemma {:induction false} UpsertsAlike(f: Fs, g: Fs, es: seq<Entry>, hs: seq<Entry>)
    requires Alike(f, g) && RowsOf(es) == RowsOf(hs)
    ensures Alike(Upserts(f, es), Upserts(g, hs))
    decreases |es|
  {
    hide Alike, Put, RowOf, AlikeInfo, InfoOf, ObjectPath;
    assert |RowsOf(es)| == |es| && |RowsOf(hs)| == |hs|;
    if es != [] {
      assert RowsOf(es)[0] == RowOf(es[0]) && RowsOf(hs)[0] == RowOf(hs[0]);
      RowsMatch(es[0], hs[0]);
      if IsObject(es[0]) {
        PutAlike(f, g, ObjectPath(es[0].path), InfoOf(es[0]), InfoOf(hs[0]));
      }
      assert RowsOf(es[1..]) == RowsOf(es)[1..] && RowsOf(hs[1..]) == RowsOf(hs)[1..];
      UpsertsAlike(Upsert(f, es[0]), Upsert(g, hs[0]), es[1..], hs[1..]);
    }
  }

  lemma SameHidden(es: seq<Entry>, hs: seq<Entry>, q: Path, e: Entry) returns (h: Entry)
    requires RowsOf(es) == RowsOf(hs) && e in es
    ensures h in hs && (Hides(e, q) <==> Hides(h, q))
  {
    hide RowOf, AlikeInfo, InfoOf, Segments, WhiteoutPath;
    var i :| 0 <= i < |es| && es[i] == e;
    assert |RowsOf(es)| == |es| && |RowsOf(hs)| == |hs|;
    h := hs[i];
    assert RowsOf(es)[i] == RowOf(e) && RowsOf(hs)[i] == RowOf(h);
    RowsMatch(e, h);
  }

  lemma SameLower(base: Fs, es: seq<Entry>, hs: seq<Entry>)
    requires RowsOf(es) == RowsOf(hs)
    ensures Lower(base, es) == Lower(base, hs)
  {
    hide Hides, RowsOf;
    forall q | q in base ensures (forall e | e in es :: !Hides(e, q)) <==> (forall h | h in hs :: !Hides(h, q)) {
      if e :| e in es && Hides(e, q) {
        var h := SameHidden(es, hs, q, e);
      }
      if h :| h in hs && Hides(h, q) {
        var e := SameHidden(hs, es, q, h);
      }
    }
  }

  lemma SameIsAlike(f: Fs)
    ensures Alike(f, f)
  {
  }

  /** Layers with the same rows, over the same base, give trees that no comparison tells apart. */
  lemma SameRowsUnchanged(base: Fs, es: seq<Entry>, hs: seq<Entry>)
    requires Proper(base) && RowsOf(es) == RowsOf(hs)
    ensures [] in ApplyLayer(base, es) && [] in ApplyLayer(base, hs)
    ensures DiffOf(TreeAt(ApplyLayer(base, es), []), TreeAt(ApplyLayer(base, hs), [])).status == Unchanged
  {
    hide TreeAt, DiffOf, Upserts, Lower, RowsOf, Alike;
    SameLower(base, es, hs);
    SameIsAlike(Lower(base, es));
    UpsertsAlike(Lower(base, es), Lower(base, hs), es, hs);
    LowerProper(base, es);
    UpsertsProper(Lower(base, es), es);
    UpsertsProper(Lower(base, hs), hs);
    AlikeUnchanged(ApplyLayer(base, es), ApplyLayer(base, hs));
  }

  // ---------------------------------------------------------------- layers with the same digest

  /**
   * "Could be shared" is sound: if the bytes hashed for two layer indexes are equal, then over any base
   * the two layers give trees whose comparison is Unchanged at every row, with equal totals on both sides.
   */
  lemma SharedMeansUnchanged(version: byte, es: seq<Entry>, hs: seq<Entry>, base: Fs, row: DiffNode)
    requires IndexOrder(es) && IndexOrder(hs) && FitsEntries(es) && FitsEntries(hs)
    requires Stream(version, es) == Stream(version, hs)
    requires Proper(base)
    ensures [] in ApplyLayer(base, es) && [] in ApplyLayer(base, hs)
    ensures var d := DiffOf(TreeAt(ApplyLayer(base, es), []), TreeAt(ApplyLayer(base, hs), []));
            d.status == Unchanged && (BelowOrAt(d, row) ==> row.status == Unchanged && Even(row.agg))
  {
    hide TreeAt, DiffOf, ApplyLayer, RowsOf, Stream, FitsEntries, IndexOrder, Proper, BelowOrAt, Even;
    StreamBack(version, es);
    StreamBack(version, hs);
    SortedAlready(es);
    SortedAlready(hs);
    SameRowsUnchanged(base, es, hs);
    var l, r := TreeAt(ApplyLayer(base, es), []), TreeAt(ApplyLayer(base, hs), []);
    if BelowOrAt(DiffOf(l, r), row) {
      UnchangedThroughout(l, r, row);
    }
  }
}
