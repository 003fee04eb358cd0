/** The filesystem at a layer point as a map from paths, and what one layer does to it. */
module Filesystem {
  import opened Entries
  import opened Paths

  datatype Info = Info(meta: Meta, implicit: bool)

  type Fs = map<Path, Info>

  const IMPLICIT_MODE: Uint32 := 0x1ED // 0755

  const DIR_META := Meta(Dir, IMPLICIT_MODE, 0, 0, 0, [], [], 0, 0, map[], 0, [], [])

  /** A directory that is there only because something below it is. */
  const IMPLICIT_DIR := Info(DIR_META, true)

  /** The filesystem before any layer. */
  const EMPTY: Fs := map[[] := IMPLICIT_DIR]

  predicate IsDir(fs: Fs, p: Path) {
    p in fs && fs[p].meta.kind == Dir
  }

  /** A tree: everything above a path is a directory, and no marker is a file. */
  ghost predicate Proper(fs: Fs) {
    && IsDir(fs, [])
    && (forall p | p in fs :: !fs[p].meta.kind.Marker())
    && (forall p, q | q in fs && Under(p, q) :: IsDir(fs, p))
  }

  // ---------------------------------------------------------------- one entry

  ghost function Prefixes(p: Path): set<Path> {
    set i | 0 <= i <= |p| :: p[..i]
  }

  /** The directory dir and all directories above it are made where missing. */
  ghost function WithDirs(fs: Fs, dir: Path): Fs {
    map q | q in fs.Keys + Prefixes(dir) :: if Within(q, dir) && !IsDir(fs, q) then IMPLICIT_DIR else fs[q]
  }

  /** One object put at p: parents are made, and a non-directory leaves nothing below it. */
  ghost function Put(fs: Fs, p: Path, info: Info): Fs {
    map q | q in fs.Keys + Prefixes(p) && (Under(p, q) ==> info.meta.kind == Dir) ::
      if q == p then info else if Under(q, p) && !IsDir(fs, q) then IMPLICIT_DIR else fs[q]
  }

  lemma PrefixesAre(p: Path, q: Path)
    ensures q in Prefixes(p) <==> Within(q, p)
  {
    if Within(q, p) { assert q == p[..|q|]; }
  }

  function InfoOf(e: Entry): Info {
    Info(e.meta.(mode := PermBits(e.meta.mode)), false)
  }

  predicate IsObject(e: Entry) {
    !e.meta.kind.Marker() && NamePart(e.path) != []
  }

  ghost function Upsert(fs: Fs, e: Entry): Fs {
    if IsObject(e) then Put(fs, ObjectPath(e.path), InfoOf(e)) else fs
  }

  // ---------------------------------------------------------------- one layer

  predicate Hides(e: Entry, q: Path) {
    match e.meta.kind
    case Opaque => Under(Segments(e.path), q)
    case Whiteout => Segments(e.path) != [] && Within(WhiteoutPath(e.path), q)
    case _ => false
  }

  /** What the markers of a layer leave of the layers below. */
  ghost function Lower(fs: Fs, es: seq<Entry>): Fs {
    map q | q in fs && forall e | e in es :: !Hides(e, q) :: fs[q]
  }

  ghost function Upserts(fs: Fs, es: seq<Entry>): Fs
    decreases |es|
  {
    if es == [] then fs else Upserts(Upsert(fs, es[0]), es[1..])
  }

  ghost function ApplyLayer(fs: Fs, es: seq<Entry>): Fs {
    Upserts(Lower(fs, es), es)
  }

  ghost function ApplyLayers(fs: Fs, layers: seq<seq<Entry>>): Fs
    decreases |layers|
  {
    if layers == [] then fs else ApplyLayers(ApplyLayer(fs, layers[0]), layers[1..])
  }

  // ---------------------------------------------------------------- the tree stays a tree

  lemma PutProper(fs: Fs, p: Path, info: Info)
    requires Proper(fs) && p != [] && !info.meta.kind.Marker()
    ensures Proper(Put(fs, p, info))
  {
    var r := Put(fs, p, info);
    PrefixesAre(p, []);
    forall a, q | q in r && Under(a, q) ensures IsDir(r, a) {
      PrefixesAre(p, q);
      PrefixesAre(p, a);
    }
    forall q | q in r ensures !r[q].meta.kind.Marker() {
      PrefixesAre(p, q);
    }
  }

  lemma LowerProper(fs: Fs, es: seq<Entry>)
    requires Proper(fs)
    ensures Proper(Lower(fs, es))
  {
  }

  lemma {:induction false} UpsertsProper(fs: Fs, es: seq<Entry>)
    requires Proper(fs)
    ensures Proper(Upserts(fs, es))
    decreases |es|
  {
    hide Put, Proper;
    if es != [] {
      if IsObject(es[0]) {
        PutProper(fs, ObjectPath(es[0].path), InfoOf(es[0]));
      }
      UpsertsProper(Upsert(fs, es[0]), es[1..]);
    }
  }

  /** A stack of layers always gives a tree: only directories have anything below them, and no marker survives. */
  lemma {:induction false} LayersProper(fs: Fs, layers: seq<seq<Entry>>)
    requires Proper(fs)
    ensures Proper(ApplyLayers(fs, layers))
    decreases |layers|
  {
    hide Proper, Lower, Upserts;
    if layers != [] {
      LowerProper(fs, layers[0]);
      UpsertsProper(Lower(fs, layers[0]), layers[0]);
      LayersProper(ApplyLayer(fs, layers[0]), layers[1..]);
    }
  }

  lemma EmptyProper()
    ensures Proper(EMPTY)
  {
  }

  // ---------------------------------------------------------------- the result as one formula

  /** Entries that could fight over a path: equal paths mean equal objects, and only a directory has objects below
      it. */
  ghost predicate Compatible(es: seq<Entry>) {
    forall e, f | e in es && f in es && IsObject(e) && IsObject(f) ::
      && (ObjectPath(e.path) == ObjectPath(f.path) ==> InfoOf(e) == InfoOf(f))
      && (Under(ObjectPath(e.path), ObjectPath(f.path)) ==> e.meta.kind == Dir)
  }

  ghost function Objects(es: seq<Entry>): Fs
    decreases |es|
  {
    if es == [] then map[] else
      var n := |es| - 1;
      if IsObject(es[n]) then Objects(es[..n])[ObjectPath(es[n].path) := InfoOf(es[n])] else Objects(es[..n])
  }

  ghost predicate AboveObject(objects: Fs, q: Path) {
    exists p :: p in objects && Under(q, p)
  }

  ghost predicate Covered(objects: Fs, q: Path) {
    exists p :: p in objects && Under(p, q) && objects[p].meta.kind != Dir
  }

  ghost function Candidates(lower: Fs, objects: Fs): set<Path> {
    lower.Keys + set p, i | p in objects && 0 <= i <= |p| :: p[..i]
  }

  lemma CandidatesAre(lower: Fs, objects: Fs, q: Path)
    ensures q in Candidates(lower, objects) <==> q in lower || q in objects || AboveObject(objects, q)
  {
    if q in Candidates(lower, objects) && q !in lower {
      var p, i :| p in objects && 0 <= i <= |p| && q == p[..i];
      if i < |p| {
        assert Under(q, p);
      } else {
        assert q == p;
      }
    } else if q in objects {
      assert q == q[..|q|];
    } else if AboveObject(objects, q) {
      var p :| p in objects && Under(q, p);
      assert q == p[..|q|];
    }
  }

  /** Every object is where it says; parents are kept or made; the rest of the lower tree stays unless an object
      covers it. */
  ghost function Overlay(lower: Fs, objects: Fs): Fs {
    map q | q in Candidates(lower, objects) && (q in objects || AboveObject(objects, q) || !Covered(objects, q)) ::
      if q in objects then objects[q]
      else if AboveObject(objects, q) && !IsDir(lower, q) then IMPLICIT_DIR
      else
        CandidatesAre(lower, objects, q);
        lower[q]
  }

  ghost predicate InOverlay(lower: Fs, objects: Fs, q: Path) {
    q in objects || AboveObject(objects, q) || (q in lower && !Covered(objects, q))
  }

  lemma OverlayAt(lower: Fs, objects: Fs, q: Path)
    ensures q in Overlay(lower, objects) <==> InOverlay(lower, objects, q)
  {
    CandidatesAre(lower, objects, q);
  }

  ghost predicate Consistent(objects: Fs) {
    forall p, q | p in objects && q in objects && Under(p, q) :: objects[p].meta.kind == Dir
  }

  /** Putting one more object over an overlay is the overlay with that object. */
  lemma OverlayGrows(lower: Fs, objects: Fs, p: Path, info: Info)
    requires Proper(lower) && p != [] && Consistent(objects[p := info])
    requires p in objects ==> objects[p] == info
    ensures Put(Overlay(lower, objects), p, info) == Overlay(lower, objects[p := info])
  {
    var more := objects[p := info];
    var a, b := Put(Overlay(lower, objects), p, info), Overlay(lower, more);
    forall q ensures (q in a <==> q in b) && (q in a && q in b ==> a[q] == b[q]) {
      OverlayGrowsAt(lower, objects, p, info, q);
    }
    assert a.Keys == b.Keys;
  }

  lemma AboveMore(objects: Fs, p: Path, info: Info, q: Path)
    ensures AboveObject(objects[p := info], q) <==> AboveObject(objects, q) || Under(q, p)
  {
  }

  lemma CoveredMore(objects: Fs, p: Path, info: Info, q: Path)
    requires p in objects ==> objects[p] == info
    ensures Covered(objects[p := info], q) <==> Covered(objects, q) || (Under(p, q) && info.meta.kind != Dir)
  {
  }

  lemma OverlayGrowsAt(lower: Fs, objects: Fs, p: Path, info: Info, q: Path)
    requires Proper(lower) && p != [] && Consistent(objects[p := info])
    requires p in objects ==> objects[p] == info
    ensures var a, b := Put(Overlay(lower, objects), p, info), Overlay(lower, objects[p := info]);
            (q in a <==> q in b) && (q in a && q in b ==> a[q] == b[q])
  {
    hide AboveObject, Covered, Candidates;
    var more := objects[p := info];
    OverlayAt(lower, objects, q);
    OverlayAt(lower, more, q);
    AboveMore(objects, p, info, q);
    CoveredMore(objects, p, info, q);
    PrefixesAre(p, q);
    assert p in more;
    if AboveObject(more, q) { AboveIsDir(more, q); }
    if Covered(more, q) { CoveredIsBelow(more, q); }
  }

  /** What is above an object is a directory, if it is an object at all, and nothing covers it. */
  lemma AboveIsDir(objects: Fs, q: Path)
    requires Consistent(objects) && AboveObject(objects, q)
    ensures q in objects ==> objects[q].meta.kind == Dir
    ensures !Covered(objects, q)
  {
  }

  lemma CoveredIsBelow(objects: Fs, q: Path)
    requires Consistent(objects) && Covered(objects, q)
    ensures q !in objects && !AboveObject(objects, q)
  {
  }

  // ---------------------------------------------------------------- any order of the entries

  /** Objects(es) is exactly the objects among es. */
  lemma {:induction false} ObjectsAre(es: seq<Entry>)
    requires Compatible(es)
    ensures forall p :: p in Objects(es) <==> exists e :: e in es && IsObject(e) && ObjectPath(e.path) == p
    ensures forall e | e in es && IsObject(e) ::
        ObjectPath(e.path) in Objects(es) && Objects(es)[ObjectPath(e.path)] == InfoOf(e)
    decreases |es|
  {
    hide InfoOf, IsObject, ObjectPath;
    if es != [] {
      var n := |es| - 1;
      assert es == es[..n] + [es[n]];
      assert forall e :: e in es <==> e in es[..n] || e == es[n];
      ObjectsAre(es[..n]);
    }
  }

  lemma ObjectsConsistent(es: seq<Entry>)
    requires Compatible(es)
    ensures Consistent(Objects(es))
  {
    hide ObjectPath, IsObject;
    var o := Objects(es);
    ObjectsAre(es);
    forall p, q | p in o && q in o && Under(p, q) ensures o[p].meta.kind == Dir {
      var e :| e in es && IsObject(e) && ObjectPath(e.path) == p;
      var f :| f in es && IsObject(f) && ObjectPath(f.path) == q;
    }
  }

  lemma {:induction false} UpsertsSnoc(fs: Fs, es: seq<Entry>, e: Entry)
    ensures Upserts(fs, es + [e]) == Upsert(Upserts(fs, es), e)
    decreases |es|
  {
    hide Upsert;
    if es == [] {
      assert es + [e] == [e];
      assert Upserts(Upsert(fs, e), [e][1..]) == Upsert(fs, e);
    } else {
      assert (es + [e])[1..] == es[1..] + [e];
      UpsertsSnoc(Upsert(fs, es[0]), es[1..], e);
    }
  }

  /** Upserting compatible entries one after another gives the overlay of their objects. */
  lemma {:induction false} UpsertsOverlay(lower: Fs, es: seq<Entry>)
    requires Proper(lower) && Compatible(es)
    ensures Upserts(lower, es) == Overlay(lower, Objects(es))
    decreases |es|
  {
    hide Overlay, Put, Proper, Consistent, IsObject, InfoOf, ObjectPath;
    if es == [] {
      OverlayOfNone(lower);
    } else {
      var n := |es| - 1;
      var front, e := es[..n], es[n];
      assert es == front + [e];
      assert forall x :: x in es <==> x in front || x == e;
      UpsertsSnoc(lower, front, e);
      UpsertsOverlay(lower, front);
      ObjectsAre(front);
      ObjectsConsistent(es);
      if IsObject(e) {
        OverlayGrows(lower, Objects(front), ObjectPath(e.path), InfoOf(e));
      }
    }
  }

  lemma OverlayOfNone(lower: Fs)
    ensures Overlay(lower, map[]) == lower
  {
  }

  /**
   * The tree after a layer is a fold over its entries, yet it depends only on which entries there are:
   * for compatible entries every order, markers included, gives the same tree.
   */
  lemma AnyOrder(fs: Fs, es: seq<Entry>, gs: seq<Entry>)
    requires Proper(fs) && Compatible(es)
    requires forall e :: e in es <==> e in gs
    ensures ApplyLayer(fs, es) == ApplyLayer(fs, gs)
    ensures ApplyLayer(fs, es) == Overlay(Lower(fs, es), Objects(es))
  {
    hide Proper, Upserts, Overlay, Hides, IsObject, InfoOf, ObjectPath;
    assert Compatible(gs);
    assert Lower(fs, es) == Lower(fs, gs);
    LowerProper(fs, es);
    UpsertsOverlay(Lower(fs, es), es);
    UpsertsOverlay(Lower(fs, gs), gs);
    ObjectsAre(es);
    ObjectsAre(gs);
    SameObjects(es, gs);
  }

  lemma SameObjects(es: seq<Entry>, gs: seq<Entry>)
    requires Compatible(es) && Compatible(gs) && forall e :: e in es <==> e in gs
    ensures Objects(es) == Objects(gs)
  {
    hide IsObject, InfoOf, ObjectPath, Compatible;
    ObjectsAre(es);
    ObjectsAre(gs);
    assert Objects(es).Keys == Objects(gs).Keys;
    forall p | p in Objects(es) ensures Objects(es)[p] == Objects(gs)[p] {
      var e :| e in es && IsObject(e) && ObjectPath(e.path) == p;
    }
  }

  ghost predicate CompatiblePair(p: Path, a: Info, q: Path, b: Info) {
    (p == q ==> a == b) && (Under(p, q) ==> a.meta.kind == Dir) && (Under(q, p) ==> b.meta.kind == Dir)
  }

  /** For two objects the condition is exact: they can be put in either order if and only if they are compatible. */
  lemma PutsCommuteIff(fs: Fs, p: Path, a: Info, q: Path, b: Info)
    requires Proper(fs) && p != [] && q != []
    ensures Put(Put(fs, p, a), q, b) == Put(Put(fs, q, b), p, a) <==> CompatiblePair(p, a, q, b)
  {
    hide Put, Overlay, Proper;
    if CompatiblePair(p, a, q, b) {
      OverlayOfNone(fs);
      OverlayGrows(fs, map[], p, a);
      OverlayGrows(fs, map[], q, b);
      OverlayGrows(fs, map[p := a], q, b);
      OverlayGrows(fs, map[q := b], p, a);
      assert map[p := a][q := b] == map[q := b][p := a];
    } else {
      LastPut(Put(fs, p, a), q, b);
      LastPut(Put(fs, q, b), p, a);
    }
  }

  /** The last object put is there, and covers what is below it unless it is a directory. */
  lemma LastPut(fs: Fs, p: Path, a: Info)
    ensures p in Put(fs, p, a) && Put(fs, p, a)[p] == a
    ensures a.meta.kind != Dir ==> forall q | q in Put(fs, p, a) :: !Under(p, q)
  {
    PrefixesAre(p, p);
  }

  // ---------------------------------------------------------------- what the last layer shows

  /** e is an object of the layer, for the path q. */
  ghost predicate ObjectAt(es: seq<Entry>, e: Entry, q: Path) {
    e in es && e.meta.kind != Whiteout && e.meta.kind != Opaque && NamePart(e.path) != [] && ObjectPath(e.path) == q
  }

  /** Compatible means: two objects for one path agree in everything, and what has an object below it is a directory. */
  lemma CompatibleIff(es: seq<Entry>)
    ensures Compatible(es) <==> forall e, p, f, q | ObjectAt(es, e, p) && ObjectAt(es, f, q) ::
        && (p == q ==> e.meta.(mode := e.meta.mode % 4096) == f.meta.(mode := f.meta.mode % 4096))
        && (p < q ==> e.meta.kind == Dir)
  {
    hide ObjectPath, NamePart;
    if !Compatible(es) {
      var e, f :| e in es && f in es && IsObject(e) && IsObject(f)
        && !(&& (ObjectPath(e.path) == ObjectPath(f.path) ==> InfoOf(e) == InfoOf(f))
             && (Under(ObjectPath(e.path), ObjectPath(f.path)) ==> e.meta.kind == Dir));
      assert ObjectAt(es, e, ObjectPath(e.path)) && ObjectAt(es, f, ObjectPath(f.path));
    } else {
      forall e, p, f, q | ObjectAt(es, e, p) && ObjectAt(es, f, q)
        ensures p == q ==> e.meta.(mode := e.meta.mode % 4096) == f.meta.(mode := f.meta.mode % 4096)
        ensures p < q ==> e.meta.kind == Dir
      {
        assert IsObject(e) && IsObject(f) && ObjectPath(e.path) == p && ObjectPath(f.path) == q;
        assert p == q ==> InfoOf(e) == InfoOf(f);
      }
    }
  }

  /** An opaque marker removes what is strictly below its directory, a whiteout its path and what is below it. */
  ghost predicate Erased(es: seq<Entry>, q: Path) {
    || (exists e :: e in es && e.meta.kind == Opaque && Segments(e.path) < q)
    || (exists e :: e in es && e.meta.kind == Whiteout && Segments(e.path) != [] && WhiteoutPath(e.path) <= q)
  }

  ghost predicate Ships(es: seq<Entry>, q: Path) {
    exists e :: ObjectAt(es, e, q)
  }

  ghost predicate ShipsBelow(es: seq<Entry>, q: Path) {
    exists p :: Ships(es, p) && q < p
  }

  ghost predicate UnderNonDirectory(es: seq<Entry>, q: Path) {
    exists e, p :: ObjectAt(es, e, p) && p < q && e.meta.kind != Dir
  }

  /**
   * What is seen at q when a layer lies over below: the layer's own object with its metadata; else, above an object,
   * the directory from below that no marker removed, or an invented one; else whatever is below unless a marker
   * removed it or the layer has something there that is not a directory.
   */
  ghost predicate ShownAt(below: Fs, es: seq<Entry>, view: Fs, q: Path) {
    && (forall e | ObjectAt(es, e, q) :: q in view && view[q] == Info(e.meta.(mode := e.meta.mode % 4096), false))
    && (!Ships(es, q) && ShipsBelow(es, q) ==>
          q in view && view[q] == if q in below && below[q].meta.kind == Dir && !Erased(es, q) then below[q]
              else Info(Meta(Dir, 0x1ED, 0, 0, 0, [], [], 0, 0, map[], 0, [], []), true))
    && (!Ships(es, q) && !ShipsBelow(es, q) ==>
          && (q in view <==> q in below && !Erased(es, q) && !UnderNonDirectory(es, q))
          && (q in view ==> q in below && view[q] == below[q]))
  }

  ghost predicate ShownOver(below: Fs, es: seq<Entry>, view: Fs) {
    forall q :: ShownAt(below, es, view, q)
  }

  lemma ErasedIs(fs: Fs, es: seq<Entry>, q: Path)
    ensures q in Lower(fs, es) <==> q in fs && !Erased(es, q)
    ensures q in Lower(fs, es) ==> Lower(fs, es)[q] == fs[q]
  {
    hide Segments, WhiteoutPath;
    if e :| e in es && e.meta.kind == Opaque && Segments(e.path) < q { assert Hides(e, q); }
    if e :| e in es && e.meta.kind == Whiteout && Segments(e.path) != [] && WhiteoutPath(e.path) <= q {
      assert Hides(e, q);
    }
  }

  lemma ObjectsAt(es: seq<Entry>, q: Path)
    requires Compatible(es)
    ensures Ships(es, q) <==> q in Objects(es)
    ensures forall e | ObjectAt(es, e, q) ::
        q in Objects(es) && Objects(es)[q] == Info(e.meta.(mode := e.meta.mode % 4096), false)
  {
    hide ObjectPath, NamePart, Objects;
    ObjectsAre(es);
    if q in Objects(es) {
      var e :| e in es && IsObject(e) && ObjectPath(e.path) == q;
      assert ObjectAt(es, e, q);
    }
    forall e | ObjectAt(es, e, q)
      ensures q in Objects(es) && Objects(es)[q] == Info(e.meta.(mode := e.meta.mode % 4096), false)
    {
      assert e in es && IsObject(e);
    }
  }

  lemma BelowAndUnder(es: seq<Entry>, q: Path)
    requires Compatible(es)
    ensures ShipsBelow(es, q) <==> AboveObject(Objects(es), q)
    ensures UnderNonDirectory(es, q) <==> Covered(Objects(es), q)
  {
    hide ObjectPath, NamePart, Objects, Ships, ObjectAt, Compatible;
    forall p ensures Ships(es, p) <==> p in Objects(es) { ObjectsAt(es, p); }
    if e, p :| ObjectAt(es, e, p) && p < q && e.meta.kind != Dir { ObjectsAt(es, p); }
    if p :| p in Objects(es) && Under(p, q) && Objects(es)[p].meta.kind != Dir {
      var e := AnObject(es, p);
    }
  }

  lemma AnObject(es: seq<Entry>, p: Path) returns (e: Entry)
    requires Compatible(es) && p in Objects(es)
    ensures ObjectAt(es, e, p) && e.meta.kind == Objects(es)[p].meta.kind
  {
    hide ObjectAt, Compatible;
    ObjectsAt(es, p);
    assert Ships(es, p);
    e :| ObjectAt(es, e, p);
  }

  lemma OverlayShows(fs: Fs, es: seq<Entry>, q: Path)
    requires Compatible(es)
    ensures ShownAt(fs, es, Overlay(Lower(fs, es), Objects(es)), q)
  {
    hide ObjectPath, NamePart, Objects, Ships, ShipsBelow, ObjectAt, UnderNonDirectory, Compatible, Erased,
         Lower, AboveObject, Covered;
    var lower, objects := Lower(fs, es), Objects(es);
    ObjectsAt(es, q);
    BelowAndUnder(es, q);
    ErasedIs(fs, es, q);
    OverlayAt(lower, objects, q);
  }

  lemma {:induction false} ApplyLayersSnoc(fs: Fs, layers: seq<seq<Entry>>, es: seq<Entry>)
    ensures ApplyLayers(fs, layers + [es]) == ApplyLayer(ApplyLayers(fs, layers), es)
    decreases |layers|
  {
    hide ApplyLayer;
    if layers == [] {
      assert layers + [es] == [es];
      assert ApplyLayers(ApplyLayer(fs, es), [es][1..]) == ApplyLayer(fs, es);
    } else {
      assert (layers + [es])[1..] == layers[1..] + [es];
      ApplyLayersSnoc(ApplyLayer(fs, layers[0]), layers[1..], es);
    }
  }

  /** The newest layer lies over the result of all the others: its objects show, and what its markers remove is gone. */
  lemma LastLayerShows(fs: Fs, layers: seq<seq<Entry>>)
    requires Proper(fs) && layers != [] && Compatible(layers[|layers| - 1])
    ensures ShownOver(ApplyLayers(fs, layers[..|layers| - 1]), layers[|layers| - 1], ApplyLayers(fs, layers))
  {
    hide Proper, Compatible, ApplyLayer, ApplyLayers, Overlay, Lower, Objects, ShownAt;
    var front, es := layers[..|layers| - 1], layers[|layers| - 1];
    assert layers == front + [es];
    ApplyLayersSnoc(fs, front, es);
    LayersProper(fs, front);
    var below := ApplyLayers(fs, front);
    AnyOrder(below, es, es);
    forall q ensures ShownAt(below, es, ApplyLayers(fs, layers), q) {
      OverlayShows(below, es, q);
    }
  }
}
