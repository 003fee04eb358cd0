/** The mutable tree that layers are folded into, and its agreement with the path map. */
module Squash {
  import opened ByteStrings
  import opened Entries
  import opened Paths
  import opened Filesystem

  /** Only the child map of a node changes after the node is made. */
  class Node {
    const name: Str
    const meta: Meta
    const implicit: bool
    /** The child map; a node that is not a directory has none, which reads as the empty map. */
    var children: map<Str, Node>

    /** An empty directory. */
    constructor Dir(name: Str, implicit: bool)
      ensures this.name == name && meta == DIR_META && this.implicit == implicit && children == map[]
    {
      this.name := name;
      meta := DIR_META;
      this.implicit := implicit;
      children := map[];
    }

    /** An entry as a node, without children. */
    constructor From(e: Entry, name: Str)
      ensures this.name == name && meta == InfoOf(e).meta && !implicit && children == map[]
    {
      this.name := name;
      meta := e.meta.(mode := PermBits(e.meta.mode));
      implicit := false;
      children := map[];
    }
  }

  /** The nodes of a tree, by path. */
  type Nodes = map<Path, Node>

  /** Their child maps. */
  type Kids = map<Path, map<Str, Node>>

  ghost function KidsOf(at: Nodes): Kids
    reads at.Values`children
  {
    map p | p in at :: at[p].children
  }

  /** Every child is the node one name further down. */
  ghost predicate Down(at: Nodes, kids: Kids) {
    kids.Keys == at.Keys
    && forall p, k | p in at && k in kids[p] :: p + [k] in at && at[p + [k]] == kids[p][k]
  }

  /** Every node but the root is a child of the node one name further up. */
  ghost predicate Up(at: Nodes, kids: Kids) {
    kids.Keys == at.Keys
    && forall p, k | p + [k] in at :: p in at && k in kids[p]
  }

  /** No node is at two paths. */
  ghost predicate Apart(at: Nodes) {
    forall p, q | p in at && q in at && p != q :: at[p] != at[q]
  }

  ghost predicate Linked(at: Nodes, kids: Kids) {
    [] in at && Down(at, kids) && Up(at, kids) && Apart(at)
  }

  /** A child is filed under its own name, only directories have children, and markers are no nodes. */
  ghost predicate Shaped(at: Nodes, kids: Kids) {
    && kids.Keys == at.Keys
    && forall p | p in at ::
         && (p != [] ==> at[p].name == Last(p))
         && (kids[p] != map[] ==> at[p].meta.kind == Dir)
         && !at[p].meta.kind.Marker()
  }

  ghost function ViewOf(at: Nodes): Fs {
    map p | p in at :: Info(at[p].meta, at[p].implicit)
  }

  ghost function Outside<T>(m: map<Path, T>, p: Path): map<Path, T> {
    map q | q in m && !Within(p, q) :: m[q]
  }

  ghost function NotUnder<T>(m: map<Path, T>, p: Path): map<Path, T> {
    map q | q in m && !Under(p, q) :: m[q]
  }

  lemma OneStep(p: Path, k: Str, q: Path, j: Str)
    ensures Within(p + [k], q) ==> Within(p, q) && Within(p + [k], q + [j])
    ensures Within(p + [k], q + [j]) ==> Within(p + [k], q) || (q == p && j == k)
    ensures q + [j] == p + [k] <==> q == p && j == k
    ensures !Within(p + [k], p) && Within(p + [k], p + [k])
  {
    assert (q + [j])[..|q|] == q && (p + [k])[..|p|] == p;
    assert (q + [j])[|q|] == j && (p + [k])[|p|] == k;
  }

  /** A node's ancestors are nodes, and each has a child below it. */
  lemma {:induction false} AncestorOf(at: Nodes, kids: Kids, q: Path, p: Path)
    requires Linked(at, kids) && q in at && Under(p, q)
    ensures p in at && q[|p|] in kids[p]
    decreases |q|
  {
    var d := Parent(q);
    assert q == d + [Last(q)];
    if p != d {
      AncestorOf(at, kids, d, p);
    }
  }

  lemma ViewProper(at: Nodes)
    requires Linked(at, KidsOf(at)) && Shaped(at, KidsOf(at)) && at[[]].meta.kind == Dir
    ensures Proper(ViewOf(at))
  {
    hide Down, Up, Apart;
    forall p, q | q in at && Under(p, q) ensures IsDir(ViewOf(at), p) {
      AncestorOf(at, KidsOf(at), q, p);
    }
  }

  // ---------------------------------------------------------------- the three ways links change

  lemma LinkedWithout(at: Nodes, kids: Kids, p: Path, name: Str)
    requires Linked(at, kids) && p in at
    ensures Linked(Outside(at, p + [name]), Outside(kids, p + [name])[p := kids[p] - {name}])
  {
    hide Within;
    var pn := p + [name];
    OneStep(p, name, p, name);
    var at', kids' := Outside(at, pn), Outside(kids, pn)[p := kids[p] - {name}];
    forall q, k | q in at' && k in kids'[q] ensures q + [k] in at' && at'[q + [k]] == kids'[q][k] {
      OneStep(p, name, q, k);
    }
    forall q, k | q + [k] in at' ensures q in at' && k in kids'[q] {
      OneStep(p, name, q, k);
    }
    RootIsOutside(pn);
  }

  lemma RootIsOutside(p: Path)
    requires p != []
    ensures !Within(p, [])
  {
  }

  /** A new node under a free name. */
  lemma LinkedWith(at: Nodes, kids: Kids, p: Path, name: Str, child: Node)
    requires Linked(at, kids) && p in at && p + [name] !in at && child !in at.Values
    ensures Linked(at[p + [name] := child], kids[p := kids[p][name := child]][p + [name] := map[]])
  {
    hide Within;
    var pn := p + [name];
    var at', kids' := at[pn := child], kids[p := kids[p][name := child]][pn := map[]];
    OneStep(p, name, p, name);
    assert pn != p;
    forall q, k | q in at' && k in kids'[q] ensures q + [k] in at' && at'[q + [k]] == kids'[q][k] {
      OneStep(p, name, q, k);
    }
    forall q, k | q + [k] in at' ensures q in at' && k in kids'[q] {
      OneStep(p, name, q, k);
    }
  }

  /** A new node in place of one, with its children. */
  lemma LinkedInstead(at: Nodes, kids: Kids, p: Path, name: Str, child: Node)
    requires Linked(at, kids) && p in at && name in kids[p] && child !in at.Values
    ensures p + [name] in at && Linked(at[p + [name] := child], kids[p := kids[p][name := child]])
  {
    hide Within;
    var pn := p + [name];
    assert pn in at;
    var at', kids' := at[pn := child], kids[p := kids[p][name := child]];
    OneStep(p, name, p, name);
    forall q, k | q in at' && k in kids'[q] ensures q + [k] in at' && at'[q + [k]] == kids'[q][k] {
      OneStep(p, name, q, k);
    }
  }

  /** A directory emptied. */
  lemma LinkedEmptied(at: Nodes, kids: Kids, p: Path)
    requires Linked(at, kids) && p in at
    ensures Linked(NotUnder(at, p), NotUnder(kids, p)[p := map[]])
  {
    var at', kids' := NotUnder(at, p), NotUnder(kids, p)[p := map[]];
    forall q, k | q in at' && k in kids'[q] ensures q + [k] in at' && at'[q + [k]] == kids'[q][k] {
      UnderStep(p, q, k);
    }
    forall q, k | q + [k] in at' ensures q in at' && k in kids'[q] {
      UnderStep(p, q, k);
    }
  }

  lemma UnderStep(p: Path, q: Path, k: Str)
    ensures Under(p, q + [k]) <==> Under(p, q) || q == p
  {
  }

  lemma LinkedKeys(at: Nodes, kids: Kids)
    requires Linked(at, kids)
    ensures kids.Keys == at.Keys
  {
  }

  /** A new node under a name, whatever had it gone. */
  lemma LinkedAttached(at: Nodes, kids: Kids, p: Path, name: Str, child: Node)
    requires Linked(at, kids) && p in at && child !in at.Values
    ensures Linked(Outside(at, p + [name])[p + [name] := child],
                   Outside(kids, p + [name])[p := kids[p][name := child]][p + [name] := map[]])
  {
    hide Linked, Within;
    var pn := p + [name];
    OneStep(p, name, p, name);
    LinkedKeys(at, kids);
    LinkedWithout(at, kids, p, name);
    var kids' := Outside(kids, pn)[p := kids[p] - {name}];
    LinkedWith(Outside(at, pn), kids', p, name, child);
    assert (kids[p] - {name})[name := child] == kids[p][name := child];
    assert kids'[p := kids[p][name := child]] == Outside(kids, pn)[p := kids[p][name := child]];
  }

  lemma ShapedAttached(at: Nodes, kids: Kids, p: Path, name: Str, child: Node)
    requires Shaped(at, kids) && p in at && at[p].meta.kind == Dir && child.name == name && !child.meta.kind.Marker()
    ensures Shaped(Outside(at, p + [name])[p + [name] := child],
                   Outside(kids, p + [name])[p := kids[p][name := child]][p + [name] := map[]])
  {
    hide Within;
    OneStep(p, name, p, name);
  }

  lemma KidsAttached(at: Nodes, kids: Kids, p: Path, name: Str, child: Node)
    requires kids.Keys == at.Keys && p in at && child.children == map[]
    requires forall q | q in at :: at[q].children == if q == p then kids[p][name := child] else kids[q]
    ensures KidsOf(Outside(at, p + [name])[p + [name] := child])
         == Outside(kids, p + [name])[p := kids[p][name := child]][p + [name] := map[]]
  {
  }

  lemma KidsDetached(at: Nodes, kids: Kids, p: Path, name: Str)
    requires kids.Keys == at.Keys && p in at
    requires forall q | q in at :: at[q].children == if q == p then kids[p] - {name} else kids[q]
    ensures KidsOf(Outside(at, p + [name])) == Outside(kids, p + [name])[p := kids[p] - {name}]
  {
    hide Within;
    OneStep(p, name, p, name);
  }

  lemma ShapedInstead(at: Nodes, kids: Kids, p: Path, name: Str, child: Node)
    requires Shaped(at, kids) && p in at && p + [name] in at && at[p].meta.kind == Dir
    requires child.name == name && child.meta.kind == Dir
    ensures Shaped(at[p + [name] := child], kids[p := kids[p][name := child]])
  {
  }

  lemma ShapedWithout(at: Nodes, kids: Kids, p: Path, name: Str)
    requires Shaped(at, kids) && p in at
    ensures Shaped(Outside(at, p + [name]), Outside(kids, p + [name])[p := kids[p] - {name}])
  {
  }

  lemma ShapedEmptied(at: Nodes, kids: Kids, p: Path)
    requires Shaped(at, kids) && p in at
    ensures Shaped(NotUnder(at, p), NotUnder(kids, p)[p := map[]])
  {
  }

  lemma ViewOutside(at: Nodes, p: Path)
    ensures ViewOf(Outside(at, p)) == Outside(ViewOf(at), p)
  {
  }

  lemma ViewNotUnder(at: Nodes, p: Path)
    ensures ViewOf(NotUnder(at, p)) == NotUnder(ViewOf(at), p)
  {
  }

  lemma ViewPlus(at: Nodes, p: Path, child: Node)
    ensures ViewOf(at[p := child]) == ViewOf(at)[p := Info(child.meta, child.implicit)]
  {
  }

  // ---------------------------------------------------------------- the squasher

  class Squasher {
    const root: Node
    ghost var at: Nodes

    ghost predicate Valid()
      reads this, at.Values
    {
      Linked(at, KidsOf(at)) && Shaped(at, KidsOf(at)) && at[[]] == root && root.meta.kind == Dir
    }

    /** The tree, flattened. */
    ghost function View(): Fs
      reads this
    {
      ViewOf(at)
    }

    constructor ()
      ensures Valid() && fresh(at.Values)
      ensures View() == EMPTY
    {
      var node := new Node.Dir([SLASH], true);
      root := node;
      at := map[[] := node];
      new;
      assert at.Keys == {[]};
    }

    /** The node with this path of names, or null. */
    method Lookup(segs: Path) returns (n: Node?)
      requires Valid()
      ensures n == if segs in at then at[segs] else null
    {
      hide Linked, Shaped;
      var cur := root;
      var i := 0;
      Facts();
      while i < |segs|
        invariant 0 <= i <= |segs|
        invariant segs[..i] in at && at[segs[..i]] == cur
      {
        Descend(segs, i);
        if segs[i] !in cur.children {
          return null;
        }
        cur := cur.children[segs[i]];
        i := i + 1;
      }
      assert segs[..i] == segs;
      return cur;
    }

    lemma Descend(q: Path, i: nat)
      requires Valid() && i < |q| && q[..i] in at
      ensures q[i] in at[q[..i]].children ==> q[..i + 1] in at && at[q[..i + 1]] == at[q[..i]].children[q[i]]
      ensures q[i] !in at[q[..i]].children ==> q[..i + 1] !in at && q !in at
    {
      assert q[..i + 1] == q[..i] + [q[i]];
      if q in at {
        AncestorOf(at, KidsOf(at), q, q[..i]);
      }
    }

    /** parent.Children[name] = child, for a child without children: whatever had the name goes, with all below it. */
    method Attach(ghost p: Path, parent: Node, name: Str, child: Node)
      requires Valid() && p in at && at[p] == parent && parent.meta.kind == Dir
      requires child !in at.Values && child.name == name && child.children == map[] && !child.meta.kind.Marker()
      modifies this`at, parent`children
      ensures Valid() && at == Outside(old(at), p + [name])[p + [name] := child]
      ensures View() == Outside(old(View()), p + [name])[p + [name] := Info(child.meta, child.implicit)]
    {
      hide Linked, Shaped, Within, ViewOf;
      ghost var pn, was, kids := p + [name], at, KidsOf(at);
      OneStep(p, name, p, name);
      LinkedAttached(was, kids, p, name, child);
      ShapedAttached(was, kids, p, name, child);
      Facts();
      parent.children := parent.children[name := child];
      at := Outside(at, pn)[pn := child];
      KidsAttached(was, kids, p, name, child);
      ViewOutside(was, pn);
      ViewPlus(Outside(was, pn), pn, child);
    }

    /** The same, where an old directory hands its children to a new one. */
    method Restate(ghost p: Path, parent: Node, name: Str, child: Node)
      requires Valid() && p in at && at[p] == parent && parent.meta.kind == Dir
      requires name in parent.children && parent.children[name].meta.kind == Dir
      requires child !in at.Values && child.name == name && child.meta.kind == Dir
      requires child.children == parent.children[name].children
      modifies this`at, parent`children
      ensures Valid() && p + [name] in old(at) && at == old(at)[p + [name] := child]
      ensures View() == old(View())[p + [name] := Info(child.meta, child.implicit)]
    {
      hide Linked, Shaped, Within, ViewOf;
      ghost var pn, was, kids := p + [name], at, KidsOf(at);
      Facts();
      ShapedInstead(was, kids, p, name, child);
      OneStep(p, name, p, name);
      LinkedInstead(was, kids, p, name, child);
      parent.children := parent.children[name := child];
      at := at[pn := child];
      assert KidsOf(at) == kids[p := kids[p][name := child]];
      ViewPlus(was, pn, child);
    }

    /** delete(parent.Children, name) */
    method Detach(ghost p: Path, parent: Node, name: Str)
      requires Valid() && p in at && at[p] == parent
      modifies this`at, parent`children
      ensures Valid() && at == Outside(old(at), p + [name])
      ensures View() == Outside(old(View()), p + [name])
    {
      hide Linked, Shaped, Within, ViewOf;
      ghost var pn, was, kids := p + [name], at, KidsOf(at);
      OneStep(p, name, p, name);
      LinkedWithout(was, kids, p, name);
      ShapedWithout(was, kids, p, name);
      RootIsOutside(pn);
      Facts();
      parent.children := parent.children - {name};
      at := Outside(at, pn);
      KidsDetached(was, kids, p, name);
      ViewOutside(was, pn);
    }

    /** d.Children = make(...) */
    method Empty(ghost p: Path, d: Node)
      requires Valid() && p in at && at[p] == d
      modifies this`at, d`children
      ensures Valid() && at == NotUnder(old(at), p)
      ensures View() == NotUnder(old(View()), p)
    {
      hide Linked, Shaped, ViewOf;
      ghost var was, kids := at, KidsOf(at);
      LinkedEmptied(was, kids, p);
      ShapedEmptied(was, kids, p);
      Facts();
      d.children := map[];
      at := NotUnder(at, p);
      assert KidsOf(at) == NotUnder(kids, p)[p := map[]];
      ViewNotUnder(was, p);
    }

    /** The directory child with this name: the one there, or a new one in place of whatever is there. */
    method ChildDir(ghost p: Path, cur: Node, name: Str) returns (child: Node)
      requires Valid() && p in at && at[p] == cur && cur.meta.kind == Dir
      modifies this`at, cur`children
      ensures Valid() && p + [name] in at && at[p + [name]] == child && child.meta.kind == Dir
      ensures View() == WithDir(old(View()), p + [name])
      ensures at.Values <= old(at.Values) + {child} && (child in old(at.Values) || fresh(child))
    {
      hide Linked, Shaped, ViewOf;
      DirShows(p + [name]);
      Descend(p + [name], |p|);
      assert (p + [name])[..|p|] == p && (p + [name])[..|p| + 1] == p + [name];
      if name in cur.children && cur.children[name].meta.kind == Dir {
        return cur.children[name];
      }
      child := new Node.Dir(name, true);
      Attach(p, cur, name, child);
    }

    /** The directory with this path of names, made where missing. */
    method EnsureDirs(segs: Path) returns (cur: Node)
      requires Valid()
      modifies this`at, at.Values`children
      ensures Valid() && segs in at && at[segs] == cur && cur.meta.kind == Dir
      ensures View() == WithDirs(old(View()), segs)
      ensures forall n | n in at.Values :: n in old(at.Values) || fresh(n)
    {
      hide Linked, Shaped, ViewOf, WithDirs, WithDir, KidsOf, Proper;
      ghost var was := View();
      cur := root;
      var i := 0;
      assert [] in at by { Facts(); }
      assert Proper(was) by { IsProper(); }
      WithNoDirs(was);
      while i < |segs|
        invariant 0 <= i <= |segs|
        invariant Valid() && segs[..i] in at && at[segs[..i]] == cur && cur.meta.kind == Dir
        invariant View() == WithDirs(was, segs[..i])
        invariant forall n | n in at.Values :: n in old(at.Values) || fresh(n)
      {
        assert segs[..i] + [segs[i]] == segs[..i + 1];
        WithDirsStep(was, segs[..i], segs[i]);
        cur := ChildDir(segs[..i], cur, segs[i]);
        i := i + 1;
      }
      assert segs[..i] == segs;
    }

    /** One entry inserted or replaced. */
    method UpsertEntry(e: Entry)
      requires Valid() && !e.meta.kind.Marker()
      modifies this`at, at.Values`children
      ensures Valid() && View() == Upsert(old(View()), e)
      ensures forall n | n in at.Values :: n in old(at.Values) || fresh(n)
    {
      hide Linked, Shaped, ViewOf, WithDirs, Put, KidsOf, Segments;
      var dir, name := DirPart(e.path), NamePart(e.path);
      if name == [] {
        return;
      }
      ghost var p, was := Segments(dir), View();
      IsProper();
      PutIs(was, p, name, InfoOf(e));
      var parent := EnsureDirs(Segments(dir));
      Land(e, p, parent, name);
    }

    /** The entry's node under its parent; a directory that meets a directory keeps the children it finds. */
    method Land(e: Entry, ghost p: Path, parent: Node, name: Str)
      requires Valid() && !e.meta.kind.Marker() && p in at && at[p] == parent && parent.meta.kind == Dir
      modifies this`at, parent`children
      ensures Valid()
      ensures forall n | n in at.Values :: n in old(at.Values) || fresh(n)
      ensures View() == if e.meta.kind == Dir && IsDir(old(View()), p + [name])
                        then old(View())[p + [name] := InfoOf(e)]
                        else Outside(old(View()), p + [name])[p + [name] := InfoOf(e)]
    {
      hide Linked, Shaped, ViewOf, KidsOf;
      var n := new Node.From(e, name);
      HasChild(p, name);
      if e.meta.kind == Dir && name in parent.children && parent.children[name].meta.kind == Dir {
        n.children := parent.children[name].children;
        Restate(p, parent, name, n);
      } else {
        Attach(p, parent, name, n);
      }
    }

    lemma HasChild(p: Path, name: Str)
      requires Valid() && p in at
      ensures IsDir(View(), p + [name]) <==> name in at[p].children && at[p].children[name].meta.kind == Dir
    {
    }

    /** The node with this name goes, with all below it; the root stays. */
    method RemoveSubtree(path: Str)
      requires Valid()
      modifies this`at, at.Values`children
      ensures Valid() && at.Values <= old(at.Values)
      ensures View() == if Segments(path) == [] then old(View()) else Outside(old(View()), WhiteoutPath(path))
    {
      hide Linked, Shaped, KidsOf, Segments, Rooted;
      var segs := Segments(path);
      if segs == [] {
        return;
      }
      var above := Segments(Rooted(Parent(segs)));
      IsProper();
      var parent := Lookup(above);
      if parent == null {
        NothingBelow(View(), above, Last(segs));
        return;
      }
      Detach(above, parent, Last(segs));
    }

    /** One layer: opaque markers and whiteouts delete from the layers below, then the layer's own objects go in. */
    method Apply(es: seq<Entry>)
      requires Valid()
      modifies this`at, at.Values`children
      ensures Valid() && View() == ApplyLayer(old(View()), es)
      ensures forall n | n in at.Values :: n in old(at.Values) || fresh(n)
    {
      hide Valid, ViewOf, Lower;
      ghost var was := View();
      ApplyOpaque(es);
      ApplyWhiteouts(es);
      HiddenTwice(was, es);
      UpsertObjects(es);
    }

    method ApplyOpaque(es: seq<Entry>)
      requires Valid()
      modifies this`at, at.Values`children
      ensures Valid() && at.Values <= old(at.Values)
      ensures View() == Spared(old(View()), es, Opaque)
    {
      hide Linked, Shaped, KidsOf, Segments, Spared, Proper;
      ghost var was := View();
      var i := 0;
      assert es[..i] == [];
      SparedStart(was, Opaque);
      while i < |es|
        invariant 0 <= i <= |es|
        invariant Valid() && at.Values <= old(at.Values)
        invariant View() == Spared(was, es[..i], Opaque)
      {
        assert es[..i + 1] == es[..i] + [es[i]];
        SparedSnoc(was, es[..i], es[i], Opaque);
        if es[i].meta.kind == Opaque {
          IsProper();
          ghost var p := Segments(es[i].path);
          NotUnderIs(View(), es[i]);
          var d := Lookup(Segments(es[i].path));
          if d != null && d.meta.kind == Dir {
            Empty(p, d);
          }
        }
        i := i + 1;
      }
      assert es[..i] == es;
    }

    method ApplyWhiteouts(es: seq<Entry>)
      requires Valid()
      modifies this`at, at.Values`children
      ensures Valid() && at.Values <= old(at.Values)
      ensures View() == Spared(old(View()), es, Whiteout)
    {
      hide Linked, Shaped, KidsOf, Segments, Spared, ViewOf;
      ghost var was := View();
      var i := 0;
      assert es[..i] == [];
      SparedStart(was, Whiteout);
      while i < |es|
        invariant 0 <= i <= |es|
        invariant Valid() && at.Values <= old(at.Values)
        invariant View() == Spared(was, es[..i], Whiteout)
      {
        assert es[..i + 1] == es[..i] + [es[i]];
        SparedSnoc(was, es[..i], es[i], Whiteout);
        if es[i].meta.kind == Whiteout {
          OutsideIs(View(), es[i]);
          RemoveSubtree(es[i].path);
        }
        i := i + 1;
      }
      assert es[..i] == es;
    }

    method UpsertObjects(es: seq<Entry>)
      requires Valid()
      modifies this`at, at.Values`children
      ensures Valid() && View() == Upserts(old(View()), es)
      ensures forall n | n in at.Values :: n in old(at.Values) || fresh(n)
    {
      hide Linked, Shaped, KidsOf, ViewOf, Put, NamePart;
      ghost var was := View();
      var i := 0;
      assert es[i..] == es;
      while i < |es|
        invariant 0 <= i <= |es|
        invariant Valid()
        invariant Upserts(View(), es[i..]) == Upserts(was, es)
        invariant forall n | n in at.Values :: n in old(at.Values) || fresh(n)
      {
        assert es[i..][1..] == es[i + 1..];
        if es[i].meta.kind != Whiteout && es[i].meta.kind != Opaque {
          UpsertEntry(es[i]);
        }
        i := i + 1;
      }
      assert es[i..] == [];
    }

    lemma DirShows(p: Path)
      ensures IsDir(View(), p) <==> p in at && at[p].meta.kind == Dir
    {
    }

    lemma IsProper()
      requires Valid()
      ensures Proper(View())
    {
      ViewProper(at);
    }

    lemma Facts()
      requires Valid()
      ensures [] in at && forall p, q | p in at && q in at && p != q :: at[p] != at[q]
      ensures forall p, k | p in at && k in at[p].children :: p + [k] in at && at[p + [k]] == at[p].children[k]
    {
    }
  }

  /** All the layers, oldest first, over an empty root. */
  method SquashLayers(layers: seq<seq<Entry>>) returns (s: Squasher)
    ensures s.Valid() && s.View() == ApplyLayers(EMPTY, layers)
    ensures layers != [] && Compatible(layers[|layers| - 1]) ==>
        ShownOver(ApplyLayers(EMPTY, layers[..|layers| - 1]), layers[|layers| - 1], s.View())
  {
    hide ApplyLayer, Linked, Shaped, ViewOf, Compatible, ShownOver;
    s := new Squasher();
    assert layers[0..] == layers;
    for i := 0 to |layers|
      invariant s.Valid() && fresh(s) && forall n | n in s.at.Values :: fresh(n)
      invariant ApplyLayers(s.View(), layers[i..]) == ApplyLayers(EMPTY, layers)
    {
      assert layers[i..][1..] == layers[i + 1..];
      s.Apply(layers[i]);
    }
    assert layers[|layers|..] == [];
    if layers != [] && Compatible(layers[|layers| - 1]) {
      EmptyProper();
      LastLayerShows(EMPTY, layers);
    }
  }

  ghost function WithDir(fs: Fs, p: Path): Fs {
    if IsDir(fs, p) then fs else Outside(fs, p)[p := IMPLICIT_DIR]
  }

  lemma WithNoDirs(fs: Fs)
    requires Proper(fs)
    ensures WithDirs(fs, []) == fs
  {
  }

  lemma WithDirsStep(fs: Fs, p: Path, k: Str)
    requires Proper(fs)
    ensures WithDirs(fs, p + [k]) == WithDir(WithDirs(fs, p), p + [k])
  {
    var v, r := WithDirs(fs, p + [k]), WithDir(WithDirs(fs, p), p + [k]);
    forall q ensures (q in v <==> q in r) && (q in v && q in r ==> v[q] == r[q]) {
      WithDirsStepAt(fs, p, k, q);
    }
    assert v.Keys == r.Keys;
  }

  lemma WithDirsStepAt(fs: Fs, p: Path, k: Str, q: Path)
    requires Proper(fs)
    ensures var v, r := WithDirs(fs, p + [k]), WithDir(WithDirs(fs, p), p + [k]);
            (q in v <==> q in r) && (q in v && q in r ==> v[q] == r[q])
  {
    var pn := p + [k];
    PrefixesAre(p, q);
    PrefixesAre(pn, q);
    PrefixesAre(p, pn);
    PrefixesAre(pn, pn);
    OneStep(p, k, p, k);
    assert pn[..|p|] == p;
    assert Within(q, pn) <==> Within(q, p) || q == pn by {
      if Within(q, pn) && q != pn { assert q == pn[..|q|] == p[..|q|]; }
    }
    assert q != pn && Within(pn, q) ==> Under(pn, q);
  }

  lemma PutIs(fs: Fs, p: Path, name: Str, info: Info)
    requires Proper(fs)
    ensures var w, pn := WithDirs(fs, p), p + [name];
            Put(fs, pn, info) == if info.meta.kind == Dir && IsDir(w, pn) then w[pn := info]
                else Outside(w, pn)[pn := info]
  {
    var w, pn := WithDirs(fs, p), p + [name];
    var v, r := Put(fs, pn, info), if info.meta.kind == Dir && IsDir(w, pn) then w[pn := info]
        else Outside(w, pn)[pn := info];
    forall q ensures (q in v <==> q in r) && (q in v && q in r ==> v[q] == r[q]) {
      PutIsAt(fs, p, name, info, q);
    }
    assert v.Keys == r.Keys;
  }

  lemma PutIsAt(fs: Fs, p: Path, name: Str, info: Info, q: Path)
    requires Proper(fs)
    ensures var w, pn := WithDirs(fs, p), p + [name];
            var v, r := Put(fs, pn, info), if info.meta.kind == Dir && IsDir(w, pn) then w[pn := info]
                else Outside(w, pn)[pn := info];
            (q in v <==> q in r) && (q in v && q in r ==> v[q] == r[q])
  {
    var pn := p + [name];
    PrefixesAre(p, q);
    PrefixesAre(pn, q);
    PrefixesAre(p, pn);
    PrefixesAre(pn, pn);
    OneStep(p, name, p, name);
    assert pn[..|p|] == p;
    assert Under(q, pn) <==> Within(q, p) by {
      if Under(q, pn) { assert q == pn[..|q|] == p[..|q|]; }
    }
    assert q != pn && Within(pn, q) ==> Under(pn, q);
  }

  lemma NothingBelow(fs: Fs, p: Path, name: Str)
    requires Proper(fs) && p !in fs
    ensures Outside(fs, p + [name]) == fs
  {
    forall q | Within(p + [name], q) ensures q !in fs {
      OneStep(p, name, q, name);
      assert Under(p, q);
    }
  }

  // ---------------------------------------------------------------- the deleting passes

  /** What the markers of kind k among es leave. */
  ghost function Spared(fs: Fs, es: seq<Entry>, k: Kind): Fs {
    map q | q in fs && forall e | e in es && e.meta.kind == k :: !Hides(e, q) :: fs[q]
  }

  lemma SparedStart(fs: Fs, k: Kind)
    ensures Spared(fs, [], k) == fs
  {
  }

  lemma SparedSnoc(fs: Fs, es: seq<Entry>, e: Entry, k: Kind)
    ensures e.meta.kind == k ==> Spared(fs, es + [e], k) == Visible(Spared(fs, es, k), e)
    ensures e.meta.kind != k ==> Spared(fs, es + [e], k) == Spared(fs, es, k)
  {
  }

  ghost function Visible(fs: Fs, e: Entry): Fs {
    map q | q in fs && !Hides(e, q) :: fs[q]
  }

  /** An opaque marker for what is not a directory hides nothing. */
  lemma NotUnderIs(fs: Fs, e: Entry)
    requires Proper(fs) && e.meta.kind == Opaque
    ensures Visible(fs, e) == NotUnder(fs, Segments(e.path))
    ensures !IsDir(fs, Segments(e.path)) ==> Visible(fs, e) == fs
  {
  }

  lemma OutsideIs(fs: Fs, e: Entry)
    requires e.meta.kind == Whiteout
    ensures Visible(fs, e) == if Segments(e.path) == [] then fs else Outside(fs, WhiteoutPath(e.path))
  {
  }

  /** The two passes together are what the markers of the layer leave. */
  lemma HiddenTwice(fs: Fs, es: seq<Entry>)
    ensures Spared(Spared(fs, es, Opaque), es, Whiteout) == Lower(fs, es)
  {
  }
}
