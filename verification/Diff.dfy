/** Two trees compared into one tree of rows with bottom-up totals. */
module Diff {
  import opened Options
  import opened ByteStrings
  import opened Entries
  import opened Filesystem

  /** A finished tree; a node that is not a directory has no children. */
  datatype Tree = Tree(name: Str, info: Info, children: map<Str, Tree>)

  datatype Status = Unchanged | Added | Removed | Modified

  /** What a row keeps of one side; the modification time is not kept. */
  datatype Side = Side(fields: Fields, implicit: bool)

  datatype Agg = Agg(leftBytes: int, rightBytes: int, leftFiles: int, rightFiles: int, addedBytes: int,
                     removedBytes: int, modifiedBytesLeft: int, modifiedBytesRight: int,
                     addedFiles: int, removedFiles: int, modifiedFiles: int)

  const NO_AGG := Agg(0, 0, 0, 0, 0, 0, 0, 0, 0, 0, 0)

  datatype DiffNode = DiffNode(name: Str, status: Status, left: Option<Side>, right: Option<Side>, agg: Agg,
                               children: seq<DiffNode>)

  function SideOf(i: Info): Side {
    Side(RawFields(i.meta), i.implicit)
  }

  /** An implicit directory's metadata is invented, so it is never compared; a change of kind always counts. */
  predicate MetaDiffers(l: Info, r: Info) {
    || l.meta.kind != r.meta.kind
    || (!(l.meta.kind == Dir && (l.implicit || r.implicit)) && FieldsOf(l.meta) != FieldsOf(r.meta))
  }

  /** The two sides agree: of one kind, and either a directory that one side only implies or holding the same. */
  ghost predicate SameInfo(l: Info, r: Info) {
    && l.meta.kind == r.meta.kind
    && ((l.meta.kind == Dir && (l.implicit || r.implicit)) || SameMeta(l.meta, r.meta))
  }

  lemma DiffersIff(l: Info, r: Info)
    ensures MetaDiffers(l, r) <==> !SameInfo(l, r)
  {
    FieldsAgree(l.meta, r.meta);
  }

  /** A side of a row is the node's own metadata, size and content hash included. */
  lemma SideKept(i: Info)
    ensures var f := SideOf(i).fields;
            && f.kind == i.meta.kind && f.mode == i.meta.mode % 4096 && f.uid == i.meta.uid && f.gid == i.meta.gid
            && f.uname == i.meta.uname && f.gname == i.meta.gname && f.size == i.meta.size && f.link == i.meta.link
            && f.devmajor == i.meta.devmajor && f.devminor == i.meta.devminor && f.xattrs == i.meta.xattrs
            && f.sha == i.meta.sha && SideOf(i).implicit == i.implicit
  {
  }

  // ---------------------------------------------------------------- totals

  predicate IsFile(s: Option<Side>) {
    s.Some? && s.value.fields.kind == File
  }

  function Bytes(s: Option<Side>): int {
    if IsFile(s) then s.value.fields.size else 0
  }

  function Count(s: Option<Side>): int {
    if IsFile(s) then 1 else 0
  }

  /** A row's own contribution: only regular files have any. */
  function OwnAgg(status: Status, left: Option<Side>, right: Option<Side>): Agg {
    var modified := status == Modified;
    Agg(Bytes(left), Bytes(right), Count(left), Count(right),
        if status == Added then Bytes(right) else 0,
        if status == Removed then Bytes(left) else 0,
        if modified then Bytes(left) else 0,
        if modified then Bytes(right) else 0,
        if status == Added then Count(right) else 0,
        if status == Removed then Count(left) else 0,
        if modified && (IsFile(left) || IsFile(right)) then 1 else 0)
  }

  function AddAgg(a: Agg, b: Agg): Agg {
    Agg(a.leftBytes + b.leftBytes, a.rightBytes + b.rightBytes, a.leftFiles + b.leftFiles, a.rightFiles + b.rightFiles,
        a.addedBytes + b.addedBytes, a.removedBytes + b.removedBytes,
        a.modifiedBytesLeft + b.modifiedBytesLeft, a.modifiedBytesRight + b.modifiedBytesRight,
        a.addedFiles + b.addedFiles, a.removedFiles + b.removedFiles, a.modifiedFiles + b.modifiedFiles)
  }

  function SumAggs(rows: seq<DiffNode>): Agg {
    if rows == [] then NO_AGG else AddAgg(rows[0].agg, SumAggs(rows[1..]))
  }

  /** The totals of a row, added up over its children one after another. */
  method FillAgg(status: Status, left: Option<Side>, right: Option<Side>, children: seq<DiffNode>) returns (a: Agg)
    ensures a == AddAgg(OwnAgg(status, left, right), SumAggs(children))
  {
    hide SumAggs, AddAgg;
    a := NO_AGG;
    if IsFile(left) {
      a := a.(leftBytes := a.leftBytes + left.value.fields.size, leftFiles := a.leftFiles + 1);
    }
    if IsFile(right) {
      a := a.(rightBytes := a.rightBytes + right.value.fields.size, rightFiles := a.rightFiles + 1);
    }
    match status {
      case Added =>
        if IsFile(right) {
          a := a.(addedBytes := a.addedBytes + right.value.fields.size, addedFiles := a.addedFiles + 1);
        }
      case Removed =>
        if IsFile(left) {
          a := a.(removedBytes := a.removedBytes + left.value.fields.size, removedFiles := a.removedFiles + 1);
        }
      case Modified =>
        if IsFile(left) {
          a := a.(modifiedBytesLeft := a.modifiedBytesLeft + left.value.fields.size);
        }
        if IsFile(right) {
          a := a.(modifiedBytesRight := a.modifiedBytesRight + right.value.fields.size);
        }
        if IsFile(left) || IsFile(right) {
          a := a.(modifiedFiles := a.modifiedFiles + 1);
        }
      case Unchanged =>
    }
    assert a == OwnAgg(status, left, right);
    a := AddChildren(a, children);
  }

  method AddChildren(own: Agg, children: seq<DiffNode>) returns (a: Agg)
    ensures a == AddAgg(own, SumAggs(children))
  {
    a := own;
    assert children[0..] == children;
    for i := 0 to |children|
      invariant AddAgg(a, SumAggs(children[i..])) == AddAgg(own, SumAggs(children))
    {
      assert children[i..][1..] == children[i + 1..];
      a := AddAgg(a, children[i].agg);
    }
    assert children[|children|..] == [];
  }

  // ---------------------------------------------------------------- order of rows

  /** The right side decides when it is there. */
  predicate IsDirRow(d: DiffNode) {
    if d.right.Some? then d.right.value.fields.kind == Dir else d.left.Some? && d.left.value.fields.kind == Dir
  }

  /** Directories first, then by name. */
  predicate RowBefore(a: DiffNode, b: DiffNode) {
    if IsDirRow(a) != IsDirRow(b) then IsDirRow(a) else Less(a.name, b.name)
  }

  ghost predicate RowsInOrder(rows: seq<DiffNode>) {
    forall i, j | 0 <= i < j < |rows| :: RowBefore(rows[i], rows[j])
  }

  ghost predicate DistinctNames(rows: seq<DiffNode>) {
    forall i, j | 0 <= i < j < |rows| :: rows[i].name != rows[j].name
  }

  function PlaceRow(d: DiffNode, rows: seq<DiffNode>): (r: seq<DiffNode>)
    ensures multiset(r) == multiset(rows) + multiset{d}
  {
    if rows == [] || RowBefore(d, rows[0]) then [d] + rows else
      assert rows == [rows[0]] + rows[1..];
      [rows[0]] + PlaceRow(d, rows[1..])
  }

  function SortRows(rows: seq<DiffNode>): (r: seq<DiffNode>)
    ensures multiset(r) == multiset(rows)
  {
    if rows == [] then [] else
      assert rows == [rows[0]] + rows[1..];
      PlaceRow(rows[0], SortRows(rows[1..]))
  }

  lemma RowBeforeOrder(a: DiffNode, b: DiffNode, c: DiffNode)
    ensures RowBefore(a, b) ==> !RowBefore(b, a) && a != b
    ensures a.name != b.name ==> RowBefore(a, b) || RowBefore(b, a)
    ensures RowBefore(a, b) && RowBefore(b, c) ==> RowBefore(a, c)
  {
    LessTotal(a.name, b.name);
    LessIrreflexive(a.name);
    if Less(a.name, b.name) {
      LessAsymmetric(a.name, b.name);
      if Less(b.name, c.name) { LessTransitive(a.name, b.name, c.name); }
    }
  }

  lemma InMultiset<T>(s: seq<T>, x: T)
    ensures x in s <==> x in multiset(s)
  {
  }

  lemma {:induction false} PlaceInOrder(d: DiffNode, rows: seq<DiffNode>)
    requires RowsInOrder(rows) && forall r | r in rows :: r.name != d.name
    ensures RowsInOrder(PlaceRow(d, rows))
    decreases |rows|
  {
    hide RowBefore;
    if rows != [] {
      assert rows[0] in rows;
      RowBeforeOrder(d, rows[0], d);
      if RowBefore(d, rows[0]) {
        forall k | 0 <= k < |rows| ensures RowBefore(d, rows[k]) {
          RowBeforeOrder(d, rows[0], rows[k]);
        }
      } else {
        assert forall r | r in rows[1..] :: r in rows;
        PlaceInOrder(d, rows[1..]);
        var p := PlaceRow(d, rows[1..]);
        forall k | 0 <= k < |p| ensures RowBefore(rows[0], p[k]) {
          InMultiset(p, p[k]);
          InMultiset(rows[1..], p[k]);
          if p[k] != d {
            var j :| 0 <= j < |rows[1..]| && rows[1..][j] == p[k];
            assert rows[j + 1] == p[k];
          }
        }
      }
    }
  }

  /** Rows with distinct names are put in the one order there is. */
  lemma {:induction false} SortInOrder(rows: seq<DiffNode>)
    requires DistinctNames(rows)
    ensures RowsInOrder(SortRows(rows))
    decreases |rows|
  {
    if rows != [] {
      SortInOrder(rows[1..]);
      var s := SortRows(rows[1..]);
      forall r | r in s ensures r.name != rows[0].name {
        InMultiset(s, r);
        InMultiset(rows[1..], r);
        var j :| 0 <= j < |rows[1..]| && rows[1..][j] == r;
        assert rows[j + 1] == r;
      }
      PlaceInOrder(rows[0], s);
    }
  }

  lemma {:induction false} OrderUnique(r: seq<DiffNode>, q: seq<DiffNode>)
    requires RowsInOrder(r) && RowsInOrder(q) && forall x :: x in r <==> x in q
    ensures r == q
    decreases |r|
  {
    hide RowBefore;
    OrderHead(r, q);
    if r != [] && q != [] {
      var r', q' := r[1..], q[1..];
      forall x ensures x in r' <==> x in q' {
        OrderTail(r, x);
        OrderTail(q, x);
      }
      OrderUnique(r', q');
      assert r == [r[0]] + r' && q == [q[0]] + q';
    }
  }

  lemma OrderHead(r: seq<DiffNode>, q: seq<DiffNode>)
    requires RowsInOrder(r) && RowsInOrder(q) && forall x :: x in r <==> x in q
    ensures r == [] <==> q == []
    ensures r != [] && q != [] ==> r[0] == q[0]
  {
    hide RowBefore;
    assert r != [] ==> r[0] in r;
    assert q != [] ==> q[0] in q;
    if r != [] && q != [] {
      var i :| 0 <= i < |q| && q[i] == r[0];
      var j :| 0 <= j < |r| && r[j] == q[0];
      RowBeforeOrder(q[0], r[0], r[0]);
    }
  }

  lemma OrderTail(r: seq<DiffNode>, x: DiffNode)
    requires RowsInOrder(r) && r != []
    ensures x in r[1..] <==> x in r && x != r[0]
  {
    hide RowBefore;
    if x in r && x != r[0] {
      var i :| 0 <= i < |r| && r[i] == x;
      assert r[1..][i - 1] == x;
    } else if x in r[1..] {
      var i :| 0 <= i < |r[1..]| && r[1..][i] == x;
      RowBeforeOrder(r[0], r[i + 1], x);
    }
  }

  /** The order in which rows are collected does not show. */
  lemma SortForgetsOrder(a: seq<DiffNode>, b: seq<DiffNode>)
    requires DistinctNames(a) && DistinctNames(b) && forall x :: x in a <==> x in b
    ensures SortRows(a) == SortRows(b)
  {
    SortInOrder(a);
    SortInOrder(b);
    forall x ensures x in SortRows(a) <==> x in SortRows(b) {
      SortMembers(a, x);
      SortMembers(b, x);
    }
    OrderUnique(SortRows(a), SortRows(b));
  }

  lemma SortMembers(rows: seq<DiffNode>, x: DiffNode)
    ensures x in SortRows(rows) <==> x in rows
  {
    InMultiset(rows, x);
    InMultiset(SortRows(rows), x);
  }

  // ---------------------------------------------------------------- the comparison

  function Row(name: Str, status: Status, left: Option<Side>, right: Option<Side>, children: seq<DiffNode>): DiffNode {
    DiffNode(name, status, left, right, AddAgg(OwnAgg(status, left, right), SumAggs(children)), children)
  }

  /** A subtree that only one side has. */
  ghost function MarkSubtree(t: Tree, status: Status): DiffNode {
    var names := Sorted(t.children.Keys);
    var rows := seq(|names|, i requires 0 <= i < |names| => assert names[i] in names;
        MarkSubtree(t.children[names[i]], status));
    Row(t.name, status, if status == Added then None else Some(SideOf(t.info)),
        if status == Added then Some(SideOf(t.info)) else None, SortRows(rows))
  }

  ghost function DiffChild(l: Tree, r: Tree, name: Str): DiffNode
    requires name in l.children.Keys + r.children.Keys
    decreases l, 0
  {
    if name !in l.children then MarkSubtree(r.children[name], Added)
    else if name !in r.children then MarkSubtree(l.children[name], Removed)
    else DiffOf(l.children[name], r.children[name])
  }

  ghost function DiffChildren(l: Tree, r: Tree): seq<DiffNode>
    decreases l, 1
  {
    var names := Sorted(l.children.Keys + r.children.Keys);
    seq(|names|, i requires 0 <= i < |names| => assert names[i] in names; DiffChild(l, r, names[i]))
  }

  ghost predicate SomeChanged(rows: seq<DiffNode>) {
    exists c :: c in rows && c.status != Unchanged
  }

  /** Both sides have a node here; below a directory on one side only, nothing is compared. */
  ghost function DiffOf(l: Tree, r: Tree): DiffNode
    decreases l, 2
  {
    var rows := if l.info.meta.kind == Dir && r.info.meta.kind == Dir then DiffChildren(l, r) else [];
    Row(l.name, if SomeChanged(rows) || MetaDiffers(l.info, r.info) then Modified else Unchanged,
        Some(SideOf(l.info)), Some(SideOf(r.info)), SortRows(rows))
  }

  // ---------------------------------------------------------------- a finished tree

  /** A child is filed under its name, and only directories have children. */
  ghost predicate Tidy(t: Tree) {
    && (t.children != map[] ==> t.info.meta.kind == Dir)
    && forall k | k in t.children :: t.children[k].name == k && Tidy(t.children[k])
  }

  lemma DiffChildNamed(l: Tree, r: Tree, name: Str)
    requires Tidy(l) && Tidy(r) && name in l.children.Keys + r.children.Keys
    ensures DiffChild(l, r, name).name == name
  {
  }

  ghost function MarkChildren(t: Tree, status: Status): (rows: seq<DiffNode>)
    ensures |rows| == |Sorted(t.children.Keys)|
    ensures forall i | 0 <= i < |rows| :: Sorted(t.children.Keys)[i] in t.children
    ensures forall i | 0 <= i < |rows| :: rows[i] == MarkSubtree(t.children[Sorted(t.children.Keys)[i]], status)
    ensures MarkSubtree(t, status).children == SortRows(rows)
  {
    var names := Sorted(t.children.Keys);
    assert forall i | 0 <= i < |names| :: names[i] in names;
    seq(|names|, i requires 0 <= i < |names| => MarkSubtree(t.children[names[i]], status))
  }

  lemma NamesDistinct(names: seq<Str>)
    requires Ascending(names)
    ensures forall i, j | 0 <= i < j < |names| :: names[i] != names[j]
  {
    forall i, j | 0 <= i < j < |names| ensures names[i] != names[j] {
      LessIrreflexive(names[i]);
    }
  }

  lemma MarkDistinct(t: Tree, status: Status)
    requires Tidy(t)
    ensures DistinctNames(MarkChildren(t, status))
  {
    NamesDistinct(Sorted(t.children.Keys));
  }

  lemma DiffDistinct(l: Tree, r: Tree)
    requires Tidy(l) && Tidy(r)
    ensures DistinctNames(DiffChildren(l, r))
  {
    hide DiffOf, MarkSubtree, Tidy;
    var names := Sorted(l.children.Keys + r.children.Keys);
    NamesDistinct(names);
    forall i | 0 <= i < |names| ensures DiffChildren(l, r)[i].name == names[i] {
      assert names[i] in names;
      DiffChildNamed(l, r, names[i]);
    }
  }

  // ---------------------------------------------------------------- the comparison, step by step

  /** Map order decides the order in which children are visited; sorting makes it irrelevant. */
  method MarkedSubtree(t: Tree, status: Status) returns (d: DiffNode)
    requires Tidy(t)
    ensures d == MarkSubtree(t, status)
    decreases t
  {
    hide Collected, MarkSubtree, SortRows, OwnAgg, AddAgg, SumAggs;
    var side := Some(SideOf(t.info));
    var left := if status == Added then None else side;
    var right := if status == Added then side else None;
    var rows: seq<DiffNode> := [];
    var todo := t.children.Keys;
    CollectedNone(t, status);
    while todo != {}
      invariant todo <= t.children.Keys
      invariant Collected(t, status, t.children.Keys - todo, rows)
      decreases todo
    {
      var k :| k in todo;
      var c := MarkedSubtree(t.children[k], status);
      CollectedMore(t, status, t.children.Keys - todo, rows, k);
      rows := rows + [c];
      assert t.children.Keys - (todo - {k}) == t.children.Keys - todo + {k};
      todo := todo - {k};
    }
    assert t.children.Keys - todo == t.children.Keys;
    CollectedAll(t, status, rows);
    rows := SortRows(rows);
    var agg := FillAgg(status, left, right, rows);
    d := DiffNode(t.name, status, left, right, agg, rows);
    MarkIs(t, status);
  }

  lemma MarkIs(t: Tree, status: Status)
    ensures MarkSubtree(t, status) ==
      Row(t.name, status, if status == Added then None else Some(SideOf(t.info)),
          if status == Added then Some(SideOf(t.info)) else None, SortRows(MarkChildren(t, status)))
  {
  }

  ghost predicate Collected(t: Tree, status: Status, done: set<Str>, rows: seq<DiffNode>)
    requires done <= t.children.Keys
  {
    && (forall i | 0 <= i < |rows| :: rows[i].name in done && rows[i] == MarkSubtree(t.children[rows[i].name], status))
    && (forall k | k in done :: MarkSubtree(t.children[k], status) in rows)
    && DistinctNames(rows)
  }

  lemma CollectedNone(t: Tree, status: Status)
    ensures Collected(t, status, {}, [])
    ensures t.children.Keys - t.children.Keys == {}
  {
  }

  lemma CollectedMore(t: Tree, status: Status, done: set<Str>, rows: seq<DiffNode>, k: Str)
    requires Tidy(t) && done <= t.children.Keys && k in t.children && k !in done && Collected(t, status, done, rows)
    ensures Collected(t, status, done + {k}, rows + [MarkSubtree(t.children[k], status)])
  {
    hide MarkSubtree, Tidy;
    MarkNamed(t, status, k);
  }

  lemma MarkNamed(t: Tree, status: Status, k: Str)
    requires Tidy(t) && k in t.children
    ensures MarkSubtree(t.children[k], status).name == k
  {
  }

  lemma CollectedAll(t: Tree, status: Status, rows: seq<DiffNode>)
    requires Tidy(t) && Collected(t, status, t.children.Keys, rows)
    ensures SortRows(rows) == SortRows(MarkChildren(t, status))
  {
    hide MarkSubtree, SortRows;
    var marked, names := MarkChildren(t, status), Sorted(t.children.Keys);
    MarkDistinct(t, status);
    forall x ensures x in rows <==> x in marked {
      if x in rows {
        assert x.name in names;
        var j :| 0 <= j < |names| && names[j] == x.name;
        assert marked[j] == x;
      }
    }
    SortForgetsOrder(rows, marked);
  }

  const NO_TREE := Tree([], IMPLICIT_DIR, map[])

  ghost function DiffSpec(l: Option<Tree>, r: Option<Tree>): Option<DiffNode> {
    match (l, r)
    case (None, None) => None
    case (None, Some(t)) => Some(MarkSubtree(t, Added))
    case (Some(t), None) => Some(MarkSubtree(t, Removed))
    case (Some(t), Some(u)) => Some(DiffOf(t, u))
  }

  function Child(t: Tree, name: Str): Option<Tree> {
    if name in t.children then Some(t.children[name]) else None
  }

  /** Either side may be missing. */
  method Diff(l: Option<Tree>, r: Option<Tree>) returns (d: Option<DiffNode>)
    requires (l.Some? ==> Tidy(l.value)) && (r.Some? ==> Tidy(r.value))
    ensures d == DiffSpec(l, r)
    decreases l.Some?, if l.Some? then l.value else NO_TREE, 1
  {
    hide DiffChildren, MarkSubtree, DiffOf, SortRows, OwnAgg, AddAgg, SumAggs, SomeChanged, Tidy, MetaDiffers;
    if l.None? && r.None? {
      return None;
    } else if l.None? {
      var marked := MarkedSubtree(r.value, Added);
      return Some(marked);
    } else if r.None? {
      var marked := MarkedSubtree(l.value, Removed);
      return Some(marked);
    }
    var t, u := l.value, r.value;
    var rows, changed := [], false;
    if t.info.meta.kind == Dir && u.info.meta.kind == Dir {
      rows, changed := DiffRows(t, u);
    }
    var status := if changed || MetaDiffers(t.info, u.info) then Modified else Unchanged;
    var left, right := Some(SideOf(t.info)), Some(SideOf(u.info));
    var children := SortRows(rows);
    var agg := FillAgg(status, left, right, children);
    d := Some(DiffNode(t.name, status, left, right, agg, children));
    DiffIs(t, u);
    NoneChanged();
  }

  lemma DiffIs(l: Tree, r: Tree)
    ensures DiffOf(l, r) ==
      var rows := if l.info.meta.kind == Dir && r.info.meta.kind == Dir then DiffChildren(l, r) else [];
      Row(l.name, if SomeChanged(rows) || MetaDiffers(l.info, r.info) then Modified else Unchanged,
          Some(SideOf(l.info)), Some(SideOf(r.info)), SortRows(rows))
  {
  }

  lemma NoneChanged()
    ensures !SomeChanged([])
  {
  }

  method DiffRows(t: Tree, u: Tree) returns (rows: seq<DiffNode>, changed: bool)
    requires Tidy(t) && Tidy(u)
    ensures rows == DiffChildren(t, u) && (changed <==> SomeChanged(rows))
    decreases true, t, 0
  {
    hide DiffChildren, DiffChild, DiffSpec, Tidy, SomeChanged, Sorted, Ascending, Child;
    rows, changed := [], false;
    NoneChanged();
    var names := SortedUnion(t.children, u.children);
    DiffChildrenSize(t, u);
    for i := 0 to |names|
      invariant |DiffChildren(t, u)| == |names|
      invariant rows == DiffChildren(t, u)[..i]
      invariant changed <==> SomeChanged(rows)
    {
      DiffChildrenAt(t, u, i);
      DiffSpecChild(t, u, names[i]);
      ChildTidy(t, names[i]);
      ChildTidy(u, names[i]);
      var c := Diff(Child(t, names[i]), Child(u, names[i]));
      if c.Some? {
        ChangedMore(rows, c.value);
        changed := changed || c.value.status != Unchanged;
        rows := rows + [c.value];
      }
    }
  }

  lemma ChildTidy(t: Tree, k: Str)
    requires Tidy(t)
    ensures Child(t, k).Some? ==> Tidy(Child(t, k).value) && Child(t, k).value < t
  {
  }

  lemma DiffChildrenAt(l: Tree, r: Tree, i: nat)
    requires i < |Sorted(l.children.Keys + r.children.Keys)|
    ensures var names := Sorted(l.children.Keys + r.children.Keys);
            && |DiffChildren(l, r)| == |names|
            && names[i] in l.children.Keys + r.children.Keys && DiffChildren(l, r)[i] == DiffChild(l, r, names[i])
  {
  }

  lemma DiffChildrenSize(l: Tree, r: Tree)
    ensures |DiffChildren(l, r)| == |Sorted(l.children.Keys + r.children.Keys)|
  {
  }

  lemma DiffSpecChild(l: Tree, r: Tree, k: Str)
    requires k in l.children.Keys + r.children.Keys
    ensures DiffSpec(Child(l, k), Child(r, k)) == Some(DiffChild(l, r, k))
  {
  }

  lemma TidyChildren(t: Tree)
    requires Tidy(t)
    ensures forall k | k in t.children :: Tidy(t.children[k])
  {
  }

  lemma ChangedMore(rows: seq<DiffNode>, c: DiffNode)
    ensures SomeChanged(rows + [c]) <==> SomeChanged(rows) || c.status != Unchanged
  {
  }
}
