/** The client's flat list of visible rows, with a trailing row where each open directory ends. */
module Trailers {
  import opened Options
  import opened ByteStrings

  datatype Variant = Loading | Failed | More | Empty

  /** A visible item: its level is its depth. */
  datatype FlatItem = FlatItem(id: Str, level: int)

  datatype VisibleEntry =
    | ItemEntry(id: Str, index: nat, level: int)
    | TrailerEntry(dir: Str, level: int, variant: Variant)

  type Expanded = Str -> bool
  type TrailerFor = Str -> Option<Variant>

  /** The trailing row of a directory, if it has one. */
  function Close(d: FlatItem, trailerFor: TrailerFor): seq<VisibleEntry> {
    match trailerFor(d.id)
    case None => []
    case Some(v) => [TrailerEntry(d.id, d.level + 1, v)]
  }

  // ---------------------------------------------------------------- with a stack

  /** The open directories are kept on a stack; an item no deeper than the top one closes it. */
  function Popped(stack: seq<FlatItem>, level: int): (rest: seq<FlatItem>) {
    if stack != [] && stack[|stack| - 1].level >= level then Popped(stack[..|stack| - 1], level) else stack
  }

  function Closed(stack: seq<FlatItem>, level: int, trailerFor: TrailerFor): seq<VisibleEntry> {
    if stack != [] && stack[|stack| - 1].level >= level then
      Close(stack[|stack| - 1], trailerFor) + Closed(stack[..|stack| - 1], level, trailerFor)
    else []
  }

  function CloseAll(stack: seq<FlatItem>, trailerFor: TrailerFor): seq<VisibleEntry> {
    if stack == [] then [] else Close(stack[|stack| - 1], trailerFor) + CloseAll(stack[..|stack| - 1], trailerFor)
  }

  /** What is still to come when the items from index at on are left and these directories are open. */
  function Rest(items: seq<FlatItem>, at: nat, stack: seq<FlatItem>, expanded: Expanded,
      trailerFor: TrailerFor): seq<VisibleEntry>
    decreases |items|
  {
    if items == [] then CloseAll(stack, trailerFor) else
      var item := items[0];
      var open := Popped(stack, item.level);
      Closed(stack, item.level, trailerFor)
      + [ItemEntry(item.id, at, item.level)]
      + Rest(items[1..], at + 1, if expanded(item.id) then open + [item] else open, expanded, trailerFor)
  }

  lemma RestStep(items: seq<FlatItem>, at: nat, stack: seq<FlatItem>, expanded: Expanded, trailerFor: TrailerFor)
    requires items != []
    ensures var item := items[0];
            var open := Popped(stack, item.level);
            forall out: seq<VisibleEntry> ::
              out + Rest(items, at, stack, expanded, trailerFor)
              == out + Closed(stack, item.level, trailerFor) + [ItemEntry(item.id, at, item.level)]
                 + Rest(items[1..], at + 1, if expanded(item.id) then open + [item] else open, expanded, trailerFor)
  {
    hide Closed, Popped, CloseAll;
  }

  lemma RestNone(at: nat, stack: seq<FlatItem>, expanded: Expanded, trailerFor: TrailerFor)
    ensures Rest([], at, stack, expanded, trailerFor) == CloseAll(stack, trailerFor)
  {
  }

  method InterleaveTrailers(items: seq<FlatItem>, root: Str, expanded: Expanded, trailerFor: TrailerFor)
      returns (out: seq<VisibleEntry>)
    ensures out == Rest(items, 0, [], expanded, trailerFor)
                   + if trailerFor(root).Some? then [TrailerEntry(root, 0, trailerFor(root).value)] else []
  {
    hide Closed, Popped, Close, CloseAll, Rest;
    out := [];
    var stack: seq<FlatItem> := [];
    ghost var whole := Rest(items, 0, [], expanded, trailerFor);
    assert items[0..] == items;
    for index := 0 to |items|
      invariant out + Rest(items[index..], index, stack, expanded, trailerFor) == whole
    {
      var item := items[index];
      assert items[index..][1..] == items[index + 1..];
      RestStep(items[index..], index, stack, expanded, trailerFor);
      var closing;
      closing, stack := CloseDown(stack, item.level, trailerFor);
      out := out + closing;
      out := out + [ItemEntry(item.id, index, item.level)];
      if expanded(item.id) {
        stack := stack + [item];
      }
    }
    RestNone(|items|, stack, expanded, trailerFor);
    assert items[|items|..] == [];
    var closing := CloseRest(stack, trailerFor);
    out := out + closing;
    out := out + Close(FlatItem(root, -1), trailerFor);
    CloseIs(FlatItem(root, -1), trailerFor);
  }

  /** The inner loop: directories are closed until one is shallower than the level. */
  method CloseDown(open: seq<FlatItem>, level: int, trailerFor: TrailerFor)
      returns (out: seq<VisibleEntry>, stack: seq<FlatItem>)
    ensures out == Closed(open, level, trailerFor) && stack == Popped(open, level)
  {
    out, stack := [], open;
    while stack != [] && stack[|stack| - 1].level >= level
      invariant Popped(stack, level) == Popped(open, level)
      invariant out + Closed(stack, level, trailerFor) == Closed(open, level, trailerFor)
      decreases |stack|
    {
      var top := stack[|stack| - 1];
      stack := stack[..|stack| - 1];
      out := out + Close(top, trailerFor);
    }
  }

  method CloseRest(open: seq<FlatItem>, trailerFor: TrailerFor) returns (out: seq<VisibleEntry>)
    ensures out == CloseAll(open, trailerFor)
  {
    hide CloseAll, Close;
    out := [];
    var stack := open;
    while stack != []
      invariant out + CloseAll(stack, trailerFor) == CloseAll(open, trailerFor)
      decreases |stack|
    {
      var top := stack[|stack| - 1];
      CloseTop(out, stack, trailerFor);
      stack := stack[..|stack| - 1];
      out := out + Close(top, trailerFor);
    }
    NoneOpen(trailerFor);
  }

  lemma CloseTop(out: seq<VisibleEntry>, stack: seq<FlatItem>, trailerFor: TrailerFor)
    requires stack != []
    ensures var n := |stack| - 1;
            out + CloseAll(stack, trailerFor) == out + Close(stack[n], trailerFor) + CloseAll(stack[..n], trailerFor)
  {
    hide Close, CloseAll;
    var n := |stack| - 1;
    CloseAllIs(stack, trailerFor);
    Regroup(out, Close(stack[n], trailerFor), CloseAll(stack[..n], trailerFor));
  }

  lemma {:induction false} CloseAllIs(stack: seq<FlatItem>, trailerFor: TrailerFor)
    requires stack != []
    ensures var n := |stack| - 1;
            CloseAll(stack, trailerFor) == Close(stack[n], trailerFor) + CloseAll(stack[..n], trailerFor)
  {
    hide Close;
  }

  lemma Regroup(a: seq<VisibleEntry>, b: seq<VisibleEntry>, c: seq<VisibleEntry>)
    ensures a + (b + c) == a + b + c
  {
  }

  lemma CloseIs(d: FlatItem, trailerFor: TrailerFor)
    ensures Close(d, trailerFor)
         == if trailerFor(d.id).Some? then [TrailerEntry(d.id, d.level + 1, trailerFor(d.id).value)] else []
  {
  }

  lemma NoneOpen(trailerFor: TrailerFor)
    ensures CloseAll([], trailerFor) == []
  {
  }

  // ---------------------------------------------------------------- by recursion

  /** The tree the flat list was made from. */
  datatype Node = Node(id: Str, children: seq<Node>)

  function Size(forest: seq<Node>): nat {
    if forest == [] then 0 else 1 + Size(forest[0].children) + Size(forest[1..])
  }

  /** Depth first, with levels. */
  function Flatten(forest: seq<Node>, level: int): (items: seq<FlatItem>)
    ensures forest != [] ==> items != [] && items[0].level == level
    ensures |items| == Size(forest)
  {
    if forest == [] then [] else
      [FlatItem(forest[0].id, level)] + Flatten(forest[0].children, level + 1) + Flatten(forest[1..], level)
  }

  /** Each item, then its children, then its trailer if it is open and has one, a level below its own. */
  function Render(forest: seq<Node>, level: int, at: nat, expanded: Expanded,
      trailerFor: TrailerFor): seq<VisibleEntry> {
    if forest == [] then [] else
      var n := forest[0];
      [ItemEntry(n.id, at, level)]
      + Render(n.children, level + 1, at + 1, expanded, trailerFor)
      + (if expanded(n.id) && trailerFor(n.id).Some? then [TrailerEntry(n.id, level + 1, trailerFor(n.id).value)]
         else [])
      + Render(forest[1..], level, at + 1 + Size(n.children), expanded, trailerFor)
  }

  ghost predicate Shallower(stack: seq<FlatItem>, level: int) {
    forall i | 0 <= i < |stack| :: stack[i].level < level
  }

  lemma {:induction false} RestRenders(forest: seq<Node>, level: int, after: seq<FlatItem>, at: nat,
      stack: seq<FlatItem>,
                                       expanded: Expanded, trailerFor: TrailerFor)
    requires Shallower(stack, level) && (after == [] || after[0].level <= level)
    ensures Rest(Flatten(forest, level) + after, at, stack, expanded, trailerFor)
         == Render(forest, level, at, expanded, trailerFor)
             + Rest(after, at + Size(forest), stack, expanded, trailerFor)
    decreases Size(forest)
  {
    hide Rest, Render, Flatten, Close, LaterItems, Shallower, Opened;
    if forest == [] {
      FlattenNone(level);
      RenderNone(level, at, expanded, trailerFor);
      assert [] + after == after;
    } else {
      var n, more, next := forest[0], forest[1..], at + 1 + Size(forest[0].children);
      var item := FlatItem(n.id, level);
      var later := LaterItems(more, level, after);
      var open := Opened(stack, item, expanded);
      Deeper(stack, item, level, expanded);
      var a, b := [ItemEntry(n.id, at, level)], Render(n.children, level + 1, at + 1, expanded, trailerFor);
      var c := if expanded(n.id) then Close(item, trailerFor) else [];
      var d, e := Render(more, level, next, expanded, trailerFor),
          Rest(after, at + Size(forest), stack, expanded, trailerFor);
      FlattenOne(forest, level, after);
      RestOne(item, Flatten(n.children, level + 1) + later, at, stack, expanded, trailerFor);
      RestRenders(n.children, level + 1, later, at + 1, open, expanded, trailerFor);
      RestCloses(later, next, stack, item, expanded, trailerFor);
      RestRenders(more, level, after, next, stack, expanded, trailerFor);
      RenderOne(forest, level, at, expanded, trailerFor);
      Chained(Rest(Flatten(forest, level) + after, at, stack, expanded, trailerFor),
              a, Rest(Flatten(n.children, level + 1) + later, at + 1, open, expanded, trailerFor),
              b, Rest(later, next, open, expanded, trailerFor),
              c, Rest(later, next, stack, expanded, trailerFor), d, e);
    }
  }

  lemma Chained(r: seq<VisibleEntry>, a: seq<VisibleEntry>, r1: seq<VisibleEntry>, b: seq<VisibleEntry>,
      r2: seq<VisibleEntry>,
                c: seq<VisibleEntry>, r3: seq<VisibleEntry>, d: seq<VisibleEntry>, e: seq<VisibleEntry>)
    requires r == a + r1 && r1 == b + r2 && r2 == c + r3 && r3 == d + e
    ensures r == (a + b + c + d) + e
  {
  }

  /** The items after a subtree are no deeper than its root. */
  ghost function LaterItems(more: seq<Node>, level: int, after: seq<FlatItem>): (later: seq<FlatItem>)
    requires after == [] || after[0].level <= level
    ensures later == Flatten(more, level) + after && (later == [] || later[0].level <= level)
  {
    Flatten(more, level) + after
  }

  function Opened(stack: seq<FlatItem>, item: FlatItem, expanded: Expanded): seq<FlatItem> {
    if expanded(item.id) then stack + [item] else stack
  }

  lemma Deeper(stack: seq<FlatItem>, item: FlatItem, level: int, expanded: Expanded)
    requires Shallower(stack, level) && item.level == level
    ensures Shallower(Opened(stack, item, expanded), level + 1)
  {
  }

  lemma FlattenNone(level: int)
    ensures Flatten([], level) == []
  {
  }

  lemma RenderNone(level: int, at: nat, expanded: Expanded, trailerFor: TrailerFor)
    ensures Render([], level, at, expanded, trailerFor) == []
  {
  }

  lemma FlattenOne(forest: seq<Node>, level: int, after: seq<FlatItem>)
    requires forest != []
    ensures var n := forest[0];
            Flatten(forest, level) + after
            == [FlatItem(n.id, level)] + (Flatten(n.children, level + 1) + (Flatten(forest[1..], level) + after))
  {
  }

  lemma RenderOne(forest: seq<Node>, level: int, at: nat, expanded: Expanded, trailerFor: TrailerFor)
    requires forest != []
    ensures var n := forest[0];
            Render(forest, level, at, expanded, trailerFor)
            == [ItemEntry(n.id, at, level)] + Render(n.children, level + 1, at + 1, expanded, trailerFor)
               + (if expanded(n.id) then Close(FlatItem(n.id, level), trailerFor) else [])
               + Render(forest[1..], level, at + 1 + Size(n.children), expanded, trailerFor)
  {
  }

  /** An item deeper than everything open closes nothing. */
  lemma {:induction false} RestOne(item: FlatItem, later: seq<FlatItem>, at: nat, stack: seq<FlatItem>,
      expanded: Expanded, trailerFor: TrailerFor)
    requires Shallower(stack, item.level)
    ensures Rest([item] + later, at, stack, expanded, trailerFor)
         == [ItemEntry(item.id, at, item.level)]
            + Rest(later, at + 1, Opened(stack, item, expanded), expanded, trailerFor)
  {
  }

  /** What comes next, being no deeper, closes the directory on top first, if one was opened. */
  lemma {:induction false} RestCloses(later: seq<FlatItem>, at: nat, stack: seq<FlatItem>, top: FlatItem,
      expanded: Expanded, trailerFor: TrailerFor)
    requires later == [] || later[0].level <= top.level
    ensures Rest(later, at, Opened(stack, top, expanded), expanded, trailerFor)
         == (if expanded(top.id) then Close(top, trailerFor) else []) + Rest(later, at, stack, expanded, trailerFor)
  {
  }

  /** The stack renders what the recursion renders, and the root's own trailer comes last. */
  lemma InterleavedIsRendered(forest: seq<Node>, expanded: Expanded, trailerFor: TrailerFor)
    ensures Rest(Flatten(forest, 0), 0, [], expanded, trailerFor) == Render(forest, 0, 0, expanded, trailerFor)
  {
    RestRenders(forest, 0, [], 0, [], expanded, trailerFor);
    assert Flatten(forest, 0) + [] == Flatten(forest, 0);
  }
}
