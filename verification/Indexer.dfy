/** The bookkeeping of one layer's entries while its tar is read. */
module Indexer {
  import opened Options
  import opened Sums
  import opened ByteStrings
  import opened Entries
  import opened Changeset
  import opened Paths
  import opened Filesystem

  const DOT: byte := 46
  const WHITEOUT_PREFIX: Str := [46, 119, 104, 46]                               // .wh.
  const META_PREFIX: Str := [46, 119, 104, 46, 46, 119, 104, 46]                 // .wh..wh.
  const OPAQUE_NAME: Str := META_PREFIX + [46, 111, 112, 113]                    // .wh..wh..opq

  predicate HasPrefix(s: Str, prefix: Str) {
    prefix <= s
  }

  /** The directory of a sanitized path. */
  function DirOf(p: Str): Str {
    if DirLength(p) <= 1 then [SLASH] else p[..DirLength(p) - 1]
  }

  function JoinName(dir: Str, name: Str): Str {
    (if dir == [SLASH] then [] else dir) + [SLASH] + name
  }

  // ---------------------------------------------------------------- what is kept

  type MarkerKey = (Str, Kind)

  const NO_META := Meta(File, 0, 0, 0, 0, [], [], 0, 0, map[], 0, [], [])

  function MarkerOf(path: Str, kind: Kind): Entry {
    Entry(path, NO_META.(kind := kind))
  }

  /** The last object accepted for each path. */
  ghost function LastObjects(accepted: seq<Entry>): map<Str, Entry> {
    if accepted == [] then map[] else
      var n := |accepted| - 1;
      var e := accepted[n];
      if e.meta.kind.Marker() then LastObjects(accepted[..n]) else LastObjects(accepted[..n])[e.path := e]
  }

  ghost function LastMarkers(accepted: seq<Entry>): map<MarkerKey, Entry> {
    if accepted == [] then map[] else
      var n := |accepted| - 1;
      var e := accepted[n];
      if e.meta.kind.Marker() then LastMarkers(accepted[..n])[(e.path, e.meta.kind) := e]
          else LastMarkers(accepted[..n])
  }

  function FileSize(e: Entry): int {
    if e.meta.kind == File then e.meta.size else 0
  }

  ghost function FileSizes(objects: map<Str, Entry>): map<Str, int> {
    map p | p in objects :: FileSize(objects[p])
  }

  ghost predicate Keyed(objects: map<Str, Entry>, markers: map<MarkerKey, Entry>) {
    && (forall p | p in objects :: objects[p].path == p && !objects[p].meta.kind.Marker())
    && (forall k | k in markers :: (markers[k].path, markers[k].meta.kind) == k && k.1.Marker())
  }

  lemma {:induction false} LastKeyed(accepted: seq<Entry>)
    ensures Keyed(LastObjects(accepted), LastMarkers(accepted))
    decreases |accepted|
  {
    if accepted != [] { LastKeyed(accepted[..|accepted| - 1]); }
  }

  lemma LastWith(accepted: seq<Entry>, e: Entry)
    ensures var more := accepted + [e];
            && LastObjects(more) == (if e.meta.kind.Marker() then LastObjects(accepted)
                else LastObjects(accepted)[e.path := e])
            && LastMarkers(more) == (if e.meta.kind.Marker() then LastMarkers(accepted)[(e.path, e.meta.kind) := e]
                else LastMarkers(accepted))
  {
  }

  lemma SizesWith(objects: map<Str, Entry>, e: Entry)
    ensures SumMap(FileSizes(objects[e.path := e]))
      == SumMap(FileSizes(objects)) + FileSize(e) - (if e.path in objects then FileSize(objects[e.path]) else 0)
  {
    hide SumMap;
    SumUpdate(FileSizes(objects), e.path, FileSize(e));
    assert FileSizes(objects[e.path := e]) == FileSizes(objects)[e.path := FileSize(e)];
  }

  lemma SizesAre(objects: map<Str, Entry>)
    ensures FileSizes(objects)
         == map p | p in objects :: if objects[p].meta.kind == File then objects[p].meta.size else 0
  {
  }

  // ---------------------------------------------------------------- what the cap counts

  /** Objects share a slot with objects of the same path, markers with markers of the same path and kind. */
  datatype Slot = ObjectSlot(path: Str) | MarkerSlot(key: MarkerKey)

  function SlotOf(e: Entry): Slot {
    if e.meta.kind.Marker() then MarkerSlot((e.path, e.meta.kind)) else ObjectSlot(e.path)
  }

  ghost function SlotsOf(accepted: seq<Entry>): set<Slot> {
    set e | e in accepted :: SlotOf(e)
  }

  lemma SlotsWith(accepted: seq<Entry>, e: Entry)
    ensures SlotsOf(accepted + [e]) == SlotsOf(accepted) + {SlotOf(e)}
  {
  }

  /** The two maps together hold one entry for each slot. */
  lemma {:induction false} SlotsCounted(accepted: seq<Entry>)
    ensures forall p :: p in LastObjects(accepted) <==> ObjectSlot(p) in SlotsOf(accepted)
    ensures forall k :: k in LastMarkers(accepted) <==> MarkerSlot(k) in SlotsOf(accepted)
    ensures |LastObjects(accepted)| + |LastMarkers(accepted)| == |SlotsOf(accepted)|
    decreases |accepted|
  {
    hide SlotsOf;
    if accepted == [] {
      NoSlots();
    } else {
      var front, e := accepted[..|accepted| - 1], accepted[|accepted| - 1];
      assert accepted == front + [e];
      SlotsCounted(front);
      SlotsWith(front, e);
      SetSize(SlotsOf(front), SlotOf(e));
      if e.meta.kind.Marker() {
        MapSize(LastMarkers(front), (e.path, e.meta.kind), e);
      } else {
        MapSize(LastObjects(front), e.path, e);
      }
    }
  }

  lemma SetSize<T>(s: set<T>, x: T)
    ensures |s + {x}| == |s| + if x in s then 0 else 1
  {
    if x in s { assert s + {x} == s; }
  }

  lemma MapSize<K, V>(m: map<K, V>, k: K, v: V)
    ensures |m[k := v]| == |m| + if k in m then 0 else 1
  {
    assert m[k := v].Keys == m.Keys + {k};
    SetSize(m.Keys, k);
  }

  lemma NoSlots()
    ensures SlotsOf([]) == {}
  {
  }

  /** Whether e can be accepted: its slot is taken already, or one more slot stays within the cap. */
  ghost predicate HasRoom(accepted: seq<Entry>, cap: int, e: Entry) {
    SlotOf(e) in SlotsOf(accepted) || cap <= 0 || |SlotsOf(accepted)| < cap
  }

  class IndexState {
    var entries: map<Str, Entry>
    var markers: map<MarkerKey, Entry>
    var contentBytes: int
    const maxEntries: int
    ghost var accepted: seq<Entry>

    ghost predicate Valid()
      reads this
    {
      && entries == LastObjects(accepted)
      && markers == LastMarkers(accepted)
      && contentBytes == SumMap(FileSizes(entries))
      && (maxEntries > 0 ==> |SlotsOf(accepted)| <= maxEntries)
    }

    constructor (maxEntries: int)
      ensures Valid() && accepted == [] && this.maxEntries == maxEntries
    {
      entries := map[];
      markers := map[];
      contentBytes := 0;
      this.maxEntries := maxEntries;
      accepted := [];
    }

    /** Whether a slot not taken by anything accepted so far is still within the cap. */
    method ReserveEntry() returns (ok: bool)
      requires Valid()
      ensures ok <==> maxEntries <= 0 || |SlotsOf(accepted)| < maxEntries
    {
      hide LastObjects, LastMarkers, SlotsOf;
      SlotsCounted(accepted);
      ok := maxEntries <= 0 || |entries| + |markers| < maxEntries;
    }

    /** Only a path not seen before can be refused, and a refusal changes nothing. */
    method Put(e: Entry) returns (ok: bool)
      requires Valid() && !e.meta.kind.Marker()
      modifies this
      ensures Valid()
      ensures ok <==> old(HasRoom(accepted, maxEntries, e))
      ensures accepted == if ok then old(accepted) + [e] else old(accepted)
    {
      hide LastObjects, LastMarkers, FileSizes, SumMap, SlotsOf;
      SlotsCounted(accepted);
      if e.path !in entries {
        ok := ReserveEntry();
        if !ok {
          return;
        }
      } else if entries[e.path].meta.kind == File {
        contentBytes := contentBytes - entries[e.path].meta.size;
      }
      if e.meta.kind == File {
        contentBytes := contentBytes + e.meta.size;
      }
      SizesWith(entries, e);
      LastWith(accepted, e);
      SlotsWith(accepted, e);
      entries := entries[e.path := e];
      accepted := accepted + [e];
      ok := true;
    }

    /** A marker never displaces the object of the same path. */
    method PutMarker(e: Entry) returns (ok: bool)
      requires Valid() && e.meta.kind.Marker()
      modifies this
      ensures Valid()
      ensures ok <==> old(HasRoom(accepted, maxEntries, e))
      ensures accepted == if ok then old(accepted) + [e] else old(accepted)
    {
      hide LastObjects, LastMarkers, FileSizes, SumMap, SlotsOf;
      SlotsCounted(accepted);
      var key := (e.path, e.meta.kind);
      if key !in markers {
        ok := ReserveEntry();
        if !ok {
          return;
        }
      }
      LastWith(accepted, e);
      SlotsWith(accepted, e);
      markers := markers[key := e];
      accepted := accepted + [e];
      ok := true;
    }

    /**
     * One tar member. The root, unsafe names, other types, aufs metadata and malformed whiteouts are passed over;
     * a file whose body cannot be read, or a new slot over the cap, is an error that records nothing.
     */
    method Add(m: Member) returns (r: Outcome)
      requires Valid()
      modifies this
      ensures Valid()
      ensures r == AddOutcome(old(accepted), maxEntries, m)
      ensures var e, fits := Classify(m), e => HasRoom(old(accepted), maxEntries, e);
              && (r == TooManyEntries <==> e.Some? && !fits(e.value))
              && (r == Unreadable <==> e.Some? && fits(e.value) && e.value.meta.kind == File && m.body.None?)
      ensures accepted == if r == Recorded then old(accepted) + Recording(m) else old(accepted)
    {
      hide LastObjects, LastMarkers, FileSizes, SumMap, SlotsOf, Classify;
      var e := Classify(m);
      SlotsCounted(accepted);
      r := Recorded;
      match e {
        case None =>
        case Some(e) =>
          if e.meta.kind.Marker() {
            var ok := PutMarker(e);
            return if ok then Recorded else TooManyEntries;
          }
          if e.path !in entries {
            // Before the body is read: a refusal does not cost a pass over the file.
            var ok := ReserveEntry();
            if !ok {
              return TooManyEntries;
            }
          }
          if e.meta.kind == File && m.body.None? {
            return Unreadable;
          }
          var ok := Put(e);
          assert ok;
      }
    }

    /** The index: every object and marker that stands, in order of path and kind. */
    method Finish() returns (es: seq<Entry>, bytes: int)
      requires Valid()
      ensures IndexOrder(es)
      ensures forall e :: e in es <==> Stands(accepted, e)
      ensures var standing := LastObjects(accepted);
              bytes == SumMap(map p | p in standing ::
                                if standing[p].meta.kind == File then standing[p].meta.size else 0)
    {
      hide LastObjects, LastMarkers, FileSizes, SumMap, Stands, IndexOrder, SlotsOf;
      LastKeyed(accepted);
      es := Collect();
      StandsIs(accepted);
      SortIsIndexOrder(es);
      SameEntries(SortEntries(es), es);
      es := SortEntries(es);
      SizesAre(LastObjects(accepted));
      bytes := contentBytes;
    }

    /** Objects and markers in whatever order the maps give them. */
    method Collect() returns (es: seq<Entry>)
      requires Keyed(entries, markers)
      ensures DistinctKeys(es)
      ensures forall e :: e in es <==> HasObject(entries, e) || HasMarker(markers, e)
    {
      es := [];
      var paths, keys := entries.Keys, markers.Keys;
      while paths != {}
        invariant paths <= entries.Keys
        invariant DistinctKeys(es) && forall e :: e in es <==> HasObject(entries, e) && e.path !in paths
        decreases paths
      {
        var p :| p in paths;
        es := es + [entries[p]];
        paths := paths - {p};
      }
      while keys != {}
        invariant keys <= markers.Keys
        invariant DistinctKeys(es)
        invariant forall e ::
                    e in es <==> HasObject(entries, e) || (HasMarker(markers, e) && (e.path, e.meta.kind) !in keys)
        decreases keys
      {
        var k :| k in keys;
        es := es + [markers[k]];
        keys := keys - {k};
      }
    }
  }

  predicate HasObject(objects: map<Str, Entry>, e: Entry) {
    e.path in objects && objects[e.path] == e
  }

  predicate HasMarker(markers: map<MarkerKey, Entry>, e: Entry) {
    (e.path, e.meta.kind) in markers && markers[(e.path, e.meta.kind)] == e
  }

  // ---------------------------------------------------------------- one tar member

  datatype Body = Body(size: Int64, sha: Str)

  /**
   * A tar member: whether it is only PAX metadata, its sanitized name and the kind of its type flag if it has one,
   * its header, its link name raw and sanitized, and its body if that can be read.
   */
  datatype Member = Member(pax: bool, path: Option<Str>, kind: Option<Kind>, header: Meta, link: Str,
                           target: Option<Str>, body: Option<Body>)

  predicate Malformed(name: Str) {
    name == [] || name == [DOT] || name == [DOT, DOT]
  }

  /**
   * The mode is cut to its permission bits. Only regular files have a size and a content hash, only devices have
   * numbers, a symlink keeps its target as it is, and a hardlink its sanitized target, or none if that is unsafe.
   */
  function ObjectOf(path: Str, kind: Kind, m: Member): Entry {
    var (size, sha) := if kind == File && m.body.Some? then (m.body.value.size, m.body.value.sha) else (0, []);
    var link := if kind == Symlink then m.link else if kind == Hardlink && m.target.Some? then m.target.value else [];
    var (major, minor) := if kind == Device then (m.header.devmajor, m.header.devminor) else (0, 0);
    Entry(path, m.header.(kind := kind, mode := PermBits(m.header.mode), size := size, sha := sha, link := link,
          devmajor := major, devminor := minor))
  }

  /** What a member adds to the index, if anything; a file without a readable body adds nothing in the end. */
  function Classify(m: Member): Option<Entry> {
    if m.pax || m.path.None? then None else
      var base, dir := NamePart(m.path.value), DirOf(m.path.value);
      if base == OPAQUE_NAME then Some(MarkerOf(dir, Opaque))
      else if HasPrefix(base, META_PREFIX) then None
      else if HasPrefix(base, WHITEOUT_PREFIX) then
        var name := base[|WHITEOUT_PREFIX|..];
        if Malformed(name) then None else Some(MarkerOf(JoinName(dir, name), Whiteout))
      else if m.kind.None? || m.kind.value.Marker() then None
      else Some(ObjectOf(m.path.value, m.kind.value, m))
  }

  function Recording(m: Member): seq<Entry> {
    if Classify(m).Some? then [Classify(m).value] else []
  }

  /** A regular file whose body cannot be read. */
  predicate BodyFails(m: Member) {
    Classify(m).Some? && Classify(m).value.meta.kind == File && m.body.None?
  }

  datatype Outcome = Recorded | TooManyEntries | Unreadable

  ghost function AddOutcome(accepted: seq<Entry>, cap: int, m: Member): Outcome {
    if Classify(m).None? then Recorded
    else if !HasRoom(accepted, cap, Classify(m).value) then TooManyEntries
    else if BodyFails(m) then Unreadable
    else Recorded
  }

  // ---------------------------------------------------------------- one layer

  const DEFAULT_MAX_ENTRIES := 2_000_000

  /** What all members add, in the order of the tar. */
  ghost function Records(ms: seq<Member>): seq<Entry> {
    if ms == [] then [] else Records(ms[..|ms| - 1]) + Recording(ms[|ms| - 1])
  }

  lemma {:induction false} SlotsGrow(ms: seq<Member>, k: nat)
    requires k <= |ms|
    ensures SlotsOf(Records(ms[..k])) <= SlotsOf(Records(ms))
    decreases |ms|
  {
    hide Classify;
    if k == |ms| {
      assert ms[..k] == ms;
    } else {
      SlotsGrow(ms[..|ms| - 1], k);
      assert ms[..|ms| - 1][..k] == ms[..k];
    }
  }

  lemma MoreSlots(a: set<Slot>, b: set<Slot>)
    requires a <= b
    ensures |a| <= |b|
  {
    assert |b - a| == |b| - |a|;
  }

  lemma RecordsWith(ms: seq<Member>, k: nat)
    requires k < |ms|
    ensures Records(ms[..k + 1]) == Records(ms[..k]) + Recording(ms[k])
  {
    assert ms[..k + 1][..k] == ms[..k];
  }

  /**
   * A layer is indexed exactly when every file body can be read and its members fill no more slots than the cap, zero
   * standing for the default: the order of the members and their repetitions do not matter. The index then is what
   * stands at the end.
   */
  method IndexLayer(ms: seq<Member>, maxEntries: int) returns (r: Outcome, es: seq<Entry>, bytes: int)
    ensures var cap := if maxEntries == 0 then 2_000_000 else maxEntries;
            && (r == Recorded <==> (forall m | m in ms :: !BodyFails(m)) && (cap > 0 ==> |SlotsOf(Records(ms))| <= cap))
            && (r == TooManyEntries ==> cap > 0 && |SlotsOf(Records(ms))| > cap)
            && (r == Unreadable ==> exists m :: m in ms && BodyFails(m))
    ensures r == Recorded ==>
      IndexOrder(es) && forall e :: e in es <==> Stands(Records(ms), e)
    ensures r == Recorded ==>
      var standing := LastObjects(Records(ms));
      bytes == SumMap(map p | p in standing :: if standing[p].meta.kind == File then standing[p].meta.size else 0)
  {
    hide LastObjects, LastMarkers, FileSizes, SumMap, SlotsOf, Classify, Stands, IndexOrder, Records;
    es, bytes := [], 0;
    var cap := if maxEntries == 0 then DEFAULT_MAX_ENTRIES else maxEntries;
    var idx := new IndexState(cap);
    NoRecords(ms);
    for i := 0 to |ms|
      invariant idx.Valid() && idx.maxEntries == cap && idx.accepted == Records(ms[..i])
      invariant forall m | m in ms[..i] :: !BodyFails(m)
    {
      RecordsWith(ms, i);
      r := idx.Add(ms[i]);
      if r != Recorded {
        if r == TooManyEntries {
          OverCap(ms, i, cap);
        }
        return;
      }
      assert ms[..i + 1] == ms[..i] + [ms[i]];
    }
    assert ms[..|ms|] == ms;
    es, bytes := idx.Finish();
    r := Recorded;
  }

  lemma NoRecords(ms: seq<Member>)
    ensures Records(ms[..0]) == []
  {
  }

  lemma OverCap(ms: seq<Member>, i: nat, cap: int)
    requires i < |ms| && AddOutcome(Records(ms[..i]), cap, ms[i]) == TooManyEntries
    ensures cap > 0 && |SlotsOf(Records(ms))| > cap
  {
    hide SlotsOf, Classify, BodyFails, Records;
    RecordsWith(ms, i);
    SlotsWith(Records(ms[..i]), Classify(ms[i]).value);
    SlotsGrow(ms, i + 1);
    MoreSlots(SlotsOf(Records(ms[..i + 1])), SlotsOf(Records(ms)));
  }

  // ---------------------------------------------------------------- last in tar wins

  /** e was accepted and nothing accepted later took its slot. */
  ghost predicate Stands(accepted: seq<Entry>, e: Entry) {
    accepted != [] &&
      var n := |accepted| - 1;
      accepted[n] == e || (SlotOf(accepted[n]) != SlotOf(e) && Stands(accepted[..n], e))
  }

  lemma {:induction false} StandsIs(accepted: seq<Entry>)
    ensures forall e :: Stands(accepted, e) <==>
      HasObject(LastObjects(accepted), e) || HasMarker(LastMarkers(accepted), e)
    decreases |accepted|
  {
    if accepted != [] {
      StandsIs(accepted[..|accepted| - 1]);
      LastKeyed(accepted[..|accepted| - 1]);
    }
  }

  /** Two entries for one path replace one another if both are objects or both are markers of one kind. */
  ghost predicate Replaces(e: Entry, f: Entry) {
    && e.path == f.path
    && ((e.meta.kind == Whiteout || e.meta.kind == Opaque || f.meta.kind == Whiteout || f.meta.kind == Opaque)
        ==> e.meta.kind == f.meta.kind)
  }

  ghost predicate LastAt(accepted: seq<Entry>, e: Entry, i: int) {
    0 <= i < |accepted| && accepted[i] == e && forall j | i < j < |accepted| :: !Replaces(accepted[j], e)
  }

  /** The index keeps exactly the entries that no later one replaces. */
  lemma {:induction false} StandsIff(accepted: seq<Entry>, e: Entry)
    ensures Stands(accepted, e) <==> exists i :: LastAt(accepted, e, i)
    decreases |accepted|
  {
    if accepted != [] {
      var n := |accepted| - 1;
      StandsIff(accepted[..n], e);
      if accepted[n] == e { assert LastAt(accepted, e, n); }
      if i :| LastAt(accepted[..n], e, i) && !Replaces(accepted[n], e) {
        assert LastAt(accepted, e, i);
      }
      if i :| LastAt(accepted, e, i) && i < n {
        assert LastAt(accepted[..n], e, i);
      }
    }
  }

  // ---------------------------------------------------------------- where entries aim

  lemma DirOfJoin(q: Path)
    requires Clean(q) && q != []
    ensures DirOf(Join(q)) == Rooted(Parent(q))
    ensures forall name :: JoinName(DirOf(Join(q)), name) == Join(Parent(q) + [name])
  {
    hide Join;
    SplitOfJoin(q);
    var j := Join(Parent(q));
    assert (j + [SLASH])[..|j|] == j;
    JoinOfNone(Parent(q));
    forall name ensures JoinName(DirOf(Join(q)), name) == Join(Parent(q) + [name]) {
      JoinLast(Parent(q) + [name]);
      assert Parent(Parent(q) + [name]) == Parent(q);
      assert j + ([SLASH] + name) == j + [SLASH] + name;
    }
  }

  lemma JoinOfNone(p: Path)
    ensures Join(p) == [] <==> p == []
    ensures p != [] && Clean(p) ==> Join(p) != [SLASH]
  {
  }

  lemma CleanChild(q: Path, name: Str)
    requires Clean(q) && name != [] && SLASH !in name
    ensures Clean(q + [name])
  {
  }

  /**
   * Where the entry of a member named /d/base aims: an object at the member's own node, an opaque marker
   * at its directory, and a whiteout at a sibling - never at the directory or anything above it.
   */
  lemma AimOf(m: Member, q: Path)
    requires m.path == Some(Join(q)) && Clean(q) && q != []
    requires Classify(m).Some?
    ensures var e := Classify(m).value;
            match e.meta.kind
            case Opaque => Segments(e.path) == Parent(q)
            case Whiteout => |Last(q)| > 4 && Segments(e.path) != []
                && WhiteoutPath(e.path) == Parent(q) + [Last(q)[4..]]
            case _ => IsObject(e) && ObjectPath(e.path) == q
  {
    hide Join, Segments, Rooted, DirPart, NamePart, JoinName, DirOf, ObjectPath, WhiteoutPath;
    var e := Classify(m).value;
    SplitOfJoin(q);
    DirOfJoin(q);
    if e.meta.kind == Opaque {
      SegmentsOfRooted(Parent(q));
    } else if e.meta.kind == Whiteout {
      var name := Last(q)[4..];
      assert forall b | b in name :: b in Last(q);
      CleanChild(Parent(q), name);
      CleanNames(Parent(q) + [name]);
    } else {
      CleanNames(q);
    }
  }

  /** The entry is a marker of the kind, and carries nothing else. */
  ghost predicate MarkerAt(c: Option<Entry>, kind: Kind, p: Path) {
    && c.Some? && Segments(c.value.path) == p
    && c.value.meta == Meta(kind, 0, 0, 0, 0, [], [], 0, 0, map[], 0, [], [])
  }

  /** The entry is an object of the member's type under the member's name, with what the tar says of it. */
  ghost predicate ObjectFrom(c: Option<Entry>, kind: Kind, m: Member, q: Path) {
    && c.Some? && c.value.path == Join(q) && IsObject(c.value) && ObjectPath(c.value.path) == q
    && var e, h := c.value.meta, m.header;
    && e.kind == kind && e.mode == h.mode % 4096 && e.uid == h.uid && e.gid == h.gid && e.uname == h.uname
    && e.gname == h.gname && e.xattrs == h.xattrs && e.mtime == h.mtime
    && (kind == File && m.body.Some? ==> e.size == m.body.value.size && e.sha == m.body.value.sha)
    && (kind != File ==> e.size == 0 && e.sha == [])
    && e.link == (if kind == Symlink then m.link else if kind == Hardlink && m.target.Some? then m.target.value else [])
    && (if kind == Device then e.devmajor == h.devmajor && e.devminor == h.devminor else e.devmajor == e.devminor == 0)
  }

  const DOT_WH: Str := [46, 119, 104, 46]
  const DOT_WH_TWICE: Str := [46, 119, 104, 46, 46, 119, 104, 46]
  const DOT_WH_OPQ: Str := [46, 119, 104, 46, 46, 119, 104, 46, 46, 111, 112, 113]

  /**
   * What becomes of a member /d/base: PAX metadata, the root and unsafe names are passed over; .wh..wh..opq marks d
   * opaque; any other .wh..wh. name is passed over; .wh.name whites out /d/name, unless name is empty or dots; and
   * anything else is an object at /d/base if its type is supported.
   */
  lemma ClassifyIs(m: Member, q: Path)
    requires Clean(q) && q != [] && (m.path.Some? ==> m.path.value == Join(q))
    ensures var c, base := Classify(m), Last(q);
            if m.pax || m.path.None? then c == None
            else if base == DOT_WH_OPQ then MarkerAt(c, Opaque, Parent(q))
            else if DOT_WH_TWICE <= base then c == None
            else if DOT_WH <= base then
              if base[4..] in {[], [46], [46, 46]} then c == None
              else MarkerAt(c, Whiteout, Parent(q) + [base[4..]])
            else if m.kind.None? || m.kind == Some(Whiteout) || m.kind == Some(Opaque) then c == None
            else ObjectFrom(c, m.kind.value, m, q)
  {
    hide Join, Segments, Rooted, DirPart, NamePart, JoinName, DirOf, ObjectPath, WhiteoutPath;
    SplitOfJoin(q);
    DirOfJoin(q);
    CleanNames(q);
    SegmentsOfRooted(Parent(q));
    if DOT_WH < Last(q) {
      var name := Last(q)[4..];
      assert forall b | b in name :: b in Last(q);
      CleanChild(Parent(q), name);
      CleanNames(Parent(q) + [name]);
    }
  }

  /** The standing objects of clean names never fight over a node. */
  lemma StandingObjects(accepted: seq<Entry>, e: Entry, f: Entry, p: Path, q: Path)
    requires Stands(accepted, e) && Stands(accepted, f) && !e.meta.kind.Marker() && !f.meta.kind.Marker()
    requires Clean(p) && Clean(q) && p != [] && q != [] && e.path == Join(p) && f.path == Join(q)
    ensures ObjectPath(e.path) == ObjectPath(f.path) ==> e == f
  {
    hide Join, Stands, ObjectPath, LastObjects, LastMarkers;
    CleanNames(p);
    CleanNames(q);
    StandsIs(accepted);
    LastKeyed(accepted);
  }
}
