/** The in-memory tables of the cache store and the byte budget over them: pinning, eviction in
    least-recently-used order, and when a reservation is refused. */
module CacheTables {
  import opened Sums

  /** A sha256 digest. Its 64 lower-case hex characters compare exactly as the number they spell. */
  type Digest = nat

  /** The part of an image record the store acts on, with the size of its record file. */
  datatype Image = Image(layers: seq<Digest>, pinned: bool, lastUsed: int, bytes: nat)

  /** held is every layer declared by a transaction that is still in flight. */
  datatype Tables = Tables(layers: map<Digest, nat>, images: map<Digest, Image>, accounted: int, held: set<Digest>)

  /** Which file removals fail: image records that cannot be removed, layer directories that cannot be renamed away. */
  datatype Faults = Faults(records: set<Digest>, dirs: set<Digest>)

  /** d is declared by a transaction in flight. */
  function WithHeld(tb: Tables, d: Digest): Tables {
    tb.(held := tb.held + {d})
  }

  const NO_FAULTS := Faults({}, {})

  // ---------------------------------------------------------------- sizes

  ghost function RecordBytes(images: map<Digest, Image>): map<Digest, int> {
    map i | i in images :: images[i].bytes
  }

  ghost function Retained(tb: Tables): int {
    SumMap(tb.layers) + SumMap(RecordBytes(tb.images))
  }

  /** What is accounted without being installed: reservations still outstanding. */
  ghost function Slack(tb: Tables): int {
    tb.accounted - Retained(tb)
  }

  ghost function LayersOf(images: map<Digest, Image>): set<Digest> {
    set i, d | i in images && d in images[i].layers :: d
  }

  ghost function Pinned(images: map<Digest, Image>): map<Digest, Image> {
    map i | i in images && images[i].pinned :: images[i]
  }

  ghost function Unpinned(images: map<Digest, Image>): map<Digest, Image> {
    map i | i in images && !images[i].pinned :: images[i]
  }

  /** The bytes eviction can never reclaim: pinned records and the layers they name. */
  ghost function PinnedBytes(tb: Tables): int {
    SumMap(RecordBytes(Pinned(tb.images))) + SumMap(Only(tb.layers, LayersOf(Pinned(tb.images))))
  }

  /** Every layer an image names, and every layer a transaction declared, is in the table. */
  ghost predicate Intact(tb: Tables) {
    LayersOf(tb.images) <= tb.layers.Keys && tb.held <= tb.layers.Keys
  }

  // ---------------------------------------------------------------- eviction

  /** The eviction order: least recently used first, ties broken by id. */
  predicate Before(i: Digest, a: Image, j: Digest, b: Image) {
    a.lastUsed < b.lastUsed || (a.lastUsed == b.lastUsed && i < j)
  }

  ghost predicate IsVictim(images: map<Digest, Image>, v: Digest) {
    && v in images && !images[v].pinned
    && forall j | j in images && !images[j].pinned && j != v :: Before(v, images[v], j, images[j])
  }

  /** No unpinned image was used before this one, and none of those last used at the same time has a smaller id. */
  ghost predicate Oldest(images: map<Digest, Image>, v: Digest) {
    && v in images && !images[v].pinned
    && (forall j | j in images && !images[j].pinned :: images[v].lastUsed <= images[j].lastUsed)
    && (forall j | j in images && !images[j].pinned && images[j].lastUsed == images[v].lastUsed :: v <= j)
  }

  /** The first in the order is the image used longest ago. */
  lemma VictimIsOldest(images: map<Digest, Image>, v: Digest)
    ensures IsVictim(images, v) <==> Oldest(images, v)
  {
  }

  ghost predicate Referenced(tb: Tables, d: Digest) {
    d in tb.held || d in LayersOf(tb.images)
  }

  ghost function DropLayer(tb: Tables, d: Digest, stuck: set<Digest>): Tables {
    if Referenced(tb, d) || d !in tb.layers || d in stuck then tb else
      tb.(layers := tb.layers - {d}, accounted := tb.accounted - tb.layers[d])
  }

  ghost function DropLayers(tb: Tables, ds: seq<Digest>, stuck: set<Digest>): (r: Tables)
    ensures r.images == tb.images && r.held == tb.held
    decreases |ds|
  {
    if ds == [] then tb else DropLayers(DropLayer(tb, ds[0], stuck), ds[1..], stuck)
  }

  ghost function RemoveImage(tb: Tables, v: Digest): Tables
    requires v in tb.images
  {
    tb.(images := tb.images - {v}, accounted := tb.accounted - tb.images[v].bytes)
  }

  ghost function Evict(tb: Tables, v: Digest, stuck: set<Digest>): (r: Tables)
    requires v in tb.images
    ensures r.images == tb.images - {v} && r.held == tb.held
  {
    DropLayers(RemoveImage(tb, v), tb.images[v].layers, stuck)
  }

  /** True when the evictor can take one more image. */
  ghost predicate CanEvict(tb: Tables, f: Faults) {
    exists v :: IsVictim(tb.images, v) && v !in f.records
  }

  lemma VictimUnique(images: map<Digest, Image>, v: Digest, w: Digest)
    requires IsVictim(images, v) && IsVictim(images, w)
    ensures v == w
  {
  }

  /** Evicts until n more bytes fit under max or nothing more can be evicted. */
  ghost function MakeRoom(tb: Tables, n: int, max: int, f: Faults): Tables
    decreases |tb.images|
  {
    if tb.accounted + n <= max || !CanEvict(tb, f) then tb else
      var v :| IsVictim(tb.images, v) && v !in f.records;
      MakeRoom(Evict(tb, v, f.dirs), n, max, f)
  }

  /** A reservation of n bytes by a transaction that already holds own: the verdict and the tables after it. */
  ghost function Reserve(tb: Tables, own: int, n: int, max: int, f: Faults): (bool, Tables) {
    if n <= 0 then (true, tb)
    else if own + n > max - PinnedBytes(tb) then (false, tb)
    else
      var r := MakeRoom(tb, n, max, f);
      if r.accounted + n > max then (false, r) else (true, r.(accounted := r.accounted + n))
  }

  /** The most a transaction holding own bytes could be allowed to reserve. */
  ghost function Ceiling(tb: Tables, own: int, max: int): int {
    var c := max - PinnedBytes(tb) - own;
    if c < 0 then 0 else c
  }

  // ---------------------------------------------------------------- one eviction

  lemma DropLayerKeeps(tb: Tables, d: Digest, stuck: set<Digest>)
    ensures Slack(DropLayer(tb, d, stuck)) == Slack(tb)
    ensures DropLayer(tb, d, stuck).accounted <= tb.accounted
    ensures Intact(tb) ==> Intact(DropLayer(tb, d, stuck))
  {
    if d in tb.layers {
      SumRemove(tb.layers, d);
    }
  }

  lemma {:induction false} DropLayersKeeps(tb: Tables, ds: seq<Digest>, stuck: set<Digest>)
    ensures Slack(DropLayers(tb, ds, stuck)) == Slack(tb)
    ensures DropLayers(tb, ds, stuck).accounted <= tb.accounted
    ensures Intact(tb) ==> Intact(DropLayers(tb, ds, stuck))
    decreases |ds|
  {
    if ds != [] {
      DropLayerKeeps(tb, ds[0], stuck);
      DropLayersKeeps(DropLayer(tb, ds[0], stuck), ds[1..], stuck);
    }
  }

  /** Exactly the layers of ds that nothing refers to are dropped, and the others keep their size. */
  lemma {:induction false} DropLayersExact(tb: Tables, ds: seq<Digest>, stuck: set<Digest>)
    ensures DropLayers(tb, ds, stuck).layers == tb.layers - (set d | d in ds && !Referenced(tb, d) && d !in stuck)
    decreases |ds|
  {
    if ds != [] {
      var t := DropLayer(tb, ds[0], stuck);
      DropLayersExact(t, ds[1..], stuck);
      assert forall d :: Referenced(t, d) == Referenced(tb, d);
    }
  }

  lemma RemoveImageSlack(tb: Tables, v: Digest)
    requires v in tb.images
    ensures Slack(RemoveImage(tb, v)) == Slack(tb)
  {
    SumRemove(RecordBytes(tb.images), v);
    assert RecordBytes(tb.images - {v}) == RecordBytes(tb.images) - {v};
  }

  /** One eviction keeps the tables intact and the outstanding reservations as they were, and never grows the cache. */
  lemma EvictKeeps(tb: Tables, v: Digest, stuck: set<Digest>)
    requires v in tb.images
    ensures Slack(Evict(tb, v, stuck)) == Slack(tb)
    ensures Evict(tb, v, stuck).accounted <= tb.accounted
    ensures Intact(tb) ==> Intact(Evict(tb, v, stuck))
  {
    RemoveImageSlack(tb, v);
    DropLayersKeeps(RemoveImage(tb, v), tb.images[v].layers, stuck);
  }

  /** One eviction never touches what pinning protects. */
  lemma EvictKeepsPinned(tb: Tables, v: Digest, stuck: set<Digest>)
    requires IsVictim(tb.images, v)
    ensures Pinned(Evict(tb, v, stuck).images) == Pinned(tb.images)
    ensures PinnedBytes(Evict(tb, v, stuck)) == PinnedBytes(tb)
  {
    var r := Evict(tb, v, stuck);
    assert Pinned(r.images) == Pinned(tb.images);
    DropLayersExact(RemoveImage(tb, v), tb.images[v].layers, stuck);
    var p := LayersOf(Pinned(tb.images));
    assert p <= LayersOf(r.images);
    assert Only(r.layers, p) == Only(tb.layers, p);
  }

  // ---------------------------------------------------------------- the shortest prefix

  /** k evictions, each of the image the order puts first. */
  ghost predicate EvictsTo(tb: Tables, k: nat, f: Faults, r: Tables)
    decreases k
  {
    if k == 0 then r == tb else
      exists v :: IsVictim(tb.images, v) && v !in f.records && EvictsTo(Evict(tb, v, f.dirs), k - 1, f, r)
  }

  ghost function EvictionsMade(tb: Tables, n: int, max: int, f: Faults): nat
    decreases |tb.images|
  {
    if tb.accounted + n <= max || !CanEvict(tb, f) then 0 else
      var v :| IsVictim(tb.images, v) && v !in f.records;
      1 + EvictionsMade(Evict(tb, v, f.dirs), n, max, f)
  }

  /** MakeRoom takes the victim and goes on. */
  lemma RoomAfter(tb: Tables, n: int, max: int, f: Faults) returns (v: Digest)
    requires tb.accounted + n > max && CanEvict(tb, f)
    ensures IsVictim(tb.images, v) && v in tb.images && v !in f.records
    ensures |Evict(tb, v, f.dirs).images| < |tb.images|
    ensures MakeRoom(tb, n, max, f) == MakeRoom(Evict(tb, v, f.dirs), n, max, f)
    ensures EvictionsMade(tb, n, max, f) == 1 + EvictionsMade(Evict(tb, v, f.dirs), n, max, f)
  {
    v :| IsVictim(tb.images, v) && v !in f.records
      && MakeRoom(tb, n, max, f) == MakeRoom(Evict(tb, v, f.dirs), n, max, f)
      && EvictionsMade(tb, n, max, f) == 1 + EvictionsMade(Evict(tb, v, f.dirs), n, max, f);
  }

  lemma FirstEviction(tb: Tables, k: nat, f: Faults, r: Tables, v: Digest)
    requires IsVictim(tb.images, v) && v !in f.records
    ensures EvictsTo(tb, k + 1, f, r) <==> EvictsTo(Evict(tb, v, f.dirs), k, f, r)
  {
    hide Evict;
    if EvictsTo(tb, k + 1, f, r) {
      var w :| IsVictim(tb.images, w) && w !in f.records && EvictsTo(Evict(tb, w, f.dirs), k, f, r);
      VictimUnique(tb.images, v, w);
    }
  }

  /** MakeRoom stops at the first point where n fits, and evicts no more than that: with any smaller
      number of evictions n would not have fitted. It gives up only when nothing can be evicted. */
  lemma {:induction false} MakeRoomShortest(tb: Tables, n: int, max: int, f: Faults)
    ensures var k := EvictionsMade(tb, n, max, f);
            && EvictsTo(tb, k, f, MakeRoom(tb, n, max, f))
            && (forall j: nat, r | j < k && EvictsTo(tb, j, f, r) :: r.accounted + n > max)
    ensures var r := MakeRoom(tb, n, max, f); r.accounted + n <= max || !CanEvict(r, f)
    decreases |tb.images|
  {
    hide Evict, IsVictim, CanEvict;
    if tb.accounted + n > max && CanEvict(tb, f) {
      var v := RoomAfter(tb, n, max, f);
      var tb2 := Evict(tb, v, f.dirs);
      MakeRoomShortest(tb2, n, max, f);
      var k := EvictionsMade(tb2, n, max, f);
      FirstEviction(tb, k, f, MakeRoom(tb, n, max, f), v);
      forall j: nat, r | j < k + 1 && EvictsTo(tb, j, f, r)
        ensures r.accounted + n > max
      {
        if j > 0 { FirstEviction(tb, j - 1, f, r, v); }
      }
    }
  }

  lemma OneOlder(images: map<Digest, Image>, v: Digest, mid: map<Digest, Image>, end: map<Digest, Image>)
    requires IsVictim(images, v) && mid == images - {v}
    requires forall i | i in end :: i in mid && end[i] == mid[i]
    requires forall e | e in mid && e !in end :: !mid[e].pinned
    requires forall e, i | e in mid && e !in end && i in end && !end[i].pinned :: Before(e, mid[e], i, mid[i])
    ensures |mid| == |images| - 1
    ensures forall i | i in end :: i in images && end[i] == images[i]
    ensures forall e | e in images && e !in end :: !images[e].pinned
    ensures forall e, i | e in images && e !in end && i in end && !end[i].pinned :: Before(e, images[e], i, images[i])
  {
  }

  lemma {:induction false} EvictsInOrder(tb: Tables, k: nat, f: Faults, r: Tables)
    requires EvictsTo(tb, k, f, r)
    ensures |r.images| + k == |tb.images|
    ensures forall i | i in r.images :: i in tb.images && r.images[i] == tb.images[i]
    ensures forall e | e in tb.images && e !in r.images :: !tb.images[e].pinned
    ensures forall e, i | e in tb.images && e !in r.images && i in r.images && !r.images[i].pinned
              :: Before(e, tb.images[e], i, tb.images[i])
    decreases k
  {
    if k > 0 {
      var v :| IsVictim(tb.images, v) && v !in f.records && EvictsTo(Evict(tb, v, f.dirs), k - 1, f, r);
      var t := Evict(tb, v, f.dirs);
      EvictsInOrder(t, k - 1, f, r);
      OneOlder(tb.images, v, t.images, r.images);
    }
  }

  /** k evictions take k unpinned images, each of them last used before every unpinned survivor, or at the same time and
      with a smaller id. */
  lemma EvictsOldest(tb: Tables, k: nat, f: Faults, r: Tables)
    requires EvictsTo(tb, k, f, r)
    ensures |r.images| + k == |tb.images|
    ensures forall i | i in r.images :: i in tb.images && r.images[i] == tb.images[i]
    ensures forall e | e in tb.images && e !in r.images :: !tb.images[e].pinned
    ensures forall e, i | e in tb.images && e !in r.images && i in r.images && !r.images[i].pinned ::
      tb.images[e].lastUsed < tb.images[i].lastUsed || (tb.images[e].lastUsed == tb.images[i].lastUsed && e < i)
  {
    hide EvictsTo;
    EvictsInOrder(tb, k, f, r);
  }

  /** What any number of evictions keeps. */
  lemma {:induction false} EvictsKeep(tb: Tables, k: nat, f: Faults, r: Tables)
    requires EvictsTo(tb, k, f, r)
    ensures Slack(r) == Slack(tb) && r.held == tb.held && r.accounted <= tb.accounted
    ensures PinnedBytes(r) == PinnedBytes(tb) && Pinned(r.images) == Pinned(tb.images)
    ensures Intact(tb) ==> Intact(r)
    ensures forall d | d in tb.layers && (d in tb.held || d in LayersOf(r.images)) :: d in r.layers
    ensures forall d | d in r.layers :: d in tb.layers && r.layers[d] == tb.layers[d]
    decreases k
  {
    hide Evict, Slack, PinnedBytes, Pinned, LayersOf;
    if k > 0 {
      var v :| IsVictim(tb.images, v) && v !in f.records && EvictsTo(Evict(tb, v, f.dirs), k - 1, f, r);
      var t := Evict(tb, v, f.dirs);
      EvictKeeps(tb, v, f.dirs);
      EvictKeepsPinned(tb, v, f.dirs);
      EvictLayers(tb, v, f.dirs);
      EvictsKeep(t, k - 1, f, r);
      EvictsFewer(t, k - 1, f, r);
    }
  }

  lemma EvictsFewer(tb: Tables, k: nat, f: Faults, r: Tables)
    requires EvictsTo(tb, k, f, r)
    ensures LayersOf(r.images) <= LayersOf(tb.images)
  {
    hide EvictsTo, Before;
    EvictsOldest(tb, k, f, r);
    forall d | d in LayersOf(r.images) ensures d in LayersOf(tb.images) {
      var i :| i in r.images && d in r.images[i].layers;
      assert i in tb.images;
    }
  }

  /** An eviction drops only layers that nothing refers to any more. */
  lemma EvictLayers(tb: Tables, v: Digest, stuck: set<Digest>)
    requires v in tb.images
    ensures var t := Evict(tb, v, stuck);
            && (forall d | d in tb.layers && (d in tb.held || d in LayersOf(t.images)) :: d in t.layers)
            && (forall d | d in t.layers :: d in tb.layers && t.layers[d] == tb.layers[d])
  {
    DropLayersExact(RemoveImage(tb, v), tb.images[v].layers, stuck);
  }

  /** The contract of a reservation. Refused by its first test it changes nothing; granted it charges n,
      leaves the total within the cap, and has evicted the shortest oldest-first run of unpinned images. */
  lemma ReserveEvictsShortestPrefix(tb: Tables, own: int, n: int, max: int, f: Faults)
    requires n > 0
    ensures var (ok, r) := Reserve(tb, own, n, max, f);
            && (own + n > max - PinnedBytes(tb) ==> !ok && r == tb)
            && (own + n <= max - PinnedBytes(tb) ==>
                  exists k: nat, e ::
                    && EvictsTo(tb, k, f, e)
                    && (forall j: nat, x | j < k && EvictsTo(tb, j, f, x) :: x.accounted + n > max)
                    && (ok <==> e.accounted + n <= max)
                    && (!ok ==> !CanEvict(e, f))
                    && r == (if ok then e.(accounted := e.accounted + n) else e))
            && (ok ==> r.accounted <= max)
  {
    if own + n <= max - PinnedBytes(tb) {
      MakeRoomShortest(tb, n, max, f);
      assert EvictsTo(tb, EvictionsMade(tb, n, max, f), f, MakeRoom(tb, n, max, f));
    }
  }

  // ---------------------------------------------------------------- exact refusal

  /** The layers no sequence of evictions can drop: declared, named by a pinned image, or named by no unpinned one. */
  ghost function Stranded(tb: Tables): set<Digest> {
    set d | d in tb.layers && (d in tb.held || d in LayersOf(Pinned(tb.images)) || d !in LayersOf(Unpinned(tb.images)))
  }

  /** The bytes still accounted once every unpinned image has been evicted. */
  ghost function Floor(tb: Tables): int {
    Slack(tb) + SumMap(RecordBytes(Pinned(tb.images))) + SumMap(Only(tb.layers, Stranded(tb)))
  }

  lemma EvictKeepsFloor(tb: Tables, v: Digest)
    requires IsVictim(tb.images, v)
    ensures Floor(Evict(tb, v, {})) == Floor(tb)
  {
    var r := Evict(tb, v, {});
    EvictKeeps(tb, v, {});
    EvictKeepsPinned(tb, v, {});
    var t := RemoveImage(tb, v);
    DropLayersExact(t, tb.images[v].layers, {});
    forall d ensures d in Stranded(r) <==> d in Stranded(tb) {
      StrandedStep(tb, v, d);
    }
    assert Stranded(r) == Stranded(tb);
    assert Only(r.layers, Stranded(tb)) == Only(tb.layers, Stranded(tb));
  }

  lemma StrandedStep(tb: Tables, v: Digest, d: Digest)
    requires IsVictim(tb.images, v)
    ensures d in Stranded(Evict(tb, v, {})) <==> d in Stranded(tb)
  {
    var r := Evict(tb, v, {});
    var t := RemoveImage(tb, v);
    DropLayersExact(t, tb.images[v].layers, {});
    EvictKeepsPinned(tb, v, {});
    var named := d in tb.images[v].layers;
    assert d in r.layers <==> d in tb.layers && !(named && !Referenced(t, d));
    assert d in LayersOf(Unpinned(tb.images)) <==> named || d in LayersOf(Unpinned(t.images)) by {
      if named { assert v in Unpinned(tb.images); }
      if d in LayersOf(Unpinned(tb.images)) && !named {
        var i :| i in Unpinned(tb.images) && d in Unpinned(tb.images)[i].layers;
        assert i in Unpinned(t.images);
      }
      if d in LayersOf(Unpinned(t.images)) {
        var i :| i in Unpinned(t.images) && d in Unpinned(t.images)[i].layers;
        assert i in Unpinned(tb.images);
      }
    }
    assert d in LayersOf(t.images) <==> d in LayersOf(Pinned(t.images)) || d in LayersOf(Unpinned(t.images)) by {
      if d in LayersOf(t.images) {
        var i :| i in t.images && d in t.images[i].layers;
        assert i in Pinned(t.images) || i in Unpinned(t.images);
      }
    }
    assert Pinned(t.images) == Pinned(tb.images);
  }

  lemma FloorIsLow(tb: Tables)
    ensures Floor(tb) <= tb.accounted
    ensures Unpinned(tb.images) == map[] ==> Floor(tb) == tb.accounted
  {
    SumMonotone(RecordBytes(Pinned(tb.images)), RecordBytes(tb.images));
    SumMonotone(Only(tb.layers, Stranded(tb)), tb.layers);
    if Unpinned(tb.images) == map[] {
      assert forall i | i in tb.images :: !tb.images[i].pinned ==> i in Unpinned(tb.images);
      assert Pinned(tb.images) == tb.images;
      assert Only(tb.layers, Stranded(tb)) == tb.layers;
    }
  }

  /** Before is a strict order, so a nonempty table of unpinned images has a first one. */
  lemma {:induction false} VictimExists(images: map<Digest, Image>)
    requires Unpinned(images) != map[]
    ensures exists v :: IsVictim(images, v)
    decreases |images|
  {
    var i :| i in Unpinned(images);
    var rest := images - {i};
    assert rest.Keys == images.Keys - {i};
    assert |rest.Keys| < |images.Keys|;
    if Unpinned(rest) == map[] {
      assert forall j | j in images && !images[j].pinned && j != i :: j in Unpinned(rest);
      assert IsVictim(images, i);
    } else {
      VictimExists(rest);
      var w :| IsVictim(rest, w);
      var v := if Before(i, images[i], w, images[w]) then i else w;
      forall j | j in images && !images[j].pinned && j != v ensures Before(v, images[v], j, images[j]) {
        if j != i && j != w { assert Before(w, rest[w], j, rest[j]); }
      }
      assert IsVictim(images, v);
    }
  }

  lemma {:induction false} MakeRoomExact(tb: Tables, n: int, max: int)
    ensures MakeRoom(tb, n, max, NO_FAULTS).accounted + n <= max <==> Floor(tb) + n <= max
    decreases |tb.images|
  {
    FloorIsLow(tb);
    if tb.accounted + n > max {
      if CanEvict(tb, NO_FAULTS) {
        var v :| IsVictim(tb.images, v) && v !in NO_FAULTS.records
          && MakeRoom(tb, n, max, NO_FAULTS) == MakeRoom(Evict(tb, v, NO_FAULTS.dirs), n, max, NO_FAULTS);
        MakeRoomExact(Evict(tb, v, {}), n, max);
        EvictKeepsFloor(tb, v);
      } else if Unpinned(tb.images) != map[] {
        VictimExists(tb.images);
      }
    }
  }

  /** Exactly when a reservation is granted, for every state of the tables, when no removal fails. */
  lemma RefusalExact(tb: Tables, own: int, n: int, max: int)
    requires n > 0
    ensures Reserve(tb, own, n, max, NO_FAULTS).0 <==> own + n <= max - PinnedBytes(tb) && Floor(tb) + n <= max
  {
    MakeRoomExact(tb, n, max);
  }

  /** A single transaction's view: nothing else is in flight, each layer is named by an image or was written by
      this transaction, and each layer it declared was written by it or is named by a pinned image. */
  ghost predicate Alone(tb: Tables, written: set<Digest>, own: int) {
    && Intact(tb) && Slack(tb) == 0
    && own == SumMap(Only(tb.layers, written))
    && tb.layers.Keys <= LayersOf(tb.images) + written
    && tb.held <= written + LayersOf(Pinned(tb.images))
  }

  /** For a transaction that is alone the first test is the whole truth: refuse exactly when it fails. */
  lemma RefusalExactAlone(tb: Tables, written: set<Digest>, own: int, n: int, max: int)
    requires n > 0 && Alone(tb, written, own)
    ensures Reserve(tb, own, n, max, NO_FAULTS).0 <==> own + n <= max - PinnedBytes(tb)
  {
    RefusalExact(tb, own, n, max);
    AloneStrands(tb, written, own);
    var p := LayersOf(Pinned(tb.images));
    SumMonotone(Only(tb.layers, Stranded(tb)), Only(tb.layers, p + written));
    SumCover(tb.layers, p, written);
    assert Floor(tb) <= PinnedBytes(tb) + own;
  }

  lemma AloneStrands(tb: Tables, written: set<Digest>, own: int)
    requires Alone(tb, written, own)
    ensures Stranded(tb) <= LayersOf(Pinned(tb.images)) + written
  {
    forall d | d in LayersOf(tb.images) ensures d in LayersOf(Pinned(tb.images)) || d in LayersOf(Unpinned(tb.images)) {
      var i :| i in tb.images && d in tb.images[i].layers;
      assert i in Unpinned(tb.images) || i in Pinned(tb.images);
    }
  }

  /** The comment on Abort promises that what an aborted ingest leaves behind becomes evictable. It does not:
      a layer named by no image is never visited by the evictor, so a reservation that passes the first test,
      with nothing pinned and nothing in flight, is refused. */
  lemma OrphanIsNeverReclaimed()
    ensures var tb := Tables(map[1 := 10], map[], 10, {});
            && Intact(tb) && Slack(tb) == 0
            && 0 + 10 <= 15 - PinnedBytes(tb)
            && !Reserve(tb, 0, 10, 15, NO_FAULTS).0
  {
    var tb := Tables(map[1 := 10], map[], 10, {});
    SumUpdate<Digest>(map[], 1, 10);
    assert map[][1 := 10] == tb.layers;
    assert RecordBytes(tb.images) == map[];
    assert Pinned(tb.images) == map[];
    assert Only(tb.layers, LayersOf(map[])) == map[];
  }

  /** The probe that words the refusal of an oversized write asks for one byte more than the ceiling. The ceiling was
      read in one hold of the lock and the probe is made in another. If no fewer bytes are pinned by then, the first
      test refuses it, and nothing is evicted; and when there was room at all, only then. */
  lemma ProbeIsRefused(early: Tables, late: Tables, own: int, max: int, f: Faults)
    ensures var probe := Ceiling(early, own, max) + 1;
            && (PinnedBytes(late) >= PinnedBytes(early) ==> own + probe > max - PinnedBytes(late))
            && (Ceiling(early, own, max) > 0 ==>
                  (own + probe > max - PinnedBytes(late) <==> PinnedBytes(late) >= PinnedBytes(early)))
            && (own + probe > max - PinnedBytes(late) ==> Reserve(late, own, probe, max, f) == (false, late))
  {
  }

  /** So in the state the ceiling was read from, nothing over it passes. */
  lemma OverCeiling(tb: Tables, own: int, n: int, max: int, f: Faults)
    requires n > Ceiling(tb, own, max)
    ensures Reserve(tb, own, n, max, f) == (false, tb)
  {
  }

  /** The ceiling is the largest amount that the first test lets through, or zero if it lets nothing through. */
  lemma CeilingIsTight(tb: Tables, own: int, n: int, max: int)
    ensures Ceiling(tb, own, max) >= 0
    ensures n > 0 ==> (n <= Ceiling(tb, own, max) <==> own + n <= max - PinnedBytes(tb))
  {
  }

  /** Reserving nothing is always granted, and does nothing. */
  lemma NothingIsFree(tb: Tables, own: int, n: int, max: int, f: Faults)
    requires n <= 0
    ensures Reserve(tb, own, n, max, f) == (true, tb)
  {
  }

  /** A granted reservation leaves the total within the cap; and no reservation breaks an image: all layers named by
      images or declared in flight stay, with their sizes. */
  lemma ReserveKeeps(tb: Tables, own: int, n: int, max: int, f: Faults)
    ensures var (ok, r) := Reserve(tb, own, n, max, f);
            && (Intact(tb) ==> Intact(r))
            && (ok && n > 0 ==> r.accounted <= max)
            && r.held == tb.held && PinnedBytes(r) == PinnedBytes(tb)
            && Slack(r) == Slack(tb) + (if ok && n > 0 then n else 0)
            && (forall d | d in r.layers :: d in tb.layers && r.layers[d] == tb.layers[d])
            && (forall d | d in tb.layers && Referenced(r, d) :: d in r.layers)
  {
    if n > 0 && own + n <= max - PinnedBytes(tb) {
      MakeRoomShortest(tb, n, max, f);
      EvictsKeep(tb, EvictionsMade(tb, n, max, f), f, MakeRoom(tb, n, max, f));
    }
  }
}
