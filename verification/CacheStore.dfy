/** The cache store's objects. Each method is one hold of the store mutex, or, for PutLayer and Commit, a whole call
    that nothing interrupts; its contract ties the tables after it to the tables before it. */
module CacheStore {
  import opened Options
  import opened Sums
  import opened CacheTables
  import opened CacheDisk

  class Txn {
    var layers: set<Digest>
    var ownBytes: int
    var done: bool

    constructor ()
      ensures layers == {} && ownBytes == 0 && !done
    {
      layers, ownBytes, done := {}, 0, false;
    }
  }

  method SweepLayers(dirs: map<Name, LayerEntry>)
    returns (kept: map<Name, LayerEntry>, layers: map<Digest, nat>, accounted: int)
    ensures kept == KeptDirs(dirs) && layers == SweptLayers(dirs) && accounted == SumMap(layers)
  {
    hide SweptLayers, KeptDirs;
    kept, layers, accounted := map[], map[], 0;
    var todo := dirs.Keys;
    NothingSwept(dirs, map[], {});
    while todo != {}
      invariant todo <= dirs.Keys
      invariant kept == KeptDirs(dirs - todo) && layers == SweptLayers(dirs - todo)
      invariant accounted == SumMap(layers)
      decreases todo
    {
      var n :| n in todo;
      LayerSwept(dirs, todo, n);
      todo := todo - {n};
      var size := ReadLayer(n, dirs[n]);
      if size.Some? {
        kept := kept[n := dirs[n]];
        SumUpdate(layers, n.digest, size.value);
        layers := layers[n.digest := size.value];
        accounted := accounted + size.value;
      }
    }
    SubtractNothing(dirs);
  }

  lemma NoRecords()
    ensures SumMap(RecordBytes(map[])) == 0
  {
  }

  lemma RecordSummed(images: map<Digest, Image>, id: Digest, img: Image)
    requires id !in images
    ensures SumMap(RecordBytes(images[id := img])) == SumMap(RecordBytes(images)) + img.bytes
  {
    assert RecordBytes(images[id := img]) == RecordBytes(images)[id := img.bytes];
    SumUpdate(RecordBytes(images), id, img.bytes);
  }

  method SweepImages(records: map<Name, RecordEntry>, layers: map<Digest, nat>)
    returns (kept: map<Name, RecordEntry>, images: map<Digest, Image>, accounted: int)
    ensures kept == KeptRecords(records, layers.Keys) && images == SweptImages(records, layers.Keys)
    ensures accounted == SumMap(RecordBytes(images))
  {
    hide SweptImages, KeptRecords, SumMap, RecordBytes;
    kept, images, accounted := map[], map[], 0;
    var todo := records.Keys;
    NothingSwept(map[], records, layers.Keys);
    NoRecords();
    while todo != {}
      invariant todo <= records.Keys
      invariant kept == KeptRecords(records - todo, layers.Keys) && images == SweptImages(records - todo, layers.Keys)
      invariant accounted == SumMap(RecordBytes(images))
      decreases todo
    {
      var n :| n in todo;
      ImageSwept(records, layers.Keys, todo, n);
      todo := todo - {n};
      var rec := ReadRecord(n, records[n], layers.Keys);
      if rec.Some? {
        kept := kept[n := records[n]];
        RecordSummed(images, n.digest, rec.value);
        images := images[n.digest := rec.value];
        accounted := accounted + rec.value.bytes;
      }
    }
    SubtractNothing(records);
  }

  datatype Outcome = Present | Stored | Full | Broken | Undeclared | Finished

  class Store {
    const max: int
    var layers: map<Digest, nat>
    var images: map<Digest, Image>
    var accounted: int
    var inflight: set<Txn>

    ghost function HeldLayers(): set<Digest>
      reads this`inflight, inflight`layers
    {
      set t, d | t in inflight && d in t.layers :: d
    }

    /** The tables, as the budget rules see them. */
    ghost function View(): Tables
      reads this, inflight`layers
    {
      Tables(layers, images, accounted, HeldLayers())
    }

    /** Open, which sweeps the disk and rebuilds the tables from what is left of it. */
    constructor (max: int, disk: Disk)
      ensures this.max == max && inflight == {} && View() == SweptTables(disk)
    {
      var dirs, table, layerBytes := SweepLayers(disk.dirs);
      var records, records', recordBytes := SweepImages(disk.records, table);
      this.max, layers, images, accounted, inflight := max, table, records', layerBytes + recordBytes, {};
      new;
      assert HeldLayers() == {};
    }

    // -------------------------------------------------------------- eviction

    method PinnedBytesLocked() returns (total: int)
      ensures total == PinnedBytes(View())
    {
      hide SumMap, Only, LayersOf, RecordBytes, PinnedBytes;
      total := 0;
      var counted := {};
      var todo := images.Keys;
      ghost var seen: map<Digest, Image> := map[];
      NoneCounted(layers);
      while todo != {}
        invariant todo <= images.Keys
        invariant seen == map i | i in images && images[i].pinned && i !in todo :: images[i]
        invariant counted == LayersOf(seen)
        invariant total == Counted(layers, seen)
        decreases todo
      {
        var i :| i in todo;
        todo := todo - {i};
        if images[i].pinned {
          OneCounted(layers, seen, i, images[i]);
          total, counted := CountLayers(images[i].layers, counted, total + images[i].bytes);
          seen := seen[i := images[i]];
        }
      }
      assert seen == Pinned(images);
      PinnedIsCounted(View());
    }

    /** Counts each layer of one pinned image that was not counted before and is in the table. */
    method CountLayers(ds: seq<Digest>, counted: set<Digest>, total: int) returns (total': int, counted': set<Digest>)
      ensures counted' == counted + (set d | d in ds)
      ensures total' - SumMap(Only(layers, counted')) == total - SumMap(Only(layers, counted))
    {
      total', counted' := total, counted;
      for k := 0 to |ds|
        invariant counted' == counted + (set d | d in ds[..k])
        invariant total' - SumMap(Only(layers, counted')) == total - SumMap(Only(layers, counted))
      {
        var d := ds[k];
        assert ds[..k + 1] == ds[..k] + [d];
        if d !in counted' {
          CountOne(layers, counted', d);
          counted' := counted' + {d};
          if d in layers {
            total' := total' + layers[d];
          }
        } else {
          assert counted' + {d} == counted';
        }
      }
      assert ds[..|ds|] == ds;
    }

    method LayerReferencedLocked(d: Digest) returns (b: bool)
      ensures b <==> Referenced(View(), d)
    {
      var todo := images.Keys;
      while todo != {}
        invariant todo <= images.Keys && forall i | i in images && i !in todo :: d !in images[i].layers
        decreases todo
      {
        var i :| i in todo;
        if d in images[i].layers {
          assert d in LayersOf(images);
          return true;
        }
        todo := todo - {i};
      }
      var open := inflight;
      while open != {}
        invariant open <= inflight && forall t | t in inflight && t !in open :: d !in t.layers
        decreases open
      {
        var t :| t in open;
        if d in t.layers {
          return true;
        }
        open := open - {t};
      }
      return false;
    }

    method DropLayerLocked(d: Digest, stuck: set<Digest>)
      requires !Referenced(View(), d)
      modifies this`layers, this`accounted
      ensures View() == DropLayer(old(View()), d, stuck)
    {
      if d !in layers || d in stuck {
        return;
      }
      accounted := accounted - layers[d];
      layers := layers - {d};
    }

    /** One pass over the images for the first unpinned one in the order. */
    method FindVictim() returns (victim: Option<Digest>)
      ensures victim.None? ==> forall i | i in images :: images[i].pinned
      ensures victim.Some? ==> IsVictim(images, victim.value) && Oldest(images, victim.value)
    {
      victim := None;
      var todo := images.Keys;
      while todo != {}
        invariant todo <= images.Keys
        invariant victim.None? ==> forall i | i in images && i !in todo :: images[i].pinned
        invariant victim.Some? ==> IsVictim(map i | i in images && i !in todo :: images[i], victim.value)
        decreases todo
      {
        ghost var before := map i | i in images && i !in todo :: images[i];
        var i :| i in todo;
        todo := todo - {i};
        ghost var after := map j | j in images && j !in todo :: images[j];
        assert after == before[i := images[i]];
        if !images[i].pinned && (victim.None? || Before(i, images[i], victim.value, images[victim.value])) {
          if victim.Some? {
            NewFirst(before, victim.value, i, images[i]);
          }
          victim := Some(i);
        }
      }
      assert (map i | i in images && i !in todo :: images[i]) == images;
      if victim.Some? { VictimIsOldest(images, victim.value); }
    }

    /** Evicts the first unpinned image in the order, then the layers of it that nothing refers to. */
    method EvictLRULocked(f: Faults) returns (ok: bool)
      modifies this`layers, this`images, this`accounted
      ensures ok <==> CanEvict(old(View()), f)
      ensures !ok ==> View() == old(View())
      ensures ok ==> exists v :: Oldest(old(images), v) && View() == Evict(old(View()), v, f.dirs)
    {
      var victim := FindVictim();
      if victim.None? {
        return false;
      }
      var v := victim.value;
      if v in f.records {
        forall w | IsVictim(images, w) ensures w == v { VictimUnique(images, v, w); }
        return false;
      }
      var ds := images[v].layers;
      accounted := accounted - images[v].bytes;
      images := images - {v};
      ghost var start := View();
      assert start == RemoveImage(old(View()), v);
      for k := 0 to |ds|
        invariant inflight == old(inflight) && images == start.images
        invariant DropLayers(View(), ds[k..], f.dirs) == DropLayers(start, ds, f.dirs)
      {
        ghost var here := View();
        assert ds[k..][1..] == ds[k + 1..];
        var referenced := LayerReferencedLocked(ds[k]);
        if !referenced {
          DropLayerLocked(ds[k], f.dirs);
        }
        assert View() == DropLayer(here, ds[k], f.dirs);
      }
      assert View() == Evict(old(View()), v, f.dirs);
      return true;
    }

    // -------------------------------------------------------------- the budget

    method ReserveFor(t: Txn, n: int, f: Faults) returns (ok: bool)
      requires t in inflight
      modifies this`layers, this`images, this`accounted, t`ownBytes
      ensures (ok, View()) == Reserve(old(View()), old(t.ownBytes), n, max, f)
      ensures t.ownBytes == old(t.ownBytes) + (if ok && n > 0 then n else 0)
    {
      if n <= 0 {
        return true;
      }
      var pinned := PinnedBytesLocked();
      if t.ownBytes + n > max - pinned {
        return false;
      }
      while accounted + n > max
        invariant inflight == old(inflight) && t.ownBytes == old(t.ownBytes)
        invariant MakeRoom(View(), n, max, f) == MakeRoom(old(View()), n, max, f)
        decreases |images|
      {
        ghost var tb := View();
        var evicted := EvictLRULocked(f);
        if !evicted {
          break;
        }
        MakeRoomOnce(tb, View(), n, max, f);
      }
      if accounted + n > max {
        return false;
      }
      accounted := accounted + n;
      t.ownBytes := t.ownBytes + n;
      return true;
    }

    method ReserveCeiling(t: Txn) returns (ceiling: int)
      ensures ceiling == Ceiling(View(), t.ownBytes, max)
    {
      var pinned := PinnedBytesLocked();
      ceiling := max - pinned - t.ownBytes;
      if ceiling < 0 {
        ceiling := 0;
      }
    }

    method Release(t: Txn, n: int)
      modifies this`accounted, t`ownBytes
      ensures n > 0 ==> accounted == old(accounted) - n && t.ownBytes == old(t.ownBytes) - n
      ensures n <= 0 ==> accounted == old(accounted) && t.ownBytes == old(t.ownBytes)
    {
      if n > 0 {
        accounted := accounted - n;
        t.ownBytes := t.ownBytes - n;
      }
    }

    // -------------------------------------------------------------- transactions

    method Begin() returns (t: Txn)
      modifies this`inflight
      ensures fresh(t) && inflight == old(inflight) + {t} && t.layers == {} && t.ownBytes == 0 && !t.done
      ensures View() == old(View())
    {
      t := new Txn();
      inflight := inflight + {t};
    }

    method UseLayer(t: Txn, d: Digest) returns (ok: bool)
      requires t in inflight
      modifies t`layers
      ensures ok <==> d in layers
      ensures !ok ==> t.layers == old(t.layers) && View() == old(View())
      ensures ok ==> t.layers == old(t.layers) + {d} && View() == WithHeld(old(View()), d)
    {
      if d !in layers {
        return false;
      }
      t.layers := t.layers + {d};
      return true;
    }

    /** PutLayer, run without interruption. wrote says whether the files were renamed into place. */
    method PutLayer(t: Txn, d: Digest, indexBytes: nat, docBytes: nat, wrote: bool, f: Faults) returns (r: Outcome)
      requires t in inflight
      modifies this`layers, this`images, this`accounted, t
      ensures r == Finished <==> old(t.done)
      ensures r == Present <==> !old(t.done) && d in old(layers)
      ensures r == Full <==>
        && !old(t.done) && d !in old(layers)
        && !Reserve(old(View()), old(t.ownBytes), indexBytes + docBytes, max, f).0
      ensures r != Undeclared && (r == Broken ==> !wrote) && (r == Stored ==> wrote)
      ensures var total := indexBytes + docBytes;
              var tb := Reserve(old(View()), old(t.ownBytes), total, max, f).1;
              match r
              case Finished => View() == old(View())
              case Present => View() == WithHeld(old(View()), d)
              case Full => View() == tb
              case Broken => View() == tb.(accounted := tb.accounted - total)
              case Stored => View() == tb.(layers := tb.layers[d := total], held := tb.held + {d})
              case Undeclared => true
      ensures t.done == old(t.done)
      ensures t.layers == if r == Present || r == Stored then old(t.layers) + {d} else old(t.layers)
      ensures t.ownBytes == old(t.ownBytes) + (if r == Stored then indexBytes + docBytes else 0)
      ensures Slack(View()) == Slack(old(View())) && (Intact(old(View())) ==> Intact(View()))
    {
      hide Reserve, Intact, Slack, Ceiling, PinnedBytes, LayersOf, RecordBytes, SumMap;
      if t.done {
        return Finished;
      }
      var present := UseLayer(t, d);
      if present {
        Declared(old(View()), View(), d);
        return Present;
      }
      var total := indexBytes + docBytes;
      ReserveKeeps(View(), t.ownBytes, total, max, f);
      var ceiling := ReserveCeiling(t);
      if indexBytes > ceiling || docBytes > ceiling - indexBytes {
        OverCeiling(View(), t.ownBytes, ceiling + 1, max, f);
        OverCeiling(View(), t.ownBytes, total, max, f);
        var probed := ReserveFor(t, ceiling + 1, f);
        return Full;
      }
      var ok := ReserveFor(t, total, f);
      if !ok {
        return Full;
      }
      ghost var reserved := View();
      if !wrote {
        Release(t, total);
        GivenBack(reserved, View(), total);
        return Broken;
      }
      layers := layers[d := total];
      t.layers := t.layers + {d};
      StoredLayer(reserved, View(), d, total);
      return Stored;
    }

    /** Commit, run without interruption. renamed says whether the record was renamed into place. A transaction that
        is refused stays open; one that commits is finished. */
    method Commit(t: Txn, id: Digest, img: Image, renamed: bool, f: Faults) returns (r: Outcome)
      requires t in inflight
      modifies this, t
      ensures r == Finished <==> old(t.done)
      ensures r == Undeclared <==> !old(t.done) && exists d :: d in img.layers && d !in old(t.layers)
      ensures r == Full ==> !Reserve(old(View()), old(t.ownBytes), img.bytes, max, f).0
      ensures r == Stored || r == Broken ==> Reserve(old(View()), old(t.ownBytes), img.bytes, max, f).0
      ensures r != Present && (r == Broken ==> !renamed) && (r == Stored ==> renamed)
      ensures var tb := Reserve(old(View()), old(t.ownBytes), img.bytes, max, f).1;
              match r
              case Finished => View() == old(View())
              case Undeclared => View() == old(View())
              case Full => View() == tb
              case Broken => View() == tb.(accounted := tb.accounted - img.bytes)
              case Stored => View() == Recorded(tb, id, img).(held := HeldLayers())
              case Present => true
      ensures r == Stored ==>
          var tb := Reserve(old(View()), old(t.ownBytes), img.bytes, max, f).1;
          && images == tb.images[id := img] && layers == tb.layers
          && accounted == tb.accounted - (if id in tb.images then tb.images[id].bytes else 0)
      ensures if r == Stored then t.done && inflight == old(inflight) - {t}
              else t.done == old(t.done) && inflight == old(inflight)
      ensures t.layers == old(t.layers) && t.ownBytes == old(t.ownBytes) + (if r == Stored then img.bytes else 0)
      ensures Slack(View()) == Slack(old(View())) && (Intact(old(View())) ==> Intact(View()))
    {
      hide Reserve, Intact, Slack, Ceiling;
      if t.done {
        return Finished;
      }
      if exists d :: d in img.layers && d !in t.layers {
        return Undeclared;
      }
      ReserveKeeps(View(), t.ownBytes, img.bytes, max, f);
      var ceiling := ReserveCeiling(t);
      if img.bytes > ceiling {
        OverCeiling(View(), t.ownBytes, ceiling + 1, max, f);
        OverCeiling(View(), t.ownBytes, img.bytes, max, f);
        var probed := ReserveFor(t, ceiling + 1, f);
        return Full;
      }
      var ok := ReserveFor(t, img.bytes, f);
      if !ok {
        return Full;
      }
      ghost var reserved := View();
      if !renamed {
        Release(t, img.bytes);
        GivenBack(reserved, View(), img.bytes);
        return Broken;
      }
      assert forall d | d in img.layers :: d in reserved.held;
      InstallRecord(t, id, img);
      return Stored;
    }

    /** The last lock hold: the record enters the table, in place of an older one, and the transaction is over. */
    method InstallRecord(t: Txn, id: Digest, img: Image)
      requires t in inflight && forall d | d in img.layers :: d in HeldLayers()
      modifies this, t
      ensures images == old(images)[id := img] && layers == old(layers)
      ensures accounted == old(accounted) - (if id in old(images) then old(images)[id].bytes else 0)
      ensures View() == Recorded(old(View()), id, img).(held := HeldLayers())
      ensures t.done && inflight == old(inflight) - {t} && t.layers == old(t.layers) && t.ownBytes == old(t.ownBytes)
      ensures Slack(View()) == Slack(old(View())) - img.bytes && (Intact(old(View())) ==> Intact(View()))
    {
      hide Intact, Slack;
      ghost var was := View();
      if id in images {
        accounted := accounted - images[id].bytes;
      }
      images := images[id := img];
      t.done := true;
      inflight := inflight - {t};
      assert HeldLayers() <= was.held;
      StoredImage(was, View(), id, img);
    }
  }

  /** A record takes the place of an older one of the same id, whose bytes are no longer accounted. */
  function Recorded(tb: Tables, id: Digest, img: Image): Tables {
    tb.(images := tb.images[id := img], accounted := tb.accounted
        - (if id in tb.images then tb.images[id].bytes else 0))
  }

  lemma StoredImage(tb: Tables, r: Tables, id: Digest, img: Image)
    requires r == Recorded(tb, id, img).(held := r.held)
    requires r.held <= tb.held && forall d | d in img.layers :: d in tb.held
    ensures Slack(r) == Slack(tb) - img.bytes && (Intact(tb) ==> Intact(r))
  {
    assert RecordBytes(r.images) == RecordBytes(tb.images)[id := img.bytes];
    SumUpdate(RecordBytes(tb.images), id, img.bytes);
    assert LayersOf(r.images) <= LayersOf(tb.images) + (set d | d in img.layers);
  }

  lemma Declared(tb: Tables, r: Tables, d: Digest)
    requires r == WithHeld(tb, d) && d in tb.layers
    ensures Slack(r) == Slack(tb) && (Intact(tb) ==> Intact(r))
  {
  }

  lemma GivenBack(tb: Tables, r: Tables, n: int)
    requires r == tb.(accounted := r.accounted) && r.accounted == tb.accounted - n
    ensures Slack(r) == Slack(tb) - n && (Intact(tb) ==> Intact(r))
  {
  }

  lemma StoredLayer(tb: Tables, r: Tables, d: Digest, n: nat)
    requires d !in tb.layers && r == tb.(layers := tb.layers[d := n], held := r.held) && r.held == tb.held + {d}
    ensures Slack(r) == Slack(tb) - n && (Intact(tb) ==> Intact(r))
  {
    SumUpdate(tb.layers, d, n);
  }

  lemma SubtractNothing<K, V>(m: map<K, V>)
    ensures m - {} == m
  {
  }

  lemma NothingSwept(dirs: map<Name, LayerEntry>, records: map<Name, RecordEntry>, known: set<Digest>)
    ensures KeptDirs(dirs - dirs.Keys) == map[] && SweptLayers(dirs - dirs.Keys) == map[] && SumMap<Digest>(map[]) == 0
    ensures KeptRecords(records - records.Keys, known) == map[] && SweptImages(records - records.Keys, known) == map[]
  {
  }

  lemma LayerSwept(dirs: map<Name, LayerEntry>, todo: set<Name>, n: Name)
    requires n in todo && todo <= dirs.Keys
    ensures ReadLayer(n, dirs[n]).Some? ==> n.digest !in SweptLayers(dirs - todo)
    ensures var size := ReadLayer(n, dirs[n]);
            && KeptDirs(dirs - (todo - {n}))
                == (if size.Some? then KeptDirs(dirs - todo)[n := dirs[n]] else KeptDirs(dirs - todo))
            && SweptLayers(dirs - (todo - {n}))
                == (if size.Some? then SweptLayers(dirs - todo)[n.digest := size.value] else SweptLayers(dirs - todo))
  {
    var more, less := dirs - (todo - {n}), dirs - todo;
    assert more == less[n := dirs[n]];
    forall d ensures d in SweptLayers(more)
        <==> d in SweptLayers(less) || (ReadLayer(n, dirs[n]).Some? && d == n.digest) {
      SweptLayerAt(more, d);
      SweptLayerAt(less, d);
    }
    forall d | d in SweptLayers(more) ensures SweptLayers(more)[d] == ReadLayer(Hex(d), dirs[Hex(d)]).value {
      SweptLayerAt(more, d);
    }
    forall d | d in SweptLayers(less) ensures SweptLayers(less)[d] == ReadLayer(Hex(d), dirs[Hex(d)]).value {
      SweptLayerAt(less, d);
    }
  }

  lemma ImageSwept(records: map<Name, RecordEntry>, known: set<Digest>, todo: set<Name>, n: Name)
    requires n in todo && todo <= records.Keys
    ensures ReadRecord(n, records[n], known).Some? ==> n.digest !in SweptImages(records - todo, known)
    ensures var rec, kept, swept :=
        ReadRecord(n, records[n], known), KeptRecords(records - todo, known), SweptImages(records - todo, known);
            && KeptRecords(records - (todo - {n}), known) == (if rec.Some? then kept[n := records[n]] else kept)
            && SweptImages(records - (todo - {n}), known) == (if rec.Some? then swept[n.digest := rec.value] else swept)
  {
    hide ReadRecord, SweptImages, KeptRecords;
    assert records - (todo - {n}) == (records - todo)[n := records[n]];
    KeptWith(records - todo, known, n, records[n]);
    SweptWith(records - todo, known, n, records[n]);
    ReadIsHex(n, records[n], known);
  }

  lemma ReadIsHex(n: Name, entry: RecordEntry, known: set<Digest>)
    ensures ReadRecord(n, entry, known).Some? ==> n.Hex?
  {
  }

  lemma KeptWith(records: map<Name, RecordEntry>, known: set<Digest>, n: Name, entry: RecordEntry)
    requires n !in records
    ensures KeptRecords(records[n := entry], known)
         == if ReadRecord(n, entry, known).Some? then KeptRecords(records, known)[n := entry]
             else KeptRecords(records, known)
  {
    hide ReadRecord;
  }

  lemma SweptWith(records: map<Name, RecordEntry>, known: set<Digest>, n: Name, entry: RecordEntry)
    requires n !in records
    ensures ReadRecord(n, entry, known).Some? ==> n.Hex? && n.digest !in SweptImages(records, known)
    ensures var rec := ReadRecord(n, entry, known);
            SweptImages(records[n := entry], known)
            == if rec.Some? then SweptImages(records, known)[n.digest := rec.value] else SweptImages(records, known)
  {
    hide ReadRecord, SweptImages;
    var more, rec, was := records[n := entry], ReadRecord(n, entry, known), SweptImages(records, known);
    ReadIsHex(n, entry, known);
    if rec.Some? { SweptImageAt(records, known, n.digest); }
    var expected := if rec.Some? then was[n.digest := rec.value] else was;
    forall i
      ensures i in SweptImages(more, known) <==> i in expected
      ensures i in expected ==> SweptImages(more, known)[i] == expected[i]
    {
      SweptImageAt(more, known, i);
      SweptImageAt(records, known, i);
    }
  }

  /** The bytes of some image records and of the layers in the table that they name, each counted once. */
  ghost function Counted(layers: map<Digest, nat>, seen: map<Digest, Image>): int {
    SumMap(RecordBytes(seen)) + SumMap(Only(layers, LayersOf(seen)))
  }

  lemma NoneCounted(layers: map<Digest, nat>)
    ensures Counted(layers, map[]) == 0 && LayersOf(map[]) == {}
  {
    assert Only(layers, LayersOf(map[])) == map[] && RecordBytes(map[]) == map[];
  }

  lemma OneCounted(layers: map<Digest, nat>, seen: map<Digest, Image>, i: Digest, img: Image)
    requires i !in seen
    ensures LayersOf(seen[i := img]) == LayersOf(seen) + (set d | d in img.layers)
    ensures Counted(layers, seen[i := img]) - SumMap(Only(layers, LayersOf(seen[i := img])))
            == Counted(layers, seen) + img.bytes - SumMap(Only(layers, LayersOf(seen)))
  {
    hide SumMap, Only, LayersOf;
    assert RecordBytes(seen[i := img]) == RecordBytes(seen)[i := img.bytes];
    SumUpdate(RecordBytes(seen), i, img.bytes);
    SeenMore(seen, i, img);
  }

  lemma PinnedIsCounted(tb: Tables)
    ensures PinnedBytes(tb) == Counted(tb.layers, Pinned(tb.images))
  {
  }

  lemma SeenMore(seen: map<Digest, Image>, i: Digest, img: Image)
    requires i !in seen
    ensures LayersOf(seen[i := img]) == LayersOf(seen) + (set d | d in img.layers)
  {
    forall d | d in LayersOf(seen) ensures d in LayersOf(seen[i := img]) {
      var j :| j in seen && d in seen[j].layers;
      assert j in seen[i := img] && seen[i := img][j] == seen[j];
    }
    forall d | d in img.layers ensures d in LayersOf(seen[i := img]) {
      assert seen[i := img][i] == img;
    }
  }

  lemma CountOne(layers: map<Digest, nat>, counted: set<Digest>, d: Digest)
    requires d !in counted
    ensures SumMap(Only(layers, counted + {d}))
        == SumMap(Only(layers, counted)) + (if d in layers then layers[d] else 0)
  {
    if d in layers {
      assert Only(layers, counted + {d}) == Only(layers, counted)[d := layers[d]];
      SumUpdate(Only(layers, counted), d, layers[d]);
    } else {
      assert Only(layers, counted + {d}) == Only(layers, counted);
    }
  }

  lemma NewFirst(images: map<Digest, Image>, v: Digest, i: Digest, img: Image)
    requires IsVictim(images, v) && i !in images && !img.pinned && Before(i, img, v, images[v])
    ensures IsVictim(images[i := img], i)
  {
  }

  lemma MakeRoomOnce(tb: Tables, r: Tables, n: int, max: int, f: Faults)
    requires tb.accounted + n > max && CanEvict(tb, f)
    requires exists v :: IsVictim(tb.images, v) && r == Evict(tb, v, f.dirs)
    ensures MakeRoom(tb, n, max, f) == MakeRoom(r, n, max, f) && |r.images| < |tb.images|
  {
  }
}
