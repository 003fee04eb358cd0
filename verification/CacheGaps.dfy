/** Concrete runs on which the store does less than its comments say, and what each of them turns on. */
module CacheGaps {
  import opened Options
  import opened Sums
  import opened CacheTables
  import opened CacheDisk
  import opened CacheProtocol
  import opened CacheCrash
  import opened CachePins
  import opened CacheTheorems
  import opened CacheRuns

  /** A cap of 20 bytes; images 1 and 3 have layer 5, every other image has none. */
  const SMALL := Config(20, 1, (i: Digest) => if i == 1 || i == 3 then [5] else [])

  /** Image 1, whose record takes 2 bytes, and its layer 5, which takes 10. */
  const DIRS := map[Hex(5) := Folder(Some(LayerDoc(1, 5, 1)), Some(9), 0)]
  const RECORDS := map[Hex(1) := Record(Some(RecordDoc(1, 1, [5], false, 0)), 2)]
  const ONE := Image([5], false, 0, 2)
  const TOUCHED := Image([5], false, 100, 2)
  const THREE := Image([5], false, 0, 3)

  const LAYERS: map<Digest, nat> := map[5 := 10]
  const IMAGES: map<Digest, Image> := map[1 := ONE]

  lemma OneLayerSwept()
    ensures SweptLayers(DIRS) == LAYERS && KeptDirs(DIRS) == DIRS && SumMap(LAYERS) == 10 && LAYERS.Keys == {5}
  {
    SweptLayerAt(DIRS, 5);
    SumUpdate<Digest>(map[], 5, 10);
    assert map[][5 := 10] == LAYERS;
  }

  lemma OneRecordSwept(known: set<Digest>)
    requires known == {5}
    ensures SweptImages(RECORDS, known) == IMAGES && KeptRecords(RECORDS, known) == RECORDS
        && SumMap(RecordBytes(IMAGES)) == 2
  {
    SweptImageAt(RECORDS, known, 1);
    SumUpdate<Digest>(map[], 1, 2);
    assert RecordBytes(IMAGES) == map[][1 := 2];
  }

  lemma OpensAs(dirs: map<Name, LayerEntry>, records: map<Name, RecordEntry>, layers: map<Digest, nat>,
      images: map<Digest, Image>)
    requires SweptLayers(dirs) == layers && KeptDirs(dirs) == dirs
    requires SweptImages(records, layers.Keys) == images && KeptRecords(records, layers.Keys) == records
    ensures Opened(Disk(dirs, records))
         == State(layers, images, SumMap(layers)
             + SumMap(RecordBytes(images)), map[], map[], Free, map[], Disk(dirs, records))
  {
    hide SweptLayers, SweptImages, KeptDirs, KeptRecords, SumMap, RecordBytes;
  }

  lemma OneImageOpens()
    ensures Opened(Disk(DIRS, RECORDS)) == State(LAYERS, IMAGES, 12, map[], map[], Free, map[], Disk(DIRS, RECORDS))
  {
    hide SweptLayers, SweptImages, KeptDirs, KeptRecords, RecordBytes, SumMap, Opened, DIRS, RECORDS, LAYERS, IMAGES;
    OneLayerSwept();
    OneRecordSwept(LAYERS.Keys);
    OpensAs(DIRS, RECORDS, LAYERS, IMAGES);
  }

  lemma OneImageGenuine()
    ensures Genuine(SMALL, Disk(DIRS, RECORDS))
  {
  }

  const START := Disk(DIRS, RECORDS)

  /** The store opened on START, later: only these parts change in the runs below. */
  function At0(images: map<Digest, Image>, accounted: int, txns: map<TxnId, Txn>,
               rewrites: map<WriterId, Rewrite>, records: map<Name, RecordEntry>): State {
    State(LAYERS, images, accounted, txns, map[], Free, rewrites, Disk(DIRS, records))
  }

  lemma Starts()
    ensures Reachable(SMALL, START, At0(IMAGES, 12, map[], map[], RECORDS))
    ensures Genuine(SMALL, START)
  {
    hide Opened, Reachable, Genuine;
    OneImageOpens();
    OneImageGenuine();
    ReachStart(SMALL, START);
  }

  lemma NothingPinned(tb: Tables)
    requires forall i | i in tb.images :: !tb.images[i].pinned
    ensures PinnedBytes(tb) == 0
  {
  }

  // ---------------------------------------------------------------- an eviction

  /** Transaction t commits image 2, which has no layers and a record of bytes bytes, and evicts image 1 for it. */
  lemma EvictsOne(disk: Disk, s: State, t: TxnId, bytes: nat, one: Image) returns (r: State)
    requires Reachable(SMALL, disk, s) && s.mu.Free? && t !in s.txns
    requires s.images == map[1 := one] && one.layers == [5] && !one.pinned && s.layers == LAYERS
    requires 0 < bytes <= 20 && s.accounted + bytes > 20
    ensures Reachable(SMALL, disk, r) && r.mu == Evicting(t, [5])
    ensures r == s.(mu := r.mu, txns := r.txns, images := map[], accounted := s.accounted - one.bytes,
                    disk := s.disk.(records := s.disk.records - {Hex(1)}))
    ensures r.txns == s.txns[t := Txn({}, 0, {}, Reserving(RecordJob(2, Image([], false, 0, bytes))))]
  {
    hide Reachable, Step, Enabled, PinnedBytes, IsVictim;
    var img := Image([], false, 0, 0);
    Opens(SMALL, disk, s, t);
    var s1 := Put(s, t, Txn({}, 0, {}, Idle));
    NothingPinned(Tab(s1));
    Commits(SMALL, disk, s1, t, 2, img, bytes);
    var s2 := Go(s1, t, Reserving(RecordJob(2, img.(bytes := bytes))));
    NothingPinned(Tab(s2));
    Admitted(SMALL, disk, s2, t);
    var s3 := s2.(mu := Evicting(t, []));
    OnlyVictim(s3.images, one);
    Evicts(SMALL, disk, s3, t, 1);
    r := s3.(mu := Evicting(t, one.layers), images := map[], accounted := s.accounted - one.bytes,
             disk := s.disk.(records := s.disk.records - {Hex(1)}));
    assert s3.images - {1} == map[];
    assert r.txns == s.txns[t := Txn({}, 0, {}, Reserving(RecordJob(2, Image([], false, 0, bytes))))];
  }

  lemma OnlyVictim(images: map<Digest, Image>, one: Image)
    requires images == map[1 := one] && !one.pinned
    ensures IsVictim(images, 1)
  {
  }

  /** With nothing else referring to layer 5, it goes too, directory and all. */
  lemma LayerFollows(disk: Disk, s: State, t: TxnId) returns (r: State)
    requires Reachable(SMALL, disk, s) && s.mu == Evicting(t, [5]) && t in s.txns && s.txns[t].pc.Reserving?
    requires s.images == map[] && s.layers == LAYERS && s.disk.dirs == DIRS
    requires forall u | u in s.txns && 5 in s.txns[u].layers :: s.txns[u].pc == Closed
    ensures Reachable(SMALL, disk, r)
    ensures r.layers == map[] && r.images == map[] && r.disk == Disk(map[], s.disk.records) && r.rewrites == s.rewrites
  {
    hide Reachable, Step, Enabled;
    assert !Referenced(Tab(s), 5);
    Visits(SMALL, disk, s, t, 5);
    r := s.(mu := Evicting(t, []), layers := s.layers - {5}, accounted := s.accounted - s.layers[5],
            disk := s.disk.(dirs := s.disk.dirs - {Hex(5)}));
    assert s.layers - {5} == map[] && DIRS - {Hex(5)} == map[];
  }

  lemma Incomplete(disk: Disk, id: Digest, img: Image, bytes: nat)
    requires disk.dirs == map[] && 5 in img.layers
    ensures !RecordsComplete(WithRecord(disk, id, img, bytes))
  {
    var d := WithRecord(disk, id, img, bytes);
    assert 5 in RecordLayers(d.records[Hex(id)]) && !Complete(d, 5);
  }

  // ---------------------------------------------------------------- a rewrite after its image

  /** Touch lets go of the mutex before it renames the rewritten record. If the image is evicted in between, the
      rename puts back a record whose layers are gone, which the next start throws away: here image 1 is touched,
      a commit of 15 bytes evicts it with its layer 5, and then the rewrite lands. */
  lemma RewriteAfterEviction() returns (s: State)
    ensures Genuine(SMALL, START) && Reachable(SMALL, START, s)
    ensures Hex(1) in s.disk.records && !RecordsComplete(s.disk)
  {
    hide Reachable, Step, Enabled, Genuine, RecordsComplete, At0;
    Starts();
    var s1 := TouchesOne();
    var s2 := EvictsOne(START, s1, 0, 15, TOUCHED);
    var s3 := LayerFollows(START, s2, 0);
    MoveEnabled(SMALL, s3, 0, 1, TOUCHED, 2, Done);
    ReachStep(SMALL, START, s3, MoveRewrite(0, 2, Done));
    s := Step(SMALL, s3, MoveRewrite(0, 2, Done));
    Incomplete(s3.disk, 1, TOUCHED, 2);
  }

  lemma TouchesOne() returns (r: State)
    ensures r == At0(map[1 := TOUCHED], 12, map[], map[0 := Staged(1, TOUCHED)], RECORDS) && Reachable(SMALL, START, r)
    ensures r.mu.Free? && r.txns == map[] && r.images == map[1 := TOUCHED] && r.layers == LAYERS && r.accounted == 12
    ensures r.disk == START && r.rewrites == map[0 := Staged(1, TOUCHED)]
  {
    hide Reachable, Step, Enabled, LAYERS, DIRS, RECORDS;
    Starts();
    var s := At0(IMAGES, 12, map[], map[], RECORDS);
    TouchIs(SMALL, s, 0, 1, 100);
    assert s.images[1 := TOUCHED] == map[1 := TOUCHED];
    ReachStep(SMALL, START, s, Touch(0, 1, 100));
    r := Step(SMALL, s, Touch(0, 1, 100));
  }

  lemma TouchIs(c: Config, s: State, w: WriterId, id: Digest, now: int)
    requires s.mu.Free? && w !in s.rewrites && id in s.images && now - s.images[id].lastUsed >= c.debounce
    ensures Enabled(c, s, Touch(w, id, now))
    ensures var img := s.images[id].(lastUsed := now);
            Step(c, s, Touch(w, id, now))
                == s.(images := s.images[id := img], rewrites := s.rewrites[w := Staged(id, img)])
  {
  }

  lemma MoveEnabled(c: Config, s: State, w: WriterId, id: Digest, img: Image, bytes: nat, io: IO)
    requires w in s.rewrites && s.rewrites[w] == Staged(id, img) && io != Failed
    ensures Enabled(c, s, MoveRewrite(w, bytes, io))
    ensures var r := Step(c, s, MoveRewrite(w, bytes, io));
            r.disk == WithRecord(s.disk, id, img, bytes) && r.images == s.images && r.layers == s.layers
            && r.accounted == s.accounted && r.mu == s.mu && r.txns == s.txns
            && r.rewrites == if io == Done then s.rewrites[w := Renamed(id, bytes)] else s.rewrites - {w}
  {
  }

  // ---------------------------------------------------------------- a rename that took effect and failed

  /** Transaction 0 declares layer 5. */
  lemma UsesFive() returns (r: State)
    ensures Reachable(SMALL, START, r)
    ensures r == At0(IMAGES, 12, map[0 := Txn({5}, 0, {}, Idle)], map[], RECORDS)
  {
    hide Reachable, DIRS, RECORDS, IMAGES;
    Starts();
    var s0 := At0(IMAGES, 12, map[], map[], RECORDS);
    Opens(SMALL, START, s0, 0);
    var s1 := Put(s0, 0, Txn({}, 0, {}, Idle));
    Uses(SMALL, START, s1, 0, 5);
    r := Put(s1, 0, s1.txns[0].(layers := s1.txns[0].layers + {5}));
    assert {} + {5} == {5};
    assert r.txns == map[0 := Txn({5}, 0, {}, Idle)];
  }

  /** It commits an image that has the layer, up to the rename of its record. */
  lemma CommitsAgain(id: Digest, img: Image) returns (r: State)
    requires img.layers == [5] && 0 < img.bytes <= 8
    ensures Reachable(SMALL, START, r)
    ensures r == At0(IMAGES, 12 + img.bytes, map[0 := Txn({5}, img.bytes, {}, MovingRecord(id, img))], map[], RECORDS)
  {
    hide Reachable, PinnedBytes, DIRS, RECORDS, LAYERS;
    var s := UsesFive();
    NothingPinned(Tab(s));
    CommitsRoomy(SMALL, START, s, 0, id, img);
    var x := s.txns[0];
    r := Put(s, 0, x.(own := x.own + img.bytes, pc := MovingRecord(id, img))).(accounted := s.accounted + img.bytes);
    assert r.txns == map[0 := Txn({5}, img.bytes, {}, MovingRecord(id, img))];
  }

  /** A rename reports an error after it took effect when the directory cannot be opened to sync it. Commit then
      gives the bytes back and leaves the record, which no image stands for: here the record of image 3 is left
      behind by such a rename, and a later commit evicts image 1 with the layer 5 that both name. */
  lemma RenamedYetFailed() returns (s: State)
    ensures Genuine(SMALL, START) && Reachable(SMALL, START, s)
    ensures Hex(3) in s.disk.records && 3 !in s.images && !RecordsComplete(s.disk)
  {
    hide Reachable, Step, Enabled, Genuine, RecordsComplete;
    Starts();
    var s1 := CommitsAgain(3, THREE);
    RecordMoves(s1, 3, THREE, DoneThenFailed);
    ReachStep(SMALL, START, s1, MoveRecord(0, DoneThenFailed));
    var s2 := Step(SMALL, s1, MoveRecord(0, DoneThenFailed));
    GivesBack(s2);
    ReachStep(SMALL, START, s2, GiveBack(0));
    var s3 := Step(SMALL, s2, GiveBack(0));
    Closes(SMALL, START, s3, 0);
    var s4 := Go(s3, 0, Closed);
    var s5 := EvictsOne(START, s4, 1, 15, ONE);
    s := LayerFollows(START, s5, 1);
    LeftBehind(s.disk, s1.disk.records, THREE);
  }

  lemma RecordMoves(s: State, id: Digest, img: Image, io: IO)
    requires s.mu.Free? && s.txns == map[0 := Txn({5}, img.bytes, {}, MovingRecord(id, img))] && io != Failed
    ensures Enabled(SMALL, s, MoveRecord(0, io))
    ensures Step(SMALL, s, MoveRecord(0, io)) ==
      s.(disk := WithRecord(s.disk, id, img, img.bytes),
         txns := map[0 := Txn({5}, img.bytes, {}, if io == Done then InstallingRecord(id, img)
             else Releasing(img.bytes, None))])
  {
  }

  lemma GivesBack(s: State)
    requires s.mu.Free? && s.txns == map[0 := Txn({5}, 3, {}, Releasing(3, None))]
    ensures Enabled(SMALL, s, GiveBack(0))
    ensures Step(SMALL, s, GiveBack(0)) == s.(accounted := s.accounted - 3, txns := map[0 := Txn({5}, 0, {}, Idle)])
  {
  }

  lemma LeftBehind(disk: Disk, records: map<Name, RecordEntry>, img: Image)
    requires disk.dirs == map[] && 5 in img.layers
    requires disk.records == WithRecord(Disk(disk.dirs, records), 3, img, img.bytes).records - {Hex(1)}
    ensures Hex(3) in disk.records && !RecordsComplete(disk)
  {
    assert 5 in RecordLayers(disk.records[Hex(3)]) && !Complete(disk, 5);
  }

  // ---------------------------------------------------------------- an install after its record

  /** Commit renames the record before it retakes the mutex. Here transaction 0 commits image 1 again and has renamed
      its record; transaction 1 evicts the old image 1, and with it the new file; then transaction 0 installs an image
      that has no record. */
  lemma InstallAfterEviction() returns (s: State)
    ensures Genuine(SMALL, START) && Reachable(SMALL, START, s) && Enabled(SMALL, s, InstallRecord(0))
    ensures ImagesRecorded(s) && !ImagesRecorded(Step(SMALL, s, InstallRecord(0)))
  {
    hide Reachable, Step, Enabled, Genuine, ImagesRecorded;
    Starts();
    var again := Image([5], false, 0, 4);
    var s1 := CommitsAgain(1, again);
    RecordMoves(s1, 1, again, Done);
    ReachStep(SMALL, START, s1, MoveRecord(0, Done));
    var s2 := Step(SMALL, s1, MoveRecord(0, Done));
    var s3 := EvictsOne(START, s2, 1, 6, ONE);
    assert s3.txns[0] == Txn({5}, 4, {}, InstallingRecord(1, again));
    s := InstallsLate(s3, again);
  }

  lemma InstallsLate(s: State, img: Image) returns (r: State)
    requires Reachable(SMALL, START, s) && s.mu == Evicting(1, [5]) && 5 in s.layers && s.images == map[]
    requires s.accounted <= 14 && Hex(1) !in s.disk.records
    requires 0 in s.txns && s.txns[0].pc == InstallingRecord(1, img) && 5 in s.txns[0].layers
    requires 1 in s.txns && s.txns[1].pc == Reserving(RecordJob(2, Image([], false, 0, 6)))
    ensures Reachable(SMALL, START, r) && Enabled(SMALL, r, InstallRecord(0))
    ensures ImagesRecorded(r) && !ImagesRecorded(Step(SMALL, r, InstallRecord(0)))
  {
    hide Reachable, Step, Enabled, Referenced;
    StillDeclared(s);
    Visits(SMALL, START, s, 1, 5);
    var s1 := s.(mu := Evicting(1, []));
    Granted(SMALL, START, s1, 1);
    var x := s1.txns[1];
    r := Put(s1, 1, x.(own := x.own + 6, pc := AfterGrant(x.pc.job))).(mu := Free, accounted := s1.accounted + 6);
    Installs(r, img);
  }

  lemma StillDeclared(s: State)
    requires 0 in s.txns && s.txns[0].pc != Closed && 5 in s.txns[0].layers
    ensures Referenced(Tab(s), 5)
  {
  }

  lemma Installs(s: State, img: Image)
    requires s.mu.Free? && 0 in s.txns && s.txns[0].pc == InstallingRecord(1, img) && Hex(1) !in s.disk.records
    ensures Enabled(SMALL, s, InstallRecord(0)) && !ImagesRecorded(Step(SMALL, s, InstallRecord(0)))
  {
    assert 1 in Step(SMALL, s, InstallRecord(0)).images;
  }

  // ---------------------------------------------------------------- a rewrite past the cap

  /** The record of a touched image is accounted for at whatever size it was rewritten with. */
  lemma TouchPassesCap() returns (s: State)
    ensures Genuine(SMALL, START) && Reachable(SMALL, START, s) && s.txns == map[] && s.accounted > SMALL.max
  {
    hide Reachable, Genuine, Step, Enabled;
    Starts();
    var s1 := TouchesOne();
    MoveEnabled(SMALL, s1, 0, 1, TOUCHED, 30, Done);
    ReachStep(SMALL, START, s1, MoveRewrite(0, 30, Done));
    var s2 := Step(SMALL, s1, MoveRewrite(0, 30, Done));
    Accounted(SMALL, s2, 0, 1, 30);
    ReachStep(SMALL, START, s2, AccountRewrite(0));
    s := Step(SMALL, s2, AccountRewrite(0));
  }

  lemma Accounted(c: Config, s: State, w: WriterId, id: Digest, bytes: nat)
    requires s.mu.Free? && w in s.rewrites && s.rewrites[w] == Renamed(id, bytes) && id in s.images
    ensures Enabled(c, s, AccountRewrite(w))
    ensures var r := Step(c, s, AccountRewrite(w));
            
              && r.accounted == s.accounted + bytes - s.images[id].bytes && r.txns == s.txns && r.mu == s.mu
              && r.layers == s.layers && r.images == s.images[id := s.images[id].(bytes := bytes)]
  {
  }

  // ---------------------------------------------------------------- a pin undone

  /** A pin can be lost: a touch copies the record unpinned, an upgrade pins the image and lands, and then the
      stale copy lands over it. The image is pinned until the store is restarted, and evictable after. */
  lemma PinUndone() returns (s: State)
    ensures Genuine(SMALL, START) && Reachable(SMALL, START, s) && 1 in s.images && s.images[1].pinned
    ensures FoundAs(s.disk, 1, false)
  {
    hide Reachable, Genuine, SweptTables, Opened, Step, Enabled;
    Starts();
    var s1 := TouchesOne();
    var pinned := TOUCHED.(pinned := true);
    Upgrades(s1);
    ReachStep(SMALL, START, s1, Upgrade(1, 1, true));
    var s2 := Step(SMALL, s1, Upgrade(1, 1, true));
    MoveEnabled(SMALL, s2, 1, 1, pinned, 2, Done);
    ReachStep(SMALL, START, s2, MoveRewrite(1, 2, Done));
    var s3 := Step(SMALL, s2, MoveRewrite(1, 2, Done));
    MoveEnabled(SMALL, s3, 0, 1, TOUCHED, 2, Done);
    ReachStep(SMALL, START, s3, MoveRewrite(0, 2, Done));
    s := Step(SMALL, s3, MoveRewrite(0, 2, Done));
    OneRecord(s.disk);
    FoundAsRecorded(s.disk, 1, false);
  }

  lemma Upgrades(s: State)
    requires s.mu.Free? && s.images == map[1 := TOUCHED] && s.rewrites == map[0 := Staged(1, TOUCHED)]
    ensures Enabled(SMALL, s, Upgrade(1, 1, true))
    ensures var pinned := TOUCHED.(pinned := true);
            Step(SMALL, s, Upgrade(1, 1, true))
                == s.(images := map[1 := pinned], rewrites := map[0 := Staged(1, TOUCHED), 1 := Staged(1, pinned)])
  {
  }

  lemma OneRecord(disk: Disk)
    requires disk.dirs == DIRS && disk.records.Keys == {Hex(1)}
    requires disk.records[Hex(1)] == Record(Some(RecordDoc(SCHEMA_VERSION, 1, [5], false, 100)), 2)
    ensures RecordsComplete(disk)
  {
    assert Complete(disk, 5);
  }

  // ---------------------------------------------------------------- a layer no image names

  const FIFTEEN := Config(15, 1, (i: Digest) => [])
  const ORPHAN := Disk(map[Hex(1) := Folder(Some(LayerDoc(1, 1, 4)), Some(6), 0)], map[])
  const ORPHAN_TABLES := Tables(map[1 := 10], map[], 10, {})

  lemma OrphanSwept()
    ensures SweptLayers(ORPHAN.dirs) == map[1 := 10] && KeptDirs(ORPHAN.dirs) == ORPHAN.dirs
    ensures SumMap<Digest>(map[1 := 10]) == 10
  {
    SweptLayerAt(ORPHAN.dirs, 1);
    SumUpdate<Digest>(map[], 1, 10);
    assert map[][1 := 10] == map[1 := 10];
  }

  lemma NoRecordsSwept(known: set<Digest>)
    ensures SweptImages(map[], known) == map[] && KeptRecords(map[], known) == map[] && SumMap(RecordBytes(map[])) == 0
  {
    assert RecordBytes(map[]) == map[];
  }

  lemma OrphanOpens()
    ensures Opened(ORPHAN) == State(map[1 := 10], map[], 10, map[], map[], Free, map[], ORPHAN)
  {
    hide SweptLayers, SweptImages, KeptDirs, KeptRecords, RecordBytes, SumMap, Opened;
    OrphanSwept();
    NoRecordsSwept({1});
    var layers: map<Digest, nat> := map[1 := 10];
    assert layers.Keys == {1};
    OpensAs(ORPHAN.dirs, map[], layers, map[]);
  }

  /** A disk with one layer that no image names, as an aborted ingest leaves it: the store opens, a transaction asks for
      bytes that the cap less the pinned bytes allows, nothing else is in flight, and however it goes on it is refused,
      since the evictor never visits that layer. */
  lemma OrphanStarves() returns (s: State)
    ensures Reachable(FIFTEEN, ORPHAN, s) && s.txns.Keys == {0} && s.txns[0].pc.Reserving? && s.mu.Free?
    ensures s.txns[0].own + Size(s.txns[0].pc.job) <= FIFTEEN.max - PinnedBytes(Tab(s))
    ensures Enabled(FIFTEEN, s, ReserveStart(0))
    ensures forall acts, s2 | WholeReserve(FIFTEEN, s, 0, NO_FAULTS, acts, s2) ::
      0 in s2.txns && s2.txns[0].pc == AfterRefusal(s.txns[0].pc.job)
  {
    hide Reachable, Opened, PinnedBytes, Reserve, WholeReserve;
    OrphanOpens();
    ReachStart(FIFTEEN, ORPHAN);
    var s0, img := Opened(ORPHAN), Image([], false, 0, 10);
    Opens(FIFTEEN, ORPHAN, s0, 0);
    var s1 := Put(s0, 0, Txn({}, 0, {}, Idle));
    NothingPinned(Tab(s1));
    Commits(FIFTEEN, ORPHAN, s1, 0, 2, img, 10);
    assert img.(bytes := 10) == img;
    s := Go(s1, 0, Reserving(RecordJob(2, img)));
    NothingPinned(Tab(s));
    NothingDeclared(s.txns);
    assert Tab(s) == ORPHAN_TABLES;
    OrphanIsNeverReclaimed();
    forall acts, s2 | WholeReserve(FIFTEEN, s, 0, NO_FAULTS, acts, s2)
      ensures 0 in s2.txns && s2.txns[0].pc == AfterRefusal(s.txns[0].pc.job)
    {
      WholeReserveIs(FIFTEEN, s, 0, NO_FAULTS, acts, s2);
    }
  }

  lemma NothingDeclared(txns: map<TxnId, Txn>)
    requires forall t | t in txns :: txns[t].layers == {}
    ensures Held(txns) == {}
  {
  }

  // ---------------------------------------------------------------- a probe that is granted

  const ONE_PINNED := Disk(map[], map[Hex(1) := Record(Some(RecordDoc(1, 1, [], true, 0)), 5)])
  const PINNED_ONE := Image([], true, 0, 5)

  lemma PinnedSwept(known: set<Digest>)
    requires known == {}
    ensures SweptImages(ONE_PINNED.records, known) == map[1 := PINNED_ONE]
    ensures KeptRecords(ONE_PINNED.records, known) == ONE_PINNED.records
    ensures SumMap(RecordBytes(map[1 := PINNED_ONE])) == 5
  {
    SweptImageAt(ONE_PINNED.records, known, 1);
    SumUpdate<Digest>(map[], 1, 5);
    assert RecordBytes(map[1 := PINNED_ONE]) == map[][1 := 5];
  }

  lemma NoDirsSwept()
    ensures SweptLayers(map[]) == map[] && KeptDirs(map[]) == map[] && SumMap<Digest>(map[]) == 0
  {
  }

  lemma PinnedOpens()
    ensures Opened(ONE_PINNED) == State(map[], map[1 := PINNED_ONE], 5, map[], map[], Free, map[], ONE_PINNED)
  {
    hide SweptLayers, SweptImages, KeptDirs, KeptRecords, RecordBytes, SumMap, Opened;
    var layers: map<Digest, nat> := map[];
    PinnedSwept(layers.Keys);
    NoDirsSwept();
    OpensAs(map[], ONE_PINNED.records, layers, map[1 := PINNED_ONE]);
  }

  lemma OnlyPinned(tb: Tables, img: Image)
    requires tb.images == map[1 := img] && img.pinned && img.layers == []
    ensures PinnedBytes(tb) == img.bytes
  {
    assert Pinned(tb.images) == tb.images;
    assert RecordBytes(tb.images) == map[][1 := img.bytes];
    SumUpdate<Digest>(map[], 1, img.bytes);
    assert Only(tb.layers, LayersOf(tb.images)) == map[];
  }

  /** The probe for one byte over the ceiling, made after a write that was too big, can be granted: here the pinned
      record of image 1 is rewritten smaller between the probe's ceiling and its reservation. The bytes are given back,
      and the transaction goes on as after a refusal. */
  lemma ProbeGranted() returns (s: State)
    ensures Reachable(FIFTEEN, ONE_PINNED, s) && 0 in s.txns && s.txns[0].pc == Releasing(11, None)
    ensures After(None) == AfterRefusal(ProbeJob(11, None))
  {
    hide Reachable, Opened, PinnedBytes, Step, Enabled;
    PinnedOpens();
    ReachStart(FIFTEEN, ONE_PINNED);
    var s0, img := Opened(ONE_PINNED), Image([], false, 0, 0);
    Opens(FIFTEEN, ONE_PINNED, s0, 0);
    var s1 := Put(s0, 0, Txn({}, 0, {}, Idle));
    var s2 := CommitBegins(FIFTEEN, ONE_PINNED, s1, 0, 2, img);
    var s3 := CommitReads(FIFTEEN, ONE_PINNED, s2, 0, 2, img);
    OnlyPinned(Tab(s3), PINNED_ONE);
    TooBig(s3);
    ReachStep(FIFTEEN, ONE_PINNED, s3, StageTooBig(0));
    var s4 := Step(FIFTEEN, s3, StageTooBig(0));
    var s5 := RewrittenSmaller(s4);
    OnlyPinned(Tab(s5), s5.images[1]);
    Admitted(FIFTEEN, ONE_PINNED, s5, 0);
    Granted(FIFTEEN, ONE_PINNED, s5.(mu := Evicting(0, [])), 0);
    var x := s5.txns[0];
    s := Put(s5.(mu := Evicting(0, [])), 0, x.(own := x.own + 11, pc := AfterGrant(x.pc.job)))
           .(mu := Free, accounted := s5.accounted + 11);
  }

  lemma TooBig(s: State)
    requires s.mu.Free? && 0 in s.txns && s.txns[0].pc.StagingRecord? && s.txns[0].own == 0
    requires PinnedBytes(Tab(s)) == 5
    ensures Enabled(FIFTEEN, s, StageTooBig(0))
    ensures Step(FIFTEEN, s, StageTooBig(0)) == Go(s, 0, Reserving(ProbeJob(11, None)))
  {
    hide PinnedBytes;
  }

  lemma RewrittenSmaller(s: State) returns (r: State)
    requires Reachable(FIFTEEN, ONE_PINNED, s) && s.mu.Free? && s.rewrites == map[] && s.images == map[1 := PINNED_ONE]
    ensures Reachable(FIFTEEN, ONE_PINNED, r) && r.mu.Free? && r.txns == s.txns && r.layers == s.layers
    ensures r.images == map[1 := Image([], true, 100, 2)] && r.accounted == s.accounted - 3
  {
    hide Reachable, Step, Enabled;
    var touched := PINNED_ONE.(lastUsed := 100);
    TouchIs(FIFTEEN, s, 0, 1, 100);
    ReachStep(FIFTEEN, ONE_PINNED, s, Touch(0, 1, 100));
    var s1 := Step(FIFTEEN, s, Touch(0, 1, 100));
    MoveEnabled(FIFTEEN, s1, 0, 1, touched, 2, Done);
    ReachStep(FIFTEEN, ONE_PINNED, s1, MoveRewrite(0, 2, Done));
    var s2 := Step(FIFTEEN, s1, MoveRewrite(0, 2, Done));
    Accounted(FIFTEEN, s2, 0, 1, 2);
    ReachStep(FIFTEEN, ONE_PINNED, s2, AccountRewrite(0));
    r := Step(FIFTEEN, s2, AccountRewrite(0));
    assert s.images[1 := touched][1 := touched.(bytes := 2)] == map[1 := Image([], true, 100, 2)];
  }
}
