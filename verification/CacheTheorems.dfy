/** The cache store's guarantees over whole runs, and the runs on which the code falls short of its comments. */
module CacheTheorems {
  import opened Options
  import opened Sums
  import opened CacheTables
  import opened CacheDisk
  import opened CacheProtocol
  import opened CacheInvariants
  import opened CacheCrash
  import opened CacheDirs

  // ---------------------------------------------------------------- every interleaving

  /** Whatever the disk held at start-up and however transactions, evictions, touches and upgrades interleave:
      no image lacks a layer, no declared layer is evicted, the accounting is exact, and digest locks exclude. */
  lemma EveryInterleaving(c: Config, disk: Disk, acts: seq<Action>, s: State)
    requires Runs(c, Opened(disk), acts, s)
    ensures forall i, d | i in s.images && d in s.images[i].layers :: d in s.layers
    ensures forall t, d | t in s.txns && s.txns[t].pc != Closed && d in s.txns[t].layers :: d in s.layers
    ensures s.accounted == SumMap(s.layers) + SumMap(RecordBytes(s.images)) + SumMap(Charges(s.txns))
    ensures forall d :: LockOk(s.txns, s.locks, d)
  {
    hide LocksOk, TxnsOk, SweptTables, SweptDisk, Step, Enabled;
    OpenedHolds(disk);
    RunsKeep(c, Opened(disk), acts, s);
    assert forall i, d | i in s.images && d in s.images[i].layers :: d in LayersOf(s.images);
    assert forall t, d | t in s.txns && s.txns[t].pc != Closed && d in s.txns[t].layers :: d in Held(s.txns);
    forall d ensures LockOk(s.txns, s.locks, d) { LockIsOk(s, d); }
  }

  /** A record that is being committed never names an evicted layer: from the membership check in Commit to the
      moment the record is installed, each of its layers is in the table. */
  lemma CommitNamesPresentLayers(c: Config, disk: Disk, acts: seq<Action>, s: State, t: TxnId)
    requires Runs(c, Opened(disk), acts, s) && t in s.txns && Committing(s.txns[t].pc).Some?
    ensures forall d | d in Committing(s.txns[t].pc).value.1.layers :: d in s.layers
  {
    hide Inv, SweptTables, SweptDisk, Step, Enabled;
    OpenedHolds(disk);
    RunsKeep(c, Opened(disk), acts, s);
    CommitPresent(s, t);
  }

  /** The second check for an installed layer, which PutLayer makes before it installs, never finds one. */
  lemma DuplicateBranchUnreachable(c: Config, disk: Disk, acts: seq<Action>, s: State, t: TxnId)
    requires Runs(c, Opened(disk), acts, s) && t in s.txns && s.txns[t].pc.Installing?
    ensures s.txns[t].pc.d !in s.layers
    ensures forall u | u in s.txns && u != t :: Missing(s.txns[u].pc) != Some(s.txns[t].pc.d)
  {
    hide Inv, SweptTables, SweptDisk, Step, Enabled;
    OpenedHolds(disk);
    RunsKeep(c, Opened(disk), acts, s);
    TxnIsOk(s, t);
    forall u | u in s.txns && u != t ensures Missing(s.txns[u].pc) != Some(s.txns[t].pc.d) {
      OneWriter(s, t, u, s.txns[t].pc.d);
    }
  }

  // ---------------------------------------------------------------- crashes

  /** From any disk at all: every record on disk is complete at every crash point of a run exactly when every step of
      the run is safe, which orderly runs from genuine records are. At a crash point, the next start discards no image
      record exactly when they are complete, and always finds each layer of the table again with the size it was
      accounted at. */
  lemma NoCrashLosesARecord(c: Config, disk: Disk, acts: seq<Action>, s: State)
    requires Runs(c, Opened(disk), acts, s)
    ensures CompleteThroughout(c, Opened(disk), acts) <==> SafeRun(c, Opened(disk), acts)
    ensures Genuine(c, disk) && OrderlyRun(c, Opened(disk), acts) ==> SafeRun(c, Opened(disk), acts)
    ensures SweptDisk(s.disk).records == s.disk.records <==> RecordsComplete(s.disk)
    ensures forall d | d in s.layers ::
      d in SweptTables(s.disk).layers && SweptTables(s.disk).layers[d] == s.layers[d]
  {
    hide Inv, DiskInv, DirsInv, Step, Enabled, Orderly, Safe, Genuine, SweptDisk, RecordsComplete, Opened;
    OpenedHolds(disk);
    OpenedDirs(disk);
    OpenedComplete(disk);
    RunsKeepComplete(c, Opened(disk), acts, s);
    RunsKeepDirs(c, Opened(disk), acts, s);
    SweepKeepsAll(s.disk);
    LayersFound(s);
    if Genuine(c, disk) && OrderlyRun(c, Opened(disk), acts) {
      OpenedDisk(c, disk);
      RunsKeepDisk(c, Opened(disk), acts, s);
    }
  }

  lemma OpenedComplete(disk: Disk)
    ensures RecordsComplete(Opened(disk).disk)
  {
    hide RecordsComplete, SweptDisk, SweptTables;
    SweepRestoresInvariants(disk);
  }

  lemma LayersFound(s: State)
    requires DirsInv(s)
    ensures forall d | d in s.layers ::
      d in SweptTables(s.disk).layers && SweptTables(s.disk).layers[d] == s.layers[d]
  {
  }

  /** Each image in the table has its record on disk. */
  ghost predicate ImagesRecorded(s: State) {
    forall i | i in s.images :: Hex(i) in s.disk.records
  }

  /** A step keeps that, except exactly the install of a record whose file is gone again: Commit renames the record
      before it retakes the mutex, and evicting an older image of the same id in between removes the new file. */
  lemma RecordedUnlessEvictedBetween(c: Config, s: State, a: Action)
    requires ImagesRecorded(s) && Enabled(c, s, a)
    ensures ImagesRecorded(Step(c, s, a)) <==> (a.InstallRecord? ==> Hex(s.txns[a.t].pc.id) in s.disk.records)
  {
    hide Step, ImagesRecorded, Enabled, Aloof;
    match a
    case InstallRecord(t) => RecordedInstall(c, s, t);
    case ReserveStep(t, ok) => RecordedReserve(c, s, t, ok);
    case CommitStart(_, _, _) | MoveRecord(_, _) => RecordedCommit(c, s, a);
    case Touch(_, _, _) | Upgrade(_, _, _) | MoveRewrite(_, _, _) | AccountRewrite(_) => RecordedRewrite(c, s, a);
    case _ =>
      StepAloof(c, s, a);
      AloofRecorded(s, Step(c, s, a));
  }

  lemma AloofRecorded(s: State, s2: State)
    requires ImagesRecorded(s) && Aloof(s, s2)
    ensures ImagesRecorded(s2)
  {
  }

  lemma RecordedInstall(c: Config, s: State, t: TxnId)
    requires ImagesRecorded(s) && Enabled(c, s, InstallRecord(t))
    ensures ImagesRecorded(Step(c, s, InstallRecord(t))) <==> Hex(s.txns[t].pc.id) in s.disk.records
  {
    hide StageStep, LayerStep, RewriteStep, ReserveOnce;
    assert s.txns[t].pc.id in Step(c, s, InstallRecord(t)).images;
  }

  lemma RecordedReserve(c: Config, s: State, t: TxnId, ok: bool)
    requires ImagesRecorded(s) && Enabled(c, s, ReserveStep(t, ok))
    ensures ImagesRecorded(Step(c, s, ReserveStep(t, ok)))
  {
    hide Step, Drops;
    if s.mu.pending != [] { VisitIs(c, s, t, ok); } else { RoundCalm(c, s, t, ok); }
  }

  lemma RecordedCommit(c: Config, s: State, a: Action)
    requires ImagesRecorded(s) && Enabled(c, s, a) && (a.CommitStart? || a.MoveRecord?)
    ensures ImagesRecorded(Step(c, s, a))
  {
    hide StageStep, LayerStep, RewriteStep, ReserveOnce;
    GrownRecorded(s, Step(c, s, a));
  }

  lemma RecordedRewrite(c: Config, s: State, a: Action)
    requires ImagesRecorded(s) && Enabled(c, s, a) && (a.Touch? || a.Upgrade? || a.MoveRewrite? || a.AccountRewrite?)
    ensures ImagesRecorded(Step(c, s, a))
  {
    hide StageStep, LayerStep, CommitStep, ReserveOnce;
    GrownRecorded(s, Step(c, s, a));
  }

  lemma GrownRecorded(s: State, s2: State)
    requires ImagesRecorded(s) && s2.images.Keys == s.images.Keys && s.disk.records.Keys <= s2.disk.records.Keys
    ensures ImagesRecorded(s2)
  {
  }

  /** No install of the run finds its record gone. */
  ghost predicate InstallsFindRecords(c: Config, s: State, acts: seq<Action>)
    decreases |acts|
  {
    acts == []
    || (&& Enabled(c, s, acts[0]) && (acts[0].InstallRecord? ==> Hex(s.txns[acts[0].t].pc.id) in s.disk.records)
        && InstallsFindRecords(c, Step(c, s, acts[0]), acts[1..]))
  }

  /** In every state the run goes through, each image has its record on disk. */
  ghost predicate RecordedThroughout(c: Config, s: State, acts: seq<Action>)
    decreases |acts|
  {
    ImagesRecorded(s) && (acts == []
        || (Enabled(c, s, acts[0]) && RecordedThroughout(c, Step(c, s, acts[0]), acts[1..])))
  }

  lemma {:induction false} RunsKeepRecords(c: Config, s: State, acts: seq<Action>, s2: State)
    requires ImagesRecorded(s) && Runs(c, s, acts, s2)
    ensures RecordedThroughout(c, s, acts) <==> InstallsFindRecords(c, s, acts)
    ensures InstallsFindRecords(c, s, acts) ==> ImagesRecorded(s2)
    decreases |acts|
  {
    hide Step, Enabled, ImagesRecorded;
    if acts != [] {
      RecordedUnlessEvictedBetween(c, s, acts[0]);
      if ImagesRecorded(Step(c, s, acts[0])) {
        RunsKeepRecords(c, Step(c, s, acts[0]), acts[1..], s2);
      }
    }
  }

  lemma OpenedRecorded(disk: Disk)
    ensures ImagesRecorded(Opened(disk))
  {
    var known := SweptLayers(disk.dirs).Keys;
    forall i | i in Opened(disk).images ensures Hex(i) in Opened(disk).disk.records {
      SweptImageAt(disk.records, known, i);
    }
  }

  /** A restart finds each image of the table again, with the same layers. */
  ghost predicate ImagesFound(s: State) {
    forall i | i in s.images ::
        i in SweptTables(s.disk).images && SweptTables(s.disk).images[i].layers == s.images[i].layers
  }

  ghost predicate RecordedAs(disk: Disk, i: Digest, layers: seq<Digest>) {
    && Hex(i) in disk.records && ReadableRecord(Hex(i), disk.records[Hex(i)])
    && RecordLayers(disk.records[Hex(i)]) == layers
  }

  /** In every run from any disk: each image has its record on disk throughout exactly when no install finds its record
      gone; and a restart finds each image again exactly when its record is there and names the same layers. So where
      records and commits name the layers their ids determine, it does exactly when the record is there. */
  lemma RestartKeepsImages(c: Config, disk: Disk, acts: seq<Action>, s: State)
    requires Runs(c, Opened(disk), acts, s)
    ensures RecordedThroughout(c, Opened(disk), acts) <==> InstallsFindRecords(c, Opened(disk), acts)
    ensures ImagesFound(s) <==> forall i | i in s.images :: RecordedAs(s.disk, i, s.images[i].layers)
    ensures Genuine(c, disk) && RootedRun(c, acts) ==> (ImagesFound(s) <==> ImagesRecorded(s))
  {
    hide Inv, DirsInv, RootInv, Step, Enabled, Rooted, Genuine, ImagesRecorded, SweptTables, Opened, RecordedAs;
    OpenedRecorded(disk);
    RunsKeepRecords(c, Opened(disk), acts, s);
    OpenedHolds(disk);
    OpenedDirs(disk);
    RunsKeepDirs(c, Opened(disk), acts, s);
    forall i | i in s.images
      ensures i in SweptTables(s.disk).images && SweptTables(s.disk).images[i].layers == s.images[i].layers
              <==> RecordedAs(s.disk, i, s.images[i].layers)
    {
      ImageFoundIff(s, i);
    }
    if Genuine(c, disk) && RootedRun(c, acts) {
      OpenedRecords(c, disk);
      RunsKeepRoots(c, Opened(disk), acts, s);
      RootedAreRecorded(c, s);
    }
  }

  lemma ImageFoundIff(s: State, i: Digest)
    requires Inv(s) && DirsInv(s) && i in s.images
    ensures i in SweptTables(s.disk).images && SweptTables(s.disk).images[i].layers == s.images[i].layers
            <==> RecordedAs(s.disk, i, s.images[i].layers)
  {
    hide Inv, DirsInv, Complete;
    ImagePresent(s, i);
    TableComplete(s);
    SweepKeepsExactly(s.disk, i);
    SweptImageAt(s.disk.records, SweptLayers(s.disk.dirs).Keys, i);
  }

  lemma RootedAreRecorded(c: Config, s: State)
    requires RootInv(c, s)
    ensures ImagesRecorded(s) <==> forall i | i in s.images :: RecordedAs(s.disk, i, s.images[i].layers)
  {
    hide CommitsRooted, RewritesRooted, ReadableRecord, RecordLayers;
    forall i | i in s.images ensures Hex(i) in s.disk.records <==> RecordedAs(s.disk, i, s.images[i].layers) {}
  }

  // ---------------------------------------------------------------- reservations

  /** t holds the mutex and is evicting. */
  ghost predicate InReserve(s: State, t: TxnId) {
    s.mu.Evicting? && s.mu.t == t && t in s.txns && s.txns[t].pc.Reserving?
  }

  /** How the next file removal of the reservation ends, given the removals that fail. */
  ghost predicate Removes(s: State, f: Faults)
    requires s.mu.Evicting?
  {
    if s.mu.pending != [] then s.mu.pending[0] !in f.dirs else forall v | IsVictim(s.images, v) :: v !in f.records
  }

  /** From s, where t holds the mutex, the steps of acts lead to s2, where t has just let go of it. Steps of other
      transactions and of rewrites come in between as they may; t's file removals fail as f says. */
  ghost predicate ReserveRun(c: Config, s: State, t: TxnId, f: Faults, acts: seq<Action>, s2: State)
    requires InReserve(s, t)
    decreases |acts|
  {
    && acts != [] && Enabled(c, s, acts[0])
    && (acts[0].ReserveStep? ==> (acts[0].ok <==> Removes(s, f)))
    && var s1 := Step(c, s, acts[0]);
       if InReserve(s1, t) then ReserveRun(c, s1, t, f, acts[1..], s2) else acts[1..] == [] && s2 == s1
  }

  // ---------------------------------------------------------------- what the mutex shields

  /** u, not t, moves on, and the tables stay. */
  ghost predicate Aside(s: State, s2: State, t: TxnId) {
    && s2.layers == s.layers && s2.images == s.images && s2.accounted == s.accounted && s2.mu == s.mu
    && (s2.txns == s.txns || exists u :: u != t && u in s.txns && MovesOn(s.txns, s2.txns, u))
  }

  ghost predicate MovesOn(txns: map<TxnId, Txn>, txns2: map<TxnId, Txn>, u: TxnId)
    requires u in txns
  {
    && u in txns2 && txns2 == txns[u := txns2[u]]
    && txns2[u].layers == txns[u].layers && !txns2[u].pc.Closed? && !txns[u].pc.Closed?
  }

  lemma StageAside(c: Config, s: State, a: Action, t: TxnId)
    requires InReserve(s, t) && Enabled(c, s, a) && (a.Acquire? || a.Stage? || a.StageFails?)
    ensures Aside(s, Step(c, s, a), t)
  {
    hide LayerStep, CommitStep, RewriteStep, ReserveOnce, Aside, MovesOn;
    GoAside(s, Step(c, s, a), t, a.t);
  }

  lemma LayerAside(c: Config, s: State, a: Action, t: TxnId)
    requires InReserve(s, t) && Enabled(c, s, a) && (a.MakeDir? || a.MoveIndex? || a.MoveDoc? || a.Unlock?)
    ensures Aside(s, Step(c, s, a), t)
  {
    hide Step, Enabled, Aside;
    if a.MakeDir? { MakeDirAside(c, s, a.t, a.io, t); }
    else if a.MoveIndex? { MoveIndexAside(c, s, a.t, a.io, t); }
    else if a.MoveDoc? { MoveDocAside(c, s, a.t, a.io, t); }
    else { UnlockAside(c, s, a.t, t); }
  }

  lemma MakeDirAside(c: Config, s: State, u: TxnId, io: IO, t: TxnId)
    requires InReserve(s, t) && Enabled(c, s, MakeDir(u, io))
    ensures Aside(s, Step(c, s, MakeDir(u, io)), t)
  {
    hide StageStep, CommitStep, RewriteStep, ReserveOnce, WithDir, Aside;
    GoAside(s, Step(c, s, MakeDir(u, io)), t, u);
  }

  lemma MoveIndexAside(c: Config, s: State, u: TxnId, io: IO, t: TxnId)
    requires InReserve(s, t) && Enabled(c, s, MoveIndex(u, io))
    ensures Aside(s, Step(c, s, MoveIndex(u, io)), t)
  {
    hide StageStep, CommitStep, RewriteStep, ReserveOnce, WithIndex, Aside;
    GoAside(s, Step(c, s, MoveIndex(u, io)), t, u);
  }

  lemma MoveDocAside(c: Config, s: State, u: TxnId, io: IO, t: TxnId)
    requires InReserve(s, t) && Enabled(c, s, MoveDoc(u, io))
    ensures Aside(s, Step(c, s, MoveDoc(u, io)), t)
  {
    hide StageStep, CommitStep, RewriteStep, ReserveOnce, WithDoc, Aside;
    GoAside(s, Step(c, s, MoveDoc(u, io)), t, u);
  }

  lemma UnlockAside(c: Config, s: State, u: TxnId, t: TxnId)
    requires InReserve(s, t) && Enabled(c, s, Unlock(u))
    ensures Aside(s, Step(c, s, Unlock(u)), t)
  {
    hide StageStep, CommitStep, RewriteStep, ReserveOnce, Aside;
    GoAside(s, Step(c, s, Unlock(u)), t, u);
  }

  lemma GoAside(s: State, s2: State, t: TxnId, u: TxnId)
    requires u != t && u in s.txns && u in s2.txns && s2.txns == s.txns[u := s.txns[u].(pc := s2.txns[u].pc)]
    requires s2.layers == s.layers && s2.images == s.images && s2.accounted == s.accounted && s2.mu == s.mu
    requires !s2.txns[u].pc.Closed? && !s.txns[u].pc.Closed?
    ensures Aside(s, s2, t)
  {
    assert MovesOn(s.txns, s2.txns, u);
  }

  lemma CommitAside(c: Config, s: State, a: Action, t: TxnId)
    requires InReserve(s, t) && Enabled(c, s, a) && (a.CommitStart? || a.StageRecord? || a.MoveRecord? || a.Abort?)
    ensures Aside(s, Step(c, s, a), t)
  {
    hide StageStep, LayerStep, RewriteStep, ReserveOnce, WithRecord, Aside, MovesOn;
    GoAside(s, Step(c, s, a), t, a.t);
  }

  lemma RewriteAside(c: Config, s: State, a: Action, t: TxnId)
    requires InReserve(s, t) && Enabled(c, s, a) && a.MoveRewrite?
    ensures Aside(s, Step(c, s, a), t)
  {
    hide StageStep, LayerStep, CommitStep, ReserveOnce, WithRecord;
  }

  lemma OthersEnabled(c: Config, s: State, a: Action)
    requires s.mu.Evicting? && Enabled(c, s, a) && !a.ReserveStep?
    ensures || (a.Acquire? || a.Stage? || a.StageFails?)
            || (a.MakeDir? || a.MoveIndex? || a.MoveDoc? || a.Unlock?)
            || (a.CommitStart? || a.StageRecord? || a.MoveRecord? || a.Abort?)
            || a.MoveRewrite?
  {
  }

  /** While t holds the mutex, no step of another changes the tables, the mutex, or t itself. */
  lemma MutexShields(c: Config, s: State, a: Action, t: TxnId)
    requires InReserve(s, t) && Enabled(c, s, a) && !a.ReserveStep?
    ensures var s2 := Step(c, s, a);
            InReserve(s2, t) && s2.mu == s.mu && Tab(s2) == Tab(s) && s2.txns[t] == s.txns[t]
  {
    hide Step, Enabled;
    var s2 := Step(c, s, a);
    OthersEnabled(c, s, a);
    if a.Acquire? || a.Stage? || a.StageFails? { StageAside(c, s, a, t); }
    else if a.MakeDir? || a.MoveIndex? || a.MoveDoc? || a.Unlock? { LayerAside(c, s, a, t); }
    else if a.MoveRewrite? { RewriteAside(c, s, a, t); }
    else { CommitAside(c, s, a, t); }
    if s2.txns != s.txns {
      var u :| u != t && u in s.txns && MovesOn(s.txns, s2.txns, u);
      HeldMove(s.txns, u, s2.txns[u], {});
    }
  }

  // ---------------------------------------------------------------- a reservation from hold to release

  /** Where a reservation ends when MakeRoom ends in r. */
  ghost predicate Ends(x: Txn, r: Tables, max: int, t: TxnId, s2: State)
    requires x.pc.Reserving?
  {
    var job := x.pc.job;
    && s2.mu.Free? && t in s2.txns
    && if r.accounted + Size(job) <= max then
         && Tab(s2) == r.(accounted := r.accounted + Size(job))
         && s2.txns[t].pc == AfterGrant(job) && s2.txns[t].own == x.own + Size(job)
       else
         Tab(s2) == r && s2.txns[t].pc == AfterRefusal(job) && s2.txns[t].own == x.own
  }

  /** What is left of MakeRoom in the middle of a reservation. */
  ghost function RoomLeft(c: Config, s: State, t: TxnId, f: Faults): Tables
    requires InReserve(s, t)
  {
    MakeRoom(DropLayers(Tab(s), s.mu.pending, f.dirs), Size(s.txns[t].pc.job), c.max, f)
  }

  lemma DropRefines(c: Config, s: State, t: TxnId, f: Faults)
    requires InReserve(s, t) && s.mu.pending != []
    ensures var s2 := ReserveOnce(c, s, t, Removes(s, f));
            && InReserve(s2, t) && s2.txns == s.txns && s2.images == s.images && s2.mu.pending == s.mu.pending[1..]
            && RoomLeft(c, s2, t, f) == RoomLeft(c, s, t, f)
  {
    hide MakeRoom, Referenced, Size;
    var s2 := ReserveOnce(c, s, t, Removes(s, f));
    assert Tab(s2) == DropLayer(Tab(s), s.mu.pending[0], f.dirs);
  }

  lemma EvictRefines(c: Config, s: State, t: TxnId, f: Faults)
    requires InReserve(s, t) && s.mu.pending == []
    requires s.accounted + Size(s.txns[t].pc.job) > c.max && CanEvict(Tab(s), f)
    ensures var s2 := ReserveOnce(c, s, t, Removes(s, f));
            && InReserve(s2, t) && s2.txns == s.txns && |s2.images| < |s.images|
            && RoomLeft(c, s2, t, f) == RoomLeft(c, s, t, f)
  {
    hide Held, Size, Before;
    var v := TheVictim(Tab(s), f);
    var s2 := ReserveOnce(c, s, t, Removes(s, f));
    assert s2 == s.(mu := Evicting(t, s.images[v].layers), images := s.images - {v},
                    accounted := s.accounted - s.images[v].bytes, disk := s2.disk);
    OneFewer(s.images, v);
    RoomOnce(Tab(s), Size(s.txns[t].pc.job), c.max, f, v);
  }

  lemma TheVictim(tb: Tables, f: Faults) returns (v: Digest)
    requires CanEvict(tb, f)
    ensures IsVictim(tb.images, v) && v in tb.images && v !in f.records
    ensures forall w | IsVictim(tb.images, w) :: w == v
  {
    v :| IsVictim(tb.images, v) && v !in f.records;
    forall w | IsVictim(tb.images, w) ensures w == v { VictimUnique(tb.images, v, w); }
  }

  lemma RoomOnce(tb: Tables, n: int, max: int, f: Faults, v: Digest)
    requires tb.accounted + n > max && CanEvict(tb, f) && IsVictim(tb.images, v)
    ensures MakeRoom(tb, n, max, f) == MakeRoom(DropLayers(RemoveImage(tb, v), tb.images[v].layers, f.dirs), n, max, f)
  {
    hide DropLayers, RemoveImage;
    var w := RoomAfter(tb, n, max, f);
    VictimUnique(tb.images, v, w);
  }

  lemma OneFewer(images: map<Digest, Image>, v: Digest)
    requires v in images
    ensures |images - {v}| < |images|
  {
  }

  lemma StopEnds(c: Config, s: State, t: TxnId, f: Faults)
    requires InReserve(s, t) && s.mu.pending == []
    requires s.accounted + Size(s.txns[t].pc.job) <= c.max || !CanEvict(Tab(s), f)
    ensures var s2 := ReserveOnce(c, s, t, Removes(s, f));
            !InReserve(s2, t) && Ends(s.txns[t], RoomLeft(c, s, t, f), c.max, t, s2)
  {
    hide Held, Size, Before, AfterGrant, AfterRefusal;
    var s2 := ReserveOnce(c, s, t, Removes(s, f));
    AfterOpen(s.txns[t].pc.job);
    HeldMove(s.txns, t, s2.txns[t], {});
  }

  lemma AfterOpen(job: Job)
    ensures !AfterGrant(job).Closed? && !AfterRefusal(job).Closed?
    ensures !AfterGrant(job).Reserving? && !AfterRefusal(job).Reserving?
  {
  }

  /** Whatever others do meanwhile and whichever removals fail, the steps of a reservation taken together do what the
      budget rule says. */
  lemma {:induction false} ReserveStepsAre(c: Config, s: State, t: TxnId, f: Faults, acts: seq<Action>, s2: State)
    requires InReserve(s, t) && ReserveRun(c, s, t, f, acts, s2)
    ensures Ends(s.txns[t], RoomLeft(c, s, t, f), c.max, t, s2)
    decreases |acts|
  {
    hide Ends, RoomLeft, ReserveOnce, StageStep, LayerStep, CommitStep, RewriteStep, Removes, Size;
    var s1 := Step(c, s, acts[0]);
    if !acts[0].ReserveStep? {
      MutexShields(c, s, acts[0], t);
      RoomSame(c, s, s1, t, f);
      ReserveStepsAre(c, s1, t, f, acts[1..], s2);
    } else if s.mu.pending != [] {
      DropRefines(c, s, t, f);
      ReserveStepsAre(c, s1, t, f, acts[1..], s2);
    } else if s.accounted + Size(s.txns[t].pc.job) <= c.max || !CanEvict(Tab(s), f) {
      StopEnds(c, s, t, f);
    } else {
      EvictRefines(c, s, t, f);
      ReserveStepsAre(c, s1, t, f, acts[1..], s2);
    }
  }

  lemma RoomSame(c: Config, s: State, s2: State, t: TxnId, f: Faults)
    requires InReserve(s, t) && InReserve(s2, t) && s2.mu == s.mu && Tab(s2) == Tab(s) && s2.txns[t] == s.txns[t]
    ensures RoomLeft(c, s2, t, f) == RoomLeft(c, s, t, f)
  {
    hide Tab;
  }

  /** A reservation can always be brought to its end. */
  lemma {:induction false} ReserveCanEnd(c: Config, s: State, t: TxnId, f: Faults)
    returns (acts: seq<Action>, s2: State)
    requires InReserve(s, t)
    ensures ReserveRun(c, s, t, f, acts, s2)
    decreases |s.images|, |s.mu.pending|
  {
    hide ReserveOnce, StageStep, LayerStep, CommitStep, RewriteStep, Removes, RoomLeft, Size;
    var a := ReserveStep(t, Removes(s, f));
    var s1 := Step(c, s, a);
    if s.mu.pending != [] {
      DropRefines(c, s, t, f);
    } else if s.accounted + Size(s.txns[t].pc.job) <= c.max || !CanEvict(Tab(s), f) {
      StopEnds(c, s, t, f);
    } else {
      EvictRefines(c, s, t, f);
    }
    if InReserve(s1, t) {
      acts, s2 := ReserveCanEnd(c, s1, t, f);
      assert ([a] + acts)[1..] == acts;
      acts := [a] + acts;
    } else {
      acts, s2 := [a], s1;
    }
  }

  /** A reservation from its first lock hold to its last, with others in between. */
  ghost predicate WholeReserve(c: Config, s: State, t: TxnId, f: Faults, acts: seq<Action>, s2: State)
    requires Enabled(c, s, ReserveStart(t))
  {
    var s1 := Step(c, s, ReserveStart(t));
    if InReserve(s1, t) then ReserveRun(c, s1, t, f, acts, s2) else acts == [] && s2 == s1
  }

  lemma FirstTest(c: Config, s: State, t: TxnId)
    requires Enabled(c, s, ReserveStart(t)) && Size(s.txns[t].pc.job) > 0
    ensures var job := s.txns[t].pc.job;
            Step(c, s, ReserveStart(t))
            == if s.txns[t].own + Size(job) > c.max - PinnedBytes(Tab(s)) then Go(s, t, AfterRefusal(job))
               else s.(mu := Evicting(t, []))
  {
    hide PinnedBytes, AfterGrant, AfterRefusal, LayerStep, CommitStep, RewriteStep, ReserveOnce, Held, Size;
  }

  lemma WholeReserveIs(c: Config, s: State, t: TxnId, f: Faults, acts: seq<Action>, s2: State)
    requires Enabled(c, s, ReserveStart(t)) && Size(s.txns[t].pc.job) > 0 && WholeReserve(c, s, t, f, acts, s2)
    ensures var job := s.txns[t].pc.job;
            var (ok, r) := Reserve(Tab(s), s.txns[t].own, Size(job), c.max, f);
            t in s2.txns && Tab(s2) == r && s2.txns[t].pc == (if ok then AfterGrant(job) else AfterRefusal(job))
  {
    hide PinnedBytes, MakeRoom, AfterGrant, AfterRefusal, Step, ReserveRun, Held, Size;
    var s1 := Step(c, s, ReserveStart(t));
    AfterOpen(s.txns[t].pc.job);
    FirstTest(c, s, t);
    if InReserve(s1, t) {
      assert s1 == s.(mu := Evicting(t, [])) && Tab(s1) == Tab(s);
      ReserveStepsAre(c, s1, t, f, acts, s2);
    } else {
      HeldMove(s.txns, t, s1.txns[t], {});
    }
  }

  /** No other transaction is open, each layer is named by an image or was written by t, and each layer t declared
      was written by t or is named by a pinned image. */
  ghost predicate OnlyOpen(s: State, t: TxnId) {
    && t in s.txns && (forall u | u in s.txns && u != t :: s.txns[u].pc.Closed?)
    && (forall d | d in s.layers :: d in LayersOf(s.images) || d in s.txns[t].written)
    && (forall d | d in s.txns[t].layers :: d in s.txns[t].written || d in LayersOf(Pinned(s.images)))
  }

  /** In any run, the only open transaction is refused exactly when what it holds and asks for exceeds the cap less
      the pinned bytes, whatever rewrites come in between: no cache is thrashed for an image that cannot fit, and none
      that fits is refused. */
  lemma RefusalExactInRuns(c: Config, disk: Disk, acts: seq<Action>, s: State, t: TxnId, more: seq<Action>, s2: State)
    requires Runs(c, Opened(disk), acts, s) && OnlyOpen(s, t)
    requires s.mu.Free? && s.txns[t].pc.Reserving? && Size(s.txns[t].pc.job) > 0
    requires Enabled(c, s, ReserveStart(t)) && WholeReserve(c, s, t, NO_FAULTS, more, s2)
    ensures var job := s.txns[t].pc.job;
            var fits := s.txns[t].own + Size(job) <= c.max - PinnedBytes(Tab(s));
            && t in s2.txns && s2.txns[t].pc == (if fits then AfterGrant(job) else AfterRefusal(job))
            && (!fits ==> Tab(s2) == Tab(s))
  {
    hide Inv, Opened, WholeReserve, PinnedBytes, Step, Enabled, Alone, MakeRoom;
    OpenedHolds(disk);
    RunsKeep(c, Opened(disk), acts, s);
    OnlyOpenAlone(s, t);
    WholeReserveIs(c, s, t, NO_FAULTS, more, s2);
    RefusalExactAlone(Tab(s), s.txns[t].written, s.txns[t].own, Size(s.txns[t].pc.job), c.max);
  }

  lemma OnlyOpenAlone(s: State, t: TxnId)
    requires Inv(s) && OnlyOpen(s, t) && s.txns[t].pc.Reserving?
    ensures Alone(Tab(s), s.txns[t].written, s.txns[t].own)
  {
    hide LocksOk;
    TxnIsOk(s, t);
    SumZero(Charges(s.txns));
    assert Held(s.txns) <= s.txns[t].layers;
  }
}
