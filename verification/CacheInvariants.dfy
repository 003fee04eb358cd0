/** What every step of the cache protocol keeps, and so every interleaving of any number of transactions,
    evictions, touches and upgrades. */
module CacheInvariants {
  import opened Options
  import opened Sums
  import opened CacheTables
  import opened CacheDisk
  import opened CacheProtocol

  ghost function Charges(txns: map<TxnId, Txn>): map<TxnId, int> {
    map t | t in txns :: Outstanding(txns[t].pc)
  }

  /** The accounted bytes are those of all layers, all image records, and all reservations not yet installed or
      released. */
  ghost predicate Accounts(s: State) {
    s.accounted == Retained(Tab(s)) + SumMap(Charges(s.txns))
  }

  ghost predicate TxnOk(layers: map<Digest, nat>, x: Txn) {
    && (Missing(x.pc).Some? ==> Missing(x.pc).value !in layers)
    && (Committing(x.pc).Some? ==> forall d | d in Committing(x.pc).value.1.layers :: d in x.layers)
    && (!x.pc.Closed? ==> x.written <= x.layers)
    && (!x.pc.Closing? && !x.pc.Closed? ==> x.own == SumMap(Only(layers, x.written)) + Outstanding(x.pc))
  }

  ghost predicate TxnsOk(s: State) {
    forall t | t in s.txns :: TxnOk(s.layers, s.txns[t])
  }

  ghost function InSection(txns: map<TxnId, Txn>, d: Digest): set<TxnId> {
    set t | t in txns && Section(txns[t].pc) == Some(d)
  }

  ghost function Holding(txns: map<TxnId, Txn>, d: Digest): set<TxnId> {
    set t | t in txns && Holds(txns[t].pc) == Some(d)
  }

  /** The lock table has an entry for a digest exactly while a transaction holds or awaits its lock, counts them,
      and at most one holds it. */
  ghost predicate LockOk(txns: map<TxnId, Txn>, locks: map<Digest, LayerLock>, d: Digest) {
    && (d in locks <==> InSection(txns, d) != {})
    && (d in locks ==> locks[d].waiters == |InSection(txns, d)|)
    && (d in locks ==> (locks[d].held <==> Holding(txns, d) != {}))
    && |Holding(txns, d)| <= 1
  }

  ghost predicate LocksOk(txns: map<TxnId, Txn>, locks: map<Digest, LayerLock>) {
    forall d :: LockOk(txns, locks, d)
  }

  ghost predicate MutexOk(s: State) {
    s.mu.Evicting? ==> s.mu.t in s.txns && s.txns[s.mu.t].pc.Reserving? && Size(s.txns[s.mu.t].pc.job) > 0
  }

  ghost predicate Inv(s: State) {
    Intact(Tab(s)) && Accounts(s) && TxnsOk(s) && LocksOk(s.txns, s.locks) && MutexOk(s)
  }

  // ---------------------------------------------------------------- parts

  lemma HoldsIsSection(pc: PC)
    ensures Holds(pc).Some? ==> Section(pc) == Holds(pc)
    ensures Missing(pc).Some? ==> Holds(pc) == Missing(pc)
  {
  }

  lemma ChargeMove(txns: map<TxnId, Txn>, t: TxnId, x: Txn)
    ensures SumMap(Charges(txns[t := x]))
        == SumMap(Charges(txns)) + Outstanding(x.pc) - (if t in txns then Outstanding(txns[t].pc) else 0)
  {
    assert Charges(txns[t := x]) == Charges(txns)[t := Outstanding(x.pc)];
    SumUpdate(Charges(txns), t, Outstanding(x.pc));
  }

  lemma HeldMove(txns: map<TxnId, Txn>, t: TxnId, x: Txn, more: set<Digest>)
    requires t in txns ==> x.layers == txns[t].layers + more && (txns[t].pc.Closed? <==> x.pc.Closed?)
    requires t !in txns ==> x.layers == more && !x.pc.Closed?
    ensures Held(txns[t := x]) == Held(txns) + (if x.pc.Closed? then {} else more)
  {
    var h := Held(txns[t := x]);
    forall d | d in h ensures d in Held(txns) + (if x.pc.Closed? then {} else more) {
      var u :| u in txns[t := x] && txns[t := x][u].pc != Closed && d in txns[t := x][u].layers;
    }
    forall d | d in Held(txns) ensures d in h {
      var u :| u in txns && txns[u].pc != Closed && d in txns[u].layers;
      assert u in txns[t := x] && d in txns[t := x][u].layers;
    }
    if !x.pc.Closed? {
      assert t in txns[t := x] && txns[t := x][t] == x;
    }
  }

  lemma SectionMove(txns: map<TxnId, Txn>, t: TxnId, x: Txn, d: Digest)
    ensures InSection(txns[t := x], d)
        == (if Section(x.pc) == Some(d) then InSection(txns, d) + {t} else InSection(txns, d) - {t})
    ensures Holding(txns[t := x], d)
        == (if Holds(x.pc) == Some(d) then Holding(txns, d) + {t} else Holding(txns, d) - {t})
  {
  }

  lemma LocksSame(txns: map<TxnId, Txn>, locks: map<Digest, LayerLock>, t: TxnId, x: Txn)
    requires LocksOk(txns, locks)
    requires t in txns ==> Section(x.pc) == Section(txns[t].pc) && Holds(x.pc) == Holds(txns[t].pc)
    requires t !in txns ==> Section(x.pc).None? && Holds(x.pc).None?
    ensures LocksOk(txns[t := x], locks)
  {
    var after := txns[t := x];
    forall d ensures LockOk(after, locks, d) {
      LockSame(txns, locks, t, x, d);
    }
  }

  lemma LockSame(txns: map<TxnId, Txn>, locks: map<Digest, LayerLock>, t: TxnId, x: Txn, d: Digest)
    requires LockOk(txns, locks, d)
    requires t in txns ==> Section(x.pc) == Section(txns[t].pc) && Holds(x.pc) == Holds(txns[t].pc)
    requires t !in txns ==> Section(x.pc).None? && Holds(x.pc).None?
    ensures LockOk(txns[t := x], locks, d)
  {
    assert InSection(txns[t := x], d) == InSection(txns, d);
    assert Holding(txns[t := x], d) == Holding(txns, d);
  }

  /** A step that moves one transaction on, declares it more layers of the table, and changes nothing else. */
  lemma TxnMove(s: State, t: TxnId, x: Txn, more: set<Digest>)
    requires Inv(s) && t in s.txns && (s.mu.Evicting? ==> s.mu.t != t)
    requires x == s.txns[t].(pc := x.pc, layers := s.txns[t].layers + more) && more <= s.layers.Keys
    requires Outstanding(x.pc) == Outstanding(s.txns[t].pc)
    requires Section(x.pc) == Section(s.txns[t].pc) && Holds(x.pc) == Holds(s.txns[t].pc)
    requires x.pc.Closed? <==> s.txns[t].pc.Closed?
    requires TxnOk(s.layers, x)
    ensures Inv(Put(s, t, x))
  {
    ChargeMove(s.txns, t, x);
    HeldMove(s.txns, t, x, more);
    LocksSame(s.txns, s.locks, t, x);
  }

  /** A step that charges a transaction for delta more bytes (or gives them back), and may let go of the mutex. */
  lemma TxnCharge(s: State, t: TxnId, x: Txn, delta: int, mu: Mutex)
    requires Inv(s) && t in s.txns && (mu == s.mu || mu.Free?) && (mu.Evicting? ==> mu.t != t)
    requires x == s.txns[t].(pc := x.pc, own := s.txns[t].own + delta)
    requires Outstanding(x.pc) == Outstanding(s.txns[t].pc) + delta
    requires Section(x.pc) == Section(s.txns[t].pc) && Holds(x.pc) == Holds(s.txns[t].pc)
    requires !x.pc.Closed? && !s.txns[t].pc.Closed? && !s.txns[t].pc.Closing?
    requires TxnOk(s.layers, x)
    ensures Inv(Put(s, t, x).(mu := mu, accounted := s.accounted + delta))
  {
    ChargeMove(s.txns, t, x);
    HeldMove(s.txns, t, x, {});
    LocksSame(s.txns, s.locks, t, x);
  }

  lemma ReplaceImage(images: map<Digest, Image>, id: Digest, img: Image)
    ensures SumMap(RecordBytes(images[id := img]))
        == SumMap(RecordBytes(images)) + img.bytes - (if id in images then images[id].bytes else 0)
    ensures LayersOf(images[id := img]) <= LayersOf(images) + (set d | d in img.layers)
  {
    assert RecordBytes(images[id := img]) == RecordBytes(images)[id := img.bytes];
    SumUpdate(RecordBytes(images), id, img.bytes);
  }

  // ---------------------------------------------------------------- one step

  lemma StepBegin(c: Config, s: State, t: TxnId)
    requires Inv(s) && Enabled(c, s, Begin(t))
    ensures Inv(Step(c, s, Begin(t)))
  {
    hide Inv, LayerStep, CommitStep, RewriteStep, ReserveOnce;
    BeginMove(s, t, Txn({}, 0, {}, Idle));
  }

  lemma BeginMove(s: State, t: TxnId, x: Txn)
    requires Inv(s) && t !in s.txns && s.mu.Free? && x == Txn({}, 0, {}, Idle)
    ensures Inv(Put(s, t, x))
  {
    hide LockOk, Charges, SumMap, LayersOf;
    ChargeMove(s.txns, t, x);
    HeldMove(s.txns, t, x, {});
    LocksSame(s.txns, s.locks, t, x);
    NothingWritten(s.layers);
  }

  lemma NothingWritten(layers: map<Digest, nat>)
    ensures SumMap(Only(layers, {})) == 0
  {
    assert Only(layers, {}) == map[];
  }

  lemma StepUse(c: Config, s: State, t: TxnId, d: Digest)
    requires Inv(s) && Enabled(c, s, Use(t, d))
    ensures Inv(Step(c, s, Use(t, d)))
  {
    hide LayerStep, CommitStep, RewriteStep, ReserveOnce;
    if d in s.layers {
      TxnMove(s, t, s.txns[t].(layers := s.txns[t].layers + {d}), {d});
    }
  }

  lemma StepCheckPresent(c: Config, s: State, t: TxnId)
    requires Inv(s) && Enabled(c, s, CheckPresent(t))
    ensures Inv(Step(c, s, CheckPresent(t)))
  {
    hide LayerStep, CommitStep, RewriteStep, ReserveOnce;
    var d := s.txns[t].pc.d;
    if d in s.layers {
      TxnMove(s, t, s.txns[t].(layers := s.txns[t].layers + {d}, pc := Unlocking(d)), {d});
    } else {
      PcMove(s, t, PutCeiling(d));
    }
  }

  lemma PcMove(s: State, t: TxnId, pc: PC)
    requires Inv(s) && At(s, t)
    requires Outstanding(pc) == Outstanding(s.txns[t].pc)
    requires Section(pc) == Section(s.txns[t].pc) && Holds(pc) == Holds(s.txns[t].pc)
    requires pc.Closed? <==> s.txns[t].pc.Closed?
    requires TxnOk(s.layers, s.txns[t].(pc := pc))
    ensures Inv(Go(s, t, pc))
  {
    TxnMove(s, t, s.txns[t].(pc := pc), {});
  }

  lemma StepReadCeiling(c: Config, s: State, t: TxnId)
    requires Inv(s) && Enabled(c, s, ReadCeiling(t))
    ensures Inv(Step(c, s, ReadCeiling(t)))
  {
    hide Inv, LayerStep, CommitStep, RewriteStep, ReserveOnce;
    var limit := Ceiling(Tab(s), s.txns[t].own, c.max);
    var pc := if s.txns[t].pc.PutCeiling? then Staging(s.txns[t].pc.d, limit)
        else StagingRecord(s.txns[t].pc.id, s.txns[t].pc.img, limit);
    TxnIsOk(s, t);
    PcMove(s, t, pc);
  }

  lemma TxnIsOk(s: State, t: TxnId)
    requires Inv(s) && t in s.txns
    ensures TxnOk(s.layers, s.txns[t])
  {
  }

  lemma StepStage(c: Config, s: State, t: TxnId, i: nat, j: nat)
    requires Inv(s) && Enabled(c, s, Stage(t, i, j))
    ensures Inv(Step(c, s, Stage(t, i, j)))
  {
    hide Inv, LayerStep, CommitStep, RewriteStep, ReserveOnce;
    TxnIsOk(s, t);
    PcMove(s, t, Reserving(LayerJob(s.txns[t].pc.d, i, j)));
  }

  lemma StepStageTooBig(c: Config, s: State, t: TxnId)
    requires Inv(s) && Enabled(c, s, StageTooBig(t))
    ensures Inv(Step(c, s, StageTooBig(t)))
  {
    hide Inv, LayerStep, CommitStep, RewriteStep, ReserveOnce;
    var lock := if s.txns[t].pc.Staging? then Some(s.txns[t].pc.d) else None;
    TxnIsOk(s, t);
    PcMove(s, t, Reserving(ProbeJob(Ceiling(Tab(s), s.txns[t].own, c.max) + 1, lock)));
  }

  lemma StepStageFails(c: Config, s: State, t: TxnId)
    requires Inv(s) && Enabled(c, s, StageFails(t))
    ensures Inv(Step(c, s, StageFails(t)))
  {
    hide Inv, LayerStep, CommitStep, RewriteStep, ReserveOnce;
    TxnIsOk(s, t);
    PcMove(s, t, if s.txns[t].pc.Staging? then Unlocking(s.txns[t].pc.d) else Idle);
  }

  lemma StepCommitStart(c: Config, s: State, t: TxnId, id: Digest, img: Image)
    requires Inv(s) && Enabled(c, s, CommitStart(t, id, img))
    ensures Inv(Step(c, s, CommitStart(t, id, img)))
  {
    hide Inv, StageStep, LayerStep, RewriteStep, ReserveOnce;
    TxnIsOk(s, t);
    PcMove(s, t, CommitCeiling(id, img));
  }

  lemma StepStageRecord(c: Config, s: State, t: TxnId, bytes: nat)
    requires Inv(s) && Enabled(c, s, StageRecord(t, bytes))
    ensures Inv(Step(c, s, StageRecord(t, bytes)))
  {
    hide Inv, StageStep, LayerStep, RewriteStep, ReserveOnce;
    TxnIsOk(s, t);
    PcMove(s, t, Reserving(RecordJob(s.txns[t].pc.id, s.txns[t].pc.img.(bytes := bytes))));
  }

  lemma StepAbort(c: Config, s: State, t: TxnId)
    requires Inv(s) && Enabled(c, s, Abort(t))
    ensures Inv(Step(c, s, Abort(t)))
  {
    hide Inv, StageStep, LayerStep, RewriteStep, ReserveOnce;
    TxnIsOk(s, t);
    PcMove(s, t, Closing);
  }

  lemma StepReserveStart(c: Config, s: State, t: TxnId)
    requires Inv(s) && Enabled(c, s, ReserveStart(t))
    ensures Inv(Step(c, s, ReserveStart(t)))
  {
    hide Inv, LayerStep, CommitStep, RewriteStep, ReserveOnce;
    var job := s.txns[t].pc.job;
    TxnIsOk(s, t);
    if Size(job) <= 0 {
      PcMove(s, t, AfterGrant(job));
    } else if s.txns[t].own + Size(job) > c.max - PinnedBytes(Tab(s)) {
      PcMove(s, t, AfterRefusal(job));
    } else {
      TakeMutex(s, t);
    }
  }

  lemma TakeMutex(s: State, t: TxnId)
    requires Inv(s) && t in s.txns && s.txns[t].pc.Reserving? && Size(s.txns[t].pc.job) > 0
    ensures Inv(s.(mu := Evicting(t, [])))
  {
  }

  lemma DiskMove(s: State, t: TxnId, pc: PC, disk: Disk)
    requires Inv(s) && At(s, t)
    requires Outstanding(pc) == Outstanding(s.txns[t].pc)
    requires Section(pc) == Section(s.txns[t].pc) && Holds(pc) == Holds(s.txns[t].pc)
    requires pc.Closed? <==> s.txns[t].pc.Closed?
    requires TxnOk(s.layers, s.txns[t].(pc := pc))
    ensures Inv(Go(s.(disk := disk), t, pc))
  {
    PcMove(s, t, pc);
  }

  lemma StepMakeDir(c: Config, s: State, t: TxnId, io: IO)
    requires Inv(s) && Enabled(c, s, MakeDir(t, io))
    ensures Inv(Step(c, s, MakeDir(t, io)))
  {
    hide Inv, StageStep, CommitStep, RewriteStep, ReserveOnce;
    TxnIsOk(s, t);
    var pc := s.txns[t].pc;
    DiskMove(s, t, if io == Done then MovingIndex(pc.d, pc.indexBytes, pc.docBytes)
        else Releasing(pc.indexBytes + pc.docBytes, Some(pc.d)),
             if io == Failed then s.disk else WithDir(s.disk, pc.d));
  }

  lemma StepMoveIndex(c: Config, s: State, t: TxnId, io: IO)
    requires Inv(s) && Enabled(c, s, MoveIndex(t, io))
    ensures Inv(Step(c, s, MoveIndex(t, io)))
  {
    hide Inv, StageStep, CommitStep, RewriteStep, ReserveOnce;
    TxnIsOk(s, t);
    var pc := s.txns[t].pc;
    DiskMove(s, t, if io == Done then MovingDoc(pc.d, pc.indexBytes, pc.docBytes)
        else Releasing(pc.indexBytes + pc.docBytes, Some(pc.d)),
             if io == Failed then s.disk else WithIndex(s.disk, pc.d, pc.indexBytes));
  }

  lemma StepMoveDoc(c: Config, s: State, t: TxnId, io: IO)
    requires Inv(s) && Enabled(c, s, MoveDoc(t, io))
    ensures Inv(Step(c, s, MoveDoc(t, io)))
  {
    hide Inv, StageStep, CommitStep, RewriteStep, ReserveOnce;
    TxnIsOk(s, t);
    var pc := s.txns[t].pc;
    DiskMove(s, t, if io == Done then Installing(pc.d, pc.indexBytes, pc.docBytes)
        else Releasing(pc.indexBytes + pc.docBytes, Some(pc.d)),
             if io == Failed then s.disk else WithDoc(s.disk, pc.d, pc.docBytes));
  }

  lemma StepMoveRecord(c: Config, s: State, t: TxnId, io: IO)
    requires Inv(s) && Enabled(c, s, MoveRecord(t, io))
    ensures Inv(Step(c, s, MoveRecord(t, io)))
  {
    hide Inv, StageStep, LayerStep, RewriteStep, ReserveOnce;
    TxnIsOk(s, t);
    var pc := s.txns[t].pc;
    DiskMove(s, t, if io == Done then InstallingRecord(pc.id, pc.img) else Releasing(pc.img.bytes, None),
             if io == Failed then s.disk else WithRecord(s.disk, pc.id, pc.img, pc.img.bytes));
  }

  lemma DropKeepsTxn(s: State, t: TxnId, d: Digest)
    requires Inv(s) && t in s.txns && !Referenced(Tab(s), d)
    ensures TxnOk(s.layers - {d}, s.txns[t])
  {
    var x := s.txns[t];
    if !x.pc.Closed? {
      assert d !in x.written;
      assert Only(s.layers - {d}, x.written) == Only(s.layers, x.written);
    }
  }

  lemma StepDrop(c: Config, s: State, t: TxnId, ok: bool)
    requires Inv(s) && Enabled(c, s, ReserveStep(t, ok)) && s.mu.pending != []
    ensures Inv(Step(c, s, ReserveStep(t, ok)))
  {
    hide StageStep, LayerStep, CommitStep, RewriteStep;
    var d := s.mu.pending[0];
    var stuck: set<Digest> := if ok then {} else {d};
    DropLayerKeeps(Tab(s), d, stuck);
    forall u | u in s.txns ensures TxnOk(DropLayer(Tab(s), d, stuck).layers, s.txns[u]) {
      if !Referenced(Tab(s), d) {
        DropKeepsTxn(s, u, d);
      }
    }
  }

  lemma StepReserve(c: Config, s: State, t: TxnId, ok: bool)
    requires Inv(s) && Enabled(c, s, ReserveStep(t, ok)) && s.mu.pending == []
    ensures Inv(Step(c, s, ReserveStep(t, ok)))
  {
    hide Inv, Step, TxnOk, Outstanding, Section, Holds, Size, AfterGrant, AfterRefusal;
    var x, job := s.txns[t], s.txns[t].pc.job;
    TxnIsOk(s, t);
    ReserveEnds(s, t);
    RoundIs(c, s, t, ok);
    var s2 := Step(c, s, ReserveStep(t, ok));
    if s.accounted + Size(job) <= c.max {
      TxnCharge(s, t, x.(own := x.own + Size(job), pc := AfterGrant(job)), Size(job), Free);
    } else if s2 == Go(s, t, AfterRefusal(job)).(mu := Free) {
      TxnCharge(s, t, x.(own := x.own + 0, pc := AfterRefusal(job)), 0, Free);
    } else {
      var v :| VictimGoes(s, s2, v);
      EvictMove(s, v, s2.mu, s2.disk);
    }
  }

  /** What a transaction owes and holds when its reservation ends either way. */
  lemma ReserveEnds(s: State, t: TxnId)
    requires t in s.txns && s.txns[t].pc.Reserving? && TxnOk(s.layers, s.txns[t])
    ensures var x, job := s.txns[t], s.txns[t].pc.job;
            var yes, no := AfterGrant(job), AfterRefusal(job);
            && Outstanding(x.pc) == 0 && Outstanding(yes) == Size(job) && Outstanding(no) == 0
            && Section(yes) == Section(x.pc) == Section(no) && Holds(yes) == Holds(x.pc) == Holds(no)
            && !yes.Closed? && !no.Closed?
            && TxnOk(s.layers, x.(own := x.own + Size(job), pc := yes))
                && TxnOk(s.layers, x.(own := x.own + 0, pc := no))
  {
  }

  lemma EvictMove(s: State, v: Digest, mu: Mutex, disk: Disk)
    requires Inv(s) && v in s.images
    requires s.mu.Evicting? && mu.Evicting? && mu.t == s.mu.t
    ensures var r := RemoveImage(Tab(s), v);
        Inv(s.(mu := mu, images := r.images, accounted := r.accounted, disk := disk))
  {
    var r := RemoveImage(Tab(s), v);
    RemoveImageSlack(Tab(s), v);
    assert LayersOf(r.images) <= LayersOf(s.images);
  }

  lemma StepGiveBack(c: Config, s: State, t: TxnId)
    requires Inv(s) && Enabled(c, s, GiveBack(t))
    ensures Inv(Step(c, s, GiveBack(t)))
  {
    hide Inv, StageStep, CommitStep, RewriteStep, ReserveOnce;
    TxnIsOk(s, t);
    var pc := s.txns[t].pc;
    var delta: int := 0 - pc.n;
    TxnCharge(s, t, s.txns[t].(own := s.txns[t].own + delta, pc := After(pc.lock)), delta, s.mu);
  }

  lemma StepInstallRecord(c: Config, s: State, t: TxnId)
    requires Inv(s) && Enabled(c, s, InstallRecord(t))
    ensures Inv(Step(c, s, InstallRecord(t)))
  {
    hide Inv, StageStep, LayerStep, RewriteStep, ReserveOnce;
    RecordMove(s, t, s.txns[t].pc.id, s.txns[t].pc.img);
  }

  lemma RecordMove(s: State, t: TxnId, id: Digest, img: Image)
    requires Inv(s) && At(s, t) && s.txns[t].pc == InstallingRecord(id, img)
    ensures Inv(Go(s, t, Closing).(images := s.images[id := img],
                                   accounted := s.accounted - (if id in s.images then s.images[id].bytes else 0)))
  {
    hide Intact, Accounts, LocksOk;
    var x := s.txns[t].(pc := Closing);
    LocksSame(s.txns, s.locks, t, x);
    RecordDeclared(s, t);
    RecordTables(s, t, id, img, x);
    TxnIsOk(s, t);
  }

  lemma RecordTables(s: State, t: TxnId, id: Digest, img: Image, x: Txn)
    requires Intact(Tab(s)) && Accounts(s)
    requires t in s.txns && s.txns[t].pc == InstallingRecord(id, img) && x == s.txns[t].(pc := Closing)
    requires forall d | d in img.layers :: d in s.txns[t].layers
    ensures var s2 := Put(s, t, x).(images := s.images[id := img], accounted := s.accounted
        - (if id in s.images then s.images[id].bytes else 0));
            Intact(Tab(s2)) && Accounts(s2)
  {
    hide LayersOf, Charges, RecordBytes, SumMap;
    ChargeMove(s.txns, t, x);
    HeldMove(s.txns, t, x, {});
    ReplaceImage(s.images, id, img);
    HeldHas(s.txns, t);
  }

  lemma HeldHas(txns: map<TxnId, Txn>, t: TxnId)
    requires t in txns && txns[t].pc != Closed
    ensures txns[t].layers <= Held(txns)
  {
  }

  lemma RecordDeclared(s: State, t: TxnId)
    requires TxnsOk(s) && t in s.txns && Committing(s.txns[t].pc).Some?
    ensures forall d | d in Committing(s.txns[t].pc).value.1.layers :: d in s.txns[t].layers
  {
  }

  lemma StepFinish(c: Config, s: State, t: TxnId)
    requires Inv(s) && Enabled(c, s, Finish(t))
    ensures Inv(Step(c, s, Finish(t)))
  {
    hide Inv, StageStep, LayerStep, RewriteStep, ReserveOnce;
    FinishMove(s, t);
  }

  lemma FinishMove(s: State, t: TxnId)
    requires Inv(s) && At(s, t) && s.txns[t].pc.Closing?
    ensures Inv(Go(s, t, Closed))
  {
    hide LockOk, Intact, Accounts, TxnOk;
    FinishTables(s, t);
    FinishTxn(s.layers, s.txns[t]);
    LocksSame(s.txns, s.locks, t, s.txns[t].(pc := Closed));
  }

  lemma FinishTables(s: State, t: TxnId)
    requires Intact(Tab(s)) && Accounts(s) && t in s.txns && s.txns[t].pc.Closing?
    ensures var s2 := Go(s, t, Closed); Intact(Tab(s2)) && Accounts(s2)
  {
    hide SumMap;
    var x := s.txns[t].(pc := Closed);
    ChargeMove(s.txns, t, x);
    assert Held(s.txns[t := x]) <= Held(s.txns);
  }

  lemma FinishTxn(layers: map<Digest, nat>, x: Txn)
    requires TxnOk(layers, x) && x.pc.Closing?
    ensures TxnOk(layers, x.(pc := Closed))
  {
  }

  lemma ImageMove(s: State, id: Digest, img: Image, rewrites: map<WriterId, Rewrite>)
    requires Inv(s) && id in s.images && img.layers == s.images[id].layers
    ensures Inv(s.(images := s.images[id := img],
                  accounted := s.accounted + img.bytes - s.images[id].bytes, rewrites := rewrites))
  {
    ReplaceImage(s.images, id, img);
    assert forall d | d in img.layers :: d in LayersOf(s.images);
  }

  lemma RewriteMove(s: State, rewrites: map<WriterId, Rewrite>, disk: Disk)
    requires Inv(s)
    ensures Inv(s.(rewrites := rewrites, disk := disk))
  {
  }

  lemma StepTouch(c: Config, s: State, w: WriterId, id: Digest, now: int)
    requires Inv(s) && Enabled(c, s, Touch(w, id, now))
    ensures Inv(Step(c, s, Touch(w, id, now)))
  {
    hide Inv, StageStep, LayerStep, CommitStep, ReserveOnce;
    var img := s.images[id].(lastUsed := now);
    ImageMove(s, id, img, s.rewrites[w := Staged(id, img)]);
  }

  lemma StepUpgrade(c: Config, s: State, w: WriterId, id: Digest, pin: bool)
    requires Inv(s) && Enabled(c, s, Upgrade(w, id, pin))
    ensures Inv(Step(c, s, Upgrade(w, id, pin)))
  {
    hide Inv, StageStep, LayerStep, CommitStep, ReserveOnce;
    var img := s.images[id].(pinned := s.images[id].pinned || pin);
    ImageMove(s, id, img, s.rewrites[w := Staged(id, img)]);
  }

  lemma StepMoveRewrite(c: Config, s: State, w: WriterId, bytes: nat, io: IO)
    requires Inv(s) && Enabled(c, s, MoveRewrite(w, bytes, io))
    ensures Inv(Step(c, s, MoveRewrite(w, bytes, io)))
  {
    hide Inv, StageStep, LayerStep, CommitStep, ReserveOnce;
    var s2 := Step(c, s, MoveRewrite(w, bytes, io));
    RewriteMove(s, s2.rewrites, s2.disk);
  }

  lemma StepAccountRewrite(c: Config, s: State, w: WriterId)
    requires Inv(s) && Enabled(c, s, AccountRewrite(w))
    ensures Inv(Step(c, s, AccountRewrite(w)))
  {
    hide Inv, StageStep, LayerStep, CommitStep, ReserveOnce;
    var r := s.rewrites[w];
    if r.id in s.images {
      ImageMove(s, r.id, s.images[r.id].(bytes := r.bytes), s.rewrites - {w});
    } else {
      RewriteMove(s, s.rewrites - {w}, s.disk);
    }
  }

  // ---------------------------------------------------------------- the digest lock

  lemma HoldingAtMostOne(txns: map<TxnId, Txn>, d: Digest, t: TxnId, u: TxnId)
    requires |Holding(txns, d)| <= 1 && t in txns && u in txns
    requires Holds(txns[t].pc) == Holds(txns[u].pc) == Some(d)
    ensures t == u
  {
    assert {t, u} <= Holding(txns, d);
    assert |Holding(txns, d) - {t}| == |Holding(txns, d)| - 1;
    assert t != u ==> u in Holding(txns, d) - {t};
  }

  lemma StepInstall(c: Config, s: State, t: TxnId)
    requires Inv(s) && Enabled(c, s, Install(t))
    ensures Inv(Step(c, s, Install(t)))
  {
    hide Inv, StageStep, CommitStep, RewriteStep, ReserveOnce;
    var x := s.txns[t];
    var d, n := x.pc.d, x.pc.indexBytes + x.pc.docBytes;
    TxnIsOk(s, t);
    assert d !in s.layers;
    InstallMove(s, t, d, n, x.(layers := x.layers + {d}, written := x.written + {d}, pc := Unlocking(d)));
  }

  lemma InstallMove(s: State, t: TxnId, d: Digest, n: nat, y: Txn)
    requires Inv(s) && At(s, t) && s.txns[t].pc.Installing? && s.txns[t].pc.d == d
    requires n == s.txns[t].pc.indexBytes + s.txns[t].pc.docBytes
    requires var x := s.txns[t]; y == x.(layers := x.layers + {d}, written := x.written + {d}, pc := Unlocking(d))
    ensures Inv(Put(s, t, y).(layers := s.layers[d := n]))
  {
    hide Intact, Accounts, TxnsOk, LocksOk;
    TxnIsOk(s, t);
    LocksSame(s.txns, s.locks, t, y);
    InstallTables(s, t, d, n, y);
    InstallTxns(s, t, d, n, y);
  }

  lemma InstallTables(s: State, t: TxnId, d: Digest, n: nat, y: Txn)
    requires Intact(Tab(s)) && Accounts(s) && t in s.txns && d !in s.layers
    requires Outstanding(s.txns[t].pc) == n && Outstanding(y.pc) == 0
    requires y.layers == s.txns[t].layers + {d} && !y.pc.Closed? && !s.txns[t].pc.Closed?
    ensures var s2 := Put(s, t, y).(layers := s.layers[d := n]); Intact(Tab(s2)) && Accounts(s2)
  {
    ChargeMove(s.txns, t, y);
    HeldMove(s.txns, t, y, {d});
    SumUpdate(s.layers, d, n);
  }

  lemma InstallTxns(s: State, t: TxnId, d: Digest, n: nat, y: Txn)
    requires Inv(s) && t in s.txns && s.txns[t].pc.Installing? && s.txns[t].pc.d == d
    requires n == s.txns[t].pc.indexBytes + s.txns[t].pc.docBytes
    requires var x := s.txns[t]; y == x.(layers := x.layers + {d}, written := x.written + {d}, pc := Unlocking(d))
    ensures TxnsOk(Put(s, t, y).(layers := s.layers[d := n]))
  {
    hide Inv;
    forall u | u in s.txns && u != t ensures TxnOk(s.layers[d := n], s.txns[u]) {
      InstallKeepsTxn(s, t, u);
    }
    TxnIsOk(s, t);
    InstallOwn(s.layers, s.txns[t].written, d, n);
  }

  lemma InstallOwn(layers: map<Digest, nat>, written: set<Digest>, d: Digest, n: nat)
    requires d !in layers
    ensures SumMap(Only(layers[d := n], written + {d})) == SumMap(Only(layers, written)) + n
  {
    assert Only(layers[d := n], written + {d}) == Only(layers, written)[d := n];
    SumUpdate(Only(layers, written), d, n);
  }

  lemma InstallKeepsTxn(s: State, t: TxnId, u: TxnId)
    requires Inv(s) && t in s.txns && u in s.txns && u != t && s.txns[t].pc.Installing?
    ensures var pc := s.txns[t].pc; TxnOk(s.layers[pc.d := pc.indexBytes + pc.docBytes], s.txns[u])
  {
    hide Inv, LockOk, Outstanding, SumMap;
    var d, n := s.txns[t].pc.d, s.txns[t].pc.indexBytes + s.txns[t].pc.docBytes;
    var x := s.txns[u];
    TxnIsOk(s, t);
    TxnIsOk(s, u);
    LockIsOk(s, d);
    AloneHolds(s, t, u, d);
    if !x.pc.Closed? {
      DeclaredPresent(s, u);
      assert Only(s.layers[d := n], x.written) == Only(s.layers, x.written);
    }
  }

  lemma AloneHolds(s: State, t: TxnId, u: TxnId, d: Digest)
    requires t in s.txns && u in s.txns && u != t && LockOk(s.txns, s.locks, d)
    requires Missing(s.txns[t].pc) == Some(d)
    ensures Missing(s.txns[u].pc) != Some(d)
  {
    if Missing(s.txns[u].pc) == Some(d) {
      HoldsIsSection(s.txns[t].pc);
      HoldsIsSection(s.txns[u].pc);
      HoldingAtMostOne(s.txns, d, t, u);
    }
  }

  lemma DeclaredPresent(s: State, u: TxnId)
    requires Inv(s) && u in s.txns && s.txns[u].pc != Closed
    ensures s.txns[u].layers <= s.layers.Keys
  {
    HeldHas(s.txns, u);
  }

  /** t moves on, and the lock table changes for the one digest d. */
  lemma LocksMove(txns: map<TxnId, Txn>, locks: map<Digest, LayerLock>, t: TxnId, x: Txn,
      locks2: map<Digest, LayerLock>, d: Digest)
    requires LocksOk(txns, locks) && t in txns
    requires Section(x.pc).Some? ==> Section(x.pc).value == d
    requires Section(txns[t].pc).Some? ==> Section(txns[t].pc).value == d
    requires locks2 - {d} == locks - {d}
    requires LockOk(txns[t := x], locks2, d)
    ensures LocksOk(txns[t := x], locks2)
  {
    var after := txns[t := x];
    forall e ensures LockOk(after, locks2, e) {
      if e != d {
        assert LockOk(txns, locks, e);
        LockElsewhere(txns, locks, t, x, locks2, d, e);
      }
    }
  }

  lemma LockElsewhere(txns: map<TxnId, Txn>, locks: map<Digest, LayerLock>, t: TxnId, x: Txn,
      locks2: map<Digest, LayerLock>, d: Digest, e: Digest)
    requires LockOk(txns, locks, e) && t in txns && e != d
    requires Section(x.pc).Some? ==> Section(x.pc).value == d
    requires Section(txns[t].pc).Some? ==> Section(txns[t].pc).value == d
    requires locks2 - {d} == locks - {d}
    ensures LockOk(txns[t := x], locks2, e)
  {
    HoldsIsSection(x.pc);
    HoldsIsSection(txns[t].pc);
    assert e in locks2 <==> e in locks2 - {d};
    assert e in locks <==> e in locks - {d};
    assert e in locks2 ==> locks2[e] == (locks2 - {d})[e] == locks[e];
    assert InSection(txns[t := x], e) == InSection(txns, e);
    assert Holding(txns[t := x], e) == Holding(txns, e);
  }

  lemma LockMove(s: State, t: TxnId, pc: PC, locks: map<Digest, LayerLock>, d: Digest)
    requires Inv(s) && At(s, t)
    requires Outstanding(pc) == Outstanding(s.txns[t].pc) == 0 && Missing(pc).None? && Committing(pc).None?
    requires !pc.Closed? && !s.txns[t].pc.Closed? && !s.txns[t].pc.Closing?
    requires Section(pc).Some? ==> Section(pc).value == d
    requires Section(s.txns[t].pc).Some? ==> Section(s.txns[t].pc).value == d
    requires locks - {d} == s.locks - {d}
    requires LockOk(s.txns[t := s.txns[t].(pc := pc)], locks, d)
    ensures Inv(Go(s, t, pc).(locks := locks))
  {
    hide LockOk, Intact, Accounts, TxnOk, LocksOk;
    var x := s.txns[t].(pc := pc);
    MoveTables(s, t, pc, locks);
    MoveTxnOk(s, t, pc);
    assert LocksOk(s.txns, s.locks);
    LocksMove(s.txns, s.locks, t, x, locks, d);
  }

  lemma MoveTables(s: State, t: TxnId, pc: PC, locks: map<Digest, LayerLock>)
    requires Intact(Tab(s)) && Accounts(s) && t in s.txns
    requires Outstanding(pc) == Outstanding(s.txns[t].pc) && !pc.Closed? && !s.txns[t].pc.Closed?
    ensures var s2 := Go(s, t, pc).(locks := locks); Intact(Tab(s2)) && Accounts(s2)
  {
    var x := s.txns[t].(pc := pc);
    ChargeMove(s.txns, t, x);
    HeldMove(s.txns, t, x, {});
  }

  lemma MoveTxnOk(s: State, t: TxnId, pc: PC)
    requires TxnsOk(s) && t in s.txns
    requires Outstanding(pc) == Outstanding(s.txns[t].pc) && Missing(pc).None? && Committing(pc).None?
    requires !s.txns[t].pc.Closed? && !s.txns[t].pc.Closing?
    ensures TxnOk(s.layers, s.txns[t].(pc := pc))
  {
  }

  lemma LockIsOk(s: State, d: Digest)
    requires Inv(s)
    ensures LockOk(s.txns, s.locks, d)
  {
  }

  lemma HoldingInSection(txns: map<TxnId, Txn>, d: Digest)
    ensures Holding(txns, d) <= InSection(txns, d)
  {
    forall u | u in Holding(txns, d) ensures u in InSection(txns, d) { HoldsIsSection(txns[u].pc); }
  }

  lemma LockRegister(txns: map<TxnId, Txn>, locks: map<Digest, LayerLock>, t: TxnId, d: Digest)
    requires LockOk(txns, locks, d) && t in txns && Section(txns[t].pc).None?
    ensures var l := if d in locks then locks[d] else LayerLock(0, false);
            LockOk(txns[t := txns[t].(pc := Waiting(d))], locks[d := l.(waiters := l.waiters + 1)], d)
  {
    hide Holding, InSection;
    var x := txns[t].(pc := Waiting(d));
    HoldsIsSection(txns[t].pc);
    SectionMove(txns, t, x, d);
    Outside(txns, t, d);
    HoldingInSection(txns, d);
    assert Holding(txns[t := x], d) == Holding(txns, d);
  }

  lemma Outside(txns: map<TxnId, Txn>, t: TxnId, d: Digest)
    requires t in txns
    ensures t in InSection(txns, d) <==> Section(txns[t].pc) == Some(d)
    ensures t in Holding(txns, d) <==> Holds(txns[t].pc) == Some(d)
  {
  }

  lemma LockAcquire(txns: map<TxnId, Txn>, locks: map<Digest, LayerLock>, t: TxnId, d: Digest)
    requires LockOk(txns, locks, d) && t in txns && txns[t].pc == Waiting(d) && d in locks && !locks[d].held
    ensures LockOk(txns[t := txns[t].(pc := Checking(d))], locks[d := locks[d].(held := true)], d)
  {
    hide Holding, InSection;
    var x := txns[t].(pc := Checking(d));
    Outside(txns, t, d);
    SectionMove(txns, t, x, d);
    assert InSection(txns[t := x], d) == InSection(txns, d);
    assert Holding(txns[t := x], d) == {t};
  }

  lemma LockRelease(txns: map<TxnId, Txn>, locks: map<Digest, LayerLock>, t: TxnId, d: Digest)
    requires LockOk(txns, locks, d) && t in txns && txns[t].pc == Unlocking(d) && d in locks
    ensures LockOk(txns[t := txns[t].(pc := Leaving(d))], locks[d := locks[d].(held := false)], d)
  {
    hide Holding, InSection;
    var x := txns[t].(pc := Leaving(d));
    Outside(txns, t, d);
    SectionMove(txns, t, x, d);
    OnlyElement(Holding(txns, d), t);
    assert InSection(txns[t := x], d) == InSection(txns, d);
    assert Holding(txns[t := x], d) == {};
  }

  lemma OnlyElement<T>(s: set<T>, x: T)
    requires |s| <= 1 && x in s
    ensures s == {x}
  {
    assert |s - {x}| == |s| - 1;
    assert s == s - {x} + {x};
  }

  lemma LockLeave(txns: map<TxnId, Txn>, locks: map<Digest, LayerLock>, t: TxnId, d: Digest)
    requires LockOk(txns, locks, d) && t in txns && txns[t].pc == Leaving(d) && d in locks && locks[d].waiters > 0
    ensures var l := locks[d].(waiters := locks[d].waiters - 1);
            LockOk(txns[t := txns[t].(pc := Idle)], if l.waiters == 0 then locks - {d} else locks[d := l], d)
  {
    hide Holding, InSection;
    var x := txns[t].(pc := Idle);
    Outside(txns, t, d);
    SectionMove(txns, t, x, d);
    HoldingInSection(txns[t := x], d);
    assert |InSection(txns[t := x], d)| == |InSection(txns, d)| - 1;
    assert Holding(txns[t := x], d) == Holding(txns, d);
  }

  lemma StepPutStart(c: Config, s: State, t: TxnId, d: Digest)
    requires Inv(s) && Enabled(c, s, PutStart(t, d))
    ensures Inv(Step(c, s, PutStart(t, d)))
  {
    hide Inv, LockOk, LayerStep, CommitStep, RewriteStep, ReserveOnce;
    LockIsOk(s, d);
    LockRegister(s.txns, s.locks, t, d);
    LockMove(s, t, Waiting(d), Register(s, t, d).locks, d);
  }

  lemma StepAcquire(c: Config, s: State, t: TxnId)
    requires Inv(s) && Enabled(c, s, Acquire(t))
    ensures Inv(Step(c, s, Acquire(t)))
  {
    hide Inv, LockOk, LayerStep, CommitStep, RewriteStep, ReserveOnce;
    var d := s.txns[t].pc.d;
    LockIsOk(s, d);
    LockAcquire(s.txns, s.locks, t, d);
    LockMove(s, t, Checking(d), s.locks[d := s.locks[d].(held := true)], d);
  }

  lemma StepUnlock(c: Config, s: State, t: TxnId)
    requires Inv(s) && Enabled(c, s, Unlock(t))
    ensures Inv(Step(c, s, Unlock(t)))
  {
    hide Inv, LockOk, StageStep, CommitStep, RewriteStep, ReserveOnce;
    var d := s.txns[t].pc.d;
    LockIsOk(s, d);
    LockRelease(s.txns, s.locks, t, d);
    LockMove(s, t, Leaving(d), s.locks[d := s.locks[d].(held := false)], d);
  }

  lemma StepLeave(c: Config, s: State, t: TxnId)
    requires Inv(s) && Enabled(c, s, Leave(t))
    ensures Inv(Step(c, s, Leave(t)))
  {
    hide Inv, LockOk, StageStep, CommitStep, RewriteStep, ReserveOnce;
    var d := s.txns[t].pc.d;
    LockIsOk(s, d);
    LockLeave(s.txns, s.locks, t, d);
    LockMove(s, t, Idle, Unregister(s, t).locks, d);
  }

  // ---------------------------------------------------------------- every run

  lemma StepKeeps(c: Config, s: State, a: Action)
    requires Inv(s) && Enabled(c, s, a)
    ensures Inv(Step(c, s, a))
  {
    hide Inv, Step;
    match a
    case Begin(t) => StepBegin(c, s, t);
    case Use(t, d) => StepUse(c, s, t, d);
    case PutStart(t, d) => StepPutStart(c, s, t, d);
    case Acquire(t) => StepAcquire(c, s, t);
    case CheckPresent(t) => StepCheckPresent(c, s, t);
    case ReadCeiling(t) => StepReadCeiling(c, s, t);
    case Stage(t, i, j) => StepStage(c, s, t, i, j);
    case StageTooBig(t) => StepStageTooBig(c, s, t);
    case StageFails(t) => StepStageFails(c, s, t);
    case ReserveStart(t) => StepReserveStart(c, s, t);
    case ReserveStep(t, ok) => if s.mu.pending == [] { StepReserve(c, s, t, ok); } else { StepDrop(c, s, t, ok); }
    case Install(t) => StepInstall(c, s, t);
    case GiveBack(t) => StepGiveBack(c, s, t);
    case Unlock(t) => StepUnlock(c, s, t);
    case Leave(t) => StepLeave(c, s, t);
    case CommitStart(t, id, img) => StepCommitStart(c, s, t, id, img);
    case StageRecord(t, bytes) => StepStageRecord(c, s, t, bytes);
    case InstallRecord(t) => StepInstallRecord(c, s, t);
    case Abort(t) => StepAbort(c, s, t);
    case Finish(t) => StepFinish(c, s, t);
    case Touch(w, id, now) => StepTouch(c, s, w, id, now);
    case Upgrade(w, id, pin) => StepUpgrade(c, s, w, id, pin);
    case MoveRewrite(w, bytes, io) => StepMoveRewrite(c, s, w, bytes, io);
    case AccountRewrite(w) => StepAccountRewrite(c, s, w);
    case MakeDir(t, io) => StepMakeDir(c, s, t, io);
    case MoveIndex(t, io) => StepMoveIndex(c, s, t, io);
    case MoveDoc(t, io) => StepMoveDoc(c, s, t, io);
    case MoveRecord(t, io) => StepMoveRecord(c, s, t, io);
  }

  lemma OpenedHolds(disk: Disk)
    ensures Inv(Opened(disk))
  {
    hide SweptTables, SweptDisk;
    SweepRestoresInvariants(disk);
    FreshHolds(SweptTables(disk), SweptDisk(disk));
  }

  lemma FreshHolds(tb: Tables, disk: Disk)
    requires Intact(tb) && Slack(tb) == 0
    ensures Inv(State(tb.layers, tb.images, tb.accounted, map[], map[], Free, map[], disk))
  {
  }

  lemma {:induction false} RunsKeep(c: Config, s: State, acts: seq<Action>, s2: State)
    requires Inv(s) && Runs(c, s, acts, s2)
    ensures Inv(s2)
    decreases |acts|
  {
    hide Inv, Step, Enabled;
    if acts != [] {
      StepKeeps(c, s, acts[0]);
      RunsKeep(c, Step(c, s, acts[0]), acts[1..], s2);
    }
  }
}
