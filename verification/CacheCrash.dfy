/** Crashes. Every state of a run is a point at which the process can die; what counts then is its disk. */
module CacheCrash {
  import opened CacheTables
  import opened CacheDisk
  import opened CacheProtocol
  import opened CacheInvariants
  import opened CacheDirs

  // ---------------------------------------------------------------- whether records are complete

  /** What a complete record on disk needs of a step, and no more. A record that a rewrite puts back has all its
      layers on disk, and a layer directory that goes is named by no record on disk. */
  ghost predicate Safe(s: State, a: Action) {
    && (a.MoveRewrite? && a.w in s.rewrites && s.rewrites[a.w].Staged? && a.io != Failed ==>
          forall d | d in s.rewrites[a.w].img.layers :: Complete(s.disk, d))
    && (Drops(s, a) ==> forall n | n in s.disk.records :: s.mu.pending[0] !in RecordLayers(s.disk.records[n]))
  }

  /** With the same or more complete layers, and no record but old ones, records stay complete. */
  lemma CompleteStays(disk: Disk, disk2: Disk)
    requires RecordsComplete(disk) && forall d | Complete(disk, d) :: Complete(disk2, d)
    requires forall n | n in disk2.records :: n in disk.records && disk2.records[n] == disk.records[n]
    ensures RecordsComplete(disk2)
  {
    hide Complete, ReadableRecord, RecordLayers;
  }

  /** A record that lands is as complete as its layers. */
  lemma CompleteLanding(disk: Disk, id: Digest, img: Image, bytes: nat)
    requires RecordsComplete(disk)
    ensures RecordsComplete(WithRecord(disk, id, img, bytes)) <==> forall d | d in img.layers :: Complete(disk, d)
  {
    var disk2 := WithRecord(disk, id, img, bytes);
    assert RecordLayers(disk2.records[Hex(id)]) == img.layers;
    assert forall d :: Complete(disk2, d) <==> Complete(disk, d);
  }

  /** A directory that goes leaves the records complete exactly when none of them names it. */
  lemma CompleteWithout(disk: Disk, d: Digest)
    requires RecordsComplete(disk)
    ensures RecordsComplete(disk.(dirs := disk.dirs - {Hex(d)}))
            <==> forall n | n in disk.records :: d !in RecordLayers(disk.records[n])
  {
    var disk2 := disk.(dirs := disk.dirs - {Hex(d)});
    assert forall e :: Complete(disk2, e) <==> Complete(disk, e) && e != d;
  }

  lemma FilledComplete(disk: Disk, pc: PC)
    requires pc.MakingDir? || pc.MovingIndex? || pc.MovingDoc?
    ensures forall d | Complete(disk, d) :: Complete(disk.(dirs := Filled(disk, pc)), d)
  {
  }

  /** Every layer of the record a transaction commits is in the table, from the first check to the install. */
  lemma CommitPresent(s: State, t: TxnId)
    requires Inv(s) && t in s.txns && Committing(s.txns[t].pc).Some?
    ensures forall d | d in Committing(s.txns[t].pc).value.1.layers :: d in s.layers
  {
  }

  lemma ImagePresent(s: State, id: Digest)
    requires Inv(s) && id in s.images
    ensures forall d | d in s.images[id].layers :: d in s.layers
  {
  }

  lemma TableComplete(s: State)
    requires DirsInv(s)
    ensures forall d | d in s.layers :: Complete(s.disk, d)
  {
  }

  lemma MoveRecordComplete(c: Config, s: State, t: TxnId, io: IO)
    requires Inv(s) && DirsInv(s) && RecordsComplete(s.disk) && Enabled(c, s, MoveRecord(t, io))
    ensures RecordsComplete(Step(c, s, MoveRecord(t, io)).disk)
  {
    hide Inv, DirsInv, RecordsComplete, Complete, WithRecord, StageStep, LayerStep, RewriteStep, ReserveOnce;
    var pc := s.txns[t].pc;
    CommitPresent(s, t);
    TableComplete(s);
    CompleteLanding(s.disk, pc.id, pc.img, pc.img.bytes);
  }

  lemma MoveRewriteComplete(c: Config, s: State, w: WriterId, bytes: nat, io: IO)
    requires RecordsComplete(s.disk) && Enabled(c, s, MoveRewrite(w, bytes, io))
    ensures RecordsComplete(Step(c, s, MoveRewrite(w, bytes, io)).disk) <==> Safe(s, MoveRewrite(w, bytes, io))
  {
    hide RecordsComplete, Complete, WithRecord, StageStep, LayerStep, CommitStep, ReserveOnce;
    CompleteLanding(s.disk, s.rewrites[w].id, s.rewrites[w].img, bytes);
  }

  lemma VisitComplete(c: Config, s: State, t: TxnId, ok: bool)
    requires RecordsComplete(s.disk) && Enabled(c, s, ReserveStep(t, ok)) && s.mu.pending != []
    ensures RecordsComplete(Step(c, s, ReserveStep(t, ok)).disk) <==> Safe(s, ReserveStep(t, ok))
  {
    hide RecordsComplete, Step, Drops;
    VisitIs(c, s, t, ok);
    var s2 := Step(c, s, ReserveStep(t, ok));
    if Drops(s, ReserveStep(t, ok)) {
      CompleteWithout(s.disk, s.mu.pending[0]);
      assert s2.disk == s.disk.(dirs := s.disk.dirs - {Hex(s.mu.pending[0])});
    } else {
      assert s2.disk == s.disk;
    }
  }

  lemma RoundComplete(c: Config, s: State, t: TxnId, ok: bool)
    requires RecordsComplete(s.disk) && Enabled(c, s, ReserveStep(t, ok)) && s.mu.pending == []
    ensures RecordsComplete(Step(c, s, ReserveStep(t, ok)).disk) && Safe(s, ReserveStep(t, ok))
  {
    hide RecordsComplete, Step, Complete;
    RoundCalm(c, s, t, ok);
    var s2 := Step(c, s, ReserveStep(t, ok));
    if !Calm(s, s2) {
      var v :| VictimGoes(s, s2, v);
      SameDirs(s.disk, s2.disk);
      CompleteStays(s.disk, s2.disk);
    }
  }

  lemma ReserveComplete(c: Config, s: State, t: TxnId, ok: bool)
    requires RecordsComplete(s.disk) && Enabled(c, s, ReserveStep(t, ok))
    ensures RecordsComplete(Step(c, s, ReserveStep(t, ok)).disk) <==> Safe(s, ReserveStep(t, ok))
  {
    hide RecordsComplete, Step, Safe;
    if s.mu.pending != [] { VisitComplete(c, s, t, ok); } else { RoundComplete(c, s, t, ok); }
  }

  lemma SameDirs(disk: Disk, disk2: Disk)
    requires disk2.dirs == disk.dirs
    ensures forall d :: Complete(disk2, d) <==> Complete(disk, d)
  {
  }

  lemma FillComplete(c: Config, s: State, a: Action)
    requires RecordsComplete(s.disk) && Enabled(c, s, a) && Fills(a)
    ensures RecordsComplete(Step(c, s, a).disk)
  {
    hide RecordsComplete, Step, Complete, Enabled, Filled;
    FillIs(c, s, a);
    FilledComplete(s.disk, s.txns[a.t].pc);
    if a.io != Failed {
      CompleteStays(s.disk, s.disk.(dirs := Filled(s.disk, s.txns[a.t].pc)));
    }
  }

  lemma OthersKeepDisk(c: Config, s: State, a: Action)
    requires Enabled(c, s, a)
    requires a.Install? || a.CommitStart? || a.InstallRecord? || a.Touch? || a.Upgrade? || a.AccountRewrite?
    ensures Step(c, s, a).disk == s.disk
  {
    hide StageStep, ReserveOnce;
  }

  /** A step keeps every record on disk complete exactly when it is safe. */
  lemma StepKeepsComplete(c: Config, s: State, a: Action)
    requires Inv(s) && DirsInv(s) && RecordsComplete(s.disk) && Enabled(c, s, a)
    ensures RecordsComplete(Step(c, s, a).disk) <==> Safe(s, a)
  {
    hide Inv, DirsInv, RecordsComplete, Step, Enabled, Complete, RecordLayers;
    match a
    case ReserveStep(t, ok) => ReserveComplete(c, s, t, ok);
    case MakeDir(_, _) | MoveIndex(_, _) | MoveDoc(_, _) => FillComplete(c, s, a);
    case MoveRecord(t, io) => MoveRecordComplete(c, s, t, io);
    case MoveRewrite(w, bytes, io) => MoveRewriteComplete(c, s, w, bytes, io);
    case Install(_) | CommitStart(_, _, _) | InstallRecord(_) => OthersKeepDisk(c, s, a);
    case Touch(_, _, _) | Upgrade(_, _, _) | AccountRewrite(_) => OthersKeepDisk(c, s, a);
    case _ => StepCalm(c, s, a);
  }

  /** Every step of the run is safe. */
  ghost predicate SafeRun(c: Config, s: State, acts: seq<Action>)
    decreases |acts|
  {
    acts == [] || (Enabled(c, s, acts[0]) && Safe(s, acts[0]) && SafeRun(c, Step(c, s, acts[0]), acts[1..]))
  }

  /** In every state the run goes through, every record on disk is complete. */
  ghost predicate CompleteThroughout(c: Config, s: State, acts: seq<Action>)
    decreases |acts|
  {
    && RecordsComplete(s.disk)
    && (acts == [] || (Enabled(c, s, acts[0]) && CompleteThroughout(c, Step(c, s, acts[0]), acts[1..])))
  }

  /** Every record on disk is complete throughout a run exactly when every step of the run is safe. */
  lemma {:induction false} RunsKeepComplete(c: Config, s: State, acts: seq<Action>, s2: State)
    requires Inv(s) && DirsInv(s) && RecordsComplete(s.disk) && Runs(c, s, acts, s2)
    ensures CompleteThroughout(c, s, acts) <==> SafeRun(c, s, acts)
    ensures SafeRun(c, s, acts) ==> RecordsComplete(s2.disk)
    decreases |acts|
  {
    hide Inv, DirsInv, RecordsComplete, Step, Enabled, Safe;
    if acts != [] {
      StepKeeps(c, s, acts[0]);
      StepKeepsDirs(c, s, acts[0]);
      StepKeepsComplete(c, s, acts[0]);
      if Safe(s, acts[0]) {
        RunsKeepComplete(c, Step(c, s, acts[0]), acts[1..], s2);
      } else {
        CompleteStart(c, Step(c, s, acts[0]), acts[1..]);
      }
    }
  }

  lemma CompleteStart(c: Config, s: State, acts: seq<Action>)
    ensures CompleteThroughout(c, s, acts) ==> RecordsComplete(s.disk)
  {
  }

  lemma {:induction false} RunsKeepDirs(c: Config, s: State, acts: seq<Action>, s2: State)
    requires Inv(s) && DirsInv(s) && Runs(c, s, acts, s2)
    ensures Inv(s2) && DirsInv(s2)
    decreases |acts|
  {
    hide Inv, DirsInv, Step, Enabled;
    if acts != [] {
      StepKeeps(c, s, acts[0]);
      StepKeepsDirs(c, s, acts[0]);
      RunsKeepDirs(c, Step(c, s, acts[0]), acts[1..], s2);
    }
  }

  // ---------------------------------------------------------------- whose records they are

  ghost predicate RecordsRooted(c: Config, records: map<Name, RecordEntry>) {
    forall n | n in records :: ReadableRecord(n, records[n]) && RecordLayers(records[n]) == c.rootfs(n.digest)
  }

  /** Layers are those the image id determines: in the table, in a commit, in a rewrite. */
  ghost predicate ImagesRooted(c: Config, images: map<Digest, Image>) {
    forall i | i in images :: images[i].layers == c.rootfs(i)
  }

  ghost predicate CommitsRooted(c: Config, txns: map<TxnId, Txn>) {
    forall t | t in txns && Committing(txns[t].pc).Some? ::
      Committing(txns[t].pc).value.1.layers == c.rootfs(Committing(txns[t].pc).value.0)
  }

  ghost predicate RewritesRooted(c: Config, rewrites: map<WriterId, Rewrite>) {
    forall w | w in rewrites && rewrites[w].Staged? :: rewrites[w].img.layers == c.rootfs(rewrites[w].id)
  }

  ghost predicate RootInv(c: Config, s: State) {
    && RecordsRooted(c, s.disk.records) && ImagesRooted(c, s.images)
    && CommitsRooted(c, s.txns) && RewritesRooted(c, s.rewrites)
  }

  /** id is that of an image in the table, or of a commit about to enter it there. */
  ghost predicate Backed(images: map<Digest, Image>, txns: map<TxnId, Txn>, id: Digest) {
    id in images || exists t :: t in txns && txns[t].pc.InstallingRecord? && txns[t].pc.id == id
  }

  ghost predicate BackedInv(s: State) {
    forall n | n in s.disk.records :: n.Hex? && Backed(s.images, s.txns, n.digest)
  }

  /** A commit names the layers its image id determines, as the id is the digest of what lists them. */
  ghost predicate Rooted(c: Config, a: Action) {
    a.CommitStart? ==> a.img.layers == c.rootfs(a.id)
  }

  /** A record that reaches its final name, by a rename that still reports an error or by a rewrite that let go of the
      mutex first, is backed. */
  ghost predicate Owned(s: State, a: Action) {
    && (a.MoveRecord? && a.t in s.txns && s.txns[a.t].pc.MovingRecord? && a.io == DoneThenFailed ==>
          Backed(s.images, s.txns, s.txns[a.t].pc.id))
    && (a.MoveRewrite? && a.w in s.rewrites && a.io != Failed ==> Backed(s.images, s.txns, s.rewrites[a.w].id))
  }

  // ---------------------------------------------------------------- steps that leave the records alone

  /** As far as records go, the step only moves transactions on. */
  ghost predicate Aloof(s: State, s2: State) {
    && s2.disk.records == s.disk.records && s2.images == s.images && s2.rewrites == s.rewrites
    && (forall t | t in s.txns && s.txns[t].pc.InstallingRecord? :: t in s2.txns && s2.txns[t].pc == s.txns[t].pc)
    && (forall t | t in s2.txns && Committing(s2.txns[t].pc).Some? ::
          && t in s.txns && Committing(s.txns[t].pc).Some?
          && Committing(s2.txns[t].pc).value.0 == Committing(s.txns[t].pc).value.0
          && Committing(s2.txns[t].pc).value.1.layers == Committing(s.txns[t].pc).value.1.layers)
  }

  lemma CalmIsAloof(s: State, s2: State)
    requires Calm(s, s2)
    ensures Aloof(s, s2)
  {
    if s2.txns != s.txns {
      var t :| Goes(s.txns, s2.txns, t);
    }
  }

  lemma AloofRooted(c: Config, s: State, s2: State)
    requires RootInv(c, s) && Aloof(s, s2)
    ensures RootInv(c, s2)
  {
    hide Committing, ReadableRecord, RecordLayers;
  }

  lemma AloofBacked(s: State, s2: State)
    requires BackedInv(s) && Aloof(s, s2)
    ensures BackedInv(s2)
  {
    hide Committing;
    forall id | Backed(s.images, s.txns, id) ensures Backed(s2.images, s2.txns, id) {
      StillBacked(s, s2, id);
    }
  }

  lemma StillBacked(s: State, s2: State, id: Digest)
    requires Backed(s.images, s.txns, id) && (id in s.images ==> id in s2.images)
    requires forall t | t in s.txns && s.txns[t].pc.InstallingRecord? && s.txns[t].pc.id == id ::
      id in s2.images || (t in s2.txns && s2.txns[t].pc == s.txns[t].pc)
    ensures Backed(s2.images, s2.txns, id)
  {
    if id !in s.images {
      var t :| t in s.txns && s.txns[t].pc.InstallingRecord? && s.txns[t].pc.id == id;
      assert t in s2.txns ==> s2.txns[t].pc == s.txns[t].pc || id in s2.images;
    }
  }

  lemma PcAloof(s: State, s2: State, t: TxnId)
    requires t in s.txns && s2.txns.Keys == s.txns.Keys
    requires s2.disk.records == s.disk.records && s2.images == s.images && s2.rewrites == s.rewrites
    requires forall u | u in s.txns && u != t :: s2.txns[u] == s.txns[u]
    requires !s.txns[t].pc.InstallingRecord? && Committing(s2.txns[t].pc).None?
    ensures Aloof(s, s2)
  {
  }

  lemma FillAloof(c: Config, s: State, a: Action)
    requires Enabled(c, s, a) && Fills(a)
    ensures Aloof(s, Step(c, s, a))
  {
    hide Enabled, Step, Filled, Aloof;
    FillIs(c, s, a);
    PcAloof(s, Step(c, s, a), a.t);
  }

  lemma InstallAloof(c: Config, s: State, t: TxnId)
    requires Enabled(c, s, Install(t))
    ensures Aloof(s, Step(c, s, Install(t)))
  {
    hide StageStep, CommitStep, RewriteStep, ReserveOnce, Aloof;
    PcAloof(s, Step(c, s, Install(t)), t);
  }

  lemma VisitAloof(c: Config, s: State, t: TxnId, ok: bool)
    requires Enabled(c, s, ReserveStep(t, ok)) && s.mu.pending != []
    ensures Aloof(s, Step(c, s, ReserveStep(t, ok)))
  {
    hide Step, Drops, Committing;
    VisitIs(c, s, t, ok);
  }

  /** The actions after which records, images and rewrites are as before. */
  ghost predicate OffRecords(a: Action) {
    && !a.ReserveStep? && !a.CommitStart? && !a.MoveRecord? && !a.InstallRecord?
    && !a.Touch? && !a.Upgrade? && !a.MoveRewrite? && !a.AccountRewrite?
  }

  lemma StepAloof(c: Config, s: State, a: Action)
    requires Enabled(c, s, a) && OffRecords(a)
    ensures Aloof(s, Step(c, s, a))
  {
    hide Enabled, Step, Aloof, Calm;
    if Fills(a) {
      FillAloof(c, s, a);
    } else if a.Install? {
      InstallAloof(c, s, a.t);
    } else {
      StepCalm(c, s, a);
      CalmIsAloof(s, Step(c, s, a));
    }
  }

  // ---------------------------------------------------------------- steps on records

  /** t moves to pc, and as far as records go that is all. */
  lemma MoveRooted(c: Config, s: State, s2: State, t: TxnId)
    requires RootInv(c, s) && t in s2.txns && s2.txns == s.txns[t := s2.txns[t]]
    requires s2.disk.records == s.disk.records && s2.images == s.images && s2.rewrites == s.rewrites
    ensures RootInv(c, s2) <==>
      var com := Committing(s2.txns[t].pc); com.Some? ==> com.value.1.layers == c.rootfs(com.value.0)
  {
    hide Committing, ReadableRecord, RecordLayers;
    assert forall u | u in s.txns && u != t :: s2.txns[u] == s.txns[u];
  }

  lemma LandRooted(c: Config, s: State, s2: State, id: Digest, img: Image, bytes: nat)
    requires RootInv(c, s) && img.layers == c.rootfs(id) && s2 == s.(disk := WithRecord(s.disk, id, img, bytes))
    ensures RootInv(c, s2)
  {
    hide CommitsRooted;
  }

  lemma CommitStartRooted(c: Config, s: State, t: TxnId, id: Digest, img: Image)
    requires RootInv(c, s) && Enabled(c, s, CommitStart(t, id, img))
    ensures RootInv(c, Step(c, s, CommitStart(t, id, img))) <==> img.layers == c.rootfs(id)
  {
    hide RootInv, StageStep, LayerStep, RewriteStep, ReserveOnce;
    MoveRooted(c, s, Step(c, s, CommitStart(t, id, img)), t);
  }

  lemma CommitIsRooted(c: Config, s: State, t: TxnId)
    requires RootInv(c, s) && t in s.txns && Committing(s.txns[t].pc).Some?
    ensures Committing(s.txns[t].pc).value.1.layers == c.rootfs(Committing(s.txns[t].pc).value.0)
  {
  }

  lemma MoveRecordRooted(c: Config, s: State, t: TxnId, io: IO)
    requires RootInv(c, s) && Enabled(c, s, MoveRecord(t, io))
    ensures RootInv(c, Step(c, s, MoveRecord(t, io)))
  {
    hide RootInv, StageStep, LayerStep, RewriteStep, ReserveOnce, WithRecord;
    var pc, s2 := s.txns[t].pc, Step(c, s, MoveRecord(t, io));
    CommitIsRooted(c, s, t);
    MoveRooted(c, s, s2.(disk := s.disk), t);
    if io != Failed {
      LandRooted(c, s2.(disk := s.disk), s2, pc.id, pc.img, pc.img.bytes);
    }
  }

  lemma ImagesMoveRooted(c: Config, s: State, s2: State, id: Digest, img: Image)
    requires RootInv(c, s) && img.layers == c.rootfs(id) && s2.images == s.images[id := img]
    requires s2.disk == s.disk && s2.rewrites == s.rewrites
    requires forall t | t in s2.txns ::
        t in s.txns && (s2.txns[t].pc == s.txns[t].pc || Committing(s2.txns[t].pc).None?)
    ensures RootInv(c, s2)
  {
    hide Committing, ReadableRecord, RecordLayers;
  }

  lemma InstallRecordRooted(c: Config, s: State, t: TxnId)
    requires RootInv(c, s) && Enabled(c, s, InstallRecord(t))
    ensures RootInv(c, Step(c, s, InstallRecord(t)))
  {
    hide RootInv, StageStep, LayerStep, RewriteStep, ReserveOnce;
    CommitIsRooted(c, s, t);
    ImagesMoveRooted(c, s, Step(c, s, InstallRecord(t)), s.txns[t].pc.id, s.txns[t].pc.img);
  }

  lemma VictimRooted(c: Config, s: State, s2: State, v: Digest)
    requires RootInv(c, s) && VictimGoes(s, s2, v)
    ensures RootInv(c, s2)
  {
    hide CommitsRooted, RewritesRooted, ReadableRecord, RecordLayers;
  }

  lemma RoundRooted(c: Config, s: State, t: TxnId, ok: bool)
    requires RootInv(c, s) && Enabled(c, s, ReserveStep(t, ok)) && s.mu.pending == []
    ensures RootInv(c, Step(c, s, ReserveStep(t, ok)))
  {
    hide RootInv, Step, Calm, VictimGoes, Aloof;
    RoundCalm(c, s, t, ok);
    var s2 := Step(c, s, ReserveStep(t, ok));
    if Calm(s, s2) {
      CalmIsAloof(s, s2);
      AloofRooted(c, s, s2);
    } else {
      var v :| VictimGoes(s, s2, v);
      VictimRooted(c, s, s2, v);
    }
  }

  lemma ReserveRooted(c: Config, s: State, t: TxnId, ok: bool)
    requires RootInv(c, s) && Enabled(c, s, ReserveStep(t, ok))
    ensures RootInv(c, Step(c, s, ReserveStep(t, ok)))
  {
    hide RootInv, Step, Aloof;
    if s.mu.pending != [] {
      VisitAloof(c, s, t, ok);
      AloofRooted(c, s, Step(c, s, ReserveStep(t, ok)));
    } else {
      RoundRooted(c, s, t, ok);
    }
  }

  lemma RewritesRootedStep(c: Config, s: State, a: Action)
    requires RootInv(c, s) && Enabled(c, s, a) && (a.Touch? || a.Upgrade? || a.AccountRewrite?)
    ensures RootInv(c, Step(c, s, a))
  {
    hide StageStep, LayerStep, CommitStep, ReserveOnce, RecordsRooted, CommitsRooted;
  }

  lemma MoveRewriteRooted(c: Config, s: State, w: WriterId, bytes: nat, io: IO)
    requires RootInv(c, s) && Enabled(c, s, MoveRewrite(w, bytes, io))
    ensures RootInv(c, Step(c, s, MoveRewrite(w, bytes, io)))
  {
    hide StageStep, LayerStep, CommitStep, ReserveOnce, ImagesRooted, CommitsRooted;
  }

  /** A step keeps what is on disk and on its way there rooted exactly when it does not start a commit that is not. */
  lemma StepKeepsRoots(c: Config, s: State, a: Action)
    requires RootInv(c, s) && Enabled(c, s, a)
    ensures RootInv(c, Step(c, s, a)) <==> Rooted(c, a)
  {
    hide RootInv, Step, Enabled, Aloof;
    match a
    case CommitStart(t, id, img) => CommitStartRooted(c, s, t, id, img);
    case MoveRecord(t, io) => MoveRecordRooted(c, s, t, io);
    case InstallRecord(t) => InstallRecordRooted(c, s, t);
    case Touch(_, _, _) | Upgrade(_, _, _) | AccountRewrite(_) => RewritesRootedStep(c, s, a);
    case MoveRewrite(w, bytes, io) => MoveRewriteRooted(c, s, w, bytes, io);
    case ReserveStep(t, ok) => ReserveRooted(c, s, t, ok);
    case _ =>
      StepAloof(c, s, a);
      AloofRooted(c, s, Step(c, s, a));
  }

  // ---------------------------------------------------------------- who backs them

  lemma CommitStartBacked(c: Config, s: State, t: TxnId, id: Digest, img: Image)
    requires BackedInv(s) && Enabled(c, s, CommitStart(t, id, img))
    ensures BackedInv(Step(c, s, CommitStart(t, id, img)))
  {
    hide StageStep, LayerStep, RewriteStep, ReserveOnce, Backed;
    var s2 := Step(c, s, CommitStart(t, id, img));
    forall i | Backed(s.images, s.txns, i) ensures Backed(s2.images, s2.txns, i) { StillBacked(s, s2, i); }
  }

  lemma MoveRecordBacked(c: Config, s: State, t: TxnId, io: IO)
    requires BackedInv(s) && Enabled(c, s, MoveRecord(t, io))
    ensures BackedInv(Step(c, s, MoveRecord(t, io))) <==> Owned(s, MoveRecord(t, io))
  {
    hide StageStep, LayerStep, RewriteStep, ReserveOnce, Backed;
    var id, s2 := s.txns[t].pc.id, Step(c, s, MoveRecord(t, io));
    forall i ensures Backed(s.images, s.txns, i) ==> Backed(s2.images, s2.txns, i) {
      if Backed(s.images, s.txns, i) { StillBacked(s, s2, i); }
    }
    if io == Done {
      InstallerBacks(s2, t);
    } else if io == DoneThenFailed {
      assert Hex(id) in s2.disk.records;
      if Backed(s2.images, s2.txns, id) { StillBacked(s2, s, id); }
    }
  }

  lemma InstallerBacks(s: State, t: TxnId)
    requires t in s.txns && s.txns[t].pc.InstallingRecord?
    ensures Backed(s.images, s.txns, s.txns[t].pc.id)
  {
  }

  lemma InstallRecordBacked(c: Config, s: State, t: TxnId)
    requires BackedInv(s) && Enabled(c, s, InstallRecord(t))
    ensures BackedInv(Step(c, s, InstallRecord(t)))
  {
    hide StageStep, LayerStep, RewriteStep, ReserveOnce, Backed;
    var s2 := Step(c, s, InstallRecord(t));
    forall i | Backed(s.images, s.txns, i) ensures Backed(s2.images, s2.txns, i) { StillBacked(s, s2, i); }
  }

  lemma VictimBacked(s: State, s2: State, v: Digest)
    requires BackedInv(s) && VictimGoes(s, s2, v)
    ensures BackedInv(s2)
  {
  }

  lemma RoundBacked(c: Config, s: State, t: TxnId, ok: bool)
    requires BackedInv(s) && Enabled(c, s, ReserveStep(t, ok)) && s.mu.pending == []
    ensures BackedInv(Step(c, s, ReserveStep(t, ok)))
  {
    hide BackedInv, Step, Calm, VictimGoes, Aloof;
    RoundCalm(c, s, t, ok);
    var s2 := Step(c, s, ReserveStep(t, ok));
    if Calm(s, s2) {
      CalmIsAloof(s, s2);
      AloofBacked(s, s2);
    } else {
      var v :| VictimGoes(s, s2, v);
      VictimBacked(s, s2, v);
    }
  }

  lemma ReserveBacked(c: Config, s: State, t: TxnId, ok: bool)
    requires BackedInv(s) && Enabled(c, s, ReserveStep(t, ok))
    ensures BackedInv(Step(c, s, ReserveStep(t, ok)))
  {
    hide BackedInv, Step, Aloof;
    if s.mu.pending != [] {
      VisitAloof(c, s, t, ok);
      AloofBacked(s, Step(c, s, ReserveStep(t, ok)));
    } else {
      RoundBacked(c, s, t, ok);
    }
  }

  lemma RewritesBacked(c: Config, s: State, a: Action)
    requires BackedInv(s) && Enabled(c, s, a) && (a.Touch? || a.Upgrade? || a.AccountRewrite?)
    ensures BackedInv(Step(c, s, a))
  {
    hide StageStep, LayerStep, CommitStep, ReserveOnce, Backed;
    var s2 := Step(c, s, a);
    forall i | Backed(s.images, s.txns, i) ensures Backed(s2.images, s2.txns, i) { StillBacked(s, s2, i); }
  }

  lemma MoveRewriteBacked(c: Config, s: State, w: WriterId, bytes: nat, io: IO)
    requires BackedInv(s) && Enabled(c, s, MoveRewrite(w, bytes, io))
    ensures BackedInv(Step(c, s, MoveRewrite(w, bytes, io))) <==> Owned(s, MoveRewrite(w, bytes, io))
  {
    hide StageStep, LayerStep, CommitStep, ReserveOnce, Backed;
    var s2 := Step(c, s, MoveRewrite(w, bytes, io));
    assert s2.txns == s.txns && s2.images == s.images;
    if io != Failed { assert Hex(s.rewrites[w].id) in s2.disk.records; }
  }

  /** A step keeps every record on disk backed exactly when it puts there none that is not. */
  lemma StepKeepsBacked(c: Config, s: State, a: Action)
    requires BackedInv(s) && Enabled(c, s, a)
    ensures BackedInv(Step(c, s, a)) <==> Owned(s, a)
  {
    hide BackedInv, Step, Enabled, Aloof, Backed;
    match a
    case CommitStart(t, id, img) => CommitStartBacked(c, s, t, id, img);
    case MoveRecord(t, io) => MoveRecordBacked(c, s, t, io);
    case InstallRecord(t) => InstallRecordBacked(c, s, t);
    case Touch(_, _, _) | Upgrade(_, _, _) | AccountRewrite(_) => RewritesBacked(c, s, a);
    case MoveRewrite(w, bytes, io) => MoveRewriteBacked(c, s, w, bytes, io);
    case ReserveStep(t, ok) => ReserveBacked(c, s, t, ok);
    case _ =>
      StepAloof(c, s, a);
      AloofBacked(s, Step(c, s, a));
  }

  // ---------------------------------------------------------------- orderly runs

  /** What ties the disk to the tables: layer directories, the layers that records name, and who stands for them. */
  ghost predicate DiskInv(c: Config, s: State) {
    DirsInv(s) && RootInv(c, s) && BackedInv(s)
  }

  ghost predicate Orderly(c: Config, s: State, a: Action) {
    Rooted(c, a) && Owned(s, a)
  }

  /** A step keeps the disk tied to the tables exactly when it is orderly. */
  lemma StepKeepsDisk(c: Config, s: State, a: Action)
    requires Inv(s) && DiskInv(c, s) && Enabled(c, s, a)
    ensures DiskInv(c, Step(c, s, a)) <==> Orderly(c, s, a)
  {
    hide Inv, DirsInv, RootInv, BackedInv, Step, Enabled, Rooted, Owned;
    StepKeepsDirs(c, s, a);
    StepKeepsRoots(c, s, a);
    StepKeepsBacked(c, s, a);
  }

  /** A state with that tie has every record complete. */
  lemma CrashPoint(c: Config, s: State)
    requires Inv(s) && DiskInv(c, s)
    ensures RecordsComplete(s.disk)
  {
    hide Inv, DirsInv, Complete, CommitsRooted, RewritesRooted;
    TableComplete(s);
    forall n | n in s.disk.records
      ensures ReadableRecord(n, s.disk.records[n])
      ensures forall d | d in RecordLayers(s.disk.records[n]) :: d in s.layers
    {
      BackedPresent(c, s, n.digest);
    }
  }

  lemma BackedPresent(c: Config, s: State, id: Digest)
    requires Inv(s) && RootInv(c, s) && Backed(s.images, s.txns, id)
    ensures forall d | d in c.rootfs(id) :: d in s.layers && Referenced(Tab(s), d)
  {
    hide Inv, RecordsRooted, RewritesRooted, Referenced;
    if id in s.images {
      ImagePresent(s, id);
      ImageRefers(s, id);
    } else {
      var t :| t in s.txns && s.txns[t].pc.InstallingRecord? && s.txns[t].pc.id == id;
      CommitIsRooted(c, s, t);
      CommitPresent(s, t);
      CommitRefers(s, t);
    }
  }

  lemma ImageRefers(s: State, id: Digest)
    requires id in s.images
    ensures forall d | d in s.images[id].layers :: Referenced(Tab(s), d)
  {
  }

  lemma CommitRefers(s: State, t: TxnId)
    requires Inv(s) && t in s.txns && s.txns[t].pc.InstallingRecord?
    ensures forall d | d in s.txns[t].pc.img.layers :: Referenced(Tab(s), d)
  {
    hide Inv;
    TxnIsOk(s, t);
    HeldHas(s.txns, t);
  }

  /** While the tie holds, orderly steps are safe. */
  lemma OrderlyIsSafe(c: Config, s: State, a: Action)
    requires Inv(s) && DiskInv(c, s) && Enabled(c, s, a) && Orderly(c, s, a)
    ensures Safe(s, a)
  {
    hide Inv, DirsInv, Complete, CommitsRooted, Backed, Referenced;
    if a.MoveRewrite? && a.io != Failed {
      TableComplete(s);
      BackedPresent(c, s, s.rewrites[a.w].id);
    }
    if Drops(s, a) {
      forall n | n in s.disk.records ensures s.mu.pending[0] !in RecordLayers(s.disk.records[n]) {
        BackedPresent(c, s, n.digest);
      }
    }
  }

  /** Every step of the run is orderly. */
  ghost predicate OrderlyRun(c: Config, s: State, acts: seq<Action>)
    decreases |acts|
  {
    acts == [] || (Enabled(c, s, acts[0]) && Orderly(c, s, acts[0]) && OrderlyRun(c, Step(c, s, acts[0]), acts[1..]))
  }

  /** In every state the run goes through, the disk is tied to the tables. */
  ghost predicate TiedThroughout(c: Config, s: State, acts: seq<Action>)
    decreases |acts|
  {
    DiskInv(c, s) && (acts == [] || (Enabled(c, s, acts[0]) && TiedThroughout(c, Step(c, s, acts[0]), acts[1..])))
  }

  /** The disk stays tied to the tables throughout a run exactly when the run is orderly, and then it is safe. */
  lemma {:induction false} RunsKeepDisk(c: Config, s: State, acts: seq<Action>, s2: State)
    requires Inv(s) && DiskInv(c, s) && Runs(c, s, acts, s2)
    ensures TiedThroughout(c, s, acts) <==> OrderlyRun(c, s, acts)
    ensures OrderlyRun(c, s, acts) ==> SafeRun(c, s, acts) && Inv(s2) && DiskInv(c, s2)
    decreases |acts|
  {
    hide Inv, DiskInv, Step, Enabled, Orderly, Safe;
    if acts != [] {
      StepKeeps(c, s, acts[0]);
      StepKeepsDisk(c, s, acts[0]);
      if Orderly(c, s, acts[0]) {
        OrderlyIsSafe(c, s, acts[0]);
        RunsKeepDisk(c, Step(c, s, acts[0]), acts[1..], s2);
      } else {
        TiedStart(c, Step(c, s, acts[0]), acts[1..]);
      }
    }
  }

  lemma TiedStart(c: Config, s: State, acts: seq<Action>)
    ensures TiedThroughout(c, s, acts) ==> DiskInv(c, s)
  {
  }

  /** Every commit of the run is rooted. */
  ghost predicate RootedRun(c: Config, acts: seq<Action>) {
    forall i | 0 <= i < |acts| :: Rooted(c, acts[i])
  }

  lemma {:induction false} RunsKeepRoots(c: Config, s: State, acts: seq<Action>, s2: State)
    requires RootInv(c, s) && Runs(c, s, acts, s2) && RootedRun(c, acts)
    ensures RootInv(c, s2)
    decreases |acts|
  {
    hide RootInv, Step, Enabled, Rooted;
    if acts != [] {
      StepKeepsRoots(c, s, acts[0]);
      assert forall i | 0 <= i < |acts[1..]| :: acts[1..][i] == acts[i + 1];
      RunsKeepRoots(c, Step(c, s, acts[0]), acts[1..], s2);
    }
  }

  /** The records start-up accepted name the layers their ids determine. */
  ghost predicate Genuine(c: Config, disk: Disk) {
    forall n | n in SweptDisk(disk).records :: RecordLayers(SweptDisk(disk).records[n]) == c.rootfs(n.digest)
  }

  lemma OpenedDisk(c: Config, disk: Disk)
    requires Genuine(c, disk)
    ensures DiskInv(c, Opened(disk))
  {
    hide SweptLayers, SweptImages, KeptDirs, KeptRecords, DirsInv;
    OpenedDirs(disk);
    OpenedRecords(c, disk);
  }

  lemma OpenedRecords(c: Config, disk: Disk)
    requires Genuine(c, disk)
    ensures RootInv(c, Opened(disk)) && BackedInv(Opened(disk))
  {
    var known := SweptLayers(disk.dirs).Keys;
    var images := SweptImages(disk.records, known);
    forall i | i in images ensures images[i].layers == c.rootfs(i) {
      SweptImageAt(disk.records, known, i);
      assert Hex(i) in SweptDisk(disk).records;
    }
    forall n | n in SweptDisk(disk).records ensures n.digest in images {
      SweptImageAt(disk.records, known, n.digest);
    }
  }
}
