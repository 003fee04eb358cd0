/** Pins across restarts: when an image that is pinned in memory has a pinned record on disk. */
module CachePins {
  import opened CacheTables
  import opened CacheDisk
  import opened CacheProtocol
  import opened CacheDirs
  import opened CacheCrash

  ghost predicate PinOnDisk(disk: Disk, i: Digest) {
    && Hex(i) in disk.records && disk.records[Hex(i)].Record?
    && disk.records[Hex(i)].doc.Some? && disk.records[Hex(i)].doc.value.pinned
  }

  ghost predicate PinnedIn(images: map<Digest, Image>, i: Digest) {
    i in images && images[i].pinned
  }

  /** Each pinned image has a pinned record on disk. */
  ghost predicate PinsRecorded(s: State) {
    forall i | PinnedIn(s.images, i) :: PinOnDisk(s.disk, i)
  }

  /** The steps that leave a pinned image without a pinned record: pinning it before its record is rewritten, landing
      a stale copy or a recommitted record without the pin, and installing a pinned image over such a record. */
  ghost predicate LosesPin(s: State, a: Action) {
    match a
    case Upgrade(_, id, pin) => pin && !PinOnDisk(s.disk, id)
    case MoveRewrite(w, _, io) =>
      && io != Failed && w in s.rewrites && s.rewrites[w].Staged? && !s.rewrites[w].img.pinned
      && PinnedIn(s.images, s.rewrites[w].id)
    case MoveRecord(t, io) =>
      && io != Failed && t in s.txns && s.txns[t].pc.MovingRecord? && !s.txns[t].pc.img.pinned
      && PinnedIn(s.images, s.txns[t].pc.id)
    case InstallRecord(t) =>
      && t in s.txns && s.txns[t].pc.InstallingRecord? && s.txns[t].pc.img.pinned
      && !PinOnDisk(s.disk, s.txns[t].pc.id)
    case _ => false
  }

  // ---------------------------------------------------------------- one step

  /** A record that lands decides the pin on disk of its image and no other. */
  lemma Landing(disk: Disk, id: Digest, img: Image, bytes: nat, i: Digest)
    ensures PinOnDisk(WithRecord(disk, id, img, bytes), i) <==> if i == id then img.pinned else PinOnDisk(disk, i)
  {
  }

  lemma LandingKeeps(s: State, s2: State, id: Digest, img: Image, bytes: nat)
    requires PinsRecorded(s) && s2.images == s.images && s2.disk == WithRecord(s.disk, id, img, bytes)
    ensures PinsRecorded(s2) <==> img.pinned || !PinnedIn(s.images, id)
  {
    hide PinOnDisk, WithRecord, PinnedIn;
    forall i ensures PinOnDisk(s2.disk, i) <==> if i == id then img.pinned else PinOnDisk(s.disk, i) {
      Landing(s.disk, id, img, bytes, i);
    }
  }

  lemma ImageKeeps(s: State, s2: State, id: Digest, img: Image)
    requires PinsRecorded(s) && s2.disk == s.disk && s2.images == s.images[id := img]
    ensures PinsRecorded(s2) <==> img.pinned ==> PinOnDisk(s.disk, id)
  {
    hide PinOnDisk;
    forall i ensures PinnedIn(s2.images, i) <==> if i == id then img.pinned else PinnedIn(s.images, i) {}
  }

  lemma VictimKeeps(s: State, s2: State, v: Digest)
    requires PinsRecorded(s) && VictimGoes(s, s2, v)
    ensures PinsRecorded(s2)
  {
    forall i | PinnedIn(s2.images, i) ensures PinOnDisk(s2.disk, i) {
      assert PinnedIn(s.images, i);
    }
  }

  lemma SameKeeps(s: State, s2: State)
    requires PinsRecorded(s) && s2.disk.records == s.disk.records && s2.images == s.images
    ensures PinsRecorded(s2)
  {
    forall i ensures PinOnDisk(s2.disk, i) <==> PinOnDisk(s.disk, i) {}
  }

  lemma ReserveKeepsPins(c: Config, s: State, t: TxnId, ok: bool)
    requires PinsRecorded(s) && Enabled(c, s, ReserveStep(t, ok))
    ensures PinsRecorded(Step(c, s, ReserveStep(t, ok)))
  {
    hide Step, Calm, VictimGoes, PinsRecorded;
    var s2 := Step(c, s, ReserveStep(t, ok));
    if s.mu.pending != [] {
      VisitIs(c, s, t, ok);
      SameKeeps(s, s2);
    } else {
      RoundCalm(c, s, t, ok);
      if Calm(s, s2) {
        CalmIsAloof(s, s2);
        SameKeeps(s, s2);
      } else {
        var v :| VictimGoes(s, s2, v);
        VictimKeeps(s, s2, v);
      }
    }
  }

  lemma MoveRecordKeepsPins(c: Config, s: State, t: TxnId, io: IO)
    requires PinsRecorded(s) && Enabled(c, s, MoveRecord(t, io))
    ensures PinsRecorded(Step(c, s, MoveRecord(t, io))) <==> !LosesPin(s, MoveRecord(t, io))
  {
    hide StageStep, LayerStep, RewriteStep, ReserveOnce, WithRecord, PinsRecorded;
    var pc, s2 := s.txns[t].pc, Step(c, s, MoveRecord(t, io));
    if io == Failed { SameKeeps(s, s2); } else { LandingKeeps(s, s2, pc.id, pc.img, pc.img.bytes); }
  }

  lemma MoveRewriteKeepsPins(c: Config, s: State, w: WriterId, bytes: nat, io: IO)
    requires PinsRecorded(s) && Enabled(c, s, MoveRewrite(w, bytes, io))
    ensures PinsRecorded(Step(c, s, MoveRewrite(w, bytes, io))) <==> !LosesPin(s, MoveRewrite(w, bytes, io))
  {
    hide StageStep, LayerStep, CommitStep, ReserveOnce, WithRecord, PinsRecorded;
    var r, s2 := s.rewrites[w], Step(c, s, MoveRewrite(w, bytes, io));
    if io == Failed { SameKeeps(s, s2); } else { LandingKeeps(s, s2, r.id, r.img, bytes); }
  }

  lemma InstallRecordKeepsPins(c: Config, s: State, t: TxnId)
    requires PinsRecorded(s) && Enabled(c, s, InstallRecord(t))
    ensures PinsRecorded(Step(c, s, InstallRecord(t))) <==> !LosesPin(s, InstallRecord(t))
  {
    hide StageStep, LayerStep, RewriteStep, ReserveOnce, PinsRecorded;
    ImageKeeps(s, Step(c, s, InstallRecord(t)), s.txns[t].pc.id, s.txns[t].pc.img);
  }

  lemma TableKeepsPins(c: Config, s: State, a: Action)
    requires PinsRecorded(s) && Enabled(c, s, a) && (a.Touch? || a.Upgrade? || a.AccountRewrite?)
    ensures PinsRecorded(Step(c, s, a)) <==> !LosesPin(s, a)
  {
    hide StageStep, LayerStep, CommitStep, ReserveOnce, PinOnDisk;
    var id, s2 := if a.AccountRewrite? then s.rewrites[a.w].id else a.id, Step(c, s, a);
    if id in s.images {
      ImageKeeps(s, s2, id, s2.images[id]);
      assert PinnedIn(s.images, id) ==> PinOnDisk(s.disk, id);
    } else {
      SameKeeps(s, s2);
    }
  }

  lemma CommitStartKeepsPins(c: Config, s: State, t: TxnId, id: Digest, img: Image)
    requires PinsRecorded(s) && Enabled(c, s, CommitStart(t, id, img))
    ensures PinsRecorded(Step(c, s, CommitStart(t, id, img)))
  {
    hide StageStep, LayerStep, RewriteStep, ReserveOnce, PinsRecorded;
    SameKeeps(s, Step(c, s, CommitStart(t, id, img)));
  }

  /** A step keeps each pinned image recorded as pinned exactly when it is none of those. */
  lemma StepKeepsPins(c: Config, s: State, a: Action)
    requires PinsRecorded(s) && Enabled(c, s, a)
    ensures PinsRecorded(Step(c, s, a)) <==> !LosesPin(s, a)
  {
    hide PinsRecorded, PinOnDisk, Step, Enabled, Aloof;
    match a
    case ReserveStep(t, ok) => ReserveKeepsPins(c, s, t, ok);
    case CommitStart(t, id, img) => CommitStartKeepsPins(c, s, t, id, img);
    case MoveRecord(t, io) => MoveRecordKeepsPins(c, s, t, io);
    case InstallRecord(t) => InstallRecordKeepsPins(c, s, t);
    case MoveRewrite(w, bytes, io) => MoveRewriteKeepsPins(c, s, w, bytes, io);
    case Touch(_, _, _) | Upgrade(_, _, _) | AccountRewrite(_) => TableKeepsPins(c, s, a);
    case _ =>
      StepAloof(c, s, a);
      AloofPins(s, Step(c, s, a));
  }

  lemma AloofPins(s: State, s2: State)
    requires PinsRecorded(s) && Aloof(s, s2)
    ensures PinsRecorded(s2)
  {
    SameKeeps(s, s2);
  }

  // ---------------------------------------------------------------- every run

  /** No step of the run is one of those. */
  ghost predicate PinsKept(c: Config, s: State, acts: seq<Action>)
    decreases |acts|
  {
    acts == [] || (Enabled(c, s, acts[0]) && !LosesPin(s, acts[0]) && PinsKept(c, Step(c, s, acts[0]), acts[1..]))
  }

  /** In every state the run goes through, each pinned image has a pinned record. */
  ghost predicate PinsThroughout(c: Config, s: State, acts: seq<Action>)
    decreases |acts|
  {
    PinsRecorded(s) && (acts == [] || (Enabled(c, s, acts[0]) && PinsThroughout(c, Step(c, s, acts[0]), acts[1..])))
  }

  lemma {:induction false} RunsKeepPins(c: Config, s: State, acts: seq<Action>, s2: State)
    requires PinsRecorded(s) && Runs(c, s, acts, s2)
    ensures PinsThroughout(c, s, acts) <==> PinsKept(c, s, acts)
    ensures PinsKept(c, s, acts) ==> PinsRecorded(s2)
    decreases |acts|
  {
    hide PinsRecorded, LosesPin, Step, Enabled;
    if acts != [] {
      StepKeepsPins(c, s, acts[0]);
      if !LosesPin(s, acts[0]) {
        RunsKeepPins(c, Step(c, s, acts[0]), acts[1..], s2);
      }
    }
  }

  lemma OpenedPins(disk: Disk)
    ensures PinsRecorded(Opened(disk))
  {
    var known := SweptLayers(disk.dirs).Keys;
    forall i | PinnedIn(Opened(disk).images, i) ensures PinOnDisk(Opened(disk).disk, i) {
      SweptImageAt(disk.records, known, i);
    }
  }

  // ---------------------------------------------------------------- restarts

  /** A start-up finds the image, pinned as given. */
  ghost predicate FoundAs(disk: Disk, i: Digest, pinned: bool) {
    i in SweptTables(disk).images && (SweptTables(disk).images[i].pinned <==> pinned)
  }

  /** A start-up finds each pinned image, and finds it pinned. */
  ghost predicate PinsFound(s: State) {
    forall i | PinnedIn(s.images, i) :: FoundAs(s.disk, i, true)
  }

  lemma FoundAsRecorded(disk: Disk, i: Digest, pinned: bool)
    requires RecordsComplete(disk)
    ensures FoundAs(disk, i, pinned) <==> Hex(i) in disk.records && (PinOnDisk(disk, i) <==> pinned)
  {
    SweepKeepsExactly(disk, i);
    SweptImageAt(disk.records, SweptLayers(disk.dirs).Keys, i);
  }

  /** From any disk: each pinned image has a pinned record throughout a run exactly when no step of the run loses one.
      And in a state whose records are complete, a restart finds each pinned image pinned exactly when it has one. */
  lemma PinsSurvive(c: Config, disk: Disk, acts: seq<Action>, s: State)
    requires Runs(c, Opened(disk), acts, s)
    ensures PinsThroughout(c, Opened(disk), acts) <==> PinsKept(c, Opened(disk), acts)
    ensures RecordsComplete(s.disk) ==> (PinsFound(s) <==> PinsRecorded(s))
  {
    hide Step, Enabled, Opened, RecordsComplete, FoundAs, PinOnDisk, LosesPin;
    OpenedPins(disk);
    RunsKeepPins(c, Opened(disk), acts, s);
    if RecordsComplete(s.disk) {
      forall i | PinnedIn(s.images, i) ensures FoundAs(s.disk, i, true) <==> PinOnDisk(s.disk, i) {
        FoundAsRecorded(s.disk, i, true);
        PinHasRecord(s.disk, i);
      }
    }
  }

  lemma PinHasRecord(disk: Disk, i: Digest)
    ensures PinOnDisk(disk, i) ==> Hex(i) in disk.records
  {
  }
}
