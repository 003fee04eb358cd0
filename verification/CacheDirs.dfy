/** The layer directories of the cache, in every interleaving and at every crash point. */
module CacheDirs {
  import opened Options
  import opened CacheTables
  import opened CacheDisk
  import opened CacheProtocol
  import opened CacheInvariants

  /** Every layer in the table is complete on disk, with the size it is accounted at. */
  ghost predicate LayersStored(layers: map<Digest, nat>, dirs: map<Name, LayerEntry>) {
    forall d | d in layers :: Hex(d) in dirs && ReadLayer(Hex(d), dirs[Hex(d)]) == Some(layers[d])
  }

  /** Directories outside the table hold nothing but what a writer put there. */
  ghost predicate DirsPlain(layers: map<Digest, nat>, dirs: map<Name, LayerEntry>) {
    forall n | n in dirs :: n.Hex? && dirs[n].Folder? && (n.digest !in layers ==> dirs[n].other == 0)
  }

  /** How far the writer of a layer has come. */
  ghost predicate Progress(pc: PC, dirs: map<Name, LayerEntry>) {
    match pc
    case MovingIndex(d, _, _) => Hex(d) in dirs
    case MovingDoc(d, i, _) => Hex(d) in dirs && dirs[Hex(d)].Folder? && dirs[Hex(d)].index == Some(i)
    case Installing(d, i, j) => Hex(d) in dirs && ReadLayer(Hex(d), dirs[Hex(d)]) == Some(i + j)
    case _ => true
  }

  ghost predicate WritersProgress(txns: map<TxnId, Txn>, dirs: map<Name, LayerEntry>) {
    forall t | t in txns :: Progress(txns[t].pc, dirs)
  }

  /** What ties the layer directories to the table and to their writers. */
  ghost predicate DirsInv(s: State) {
    LayersStored(s.layers, s.disk.dirs) && DirsPlain(s.layers, s.disk.dirs) && WritersProgress(s.txns, s.disk.dirs)
  }

  // ---------------------------------------------------------------- steps without a file operation

  /** Places that owe something to the disk, or that the disk owes something to. */
  ghost predicate Owes(pc: PC) {
    pc.MovingIndex? || pc.MovingDoc? || pc.Installing? || pc.InstallingRecord?
  }

  /** t goes from one place that owes the disk nothing to another, still committing what it was committing, if
      anything. */
  ghost predicate Goes(txns: map<TxnId, Txn>, txns2: map<TxnId, Txn>, t: TxnId) {
    && t in txns2 && txns2 == txns[t := txns2[t]] && !Owes(txns2[t].pc) && (t in txns ==> !Owes(txns[t].pc))
    && (Committing(txns2[t].pc).Some? ==>
          && t in txns && Committing(txns[t].pc).Some?
          && Committing(txns2[t].pc).value.0 == Committing(txns[t].pc).value.0
          && Committing(txns2[t].pc).value.1.layers == Committing(txns[t].pc).value.1.layers)
  }

  /** The disk, layers, images and rewrites stay, and at most one transaction goes on, as Goes says. */
  ghost predicate Calm(s: State, s2: State) {
    && s2.disk == s.disk && s2.layers == s.layers && s2.images == s.images && s2.rewrites == s.rewrites
    && (s2.txns == s.txns || exists t :: Goes(s.txns, s2.txns, t))
  }

  /** The actions that are calm. */
  ghost predicate OffDisk(a: Action) {
    && !a.ReserveStep? && !a.MakeDir? && !a.MoveIndex? && !a.MoveDoc? && !a.Install?
    && !a.CommitStart? && !a.MoveRecord? && !a.InstallRecord?
    && !a.Touch? && !a.Upgrade? && !a.MoveRewrite? && !a.AccountRewrite?
  }

  lemma CalmPutStart(c: Config, s: State, a: Action)
    requires Enabled(c, s, a)
        && (a.Begin? || (a.Use? && a.d in s.layers) || a.PutStart? || a.Acquire? || a.CheckPresent?)
    ensures Calm(s, Step(c, s, a))
  {
    hide LayerStep, CommitStep, RewriteStep, ReserveOnce, PinnedBytes, Held;
    assert Goes(s.txns, Step(c, s, a).txns, a.t);
  }

  lemma CalmStage(c: Config, s: State, a: Action)
    requires Enabled(c, s, a) && (a.ReadCeiling? || a.Stage? || a.StageTooBig? || a.StageFails?)
    ensures Calm(s, Step(c, s, a))
  {
    hide LayerStep, CommitStep, RewriteStep, ReserveOnce, PinnedBytes, Held;
    assert Goes(s.txns, Step(c, s, a).txns, a.t);
  }

  lemma CalmReserve(c: Config, s: State, a: Action)
    requires Enabled(c, s, a) && a.ReserveStart?
    ensures Calm(s, Step(c, s, a))
  {
    hide Tab, PinnedBytes, LayerStep, CommitStep, RewriteStep, ReserveOnce;
    var job, s2 := s.txns[a.t].pc.job, Step(c, s, a);
    assert s2 == Go(s, a.t, AfterGrant(job)) || s2 == Go(s, a.t, AfterRefusal(job)) || s2.txns == s.txns;
    if s2.txns != s.txns {
      assert Goes(s.txns, s2.txns, a.t);
    }
  }

  lemma CalmLeave(c: Config, s: State, a: Action)
    requires Enabled(c, s, a) && (a.GiveBack? || a.Unlock? || a.Leave?)
    ensures Calm(s, Step(c, s, a))
  {
    hide StageStep, CommitStep, RewriteStep, ReserveOnce;
    assert Goes(s.txns, Step(c, s, a).txns, a.t);
  }

  lemma PcGoes(txns: map<TxnId, Txn>, txns2: map<TxnId, Txn>, t: TxnId)
    requires t in txns && t in txns2 && txns2 == txns[t := txns2[t]] && !Owes(txns[t].pc) && !Owes(txns2[t].pc)
    requires Committing(txns2[t].pc).Some? ==>
      && Committing(txns[t].pc).Some? && Committing(txns2[t].pc).value.0 == Committing(txns[t].pc).value.0
      && Committing(txns2[t].pc).value.1.layers == Committing(txns[t].pc).value.1.layers
    ensures Goes(txns, txns2, t)
  {
  }

  lemma CalmCommit(c: Config, s: State, a: Action)
    requires Enabled(c, s, a) && (a.StageRecord? || a.Abort? || a.Finish?)
    ensures Calm(s, Step(c, s, a))
  {
    hide StageStep, LayerStep, RewriteStep, ReserveOnce, WithRecord, Goes;
    PcGoes(s.txns, Step(c, s, a).txns, a.t);
  }

  lemma StepCalm(c: Config, s: State, a: Action)
    requires Enabled(c, s, a) && OffDisk(a)
    ensures Calm(s, Step(c, s, a))
  {
    hide Enabled, LayerStep, CommitStep, RewriteStep, ReserveOnce, Goes;
    if a.Use? && a.d !in s.layers { return; }
    hide Step, Calm;
    if a.Begin? || a.Use? || a.PutStart? || a.Acquire? || a.CheckPresent? { CalmPutStart(c, s, a); }
    else if a.ReadCeiling? || a.Stage? || a.StageTooBig? || a.StageFails? { CalmStage(c, s, a); }
    else if a.ReserveStart? { CalmReserve(c, s, a); }
    else if a.GiveBack? || a.Unlock? || a.Leave? { CalmLeave(c, s, a); }
    else { CalmCommit(c, s, a); }
  }

  /** With no layer left to visit, a reservation ends calmly or takes its next victim. */
  lemma RoundCalm(c: Config, s: State, t: TxnId, ok: bool)
    requires Enabled(c, s, ReserveStep(t, ok)) && s.mu.pending == []
    ensures var s2 := Step(c, s, ReserveStep(t, ok)); Calm(s, s2) || exists v :: VictimGoes(s, s2, v)
  {
    hide Step, Size;
    RoundIs(c, s, t, ok);
    var s2 := Step(c, s, ReserveStep(t, ok));
    if forall v :: !VictimGoes(s, s2, v) {
      assert Goes(s.txns, s2.txns, t);
    }
  }

  // ---------------------------------------------------------------- steps that leave the directories alone

  ghost predicate Writing(pc: PC) {
    pc.MovingIndex? || pc.MovingDoc? || pc.Installing?
  }

  /** Table and directories stay, and nobody's writing goes on. */
  ghost predicate Quiet(s: State, s2: State) {
    && s2.layers == s.layers && s2.disk.dirs == s.disk.dirs
    && forall t | t in s2.txns :: Writing(s2.txns[t].pc) ==> t in s.txns && s2.txns[t].pc == s.txns[t].pc
  }

  lemma QuietKeeps(s: State, s2: State)
    requires DirsInv(s) && Quiet(s, s2)
    ensures DirsInv(s2)
  {
    hide LayersStored, DirsPlain, ReadLayer;
  }

  lemma CalmIsQuiet(s: State, s2: State)
    requires Calm(s, s2)
    ensures Quiet(s, s2)
  {
    hide Committing;
  }

  lemma CommitQuiet(c: Config, s: State, a: Action)
    requires Enabled(c, s, a) && (a.CommitStart? || a.MoveRecord? || a.InstallRecord?)
    ensures Quiet(s, CommitStep(c, s, a))
  {
    hide Quiet;
    PcQuiet(s, CommitStep(c, s, a), a.t);
  }

  lemma PcQuiet(s: State, s2: State, t: TxnId)
    requires t in s2.txns && s2.txns == s.txns[t := s2.txns[t]] && !Writing(s2.txns[t].pc)
    requires s2.layers == s.layers && s2.disk.dirs == s.disk.dirs
    ensures Quiet(s, s2)
  {
  }

  lemma RewriteQuiet(c: Config, s: State, a: Action)
    requires Enabled(c, s, a) && (a.Touch? || a.Upgrade? || a.MoveRewrite? || a.AccountRewrite?)
    ensures Quiet(s, RewriteStep(c, s, a))
  {
    var s2 := RewriteStep(c, s, a);
    assert s2.txns == s.txns && s2.layers == s.layers && s2.disk.dirs == s.disk.dirs;
  }

  lemma RoundKeepsDirs(c: Config, s: State, t: TxnId, ok: bool)
    requires DirsInv(s) && Enabled(c, s, ReserveStep(t, ok)) && s.mu.pending == []
    ensures DirsInv(Step(c, s, ReserveStep(t, ok)))
  {
    hide DirsInv, Step, Calm;
    RoundCalm(c, s, t, ok);
    var s2 := Step(c, s, ReserveStep(t, ok));
    if Calm(s, s2) { CalmIsQuiet(s, s2); }
    QuietKeeps(s, s2);
  }

  // ---------------------------------------------------------------- a layer directory goes

  /** A visit drops layer d of the last victim, directory and all. */
  ghost predicate Drops(s: State, a: Action) {
    && a.ReserveStep? && s.mu.Evicting? && s.mu.pending != [] && a.ok
    && s.mu.pending[0] in s.layers && !Referenced(Tab(s), s.mu.pending[0])
  }

  /** What a visit does. */
  lemma VisitIs(c: Config, s: State, t: TxnId, ok: bool)
    requires Enabled(c, s, ReserveStep(t, ok)) && s.mu.pending != []
    ensures var d, s2 := s.mu.pending[0], Step(c, s, ReserveStep(t, ok));
            && s2 == s.(mu := s2.mu, layers := s2.layers, accounted := s2.accounted, disk := s2.disk)
            && s2.disk.records == s.disk.records
            && (if Drops(s, ReserveStep(t, ok)) then
                  s2.layers == s.layers - {d} && s2.disk.dirs == s.disk.dirs - {Hex(d)}
                else s2.layers == s.layers && s2.disk.dirs == s.disk.dirs)
  {
    hide StageStep, LayerStep, CommitStep, RewriteStep, Referenced;
    var d := s.mu.pending[0];
    assert d in s.layers ==> s.layers - {d} != s.layers;
  }

  lemma VisitKeepsDirs(c: Config, s: State, t: TxnId, ok: bool)
    requires Inv(s) && DirsInv(s) && Enabled(c, s, ReserveStep(t, ok)) && s.mu.pending != []
    ensures DirsInv(Step(c, s, ReserveStep(t, ok)))
  {
    hide Inv, DirsInv, Step, Drops;
    VisitIs(c, s, t, ok);
    var s2 := Step(c, s, ReserveStep(t, ok));
    if Drops(s, ReserveStep(t, ok)) {
      DropIs(s, t, ok);
      LayerGone(s, s2, s.mu.pending[0]);
    } else {
      QuietKeeps(s, s2);
    }
  }

  lemma DropIs(s: State, t: TxnId, ok: bool)
    requires Drops(s, ReserveStep(t, ok))
    ensures s.mu.pending[0] in s.layers
  {
  }

  lemma LayerGone(s: State, s2: State, d: Digest)
    requires Inv(s) && DirsInv(s) && d in s.layers && s2.txns == s.txns
    requires s2.layers == s.layers - {d} && s2.disk.dirs == s.disk.dirs - {Hex(d)}
    ensures DirsInv(s2)
  {
    hide Inv, ReadLayer;
    forall u | u in s.txns ensures Progress(s.txns[u].pc, s2.disk.dirs) {
      TxnIsOk(s, u);
      ProgressElsewhere(s, u, d, s2.disk.dirs);
    }
  }

  /** The directory a writer is filling is not one of the table's. */
  lemma ProgressElsewhere(s: State, u: TxnId, d: Digest, dirs: map<Name, LayerEntry>)
    requires u in s.txns && TxnOk(s.layers, s.txns[u]) && Progress(s.txns[u].pc, s.disk.dirs)
    requires Missing(s.txns[u].pc) != Some(d) || d in s.layers
    requires dirs - {Hex(d)} == s.disk.dirs - {Hex(d)}
    ensures Progress(s.txns[u].pc, dirs)
  {
    var pc := s.txns[u].pc;
    if Missing(pc).Some? {
      var n := Hex(Missing(pc).value);
      assert n in dirs <==> n in dirs - {Hex(d)};
      assert n in s.disk.dirs <==> n in s.disk.dirs - {Hex(d)};
      assert n in dirs ==> dirs[n] == (dirs - {Hex(d)})[n] == s.disk.dirs[n];
    }
  }

  // ---------------------------------------------------------------- a layer directory is filled

  /** At most one transaction at a time is between missing a layer and installing it. */
  lemma OneWriter(s: State, t: TxnId, u: TxnId, d: Digest)
    requires Inv(s) && t in s.txns && u in s.txns && t != u
    requires Missing(s.txns[t].pc) == Some(d)
    ensures Holds(s.txns[u].pc) != Some(d) && Missing(s.txns[u].pc) != Some(d)
  {
    hide Inv;
    LockIsOk(s, d);
    HoldsIsSection(s.txns[t].pc);
    HoldsIsSection(s.txns[u].pc);
    if Holds(s.txns[u].pc) == Some(d) {
      HoldingAtMostOne(s.txns, d, t, u);
    }
  }

  /** The writer of d, which nobody else can be, changes d's directory and moves on. */
  lemma DirStep(s: State, t: TxnId, d: Digest, pc: PC, dirs: map<Name, LayerEntry>)
    requires Inv(s) && DirsInv(s) && t in s.txns && Missing(s.txns[t].pc) == Some(d)
    requires dirs - {Hex(d)} == s.disk.dirs - {Hex(d)}
    requires Hex(d) in dirs ==> dirs[Hex(d)].Folder? && dirs[Hex(d)].other == 0
    requires Progress(pc, dirs)
    ensures DirsInv(Go(s.(disk := s.disk.(dirs := dirs)), t, pc))
  {
    hide Inv, LayersStored, DirsPlain, ReadLayer, Progress;
    var s2 := Go(s.(disk := s.disk.(dirs := dirs)), t, pc);
    TxnIsOk(s, t);
    assert d !in s.layers;
    forall u | u in s.txns && u != t ensures Progress(s.txns[u].pc, dirs) {
      OneWriter(s, t, u, d);
      TxnIsOk(s, u);
      ProgressElsewhere(s, u, d, dirs);
    }
    assert WritersProgress(s2.txns, dirs);
    DirElsewhere(s, d, dirs);
  }

  lemma DirElsewhere(s: State, d: Digest, dirs: map<Name, LayerEntry>)
    requires LayersStored(s.layers, s.disk.dirs) && DirsPlain(s.layers, s.disk.dirs) && d !in s.layers
    requires dirs - {Hex(d)} == s.disk.dirs - {Hex(d)}
    requires Hex(d) in dirs ==> dirs[Hex(d)].Folder? && dirs[Hex(d)].other == 0
    ensures LayersStored(s.layers, dirs) && DirsPlain(s.layers, dirs)
  {
    hide ReadLayer;
    forall n | n != Hex(d) ensures n in dirs <==> n in s.disk.dirs {
      assert n in dirs - {Hex(d)} <==> n in dirs;
      assert n in s.disk.dirs - {Hex(d)} <==> n in s.disk.dirs;
    }
    forall n | n in dirs && n != Hex(d) ensures dirs[n] == s.disk.dirs[n] {
      assert dirs[n] == (dirs - {Hex(d)})[n] == s.disk.dirs[n];
    }
  }

  /** What the writer of a layer knows of its directory. */
  lemma WriterFacts(s: State, t: TxnId)
    requires Inv(s) && DirsInv(s) && t in s.txns && Missing(s.txns[t].pc).Some?
    ensures var d := Missing(s.txns[t].pc).value;
            && d !in s.layers && Progress(s.txns[t].pc, s.disk.dirs)
            && (Hex(d) in s.disk.dirs ==> s.disk.dirs[Hex(d)].Folder? && s.disk.dirs[Hex(d)].other == 0)
  {
    hide Inv;
    TxnIsOk(s, t);
  }

  /** The file operations of a writer: the directory afterwards, and where the writer goes if all went well. */
  ghost predicate Fills(a: Action) {
    a.MakeDir? || a.MoveIndex? || a.MoveDoc?
  }

  ghost function Filled(disk: Disk, pc: PC): map<Name, LayerEntry>
    requires pc.MakingDir? || pc.MovingIndex? || pc.MovingDoc?
  {
    match pc
    case MakingDir(d, _, _) => WithDir(disk, d).dirs
    case MovingIndex(d, i, _) => WithIndex(disk, d, i).dirs
    case MovingDoc(d, _, j) => WithDoc(disk, d, j).dirs
  }

  ghost function Next(pc: PC): PC
    requires pc.MakingDir? || pc.MovingIndex? || pc.MovingDoc?
  {
    match pc
    case MakingDir(d, i, j) => MovingIndex(d, i, j)
    case MovingIndex(d, i, j) => MovingDoc(d, i, j)
    case MovingDoc(d, i, j) => Installing(d, i, j)
  }

  lemma FillIs(c: Config, s: State, a: Action)
    requires Enabled(c, s, a) && Fills(a)
    ensures a.t in s.txns
    ensures var pc := s.txns[a.t].pc;
            && (pc.MakingDir? || pc.MovingIndex? || pc.MovingDoc?)
            && var dirs := if a.io == Failed then s.disk.dirs else Filled(s.disk, pc);
               var next := if a.io == Done then Next(pc) else Releasing(pc.indexBytes + pc.docBytes, Some(pc.d));
               Step(c, s, a) == Go(s.(disk := s.disk.(dirs := dirs)), a.t, next)
  {
    hide StageStep, CommitStep, RewriteStep, ReserveOnce;
  }

  lemma FilledIs(s: State, t: TxnId)
    requires t in s.txns
    requires var pc := s.txns[t].pc; pc.MakingDir? || pc.MovingIndex? || pc.MovingDoc?
    requires Progress(s.txns[t].pc, s.disk.dirs)
    requires var n := Hex(s.txns[t].pc.d); n in s.disk.dirs ==> s.disk.dirs[n].Folder? && s.disk.dirs[n].other == 0
    ensures var pc, n, dirs := s.txns[t].pc, Hex(s.txns[t].pc.d), Filled(s.disk, s.txns[t].pc);
            && dirs - {n} == s.disk.dirs - {n} && Progress(Next(pc), dirs)
            && (n in dirs ==> dirs[n].Folder? && dirs[n].other == 0)
  {
  }

  lemma FillKeepsDirs(c: Config, s: State, a: Action)
    requires Inv(s) && DirsInv(s) && Enabled(c, s, a) && Fills(a)
    ensures DirsInv(Step(c, s, a))
  {
    hide Inv, DirsInv, Step, Enabled, Filled;
    FillIs(c, s, a);
    var t, pc := a.t, s.txns[a.t].pc;
    WriterFacts(s, t);
    FilledIs(s, t);
    var dirs := if a.io == Failed then s.disk.dirs else Filled(s.disk, pc);
    var next := if a.io == Done then Next(pc) else Releasing(pc.indexBytes + pc.docBytes, Some(pc.d));
    DirStep(s, t, pc.d, next, dirs);
  }

  lemma InstallKeepsDirs(c: Config, s: State, t: TxnId)
    requires Inv(s) && DirsInv(s) && Enabled(c, s, Install(t))
    ensures DirsInv(Step(c, s, Install(t)))
  {
    hide Inv, DirsInv, StageStep, CommitStep, RewriteStep, ReserveOnce;
    var pc := s.txns[t].pc;
    WriterFacts(s, t);
    DirStep(s, t, pc.d, Unlocking(pc.d), s.disk.dirs);
    var s1 := Go(s.(disk := s.disk.(dirs := s.disk.dirs)), t, Unlocking(pc.d));
    LayerEnters(s1, Step(c, s, Install(t)), pc.d, pc.indexBytes + pc.docBytes);
  }

  lemma LayerEnters(s: State, s2: State, d: Digest, n: nat)
    requires DirsInv(s) && Hex(d) in s.disk.dirs && ReadLayer(Hex(d), s.disk.dirs[Hex(d)]) == Some(n)
    requires s2.txns.Keys == s.txns.Keys && forall t | t in s.txns :: s2.txns[t].pc == s.txns[t].pc
    requires s2.layers == s.layers[d := n] && s2.disk == s.disk
    ensures DirsInv(s2)
  {
    hide ReadLayer, Progress;
  }

  // ---------------------------------------------------------------- every step

  /** Every step keeps the directories tied, whatever happens to records. */
  lemma StepKeepsDirs(c: Config, s: State, a: Action)
    requires Inv(s) && DirsInv(s) && Enabled(c, s, a)
    ensures DirsInv(Step(c, s, a))
  {
    hide Inv, DirsInv, Enabled, StageStep, LayerStep, CommitStep, RewriteStep, ReserveOnce, Quiet, Calm;
    match a
    case ReserveStep(t, ok) => ReserveKeepsDirs(c, s, t, ok);
    case MakeDir(_, _) | MoveIndex(_, _) | MoveDoc(_, _) => FillKeepsDirs(c, s, a);
    case Install(t) => InstallKeepsDirs(c, s, t);
    case CommitStart(_, _, _) | MoveRecord(_, _) | InstallRecord(_) =>
      CommitQuiet(c, s, a);
      QuietKeeps(s, Step(c, s, a));
    case Touch(_, _, _) | Upgrade(_, _, _) | MoveRewrite(_, _, _) | AccountRewrite(_) =>
      RewriteQuiet(c, s, a);
      QuietKeeps(s, Step(c, s, a));
    case _ =>
      StepCalm(c, s, a);
      CalmIsQuiet(s, Step(c, s, a));
      QuietKeeps(s, Step(c, s, a));
  }

  lemma ReserveKeepsDirs(c: Config, s: State, t: TxnId, ok: bool)
    requires Inv(s) && DirsInv(s) && Enabled(c, s, ReserveStep(t, ok))
    ensures DirsInv(Step(c, s, ReserveStep(t, ok)))
  {
    hide Inv, DirsInv, Step;
    if s.mu.pending != [] { VisitKeepsDirs(c, s, t, ok); } else { RoundKeepsDirs(c, s, t, ok); }
  }

  lemma OpenedDirs(disk: Disk)
    ensures DirsInv(Opened(disk))
  {
  }
}
