/** What one step can change: of an image, of the layer table, and of the disk. */
module CacheSteps {
  import opened CacheTables
  import opened CacheProtocol
  import opened CacheDirs

  // ---------------------------------------------------------------- images

  /** The step installs img as the image i. */
  ghost predicate Installs(s: State, a: Action, i: Digest, img: Image) {
    a.InstallRecord? && a.t in s.txns && s.txns[a.t].pc == InstallingRecord(i, img)
  }

  /** The step removes the record of i: i is the image used longest ago, and the bytes do not fit. */
  ghost predicate TakesVictim(c: Config, s: State, a: Action, i: Digest) {
    && a.ReserveStep? && a.ok && a.t in s.txns && s.txns[a.t].pc.Reserving? && Oldest(s.images, i)
    && s.accounted + Size(s.txns[a.t].pc.job) > c.max
  }

  /** Touch sets the time, at least the debounce interval after the old one; an upgrade can only add a pin; a landed
      rewrite sets the size; nothing else changes an image that stays. */
  ghost predicate Changes(c: Config, s: State, a: Action, i: Digest, was: Image, now: Image) {
    && now.layers == was.layers
    && now.lastUsed == (if a.Touch? && a.id == i then a.now else was.lastUsed)
    && (a.Touch? && a.id == i ==> a.now - was.lastUsed >= c.debounce)
    && now.pinned == (was.pinned || (a.Upgrade? && a.id == i && a.pin))
    && now.bytes == (if a.AccountRewrite? && a.w in s.rewrites && s.rewrites[a.w].Renamed? && s.rewrites[a.w].id == i
                     then s.rewrites[a.w].bytes else was.bytes)
  }

  /** What a step makes of the image table at i. */
  ghost predicate ImageStep(c: Config, s: State, a: Action, s2: State, i: Digest) {
    && (i in s2.images && i !in s.images ==> Installs(s, a, i, s2.images[i]))
    && (i in s.images && i !in s2.images ==> TakesVictim(c, s, a, i))
    && (i in s.images && i in s2.images ==>
          Installs(s, a, i, s2.images[i]) || Changes(c, s, a, i, s.images[i], s2.images[i]))
  }

  lemma SameImages(c: Config, s: State, a: Action, s2: State, i: Digest)
    requires s2.images == s.images && !a.Touch? && !a.Upgrade? && !a.AccountRewrite?
    ensures ImageStep(c, s, a, s2, i)
  {
  }

  lemma ReserveImages(c: Config, s: State, t: TxnId, ok: bool, i: Digest)
    requires Enabled(c, s, ReserveStep(t, ok))
    ensures ImageStep(c, s, ReserveStep(t, ok), Step(c, s, ReserveStep(t, ok)), i)
  {
    hide Step, ImageStep, Drops;
    var s2 := Step(c, s, ReserveStep(t, ok));
    if s.mu.pending != [] {
      VisitIs(c, s, t, ok);
      SameImages(c, s, ReserveStep(t, ok), s2, i);
    } else {
      RoundImages(c, s, t, ok, i);
    }
  }

  lemma RoundImages(c: Config, s: State, t: TxnId, ok: bool, i: Digest)
    requires Enabled(c, s, ReserveStep(t, ok)) && s.mu.pending == []
    ensures ImageStep(c, s, ReserveStep(t, ok), Step(c, s, ReserveStep(t, ok)), i)
  {
    hide AfterGrant, AfterRefusal, StageStep, LayerStep, CommitStep, RewriteStep, Held, Size, IsVictim, Oldest;
    if s.accounted + Size(s.txns[t].pc.job) > c.max && ok && exists v :: IsVictim(s.images, v) {
      var v :| IsVictim(s.images, v);
      forall w | IsVictim(s.images, w) ensures w == v { VictimUnique(s.images, v, w); }
      VictimIn(s.images, v);
      VictimIsOldest(s.images, v);
    }
  }

  lemma RewriteImages(c: Config, s: State, a: Action, i: Digest)
    requires Enabled(c, s, a) && (a.Touch? || a.Upgrade? || a.MoveRewrite? || a.AccountRewrite?)
    ensures ImageStep(c, s, a, Step(c, s, a), i)
  {
    hide StageStep, LayerStep, CommitStep, ReserveOnce, WithRecord;
  }

  lemma CommitImages(c: Config, s: State, a: Action, i: Digest)
    requires Enabled(c, s, a) && (a.CommitStart? || a.MoveRecord? || a.InstallRecord?)
    ensures ImageStep(c, s, a, Step(c, s, a), i)
  {
    hide StageStep, LayerStep, RewriteStep, ReserveOnce, WithRecord;
  }

  lemma LayerImages(c: Config, s: State, a: Action)
    requires Enabled(c, s, a) && (a.MakeDir? || a.MoveIndex? || a.MoveDoc? || a.Install?)
    ensures Step(c, s, a).images == s.images
  {
    hide StageStep, CommitStep, RewriteStep, ReserveOnce, WithDir, WithIndex, WithDoc;
  }

  /** An image enters the table by an install, as it was given, leaves it as the oldest unpinned one when a reservation
      does not fit, and in between changes by touches, upgrades and landed rewrites alone. */
  lemma ImageChanges(c: Config, s: State, a: Action, i: Digest)
    requires Enabled(c, s, a)
    ensures ImageStep(c, s, a, Step(c, s, a), i)
  {
    hide Step, Enabled, ImageStep, Calm;
    match a
    case ReserveStep(t, ok) => ReserveImages(c, s, t, ok, i);
    case CommitStart(_, _, _) | MoveRecord(_, _) | InstallRecord(_) => CommitImages(c, s, a, i);
    case Touch(_, _, _) | Upgrade(_, _, _) | MoveRewrite(_, _, _) | AccountRewrite(_) => RewriteImages(c, s, a, i);
    case MakeDir(_, _) | MoveIndex(_, _) | MoveDoc(_, _) | Install(_) =>
      LayerImages(c, s, a);
      SameImages(c, s, a, Step(c, s, a), i);
    case _ =>
      StepCalm(c, s, a);
      CalmImages(s, Step(c, s, a));
      SameImages(c, s, a, Step(c, s, a), i);
  }

  lemma CalmImages(s: State, s2: State)
    requires Calm(s, s2)
    ensures s2.images == s.images
  {
  }

  // ---------------------------------------------------------------- layers

  /** A layer enters the table when its writer installs it, with the bytes reserved for it, keeps its size, and leaves
      it only while nothing refers to it, as the next layer of the last victim. */
  ghost predicate LayerChange(s: State, a: Action, s2: State, d: Digest) {
    && (d in s2.layers && d !in s.layers ==>
          && a.Install? && a.t in s.txns && s.txns[a.t].pc.Installing? && s.txns[a.t].pc.d == d
          && s2.layers[d] == s.txns[a.t].pc.indexBytes + s.txns[a.t].pc.docBytes)
    && (d in s2.layers && d in s.layers ==> s2.layers[d] == s.layers[d])
    && (d !in s2.layers && d in s.layers ==>
          && a.ReserveStep? && a.ok && s.mu.Evicting? && s.mu.pending != [] && s.mu.pending[0] == d
          && d !in LayersOf(s.images) && d !in Held(s.txns))
  }

  lemma SameLayers(s: State, a: Action, s2: State, d: Digest)
    requires s2.layers == s.layers
    ensures LayerChange(s, a, s2, d)
  {
  }

  lemma ReserveLayers(c: Config, s: State, t: TxnId, ok: bool, d: Digest)
    requires Enabled(c, s, ReserveStep(t, ok))
    ensures LayerChange(s, ReserveStep(t, ok), Step(c, s, ReserveStep(t, ok)), d)
  {
    hide Step, VictimGoes;
    if s.mu.pending != [] {
      VisitIs(c, s, t, ok);
    } else {
      RoundCalm(c, s, t, ok);
      RoundLayers(s, Step(c, s, ReserveStep(t, ok)));
    }
  }

  lemma RoundLayers(s: State, s2: State)
    requires Calm(s, s2) || exists v :: VictimGoes(s, s2, v)
    ensures s2.layers == s.layers
  {
  }

  lemma InstallLayers(c: Config, s: State, t: TxnId, d: Digest)
    requires Enabled(c, s, Install(t))
    ensures LayerChange(s, Install(t), Step(c, s, Install(t)), d)
  {
    hide StageStep, CommitStep, RewriteStep, ReserveOnce, WithDir, WithIndex, WithDoc;
  }

  lemma MoveLayers(c: Config, s: State, a: Action)
    requires Enabled(c, s, a) && (a.MakeDir? || a.MoveIndex? || a.MoveDoc?)
    ensures Step(c, s, a).layers == s.layers
  {
    hide StageStep, CommitStep, RewriteStep, ReserveOnce, WithDir, WithIndex, WithDoc;
  }

  lemma CommitLayers(c: Config, s: State, a: Action)
    requires Enabled(c, s, a) && (a.CommitStart? || a.MoveRecord? || a.InstallRecord?)
    ensures Step(c, s, a).layers == s.layers
  {
    hide StageStep, LayerStep, RewriteStep, ReserveOnce, WithRecord;
  }

  lemma RewriteLayers(c: Config, s: State, a: Action)
    requires Enabled(c, s, a) && (a.Touch? || a.Upgrade? || a.MoveRewrite? || a.AccountRewrite?)
    ensures Step(c, s, a).layers == s.layers
  {
    hide StageStep, LayerStep, CommitStep, ReserveOnce, WithRecord;
  }

  lemma LayerChanges(c: Config, s: State, a: Action, d: Digest)
    requires Enabled(c, s, a)
    ensures LayerChange(s, a, Step(c, s, a), d)
  {
    hide Step, Enabled, LayerChange, Calm;
    match a
    case ReserveStep(t, ok) => ReserveLayers(c, s, t, ok, d);
    case Install(t) => InstallLayers(c, s, t, d);
    case MakeDir(_, _) | MoveIndex(_, _) | MoveDoc(_, _) =>
      MoveLayers(c, s, a);
      SameLayers(s, a, Step(c, s, a), d);
    case CommitStart(_, _, _) | MoveRecord(_, _) | InstallRecord(_) =>
      CommitLayers(c, s, a);
      SameLayers(s, a, Step(c, s, a), d);
    case Touch(_, _, _) | Upgrade(_, _, _) | MoveRewrite(_, _, _) | AccountRewrite(_) =>
      RewriteLayers(c, s, a);
      SameLayers(s, a, Step(c, s, a), d);
    case _ =>
      StepCalm(c, s, a);
      CalmLayers(s, Step(c, s, a));
      SameLayers(s, a, Step(c, s, a), d);
  }

  lemma CalmLayers(s: State, s2: State)
    requires Calm(s, s2)
    ensures s2.layers == s.layers
  {
  }
}
