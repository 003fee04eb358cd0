/** Reachable states, a few steps at a time. */
module CacheRuns {
  import opened CacheTables
  import opened CacheDisk
  import opened CacheProtocol

  lemma {:induction false} Append(c: Config, s: State, acts: seq<Action>, s2: State, a: Action)
    requires Runs(c, s, acts, s2) && Enabled(c, s2, a)
    ensures Runs(c, s, acts + [a], Step(c, s2, a))
    decreases |acts|
  {
    hide Step, Enabled;
    if acts == [] {
      assert acts + [a] == [a] && [a][1..] == [];
    } else {
      Append(c, Step(c, s, acts[0]), acts[1..], s2, a);
      assert (acts + [a])[1..] == acts[1..] + [a];
    }
  }

  ghost predicate Reachable(c: Config, disk: Disk, s: State) {
    exists acts :: Runs(c, Opened(disk), acts, s)
  }

  lemma ReachStart(c: Config, disk: Disk)
    ensures Reachable(c, disk, Opened(disk))
  {
    hide Opened;
    assert Runs(c, Opened(disk), [], Opened(disk));
  }

  lemma ReachStep(c: Config, disk: Disk, s: State, a: Action)
    requires Reachable(c, disk, s) && Enabled(c, s, a)
    ensures Reachable(c, disk, Step(c, s, a))
  {
    hide Step, Enabled, Opened;
    var acts :| Runs(c, Opened(disk), acts, s);
    Append(c, Opened(disk), acts, s, a);
  }

  // ---------------------------------------------------------------- transactions

  lemma Opens(c: Config, disk: Disk, s: State, t: TxnId)
    requires Reachable(c, disk, s) && s.mu.Free? && t !in s.txns
    ensures Reachable(c, disk, Put(s, t, Txn({}, 0, {}, Idle)))
  {
    hide Reachable;
    ReachStep(c, disk, s, Begin(t));
  }

  lemma Uses(c: Config, disk: Disk, s: State, t: TxnId, d: Digest)
    requires Reachable(c, disk, s) && s.mu.Free? && t in s.txns && s.txns[t].pc.Idle? && d in s.layers
    ensures Reachable(c, disk, Put(s, t, s.txns[t].(layers := s.txns[t].layers + {d})))
  {
    hide Reachable;
    ReachStep(c, disk, s, Use(t, d));
  }

  lemma Closes(c: Config, disk: Disk, s: State, t: TxnId)
    requires Reachable(c, disk, s) && s.mu.Free? && t in s.txns && s.txns[t].pc.Idle?
    ensures Reachable(c, disk, Go(s, t, Closed))
  {
    hide Reachable;
    ReachStep(c, disk, s, Abort(t));
    var s1 := Go(s, t, Closing);
    assert Step(c, s, Abort(t)) == s1;
    ReachStep(c, disk, s1, Finish(t));
    GoTwice(s, t, Closing, Closed);
  }

  // ---------------------------------------------------------------- commits

  lemma PinnedSame(a: Tables, b: Tables)
    requires a.layers == b.layers && a.images == b.images
    ensures PinnedBytes(a) == PinnedBytes(b)
  {
  }

  lemma GoTwice(s: State, t: TxnId, pc: PC, pc2: PC)
    requires t in s.txns
    ensures Go(Go(s, t, pc), t, pc2) == Go(s, t, pc2)
  {
    assert s.txns[t := s.txns[t].(pc := pc)][t := s.txns[t].(pc := pc2)] == s.txns[t := s.txns[t].(pc := pc2)];
  }

  /** Commit, up to its reservation. */
  lemma Commits(c: Config, disk: Disk, s: State, t: TxnId, id: Digest, img: Image, bytes: nat)
    requires Reachable(c, disk, s) && s.mu.Free? && t in s.txns && s.txns[t].pc.Idle?
    requires forall d | d in img.layers :: d in s.txns[t].layers
    requires bytes <= c.max - PinnedBytes(Tab(s)) - s.txns[t].own
    ensures Reachable(c, disk, Go(s, t, Reserving(RecordJob(id, img.(bytes := bytes)))))
  {
    hide Reachable, Step, Enabled, PinnedBytes, Go;
    var s1 := CommitBegins(c, disk, s, t, id, img);
    var s2 := CommitReads(c, disk, s1, t, id, img);
    assert bytes <= s2.txns[t].pc.limit by {
      GoIs(s, t, CommitCeiling(id, img));
      PinnedSame(Tab(s), Tab(s1));
    }
    CommitStages(c, disk, s2, t, id, img, bytes);
    GoTwice(s, t, CommitCeiling(id, img), s2.txns[t].pc);
    GoTwice(s, t, s2.txns[t].pc, Reserving(RecordJob(id, img.(bytes := bytes))));
  }

  lemma GoIs(s: State, t: TxnId, pc: PC)
    requires t in s.txns
    ensures Go(s, t, pc) == s.(txns := s.txns[t := s.txns[t].(pc := pc)])
  {
  }

  lemma CommitBegins(c: Config, disk: Disk, s: State, t: TxnId, id: Digest, img: Image) returns (r: State)
    requires Reachable(c, disk, s) && s.mu.Free? && t in s.txns && s.txns[t].pc.Idle?
    requires forall d | d in img.layers :: d in s.txns[t].layers
    ensures r == Go(s, t, CommitCeiling(id, img)) && Reachable(c, disk, r)
    ensures t in r.txns && r.txns[t].pc == CommitCeiling(id, img) && r.mu.Free? && r.txns[t].own == s.txns[t].own
  {
    hide Reachable;
    ReachStep(c, disk, s, CommitStart(t, id, img));
    r := Go(s, t, CommitCeiling(id, img));
  }

  lemma CommitReads(c: Config, disk: Disk, s: State, t: TxnId, id: Digest, img: Image) returns (r: State)
    requires Reachable(c, disk, s) && s.mu.Free? && t in s.txns && s.txns[t].pc == CommitCeiling(id, img)
    ensures t in r.txns && r.txns[t].pc == StagingRecord(id, img, Ceiling(Tab(s), s.txns[t].own, c.max)) && r.mu.Free?
    ensures r == Go(s, t, r.txns[t].pc) && Reachable(c, disk, r)
  {
    hide Reachable, PinnedBytes;
    ReachStep(c, disk, s, ReadCeiling(t));
    r := Step(c, s, ReadCeiling(t));
  }

  lemma CommitStages(c: Config, disk: Disk, s: State, t: TxnId, id: Digest, img: Image, bytes: nat)
    requires Reachable(c, disk, s) && s.mu.Free? && t in s.txns && s.txns[t].pc.StagingRecord?
        && bytes <= s.txns[t].pc.limit
    requires s.txns[t].pc.id == id && s.txns[t].pc.img == img
    ensures Reachable(c, disk, Go(s, t, Reserving(RecordJob(id, img.(bytes := bytes)))))
  {
    hide Reachable;
    ReachStep(c, disk, s, StageRecord(t, bytes));
  }

  // ---------------------------------------------------------------- reservations

  lemma Admitted(c: Config, disk: Disk, s: State, t: TxnId)
    requires Reachable(c, disk, s) && s.mu.Free? && t in s.txns && s.txns[t].pc.Reserving? && Size(s.txns[t].pc.job) > 0
    requires s.txns[t].own + Size(s.txns[t].pc.job) <= c.max - PinnedBytes(Tab(s))
    ensures Reachable(c, disk, s.(mu := Evicting(t, [])))
  {
    hide Reachable, PinnedBytes;
    ReachStep(c, disk, s, ReserveStart(t));
  }

  /** The reservation holding the mutex fits. */
  lemma Granted(c: Config, disk: Disk, s: State, t: TxnId)
    requires Reachable(c, disk, s) && s.mu == Evicting(t, []) && t in s.txns && s.txns[t].pc.Reserving?
    requires s.accounted + Size(s.txns[t].pc.job) <= c.max
    ensures var x, n := s.txns[t], Size(s.txns[t].pc.job);
            Reachable(c, disk, Put(s, t, x.(own := x.own + n, pc := AfterGrant(x.pc.job))).(mu := Free,
                accounted := s.accounted + n))
  {
    hide Reachable;
    ReachStep(c, disk, s, ReserveStep(t, true));
  }

  /** A commit that fits without evicting anything, up to the rename of its record. */
  lemma CommitsRoomy(c: Config, disk: Disk, s: State, t: TxnId, id: Digest, img: Image)
    requires Reachable(c, disk, s) && s.mu.Free? && t in s.txns && s.txns[t].pc.Idle?
    requires forall d | d in img.layers :: d in s.txns[t].layers
    requires 0 < img.bytes <= c.max - PinnedBytes(Tab(s)) - s.txns[t].own && s.accounted + img.bytes <= c.max
    ensures var x := s.txns[t];
            Reachable(c, disk, Put(s, t, x.(own := x.own + img.bytes, pc := MovingRecord(id, img)))
                                 .(accounted := s.accounted + img.bytes))
  {
    hide Reachable, PinnedBytes;
    var x, job := s.txns[t], RecordJob(id, img);
    assert img.(bytes := img.bytes) == img;
    Commits(c, disk, s, t, id, img, img.bytes);
    var s1 := Go(s, t, Reserving(job));
    PinnedSame(Tab(s), Tab(s1));
    Admitted(c, disk, s1, t);
    Granted(c, disk, s1.(mu := Evicting(t, [])), t);
    PutTwice(s.txns, t, x.(pc := Reserving(job)), x.(own := x.own + img.bytes, pc := MovingRecord(id, img)));
  }

  lemma PutTwice(txns: map<TxnId, Txn>, t: TxnId, x: Txn, y: Txn)
    ensures txns[t := x][t := y] == txns[t := y]
  {
  }

  /** It does not fit, and takes a victim. */
  lemma Evicts(c: Config, disk: Disk, s: State, t: TxnId, v: Digest)
    requires Reachable(c, disk, s) && s.mu == Evicting(t, []) && t in s.txns && s.txns[t].pc.Reserving?
    requires s.accounted + Size(s.txns[t].pc.job) > c.max && IsVictim(s.images, v)
    ensures Reachable(c, disk, s.(mu := Evicting(t, s.images[v].layers), images := s.images - {v},
                                  accounted := s.accounted - s.images[v].bytes,
                                  disk := s.disk.(records := s.disk.records - {Hex(v)})))
  {
    hide Reachable;
    ReachStep(c, disk, s, ReserveStep(t, true));
    var s2 := Step(c, s, ReserveStep(t, true));
    var w :| IsVictim(s.images, w)
      && s2 == s.(mu := Evicting(t, s.images[w].layers), images := s.images - {w},
                  accounted := s.accounted - s.images[w].bytes,
                  disk := s.disk.(records := s.disk.records - {Hex(w)}));
    VictimUnique(s.images, v, w);
  }

  /** A layer of the last victim goes unless something refers to it. */
  lemma Visits(c: Config, disk: Disk, s: State, t: TxnId, d: Digest)
    requires Reachable(c, disk, s) && s.mu == Evicting(t, [d]) && t in s.txns && s.txns[t].pc.Reserving?
        && d in s.layers
    ensures Referenced(Tab(s), d) ==> Reachable(c, disk, s.(mu := Evicting(t, [])))
    ensures !Referenced(Tab(s), d) ==>
      Reachable(c, disk, s.(mu := Evicting(t, []), layers := s.layers - {d}, accounted := s.accounted - s.layers[d],
                            disk := s.disk.(dirs := s.disk.dirs - {Hex(d)})))
  {
    hide Reachable, Referenced;
    ReachStep(c, disk, s, ReserveStep(t, true));
    assert [d][1..] == [];
    assert d !in s.layers - {d};
  }
}
