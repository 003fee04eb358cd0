/** The steps of one transaction, taken without interruption: together they do what a store method does in one call. */
module CacheAlone {
  import opened Options
  import opened CacheTables
  import opened CacheDisk
  import opened CacheProtocol
  import opened CacheInvariants
  import opened CacheTheorems

  // ---------------------------------------------------------------- runs from one state to another

  ghost predicate Leads(c: Config, s: State, s2: State) {
    exists acts :: Runs(c, s, acts, s2)
  }

  lemma {:induction false} RunsOn(c: Config, s: State, a: seq<Action>, r: State, b: seq<Action>, s2: State)
    requires Runs(c, s, a, r) && Runs(c, r, b, s2)
    ensures Runs(c, s, a + b, s2)
    decreases |a|
  {
    hide Step, Enabled;
    if a == [] {
      assert a + b == b;
    } else {
      RunsOn(c, Step(c, s, a[0]), a[1..], r, b, s2);
      assert (a + b)[1..] == a[1..] + b;
    }
  }

  lemma LeadsOn(c: Config, s: State, r: State, s2: State)
    requires Leads(c, s, r) && Leads(c, r, s2)
    ensures Leads(c, s, s2)
  {
    hide Runs;
    var a :| Runs(c, s, a, r);
    var b :| Runs(c, r, b, s2);
    RunsOn(c, s, a, r, b, s2);
  }

  lemma LeadsStep(c: Config, s: State, a: Action)
    requires Enabled(c, s, a)
    ensures Leads(c, s, Step(c, s, a))
  {
    hide Step, Enabled;
    assert [a][1..] == [];
    assert Runs(c, s, [a], Step(c, s, a));
  }

  lemma LeadsHere(c: Config, s: State)
    ensures Leads(c, s, s)
  {
    assert Runs(c, s, [], s);
  }

  /** s with transaction t as x. */
  ghost function With(s: State, t: TxnId, x: Txn): State {
    s.(txns := s.txns[t := x])
  }

  lemma WithTwice(s: State, t: TxnId, x: Txn, y: Txn)
    ensures With(With(s, t, x), t, y) == With(s, t, y)
  {
    assert s.txns[t := x][t := y] == s.txns[t := y];
  }

  // ---------------------------------------------------------------- a reservation

  /** The parts of the state a reservation of t leaves alone. */
  ghost predicate Spares(s: State, s2: State, t: TxnId)
    requires t in s.txns
  {
    && s2.locks == s.locks && s2.rewrites == s.rewrites && t in s2.txns && s2.txns == s.txns[t := s2.txns[t]]
    && s2.txns[t].layers == s.txns[t].layers && s2.txns[t].written == s.txns[t].written
    && (forall n | n in s2.disk.dirs :: n in s.disk.dirs) && (forall n | n in s2.disk.records :: n in s.disk.records)
  }

  lemma VisitSpares(c: Config, s: State, t: TxnId, ok: bool)
    requires InReserve(s, t) && s.mu.pending != []
    ensures Spares(s, ReserveOnce(c, s, t, ok), t)
  {
    hide DropLayer, Tab, Size, AfterGrant, AfterRefusal;
  }

  lemma RoundSpares(c: Config, s: State, t: TxnId, ok: bool)
    requires InReserve(s, t) && s.mu.pending == []
    ensures Spares(s, ReserveOnce(c, s, t, ok), t)
  {
    hide RemoveImage, Tab, Size, AfterGrant, AfterRefusal, IsVictim;
  }

  lemma SparesOn(s: State, r: State, s2: State, t: TxnId)
    requires t in s.txns && Spares(s, r, t) && Spares(r, s2, t)
    ensures Spares(s, s2, t)
  {
  }

  lemma SparesAll(s: State, t: TxnId)
    requires t in s.txns
    ensures Spares(s, s, t)
  {
  }

  lemma {:induction false} EvictingAlone(c: Config, s: State, t: TxnId, f: Faults) returns (s2: State)
    requires InReserve(s, t)
    ensures Leads(c, s, s2) && Spares(s, s2, t) && Ends(s.txns[t], RoomLeft(c, s, t, f), c.max, t, s2)
    decreases |s.images|, |s.mu.pending|
  {
    hide ReserveOnce, StageStep, LayerStep, CommitStep, RewriteStep, Removes, RoomLeft, Size, Leads, Spares, Ends;
    var a := ReserveStep(t, Removes(s, f));
    LeadsStep(c, s, a);
    var s1 := Step(c, s, a);
    if s.mu.pending != [] {
      DropRefines(c, s, t, f);
      VisitSpares(c, s, t, a.ok);
    } else {
      RoundSpares(c, s, t, a.ok);
      if s.accounted + Size(s.txns[t].pc.job) <= c.max || !CanEvict(Tab(s), f) {
        StopEnds(c, s, t, f);
      } else {
        EvictRefines(c, s, t, f);
      }
    }
    s2 := s1;
    if InReserve(s1, t) {
      s2 := EvictingAlone(c, s1, t, f);
      LeadsOn(c, s, s1, s2);
      SparesOn(s, s1, s2, t);
    }
  }

  /** A reservation by t alone has the verdict and the tables of the budget rule. */
  ghost predicate Reserved(c: Config, s: State, s2: State, t: TxnId, f: Faults)
    requires t in s.txns && s.txns[t].pc.Reserving?
  {
    var x, job := s.txns[t], s.txns[t].pc.job;
    var (ok, r) := Reserve(Tab(s), x.own, Size(job), c.max, f);
    && s2.mu.Free? && Spares(s, s2, t) && Tab(s2) == r
    && s2.txns[t].own == x.own + (if ok then Size(job) else 0)
    && s2.txns[t].pc == if ok then AfterGrant(job) else AfterRefusal(job)
  }

  lemma StartIs(c: Config, s: State, t: TxnId)
    requires Enabled(c, s, ReserveStart(t))
    ensures var x, job := s.txns[t], s.txns[t].pc.job;
            Step(c, s, ReserveStart(t)) ==
            if Size(job) <= 0 then Go(s, t, AfterGrant(job))
            else if x.own + Size(job) > c.max - PinnedBytes(Tab(s)) then Go(s, t, AfterRefusal(job))
            else s.(mu := Evicting(t, []))
  {
    hide PinnedBytes, AfterGrant, AfterRefusal, LayerStep, CommitStep, RewriteStep, ReserveOnce, Held, Size;
  }

  lemma GoneOn(c: Config, s: State, t: TxnId, pc: PC)
    requires t in s.txns && s.txns[t].pc.Reserving? && !pc.Closed?
    ensures Tab(Go(s, t, pc)) == Tab(s) && Spares(s, Go(s, t, pc), t)
    ensures Go(s, t, pc).mu == s.mu && Go(s, t, pc).txns[t].pc == pc && Go(s, t, pc).txns[t].own == s.txns[t].own
  {
    HeldMove(s.txns, t, s.txns[t].(pc := pc), {});
  }

  lemma ReservingAlone(c: Config, s: State, t: TxnId, f: Faults) returns (s2: State)
    requires s.mu.Free? && t in s.txns && s.txns[t].pc.Reserving?
    ensures Leads(c, s, s2) && Reserved(c, s, s2, t, f)
  {
    hide Step, Leads, PinnedBytes, MakeRoom, Size, AfterGrant, AfterRefusal, Go, Tab, Spares;
    var x, job := s.txns[t], s.txns[t].pc.job;
    AfterOpen(job);
    LeadsStep(c, s, ReserveStart(t));
    StartIs(c, s, t);
    var s1 := Step(c, s, ReserveStart(t));
    GoneOn(c, s, t, AfterGrant(job));
    GoneOn(c, s, t, AfterRefusal(job));
    s2 := s1;
    if Size(job) > 0 && x.own + Size(job) <= c.max - PinnedBytes(Tab(s)) {
      s2 := EvictingAlone(c, s1, t, f);
      LeadsOn(c, s, s1, s2);
      assert Tab(s1) == Tab(s) by { MutexApart(s, s1); }
      SparesFrom(s, s1, s2, t);
    }
  }

  lemma MutexApart(s: State, s2: State)
    requires s2 == s.(mu := s2.mu)
    ensures Tab(s2) == Tab(s)
  {
  }

  lemma SparesFrom(s: State, r: State, s2: State, t: TxnId)
    requires t in s.txns && r == s.(mu := r.mu) && Spares(r, s2, t)
    ensures Spares(s, s2, t)
  {
  }

  // ---------------------------------------------------------------- PutLayer

  /** Into the digest lock. */
  lemma Enters(c: Config, s: State, t: TxnId, d: Digest) returns (r: State)
    requires s.mu.Free? && t in s.txns && s.txns[t].pc.Idle? && d !in s.locks
    ensures Leads(c, s, r)
    ensures r == With(s, t, s.txns[t].(pc := Checking(d))).(locks := s.locks[d := LayerLock(1, true)])
  {
    hide Leads, CommitStep, LayerStep, RewriteStep, ReserveOnce, Tab, PinnedBytes;
    LeadsStep(c, s, PutStart(t, d));
    var s1 := Step(c, s, PutStart(t, d));
    assert s1 == With(s, t, s.txns[t].(pc := Waiting(d))).(locks := s.locks[d := LayerLock(1, false)]);
    LeadsStep(c, s1, Acquire(t));
    r := Step(c, s1, Acquire(t));
    LeadsOn(c, s, s1, r);
    WithTwice(s, t, s.txns[t].(pc := Waiting(d)), s.txns[t].(pc := Checking(d)));
    assert s.locks[d := LayerLock(1, false)][d := LayerLock(1, true)] == s.locks[d := LayerLock(1, true)];
  }

  /** And out again, as the last one. */
  lemma Exits(c: Config, s: State, t: TxnId, d: Digest) returns (r: State)
    requires s.mu.Free? && t in s.txns && s.txns[t].pc == Unlocking(d) && d in s.locks
    requires s.locks[d] == LayerLock(1, true)
    ensures Leads(c, s, r) && r == With(s, t, s.txns[t].(pc := Idle)).(locks := s.locks - {d})
  {
    hide Leads, CommitStep, StageStep, RewriteStep, ReserveOnce, InstallLayer, WithDir, WithIndex, WithDoc;
    LeadsStep(c, s, Unlock(t));
    var s1 := Step(c, s, Unlock(t));
    assert s1 == With(s, t, s.txns[t].(pc := Leaving(d))).(locks := s.locks[d := LayerLock(1, false)]);
    LeadsStep(c, s1, Leave(t));
    r := Step(c, s1, Leave(t));
    LeadsOn(c, s, s1, r);
    WithTwice(s, t, s.txns[t].(pc := Leaving(d)), s.txns[t].(pc := Idle));
    assert s.locks[d := LayerLock(1, false)] - {d} == s.locks - {d};
  }

  /** A layer that is there is declared. */
  lemma Finds(c: Config, s: State, t: TxnId, d: Digest) returns (r: State)
    requires s.mu.Free? && t in s.txns && s.txns[t].pc == Checking(d) && d in s.layers
    ensures Leads(c, s, r)
    ensures r == With(s, t, s.txns[t].(layers := s.txns[t].layers + {d}, pc := Unlocking(d)))
  {
    hide Leads, CommitStep, LayerStep, RewriteStep, ReserveOnce, Tab, PinnedBytes;
    LeadsStep(c, s, CheckPresent(t));
    r := Step(c, s, CheckPresent(t));
  }

  /** The reservation asked for: the bytes staged, or a byte over the ceiling if they would not fit under it. */
  ghost function Asked(tb: Tables, own: int, max: int, d: Digest, i: nat, j: nat): Job {
    if i + j <= Ceiling(tb, own, max) then LayerJob(d, i, j) else ProbeJob(Ceiling(tb, own, max) + 1, Some(d))
  }

  lemma Asks(c: Config, s: State, t: TxnId, d: Digest, i: nat, j: nat) returns (r: State)
    requires s.mu.Free? && t in s.txns && s.txns[t].pc == Checking(d) && d !in s.layers
    ensures Leads(c, s, r)
    ensures r == With(s, t, s.txns[t].(pc := Reserving(Asked(Tab(s), s.txns[t].own, c.max, d, i, j))))
  {
    hide Leads, CommitStep, LayerStep, RewriteStep, ReserveOnce, Ceiling, Tab, Asked;
    var x, limit := s.txns[t], Ceiling(Tab(s), s.txns[t].own, c.max);
    LeadsStep(c, s, CheckPresent(t));
    var s1 := Step(c, s, CheckPresent(t));
    assert s1 == With(s, t, x.(pc := PutCeiling(d)));
    SameHeld(s, t, x.(pc := PutCeiling(d)));
    LeadsStep(c, s1, ReadCeiling(t));
    var s2 := Step(c, s1, ReadCeiling(t));
    WithTwice(s, t, x.(pc := PutCeiling(d)), x.(pc := Staging(d, limit)));
    assert s2 == With(s, t, x.(pc := Staging(d, limit)));
    LeadsOn(c, s, s1, s2);
    SameHeld(s, t, x.(pc := Staging(d, limit)));
    r := AsksNow(c, s2, t, d, i, j, limit, x);
    WithTwice(s, t, x.(pc := Staging(d, limit)), r.txns[t]);
    LeadsOn(c, s, s2, r);
  }

  lemma AsksNow(c: Config, s: State, t: TxnId, d: Digest, i: nat, j: nat, limit: int, x: Txn) returns (r: State)
    requires s.mu.Free? && t in s.txns && s.txns[t] == x.(pc := Staging(d, limit))
    requires limit == Ceiling(Tab(s), x.own, c.max)
    ensures Leads(c, s, r) && r == With(s, t, x.(pc := Reserving(Asked(Tab(s), x.own, c.max, d, i, j))))
  {
    hide Leads, CommitStep, LayerStep, RewriteStep, ReserveOnce, PinnedBytes, Tab;
    var a := if i + j <= limit then Stage(t, i, j) else StageTooBig(t);
    LeadsStep(c, s, a);
    r := Step(c, s, a);
  }

  lemma SameHeld(s: State, t: TxnId, x: Txn)
    requires t in s.txns && x.layers == s.txns[t].layers && !x.pc.Closed? && !s.txns[t].pc.Closed?
    ensures Tab(With(s, t, x)) == Tab(s)
  {
    HeldMove(s.txns, t, x, {});
  }

  /** The renames of a layer that goes well. */
  ghost function Landed(disk: Disk, d: Digest, i: nat, j: nat): Disk {
    WithDoc(WithIndex(WithDir(disk, d), d, i), d, j)
  }

  /** What the renames leave is read back as a layer of the reserved size. */
  lemma LayerBack(disk: Disk, d: Digest, i: nat, j: nat)
    requires Hex(d) !in disk.dirs
    ensures var r := Landed(disk, d, i, j);
            && r.records == disk.records && r.dirs.Keys == disk.dirs.Keys + {Hex(d)}
            && (forall n | n in disk.dirs :: r.dirs[n] == disk.dirs[n])
            && ReadLayer(Hex(d), r.dirs[Hex(d)]) == Some(i + j)
  {
  }

  /** And what the rename of a record leaves is read back as the image that was committed. */
  lemma RecordBack(disk: Disk, id: Digest, img: Image, bytes: nat, known: set<Digest>)
    requires forall d | d in img.layers :: d in known
    ensures var r := WithRecord(disk, id, img, bytes);
            && r.dirs == disk.dirs && r.records.Keys == disk.records.Keys + {Hex(id)}
            && (forall n | n in disk.records && n != Hex(id) :: r.records[n] == disk.records[n])
            && ReadRecord(Hex(id), r.records[Hex(id)], known) == Some(img.(bytes := bytes))
  {
  }

  /** How the three renames of a layer end. */
  datatype Renames = Renames(dir: IO, index: IO, doc: IO) {
    predicate Good() {
      dir == Done && index == Done && doc == Done
    }
  }

  /** The renames, up to the first that reports an error. */
  lemma Moves(c: Config, s: State, t: TxnId, d: Digest, i: nat, j: nat, io: Renames) returns (r: State)
    requires s.mu.Free? && t in s.txns && s.txns[t].pc == MakingDir(d, i, j)
    ensures Leads(c, s, r)
    ensures r == With(s, t, s.txns[t].(pc := if io.Good() then Installing(d, i, j) else Releasing(i + j, Some(d))))
                   .(disk := r.disk)
    ensures io.Good() ==> r.disk == Landed(s.disk, d, i, j)
  {
    hide Leads, CommitStep, StageStep, RewriteStep, ReserveOnce, InstallLayer, WithDir, WithIndex, WithDoc;
    var x := s.txns[t];
    LeadsStep(c, s, MakeDir(t, io.dir));
    r := Step(c, s, MakeDir(t, io.dir));
    if io.dir == Done {
      var s1 := r;
      assert s1 == With(s, t, x.(pc := MovingIndex(d, i, j))).(disk := WithDir(s.disk, d));
      r := MovesOnIndex(c, s1, t, d, i, j, io);
      LeadsOn(c, s, s1, r);
      WithTwice(s, t, x.(pc := MovingIndex(d, i, j)), r.txns[t]);
    }
  }

  lemma MovesOnIndex(c: Config, s: State, t: TxnId, d: Digest, i: nat, j: nat, io: Renames) returns (r: State)
    requires s.mu.Free? && t in s.txns && s.txns[t].pc == MovingIndex(d, i, j) && io.dir == Done
    ensures Leads(c, s, r)
    ensures r == With(s, t, s.txns[t].(pc := if io.Good() then Installing(d, i, j) else Releasing(i + j, Some(d))))
                   .(disk := r.disk)
    ensures io.Good() ==> r.disk == WithDoc(WithIndex(s.disk, d, i), d, j)
  {
    hide Leads, CommitStep, StageStep, RewriteStep, ReserveOnce, InstallLayer, WithDir, WithIndex, WithDoc;
    var x := s.txns[t];
    LeadsStep(c, s, MoveIndex(t, io.index));
    r := Step(c, s, MoveIndex(t, io.index));
    if io.index == Done {
      var s1 := r;
      assert s1 == With(s, t, x.(pc := MovingDoc(d, i, j))).(disk := WithIndex(s.disk, d, i));
      r := MovesOnDoc(c, s1, t, d, i, j, io);
      LeadsOn(c, s, s1, r);
      WithTwice(s, t, x.(pc := MovingDoc(d, i, j)), r.txns[t]);
    }
  }

  lemma MovesOnDoc(c: Config, s: State, t: TxnId, d: Digest, i: nat, j: nat, io: Renames) returns (r: State)
    requires s.mu.Free? && t in s.txns && s.txns[t].pc == MovingDoc(d, i, j) && io.dir == Done && io.index == Done
    ensures Leads(c, s, r)
    ensures r == With(s, t, s.txns[t].(pc := if io.Good() then Installing(d, i, j) else Releasing(i + j, Some(d))))
                   .(disk := r.disk)
    ensures io.Good() ==> r.disk == WithDoc(s.disk, d, j)
  {
    hide Leads, CommitStep, StageStep, RewriteStep, ReserveOnce, InstallLayer, WithDir, WithIndex, WithDoc;
    LeadsStep(c, s, MoveDoc(t, io.doc));
    r := Step(c, s, MoveDoc(t, io.doc));
  }

  /** The last lock hold of PutLayer: the layer enters the table, or its bytes are given back. */
  lemma Settles(c: Config, s: State, t: TxnId, d: Digest, i: nat, j: nat) returns (r: State)
    requires s.mu.Free? && t in s.txns && d !in s.layers
    requires s.txns[t].pc == Installing(d, i, j) || s.txns[t].pc == Releasing(i + j, Some(d))
    ensures Leads(c, s, r)
    ensures var x := s.txns[t];
            if x.pc.Installing? then
              r == With(s, t, x.(layers := x.layers + {d}, written := x.written + {d}, pc := Unlocking(d)))
                     .(layers := s.layers[d := i + j])
            else
              r == With(s, t, x.(own := x.own - (i + j), pc := Unlocking(d))).(accounted := s.accounted - (i + j))
  {
    hide Leads, CommitStep, StageStep, RewriteStep, ReserveOnce, WithDir, WithIndex, WithDoc;
    var a := if s.txns[t].pc.Installing? then Install(t) else GiveBack(t);
    LeadsStep(c, s, a);
    r := Step(c, s, a);
  }

  /** Were the layer installed by then, which never happens, it would be declared and the bytes given back. */
  lemma SettlesTwice(c: Config, s: State, t: TxnId, d: Digest, i: nat, j: nat) returns (r: State)
    requires s.mu.Free? && t in s.txns && d in s.layers && s.txns[t].pc == Installing(d, i, j)
    ensures Leads(c, s, r)
    ensures var x := s.txns[t];
            r == With(s, t, x.(layers := x.layers + {d}, own := x.own - (i + j), pc := Unlocking(d)))
                 .(accounted := s.accounted - (i + j))
  {
    hide Leads, CommitStep, StageStep, RewriteStep, ReserveOnce, WithDir, WithIndex, WithDoc;
    var x := s.txns[t];
    LeadsStep(c, s, Install(t));
    var s1 := Step(c, s, Install(t));
    assert s1 == With(s, t, x.(layers := x.layers + {d}, pc := Releasing(i + j, Some(d))));
    LeadsStep(c, s1, GiveBack(t));
    r := Step(c, s1, GiveBack(t));
    LeadsOn(c, s, s1, r);
    WithTwice(s, t, s1.txns[t], r.txns[t]);
  }

  /**
   * What PutLayer does in one go: it declares a layer that is there; else it reserves the bytes, and if they are
   * refused, or a rename fails, is back where it was but for what was evicted; else the layer is in the table, on disk
   * with the reserved size, declared, and charged to the transaction.
   */
  ghost predicate PutDone(c: Config, s: State, s2: State, t: TxnId, d: Digest, i: nat, j: nat, io: Renames, f: Faults)
    requires t in s.txns
  {
    && s2.mu.Free? && s2.locks == s.locks && s2.rewrites == s.rewrites
    && t in s2.txns && s2.txns == s.txns[t := s2.txns[t]]
    && var (x, y, n) := (s.txns[t], s2.txns[t], i + j);
       var (ok, tb) := Reserve(Tab(s), x.own, n, c.max, f);
       if d in s.layers then
         Tab(s2) == WithHeld(Tab(s), d) && y == x.(layers := x.layers + {d}) && s2.disk == s.disk
       else if !ok then
         Tab(s2) == tb && y == x
       else if !io.Good() then
         Tab(s2) == tb.(accounted := tb.accounted - n) && y == x
       else
         && Tab(s2) == tb.(layers := tb.layers[d := n], held := tb.held + {d})
         && y == x.(layers := x.layers + {d}, own := x.own + n, written := x.written + {d})
         && (Hex(d) !in s.disk.dirs ==> Hex(d) in s2.disk.dirs && ReadLayer(Hex(d), s2.disk.dirs[Hex(d)]) == Some(n))
  }

  /** Either way of asking has the verdict for the bytes themselves. */
  lemma AskedIs(tb: Tables, own: int, max: int, d: Digest, i: nat, j: nat, f: Faults)
    ensures var job := Asked(tb, own, max, d, i, j);
            && Reserve(tb, own, Size(job), max, f) == Reserve(tb, own, i + j, max, f)
            && (Reserve(tb, own, i + j, max, f).0 ==> job == LayerJob(d, i, j))
            && AfterRefusal(job) == Unlocking(d) && AfterGrant(LayerJob(d, i, j)) == MakingDir(d, i, j)
            && Size(LayerJob(d, i, j)) == i + j
  {
    hide Reserve, PinnedBytes;
    if i + j > Ceiling(tb, own, max) {
      OverCeiling(tb, own, i + j, max, f);
      OverCeiling(tb, own, Ceiling(tb, own, max) + 1, max, f);
    }
  }

  lemma PutFinds(c: Config, s: State, t: TxnId, d: Digest, i: nat, j: nat, io: Renames, f: Faults) returns (s2: State)
    requires s.mu.Free? && t in s.txns && s.txns[t].pc.Idle? && d !in s.locks && d in s.layers
    ensures Leads(c, s, s2) && PutDone(c, s, s2, t, d, i, j, io, f)
  {
    hide Leads, Reserve, Held;
    var x := s.txns[t];
    var s1 := Enters(c, s, t, d);
    var r := Finds(c, s1, t, d);
    s2 := Exits(c, r, t, d);
    LeadsOn(c, s, s1, r);
    LeadsOn(c, s, r, s2);
    Ended(s, t, d, s1.txns[t], r.txns[t], s2.txns[t]);
    HeldMove(s.txns, t, s2.txns[t], {d});
  }

  /** The lock table is as before, and so are the other transactions. */
  lemma Ended(s: State, t: TxnId, d: Digest, x: Txn, y: Txn, z: Txn)
    requires t in s.txns && d !in s.locks
    ensures s.locks[d := LayerLock(1, true)] - {d} == s.locks
    ensures s.txns[t := x][t := y][t := z] == s.txns[t := z]
    ensures s.txns[t].pc.Idle? ==> s.txns[t].(pc := Idle) == s.txns[t]
  {
  }

  lemma PutRefused(c: Config, s: State, t: TxnId, d: Digest, i: nat, j: nat, io: Renames, f: Faults, r: State)
    returns (s2: State)
    requires s.mu.Free? && t in s.txns && s.txns[t].pc.Idle? && d !in s.locks && d !in s.layers
    requires r.mu.Free? && t in r.txns && r.txns == s.txns[t := s.txns[t].(pc := Unlocking(d))]
    requires r.locks == s.locks[d := LayerLock(1, true)] && r.rewrites == s.rewrites
    requires Reserve(Tab(s), s.txns[t].own, i + j, c.max, f) == (false, Tab(r))
    ensures Leads(c, r, s2) && PutDone(c, s, s2, t, d, i, j, io, f)
  {
    hide Leads, Reserve, Held;
    s2 := Exits(c, r, t, d);
    Ended(s, t, d, s.txns[t], r.txns[t], s2.txns[t]);
    HeldMove(r.txns, t, s2.txns[t], {});
  }

  /** From the grant to the end: the layer is in, or its bytes are back. */
  ghost predicate Tail(r: State, s2: State, t: TxnId, d: Digest, i: nat, j: nat, good: bool)
    requires t in r.txns
  {
    && s2.mu.Free? && t in s2.txns && s2.txns == r.txns[t := s2.txns[t]]
    && s2.locks == r.locks - {d} && s2.rewrites == r.rewrites && s2.images == r.images
    && var x, y, n := r.txns[t], s2.txns[t], i + j;
       if good then
         && y == x.(layers := x.layers + {d}, written := x.written + {d}, pc := Idle)
         && s2.layers == r.layers[d := n] && s2.accounted == r.accounted && s2.disk == Landed(r.disk, d, i, j)
       else
         y == x.(own := x.own - n, pc := Idle) && s2.layers == r.layers && s2.accounted == r.accounted - n
  }

  lemma PutTail(c: Config, r: State, t: TxnId, d: Digest, i: nat, j: nat, io: Renames) returns (s2: State)
    requires r.mu.Free? && t in r.txns && r.txns[t].pc == MakingDir(d, i, j) && d !in r.layers
    requires d in r.locks && r.locks[d] == LayerLock(1, true)
    ensures Leads(c, r, s2) && Tail(r, s2, t, d, i, j, io.Good())
  {
    hide Leads, Landed;
    var r1 := Moves(c, r, t, d, i, j, io);
    var r2 := Settles(c, r1, t, d, i, j);
    s2 := Exits(c, r2, t, d);
    LeadsOn(c, r, r1, r2);
    LeadsOn(c, r, r2, s2);
    Thrice(r.txns, t, r1.txns[t], r2.txns[t], s2.txns[t]);
  }

  lemma Thrice(txns: map<TxnId, Txn>, t: TxnId, x: Txn, y: Txn, z: Txn)
    ensures txns[t := x][t := y][t := z] == txns[t := z] && txns[t := x][t := z] == txns[t := z]
  {
  }

  lemma PutGranted(c: Config, s: State, t: TxnId, d: Digest, i: nat, j: nat, io: Renames, f: Faults, r: State)
    returns (s2: State)
    requires s.mu.Free? && t in s.txns && s.txns[t].pc.Idle? && d !in s.locks && d !in s.layers
    requires r.mu.Free? && t in r.txns
    requires r.txns == s.txns[t := s.txns[t].(own := s.txns[t].own + i + j, pc := MakingDir(d, i, j))]
    requires r.locks == s.locks[d := LayerLock(1, true)] && r.rewrites == s.rewrites
    requires Reserve(Tab(s), s.txns[t].own, i + j, c.max, f) == (true, Tab(r))
    requires d !in r.layers && forall n | n in r.disk.dirs :: n in s.disk.dirs
    ensures Leads(c, r, s2) && PutDone(c, s, s2, t, d, i, j, io, f)
  {
    hide Leads, Reserve, Held, Landed, ReadLayer;
    s2 := PutTail(c, r, t, d, i, j, io);
    Ended(s, t, d, r.txns[t], r.txns[t], s2.txns[t]);
    HeldMove(r.txns, t, s2.txns[t], if io.Good() then {d} else {});
    if Hex(d) !in s.disk.dirs { LayerBack(r.disk, d, i, j); }
  }

  /**
   * From any state in which the mutex is free, the transaction idle and nobody at the layer's lock, the steps of one
   * PutLayer, taken without interruption, do what the call does in one go, whichever removals and renames fail.
   */
  lemma PutLayerAlone(c: Config, s: State, t: TxnId, d: Digest, i: nat, j: nat, io: Renames, f: Faults)
    returns (s2: State)
    requires s.mu.Free? && t in s.txns && s.txns[t].pc.Idle? && d !in s.locks
    ensures Leads(c, s, s2) && PutDone(c, s, s2, t, d, i, j, io, f)
  {
    hide Leads, Reserve, PutDone, Asked, Tab, Size, AfterGrant, AfterRefusal;
    if d in s.layers {
      s2 := PutFinds(c, s, t, d, i, j, io, f);
    } else {
      var x := s.txns[t];
      var s1 := Enters(c, s, t, d);
      var s3 := Asks(c, s1, t, d, i, j);
      EnteredSame(s, s1, s3, t);
      var r := ReservingAlone(c, s3, t, f);
      LeadsOn(c, s, s1, s3);
      LeadsOn(c, s, s3, r);
      AskedIs(Tab(s), x.own, c.max, d, i, j, f);
      Thrice(s.txns, t, s1.txns[t], s3.txns[t], r.txns[t]);
      TabIs(s);
      TabIs(r);
      NoLayerNew(Tab(s), x.own, i + j, c.max, f, d);
      if Reserve(Tab(s), x.own, i + j, c.max, f).0 {
        s2 := PutGranted(c, s, t, d, i, j, io, f, r);
      } else {
        s2 := PutRefused(c, s, t, d, i, j, io, f, r);
      }
      LeadsOn(c, s, r, s2);
    }
  }

  lemma EnteredSame(s: State, s1: State, s3: State, t: TxnId)
    requires t in s.txns && s.txns[t].pc.Idle? && t in s1.txns && t in s3.txns
    requires s1.txns == s.txns[t := s.txns[t].(pc := s1.txns[t].pc)] && s1.txns[t].pc.Checking?
    requires s3.txns == s1.txns[t := s1.txns[t].(pc := s3.txns[t].pc)] && s3.txns[t].pc.Reserving?
    requires s1.layers == s3.layers == s.layers && s1.images == s3.images == s.images
    requires s1.accounted == s3.accounted == s.accounted
    ensures Tab(s1) == Tab(s) && Tab(s3) == Tab(s)
  {
    hide Held;
    HeldMove(s.txns, t, s1.txns[t], {});
    HeldMove(s1.txns, t, s3.txns[t], {});
  }

  lemma TabIs(s: State)
    ensures Tab(s) == Tables(s.layers, s.images, s.accounted, Held(s.txns))
  {
  }

  lemma NoLayerNew(tb: Tables, own: int, n: int, max: int, f: Faults, d: Digest)
    requires d !in tb.layers
    ensures d !in Reserve(tb, own, n, max, f).1.layers
  {
    hide Reserve;
    ReserveKeeps(tb, own, n, max, f);
  }

  // ---------------------------------------------------------------- Commit

  ghost function AskedRecord(tb: Tables, own: int, max: int, id: Digest, img: Image): Job {
    if img.bytes <= Ceiling(tb, own, max) then RecordJob(id, img) else ProbeJob(Ceiling(tb, own, max) + 1, None)
  }

  lemma AskedRecordIs(tb: Tables, own: int, max: int, id: Digest, img: Image, f: Faults)
    ensures var job := AskedRecord(tb, own, max, id, img);
            && Reserve(tb, own, Size(job), max, f) == Reserve(tb, own, img.bytes, max, f)
            && (Reserve(tb, own, img.bytes, max, f).0 ==> job == RecordJob(id, img))
            && AfterRefusal(job) == Idle && AfterGrant(RecordJob(id, img)) == MovingRecord(id, img)
            && Size(RecordJob(id, img)) == img.bytes
  {
    hide Reserve, PinnedBytes;
    if img.bytes > Ceiling(tb, own, max) {
      OverCeiling(tb, own, img.bytes, max, f);
      OverCeiling(tb, own, Ceiling(tb, own, max) + 1, max, f);
    }
  }

  lemma AsksRecord(c: Config, s: State, t: TxnId, id: Digest, img: Image) returns (r: State)
    requires s.mu.Free? && t in s.txns && s.txns[t].pc.Idle? && forall d | d in img.layers :: d in s.txns[t].layers
    ensures Leads(c, s, r)
    ensures r == With(s, t, s.txns[t].(pc := Reserving(AskedRecord(Tab(s), s.txns[t].own, c.max, id, img))))
  {
    hide Leads, LayerStep, RewriteStep, ReserveOnce, Ceiling, Tab, AskedRecord;
    var x, limit := s.txns[t], Ceiling(Tab(s), s.txns[t].own, c.max);
    LeadsStep(c, s, CommitStart(t, id, img));
    var s1 := Step(c, s, CommitStart(t, id, img));
    SameHeld(s, t, x.(pc := CommitCeiling(id, img)));
    LeadsStep(c, s1, ReadCeiling(t));
    var s2 := Step(c, s1, ReadCeiling(t));
    WithTwice(s, t, x.(pc := CommitCeiling(id, img)), x.(pc := StagingRecord(id, img, limit)));
    assert s2 == With(s, t, x.(pc := StagingRecord(id, img, limit)));
    LeadsOn(c, s, s1, s2);
    SameHeld(s, t, x.(pc := StagingRecord(id, img, limit)));
    r := AsksRecordNow(c, s2, t, id, img, limit, x);
    WithTwice(s, t, x.(pc := StagingRecord(id, img, limit)), r.txns[t]);
    LeadsOn(c, s, s2, r);
  }

  lemma AsksRecordNow(c: Config, s: State, t: TxnId, id: Digest, img: Image, limit: int, x: Txn) returns (r: State)
    requires s.mu.Free? && t in s.txns && s.txns[t] == x.(pc := StagingRecord(id, img, limit))
    requires limit == Ceiling(Tab(s), x.own, c.max)
    ensures Leads(c, s, r) && r == With(s, t, x.(pc := Reserving(AskedRecord(Tab(s), x.own, c.max, id, img))))
  {
    hide Leads, LayerStep, RewriteStep, ReserveOnce, PinnedBytes, Tab;
    assert img.(bytes := img.bytes) == img;
    var a := if img.bytes <= limit then StageRecord(t, img.bytes) else StageTooBig(t);
    LeadsStep(c, s, a);
    r := Step(c, s, a);
  }

  /** From the grant to the end: the record is in and the transaction over, or the bytes are back. */
  ghost predicate CommitTail(r: State, s2: State, t: TxnId, id: Digest, img: Image, io: IO)
    requires t in r.txns
  {
    && s2.mu.Free? && t in s2.txns && s2.txns == r.txns[t := s2.txns[t]]
    && s2.locks == r.locks && s2.rewrites == r.rewrites && s2.layers == r.layers
    && var x, y := r.txns[t], s2.txns[t];
       if io == Done then
         && y == x.(pc := Closed) && s2.images == r.images[id := img]
         && s2.accounted == r.accounted - (if id in r.images then r.images[id].bytes else 0)
         && s2.disk == WithRecord(r.disk, id, img, img.bytes)
       else
         y == x.(own := x.own - img.bytes, pc := Idle) && s2.images == r.images
             && s2.accounted == r.accounted - img.bytes
  }

  lemma CommitEnds(c: Config, r: State, t: TxnId, id: Digest, img: Image, io: IO) returns (s2: State)
    requires r.mu.Free? && t in r.txns && r.txns[t].pc == MovingRecord(id, img)
    ensures Leads(c, r, s2) && CommitTail(r, s2, t, id, img, io)
  {
    hide Leads, StageStep, RewriteStep, ReserveOnce, WithRecord, LayerStep, CommitTail;
    var x := r.txns[t];
    LeadsStep(c, r, MoveRecord(t, io));
    var r1 := Step(c, r, MoveRecord(t, io));
    if io == Done {
      assert r1 == With(r, t, x.(pc := InstallingRecord(id, img))).(disk := WithRecord(r.disk, id, img, img.bytes));
      s2 := CommitCloses(c, r1, t, id, img);
    } else {
      assert r1 == With(r, t, x.(pc := Releasing(img.bytes, None))).(disk := r1.disk);
      s2 := CommitGivesBack(c, r1, t, img.bytes);
    }
    LeadsOn(c, r, r1, s2);
    Thrice(r.txns, t, r1.txns[t], r1.txns[t], s2.txns[t]);
    assert CommitTail(r, s2, t, id, img, io) by { CommitTailIs(r, r1, s2, t, id, img, io); }
  }

  lemma CommitTailIs(r: State, r1: State, s2: State, t: TxnId, id: Digest, img: Image, io: IO)
    requires t in r.txns && r.mu.Free? && t in r1.txns && r1 == With(r, t, r1.txns[t]).(disk := r1.disk)
    requires io == Done ==>
      && r1.txns[t] == r.txns[t].(pc := InstallingRecord(id, img))
      && r1.disk == WithRecord(r.disk, id, img, img.bytes) && Closes(r1, s2, t, id, img)
    requires io != Done ==>
      r1.txns[t] == r.txns[t].(pc := Releasing(img.bytes, None)) && GivesBack(r1, s2, t, img.bytes)
    ensures CommitTail(r, s2, t, id, img, io)
  {
    hide WithRecord;
    Thrice(r.txns, t, r1.txns[t], r1.txns[t], s2.txns[t]);
  }

  ghost predicate Closes(s: State, r: State, t: TxnId, id: Digest, img: Image)
    requires t in s.txns
  {
    r == With(s, t, s.txns[t].(pc := Closed)).(images := s.images[id := img],
        accounted := s.accounted - (if id in s.images then s.images[id].bytes else 0))
  }

  lemma CommitCloses(c: Config, s: State, t: TxnId, id: Digest, img: Image) returns (r: State)
    requires s.mu.Free? && t in s.txns && s.txns[t].pc == InstallingRecord(id, img)
    ensures Leads(c, s, r) && Closes(s, r, t, id, img)
  {
    hide Leads, StageStep, RewriteStep, ReserveOnce, WithRecord, LayerStep;
    LeadsStep(c, s, InstallRecord(t));
    var s1 := Step(c, s, InstallRecord(t));
    LeadsStep(c, s1, Finish(t));
    r := Step(c, s1, Finish(t));
    LeadsOn(c, s, s1, r);
    WithTwice(s, t, s.txns[t].(pc := Closing), s.txns[t].(pc := Closed));
  }

  ghost predicate GivesBack(s: State, r: State, t: TxnId, n: nat)
    requires t in s.txns
  {
    r == With(s, t, s.txns[t].(own := s.txns[t].own - n, pc := Idle)).(accounted := s.accounted - n)
  }

  lemma CommitGivesBack(c: Config, s: State, t: TxnId, n: nat) returns (r: State)
    requires s.mu.Free? && t in s.txns && s.txns[t].pc == Releasing(n, None)
    ensures Leads(c, s, r) && GivesBack(s, r, t, n)
  {
    hide Leads, StageStep, RewriteStep, ReserveOnce, CommitStep, WithDir, WithIndex, WithDoc, InstallLayer;
    LeadsStep(c, s, GiveBack(t));
    r := Step(c, s, GiveBack(t));
  }

  /**
   * What Commit does in one go: it reserves the record's bytes, and if they are refused, or the rename fails, is back
   * where it was but for what was evicted; else the image is in the table just as given, in place of an older one, a
   * start-up reads it back as it is, and the transaction is over.
   */
  ghost predicate CommitDone(c: Config, s: State, s2: State, t: TxnId, id: Digest, img: Image, io: IO, f: Faults)
    requires t in s.txns
  {
    && s2.mu.Free? && s2.locks == s.locks && s2.rewrites == s.rewrites
    && t in s2.txns && s2.txns == s.txns[t := s2.txns[t]]
    && var (x, y) := (s.txns[t], s2.txns[t]);
       var (ok, tb) := Reserve(Tab(s), x.own, img.bytes, c.max, f);
       if !ok then
         Tab(s2) == tb && y == x
       else if io != Done then
         Tab(s2) == tb.(accounted := tb.accounted - img.bytes) && y == x
       else
         && s2.layers == tb.layers && s2.images == tb.images[id := img]
         && s2.accounted == tb.accounted - (if id in tb.images then tb.images[id].bytes else 0)
         && y == x.(own := x.own + img.bytes, pc := Closed)
         && Hex(id) in s2.disk.records
         && forall known: set<Digest> | (forall d | d in img.layers :: d in known) ::
              ReadRecord(Hex(id), s2.disk.records[Hex(id)], known) == Some(img)
  }

  lemma CommitGranted(c: Config, s: State, t: TxnId, id: Digest, img: Image, io: IO, f: Faults, r: State)
    returns (s2: State)
    requires s.mu.Free? && t in s.txns && s.txns[t].pc.Idle? && r.mu.Free? && t in r.txns
    requires r.txns == s.txns[t := s.txns[t].(own := s.txns[t].own + img.bytes, pc := MovingRecord(id, img))]
    requires r.locks == s.locks && r.rewrites == s.rewrites
    requires Reserve(Tab(s), s.txns[t].own, img.bytes, c.max, f) == (true, Tab(r))
    ensures Leads(c, r, s2) && CommitDone(c, s, s2, t, id, img, io, f)
  {
    hide Leads, Reserve, Held, ReadRecord, WithRecord;
    s2 := CommitEnds(c, r, t, id, img, io);
    Thrice(s.txns, t, r.txns[t], r.txns[t], s2.txns[t]);
    if io == Done {
      RecordBack(r.disk, id, img, img.bytes, set d | d in img.layers);
      forall known: set<Digest> | (forall d | d in img.layers :: d in known)
        ensures Hex(id) in s2.disk.records && ReadRecord(Hex(id), s2.disk.records[Hex(id)], known) == Some(img)
      {
        RecordBack(r.disk, id, img, img.bytes, known);
        assert img.(bytes := img.bytes) == img;
      }
    } else {
      HeldMove(r.txns, t, s2.txns[t], {});
    }
  }

  /** So do the steps of one Commit of declared layers. */
  lemma CommitAlone(c: Config, s: State, t: TxnId, id: Digest, img: Image, io: IO, f: Faults) returns (s2: State)
    requires s.mu.Free? && t in s.txns && s.txns[t].pc.Idle? && forall d | d in img.layers :: d in s.txns[t].layers
    ensures Leads(c, s, s2) && CommitDone(c, s, s2, t, id, img, io, f)
  {
    hide Leads, Reserve, CommitDone, AskedRecord, Tab, Size, AfterGrant, AfterRefusal;
    var x := s.txns[t];
    var s1 := AsksRecord(c, s, t, id, img);
    SameHeld(s, t, s1.txns[t]);
    var r := ReservingAlone(c, s1, t, f);
    LeadsOn(c, s, s1, r);
    AskedRecordIs(Tab(s), x.own, c.max, id, img, f);
    Thrice(s.txns, t, s1.txns[t], s1.txns[t], r.txns[t]);
    if Reserve(Tab(s), x.own, img.bytes, c.max, f).0 {
      s2 := CommitGranted(c, s, t, id, img, io, f, r);
      LeadsOn(c, s, r, s2);
    } else {
      s2 := r;
      CommitRefused(c, s, s2, t, id, img, io, f);
    }
  }

  lemma CommitRefused(c: Config, s: State, s2: State, t: TxnId, id: Digest, img: Image, io: IO, f: Faults)
    requires t in s.txns && s2.txns == s.txns && s2.mu.Free? && s2.locks == s.locks && s2.rewrites == s.rewrites
    requires Reserve(Tab(s), s.txns[t].own, img.bytes, c.max, f) == (false, Tab(s2))
    ensures CommitDone(c, s, s2, t, id, img, io, f)
  {
    hide Reserve, Tab;
  }

  // ---------------------------------------------------------------- Touch and UpgradeProvenance

  /** The rewrite's copy lands with the given size and is accounted for: the table, the disk and the total agree. */
  ghost predicate Rewritten(s: State, s2: State, id: Digest, img: Image)
    requires id in s.images
  {
    && s2 == s.(images := s.images[id := img], accounted := s.accounted + img.bytes - s.images[id].bytes,
                disk := s2.disk)
    && s2.disk.dirs == s.disk.dirs && Hex(id) in s2.disk.records
    && forall known: set<Digest> | (forall d | d in img.layers :: d in known) ::
         ReadRecord(Hex(id), s2.disk.records[Hex(id)], known) == Some(img)
  }

  lemma LandsAlone(c: Config, s: State, w: WriterId, id: Digest, img: Image, bytes: nat) returns (s2: State)
    requires s.mu.Free? && id in s.images && w !in s.rewrites
    requires img.bytes == s.images[id].bytes
    ensures var s1 := s.(images := s.images[id := img], rewrites := s.rewrites[w := Staged(id, img)]);
            Leads(c, s1, s2) && Rewritten(s, s2, id, img.(bytes := bytes))
  {
    hide Leads, Step, Enabled, WithRecord, Rewritten;
    var s1 := s.(images := s.images[id := img], rewrites := s.rewrites[w := Staged(id, img)]);
    var s3 := RenamesAlone(c, s1, w, bytes);
    s2 := AccountsAlone(c, s3, w);
    LeadsOn(c, s1, s3, s2);
    assert s.rewrites[w := Staged(id, img)][w := Renamed(id, bytes)] - {w} == s.rewrites;
    assert s.images[id := img][id := img.(bytes := bytes)] == s.images[id := img.(bytes := bytes)];
    RewrittenIs(s, s2, id, img, bytes);
  }

  lemma RenamesAlone(c: Config, s: State, w: WriterId, bytes: nat) returns (s2: State)
    requires w in s.rewrites && s.rewrites[w].Staged?
    ensures Leads(c, s, s2)
    ensures var r := s.rewrites[w];
            s2 == s.(rewrites := s.rewrites[w := Renamed(r.id, bytes)], disk := WithRecord(s.disk, r.id, r.img, bytes))
  {
    hide Leads, StageStep, LayerStep, CommitStep, ReserveOnce, WithRecord;
    LeadsStep(c, s, MoveRewrite(w, bytes, Done));
    s2 := Step(c, s, MoveRewrite(w, bytes, Done));
  }

  lemma AccountsAlone(c: Config, s: State, w: WriterId) returns (s2: State)
    requires s.mu.Free? && w in s.rewrites && s.rewrites[w].Renamed? && s.rewrites[w].id in s.images
    ensures Leads(c, s, s2)
    ensures var r, was := s.rewrites[w], s.images[s.rewrites[w].id];
            s2 == s.(rewrites := s.rewrites - {w}, images := s.images[r.id := was.(bytes := r.bytes)],
                     accounted := s.accounted + r.bytes - was.bytes)
  {
    hide Leads, StageStep, LayerStep, CommitStep, ReserveOnce;
    LeadsStep(c, s, AccountRewrite(w));
    s2 := Step(c, s, AccountRewrite(w));
  }

  lemma RewrittenIs(s: State, s2: State, id: Digest, img: Image, bytes: nat)
    requires id in s.images
    requires s2 == s.(images := s.images[id := img.(bytes := bytes)],
                      accounted := s.accounted + bytes - s.images[id].bytes,
                      disk := WithRecord(s.disk, id, img, bytes))
    ensures Rewritten(s, s2, id, img.(bytes := bytes))
  {
    hide WithRecord, ReadRecord;
    RecordBack(s.disk, id, img, bytes, set d | d in img.layers);
    forall known: set<Digest> | (forall d | d in img.layers :: d in known)
      ensures ReadRecord(Hex(id), s2.disk.records[Hex(id)], known) == Some(img.(bytes := bytes))
    {
      RecordBack(s.disk, id, img, bytes, known);
    }
  }

  /** A touch that is due, and nothing in between: the time is in the table and on disk. */
  lemma TouchAlone(c: Config, s: State, w: WriterId, id: Digest, now: int, bytes: nat) returns (s2: State)
    requires s.mu.Free? && id in s.images && w !in s.rewrites && now - s.images[id].lastUsed >= c.debounce
    ensures Leads(c, s, s2) && Rewritten(s, s2, id, s.images[id].(lastUsed := now, bytes := bytes))
  {
    hide Leads, StageStep, LayerStep, CommitStep, ReserveOnce, WithRecord, Rewritten;
    LeadsStep(c, s, Touch(w, id, now));
    s2 := LandsAlone(c, s, w, id, s.images[id].(lastUsed := now), bytes);
    LeadsOn(c, s, Step(c, s, Touch(w, id, now)), s2);
  }

  /** An upgrade, likewise: a pin given or there before is there after. */
  lemma UpgradeAlone(c: Config, s: State, w: WriterId, id: Digest, pin: bool, bytes: nat) returns (s2: State)
    requires s.mu.Free? && id in s.images && w !in s.rewrites
    ensures Leads(c, s, s2)
    ensures Rewritten(s, s2, id, s.images[id].(pinned := pin || s.images[id].pinned, bytes := bytes))
  {
    hide Leads, StageStep, LayerStep, CommitStep, ReserveOnce, WithRecord, Rewritten;
    LeadsStep(c, s, Upgrade(w, id, pin));
    s2 := LandsAlone(c, s, w, id, s.images[id].(pinned := pin || s.images[id].pinned), bytes);
    LeadsOn(c, s, Step(c, s, Upgrade(w, id, pin)), s2);
  }

  // ---------------------------------------------------------------- the other operations

  /** Opening a transaction. */
  lemma BeginAlone(c: Config, s: State, t: TxnId) returns (s2: State)
    requires s.mu.Free? && t !in s.txns
    ensures Leads(c, s, s2) && s2 == s.(txns := s.txns[t := Txn({}, 0, {}, Idle)]) && Tab(s2) == Tab(s)
  {
    hide Leads, LayerStep, CommitStep, RewriteStep, ReserveOnce;
    LeadsStep(c, s, Begin(t));
    s2 := Step(c, s, Begin(t));
    HeldMove(s.txns, t, s2.txns[t], {});
  }

  /** Declaring a layer, which a finished transaction can do as well; it protects the layer only while the transaction
      is open. */
  lemma UseAlone(c: Config, s: State, t: TxnId, d: Digest) returns (s2: State)
    requires s.mu.Free? && t in s.txns && (s.txns[t].pc.Idle? || s.txns[t].pc.Closed?)
    ensures Leads(c, s, s2)
    ensures d !in s.layers ==> s2 == s
    ensures d in s.layers ==> s2 == s.(txns := s.txns[t := s.txns[t].(layers := s.txns[t].layers + {d})])
    ensures Tab(s2) == if d in s.layers && s.txns[t].pc.Idle? then WithHeld(Tab(s), d) else Tab(s)
  {
    hide Leads, LayerStep, CommitStep, RewriteStep, ReserveOnce, PinnedBytes;
    LeadsStep(c, s, Use(t, d));
    s2 := Step(c, s, Use(t, d));
    if d in s.layers { HeldMove(s.txns, t, s2.txns[t], {d}); }
  }

  /** Giving a transaction up: its layers are no longer declared, and everything else stays. */
  lemma AbortAlone(c: Config, s: State, t: TxnId) returns (s2: State)
    requires s.mu.Free? && t in s.txns && s.txns[t].pc.Idle?
    ensures Leads(c, s, s2) && s2 == With(s, t, s.txns[t].(pc := Closed))
  {
    hide Leads, LayerStep, StageStep, RewriteStep, ReserveOnce;
    LeadsStep(c, s, Abort(t));
    var s1 := Step(c, s, Abort(t));
    LeadsStep(c, s1, Finish(t));
    s2 := Step(c, s1, Finish(t));
    LeadsOn(c, s, s1, s2);
    WithTwice(s, t, s.txns[t].(pc := Closing), s.txns[t].(pc := Closed));
  }

  /** A PutLayer whose staging fails leaves everything as it was. */
  lemma PutFailsStaging(c: Config, s: State, t: TxnId, d: Digest) returns (s2: State)
    requires s.mu.Free? && t in s.txns && s.txns[t].pc.Idle? && d !in s.locks && d !in s.layers
    ensures Leads(c, s, s2) && s2 == s
  {
    hide Leads, CommitStep, LayerStep, RewriteStep, ReserveOnce, Ceiling, Tab;
    var x := s.txns[t];
    var s1 := Enters(c, s, t, d);
    LeadsStep(c, s1, CheckPresent(t));
    var s3 := Step(c, s1, CheckPresent(t));
    LeadsOn(c, s, s1, s3);
    LeadsStep(c, s3, ReadCeiling(t));
    var s4 := Step(c, s3, ReadCeiling(t));
    LeadsOn(c, s, s3, s4);
    LeadsStep(c, s4, StageFails(t));
    var s5 := Step(c, s4, StageFails(t));
    LeadsOn(c, s, s4, s5);
    Thrice(s.txns, t, s1.txns[t], s3.txns[t], s4.txns[t]);
    Thrice(s.txns, t, s4.txns[t], s5.txns[t], x);
    assert s5 == With(s, t, x.(pc := Unlocking(d))).(locks := s.locks[d := LayerLock(1, true)]);
    s2 := Exits(c, s5, t, d);
    LeadsOn(c, s, s5, s2);
    Ended(s, t, d, x, s5.txns[t], x);
  }

  /** So does a Commit. */
  lemma CommitFailsStaging(c: Config, s: State, t: TxnId, id: Digest, img: Image) returns (s2: State)
    requires s.mu.Free? && t in s.txns && s.txns[t].pc.Idle? && forall d | d in img.layers :: d in s.txns[t].layers
    ensures Leads(c, s, s2) && s2 == s
  {
    hide Leads, LayerStep, RewriteStep, ReserveOnce, Ceiling, Tab;
    var x := s.txns[t];
    LeadsStep(c, s, CommitStart(t, id, img));
    var s1 := Step(c, s, CommitStart(t, id, img));
    LeadsStep(c, s1, ReadCeiling(t));
    var s3 := Step(c, s1, ReadCeiling(t));
    LeadsOn(c, s, s1, s3);
    LeadsStep(c, s3, StageFails(t));
    s2 := Step(c, s3, StageFails(t));
    LeadsOn(c, s, s3, s2);
    Thrice(s.txns, t, s1.txns[t], s3.txns[t], x);
    assert s.txns[t := x] == s.txns;
  }

  /** Nothing larger than the ceiling, as it was when it was read, is ever staged. */
  lemma StagedWithinCeiling(c: Config, s: State, t: TxnId, s2: State, i: nat, j: nat)
    requires Enabled(c, s, ReadCeiling(t)) && t in s2.txns && s2.txns[t] == Step(c, s, ReadCeiling(t)).txns[t]
    ensures Enabled(c, s2, Stage(t, i, j)) ==> i + j <= Ceiling(Tab(s), s.txns[t].own, c.max)
    ensures Enabled(c, s2, StageRecord(t, i)) ==> i <= Ceiling(Tab(s), s.txns[t].own, c.max)
  {
    hide LayerStep, CommitStep, RewriteStep, ReserveOnce, Ceiling, Tab;
  }
}
