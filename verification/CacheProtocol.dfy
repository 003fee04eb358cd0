/** The cache store under concurrency. A step is one hold of the store mutex, one operation on a per-digest lock,
    or one file operation made outside the mutex; eviction, which holds the mutex, is split at each file operation.
    Every interleaving of steps is a run, and the disk of every state of a run is a point at which a crash can
    happen. */
module CacheProtocol {
  import opened Options
  import opened CacheTables
  import opened CacheDisk

  type TxnId = nat
  type WriterId = nat

  /** max is the byte cap. rootfs gives the layers of the image with a given id: the id is the digest of the
      image configuration, which lists them. */
  datatype Config = Config(max: int, debounce: int, rootfs: Digest -> seq<Digest>)

  /** What a reservation in progress is for. lock is the digest lock held meanwhile, if any. */
  datatype Job =
    | LayerJob(d: Digest, indexBytes: nat, docBytes: nat)
    | RecordJob(id: Digest, img: Image)
    | ProbeJob(n: nat, lock: Option<Digest>)

  /** Where a transaction is. PutLayer goes from Waiting to Leaving, Commit from CommitCeiling to Closing. */
  datatype PC =
    | Idle
    | Waiting(d: Digest) | Checking(d: Digest) | PutCeiling(d: Digest) | Staging(d: Digest, limit: int)
    | Reserving(job: Job)
    | MakingDir(d: Digest, indexBytes: nat, docBytes: nat)
    | MovingIndex(d: Digest, indexBytes: nat, docBytes: nat)
    | MovingDoc(d: Digest, indexBytes: nat, docBytes: nat)
    | Installing(d: Digest, indexBytes: nat, docBytes: nat)
    | Releasing(n: nat, lock: Option<Digest>)
    | Unlocking(d: Digest) | Leaving(d: Digest)
    | CommitCeiling(id: Digest, img: Image) | StagingRecord(id: Digest, img: Image, limit: int)
    | MovingRecord(id: Digest, img: Image) | InstallingRecord(id: Digest, img: Image)
    | Closing | Closed

  /** written is the history of the layers this transaction installed itself. */
  datatype Txn = Txn(layers: set<Digest>, own: int, written: set<Digest>, pc: PC)

  /** waiters counts those holding or waiting. */
  datatype LayerLock = LayerLock(waiters: nat, held: bool)

  /** The store mutex: free between steps, or held by a reservation that still has layers of its last victim to
      visit. */
  datatype Mutex = Free | Evicting(t: TxnId, pending: seq<Digest>)

  /** A record rewrite by Touch or UpgradeProvenance, after it has let go of the mutex. */
  datatype Rewrite = Staged(id: Digest, img: Image) | Renamed(id: Digest, bytes: nat)

  datatype State = State(layers: map<Digest, nat>, images: map<Digest, Image>, accounted: int,
                         txns: map<TxnId, Txn>, locks: map<Digest, LayerLock>, mu: Mutex,
                         rewrites: map<WriterId, Rewrite>, disk: Disk)

  /** How a file operation ends. A rename can take effect and still report an error, from syncing the directory. */
  datatype IO = Done | Failed | DoneThenFailed

  datatype Action =
    | Begin(t: TxnId) | Use(t: TxnId, d: Digest)
    | PutStart(t: TxnId, d: Digest) | Acquire(t: TxnId) | CheckPresent(t: TxnId)
    | ReadCeiling(t: TxnId) | Stage(t: TxnId, indexBytes: nat, docBytes: nat) | StageTooBig(t: TxnId)
        | StageFails(t: TxnId)
    | ReserveStart(t: TxnId) | ReserveStep(t: TxnId, ok: bool)
    | MakeDir(t: TxnId, io: IO) | MoveIndex(t: TxnId, io: IO) | MoveDoc(t: TxnId, io: IO)
    | Install(t: TxnId) | GiveBack(t: TxnId) | Unlock(t: TxnId) | Leave(t: TxnId)
    | CommitStart(t: TxnId, id: Digest, img: Image) | StageRecord(t: TxnId, bytes: nat)
    | MoveRecord(t: TxnId, io: IO) | InstallRecord(t: TxnId)
    | Abort(t: TxnId) | Finish(t: TxnId)
    | Touch(w: WriterId, id: Digest, now: int) | Upgrade(w: WriterId, id: Digest, pin: bool)
    | MoveRewrite(w: WriterId, bytes: nat, io: IO) | AccountRewrite(w: WriterId)

  // ---------------------------------------------------------------- views

  ghost function Held(txns: map<TxnId, Txn>): set<Digest> {
    set t, d | t in txns && txns[t].pc != Closed && d in txns[t].layers :: d
  }

  ghost function Tab(s: State): Tables {
    Tables(s.layers, s.images, s.accounted, Held(s.txns))
  }

  function Size(job: Job): nat {
    match job
    case LayerJob(_, i, j) => i + j
    case RecordJob(_, img) => img.bytes
    case ProbeJob(n, _) => n
  }

  /** Bytes charged for something not yet in the tables. */
  function Outstanding(pc: PC): nat {
    match pc
    case MakingDir(_, i, j) => i + j
    case MovingIndex(_, i, j) => i + j
    case MovingDoc(_, i, j) => i + j
    case Installing(_, i, j) => i + j
    case Releasing(n, _) => n
    case MovingRecord(_, img) => img.bytes
    case InstallingRecord(_, img) => img.bytes
    case _ => 0
  }

  /** The digest whose lock entry this transaction counts in. */
  function Section(pc: PC): Option<Digest> {
    match pc
    case Waiting(d) => Some(d)
    case Leaving(d) => Some(d)
    case _ => Holds(pc)
  }

  /** The digest whose lock this transaction holds. */
  function Holds(pc: PC): Option<Digest> {
    match pc
    case Checking(d) => Some(d)
    case Unlocking(d) => Some(d)
    case Releasing(_, l) => l
    case Reserving(ProbeJob(_, l)) => l
    case _ => Missing(pc)
  }

  /** The digest this transaction found absent and is about to install. */
  function Missing(pc: PC): Option<Digest> {
    match pc
    case PutCeiling(d) => Some(d)
    case Staging(d, _) => Some(d)
    case Reserving(LayerJob(d, _, _)) => Some(d)
    case MakingDir(d, _, _) => Some(d)
    case MovingIndex(d, _, _) => Some(d)
    case MovingDoc(d, _, _) => Some(d)
    case Installing(d, _, _) => Some(d)
    case _ => None
  }

  /** The image record this transaction is committing. */
  function Committing(pc: PC): Option<(Digest, Image)> {
    match pc
    case CommitCeiling(id, img) => Some((id, img))
    case StagingRecord(id, img, _) => Some((id, img))
    case Reserving(RecordJob(id, img)) => Some((id, img))
    case MovingRecord(id, img) => Some((id, img))
    case InstallingRecord(id, img) => Some((id, img))
    case _ => None
  }

  function After(lock: Option<Digest>): PC {
    if lock.Some? then Unlocking(lock.value) else Idle
  }

  function AfterGrant(job: Job): PC {
    match job
    case LayerJob(d, i, j) => MakingDir(d, i, j)
    case RecordJob(id, img) => MovingRecord(id, img)
    case ProbeJob(n, l) => Releasing(n, l)
  }

  function AfterRefusal(job: Job): PC {
    match job
    case LayerJob(d, _, _) => Unlocking(d)
    case RecordJob(_, _) => Idle
    case ProbeJob(_, l) => After(l)
  }

  // ---------------------------------------------------------------- file operations

  function WithDir(disk: Disk, d: Digest): Disk {
    if Hex(d) in disk.dirs then disk else disk.(dirs := disk.dirs[Hex(d) := Folder(None, None, 0)])
  }

  function WithIndex(disk: Disk, d: Digest, bytes: nat): Disk {
    if Hex(d) in disk.dirs && disk.dirs[Hex(d)].Folder?
    then disk.(dirs := disk.dirs[Hex(d) := disk.dirs[Hex(d)].(index := Some(bytes))]) else disk
  }

  function WithDoc(disk: Disk, d: Digest, bytes: nat): Disk {
    if Hex(d) in disk.dirs && disk.dirs[Hex(d)].Folder?
    then disk.(dirs := disk.dirs[Hex(d) := disk.dirs[Hex(d)].(doc := Some(LayerDoc(SCHEMA_VERSION, d, bytes)))])
        else disk
  }

  function WithRecord(disk: Disk, id: Digest, img: Image, bytes: nat): Disk {
    disk.(records := disk.records[Hex(id) :=
        Record(Some(RecordDoc(SCHEMA_VERSION, id, img.layers, img.pinned, img.lastUsed)), bytes)])
  }

  // ---------------------------------------------------------------- steps

  ghost predicate At(s: State, t: TxnId) {
    t in s.txns && (s.mu.Evicting? ==> s.mu.t != t)
  }

  function Put(s: State, t: TxnId, x: Txn): State {
    s.(txns := s.txns[t := x])
  }

  function Go(s: State, t: TxnId, pc: PC): State
    requires t in s.txns
  {
    Put(s, t, s.txns[t].(pc := pc))
  }

  /** When the step can be taken: the mutex is free if the step needs it, and the transaction is at the right place. */
  ghost predicate Enabled(c: Config, s: State, a: Action) {
    match a
    case Begin(t) => t !in s.txns && s.mu.Free?
    case Use(t, d) => s.mu.Free? && At(s, t) && (s.txns[t].pc.Idle? || s.txns[t].pc.Closed?)
    case PutStart(t, d) => s.mu.Free? && At(s, t) && s.txns[t].pc.Idle?
    case Acquire(t) => At(s, t) && s.txns[t].pc.Waiting? && s.txns[t].pc.d in s.locks && !s.locks[s.txns[t].pc.d].held
    case CheckPresent(t) => s.mu.Free? && At(s, t) && s.txns[t].pc.Checking?
    case ReadCeiling(t) => s.mu.Free? && At(s, t) && (s.txns[t].pc.PutCeiling? || s.txns[t].pc.CommitCeiling?)
    case Stage(t, i, j) => At(s, t) && s.txns[t].pc.Staging? && i + j <= s.txns[t].pc.limit
    case StageTooBig(t) => s.mu.Free? && At(s, t) && (s.txns[t].pc.Staging? || s.txns[t].pc.StagingRecord?)
    case StageFails(t) => At(s, t) && (s.txns[t].pc.Staging? || s.txns[t].pc.StagingRecord?)
    case ReserveStart(t) => s.mu.Free? && At(s, t) && s.txns[t].pc.Reserving?
    case ReserveStep(t, ok) => s.mu.Evicting? && s.mu.t == t && t in s.txns && s.txns[t].pc.Reserving?
    case MakeDir(t, io) => At(s, t) && s.txns[t].pc.MakingDir?
    case MoveIndex(t, io) => At(s, t) && s.txns[t].pc.MovingIndex?
    case MoveDoc(t, io) => At(s, t) && s.txns[t].pc.MovingDoc?
    case Install(t) => s.mu.Free? && At(s, t) && s.txns[t].pc.Installing?
    case GiveBack(t) => s.mu.Free? && At(s, t) && s.txns[t].pc.Releasing?
    case Unlock(t) => At(s, t) && s.txns[t].pc.Unlocking? && s.txns[t].pc.d in s.locks
    case Leave(t) => s.mu.Free? && At(s, t) && s.txns[t].pc.Leaving? && s.txns[t].pc.d in s.locks
        && s.locks[s.txns[t].pc.d].waiters > 0
    case CommitStart(t, id, img) =>
        At(s, t) && s.txns[t].pc.Idle? && forall d | d in img.layers :: d in s.txns[t].layers
    case StageRecord(t, bytes) => At(s, t) && s.txns[t].pc.StagingRecord? && bytes <= s.txns[t].pc.limit
    case MoveRecord(t, io) => At(s, t) && s.txns[t].pc.MovingRecord?
    case InstallRecord(t) => s.mu.Free? && At(s, t) && s.txns[t].pc.InstallingRecord?
    case Abort(t) => At(s, t) && s.txns[t].pc.Idle?
    case Finish(t) => s.mu.Free? && At(s, t) && s.txns[t].pc.Closing?
    case Touch(w, id, now) =>
        s.mu.Free? && w !in s.rewrites && id in s.images && now - s.images[id].lastUsed >= c.debounce
    case Upgrade(w, id, pin) => s.mu.Free? && w !in s.rewrites && id in s.images
    case MoveRewrite(w, bytes, io) => w in s.rewrites && s.rewrites[w].Staged?
    case AccountRewrite(w) => s.mu.Free? && w in s.rewrites && s.rewrites[w].Renamed?
  }

  /** Opening a transaction, declaring a layer, and PutLayer up to its reservation. */
  ghost function StageStep(c: Config, s: State, a: Action): State
    requires Enabled(c, s, a)
  {
    match a
    case Begin(t) => Put(s, t, Txn({}, 0, {}, Idle))
    case Use(t, d) =>
      if d in s.layers then Put(s, t, s.txns[t].(layers := s.txns[t].layers + {d})) else s
    case PutStart(t, d) => Register(s, t, d)
    case Acquire(t) =>
      var d := s.txns[t].pc.d;
      Go(s, t, Checking(d)).(locks := s.locks[d := s.locks[d].(held := true)])
    case CheckPresent(t) =>
      var d := s.txns[t].pc.d;
      if d in s.layers then Put(s, t, s.txns[t].(layers := s.txns[t].layers + {d}, pc := Unlocking(d)))
          else Go(s, t, PutCeiling(d))
    case ReadCeiling(t) =>
      var limit := Ceiling(Tab(s), s.txns[t].own, c.max);
      Go(s, t, if s.txns[t].pc.PutCeiling? then Staging(s.txns[t].pc.d, limit)
          else StagingRecord(s.txns[t].pc.id, s.txns[t].pc.img, limit))
    case Stage(t, i, j) => Go(s, t, Reserving(LayerJob(s.txns[t].pc.d, i, j)))
    case StageTooBig(t) =>
      var lock := if s.txns[t].pc.Staging? then Some(s.txns[t].pc.d) else None;
      Go(s, t, Reserving(ProbeJob(Ceiling(Tab(s), s.txns[t].own, c.max) + 1, lock)))
    case StageFails(t) => Go(s, t, if s.txns[t].pc.Staging? then Unlocking(s.txns[t].pc.d) else Idle)
    case ReserveStart(t) =>
      var job := s.txns[t].pc.job;
      if Size(job) <= 0 then Go(s, t, AfterGrant(job))
      else if s.txns[t].own + Size(job) > c.max - PinnedBytes(Tab(s)) then Go(s, t, AfterRefusal(job))
      else s.(mu := Evicting(t, []))
    case _ => s
  }

  /** PutLayer once its bytes are reserved. */
  ghost function LayerStep(c: Config, s: State, a: Action): State
    requires Enabled(c, s, a)
  {
    match a
    case MakeDir(t, io) =>
      var pc := s.txns[t].pc;
      var s1 := if io == Failed then s else s.(disk := WithDir(s.disk, pc.d));
      Go(s1, t, if io == Done then MovingIndex(pc.d, pc.indexBytes, pc.docBytes)
          else Releasing(pc.indexBytes + pc.docBytes, Some(pc.d)))
    case MoveIndex(t, io) =>
      var pc := s.txns[t].pc;
      var s1 := if io == Failed then s else s.(disk := WithIndex(s.disk, pc.d, pc.indexBytes));
      Go(s1, t, if io == Done then MovingDoc(pc.d, pc.indexBytes, pc.docBytes)
          else Releasing(pc.indexBytes + pc.docBytes, Some(pc.d)))
    case MoveDoc(t, io) =>
      var pc := s.txns[t].pc;
      var s1 := if io == Failed then s else s.(disk := WithDoc(s.disk, pc.d, pc.docBytes));
      Go(s1, t, if io == Done then Installing(pc.d, pc.indexBytes, pc.docBytes)
          else Releasing(pc.indexBytes + pc.docBytes, Some(pc.d)))
    case Install(t) => InstallLayer(s, t)
    case GiveBack(t) =>
      var pc := s.txns[t].pc;
      Put(s, t, s.txns[t].(own := s.txns[t].own - pc.n, pc := After(pc.lock))).(accounted := s.accounted - pc.n)
    case Unlock(t) =>
      var d := s.txns[t].pc.d;
      Go(s, t, Leaving(d)).(locks := s.locks[d := s.locks[d].(held := false)])
    case Leave(t) => Unregister(s, t)
    case _ => s
  }

  /** Commit and Abort. */
  ghost function CommitStep(c: Config, s: State, a: Action): State
    requires Enabled(c, s, a)
  {
    match a
    case CommitStart(t, id, img) => Go(s, t, CommitCeiling(id, img))
    case StageRecord(t, bytes) =>
      Go(s, t, Reserving(RecordJob(s.txns[t].pc.id, s.txns[t].pc.img.(bytes := bytes))))
    case MoveRecord(t, io) =>
      var pc := s.txns[t].pc;
      var s1 := if io == Failed then s else s.(disk := WithRecord(s.disk, pc.id, pc.img, pc.img.bytes));
      Go(s1, t, if io == Done then InstallingRecord(pc.id, pc.img) else Releasing(pc.img.bytes, None))
    case InstallRecord(t) =>
      var pc := s.txns[t].pc;
      var gone := if pc.id in s.images then s.images[pc.id].bytes else 0;
      Go(s, t, Closing).(images := s.images[pc.id := pc.img], accounted := s.accounted - gone)
    case Abort(t) => Go(s, t, Closing)
    case Finish(t) => Go(s, t, Closed)
    case _ => s
  }

  /** Touch and UpgradeProvenance. */
  ghost function RewriteStep(c: Config, s: State, a: Action): State
    requires Enabled(c, s, a)
  {
    match a
    case Touch(w, id, now) =>
      var img := s.images[id].(lastUsed := now);
      s.(images := s.images[id := img], rewrites := s.rewrites[w := Staged(id, img)])
    case Upgrade(w, id, pin) =>
      var img := s.images[id].(pinned := s.images[id].pinned || pin);
      s.(images := s.images[id := img], rewrites := s.rewrites[w := Staged(id, img)])
    case MoveRewrite(w, bytes, io) =>
      var r := s.rewrites[w];
      var s1 := if io == Failed then s else s.(disk := WithRecord(s.disk, r.id, r.img, bytes));
      s1.(rewrites := if io == Done then s.rewrites[w := Renamed(r.id, bytes)] else s.rewrites - {w})
    case AccountRewrite(w) =>
      var r := s.rewrites[w];
      var s1 := s.(rewrites := s.rewrites - {w});
      if r.id in s.images then
        s1.(accounted := s.accounted + r.bytes - s.images[r.id].bytes,
            images := s.images[r.id := s.images[r.id].(bytes := r.bytes)])
      else s1
    case _ => s
  }

  ghost function Step(c: Config, s: State, a: Action): State
    requires Enabled(c, s, a)
  {
    match a
    case ReserveStep(t, ok) => ReserveOnce(c, s, t, ok)
    case MakeDir(_, _) | MoveIndex(_, _) | MoveDoc(_, _) | Install(_) | GiveBack(_) | Unlock(_) | Leave(_) =>
        LayerStep(c, s, a)
    case CommitStart(_, _, _) | StageRecord(_, _) | MoveRecord(_, _) | InstallRecord(_) | Abort(_) | Finish(_) =>
        CommitStep(c, s, a)
    case Touch(_, _, _) | Upgrade(_, _, _) | MoveRewrite(_, _, _) | AccountRewrite(_) => RewriteStep(c, s, a)
    case _ => StageStep(c, s, a)
  }

  function Register(s: State, t: TxnId, d: Digest): State
    requires t in s.txns
  {
    var l := if d in s.locks then s.locks[d] else LayerLock(0, false);
    Go(s, t, Waiting(d)).(locks := s.locks[d := l.(waiters := l.waiters + 1)])
  }

  function Unregister(s: State, t: TxnId): State
    requires t in s.txns && s.txns[t].pc.Leaving? && s.txns[t].pc.d in s.locks && s.locks[s.txns[t].pc.d].waiters > 0
  {
    var d := s.txns[t].pc.d;
    var l := s.locks[d].(waiters := s.locks[d].waiters - 1);
    Go(s, t, Idle).(locks := if l.waiters == 0 then s.locks - {d} else s.locks[d := l])
  }

  function InstallLayer(s: State, t: TxnId): State
    requires t in s.txns && s.txns[t].pc.Installing?
  {
    var x := s.txns[t];
    var d, n := x.pc.d, x.pc.indexBytes + x.pc.docBytes;
    if d in s.layers then Put(s, t, x.(layers := x.layers + {d}, pc := Releasing(n, Some(d))))
    else Put(s, t, x.(layers := x.layers + {d}, written := x.written + {d}, pc := Unlocking(d)))
           .(layers := s.layers[d := n])
  }

  /** One file operation of the reservation that holds the mutex, with the table change that goes with it:
      visit the next layer of the last victim, or grant, or give up, or remove the next victim's record. */
  ghost function ReserveOnce(c: Config, s: State, t: TxnId, ok: bool): State
    requires s.mu.Evicting? && s.mu.t == t && t in s.txns && s.txns[t].pc.Reserving?
  {
    var job := s.txns[t].pc.job;
    var tb := Tab(s);
    if s.mu.pending != [] then
      var d := s.mu.pending[0];
      var r := DropLayer(tb, d, if ok then {} else {d});
      s.(mu := Evicting(t, s.mu.pending[1..]), layers := r.layers, accounted := r.accounted,
         disk := if r.layers == s.layers then s.disk else s.disk.(dirs := s.disk.dirs - {Hex(d)}))
    else if s.accounted + Size(job) <= c.max then
      Put(s, t, s.txns[t].(own := s.txns[t].own + Size(job), pc := AfterGrant(job))).(mu := Free,
          accounted := s.accounted + Size(job))
    else if !ok || !exists v :: IsVictim(s.images, v) then
      Go(s, t, AfterRefusal(job)).(mu := Free)
    else
      var v :| IsVictim(s.images, v);
      var r := RemoveImage(tb, v);
      s.(mu := Evicting(t, s.images[v].layers), images := r.images, accounted := r.accounted,
         disk := s.disk.(records := s.disk.records - {Hex(v)}))
  }

  /** The record of victim v goes, and the reservation has v's layers to visit. */
  ghost predicate VictimGoes(s: State, s2: State, v: Digest) {
    && s.mu.Evicting? && v in s.images
    && s2 == s.(mu := Evicting(s.mu.t, s.images[v].layers), images := s.images - {v},
                accounted := s.accounted - s.images[v].bytes, disk := s.disk.(records := s.disk.records - {Hex(v)}))
  }

  /** With no layer left to visit, the reservation is granted, or gives up, or takes the next victim. */
  lemma RoundIs(c: Config, s: State, t: TxnId, ok: bool)
    requires Enabled(c, s, ReserveStep(t, ok)) && s.mu.pending == []
    ensures var s2, x, job := Step(c, s, ReserveStep(t, ok)), s.txns[t], s.txns[t].pc.job;
            if s.accounted + Size(job) <= c.max then
              s2 == Put(s, t, x.(own := x.own + Size(job), pc := AfterGrant(job))).(mu := Free,
                  accounted := s.accounted + Size(job))
            else
              || s2 == Go(s, t, AfterRefusal(job)).(mu := Free)
              || exists v :: VictimGoes(s, s2, v)
  {
    hide AfterGrant, AfterRefusal, StageStep, LayerStep, CommitStep, RewriteStep, Held, Size, IsVictim;
    if s.accounted + Size(s.txns[t].pc.job) > c.max && ok && exists v :: IsVictim(s.images, v) {
      var s2 := ReserveOnce(c, s, t, ok);
      var v :| IsVictim(s.images, v);
      forall w | IsVictim(s.images, w) ensures w == v { VictimUnique(s.images, v, w); }
      VictimIn(s.images, v);
      assert VictimGoes(s, s2, v);
    }
  }

  lemma VictimIn(images: map<Digest, Image>, v: Digest)
    requires IsVictim(images, v)
    ensures v in images
  {
  }

  /** s2 is reached from s1 by the steps of as. */
  ghost predicate Runs(c: Config, s1: State, acts: seq<Action>, s2: State)
    decreases |acts|
  {
    if acts == [] then s1 == s2 else Enabled(c, s1, acts[0]) && Runs(c, Step(c, s1, acts[0]), acts[1..], s2)
  }

  /** The store just after start-up on the given disk. */
  ghost function Opened(disk: Disk): State {
    var tb := SweptTables(disk);
    State(tb.layers, tb.images, tb.accounted, map[], map[], Free, map[], SweptDisk(disk))
  }
}
