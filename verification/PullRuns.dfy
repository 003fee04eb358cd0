/** Every interleaving of submissions, cancellations and running pulls. */
module PullRuns {
  import opened ByteStrings
  import opened PullTable

  /**
   * Where the work behind a pull is: a run reports its image last, just before it returns without an error. A
   * recorded pull has no run, but is finished in a second step.
   */
  datatype Stage = AtWork | Returning | Ended | SlotReturned | Recording(image: nat) | Recorded {
    predicate HoldsSlot() {
      AtWork? || Returning? || Ended?
    }
  }

  datatype Rec = Rec(key: Str, status: Status, stage: Stage)

  /** made has every pull ever made; the table forgets some of them. */
  datatype State = State(table: Table, made: map<Id, Rec>)

  datatype Action =
    | Submit(id: Id, key: Str)
    | RecordStart(id: Id, key: Str, image: nat)
    | RecordEnd(id: Id)
    | Phase(id: Id, resolving: bool)
    | Image(id: Id, image: nat)
    | End(id: Id, err: RunError, ctx: Context)
    | Release(id: Id)
    | Cancel(id: Id)

  const EMPTY := State(Table([], map[], 0), map[])

  ghost function DoneIds(s: State): set<Id> {
    set id | id in s.made && s.made[id].status.terminal
  }

  ghost predicate AtStage(s: State, id: Id, stage: Stage) {
    id in s.made && s.made[id].stage == stage
  }

  ghost predicate Enabled(s: State, a: Action) {
    match a
    case Submit(id, _) => id !in s.made
    case RecordStart(id, _, _) => id !in s.made
    case RecordEnd(id) => id in s.made && s.made[id].stage.Recording?
    case Phase(id, _) => AtStage(s, id, AtWork)
    case Image(id, _) => AtStage(s, id, AtWork)
    case End(id, err, _) => AtStage(s, id, if err == NoError then Returning else AtWork)
    case Release(id) => AtStage(s, id, Ended)
    case Cancel(id) => id in s.made
  }

  ghost function With(s: State, id: Id, status: Status): State
    requires id in s.made
  {
    s.(made := s.made[id := s.made[id].(status := status)])
  }

  ghost function Step(limit: int, s: State, a: Action): State
    requires Enabled(s, a)
  {
    match a
    case Submit(id, key) =>
      if Admit(s.table, limit, key, DoneIds(s)).Created? then
        State(Added(s.table.(inFlight := s.table.inFlight + 1), id, key, DoneIds(s)),
            s.made[id := Rec(key, NEW_STATUS, AtWork)])
      else s
    case RecordStart(id, key, image) =>
      State(Added(s.table, id, key, DoneIds(s)), s.made[id := Rec(key, NEW_STATUS, Recording(image))])
    case RecordEnd(id) =>
      s.(made := s.made[id := Rec(s.made[id].key, OnRecorded(s.made[id].status, s.made[id].stage.image), Recorded)])
    case Phase(id, resolving) => With(s, id, OnPhase(s.made[id].status, resolving))
    case Image(id, image) => s.(made := s.made[id := Rec(s.made[id].key, OnImage(s.made[id].status, image), Returning)])
    case End(id, err, ctx) =>
        s.(made := s.made[id := Rec(s.made[id].key, OnFinish(s.made[id].status, err, ctx), Ended)])
    case Release(id) => State(Released(s.table, DoneIds(s)), s.made[id := s.made[id].(stage := SlotReturned)])
    case Cancel(id) => With(s, id, OnCancel(s.made[id].status))
  }

  // ---------------------------------------------------------------- the invariant

  /** The pulls that hold a slot: admitted and not yet released. */
  ghost function Slots(s: State): set<Id> {
    set id | id in s.made && s.made[id].stage.HoldsSlot()
  }

  ghost predicate SlotsCounted(limit: int, s: State) {
    s.table.inFlight == |Slots(s)| && (limit > 0 ==> s.table.inFlight <= limit)
  }

  ghost predicate Live(s: State, id: Id) {
    id in s.made && !s.made[id].status.terminal
  }

  /** The table lists known pulls once each, its keys name pulls in it, and no live pull is missing. */
  ghost predicate Tabled(s: State) {
    && NoRepeats(s.table.order)
    && (forall id | id in s.table.order :: id in s.made)
    && (forall k | k in s.table.byKey :: s.table.byKey[k] in s.table.order && s.made[s.table.byKey[k]].key == k)
    && (forall id | Live(s, id) :: id in s.table.order)
  }

  ghost predicate StageFits(r: Rec) {
    match r.stage
    case AtWork => r.status.image.None? && r.status.failure.None?
    case Returning => r.status.image.Some? && r.status.failure.None?
    case Ended => r.status.terminal
    case SlotReturned => r.status.terminal
    case Recording(_) => r.status.failure.None? && r.status.state != Done
    case Recorded => r.status.terminal
  }

  /** A failed pull names no image. */
  ghost predicate NoneFailed(s: Status) {
    s.state == Failed ==> s.image.None?
  }

  ghost predicate AllSound(s: State) {
    forall id | id in s.made :: Sound(s.made[id].status) && StageFits(s.made[id]) && NoneFailed(s.made[id].status)
  }

  ghost predicate Inv(limit: int, s: State) {
    SlotsCounted(limit, s) && Tabled(s) && AllSound(s)
  }

  // ---------------------------------------------------------------- one step

  lemma TrimKeeps(t: Table, done: set<Id>)
    requires NoRepeats(t.order)
    ensures var r := Trimmed(t, done);
            && NoRepeats(r.order) && r.inFlight == t.inFlight
            && (forall id | id in r.order :: id in t.order)
            && (forall id | id in t.order && id !in done :: id in r.order)
            && (forall k | k in r.byKey :: k in t.byKey && r.byKey[k] == t.byKey[k] && r.byKey[k] in r.order)
            && (forall k | k in t.byKey && t.byKey[k] in t.order && t.byKey[k] !in done :: k in r.byKey)
  {
    hide Evict;
    EvictLeaves(t.order, done);
  }

  lemma AddKeeps(t: Table, id: Id, key: Str, done: set<Id>)
    requires NoRepeats(t.order) && id !in t.order && id !in done
    ensures var r := Added(t, id, key, done);
            && NoRepeats(r.order) && r.inFlight == t.inFlight && id in r.order && key in r.byKey && r.byKey[key] == id
            && (forall x | x in r.order :: x == id || x in t.order)
            && (forall x | x in t.order && x !in done :: x in r.order)
            && (forall k | k in r.byKey && k != key ::
                k in t.byKey && r.byKey[k] == t.byKey[k] && r.byKey[k] in r.order)
            && (forall k | k in t.byKey && k != key && t.byKey[k] in t.order && t.byKey[k] !in done :: k in r.byKey)
  {
    hide Trimmed;
    TrimKeeps(t.(order := t.order + [id], byKey := t.byKey[key := id]), done);
  }

  lemma SlotTaken(s: State, id: Id, r: Rec)
    requires id !in s.made
    ensures Slots(s.(made := s.made[id := r])) == if r.stage.HoldsSlot() then Slots(s) + {id} else Slots(s)
  {
  }

  lemma SlotMoved(s: State, id: Id, r: Rec)
    requires id in s.made
    ensures var had, has := s.made[id].stage.HoldsSlot(), r.stage.HoldsSlot();
            Slots(s.(made := s.made[id := r])) == if had == has then Slots(s) else if has then Slots(s) + {id}
                else Slots(s) - {id}
  {
  }

  lemma CreateKeeps(limit: int, s: State, t: Table, id: Id, r: Rec)
    requires Inv(limit, s) && id !in s.made && r.status == NEW_STATUS && StageFits(r) && t.order == s.table.order
        && t.byKey == s.table.byKey
    requires t.inFlight == s.table.inFlight + (if r.stage == AtWork then 1 else 0)
        && (limit > 0 ==> t.inFlight <= limit)
    requires r.stage == AtWork || r.stage.Recording?
    ensures Inv(limit, State(Added(t, id, r.key, DoneIds(s)), s.made[id := r]))
  {
    hide Added;
    var s' := State(Added(t, id, r.key, DoneIds(s)), s.made[id := r]);
    AddKeeps(t, id, r.key, DoneIds(s));
    SlotTaken(s, id, r);
    assert Slots(s') == Slots(s.(made := s.made[id := r]));
    assert Tabled(s') by {
      forall x | Live(s', x) ensures x in s'.table.order {
        if x != id { assert Live(s, x); }
      }
    }
  }

  lemma ReleaseKeeps(limit: int, s: State, id: Id)
    requires Inv(limit, s) && AtStage(s, id, Ended)
    ensures Inv(limit, Step(limit, s, Release(id))) && s.table.inFlight > 0
  {
    hide Trimmed;
    var r := s.made[id].(stage := SlotReturned);
    var s' := Step(limit, s, Release(id));
    SlotMoved(s, id, r);
    assert id in Slots(s);
    assert Slots(s') == Slots(s.(made := s.made[id := r]));
    TrimKeeps(Freed(s.table), DoneIds(s));
    assert Tabled(s') by {
      forall x | Live(s', x) ensures x in s'.table.order { assert Live(s, x); }
    }
  }

  /** A step of one pull that leaves the table alone. */
  lemma PullKeeps(limit: int, s: State, id: Id, r: Rec)
    requires Inv(limit, s) && id in s.made && r.key == s.made[id].key && Sound(r.status) && StageFits(r)
        && NoneFailed(r.status)
    requires s.made[id].status.terminal ==> r.status.terminal
    requires s.made[id].stage.HoldsSlot() <==> r.stage.HoldsSlot()
    ensures Inv(limit, s.(made := s.made[id := r]))
  {
    var s' := s.(made := s.made[id := r]);
    SlotMoved(s, id, r);
    assert Tabled(s') by {
      forall x | Live(s', x) ensures x in s'.table.order { assert Live(s, x); }
    }
  }

  lemma StepKeeps(limit: int, s: State, a: Action)
    requires Inv(limit, s) && Enabled(s, a)
    ensures Inv(limit, Step(limit, s, a))
  {
    hide Added, Inv, Trimmed;
    assert AllSound(s) && SlotsCounted(limit, s) by { InvParts(limit, s); }
    match a
    case Submit(id, key) =>
      if Admit(s.table, limit, key, DoneIds(s)).Created? {
        CreateKeeps(limit, s, s.table.(inFlight := s.table.inFlight + 1), id, Rec(key, NEW_STATUS, AtWork));
      }
    case RecordStart(id, key, image) => CreateKeeps(limit, s, s.table, id, Rec(key, NEW_STATUS, Recording(image)));
    case RecordEnd(id) => PullKeeps(limit, s, id,
        Rec(s.made[id].key, OnRecorded(s.made[id].status, s.made[id].stage.image), Recorded));
    case Phase(id, resolving) => PullKeeps(limit, s, id, s.made[id].(status := OnPhase(s.made[id].status, resolving)));
    case Image(id, image) => PullKeeps(limit, s, id, Rec(s.made[id].key, OnImage(s.made[id].status, image), Returning));
    case End(id, err, ctx) =>
        PullKeeps(limit, s, id, Rec(s.made[id].key, OnFinish(s.made[id].status, err, ctx), Ended));
    case Release(id) => ReleaseKeeps(limit, s, id);
    case Cancel(id) => PullKeeps(limit, s, id, s.made[id].(status := OnCancel(s.made[id].status)));
  }

  lemma InvParts(limit: int, s: State)
    requires Inv(limit, s)
    ensures AllSound(s) && SlotsCounted(limit, s)
  {
  }

  // ---------------------------------------------------------------- every run

  ghost predicate Runs(limit: int, run: seq<Action>, s: State) {
    if run == [] then s == EMPTY else
      var front, last := run[..|run| - 1], run[|run| - 1];
      exists r :: Runs(limit, front, r) && Enabled(r, last) && s == Step(limit, r, last)
  }

  lemma {:induction false} RunsKeep(limit: int, run: seq<Action>, s: State)
    requires Runs(limit, run, s)
    ensures Inv(limit, s)
    decreases |run|
  {
    hide Step, Inv;
    if run == [] {
      StartsEmpty(limit);
    } else {
      var front, last := run[..|run| - 1], run[|run| - 1];
      var r :| Runs(limit, front, r) && Enabled(r, last) && s == Step(limit, r, last);
      RunsKeep(limit, front, r);
      StepKeeps(limit, r, last);
    }
  }

  lemma StartsEmpty(limit: int)
    ensures Inv(limit, EMPTY)
  {
  }

  /** The slot count is exact and within the limit, and the guard against a count below zero is never needed. */
  lemma SlotsExact(limit: int, run: seq<Action>, s: State)
    requires Runs(limit, run, s)
    ensures s.table.inFlight == |Slots(s)| && (limit > 0 ==> s.table.inFlight <= limit)
    ensures forall id | AtStage(s, id, Ended) :: s.table.inFlight > 0
  {
    hide Step, Runs;
    RunsKeep(limit, run, s);
    forall id | AtStage(s, id, Ended) ensures s.table.inFlight > 0 { ReleaseKeeps(limit, s, id); }
  }

  /** The table is consistent, and a finished pull's fields agree: done has an image, failed has a failure and no
      image. */
  lemma TableConsistent(limit: int, run: seq<Action>, s: State)
    requires Runs(limit, run, s)
    ensures Tabled(s)
    ensures forall id | id in s.made :: Sound(s.made[id].status) && NoneFailed(s.made[id].status)
  {
    hide Step, Runs;
    RunsKeep(limit, run, s);
  }

  // ---------------------------------------------------------------- the history of a pull

  /** What a step is to the pull: what is done to it, if anything. */
  function EventsIn(a: Action, id: Id): seq<Event> {
    match a
    case Phase(i, resolving) => if i == id then [Phased(resolving)] else []
    case Image(i, image) => if i == id then [GotImage(image)] else []
    case End(i, err, ctx) => if i == id then [Finished(err, ctx)] else []
    case Cancel(i) => if i == id then [MarkedCancelled] else []
    case _ => []
  }

  function EventsOf(run: seq<Action>, id: Id): seq<Event> {
    if run == [] then [] else EventsOf(run[..|run| - 1], id) + EventsIn(run[|run| - 1], id)
  }

  lemma EventIsAfter(s: Status, events: seq<Event>, e: Event)
    requires s == Through(NEW_STATUS, events)
    ensures Through(NEW_STATUS, events + [e]) == After(s, e)
  {
    hide After;
    ThroughLast(NEW_STATUS, events + [e]);
    assert (events + [e])[..|events|] == events;
  }

  /** In every run a submitted pull is what its own history makes of it; recorded pulls are made by a submission of no
      one. */
  lemma {:induction false} StatusIsHistory(limit: int, run: seq<Action>, s: State, id: Id)
    requires Runs(limit, run, s)
    ensures id !in s.made ==> EventsOf(run, id) == []
    ensures id in s.made && !s.made[id].stage.Recording? && !s.made[id].stage.Recorded? ==>
      s.made[id].status == Through(NEW_STATUS, EventsOf(run, id))
    decreases |run|
  {
    hide After, Admit, Added, Released, EventsIn;
    if run != [] {
      var front, last := run[..|run| - 1], run[|run| - 1];
      var r :| Runs(limit, front, r) && Enabled(r, last) && s == Step(limit, r, last);
      StatusIsHistory(limit, front, r, id);
      EventStep(limit, r, last, id, EventsOf(front, id));
    }
  }

  lemma EventStep(limit: int, s: State, a: Action, id: Id, events: seq<Event>)
    requires Enabled(s, a) && (id !in s.made ==> events == [])
    requires id in s.made && !s.made[id].stage.Recording? && !s.made[id].stage.Recorded? ==>
      s.made[id].status == Through(NEW_STATUS, events)
    ensures var s2, more := Step(limit, s, a), events + EventsIn(a, id);
            && (id !in s2.made ==> more == [])
            && (id in s2.made && !s2.made[id].stage.Recording? && !s2.made[id].stage.Recorded? ==>
                  s2.made[id].status == Through(NEW_STATUS, more))
  {
    hide Admit, Added, Released, OnPhase, OnImage, OnFinish, OnCancel;
    assert events + [] == events;
    assert Through(NEW_STATUS, []) == NEW_STATUS;
    if id in s.made && !s.made[id].stage.Recording? && !s.made[id].stage.Recorded? && EventsIn(a, id) != [] {
      EventIsAfter(s.made[id].status, events, EventsIn(a, id)[0]);
    }
  }

  /**
   * In every run a submitted pull's first cancellation or finish decides it for good; until then it is live, in the
   * phase last reported; its image is the last one reported.
   */
  lemma OutcomeIsFirstVerdict(limit: int, run: seq<Action>, s: State, id: Id)
    requires Runs(limit, run, s) && id in s.made && !s.made[id].stage.Recording? && !s.made[id].stage.Recorded?
    ensures var p, events := s.made[id].status, EventsOf(run, id);
            && (p.terminal <==> FirstVerdict(events).Some?)
            && (if p.terminal then (p.state, p.failure) == FirstVerdict(events).value
                else p.state == LastPhase(events) && p.failure.None?)
            && p.image == LastImage(events)
  {
    hide Runs, Through, FirstVerdict, LastPhase, LastImage;
    StatusIsHistory(limit, run, s, id);
    FirstVerdictStands(EventsOf(run, id));
  }

  // ---------------------------------------------------------------- the table

  /** The oldest finished pulls go, as many as are over sixty-four. */
  function Retained(order: seq<Id>, done: set<Id>): seq<Id> {
    DropOldest(order, done, if |order| > 64 then |order| - 64 else 0)
  }

  /** What a step does to the table. */
  lemma TableStep(limit: int, s: State, a: Action)
    requires Enabled(s, a)
    ensures var (t, t2) := (s.table, Step(limit, s, a).table);
            var enters := a.RecordStart? || (a.Submit? && Admit(t, limit, a.key, DoneIds(s)) == Created);
            var keys := if enters then t.byKey[a.key := a.id] else t.byKey;
            && t2.order == (if enters then Retained(t.order + [a.id], DoneIds(s))
                            else if a.Release? then Retained(t.order, DoneIds(s)) else t.order)
            && (enters || a.Release? ==> t2.byKey == map k | k in keys && keys[k] in t2.order :: keys[k])
            && (!enters && !a.Release? ==> t2.byKey == t.byKey)
            && t2.inFlight == t.inFlight + (if enters && a.Submit? then 1
                                            else if a.Release? && t.inFlight > 0 then -1 else 0)
  {
    hide Evict, Admit, DropOldest;
    match a
    case Submit(id, _) => EvictsOldest(s.table.order + [id], DoneIds(s));
    case RecordStart(id, _, _) => EvictsOldest(s.table.order + [id], DoneIds(s));
    case Release(_) => EvictsOldest(s.table.order, DoneIds(s));
    case _ =>
  }

  // ---------------------------------------------------------------- finished pulls

  /** A finished pull keeps its state and failure through every step but one: the second half of recording it. */
  lemma FrozenIff(limit: int, s: State, a: Action, id: Id)
    requires Inv(limit, s) && Enabled(s, a) && id in s.made && s.made[id].status.terminal
    ensures var old_, new_ := s.made[id].status, Step(limit, s, a).made[id].status;
            (new_.terminal && new_.state == old_.state && new_.failure == old_.failure) <==> a != RecordEnd(id)
  {
  }

  /** That one step does happen to a finished pull: cancelled between the two halves, it ends up done. */
  lemma CancelledThenDone(limit: int, key: Str, image: nat)
    ensures var s1 := Step(limit, EMPTY, RecordStart(0, key, image));
            var s2 := Step(limit, s1, Cancel(0));
            && s2.made[0].status.terminal && s2.made[0].status.state == Cancelled
            && Step(limit, s2, RecordEnd(0)).made[0].status.state == Done
  {
  }

  // ---------------------------------------------------------------- one live pull per key

  /** Every live pull is the one its key names. */
  ghost predicate Reachable(s: State) {
    forall id | Live(s, id) :: s.made[id].key in s.table.byKey && s.table.byKey[s.made[id].key] == id
  }

  ghost predicate LiveKey(s: State, key: Str) {
    exists id :: Live(s, id) && s.made[id].key == key
  }

  lemma ReachableMeansOne(s: State)
    requires Reachable(s)
    ensures forall id, other | Live(s, id) && Live(s, other) && s.made[id].key == s.made[other].key :: id == other
  {
  }

  /** Recording a key keeps every live pull reachable exactly when the key has no live pull. */
  lemma RecordKeepsIff(limit: int, s: State, id: Id, key: Str, image: nat)
    requires Inv(limit, s) && Reachable(s) && id !in s.made
    ensures Reachable(Step(limit, s, RecordStart(id, key, image))) <==> !LiveKey(s, key)
  {
    hide Added, SlotsCounted, AllSound;
    AddKeeps(s.table, id, key, DoneIds(s));
    var s' := Step(limit, s, RecordStart(id, key, image));
    if x :| Live(s, x) && s.made[x].key == key {
      assert Live(s', x);
    } else {
      forall x | Live(s', x) ensures s'.made[x].key in s'.table.byKey && s'.table.byKey[s'.made[x].key] == x {
        if x != id { assert Live(s, x); }
      }
    }
  }

  /** Every other step keeps them reachable. */
  lemma OthersKeep(limit: int, s: State, a: Action)
    requires Inv(limit, s) && Reachable(s) && Enabled(s, a) && !a.RecordStart?
    ensures Reachable(Step(limit, s, a))
  {
    hide Added, Released, SlotsCounted, AllSound;
    var s' := Step(limit, s, a);
    if a.Submit? {
      SubmitKeeps(limit, s, a.id, a.key);
    } else {
      if a.Release? {
        TrimKeeps(Freed(s.table), DoneIds(s));
        ReleasedIs(s.table, DoneIds(s));
      }
      forall x | Live(s', x) ensures s'.made[x].key in s'.table.byKey && s'.table.byKey[s'.made[x].key] == x {
        assert Live(s, x);
      }
    }
  }

  lemma ReleasedIs(t: Table, done: set<Id>)
    ensures Released(t, done) == Trimmed(Freed(t), done)
  {
  }

  lemma SubmitKeeps(limit: int, s: State, id: Id, key: Str)
    requires Inv(limit, s) && Reachable(s) && id !in s.made
    ensures Reachable(Step(limit, s, Submit(id, key)))
  {
    hide Added, SlotsCounted, AllSound;
    var s' := Step(limit, s, Submit(id, key));
    if Admit(s.table, limit, key, DoneIds(s)).Created? {
      AddKeeps(s.table.(inFlight := s.table.inFlight + 1), id, key, DoneIds(s));
      forall x | Live(s', x) ensures s'.made[x].key in s'.table.byKey && s'.table.byKey[s'.made[x].key] == x {
        if x != id { assert Live(s, x); }
      }
    }
  }

  lemma NothingLive()
    ensures Reachable(EMPTY)
  {
  }

  /** No two live pulls have one key. */
  ghost predicate OneLive(s: State) {
    forall id, other | Live(s, id) && Live(s, other) && s.made[id].key == s.made[other].key :: id == other
  }

  lemma {:induction false} RunsUnique(limit: int, run: seq<Action>, s: State, r: State)
    requires Runs(limit, run, s) && Runs(limit, run, r)
    ensures s == r
    decreases |run|
  {
    hide Step, Enabled;
    if run != [] {
      var front, last := run[..|run| - 1], run[|run| - 1];
      var s' :| Runs(limit, front, s') && Enabled(s', last) && s == Step(limit, s', last);
      var r' :| Runs(limit, front, r') && Enabled(r', last) && r == Step(limit, r', last);
      RunsUnique(limit, front, s', r');
    }
  }

  /** No step of the run starts to record a key that has a live pull. */
  ghost predicate RecordsFresh(limit: int, run: seq<Action>)
    decreases |run|
  {
    run == [] ||
      var front, last := run[..|run| - 1], run[|run| - 1];
      && RecordsFresh(limit, front)
      && (last.RecordStart? ==> forall r | Runs(limit, front, r) :: !LiveKey(r, last.key))
  }

  /** In every state the run goes through, no two live pulls have one key. */
  ghost predicate OneLiveThroughout(limit: int, run: seq<Action>)
    decreases |run|
  {
    && (forall r | Runs(limit, run, r) :: OneLive(r))
    && (run == [] || OneLiveThroughout(limit, run[..|run| - 1]))
  }

  /** Throughout a run each key has at most one live pull exactly when no record takes a key that has one; and then it
      is the one a resubmission joins. */
  lemma {:induction false} OneLivePull(limit: int, run: seq<Action>, s: State)
    requires Runs(limit, run, s)
    ensures OneLiveThroughout(limit, run) <==> RecordsFresh(limit, run)
    ensures RecordsFresh(limit, run) ==> Reachable(s) && OneLive(s)
    decreases |run|
  {
    hide Step, Enabled, Inv, Reachable, OneLive, LiveKey;
    forall r | Runs(limit, run, r) ensures r == s { RunsUnique(limit, run, s, r); }
    if run == [] {
      NothingLive();
    } else {
      var front, last := run[..|run| - 1], run[|run| - 1];
      var r :| Runs(limit, front, r) && Enabled(r, last) && s == Step(limit, r, last);
      forall r' | Runs(limit, front, r') ensures r' == r { RunsUnique(limit, front, r, r'); }
      OneLivePull(limit, front, r);
      RunsKeep(limit, front, r);
      if RecordsFresh(limit, front) { StepOneLive(limit, r, last); }
    }
    if Reachable(s) { OneOfKey(s); }
  }

  lemma OneOfKey(s: State)
    requires Reachable(s)
    ensures OneLive(s)
  {
    ReachableMeansOne(s);
  }

  lemma StepOneLive(limit: int, s: State, a: Action)
    requires Inv(limit, s) && Reachable(s) && Enabled(s, a)
    ensures a.RecordStart? && LiveKey(s, a.key) ==> !OneLive(Step(limit, s, a))
    ensures !(a.RecordStart? && LiveKey(s, a.key)) ==> Reachable(Step(limit, s, a))
  {
    hide Inv, Reachable, Step;
    if a.RecordStart? {
      RecordKeepsIff(limit, s, a.id, a.key, a.image);
      if LiveKey(s, a.key) { SecondLive(limit, s, a.id, a.key, a.image); }
    } else {
      OthersKeep(limit, s, a);
    }
  }

  /** The pull that a submission of the key joins. */
  ghost predicate Joinable(s: State, key: Str, id: Id) {
    key in s.table.byKey && s.table.byKey[key] == id && Live(s, id)
  }

  /**
   * In every run a submission joins the live pull its key names, and otherwise is refused exactly when there is a limit
   * and as many pulls hold a slot; where no record took a key that had a live pull, any live pull of the key is joined.
   */
  lemma RefusedIff(limit: int, run: seq<Action>, s: State, key: Str)
    requires Runs(limit, run, s)
    ensures var r := Admit(s.table, limit, key, DoneIds(s));
            && (forall id :: r == Joined(id) <==> Joinable(s, key, id))
            && (r == TooMany <==> !r.Joined? && limit > 0 && |Slots(s)| == limit)
            && (RecordsFresh(limit, run) ==> (r.Joined? <==> LiveKey(s, key)))
  {
    hide Step, Runs, Reachable, RecordsFresh, OneLiveThroughout;
    RunsKeep(limit, run, s);
    OneLivePull(limit, run, s);
    if RecordsFresh(limit, run) && LiveKey(s, key) { LiveIsNamed(s, key); }
  }

  lemma LiveIsNamed(s: State, key: Str)
    requires Reachable(s) && LiveKey(s, key)
    ensures exists id :: Joinable(s, key, id)
  {
    var id :| Live(s, id) && s.made[id].key == key;
    assert Joinable(s, key, id);
  }

  lemma SecondLive(limit: int, s: State, id: Id, key: Str, image: nat)
    requires id !in s.made && LiveKey(s, key)
    ensures !OneLive(Step(limit, s, RecordStart(id, key, image)))
  {
    hide Added;
    var s2 := Step(limit, s, RecordStart(id, key, image));
    var x :| Live(s, x) && s.made[x].key == key;
    assert Live(s2, x) && Live(s2, id) && s2.made[x].key == s2.made[id].key;
  }

  /** With a record in between, one key gets two live pulls. */
  lemma TwoLivePulls(key: Str, image: nat)
    ensures var s1 := Step(0, EMPTY, Submit(0, key));
            var s2 := Step(0, s1, RecordStart(1, key, image));
            var s3 := Step(0, s2, RecordEnd(1));
            var s4 := Step(0, s3, Submit(2, key));
            Live(s4, 0) && Live(s4, 2) && s4.made[0].key == s4.made[2].key == key
  {
    hide Evict;
    EvictLeaves([0], {});
    EvictLeaves([0, 1], {});
    EvictLeaves([0, 1, 2], {1});
  }
}
