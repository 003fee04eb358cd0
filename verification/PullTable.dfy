/** The pull manager's table: admission, retention and the state of one pull. */
module PullTable {
  import opened Options
  import opened ByteStrings

  type Id = nat

  const MAX_RETAINED := 64

  // ---------------------------------------------------------------- one pull

  datatype PullState = Resolving | Running | Done | Cancelled | Failed

  datatype Status = Status(state: PullState, terminal: bool, image: Option<nat>, failure: Option<nat>)

  const NEW_STATUS := Status(Resolving, false, None, None)

  /** How a run ended, and what had become of its context. */
  datatype RunError = NoError | DeadlineError | CancelError | OtherError(code: nat)
  datatype Context = Active | Expired | Stopped

  const TIMEOUT_CODE: nat := 0

  function OnPhase(s: Status, resolving: bool): Status {
    if s.terminal then s else s.(state := if resolving then Resolving else Running)
  }

  function OnCancel(s: Status): Status {
    if s.terminal then s else s.(state := Cancelled, terminal := true)
  }

  /** The outcome of a run counts only if the pull has not been cancelled meanwhile. */
  function OnFinish(s: Status, err: RunError, ctx: Context): Status {
    if s.terminal then s
    else if err == NoError then s.(terminal := true, state := Done)
    else if err == DeadlineError
        || ctx == Expired then s.(terminal := true, state := Failed, failure := Some(TIMEOUT_CODE))
    else if err == CancelError || ctx == Stopped then s.(terminal := true, state := Cancelled)
    else s.(terminal := true, state := Failed, failure := Some(err.code))
  }

  function OnImage(s: Status, image: nat): Status {
    s.(image := Some(image))
  }

  /** A pull recorded as finished; unlike the others this asks nothing about the state it finds. */
  function OnRecorded(s: Status, image: nat): Status {
    s.(state := Done, image := Some(image), terminal := true)
  }

  /** The pull's fields agree: finished states are terminal, done has an image, failed has a failure. */
  ghost predicate Sound(s: Status) {
    && (s.terminal <==> s.state == Done || s.state == Cancelled || s.state == Failed)
    && (s.state == Done ==> s.image.Some?)
    && (s.state == Failed <==> s.failure.Some?)
  }

  /** What can be done to a pull while it is in the table. */
  datatype Event = Phased(resolving: bool) | MarkedCancelled | Finished(err: RunError, ctx: Context)
      | GotImage(image: nat)

  function After(s: Status, e: Event): Status {
    match e
    case Phased(resolving) => OnPhase(s, resolving)
    case MarkedCancelled => OnCancel(s)
    case Finished(err, ctx) => OnFinish(s, err, ctx)
    case GotImage(image) => OnImage(s, image)
  }

  function Through(s: Status, events: seq<Event>): Status
    decreases |events|
  {
    if events == [] then s else Through(After(s, events[0]), events[1..])
  }

  /** The verdict of an event that ends a live pull: its state and its failure. */
  function Verdict(e: Event): Option<(PullState, Option<nat>)> {
    match e
    case MarkedCancelled => Some((Cancelled, None))
    case Finished(err, ctx) =>
      Some(if err == NoError then (Done, None)
           else if err == DeadlineError || ctx == Expired then (Failed, Some(TIMEOUT_CODE))
           else if err == CancelError || ctx == Stopped then (Cancelled, None)
           else (Failed, Some(err.code)))
    case _ => None
  }

  /** The first verdict of a history. */
  function FirstVerdict(events: seq<Event>): Option<(PullState, Option<nat>)> {
    if events == [] then None else if Verdict(events[0]).Some? then Verdict(events[0]) else FirstVerdict(events[1..])
  }

  /** The image last reported in a history. */
  function LastImage(events: seq<Event>): Option<nat> {
    if events == [] then None else
      var n := |events| - 1;
      if events[n].GotImage? then Some(events[n].image) else LastImage(events[..n])
  }

  /** The phase last reported in a history; a pull starts out resolving. */
  function LastPhase(events: seq<Event>): PullState {
    if events == [] then Resolving else
      var n := |events| - 1;
      if events[n] == Phased(true) then Resolving else if events[n] == Phased(false) then Running
      else LastPhase(events[..n])
  }

  /**
   * The first cancellation or finish decides a pull for good, whatever comes after it; until then the pull is live, in
   * the phase last reported. The image is the last one reported, before or after.
   */
  lemma FirstVerdictStands(events: seq<Event>)
    ensures var s, v := Through(NEW_STATUS, events), FirstVerdict(events);
            && (s.terminal <==> v.Some?)
            && (v.Some? ==> (s.state, s.failure) == v.value)
            && (v.None? ==> s.state == LastPhase(events) && s.failure == None)
            && s.image == LastImage(events)
  {
    PhaseFrom(events);
    VerdictFrom(NEW_STATUS, events);
    ImageFrom(NEW_STATUS, events);
  }

  lemma {:induction false} PhaseFrom(events: seq<Event>)
    ensures FirstVerdict(events).None? ==> Through(NEW_STATUS, events).state == LastPhase(events)
    decreases |events|
  {
    if events != [] && FirstVerdict(events).None? {
      var n := |events| - 1;
      PhaseFrom(events[..n]);
      ThroughLast(NEW_STATUS, events);
      VerdictFrom(NEW_STATUS, events[..n]);
      NoVerdictYet(events);
    }
  }

  lemma {:induction false} NoVerdictYet(events: seq<Event>)
    requires events != [] && FirstVerdict(events).None?
    ensures FirstVerdict(events[..|events| - 1]).None? && Verdict(events[|events| - 1]).None?
    decreases |events|
  {
    if |events| > 1 {
      NoVerdictYet(events[1..]);
      assert events[..|events| - 1][1..] == events[1..][..|events| - 2];
    }
  }

  lemma {:induction false} VerdictFrom(s: Status, events: seq<Event>)
    requires s.failure.Some? ==> s.terminal
    requires !s.terminal ==> s.state == Resolving || s.state == Running
    ensures var r, v := Through(s, events), FirstVerdict(events);
            if s.terminal then (r.terminal, r.state, r.failure) == (true, s.state, s.failure)
            else if v.Some? then (r.terminal, (r.state, r.failure)) == (true, v.value)
            else !r.terminal && (r.state == Resolving || r.state == Running) && r.failure == None
    decreases |events|
  {
    if events != [] { VerdictFrom(After(s, events[0]), events[1..]); }
  }

  lemma {:induction false} ImageFrom(s: Status, events: seq<Event>)
    ensures Through(s, events).image == if LastImage(events).Some? then LastImage(events) else s.image
    decreases |events|
  {
    if events != [] {
      var n := |events| - 1;
      ImageFrom(s, events[..n]);
      ThroughLast(s, events);
    }
  }

  lemma {:induction false} ThroughLast(s: Status, events: seq<Event>)
    requires events != []
    ensures Through(s, events) == After(Through(s, events[..|events| - 1]), events[|events| - 1])
    decreases |events|
  {
    if |events| > 1 {
      ThroughLast(After(s, events[0]), events[1..]);
      assert events[1..][..|events| - 2] == events[..|events| - 1][1..];
    }
  }

  /** A cancellation and the end of the run race exactly when the pull is live and the run would not end cancelled. */
  lemma RaceIff(s: Status, err: RunError, ctx: Context)
    ensures Through(s, [MarkedCancelled, Finished(err, ctx)]) == Through(s, [Finished(err, ctx), MarkedCancelled])
            <==> s.terminal || Verdict(Finished(err, ctx)) == Some((Cancelled, None))
  {
    BothEvents(s, MarkedCancelled, Finished(err, ctx));
    BothEvents(s, Finished(err, ctx), MarkedCancelled);
  }

  lemma BothEvents(s: Status, a: Event, b: Event)
    ensures Through(s, [a, b]) == After(After(s, a), b)
  {
    assert [a, b][1..] == [b] && [b][1..] == [];
    assert Through(After(s, a), [b]) == Through(After(After(s, a), b), []);
  }

  /** An event keeps the fields of a pull in agreement unless a live pull without an image finishes well. */
  lemma SoundKeptIff(s: Status, e: Event)
    requires Sound(s)
    ensures Sound(After(s, e)) <==> s.terminal || s.image.Some? || Verdict(e) != Some((Done, None))
  {
  }

  class Pull {
    const id: Id
    const key: Str
    var state: PullState
    var terminal: bool
    var image: Option<nat>
    var failure: Option<nat>

    function Snapshot(): Status
      reads this
    {
      Status(state, terminal, image, failure)
    }

    constructor (id: Id, key: Str)
      ensures this.id == id && this.key == key && Snapshot() == NEW_STATUS
    {
      this.id := id;
      this.key := key;
      state, terminal, image, failure := Resolving, false, None, None;
    }

    method Phase(resolving: bool)
      modifies this
      ensures Snapshot() == After(old(Snapshot()), Phased(resolving))
    {
      if terminal {
        return;
      }
      state := if resolving then Resolving else Running;
    }

    method MarkCancelled()
      modifies this
      ensures Snapshot() == After(old(Snapshot()), MarkedCancelled)
    {
      if terminal {
        return;
      }
      state := Cancelled;
      terminal := true;
    }

    method Finish(err: RunError, ctx: Context)
      modifies this
      ensures Snapshot() == After(old(Snapshot()), Finished(err, ctx))
    {
      if terminal {
        return;
      }
      terminal := true;
      if err == NoError {
        state := Done;
      } else if err == DeadlineError || ctx == Expired {
        state := Failed;
        failure := Some(TIMEOUT_CODE);
      } else if err == CancelError || ctx == Stopped {
        state := Cancelled;
      } else {
        state := Failed;
        failure := Some(err.code);
      }
    }

    method SetImage(id: nat)
      modifies this
      ensures Snapshot() == After(old(Snapshot()), GotImage(id))
    {
      image := Some(id);
    }
  }

  // ---------------------------------------------------------------- retention

  /** The place of the oldest finished pull, or the length. */
  function FirstDone(order: seq<Id>, done: set<Id>): (i: nat)
    ensures i <= |order| && (i < |order| ==> order[i] in done)
    ensures forall j | 0 <= j < i :: order[j] !in done
  {
    if order == [] || order[0] in done then 0 else 1 + FirstDone(order[1..], done)
  }

  /** The loop of the source: over the cap, drop the oldest finished pull and look again. */
  function Evict(order: seq<Id>, done: set<Id>): seq<Id>
    decreases |order|
  {
    var i := FirstDone(order, done);
    if |order| <= MAX_RETAINED || i == |order| then order else Evict(order[..i] + order[i + 1..], done)
  }

  /** One pass: the first n finished pulls go, everything else stays in place. */
  function DropOldest(order: seq<Id>, done: set<Id>, n: nat): seq<Id> {
    if order == [] then []
    else if order[0] in done && n > 0 then DropOldest(order[1..], done, n - 1)
    else [order[0]] + DropOldest(order[1..], done, n)
  }

  function Excess(order: seq<Id>): nat {
    if |order| > MAX_RETAINED then |order| - MAX_RETAINED else 0
  }

  lemma {:induction false} DropNone(order: seq<Id>, done: set<Id>, n: nat)
    requires n == 0 || FirstDone(order, done) == |order|
    ensures DropOldest(order, done, n) == order
    decreases |order|
  {
    if order != [] {
      DropNone(order[1..], done, n);
    }
  }

  lemma {:induction false} DropFirst(order: seq<Id>, done: set<Id>, n: nat)
    requires FirstDone(order, done) < |order|
    ensures var i := FirstDone(order, done);
        DropOldest(order, done, n + 1) == DropOldest(order[..i] + order[i + 1..], done, n)
    decreases |order|
  {
    var i := FirstDone(order, done);
    if order[0] in done {
      assert order[..0] + order[1..] == order[1..];
    } else {
      DropFirst(order[1..], done, n);
      var less := order[..i] + order[i + 1..];
      assert less[0] == order[0] && less[1..] == order[1..][..i - 1] + order[1..][i..];
    }
  }

  /** Exactly the oldest finished pulls go, as many as are over the cap, and the survivors keep their order. */
  lemma {:induction false} EvictsOldest(order: seq<Id>, done: set<Id>)
    ensures Evict(order, done) == DropOldest(order, done, Excess(order))
    decreases |order|
  {
    var i := FirstDone(order, done);
    if |order| <= MAX_RETAINED || i == |order| {
      DropNone(order, done, Excess(order));
    } else {
      EvictsOldest(order[..i] + order[i + 1..], done);
      DropFirst(order, done, Excess(order) - 1);
    }
  }

  ghost predicate NoRepeats(order: seq<Id>) {
    forall i, j | 0 <= i < j < |order| :: order[i] != order[j]
  }

  /** Afterwards the table is within the cap or every pull in it is live; no live pull has gone, and none is new. */
  lemma {:induction false} EvictLeaves(order: seq<Id>, done: set<Id>)
    ensures var r := Evict(order, done);
            && (|r| <= 64 || forall id | id in r :: id !in done)
            && (forall id | id in order && id !in done :: id in r)
            && (forall id | id in r :: id in order)
            && (NoRepeats(order) ==> NoRepeats(r))
            && (|order| <= 64 ==> r == order)
    decreases |order|
  {
    var i := FirstDone(order, done);
    if |order| > MAX_RETAINED && i < |order| {
      var less := order[..i] + order[i + 1..];
      EvictLeaves(less, done);
      assert order == order[..i] + [order[i]] + order[i + 1..];
      if NoRepeats(order) {
        RemoveKeepsDistinct(order, i);
      }
    }
  }

  lemma RemoveKeepsDistinct(order: seq<Id>, i: nat)
    requires NoRepeats(order) && i < |order|
    ensures NoRepeats(order[..i] + order[i + 1..])
  {
  }

  // ---------------------------------------------------------------- the table

  datatype Table = Table(order: seq<Id>, byKey: map<Str, Id>, inFlight: nat)

  /** Evicted pulls lose their key entry, unless a newer pull has taken it. */
  function Trimmed(t: Table, done: set<Id>): Table {
    var order := Evict(t.order, done);
    t.(order := order, byKey := KeysKept(t.byKey, order))
  }

  function Added(t: Table, id: Id, key: Str, done: set<Id>): Table {
    Trimmed(t.(order := t.order + [id], byKey := t.byKey[key := id]), done)
  }

  datatype Admission = Joined(id: Id) | TooMany | Created

  /** One lock hold: join a live pull of the same key, or be refused, or take a slot. */
  function Admit(t: Table, limit: int, key: Str, done: set<Id>): Admission {
    if key in t.byKey && t.byKey[key] in t.order && t.byKey[key] !in done then Joined(t.byKey[key])
    else if limit > 0 && t.inFlight >= limit then TooMany
    else Created
  }

  /** The count never goes below zero. */
  function Freed(t: Table): Table {
    t.(inFlight := if t.inFlight > 0 then t.inFlight - 1 else 0)
  }

  function Released(t: Table, done: set<Id>): Table {
    Trimmed(Freed(t), done)
  }

  class Manager {
    const maxInFlight: int
    var pulls: map<Id, Pull>
    var order: seq<Id>
    var byKey: map<Str, Id>
    var inFlight: nat

    constructor (maxInFlight: int)
      ensures Valid() && this.maxInFlight == maxInFlight && View() == Table([], map[], 0) && pulls == map[]
    {
      this.maxInFlight := maxInFlight;
      pulls, order, byKey, inFlight := map[], [], map[], 0;
    }

    /** order lists exactly the pulls of the table, and every key entry names a pull of that key. */
    ghost predicate Valid()
      reads this
    {
      && NoRepeats(order) && (forall id :: id in order <==> id in pulls)
      && (forall id | id in pulls :: pulls[id].id == id)
      && (forall k | k in byKey :: byKey[k] in pulls && pulls[byKey[k]].key == k)
    }

    ghost function View(): Table
      reads this
    {
      Table(order, byKey, inFlight)
    }

    ghost function DoneIds(): set<Id>
      reads this, pulls.Values
    {
      set id | id in pulls && pulls[id].terminal
    }

    /** The inner scan: the place of the oldest finished pull, or the length. */
    method OldestDone(ghost done: set<Id>) returns (i: nat)
      requires Valid() && forall id | id in pulls :: id in done <==> pulls[id].terminal
      ensures i == FirstDone(order, done)
    {
      i := 0;
      while i < |order| && !pulls[order[i]].terminal
        invariant 0 <= i <= |order|
        invariant forall j | 0 <= j < i :: order[j] !in done
      {
        i := i + 1;
      }
      FirstDoneIs(order, done, i);
    }

    /** One pull leaves the table, and takes its key entry along if the entry is still its own. */
    method Remove(i: nat)
      requires Valid() && i < |order|
      modifies this
      ensures Valid() && inFlight == old(inFlight)
      ensures order == old(order[..i] + order[i + 1..]) && pulls == old(pulls) - {old(order[i])}
      ensures byKey == map k | k in old(byKey) && old(byKey)[k] != old(order[i]) :: old(byKey)[k]
    {
      hide NoRepeats;
      var id := order[i];
      var key := pulls[id].key;
      RemoveKeepsDistinct(order, i);
      RemovedOne(order, i);
      assert forall k | k in byKey && byKey[k] == id :: k == key;
      order := order[..i] + order[i + 1..];
      pulls := pulls - {id};
      if key in byKey && byKey[key] == id {
        byKey := byKey - {key};
      }
    }

    /** Over the cap, the oldest finished pulls are dropped; live ones never are. */
    method EvictLocked()
      requires Valid()
      modifies this
      ensures Valid() && View() == Trimmed(old(View()), old(DoneIds()))
      ensures pulls == Kept(old(pulls), order)
    {
      hide FirstDone, NoRepeats, Kept, KeysKept;
      ghost var done, was, keys := DoneIds(), pulls, byKey;
      KeptAll(was, order);
      KeysKeptAll(keys, order);
      while |order| > MAX_RETAINED
        invariant Valid() && inFlight == old(inFlight)
        invariant Evict(order, done) == Evict(old(order), done)
        invariant forall id | id in pulls :: id in done <==> pulls[id].terminal
        invariant pulls == Kept(was, order) && byKey == KeysKept(keys, order)
        decreases |order|
      {
        var i := OldestDone(done);
        if i == |order| {
          // Every retained pull is live.
          break;
        }
        RemovedOne(order, i);
        KeptLess(was, keys, order, order[..i] + order[i + 1..], order[i]);
        Remove(i);
      }
    }

    /** A new, live pull takes the key. The id is one never used before. */
    method NewPullLocked(id: Id, key: Str) returns (p: Pull)
      requires Valid() && id !in pulls
      modifies this
      ensures Valid() && fresh(p) && p.id == id && p.key == key && p.Snapshot() == NEW_STATUS
      ensures View() == Added(old(View()), id, key, old(DoneIds()))
      ensures pulls == Kept(old(pulls)[id := p], order)
    {
      hide Trimmed, Evict;
      p := new Pull(id, key);
      ghost var done := DoneIds();
      pulls := pulls[id := p];
      order := order + [id];
      byKey := byKey[key := id];
      assert DoneIds() == done;
      EvictLocked();
    }

    /** One lock hold decides a submission: join, be refused, or take a slot. */
    method AdmitPull(id: Id, key: Str) returns (r: Admission, p: Pull?)
      requires Valid() && id !in pulls
      modifies this
      ensures Valid() && r == Admit(old(View()), maxInFlight, key, old(DoneIds()))
      ensures r.Joined? <==> old(key in byKey && !pulls[byKey[key]].terminal)
      ensures r == TooMany <==>
          !old(key in byKey && !pulls[byKey[key]].terminal) && maxInFlight > 0 && old(inFlight) >= maxInFlight
      ensures r.Created? ==> p != null && fresh(p) && p.id == id && p.key == key && p.Snapshot() == NEW_STATUS
      ensures r.Created? ==> View() == Added(old(View()).(inFlight := old(inFlight) + 1), id, key, old(DoneIds()))
      ensures r.Joined? ==> r.id in pulls && p == pulls[r.id] && !p.terminal && p.key == key
      ensures !r.Created? ==> View() == old(View()) && pulls == old(pulls)
    {
      hide Trimmed, Added;
      if key in byKey {
        var existing := byKey[key];
        if existing in pulls && !pulls[existing].terminal {
          return Joined(existing), pulls[existing];
        }
      }
      if maxInFlight > 0 && inFlight >= maxInFlight {
        return TooMany, null;
      }
      inFlight := inFlight + 1;
      assert DoneIds() == old(DoneIds());
      p := NewPullLocked(id, key);
      r := Created;
    }

    /** The slot comes back, and the retention cap can take effect. */
    method ReleaseSlot()
      requires Valid()
      modifies this
      ensures Valid() && View() == Released(old(View()), old(DoneIds()))
      ensures pulls == Kept(old(pulls), order)
    {
      hide Trimmed;
      if inFlight > 0 {
        inFlight := inFlight - 1;
      }
      assert DoneIds() == old(DoneIds());
      EvictLocked();
    }

    /** A pull that is finished from the start; it takes no slot. */
    method Record(id: Id, key: Str, image: nat) returns (p: Pull)
      requires Valid() && id !in pulls
      modifies this
      ensures Valid() && fresh(p) && p.id == id && p.key == key && p.Snapshot() == OnRecorded(NEW_STATUS, image)
      ensures View() == Added(old(View()), id, key, old(DoneIds()))
    {
      hide Trimmed, Added;
      p := NewPullLocked(id, key);
      p.state := Done;
      p.image := Some(image);
      p.terminal := true;
    }
  }

  ghost function Kept(pulls: map<Id, Pull>, order: seq<Id>): map<Id, Pull> {
    map id | id in pulls && id in order :: pulls[id]
  }

  function KeysKept(byKey: map<Str, Id>, order: seq<Id>): map<Str, Id> {
    map k | k in byKey && byKey[k] in order :: byKey[k]
  }

  lemma KeptAll(pulls: map<Id, Pull>, order: seq<Id>)
    requires forall id | id in pulls :: id in order
    ensures Kept(pulls, order) == pulls
  {
  }

  lemma KeysKeptAll(byKey: map<Str, Id>, order: seq<Id>)
    requires forall k | k in byKey :: byKey[k] in order
    ensures KeysKept(byKey, order) == byKey
  {
  }

  lemma KeptLess(pulls: map<Id, Pull>, byKey: map<Str, Id>, order: seq<Id>, less: seq<Id>, gone: Id)
    requires forall id :: id in less <==> id in order && id != gone
    ensures Kept(pulls, less) == Kept(pulls, order) - {gone}
    ensures var kept := KeysKept(byKey, order);
            KeysKept(byKey, less) == map k | k in kept && kept[k] != gone :: kept[k]
  {
  }

  lemma RemovedOne(order: seq<Id>, i: nat)
    requires NoRepeats(order) && i < |order|
    ensures forall id :: id in order[..i] + order[i + 1..] <==> id in order && id != order[i]
  {
  }

  lemma {:induction false} FirstDoneIs(order: seq<Id>, done: set<Id>, i: nat)
    requires i <= |order| && (i < |order| ==> order[i] in done)
    requires forall j | 0 <= j < i :: order[j] !in done
    ensures FirstDone(order, done) == i
  {
  }
}
