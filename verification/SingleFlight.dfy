/** Every interleaving of requests to the comparison cache. */
module SingleFlight {
  import opened Options
  import opened ComparisonCache

  type Tid = nat

  /** Where a request is: between the lock holds of one call. */
  datatype Phase =
    | Leading(key: Key)
    | Publishing(key: Key, result: Option<Comparison>)
    | Waiting(key: Key, leader: Tid)
    | Returned(key: Key, answer: Answer)

  datatype Answer = Got(cmp: Comparison) | AssemblyFailed | GaveUp

  /** history is every key hit or inserted, in order, and results what each assembly returned; neither is part of the
      cache. */
  datatype State = State(entries: seq<Comparison>, inflight: map<Key, Tid>, calls: map<Tid, Phase>, history: seq<Key>,
                         results: map<Tid, Option<Comparison>>)

  datatype Action =
    | Begin(t: Tid, key: Key)
    | Assembled(t: Tid, result: Option<Comparison>)
    | Publish(t: Tid)
    | Wake(t: Tid)
    | GiveUp(t: Tid)

  const EMPTY := State([], map[], map[], [], map[])

  /** An assembly returns, with a comparison for the key asked for or with an error. */
  ghost predicate Enabled(s: State, a: Action) {
    match a
    case Begin(t, _) => t !in s.calls
    case Assembled(t, result) =>
        t in s.calls && s.calls[t].Leading? && (result.Some? ==> result.value.key == s.calls[t].key)
    case Publish(t) => t in s.calls && s.calls[t].Publishing?
    case Wake(t) => t in s.calls && s.calls[t].Waiting? && s.calls[t].leader in s.calls
        && s.calls[s.calls[t].leader].Returned?
    case GiveUp(t) => t in s.calls && s.calls[t].Waiting?
  }

  function AnswerOf(result: Option<Comparison>): Answer {
    match result
    case None => AssemblyFailed
    case Some(c) => Got(c)
  }

  ghost function Step(capacity: nat, s: State, a: Action): State
    requires Enabled(s, a)
  {
    match a
    case Begin(t, key) =>
      var i := Find(s.entries, key);
      if i < |s.entries| then
        s.(entries := Promoted(s.entries, key), calls := s.calls[t := Returned(key, Got(s.entries[i]))],
            history := s.history + [key])
      else if key in s.inflight then
        s.(calls := s.calls[t := Waiting(key, s.inflight[key])])
      else
        s.(inflight := s.inflight[key := t], calls := s.calls[t := Leading(key)])
    case Assembled(t, result) =>
      var key := s.calls[t].key;
      var s' := s.(inflight := s.inflight - {key}, calls := s.calls[t := Publishing(key, result)],
                   results := s.results[t := result]);
      if result.None? then s' else
        s'.(entries := Inserted(s.entries, result.value, capacity), history := s.history + [result.value.key])
    case Publish(t) =>
      s.(calls := s.calls[t := Returned(s.calls[t].key, AnswerOf(s.calls[t].result))])
    case Wake(t) =>
      s.(calls := s.calls[t := Returned(s.calls[t].key, s.calls[s.calls[t].leader].answer)])
    case GiveUp(t) =>
      s.(calls := s.calls[t := Returned(s.calls[t].key, GaveUp)])
  }

  // ---------------------------------------------------------------- the invariant

  /** Exactly the leading calls are in flight, one to a key, and no key in flight is cached. */
  ghost predicate OneAssembly(s: State) {
    && (forall k | k in s.inflight :: s.inflight[k] in s.calls && s.calls[s.inflight[k]] == Leading(k))
    && (forall t | t in s.calls && s.calls[t].Leading? ::
        s.calls[t].key in s.inflight && s.inflight[s.calls[t].key] == t)
    && (forall k | k in s.inflight :: k !in KeysOf(s.entries))
  }

  /** A waiter waits for a call that leads, or led, the same key. */
  ghost predicate WaitersWait(s: State) {
    forall t | t in s.calls && s.calls[t].Waiting? ::
      s.calls[t].leader in s.calls && Led(s.calls[s.calls[t].leader], s.calls[t].key)
  }

  ghost predicate Led(p: Phase, key: Key) {
    !p.Waiting? && p.key == key && (p.Returned? ==> p.answer != GaveUp)
  }

  /** Every answer is for the key asked for. */
  ghost predicate RightAnswers(s: State) {
    forall t | t in s.calls ::
      && (s.calls[t].Returned? && s.calls[t].answer.Got? ==> s.calls[t].answer.cmp.key == s.calls[t].key)
      && (s.calls[t].Publishing? && s.calls[t].result.Some? ==> s.calls[t].result.value.key == s.calls[t].key)
  }

  /** The cache holds the most recently used keys, as many as fit. */
  ghost predicate MostRecent(capacity: nat, s: State) {
    KeysOf(s.entries) == Take(Recency(s.history), capacity)
  }

  /** Some assembly returned the comparison. */
  ghost predicate Made(s: State, c: Comparison) {
    exists t :: t in s.results && s.results[t] == Some(c)
  }

  /** A call whose assembly returned publishes or has returned what it came to; what is cached or answered was made. */
  ghost predicate ResultsKept(s: State) {
    && (forall t | t in s.results ::
          && t in s.calls
          && (if s.calls[t].Publishing? then s.calls[t].result == s.results[t]
              else s.calls[t].Returned? && s.calls[t].answer == AnswerOf(s.results[t])))
    && (forall t | t in s.calls && s.calls[t].Publishing? :: t in s.results)
    && (forall c | c in s.entries :: Made(s, c))
    && (forall t | t in s.calls && s.calls[t].Returned? && s.calls[t].answer.Got? :: Made(s, s.calls[t].answer.cmp))
  }

  ghost predicate Inv(capacity: nat, s: State) {
    OneAssembly(s) && WaitersWait(s) && RightAnswers(s) && MostRecent(capacity, s) && ResultsKept(s)
  }

  // ---------------------------------------------------------------- the cache steps

  lemma FindKey(entries: seq<Comparison>, key: Key)
    ensures Find(entries, key) < |entries| <==> key in KeysOf(entries)
  {
  }

  lemma KeysToFront(entries: seq<Comparison>, i: nat)
    requires i < |entries|
    ensures var t := KeysOf(entries);
            KeysOf(ToFront(entries, i)) == [t[i]] + t[..i] + t[i + 1..] && t == t[..i] + [t[i]] + t[i + 1..]
  {
  }

  lemma {:induction false} HitIsMostRecent(capacity: nat, entries: seq<Comparison>, history: seq<Key>, key: Key)
    requires KeysOf(entries) == Take(Recency(history), capacity) && Find(entries, key) < |entries|
    ensures KeysOf(Promoted(entries, key)) == Take(Recency(history + [key]), capacity)
    ensures forall k :: k in KeysOf(Promoted(entries, key)) <==> k in KeysOf(entries)
  {
    hide KeysOf, ToFront, Used;
    var i, s := Find(entries, key), Recency(history);
    RecencyDistinct(history);
    KeysToFront(entries, i);
    assert KeysOf(entries)[i] == key == s[i];
    TakeUsed(s, capacity, i);
    RecencyOfMore(history, key);
  }

  lemma RecencyOfMore(history: seq<Key>, key: Key)
    ensures Recency(history + [key]) == Used(Recency(history), key)
  {
  }

  lemma {:induction false} InsertIsMostRecent(capacity: nat, entries: seq<Comparison>, history: seq<Key>,
      cmp: Comparison)
    requires KeysOf(entries) == Take(Recency(history), capacity) && cmp.key !in KeysOf(entries)
    ensures KeysOf(Inserted(entries, cmp, capacity)) == Take(Recency(history + [cmp.key]), capacity)
    ensures forall k | k in KeysOf(Inserted(entries, cmp, capacity)) :: k == cmp.key || k in KeysOf(entries)
  {
    hide KeysOf, Recency, Used, Find;
    RecencyDistinct(history);
    FindKey(entries, cmp.key);
    TakeNew(Recency(history), capacity, cmp.key);
    RecencyOfMore(history, cmp.key);
    KeysOfTaken([cmp] + entries, capacity);
    KeysOfMore(cmp, entries);
  }

  lemma KeysOfTaken(entries: seq<Comparison>, n: nat)
    ensures KeysOf(Take(entries, n)) == Take(KeysOf(entries), n)
  {
  }

  lemma KeysOfMore(cmp: Comparison, entries: seq<Comparison>)
    ensures KeysOf([cmp] + entries) == [cmp.key] + KeysOf(entries)
  {
  }

  // ---------------------------------------------------------------- every run

  lemma BeginKeeps(capacity: nat, s: State, t: Tid, key: Key)
    requires Inv(capacity, s) && t !in s.calls
    ensures Inv(capacity, Step(capacity, s, Begin(t, key)))
  {
    hide Promoted, Recency, Take, KeysOf, OneAssembly, WaitersWait, RightAnswers, ResultsKept;
    FindKey(s.entries, key);
    BeginCalls(capacity, s, t, key);
    BeginResults(capacity, s, t, key);
    if key in KeysOf(s.entries) {
      HitIsMostRecent(capacity, s.entries, s.history, key);
    }
  }

  lemma BeginCalls(capacity: nat, s: State, t: Tid, key: Key)
    requires OneAssembly(s) && WaitersWait(s) && RightAnswers(s) && t !in s.calls
    ensures var s2 := Step(capacity, s, Begin(t, key)); OneAssembly(s2) && WaitersWait(s2) && RightAnswers(s2)
  {
    hide Step, OneAssembly, WaitersWait, RightAnswers;
    BeginAssembly(capacity, s, t, key);
    BeginAnswers(capacity, s, t, key);
  }

  lemma BeginAnswers(capacity: nat, s: State, t: Tid, key: Key)
    requires OneAssembly(s) && WaitersWait(s) && RightAnswers(s) && t !in s.calls
    ensures var s2 := Step(capacity, s, Begin(t, key)); WaitersWait(s2) && RightAnswers(s2)
  {
    hide Promoted, KeysOf, Find;
  }

  lemma BeginAssembly(capacity: nat, s: State, t: Tid, key: Key)
    requires OneAssembly(s) && t !in s.calls
    ensures OneAssembly(Step(capacity, s, Begin(t, key)))
  {
    hide Promoted, KeysOf;
    FindKey(s.entries, key);
    if key in KeysOf(s.entries) { PromotedKeys(s.entries, key); }
  }

  lemma PromotedKeys(entries: seq<Comparison>, key: Key)
    requires Find(entries, key) < |entries|
    ensures forall k :: k in KeysOf(Promoted(entries, key)) <==> k in KeysOf(entries)
  {
    hide KeysOf, ToFront;
    KeysToFront(entries, Find(entries, key));
  }

  lemma AssembledKeeps(capacity: nat, s: State, t: Tid, result: Option<Comparison>)
    requires Inv(capacity, s) && Enabled(s, Assembled(t, result))
    ensures Inv(capacity, Step(capacity, s, Assembled(t, result)))
  {
    hide Inserted, Recency, Take, KeysOf, WaitersWait, RightAnswers, ResultsKept;
    AssembledCalls(capacity, s, t, result);
    AssembledResults(capacity, s, t, result);
    if result.Some? {
      InsertIsMostRecent(capacity, s.entries, s.history, result.value);
    }
  }

  lemma AssembledCalls(capacity: nat, s: State, t: Tid, result: Option<Comparison>)
    requires WaitersWait(s) && RightAnswers(s) && Enabled(s, Assembled(t, result))
    ensures var s2 := Step(capacity, s, Assembled(t, result)); WaitersWait(s2) && RightAnswers(s2)
  {
    hide Inserted;
  }

  lemma BeginResults(capacity: nat, s: State, t: Tid, key: Key)
    requires ResultsKept(s) && t !in s.calls
    ensures ResultsKept(Step(capacity, s, Begin(t, key)))
  {
    hide Promoted, Made;
    var s2 := Step(capacity, s, Begin(t, key));
    PromotedMembers(s.entries, key);
    forall c | Made(s, c) ensures Made(s2, c) { MadeStays(s, s2, c); }
  }

  lemma MadeStays(s: State, s2: State, c: Comparison)
    requires Made(s, c) && s2.results == s.results
    ensures Made(s2, c)
  {
  }

  lemma PromotedMembers(entries: seq<Comparison>, key: Key)
    ensures forall c | c in Promoted(entries, key) :: c in entries
  {
  }

  lemma AssembledResults(capacity: nat, s: State, t: Tid, result: Option<Comparison>)
    requires ResultsKept(s) && Enabled(s, Assembled(t, result))
    ensures ResultsKept(Step(capacity, s, Assembled(t, result)))
  {
    hide Inserted;
    var s2 := Step(capacity, s, Assembled(t, result));
    if result.Some? {
      InsertedMembers(s.entries, result.value, capacity);
      assert s2.results[t] == Some(result.value);
    }
    forall c | Made(s, c) ensures Made(s2, c) {
      var u :| u in s.results && s.results[u] == Some(c);
      assert u != t;
      assert s2.results[u] == Some(c);
    }
  }

  lemma InsertedMembers(entries: seq<Comparison>, cmp: Comparison, capacity: nat)
    ensures forall c | c in Inserted(entries, cmp, capacity) :: c == cmp || c in entries
  {
  }

  /** The other steps: a call returns. */
  lemma ReturnResults(capacity: nat, s: State, a: Action)
    requires WaitersWait(s) && ResultsKept(s) && Enabled(s, a) && (a.Publish? || a.Wake? || a.GiveUp?)
    ensures ResultsKept(Step(capacity, s, a))
  {
    var s2 := Step(capacity, s, a);
    forall c | Made(s, c) ensures Made(s2, c) {
      var u :| u in s.results && s.results[u] == Some(c);
      assert s2.results[u] == Some(c);
    }
    if a.Publish? && s.results[a.t].Some? { assert Made(s, s.results[a.t].value); }
  }

  lemma StepKeeps(capacity: nat, s: State, a: Action)
    requires Inv(capacity, s) && Enabled(s, a)
    ensures Inv(capacity, Step(capacity, s, a))
  {
    hide Inv, Step;
    match a
    case Begin(t, key) => BeginKeeps(capacity, s, t, key);
    case Assembled(t, result) => AssembledKeeps(capacity, s, t, result);
    case _ => ReturnKeeps(capacity, s, a);
  }

  lemma ReturnKeeps(capacity: nat, s: State, a: Action)
    requires Inv(capacity, s) && Enabled(s, a) && (a.Publish? || a.Wake? || a.GiveUp?)
    ensures Inv(capacity, Step(capacity, s, a))
  {
    hide Recency, Take, KeysOf, ResultsKept, OneAssembly, WaitersWait, RightAnswers;
    ReturnCalls(capacity, s, a);
    ReturnResults(capacity, s, a);
  }

  lemma ReturnCalls(capacity: nat, s: State, a: Action)
    requires OneAssembly(s) && WaitersWait(s) && RightAnswers(s)
    requires Enabled(s, a) && (a.Publish? || a.Wake? || a.GiveUp?)
    ensures var s2 := Step(capacity, s, a); OneAssembly(s2) && WaitersWait(s2) && RightAnswers(s2)
  {
    hide Step, OneAssembly, WaitersWait, RightAnswers;
    ReturnAssembly(capacity, s, a);
    ReturnAnswers(capacity, s, a);
  }

  lemma ReturnAssembly(capacity: nat, s: State, a: Action)
    requires OneAssembly(s) && Enabled(s, a) && (a.Publish? || a.Wake? || a.GiveUp?)
    ensures OneAssembly(Step(capacity, s, a))
  {
    hide KeysOf;
  }

  lemma ReturnAnswers(capacity: nat, s: State, a: Action)
    requires WaitersWait(s) && RightAnswers(s) && Enabled(s, a) && (a.Publish? || a.Wake? || a.GiveUp?)
    ensures var s2 := Step(capacity, s, a); WaitersWait(s2) && RightAnswers(s2)
  {
    hide KeysOf;
  }

  ghost predicate Runs(capacity: nat, run: seq<Action>, s: State) {
    if run == [] then s == EMPTY else
      var front, last := run[..|run| - 1], run[|run| - 1];
      exists r :: Runs(capacity, front, r) && Enabled(r, last) && s == Step(capacity, r, last)
  }

  lemma {:induction false} RunsKeep(capacity: nat, run: seq<Action>, s: State)
    requires Runs(capacity, run, s)
    ensures Inv(capacity, s)
    decreases |run|
  {
    hide Step;
    if run == [] {
      StartsEmpty(capacity);
    } else {
      var r :| Runs(capacity, run[..|run| - 1], r) && Enabled(r, run[|run| - 1])
          && s == Step(capacity, r, run[|run| - 1]);
      RunsKeep(capacity, run[..|run| - 1], r);
      StepKeeps(capacity, r, run[|run| - 1]);
    }
  }

  lemma StartsEmpty(capacity: nat)
    ensures Inv(capacity, EMPTY)
  {
  }

  // ---------------------------------------------------------------- what a caller sees

  /** In every run: one assembly per key at a time, never of a cached key, and a bounded cache of distinct, most
      recent keys. */
  lemma OneAssemblyPerKey(capacity: nat, run: seq<Action>, s: State, t: Tid, u: Tid)
    requires Runs(capacity, run, s)
    requires t in s.calls && u in s.calls && s.calls[t].Leading? && s.calls[u].Leading?
    ensures s.calls[t].key == s.calls[u].key ==> t == u
    ensures s.calls[t].key !in KeysOf(s.entries)
  {
    hide Step, Runs;
    RunsKeep(capacity, run, s);
  }

  lemma BoundedAndRecent(capacity: nat, run: seq<Action>, s: State)
    requires Runs(capacity, run, s)
    ensures |s.entries| <= capacity && Distinct(KeysOf(s.entries))
    ensures KeysOf(s.entries) == Take(Recency(s.history), capacity)
    ensures s.inflight.Keys !! (set k | k in KeysOf(s.entries))
  {
    hide Step, Runs;
    RunsKeep(capacity, run, s);
    RecencyDistinct(s.history);
  }

  /** Every value returned for a key carries that key. */
  lemma AnswersMatch(capacity: nat, run: seq<Action>, s: State, t: Tid)
    requires Runs(capacity, run, s) && t in s.calls && s.calls[t].Returned? && s.calls[t].answer.Got?
    ensures s.calls[t].answer.cmp.key == s.calls[t].key
  {
    hide Step, Runs;
    RunsKeep(capacity, run, s);
  }

  /** The insertion always finds its key absent, so the early return in it never happens. */
  lemma InsertionIsNew(capacity: nat, run: seq<Action>, s: State, t: Tid, cmp: Comparison)
    requires Runs(capacity, run, s) && Enabled(s, Assembled(t, Some(cmp)))
    ensures Find(s.entries, cmp.key) == |s.entries|
  {
    hide Step, Runs;
    RunsKeep(capacity, run, s);
    FindKey(s.entries, cmp.key);
  }

  /** A waiter is woken with what the call it waited for returned, whoever else gave up meanwhile. */
  lemma WaiterGetsLeadersAnswer(capacity: nat, run: seq<Action>, s: State, t: Tid)
    requires Runs(capacity, run, s) && Enabled(s, Wake(t))
    ensures var p := Step(capacity, s, Wake(t)).calls[t];
            p.Returned? && p.answer == s.calls[s.calls[t].leader].answer && p.answer != GaveUp
    ensures s.calls[s.calls[t].leader].key == s.calls[t].key
  {
    hide Runs;
    RunsKeep(capacity, run, s);
  }

  /** In every run a call whose assembly returned returns what it came to, and every comparison that is cached or
      returned is one that some assembly returned. */
  lemma LeaderReturnsItsResult(capacity: nat, run: seq<Action>, s: State, t: Tid)
    requires Runs(capacity, run, s)
    ensures t in s.results && t in s.calls && s.calls[t].Returned? ==>
      match s.results[t]
      case Some(c) => s.calls[t].answer == Got(c)
      case None => s.calls[t].answer == AssemblyFailed
    ensures forall c | c in s.entries :: Made(s, c)
    ensures t in s.calls && s.calls[t].Returned? && s.calls[t].answer.Got? ==> Made(s, s.calls[t].answer.cmp)
  {
    hide Step, Runs;
    RunsKeep(capacity, run, s);
  }

  /** In every run a request for a cached key returns that entry at once; else it waits for the call that is assembling
      the key, if there is one; else it assembles it itself. */
  lemma RequestIs(capacity: nat, run: seq<Action>, s: State, t: Tid, key: Key)
    requires Runs(capacity, run, s) && t !in s.calls
    ensures var p := Step(capacity, s, Begin(t, key)).calls[t];
            && (forall c | c in s.entries && c.key == key :: p == Returned(key, Got(c)))
            && (p.Returned? ==> exists c :: c in s.entries && c.key == key)
            && (forall u | !p.Returned? && u in s.calls && s.calls[u] == Leading(key) :: p == Waiting(key, u))
            && ((forall c | c in s.entries :: c.key != key) && (forall u | u in s.calls :: s.calls[u] != Leading(key))
                ==> p == Leading(key))
  {
    hide Runs, Promoted;
    RunsKeep(capacity, run, s);
    RecencyDistinct(s.history);
    OneEntry(capacity, s, key);
  }

  lemma OneEntry(capacity: nat, s: State, key: Key)
    requires MostRecent(capacity, s) && Distinct(Recency(s.history))
    ensures forall c | c in s.entries && c.key == key ::
        Find(s.entries, key) < |s.entries| && s.entries[Find(s.entries, key)] == c
  {
    hide Recency;
    var i := Find(s.entries, key);
    forall c | c in s.entries && c.key == key ensures i < |s.entries| && s.entries[i] == c {
      var j :| 0 <= j < |s.entries| && s.entries[j] == c;
      assert KeysOf(s.entries)[j] == key;
      assert i < |s.entries| ==> KeysOf(s.entries)[i] == key;
    }
  }

  /** In every run no request is stuck: one that has not returned can take a step, or waits for one that can. */
  lemma NoneStuck(capacity: nat, run: seq<Action>, s: State, t: Tid)
    requires Runs(capacity, run, s) && t in s.calls && !s.calls[t].Returned?
    ensures match s.calls[t]
            case Leading(_) => Enabled(s, Assembled(t, None))
            case Publishing(_, _) => Enabled(s, Publish(t))
            case Waiting(_, u) =>
              u in s.calls && (Enabled(s, Wake(t)) || Enabled(s, Publish(u)) || Enabled(s, Assembled(u, None)))
            case Returned(_, _) => true
  {
    hide Step, Runs;
    RunsKeep(capacity, run, s);
  }
}
