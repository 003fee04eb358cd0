/** The byte cap over whole runs: what keeps the accounted total under it, and the one step that does not. */
module CacheBudget {
  import opened CacheTables
  import opened CacheProtocol

  /** A record rewrite that grew past what the cap leaves: it is accounted for without a test. */
  ghost predicate Overgrows(c: Config, s: State, a: Action) {
    && a.AccountRewrite? && a.w in s.rewrites && s.rewrites[a.w].Renamed? && s.rewrites[a.w].id in s.images
    && var growth := s.rewrites[a.w].bytes - s.images[s.rewrites[a.w].id].bytes;
       growth > 0 && s.accounted + growth > c.max
  }

  function Larger(a: int, b: int): int {
    if a < b then b else a
  }

  lemma StageCharges(c: Config, s: State, a: Action)
    requires Enabled(c, s, a)
    ensures StageStep(c, s, a).accounted == s.accounted
  {
    hide Tab, PinnedBytes, Size, AfterGrant, AfterRefusal, Held;
  }

  lemma LayerCharges(c: Config, s: State, a: Action)
    requires Enabled(c, s, a)
    ensures LayerStep(c, s, a).accounted <= s.accounted
  {
  }

  lemma CommitCharges(c: Config, s: State, a: Action)
    requires Enabled(c, s, a)
    ensures CommitStep(c, s, a).accounted <= s.accounted
  {
  }

  lemma ReserveCharges(c: Config, s: State, t: TxnId, ok: bool)
    requires Enabled(c, s, ReserveStep(t, ok))
    ensures ReserveOnce(c, s, t, ok).accounted <= Larger(s.accounted, c.max)
  {
    if s.mu.pending != [] {
      DropLayerKeeps(Tab(s), s.mu.pending[0], if ok then {} else {s.mu.pending[0]});
    }
  }

  lemma RewriteCharges(c: Config, s: State, a: Action)
    requires Enabled(c, s, a) && (a.Touch? || a.Upgrade? || a.MoveRewrite? || a.AccountRewrite?)
    ensures RewriteStep(c, s, a).accounted <= Larger(s.accounted, c.max) <==> !Overgrows(c, s, a)
  {
  }

  /** A step takes the total past both the cap and what it was exactly when it accounts for a rewrite that outgrew
      the cap. So from within the cap every other step stays within it. */
  lemma StepKeepsCap(c: Config, s: State, a: Action)
    requires Enabled(c, s, a)
    ensures Step(c, s, a).accounted <= Larger(s.accounted, c.max) <==> !Overgrows(c, s, a)
  {
    hide Enabled, StageStep, LayerStep, CommitStep, RewriteStep, ReserveOnce, Overgrows;
    OnlyRewrites(c, s, a);
    if a.Touch? || a.Upgrade? || a.MoveRewrite? || a.AccountRewrite? {
      RewriteCharges(c, s, a);
    } else if a.ReserveStep? {
      ReserveCharges(c, s, a.t, a.ok);
    } else {
      StageCharges(c, s, a);
      LayerCharges(c, s, a);
      CommitCharges(c, s, a);
    }
  }

  lemma OnlyRewrites(c: Config, s: State, a: Action)
    ensures Overgrows(c, s, a) ==> a.AccountRewrite?
  {
  }

  // ---------------------------------------------------------------- every run

  /** No step of the run accounts for a rewrite past the cap. */
  ghost predicate NoOvergrowth(c: Config, s: State, acts: seq<Action>)
    decreases |acts|
  {
    acts == [] || (Enabled(c, s, acts[0]) && !Overgrows(c, s, acts[0])
        && NoOvergrowth(c, Step(c, s, acts[0]), acts[1..]))
  }

  /** The total is within the cap in every state the run goes through. */
  ghost predicate CapThroughout(c: Config, s: State, acts: seq<Action>)
    decreases |acts|
  {
    s.accounted <= c.max && (acts == [] || (Enabled(c, s, acts[0]) && CapThroughout(c, Step(c, s, acts[0]), acts[1..])))
  }

  /** A run that starts within the cap stays within it throughout exactly when no rewrite outgrows it. */
  lemma {:induction false} RunsKeepCap(c: Config, s: State, acts: seq<Action>, s2: State)
    requires Runs(c, s, acts, s2) && s.accounted <= c.max
    ensures CapThroughout(c, s, acts) <==> NoOvergrowth(c, s, acts)
    ensures NoOvergrowth(c, s, acts) ==> s2.accounted <= c.max
    decreases |acts|
  {
    hide Step, Enabled, Overgrows;
    if acts != [] {
      StepKeepsCap(c, s, acts[0]);
      if !Overgrows(c, s, acts[0]) {
        RunsKeepCap(c, Step(c, s, acts[0]), acts[1..], s2);
      }
    }
  }
}
