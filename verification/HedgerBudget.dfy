/** The cascade's attempt budget: what the tried lists look like at every wave, why the
    stop reason is well defined, and that every run is finite. */
module HedgerBudget {
  import opened Basics
  import opened ProduceResults
  import opened HedgeWaves
  import opened Hedger

  /** Every tried list starts with the primary and never repeats an agent. */
  ghost predicate TriedOK(cfg: Config, tried: Tried) {
    && tried.Keys == cfg.Input()
    && forall tp :: tp in tried ==> |tried[tp]| > 0 && tried[tp][0] == cfg.primary && Distinct(tried[tp])
  }

  ghost predicate Uniform(pending: set<TopicPartition>, tried: Tried, n: nat) {
    pending <= tried.Keys && forall tp :: tp in pending ==> |tried[tp]| == n
  }

  /** The stop reason that an exhausted cascade of the given depth reports. */
  function StopAt(cfg: Config, attempts: nat): Exhaustion {
    if attempts >= cfg.maxAgents then BudgetCap else if attempts == 1 then NoAlternate else ListDrained
  }

  ghost predicate BudgetOK(cfg: Config, c: Cascade) {
    match c
    case Idle => true
    case Between(acc, tried, attempts) =>
      && AccInv(acc, cfg.Input()) && TriedOK(cfg, tried)
      && 1 <= attempts <= cfg.maxAgents && Uniform(acc.pending, tried, attempts)
    case InWave(acc, tried, attempts, groups, waiting, queue) =>
      && AccInv(acc, cfg.Input()) && TriedOK(cfg, tried)
      && attempts + 1 <= cfg.maxAgents && Uniform(acc.pending, tried, attempts + 1)
      && (forall a :: a in groups ==> groups[a] <= cfg.Input())
      && (forall leg :: leg in queue ==> leg == Scope(leg.raw, leg.own) && leg.own <= cfg.Input())
      && waiting <= groups.Keys
      && (waiting != {} || queue != [])
    case Finished(_, attempts, stop) =>
      attempts <= cfg.maxAgents && (stop.Some? ==> stop.value == StopAt(cfg, attempts))
  }

  lemma StartIsWithinBudget(cfg: Config)
    requires cfg.Valid()
    ensures BudgetOK(cfg, StartCascade(cfg))
  {
  }

  lemma WaveIsWithinBudget(cfg: Config, s: State)
    requires BudgetOK(cfg, s.cascade) && Enabled(cfg, s, StartWave)
    ensures BudgetOK(cfg, Next(cfg, s, StartWave).cascade)
  {
    var b := s.cascade;
    var tried' := Extended(cfg, b.acc.pending, b.tried);
    forall tp | tp in tried'
      ensures |tried'[tp]| > 0 && tried'[tp][0] == cfg.primary && Distinct(tried'[tp])
      ensures tp in b.acc.pending ==> |tried'[tp]| == b.attempts + 1
    {
      if tp in b.acc.pending {
        assert AgentFor(cfg, tp, b.tried) !in b.tried[tp];
      }
    }
    var groups := GroupsFor(cfg, b.acc.pending, b.tried);
    var tp :| tp in b.acc.pending;
    assert |b.tried[tp]| < cfg.maxAgents;
    assert AgentFor(cfg, tp, b.tried) in groups.Keys;
  }

  lemma PendingShrinks(cfg: Config, acc: Acc, leg: Scoped)
    requires AccInv(acc, cfg.Input()) && leg == Scope(leg.raw, leg.own) && leg.own <= cfg.Input()
    ensures AccInv(Accumulate(cfg.classify, acc, leg), cfg.Input())
    ensures Accumulate(cfg.classify, acc, leg).pending <= acc.pending
  {
    hide Accumulate, NewlyResolved, Scope;
    AccumulateKeepsInv(cfg.classify, acc, leg.raw, leg.own, cfg.Input());
  }

  lemma CollectIsWithinBudget(cfg: Config, s: State, resp: Response)
    requires BudgetOK(cfg, s.cascade) && Enabled(cfg, s, Collect(resp))
    ensures BudgetOK(cfg, Next(cfg, s, Collect(resp)).cascade)
  {
    hide AccInv, TriedOK, Accumulate, IsMerged, Scope;
    PendingShrinks(cfg, s.cascade.acc, s.cascade.queue[0]);
  }

  lemma LegIsWithinBudget(cfg: Config, s: State, step: Step)
    requires BudgetOK(cfg, s.cascade) && step.LegReports? && Enabled(cfg, s, step)
    ensures BudgetOK(cfg, Next(cfg, s, step).cascade)
  {
    hide AccInv, TriedOK, Uniform;
  }

  lemma StopIsWithinBudget(cfg: Config, s: State, step: Step)
    requires BudgetOK(cfg, s.cascade) && Enabled(cfg, s, step)
    requires step.Exhaust? || step.NothingPending? || step.StopCanceled?
    ensures BudgetOK(cfg, Next(cfg, s, step).cascade)
  {
    hide AccInv, TriedOK, IsMerged, ResultOf;
  }

  lemma StepIsWithinBudget(cfg: Config, s: State, step: Step)
    requires cfg.Valid() && BudgetOK(cfg, s.cascade) && Enabled(cfg, s, step)
    ensures BudgetOK(cfg, Next(cfg, s, step).cascade)
  {
    if step.StartWave? {
      WaveIsWithinBudget(cfg, s);
    } else if step.Collect? {
      CollectIsWithinBudget(cfg, s, step.resp);
    } else if step.LegReports? {
      LegIsWithinBudget(cfg, s, step);
    } else if step.Exhaust? || step.NothingPending? || step.StopCanceled? {
      StopIsWithinBudget(cfg, s, step);
    } else {
      StartIsWithinBudget(cfg);
      CallerStepKeepsCascade(cfg, s, step);
    }
  }

  lemma CallerStepKeepsCascade(cfg: Config, s: State, step: Step)
    requires Enabled(cfg, s, step)
    requires step.PrimaryReplies? || step.TakePrimary? || step.StartRace? || step.TakeFallback? || step.ContextEnds?
    ensures Next(cfg, s, step).cascade in [s.cascade, StartCascade(cfg)]
  {
    hide StartCascade, CoverageChecked, Select, Succeeded;
  }

  lemma {:induction false} RunIsWithinBudget(cfg: Config, s: State, steps: seq<Step>, end: State)
    requires cfg.Valid() && BudgetOK(cfg, s.cascade) && Run(cfg, s, steps, end)
    ensures BudgetOK(cfg, end.cascade)
    decreases |steps|
  {
    hide BudgetOK, Enabled, Next;
    if steps != [] {
      StepIsWithinBudget(cfg, s, steps[0]);
      RunIsWithinBudget(cfg, Next(cfg, s, steps[0]), steps[1..], end);
    }
  }

  /** In every reachable state: the depth never exceeds the budget; each tried list starts with
      the primary and has no repeats; between waves all pending partitions have tried equally many
      agents; and an exhausted partition gives the same reason whichever one is met first. */
  lemma CascadeStaysWithinBudget(cfg: Config, steps: seq<Step>, end: State)
    requires cfg.Valid() && Run(cfg, Init(cfg), steps, end)
    ensures BudgetOK(cfg, end.cascade)
    ensures end.cascade.Finished? ==> end.cascade.attempts <= cfg.maxAgents
    ensures end.cascade.Between? ==>
              forall tp :: tp in end.cascade.acc.pending ==>
                Exhausted(cfg, tp, end.cascade.tried[tp]) in [None, Some(StopAt(cfg, end.cascade.attempts))]
  {
    RunIsWithinBudget(cfg, Init(cfg), steps, end);
  }

  // ---- Every run is finite ----

  lemma {:induction false} ImageIsNoLarger<X, Y>(xs: set<X>, f: X --> Y, ys: set<Y>)
    requires forall x :: x in xs ==> f.requires(x)
    requires ys == set x | x in xs :: f(x)
    ensures |ys| <= |xs|
    decreases |xs|
  {
    if xs != {} {
      var x :| x in xs;
      var rest := set z | z in xs - {x} :: f(z);
      ImageIsNoLarger(xs - {x}, f, rest);
      assert ys == rest + {f(x)};
    }
  }

  /** n waves of k steps each. */
  function Steps(n: int, k: nat): nat {
    if n <= 0 then 0 else k + Steps(n - 1, k)
  }

  lemma {:induction false} StepsIsProduct(n: nat, k: nat)
    ensures Steps(n, k) == n * k
  {
    if n > 0 {
      StepsIsProduct(n - 1, k);
    }
  }

  /** Steps a wave can still take, and waves left, weighted so that every step lowers the sum. */
  ghost function CascadeMeasure(cfg: Config, c: Cascade): nat {
    var perWave := 2 * |cfg.Input()| + 2;
    match c
    case Idle => Steps(cfg.maxAgents, perWave) + 2
    case Between(_, _, attempts) => Steps(cfg.maxAgents - attempts, perWave) + 1
    case InWave(_, _, attempts, _, waiting, queue) =>
      Steps(cfg.maxAgents - attempts - 1, perWave) + 2 * |waiting| + |queue| + 1
    case Finished(_, _, _) => 0
  }

  function CallerMeasure(c: Caller): nat {
    match c
    case Waiting => 3
    case Fallback(_) => 2
    case Racing => 2
    case PrimaryFailed(_) => 1
    case FallbackFailed(_) => 1
    case Returned(_) => 0
  }

  ghost function Measure(cfg: Config, s: State): nat {
    CascadeMeasure(cfg, s.cascade) + CallerMeasure(s.caller)
    + (match s.primary case InFlight => 2 case Ready(_) => 1 case Taken => 0)
    + (if s.ctx.None? then 1 else 0)
  }

  /** A wave has at most one leg per partition. */
  lemma FewLegs(cfg: Config, pending: set<TopicPartition>, tried: Tried)
    requires Dispatchable(cfg, pending, tried) && pending <= cfg.Input()
    ensures |GroupsFor(cfg, pending, tried).Keys| <= |cfg.Input()|
  {
    hide Exhausted, AgentFor;
    var agents := AgentsFor(cfg, pending, tried);
    ImageIsNoLarger(pending, tp requires tp in pending => AgentFor(cfg, tp, tried), agents);
    assert GroupsFor(cfg, pending, tried).Keys == agents;
    PendingIsNoLarger(pending, cfg.Input());
  }

  lemma WaveLowersMeasure(cfg: Config, s: State)
    requires BudgetOK(cfg, s.cascade) && Enabled(cfg, s, StartWave)
    ensures CascadeMeasure(cfg, Next(cfg, s, StartWave).cascade) < CascadeMeasure(cfg, s.cascade)
  {
    hide Next, Steps, Enabled, BudgetOK;
    var attempts, legs := StartedWave(cfg, s);
    StepsUnfold(cfg.maxAgents - attempts, 2 * |cfg.Input()| + 2);
  }

  lemma StepsUnfold(n: int, k: nat)
    requires n > 0
    ensures Steps(n, k) == k + Steps(n - 1, k)
  {
  }

  lemma StartedWave(cfg: Config, s: State) returns (attempts: nat, legs: set<int>)
    requires BudgetOK(cfg, s.cascade) && Enabled(cfg, s, StartWave)
    ensures s.cascade.Between? && s.cascade.attempts == attempts < cfg.maxAgents
    ensures var c := Next(cfg, s, StartWave).cascade;
            c.InWave? && c.attempts == attempts && c.waiting == legs && c.queue == []
    ensures |legs| <= |cfg.Input()|
  {
    hide Exhausted, AgentFor, Extended;
    var b := s.cascade;
    FewLegs(cfg, b.acc.pending, b.tried);
    attempts, legs := b.attempts, GroupsFor(cfg, b.acc.pending, b.tried).Keys;
    var tp :| tp in b.acc.pending;
    RoomLeft(cfg, tp, b.tried, attempts);
  }

  lemma RoomLeft(cfg: Config, tp: TopicPartition, tried: Tried, n: nat)
    requires tp in tried && |tried[tp]| == n && Exhausted(cfg, tp, tried[tp]).None?
    ensures n < cfg.maxAgents
  {
  }

  lemma {:induction false} PendingIsNoLarger<X>(a: set<X>, b: set<X>)
    requires a <= b
    ensures |a| <= |b|
    decreases |a|
  {
    if a != {} {
      var x :| x in a;
      PendingIsNoLarger(a - {x}, b - {x});
    }
  }

  lemma CollectLowersMeasure(cfg: Config, s: State, resp: Response)
    requires BudgetOK(cfg, s.cascade) && Enabled(cfg, s, Collect(resp))
    ensures CascadeMeasure(cfg, Next(cfg, s, Collect(resp)).cascade) < CascadeMeasure(cfg, s.cascade)
  {
    hide AccInv, TriedOK, Accumulate, IsMerged, Scope;
  }

  lemma StartLowersMeasure(cfg: Config)
    requires cfg.Valid()
    ensures CascadeMeasure(cfg, StartCascade(cfg)) < CascadeMeasure(cfg, Idle)
  {
    StepsUnfold(cfg.maxAgents, 2 * |cfg.Input()| + 2);
  }

  /** The caller only waits for a cascade once it has started one. */
  ghost predicate StartedOnce(s: State) {
    s.caller.Waiting? ==> s.cascade.Idle?
  }

  lemma CascadeStepLowersMeasure(cfg: Config, s: State, step: Step)
    requires BudgetOK(cfg, s.cascade) && Enabled(cfg, s, step)
    requires step.Exhaust? || step.NothingPending? || step.StopCanceled? || step.LegReports?
    ensures CascadeMeasure(cfg, Next(cfg, s, step).cascade) < CascadeMeasure(cfg, s.cascade)
  {
    hide AccInv, TriedOK, IsMerged, Scope, Steps, Uniform, ResultOf, Exhausted;
  }

  lemma CallerStepLowersMeasure(cfg: Config, s: State, step: Step)
    requires cfg.Valid() && StartedOnce(s) && Enabled(cfg, s, step)
    requires step.PrimaryReplies? || step.TakePrimary? || step.StartRace? || step.TakeFallback? || step.ContextEnds?
    ensures Measure(cfg, Next(cfg, s, step)) < Measure(cfg, s)
    ensures StartedOnce(Next(cfg, s, step))
  {
    hide CoverageChecked, Select, Succeeded, Steps, InitialAcc;
    StartLowersMeasure(cfg);
  }

  lemma StepLowersMeasure(cfg: Config, s: State, step: Step)
    requires cfg.Valid() && BudgetOK(cfg, s.cascade) && StartedOnce(s) && Enabled(cfg, s, step)
    ensures Measure(cfg, Next(cfg, s, step)) < Measure(cfg, s)
    ensures StartedOnce(Next(cfg, s, step))
  {
    hide CascadeMeasure, BudgetOK, Enabled, Next;
    if step.PrimaryReplies? || step.TakePrimary? || step.StartRace? || step.TakeFallback? || step.ContextEnds? {
      CallerStepLowersMeasure(cfg, s, step);
    } else {
      CascadeOnlyStep(cfg, s, step);
      if step.StartWave? {
        WaveLowersMeasure(cfg, s);
      } else if step.Collect? {
        CollectLowersMeasure(cfg, s, step.resp);
      } else {
        CascadeStepLowersMeasure(cfg, s, step);
      }
    }
  }

  lemma CascadeOnlyStep(cfg: Config, s: State, step: Step)
    requires Enabled(cfg, s, step)
    requires !(step.PrimaryReplies? || step.TakePrimary? || step.StartRace? || step.TakeFallback? || step.ContextEnds?)
    ensures var n := Next(cfg, s, step);
            n.caller == s.caller && n.primary == s.primary && n.ctx == s.ctx && !s.cascade.Idle?
  {
    hide IsMerged, Accumulate, Extended, GroupsFor, ResultOf, Scope, Exhausted;
  }

  lemma {:induction false} RunIsBounded(cfg: Config, s: State, steps: seq<Step>, end: State)
    requires cfg.Valid() && BudgetOK(cfg, s.cascade) && StartedOnce(s) && Run(cfg, s, steps, end)
    ensures |steps| <= Measure(cfg, s)
    decreases |steps|
  {
    hide BudgetOK, Enabled, Next, Measure, StartedOnce;
    if steps != [] {
      StepIsWithinBudget(cfg, s, steps[0]);
      StepLowersMeasure(cfg, s, steps[0]);
      RunIsBounded(cfg, Next(cfg, s, steps[0]), steps[1..], end);
    }
  }

  /** Every run ends: its length is bounded by the budget and the number of partitions. */
  lemma EveryRunEnds(cfg: Config, steps: seq<Step>, end: State)
    requires cfg.Valid() && Run(cfg, Init(cfg), steps, end)
    ensures |steps| <= cfg.maxAgents * (2 * |cfg.Input()| + 2) + 8
  {
    RunIsBounded(cfg, Init(cfg), steps, end);
    StepsIsProduct(cfg.maxAgents, 2 * |cfg.Input()| + 2);
  }
}
