/** One produce call: a primary attempt raced against a wave-by-wave cascade over
    other agents, as a machine whose steps the scheduler, the agents and the
    context take in any order. */
module Hedger {
  import opened Basics
  import opened ProduceResults
  import opened HedgeWaves

  /** A wire attempt that answered: the agent, the partitions whose records rode in the
      request, and what came back. */
  datatype Attempt = Attempt(agent: int, carried: set<TopicPartition>, result: ProduceResult)

  predicate Acks(a: Attempt, tp: TopicPartition) {
    tp in a.carried && a.result.resp.Some? && Entry(tp, NO_ERROR) in Entries(a.result.resp.value)
  }

  /** Some attempt that carried tp got code 0 for it. */
  ghost predicate Backed(log: seq<Attempt>, tp: TopicPartition) {
    exists i :: 0 <= i < |log| && Acks(log[i], tp)
  }

  datatype Primary = InFlight | Ready(result: ProduceResult) | Taken

  datatype Cascade =
    | Idle
    | Between(acc: Acc, tried: Tried, attempts: nat)
    | InWave(acc: Acc, tried: Tried, attempts: nat, groups: Groups, waiting: set<int>, queue: seq<Scoped>)
    | Finished(result: ProduceResult, attempts: nat, stop: Option<Exhaustion>)

  datatype Caller =
    | Waiting
    | Fallback(primary: ProduceResult)
    | Racing
    | PrimaryFailed(primary: ProduceResult)
    | FallbackFailed(fallback: ProduceResult)
    | Returned(result: ProduceResult)

  datatype State = State(caller: Caller, primary: Primary, cascade: Cascade, ctx: Option<Error>, log: seq<Attempt>)

  /** resp, where a step has one, is the merged response in the order the maps yield it. */
  datatype Step =
    | PrimaryReplies(raw: ProduceResult)
    | TakePrimary
    | StartRace
    | TakeFallback
    | StartWave
    | Exhaust(tp: TopicPartition, resp: Response)
    | NothingPending(resp: Response)
    | LegReports(agent: int, carried: set<TopicPartition>, raw: ProduceResult)
    | Collect(resp: Response)
    | StopCanceled(resp: Response)
    | ContextEnds(err: Error)

  function Init(cfg: Config): State {
    var answer :=
      if cfg.parts == [] then Returned(ProduceResult(Some([]), None))
      else if exists i :: 0 <= i < |cfg.routedTo| && cfg.routedTo[i] != cfg.primary then
        Returned(ProduceResult(None, Some(Misrouted)))
      else Waiting;
    State(answer, InFlight, Idle, None, [])
  }

  /** Duplicate input partitions end the cascade before it dispatches anything. */
  ghost function StartCascade(cfg: Config): Cascade {
    if Distinct(cfg.parts) then Between(InitialAcc(cfg.Input()), map tp | tp in cfg.Input() :: [cfg.primary], 1)
    else Finished(ProduceResult(None, Some(DuplicatePartition)), 0, None)
  }

  function Finish(s: State, acc: Acc, attempts: nat, stop: Option<Exhaustion>, resp: Response): Cascade {
    var result := ResultOf(acc, resp);
    Finished(if s.ctx.Some? then result.(err := s.ctx) else result, attempts, stop)
  }

  ghost predicate Enabled(cfg: Config, s: State, step: Step) {
    match step
    case PrimaryReplies(_) => s.primary.InFlight? && cfg.parts != []
    case TakePrimary => s.primary.Ready? && (s.caller.Waiting? || s.caller.Racing? || s.caller.FallbackFailed?)
    case StartRace => s.caller.Waiting?
    case TakeFallback => s.cascade.Finished? && (s.caller.Fallback? || s.caller.Racing? || s.caller.PrimaryFailed?)
    case StartWave =>
      && s.cascade.Between? && s.ctx.None? && s.cascade.acc.pending != {}
      && Dispatchable(cfg, s.cascade.acc.pending, s.cascade.tried)
    case Exhaust(tp, resp) =>
      && s.cascade.Between? && s.ctx.None? && tp in s.cascade.acc.pending && tp in s.cascade.tried
      && Exhausted(cfg, tp, s.cascade.tried[tp]).Some?
      && IsMerged(cfg.classify, s.cascade.acc, resp)
    case NothingPending(resp) =>
      s.cascade.Between? && s.ctx.None? && s.cascade.acc.pending == {} && IsMerged(cfg.classify, s.cascade.acc, resp)
    case LegReports(agent, _, _) =>
      s.cascade.InWave? && agent in s.cascade.waiting && agent in s.cascade.groups
    case Collect(resp) =>
      && s.cascade.InWave? && s.cascade.queue != []
      && (s.cascade.queue[0].err.None? ==> s.cascade.queue[0].raw.resp.Some?)
      && IsMerged(cfg.classify, Accumulate(cfg.classify, s.cascade.acc, s.cascade.queue[0]), resp)
    case StopCanceled(resp) =>
      && s.ctx.Some? && (s.cascade.Between? || s.cascade.InWave?)
      && IsMerged(cfg.classify, s.cascade.acc, resp)
    case ContextEnds(_) => s.ctx.None?
  }

  /** What the caller does when the primary's result arrives. */
  ghost function AfterPrimary(cfg: Config, s: State, r: ProduceResult): State {
    var s' := s.(primary := Taken);
    match s.caller
    case Waiting => if Succeeded(r) then s'.(caller := Returned(r)) else s'.(caller := Fallback(r), cascade := StartCascade(cfg))
    case Racing => s'.(caller := if Succeeded(r) then Returned(r) else PrimaryFailed(r))
    case FallbackFailed(fallback) => s'.(caller := Returned(Select(r, fallback)))
    case _ => s'
  }

  function AfterFallback(s: State, r: ProduceResult): State {
    match s.caller
    case Racing => s.(caller := if Succeeded(r) then Returned(r) else FallbackFailed(r))
    case Fallback(primary) => s.(caller := Returned(Select(primary, r)))
    case PrimaryFailed(primary) => s.(caller := Returned(Select(primary, r)))
    case _ => s
  }

  /** Takes one leg's outcome off the channel: stop, next wave, or keep collecting. */
  function AfterCollect(cfg: Config, s: State, resp: Response): Cascade
    requires s.cascade.InWave? && s.cascade.queue != []
    requires s.cascade.queue[0].err.None? ==> s.cascade.queue[0].raw.resp.Some?
  {
    var w := s.cascade;
    var acc := Accumulate(cfg.classify, w.acc, w.queue[0]);
    if acc.Done() then Finish(s, acc, w.attempts + 1, None, resp)
    else if w.waiting == {} && |w.queue| == 1 then Between(acc, w.tried, w.attempts + 1)
    else w.(acc := acc, queue := w.queue[1..])
  }

  ghost function Next(cfg: Config, s: State, step: Step): State
    requires Enabled(cfg, s, step)
  {
    match step
    case PrimaryReplies(raw) =>
      s.(primary := Ready(CoverageChecked(raw, cfg.parts)), log := s.log + [Attempt(cfg.primary, cfg.Input(), raw)])
    case TakePrimary => AfterPrimary(cfg, s, s.primary.result)
    case StartRace => s.(caller := Racing, cascade := StartCascade(cfg))
    case TakeFallback => AfterFallback(s, s.cascade.result)
    case StartWave =>
      var b := s.cascade;
      var groups := GroupsFor(cfg, b.acc.pending, b.tried);
      s.(cascade := InWave(b.acc, Extended(cfg, b.acc.pending, b.tried), b.attempts, groups, groups.Keys, []))
    case Exhaust(tp, resp) =>
      s.(cascade := Finish(s, s.cascade.acc, s.cascade.attempts, Exhausted(cfg, tp, s.cascade.tried[tp]), resp))
    case NothingPending(resp) => s.(cascade := Finish(s, s.cascade.acc, s.cascade.attempts, None, resp))
    case LegReports(agent, carried, raw) =>
      var w := s.cascade;
      s.(cascade := w.(waiting := w.waiting - {agent}, queue := w.queue + [Scope(raw, w.groups[agent])]),
         log := s.log + [Attempt(agent, carried, raw)])
    case Collect(resp) => s.(cascade := AfterCollect(cfg, s, resp))
    case StopCanceled(resp) =>
      var attempts := if s.cascade.InWave? then s.cascade.attempts + 1 else s.cascade.attempts;
      s.(cascade := Finish(s, s.cascade.acc, attempts, None, resp))
    case ContextEnds(err) => s.(ctx := Some(err))
  }

  /** The leg's whole group rode in the flush that reported for it. A flush that never
      reached an agent (cancelled, closed) has no response and carries nothing. */
  ghost predicate OneFlush(s: State, step: Step) {
    (step.LegReports? && s.cascade.InWave? && step.agent in s.cascade.groups && step.raw.resp.Some?) ==>
      s.cascade.groups[step.agent] <= step.carried
  }

  ghost predicate Run(cfg: Config, s: State, steps: seq<Step>, end: State)
    decreases |steps|
  {
    if steps == [] then s == end
    else Enabled(cfg, s, steps[0]) && Run(cfg, Next(cfg, s, steps[0]), steps[1..], end)
  }

  ghost predicate EveryLegInOneFlush(cfg: Config, s: State, steps: seq<Step>)
    decreases |steps|
  {
    (steps != [] && Enabled(cfg, s, steps[0])) ==>
      OneFlush(s, steps[0]) && EveryLegInOneFlush(cfg, Next(cfg, s, steps[0]), steps[1..])
  }

  // ---- No false acknowledgement ----

  /** Every partition is listed, and the ones reported as written were written. */
  ghost predicate Covers(cfg: Config, log: seq<Attempt>, resp: Response) {
    forall tp :: tp in cfg.Input() ==>
      && FirstCode(Entries(resp), tp).Some?
      && (FirstCode(Entries(resp), tp) == Some(NO_ERROR) ==> Backed(log, tp))
  }

  ghost predicate PrimaryOK(cfg: Config, log: seq<Attempt>, r: ProduceResult) {
    r.err.None? ==> r.resp.Some? && Covers(cfg, log, r.resp.value)
  }

  /** The invariant of a cascade result, and what is promised of the final one: a result
      without a response carries an error, and a response accounts for every partition. */
  ghost predicate Honest(cfg: Config, log: seq<Attempt>, r: ProduceResult) {
    if r.resp.None? then r.err.Some? else Covers(cfg, log, r.resp.value)
  }

  ghost predicate AccBacked(cfg: Config, log: seq<Attempt>, acc: Acc) {
    AccInv(acc, cfg.Input()) && forall tp :: tp in acc.resolved ==> Backed(log, tp)
  }

  /** A leg outcome waiting on the channel is the scoped view of some logged attempt that
      carried the leg's whole group, or has no response at all. */
  ghost predicate LegOK(cfg: Config, log: seq<Attempt>, leg: Scoped) {
    && leg == Scope(leg.raw, leg.own)
    && leg.own <= cfg.Input()
    && (leg.raw.resp.Some? ==> exists i :: 0 <= i < |log| && log[i].result == leg.raw && leg.own <= log[i].carried)
  }

  ghost predicate CascadeOK(cfg: Config, log: seq<Attempt>, c: Cascade) {
    match c
    case Idle => true
    case Between(acc, _, _) => AccBacked(cfg, log, acc)
    case InWave(acc, _, _, groups, waiting, queue) =>
      && AccBacked(cfg, log, acc)
      && waiting <= groups.Keys
      && (forall a :: a in groups ==> groups[a] <= cfg.Input())
      && (forall leg :: leg in queue ==> LegOK(cfg, log, leg))
    case Finished(result, _, _) => Honest(cfg, log, result)
  }

  ghost predicate CallerOK(cfg: Config, log: seq<Attempt>, caller: Caller) {
    match caller
    case Waiting => true
    case Racing => true
    case Fallback(p) => PrimaryOK(cfg, log, p)
    case PrimaryFailed(p) => PrimaryOK(cfg, log, p)
    case FallbackFailed(f) => Honest(cfg, log, f)
    case Returned(r) => Honest(cfg, log, r)
  }

  ghost predicate Sound(cfg: Config, s: State) {
    && (s.primary.Ready? ==> PrimaryOK(cfg, s.log, s.primary.result))
    && CascadeOK(cfg, s.log, s.cascade)
    && CallerOK(cfg, s.log, s.caller)
  }

  lemma LogGrows(cfg: Config, s: State, a: Attempt)
    requires Sound(cfg, s)
    ensures Sound(cfg, s.(log := s.log + [a]))
  {
    var log' := s.log + [a];
    assert forall i :: 0 <= i < |s.log| ==> log'[i] == s.log[i];
    forall tp | Backed(s.log, tp)
      ensures Backed(log', tp)
    {
      var i :| 0 <= i < |s.log| && Acks(s.log[i], tp);
      assert Acks(log'[i], tp);
    }
    if s.cascade.InWave? {
      forall leg | leg in s.cascade.queue
        ensures LegOK(cfg, log', leg)
      {
        if leg.raw.resp.Some? {
          var i :| 0 <= i < |s.log| && s.log[i].result == leg.raw && leg.own <= s.log[i].carried;
          assert log'[i].result == leg.raw;
        }
      }
    }
  }

  lemma PrimaryIsHonest(cfg: Config, log: seq<Attempt>, raw: ProduceResult)
    ensures PrimaryOK(cfg, log + [Attempt(cfg.primary, cfg.Input(), raw)], CoverageChecked(raw, cfg.parts)) || cfg.parts == []
  {
    var log' := log + [Attempt(cfg.primary, cfg.Input(), raw)];
    var r := CoverageChecked(raw, cfg.parts);
    if r.err.None? && cfg.parts != [] {
      var es := if raw.resp.Some? then Entries(raw.resp.value) else [];
      NothingMissing(es, cfg.parts);
      assert cfg.parts[0] in cfg.parts;
      forall tp | tp in cfg.Input()
        ensures FirstCode(es, tp).Some?
        ensures FirstCode(es, tp) == Some(NO_ERROR) ==> Backed(log', tp)
      {
        FirstCodeIsALine(es, tp);
        assert log'[|log|] == Attempt(cfg.primary, cfg.Input(), raw);
      }
    }
  }

  lemma SelectIsHonest(cfg: Config, log: seq<Attempt>, primary: ProduceResult, fallback: ProduceResult)
    requires PrimaryOK(cfg, log, primary) && Honest(cfg, log, fallback)
    ensures Honest(cfg, log, Select(primary, fallback))
  {
  }

  lemma MergedIsHonest(cfg: Config, log: seq<Attempt>, acc: Acc, resp: Response)
    requires AccBacked(cfg, log, acc) && IsMerged(cfg.classify, acc, resp)
    ensures Covers(cfg, log, resp)
  {
    forall tp | tp in cfg.Input()
      ensures FirstCode(Entries(resp), tp) == Some(CodeFor(cfg.classify, acc, tp))
      ensures CodeFor(cfg.classify, acc, tp) == NO_ERROR ==> Backed(log, tp)
    {
      MergedLookup(cfg.classify, acc, resp, tp);
    }
  }

  lemma FinishIsHonest(cfg: Config, s: State, acc: Acc, attempts: nat, stop: Option<Exhaustion>, resp: Response)
    requires AccBacked(cfg, s.log, acc) && IsMerged(cfg.classify, acc, resp)
    ensures CascadeOK(cfg, s.log, Finish(s, acc, attempts, stop, resp))
  {
    hide Covers, IsMerged, AccBacked;
    MergedIsHonest(cfg, s.log, acc, resp);
  }

  /** A collected leg only resolves partitions its own flush acknowledged. */
  lemma CollectIsBacked(cfg: Config, log: seq<Attempt>, acc: Acc, leg: Scoped)
    requires AccBacked(cfg, log, acc) && LegOK(cfg, log, leg)
    ensures AccBacked(cfg, log, Accumulate(cfg.classify, acc, leg))
  {
    AccumulateKeepsInv(cfg.classify, acc, leg.raw, leg.own, cfg.Input());
    var acc' := Accumulate(cfg.classify, acc, leg);
    forall tp | tp in NewlyResolved(leg)
      ensures Backed(log, tp)
    {
      LegAcks(cfg, log, leg, tp);
    }
  }

  lemma LegAcks(cfg: Config, log: seq<Attempt>, leg: Scoped, tp: TopicPartition)
    requires LegOK(cfg, log, leg) && tp in NewlyResolved(leg)
    ensures Backed(log, tp)
  {
    var es := Entries(leg.raw.resp.value);
    var e :| e in es && leg.Owns(e.tp) && e.tp == tp;
    OwnershipShortcut(leg.raw, leg.own, e);
    OwnedAllZero(es, leg.own);
    assert e == Entry(tp, NO_ERROR);
    var i :| 0 <= i < |log| && log[i].result == leg.raw && leg.own <= log[i].carried;
    assert Acks(log[i], tp);
  }

  lemma StartIsSound(cfg: Config, log: seq<Attempt>)
    ensures CascadeOK(cfg, log, StartCascade(cfg))
  {
  }

  lemma PrimaryStepIsSound(cfg: Config, s: State, step: Step)
    requires Sound(cfg, s) && Enabled(cfg, s, step)
    requires step.PrimaryReplies? || step.TakePrimary? || step.StartRace? || step.TakeFallback? || step.ContextEnds?
    ensures Sound(cfg, Next(cfg, s, step))
  {
    hide PrimaryOK, Honest, CascadeOK, CoverageChecked;
    StartIsSound(cfg, s.log);
    match step
    case PrimaryReplies(raw) =>
      LogGrows(cfg, s, Attempt(cfg.primary, cfg.Input(), raw));
      PrimaryIsHonest(cfg, s.log, raw);
    case TakePrimary =>
      SucceededIsHonest(cfg, s.log, s.primary.result);
      if s.caller.FallbackFailed? {
        SelectIsHonest(cfg, s.log, s.primary.result, s.caller.fallback);
      }
    case TakeFallback =>
      FinishedIsHonest(cfg, s.log, s.cascade);
      if s.caller.Fallback? || s.caller.PrimaryFailed? {
        SelectIsHonest(cfg, s.log, s.caller.primary, s.cascade.result);
      }
    case _ =>
  }

  lemma SucceededIsHonest(cfg: Config, log: seq<Attempt>, r: ProduceResult)
    requires PrimaryOK(cfg, log, r)
    ensures Succeeded(r) ==> Honest(cfg, log, r)
  {
  }

  lemma FinishedIsHonest(cfg: Config, log: seq<Attempt>, c: Cascade)
    requires c.Finished? && CascadeOK(cfg, log, c)
    ensures Honest(cfg, log, c.result)
  {
  }

  lemma CascadeStepIsSound(cfg: Config, s: State, step: Step)
    requires Sound(cfg, s) && Enabled(cfg, s, step) && OneFlush(s, step)
    requires step.StartWave? || step.Exhaust? || step.NothingPending? || step.Collect? || step.StopCanceled?
    ensures Sound(cfg, Next(cfg, s, step))
  {
    hide PrimaryOK, Honest, AccBacked, IsMerged, LegOK;
    match step
    case StartWave => WaveIsSound(cfg, s);
    case Exhaust(tp, resp) =>
      FinishIsHonest(cfg, s, s.cascade.acc, s.cascade.attempts, Exhausted(cfg, tp, s.cascade.tried[tp]), resp);
    case NothingPending(resp) => FinishIsHonest(cfg, s, s.cascade.acc, s.cascade.attempts, None, resp);
    case Collect(resp) =>
      var w := s.cascade;
      CollectIsBacked(cfg, s.log, w.acc, w.queue[0]);
      FinishIsHonest(cfg, s, Accumulate(cfg.classify, w.acc, w.queue[0]), w.attempts + 1, None, resp);
    case StopCanceled(resp) =>
      var attempts := if s.cascade.InWave? then s.cascade.attempts + 1 else s.cascade.attempts;
      FinishIsHonest(cfg, s, s.cascade.acc, attempts, None, resp);
  }

  lemma WaveIsSound(cfg: Config, s: State)
    requires Sound(cfg, s) && Enabled(cfg, s, StartWave)
    ensures CascadeOK(cfg, s.log, Next(cfg, s, StartWave).cascade)
  {
  }

  lemma LegStepIsSound(cfg: Config, s: State, step: Step)
    requires Sound(cfg, s) && step.LegReports? && Enabled(cfg, s, step) && OneFlush(s, step)
    ensures Sound(cfg, Next(cfg, s, step))
  {
    var a := Attempt(step.agent, step.carried, step.raw);
    var w := s.cascade;
    LogGrows(cfg, s, a);
    var log' := s.log + [a];
    var leg := Scope(step.raw, w.groups[step.agent]);
    assert LegOK(cfg, log', leg) by {
      assert log'[|s.log|] == a;
    }
    assert forall l :: l in w.queue + [leg] <==> l in w.queue || l == leg;
  }

  lemma StepIsSound(cfg: Config, s: State, step: Step)
    requires Sound(cfg, s) && Enabled(cfg, s, step) && OneFlush(s, step)
    ensures Sound(cfg, Next(cfg, s, step))
  {
    hide Sound, Enabled, Next, OneFlush;
    if step.LegReports? {
      LegStepIsSound(cfg, s, step);
    } else if step.StartWave? || step.Exhaust? || step.NothingPending? || step.Collect? || step.StopCanceled? {
      CascadeStepIsSound(cfg, s, step);
    } else {
      PrimaryStepIsSound(cfg, s, step);
    }
  }

  lemma {:induction false} RunIsSound(cfg: Config, s: State, steps: seq<Step>, end: State)
    requires Sound(cfg, s) && Run(cfg, s, steps, end) && EveryLegInOneFlush(cfg, s, steps)
    ensures Sound(cfg, end)
    decreases |steps|
  {
    hide Sound, Enabled, Next, OneFlush;
    if steps != [] {
      StepIsSound(cfg, s, steps[0]);
      RunIsSound(cfg, Next(cfg, s, steps[0]), steps[1..], end);
    }
  }

  /** In every run and every race order: when the returned result gives a partition no
      error, some attempt that carried the partition was answered with code 0 for it; and
      the result settles every partition, by listing it or by failing the whole call. */
  lemma NoFalseAcknowledgement(cfg: Config, steps: seq<Step>, end: State, tp: TopicPartition)
    requires cfg.Valid()
    requires Run(cfg, Init(cfg), steps, end) && EveryLegInOneFlush(cfg, Init(cfg), steps)
    requires end.caller.Returned? && tp in cfg.parts
    ensures RecordErr(cfg.classify, end.caller.result, tp).None? ==> Backed(end.log, tp)
    ensures end.caller.result.resp.Some? ==> FirstCode(Entries(end.caller.result.resp.value), tp).Some?
    ensures end.caller.result.resp.None? ==> end.caller.result.err.Some?
  {
    InitIsSound(cfg);
    RunIsSound(cfg, Init(cfg), steps, end);
  }

  lemma InitIsSound(cfg: Config)
    ensures Sound(cfg, Init(cfg))
  {
  }
}
