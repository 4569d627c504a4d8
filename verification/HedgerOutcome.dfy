/** What a produce call returns, told by what its participants reported: the hedge race never
    gives up early, never drops a report, and answers for each partition what the legs say. */
module HedgerOutcome {
  import opened Basics
  import opened ProduceResults
  import opened LegFolds
  import opened HedgeWaves
  import opened Hedger

  /** A run as its reports tell it: the primary's reply after the coverage check, the legs in the
      order they reported, the legs that were collected, and how many were started. */
  datatype Tale = Tale(reply: Option<ProduceResult>, reported: seq<Scoped>, heard: seq<Scoped>, started: nat)

  const SILENCE := Tale(None, [], [], 0)

  ghost function Told(cfg: Config, s: State, step: Step, t: Tale): Tale
    requires Enabled(cfg, s, step)
  {
    match step
    case PrimaryReplies(raw) => t.(reply := Some(CoverageChecked(raw, cfg.parts)))
    case LegReports(agent, _, raw) => t.(reported := t.reported + [Scope(raw, s.cascade.groups[agent])])
    case Collect(_) => t.(heard := if |t.heard| < |t.reported| then t.heard + [t.reported[|t.heard|]] else t.heard)
    case StartWave => t.(started := t.started + |AgentsFor(cfg, s.cascade.acc.pending, s.cascade.tried)|)
    case _ => t
  }

  ghost function TaleOf(cfg: Config, s: State, steps: seq<Step>, t: Tale): Tale
    decreases |steps|
  {
    if steps == [] || !Enabled(cfg, s, steps[0]) then t
    else TaleOf(cfg, Next(cfg, s, steps[0]), steps[1..], Told(cfg, s, steps[0], t))
  }

  // ---- The cascade ----

  /** The cascade ended with what the heard legs amount to, and not without a reason: nothing is
      left to write, a leg's error allows no other agent, no agent is left for some partition, or
      the context ended. */
  ghost predicate Settles(cfg: Config, ctx: Option<Error>, result: ProduceResult, stop: Option<Exhaustion>, heard: seq<Scoped>)
    requires LegsOf(cfg.Input(), heard)
  {
    var a := Fold(cfg.classify, cfg.Input(), heard);
    exists resp :: IsMerged(cfg.classify, a, resp)
      && ((result == ResultOf(a, resp) && (stop.Some? || a.pending == {} || a.aborted))
          || (ctx.Some? && result == ResultOf(a, resp).(err := ctx)))
  }

  ghost predicate CascadeStory(cfg: Config, ctx: Option<Error>, c: Cascade, t: Tale) {
    && LegsOf(cfg.Input(), t.reported) && LegsOf(cfg.Input(), t.heard) && t.heard <= t.reported
    && match c
       case Idle => t.reported == [] && t.started == 0
       case Between(acc, _, _) =>
         && t.heard == t.reported && t.started == |t.reported|
         && acc == Fold(cfg.classify, cfg.Input(), t.heard) && !acc.aborted
       case InWave(acc, _, _, groups, waiting, queue) =>
         && t.reported == t.heard + queue && t.started == |t.reported| + |waiting|
         && acc == Fold(cfg.classify, cfg.Input(), t.heard) && !acc.aborted
         && (waiting != {} || queue != [])
         && (forall a :: a in groups ==> groups[a] <= cfg.Input())
       case Finished(result, _, stop) =>
         if Distinct(cfg.parts) then Settles(cfg, ctx, result, stop, t.heard)
         else result == ProduceResult(None, Some(DuplicatePartition))
  }

  lemma StartStory(cfg: Config, ctx: Option<Error>, t: Tale)
    requires CascadeStory(cfg, ctx, Idle, t)
    ensures CascadeStory(cfg, ctx, StartCascade(cfg), t)
  {
    FoldReflects(cfg.classify, cfg.Input(), []);
  }

  lemma FinishSettles(cfg: Config, s: State, t: Tale, attempts: nat, stop: Option<Exhaustion>, resp: Response)
    requires LegsOf(cfg.Input(), t.heard)
    requires var a := Fold(cfg.classify, cfg.Input(), t.heard);
             IsMerged(cfg.classify, a, resp) && (s.ctx.Some? || stop.Some? || a.pending == {} || a.aborted)
    ensures var f := Finish(s, Fold(cfg.classify, cfg.Input(), t.heard), attempts, stop, resp);
            Settles(cfg, s.ctx, f.result, f.stop, t.heard)
  {
    hide Fold, IsMerged;
  }

  lemma WaveStory(cfg: Config, s: State, t: Tale)
    requires CascadeStory(cfg, s.ctx, s.cascade, t) && Enabled(cfg, s, StartWave)
    ensures CascadeStory(cfg, s.ctx, Next(cfg, s, StartWave).cascade, Told(cfg, s, StartWave, t))
  {
    hide Fold, LegsOf;
    var b := s.cascade;
    FoldReflects(cfg.classify, cfg.Input(), t.heard);
    var groups := GroupsFor(cfg, b.acc.pending, b.tried);
    assert groups.Keys == AgentsFor(cfg, b.acc.pending, b.tried);
    var tp :| tp in b.acc.pending;
    assert AgentFor(cfg, tp, b.tried) in groups;
    assert t.heard + [] == t.heard;
  }

  lemma LegStory(cfg: Config, s: State, t: Tale, step: Step)
    requires CascadeStory(cfg, s.ctx, s.cascade, t) && step.LegReports? && Enabled(cfg, s, step)
    ensures CascadeStory(cfg, s.ctx, Next(cfg, s, step).cascade, Told(cfg, s, step, t))
  {
    hide Fold, Scope, IsMerged;
    var w := s.cascade;
    var leg := ScopedLeg(step.raw, w.groups[step.agent]);
    var t' := Told(cfg, s, step, t);
    assert t'.reported == t.heard + (w.queue + [leg]);
    assert forall l :: l in t'.reported <==> l in t.reported || l == leg;
    assert |w.waiting - {step.agent}| == |w.waiting| - 1;
  }

  lemma ScopedLeg(raw: ProduceResult, own: set<TopicPartition>) returns (leg: Scoped)
    ensures leg == Scope(raw, own) && leg.raw == raw && leg.own == own
  {
    leg := Scope(raw, own);
  }

  lemma CollectStory(cfg: Config, s: State, t: Tale, resp: Response)
    requires CascadeStory(cfg, s.ctx, s.cascade, t) && Enabled(cfg, s, Collect(resp)) && Distinct(cfg.parts)
    ensures CascadeStory(cfg, s.ctx, Next(cfg, s, Collect(resp)).cascade, Told(cfg, s, Collect(resp), t))
  {
    hide IsMerged, Accumulate, Settles;
    var w, n := s.cascade, |t.heard|;
    var t' := Told(cfg, s, Collect(resp), t);
    assert t.reported[n] == w.queue[0];
    assert t'.heard == t.heard + [w.queue[0]];
    assert t.reported[n] in t.reported;
    assert t'.heard[..n] == t.heard;
    assert t'.reported == t'.heard + w.queue[1..];
    var acc := Accumulate(cfg.classify, w.acc, w.queue[0]);
    assert acc == Fold(cfg.classify, cfg.Input(), t'.heard);
    if acc.Done() {
      FinishSettles(cfg, s, t', w.attempts + 1, None, resp);
    } else if w.waiting == {} && |w.queue| == 1 {
      assert w.queue[1..] == [];
      assert t'.heard + [] == t'.heard;
    }
  }

  lemma StopStory(cfg: Config, s: State, t: Tale, step: Step)
    requires CascadeStory(cfg, s.ctx, s.cascade, t) && Enabled(cfg, s, step) && Distinct(cfg.parts)
    requires step.Exhaust? || step.NothingPending? || step.StopCanceled?
    ensures CascadeStory(cfg, s.ctx, Next(cfg, s, step).cascade, Told(cfg, s, step, t))
  {
    hide IsMerged, Fold, Settles;
    match step
    case Exhaust(tp, resp) =>
      FinishSettles(cfg, s, t, s.cascade.attempts, Exhausted(cfg, tp, s.cascade.tried[tp]), resp);
    case NothingPending(resp) => FinishSettles(cfg, s, t, s.cascade.attempts, None, resp);
    case StopCanceled(resp) =>
      FinishSettles(cfg, s, t, if s.cascade.InWave? then s.cascade.attempts + 1 else s.cascade.attempts, None, resp);
  }

  /** A cascade runs only for calls that name no partition twice. */
  ghost predicate RunsDistinct(cfg: Config, c: Cascade) {
    c.Between? || c.InWave? ==> Distinct(cfg.parts)
  }

  /** An end that was settled stays settled when the context ends later. */
  lemma ContextStory(cfg: Config, c: Cascade, t: Tale, err: Error)
    requires CascadeStory(cfg, None, c, t)
    ensures CascadeStory(cfg, Some(err), c, t)
  {
    hide IsMerged, Fold, LegsOf;
  }

  // ---- The caller ----

  /** Succeeded is not looked into. */
  ghost predicate Failed(r: ProduceResult) {
    !Succeeded(r)
  }

  ghost predicate Served(cfg: Config) {
    cfg.parts != [] && forall i :: 0 <= i < |cfg.routedTo| ==> cfg.routedTo[i] == cfg.primary
  }

  /** The three ways a served call returns. */
  ghost predicate Answers(s: State, reply: Option<ProduceResult>, r: ProduceResult) {
    || (Succeeded(r) && reply == Some(r))
    || (Succeeded(r) && s.cascade.Finished? && r == s.cascade.result)
    || (reply.Some? && Failed(reply.value) && s.cascade.Finished? && r == Select(reply.value, s.cascade.result))
  }

  ghost predicate CallerStory(cfg: Config, s: State, reply: Option<ProduceResult>) {
    && (reply.None? <==> s.primary.InFlight?)
    && (s.primary.Ready? ==> reply == Some(s.primary.result))
    && match s.caller
       case Waiting => s.cascade.Idle? && !s.primary.Taken?
       case Racing => !s.primary.Taken?
       case Fallback(p) => reply == Some(p) && Failed(p)
       case PrimaryFailed(p) => reply == Some(p) && Failed(p)
       case FallbackFailed(f) => !s.primary.Taken? && s.cascade.Finished? && s.cascade.result == f && Failed(f)
       case Returned(r) => Served(cfg) ==> Answers(s, reply, r)
  }

  ghost predicate Story(cfg: Config, s: State, t: Tale) {
    CascadeStory(cfg, s.ctx, s.cascade, t) && RunsDistinct(cfg, s.cascade) && CallerStory(cfg, s, t.reply)
  }

  lemma CascadeStepStory(cfg: Config, s: State, t: Tale, step: Step)
    requires Story(cfg, s, t) && Enabled(cfg, s, step)
    requires !(step.PrimaryReplies? || step.TakePrimary? || step.StartRace? || step.TakeFallback? || step.ContextEnds?)
    ensures Story(cfg, Next(cfg, s, step), Told(cfg, s, step, t))
  {
    hide CascadeStory, Succeeded, Select, IsMerged, Accumulate, Scope, Exhausted, Dispatchable, GroupsFor, Extended, AgentsFor;
    assert s.cascade.Between? || s.cascade.InWave?;
    match step
    case StartWave => WaveStory(cfg, s, t);
    case LegReports(_, _, _) => LegStory(cfg, s, t, step);
    case Collect(resp) => CollectStory(cfg, s, t, resp);
    case _ => StopStory(cfg, s, t, step);
  }

  lemma CallerStepStory(cfg: Config, s: State, t: Tale, step: Step)
    requires Story(cfg, s, t) && Enabled(cfg, s, step)
    requires step.PrimaryReplies? || step.TakePrimary? || step.StartRace? || step.TakeFallback? || step.ContextEnds?
    ensures Story(cfg, Next(cfg, s, step), Told(cfg, s, step, t))
  {
    hide CascadeStory, Succeeded, Select, CoverageChecked, StartCascade;
    StartedDistinct(cfg);
    match step
    case PrimaryReplies(raw) => SameLegs(cfg, s.ctx, s.cascade, t, t.(reply := Some(CoverageChecked(raw, cfg.parts))));
    case TakePrimary =>
      if s.caller.Waiting? {
        StartStory(cfg, s.ctx, t);
      } else if s.caller.FallbackFailed? {
        SelectPrefersPrimary(s.primary.result, s.caller.fallback);
      }
    case StartRace => StartStory(cfg, s.ctx, t);
    case ContextEnds(err) => ContextStory(cfg, s.cascade, t, err);
    case _ =>
  }

  lemma SelectPrefersPrimary(primary: ProduceResult, fallback: ProduceResult)
    ensures Succeeded(primary) ==> Select(primary, fallback) == primary
  {
  }

  lemma StartedDistinct(cfg: Config)
    ensures RunsDistinct(cfg, StartCascade(cfg)) && !StartCascade(cfg).Idle?
  {
  }

  lemma SameLegs(cfg: Config, ctx: Option<Error>, c: Cascade, t: Tale, t': Tale)
    requires CascadeStory(cfg, ctx, c, t) && t' == t.(reply := t'.reply)
    ensures CascadeStory(cfg, ctx, c, t')
  {
    hide IsMerged, Fold, LegsOf;
  }

  lemma StepStory(cfg: Config, s: State, t: Tale, step: Step)
    requires Story(cfg, s, t) && Enabled(cfg, s, step)
    ensures Story(cfg, Next(cfg, s, step), Told(cfg, s, step, t))
  {
    hide Story, Enabled, Next, Told;
    if step.PrimaryReplies? || step.TakePrimary? || step.StartRace? || step.TakeFallback? || step.ContextEnds? {
      CallerStepStory(cfg, s, t, step);
    } else {
      CascadeStepStory(cfg, s, t, step);
    }
  }

  lemma {:induction false} RunStory(cfg: Config, s: State, t: Tale, steps: seq<Step>, end: State)
    requires Story(cfg, s, t) && Run(cfg, s, steps, end)
    ensures Story(cfg, end, TaleOf(cfg, s, steps, t))
    decreases |steps|
  {
    hide Story, Enabled, Next, Told;
    if steps != [] {
      StepStory(cfg, s, t, steps[0]);
      RunStory(cfg, Next(cfg, s, steps[0]), Told(cfg, s, steps[0], t), steps[1..], end);
    }
  }

  lemma InitStory(cfg: Config)
    ensures Story(cfg, Init(cfg), SILENCE)
  {
    hide Succeeded, Select, IsMerged;
  }

  // ---- What every call answers ----

  /** Over every run of a served call: what it returns is the primary's reply if that succeeded and
      was taken, the cascade's result if that did, and otherwise the selection between the two once
      both have failed. So it fails only when the primary's reply failed and the cascade ended in
      failure; whichever of the two succeeded is never thrown away. */
  lemma CallOutcome(cfg: Config, steps: seq<Step>, end: State)
    requires Run(cfg, Init(cfg), steps, end) && end.caller.Returned? && Served(cfg)
    ensures var r, reply := end.caller.result, TaleOf(cfg, Init(cfg), steps, SILENCE).reply;
            && Answers(end, reply, r)
            && (!Succeeded(r) ==>
                  && reply.Some? && !Succeeded(reply.value)
                  && end.cascade.Finished? && !Succeeded(end.cascade.result)
                  && r == Select(reply.value, end.cascade.result))
  {
    hide Run, Succeeded, CascadeStory, TaleOf;
    InitStory(cfg);
    RunStory(cfg, Init(cfg), SILENCE, steps, end);
    var r, reply := end.caller.result, TaleOf(cfg, Init(cfg), steps, SILENCE).reply;
    if !Succeeded(r) {
      SelectSucceedsExactly(reply.value, end.cascade.result);
    }
  }

  /** A call with nothing to write succeeds, and a misrouted one fails, before anything is sent. */
  lemma UnservedOutcome(cfg: Config)
    ensures !Served(cfg) <==> Init(cfg).caller.Returned?
    ensures cfg.parts == [] ==> Init(cfg).caller.Returned? && Succeeded(Init(cfg).caller.result)
    ensures cfg.parts != [] && !Served(cfg) ==> Init(cfg).caller == Returned(ProduceResult(None, Some(Misrouted)))
  {
  }

  /** Over every run of a call that names no partition twice, when its cascade has ended: the legs
      it heard are the first of those that reported; each partition reads the verdict of those legs
      off the response; it succeeds exactly when they wrote every partition, unless the context
      ended; and otherwise there is a reason. */
  lemma CascadeOutcome(cfg: Config, steps: seq<Step>, end: State, tp: TopicPartition)
    requires Run(cfg, Init(cfg), steps, end) && end.cascade.Finished? && Distinct(cfg.parts)
    ensures var t, r := TaleOf(cfg, Init(cfg), steps, SILENCE), end.cascade.result;
            && t.heard <= t.reported && r.resp.Some?
            && (tp in cfg.parts ==> FirstCode(Entries(r.resp.value), tp) == Some(Verdict(cfg.classify, t.heard, tp)))
            && (Succeeded(r) ==> forall p :: p in cfg.parts ==> SomeWrote(t.heard, p))
            && (end.ctx.None? && (forall p :: p in cfg.parts ==> SomeWrote(t.heard, p)) ==> Succeeded(r))
            && (!Succeeded(r) ==>
                  end.ctx.Some? || end.cascade.stop.Some? || SomeFatal(cfg.classify, t.heard))
  {
    hide Run, CallerStory, TaleOf, IsMerged, Fold, SomeWrote, SomeFatal, Verdict, Succeeded, ResultOf, Entries;
    InitStory(cfg);
    RunStory(cfg, Init(cfg), SILENCE, steps, end);
    var t, r := TaleOf(cfg, Init(cfg), steps, SILENCE), end.cascade.result;
    SettledOutcome(cfg, end.ctx, r, end.cascade.stop, t.heard, tp);
  }

  lemma SettledOutcome(cfg: Config, ctx: Option<Error>, r: ProduceResult, stop: Option<Exhaustion>, heard: seq<Scoped>, tp: TopicPartition)
    requires LegsOf(cfg.Input(), heard) && Settles(cfg, ctx, r, stop, heard)
    ensures r.resp.Some?
    ensures tp in cfg.parts ==> FirstCode(Entries(r.resp.value), tp) == Some(Verdict(cfg.classify, heard, tp))
    ensures Succeeded(r) ==> forall p :: p in cfg.parts ==> SomeWrote(heard, p)
    ensures ctx.None? && (forall p :: p in cfg.parts ==> SomeWrote(heard, p)) ==> Succeeded(r)
    ensures !Succeeded(r) ==> ctx.Some? || stop.Some? || SomeFatal(cfg.classify, heard)
  {
    hide IsMerged, Fold, SomeWrote, SomeFatal, Verdict, Entries;
    var a := Fold(cfg.classify, cfg.Input(), heard);
    var resp :| IsMerged(cfg.classify, a, resp)
      && ((r == ResultOf(a, resp) && (stop.Some? || a.pending == {} || a.aborted))
          || (ctx.Some? && r == ResultOf(a, resp).(err := ctx)));
    FoldReflects(cfg.classify, cfg.Input(), heard);
    MergedVerdicts(cfg.classify, cfg.Input(), heard, resp, tp);
    AllWrittenSucceeds(cfg.classify, cfg.Input(), heard, resp);
  }

  /** A wave is over only when every leg that was started has reported and been heard. */
  lemma NoLegIsDropped(cfg: Config, steps: seq<Step>, end: State)
    requires Run(cfg, Init(cfg), steps, end) && end.cascade.Between?
    ensures var t := TaleOf(cfg, Init(cfg), steps, SILENCE); t.heard == t.reported && |t.reported| == t.started
  {
    hide Run, CallerStory, TaleOf, Fold;
    InitStory(cfg);
    RunStory(cfg, Init(cfg), SILENCE, steps, end);
  }

  /** A served call on distinct partitions fails only for a reason: besides the primary's failure, its
      context ended, no agent was left for some partition, or a leg met an error that allows no
      other agent. */
  lemma FailureHasAReason(cfg: Config, steps: seq<Step>, end: State)
    requires Run(cfg, Init(cfg), steps, end) && end.caller.Returned? && Served(cfg) && Distinct(cfg.parts)
    requires !Succeeded(end.caller.result)
    ensures var t := TaleOf(cfg, Init(cfg), steps, SILENCE);
            && t.reply.Some? && !Succeeded(t.reply.value)
            && end.cascade.Finished?
            && (end.ctx.Some? || end.cascade.stop.Some? || SomeFatal(cfg.classify, t.heard))
  {
    hide *;
    CallOutcome(cfg, steps, end);
    CascadeOutcome(cfg, steps, end, TopicPartition("", 0));
  }
}
