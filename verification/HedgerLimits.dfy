/** Where the hedge race could stop short or answer wrongly: it never deadlocks, and the
    one-flush hypothesis on its legs is exactly what honest answers need. */
module HedgerLimits {
  import opened Basics
  import opened ProduceResults
  import opened Accumulators
  import opened HedgeWaves
  import opened Hedger
  import opened HedgerBudget

  // ---- No deadlock ----

  /** A merged response exists for any set of keys. */
  lemma {:induction false} LinesCanBePlaced(c: Classifier, a: Acc, keys: set<TopicPartition>) returns (resp: Response, index: map<string, nat>)
    ensures Blocks(resp, index) && Bag(resp) == LineBag(c, a, keys)
    decreases |keys|
  {
    hide Bag, LineBag;
    if keys == {} {
      NothingPlaced(c, a);
      resp, index := [], map[];
    } else {
      var tp :| tp in keys;
      var before, beforeIndex := LinesCanBePlaced(c, a, keys - {tp});
      LinesForGrow(c, a, keys - {tp}, tp);
      assert keys - {tp} + {tp} == keys;
      var placed := PlaceLine(before, beforeIndex, tp, CodeFor(c, a, tp));
      PlaceLineAdds(before, beforeIndex, tp, CodeFor(c, a, tp));
      resp, index := placed.0, placed.1;
    }
  }

  lemma MergedExists(c: Classifier, a: Acc) returns (resp: Response)
    ensures IsMerged(c, a, resp)
  {
    var index;
    resp, index := LinesCanBePlaced(c, a, a.Keys());
    AllPlaced(c, a, resp, index);
  }

  /** Whoever the caller waits for is still able to report. */
  ghost predicate CallerIsServed(cfg: Config, s: State) {
    match s.caller
    case Waiting => cfg.parts != [] && s.cascade.Idle? && !s.primary.Taken?
    case Racing => cfg.parts != [] && !s.cascade.Idle? && !s.primary.Taken?
    case FallbackFailed(_) => cfg.parts != [] && !s.primary.Taken?
    case Fallback(_) => !s.cascade.Idle?
    case PrimaryFailed(_) => !s.cascade.Idle?
    case Returned(_) => true
  }

  lemma StepKeepsServing(cfg: Config, s: State, step: Step)
    requires CallerIsServed(cfg, s) && Enabled(cfg, s, step)
    ensures CallerIsServed(cfg, Next(cfg, s, step))
  {
    hide IsMerged, Accumulate, Extended, GroupsFor, Scope, Exhausted, CoverageChecked, Select, Succeeded, ResultOf;
  }

  lemma {:induction false} RunKeepsServing(cfg: Config, s: State, steps: seq<Step>, end: State)
    requires CallerIsServed(cfg, s) && Run(cfg, s, steps, end)
    ensures CallerIsServed(cfg, end)
    decreases |steps|
  {
    hide CallerIsServed, Enabled, Next;
    if steps != [] {
      StepKeepsServing(cfg, s, steps[0]);
      RunKeepsServing(cfg, Next(cfg, s, steps[0]), steps[1..], end);
    }
  }

  lemma AnyOf<X>(xs: set<X>) returns (x: X)
    requires xs != {}
    ensures x in xs
  {
    x :| x in xs;
  }

  lemma CascadeCanMove(cfg: Config, s: State) returns (step: Step)
    requires BudgetOK(cfg, s.cascade) && (s.cascade.Between? || s.cascade.InWave?)
    ensures Enabled(cfg, s, step) && !step.ContextEnds?
  {
    hide IsMerged, Accumulate;
    var c := s.cascade;
    if s.ctx.Some? {
      var resp := MergedExists(cfg.classify, c.acc);
      step := StopCanceled(resp);
    } else if c.Between? {
      var resp := MergedExists(cfg.classify, c.acc);
      if c.acc.pending == {} {
        step := NothingPending(resp);
      } else if Dispatchable(cfg, c.acc.pending, c.tried) {
        step := StartWave;
      } else {
        var tp :| tp in c.acc.pending && Exhausted(cfg, tp, c.tried[tp]).Some?;
        step := Exhaust(tp, resp);
      }
    } else if c.queue != [] {
      var resp := MergedExists(cfg.classify, Accumulate(cfg.classify, c.acc, c.queue[0]));
      step := Collect(resp);
    } else {
      var agent := AnyOf(c.waiting);
      step := LegReports(agent, {}, ProduceResult(None, Some(Canceled)));
    }
  }

  /** Until the caller has an answer, some step of the race itself is possible, without waiting for
      the context to end. */
  lemma RaceNeverDeadlocks(cfg: Config, steps: seq<Step>, end: State) returns (step: Step)
    requires cfg.Valid() && Run(cfg, Init(cfg), steps, end) && !end.caller.Returned?
    ensures Enabled(cfg, end, step) && !step.ContextEnds?
  {
    CascadeStaysWithinBudget(cfg, steps, end);
    RunKeepsServing(cfg, Init(cfg), steps, end);
    if end.cascade.Between? || end.cascade.InWave? {
      step := CascadeCanMove(cfg, end);
    } else if end.primary.InFlight? && cfg.parts != [] {
      step := PrimaryReplies(ProduceResult(None, Some(Canceled)));
    } else if end.caller.Waiting? || end.caller.FallbackFailed? || (end.caller.Racing? && !end.cascade.Finished?) {
      step := TakePrimary;
    } else {
      step := TakeFallback;
    }
  }

  /** So a race that can only wait for its context has returned; and as runs are bounded, every
      race that keeps moving returns. */
  lemma StuckRaceHasReturned(cfg: Config, steps: seq<Step>, end: State)
    requires cfg.Valid() && Run(cfg, Init(cfg), steps, end)
    requires forall step :: Enabled(cfg, end, step) ==> step.ContextEnds?
    ensures end.caller.Returned?
  {
    hide *;
    if !end.caller.Returned? {
      var step := RaceNeverDeadlocks(cfg, steps, end);
    }
  }

  // ---- The one-flush hypothesis ----

  /** A leg resolves only partitions its reporting flush carried, for every answer the broker
      could give, exactly when the leg's whole group rode in that flush. */
  lemma LegIsHonestExactlyInOneFlush(own: set<TopicPartition>, carried: set<TopicPartition>)
    ensures (forall raw, tp :: tp in NewlyResolved(Scope(raw, own)) ==> tp in carried) <==> own <= carried
  {
    if own <= carried {
      forall raw, tp | tp in NewlyResolved(Scope(raw, own))
        ensures tp in carried
      {
        var e :| e in Entries(raw.resp.value) && Scope(raw, own).Owns(e.tp) && e.tp == tp;
        OwnershipShortcut(raw, own, e);
      }
    } else {
      var tp :| tp in own && tp !in carried;
      var resp := [ResponseTopic(tp.topic, [PartitionEntry(tp.partition, NO_ERROR)])];
      assert resp[1..] == [];
      var e := Entry(tp, NO_ERROR);
      assert Entries(resp) == [e] && e.tp == tp;
      var raw := ProduceResult(Some(resp), None);
      assert FirstOwnedError([e][1..], own).None?;
      assert e in Entries(resp) && Scope(raw, own).Owns(e.tp);
      assert tp in NewlyResolved(Scope(raw, own));
    }
  }

  // A call for two partitions whose only fallback is agent 2.
  const P := TopicPartition("t", 0)
  const Q := TopicPartition("t", 1)
  const BOTH_WRITTEN := ProduceResult(Some([ResponseTopic("t", [PartitionEntry(0, NO_ERROR), PartitionEntry(1, NO_ERROR)])]), None)

  function TwoPartitions(c: Classifier): Config {
    Config(c, 1, [P, Q], [1, 1], tp => [2], 2)
  }

  lemma BothLines()
    ensures Entries(BOTH_WRITTEN.resp.value) == [Entry(P, NO_ERROR), Entry(Q, NO_ERROR)]
  {
  }

  const PRIMARY_LOST := ProduceResult(None, Some(Transport(0)))

  /** The first wave sends both partitions to agent 2. */
  lemma FirstGroups(c: Classifier, tried: Tried)
    requires tried == map[P := [1], Q := [1]]
    ensures Dispatchable(TwoPartitions(c), {P, Q}, tried)
    ensures GroupsFor(TwoPartitions(c), {P, Q}, tried) == map[2 := {P, Q}]
  {
    var cfg := TwoPartitions(c);
    assert NextAgent([2], [1]) == Some(2);
    assert Dispatchable(cfg, {P, Q}, tried);
    assert AgentFor(cfg, P, tried) == 2 == AgentFor(cfg, Q, tried);
    assert AgentsFor(cfg, {P, Q}, tried) == {2};
    assert (set tp | tp in {P, Q} && AgentFor(cfg, tp, tried) == 2) == {P, Q};
    var groups := GroupsFor(cfg, {P, Q}, tried);
    assert groups.Keys == {2} && groups[2] == {P, Q};
  }

  lemma FreshCascade(c: Classifier)
    ensures var cfg := TwoPartitions(c);
            && StartCascade(cfg) == Between(InitialAcc({P, Q}), map[P := [1], Q := [1]], 1)
            && Init(cfg) == State(Waiting, InFlight, Idle, None, []) && cfg.Input() == {P, Q}
  {
    var cfg := TwoPartitions(c);
    assert cfg.Input() == {P, Q};
    assert Distinct(cfg.parts);
  }

  /** The primary fails and the first wave sends both partitions to agent 2. */
  lemma FirstWave(c: Classifier) returns (s: State)
    ensures Run(TwoPartitions(c), Init(TwoPartitions(c)), [PrimaryReplies(PRIMARY_LOST), TakePrimary, StartWave], s)
    ensures s.caller == Fallback(PRIMARY_LOST) && s.ctx.None?
    ensures s.log == [Attempt(1, {P, Q}, PRIMARY_LOST)]
    ensures s.cascade.InWave? && s.cascade.acc == InitialAcc({P, Q})
    ensures s.cascade.groups == map[2 := {P, Q}] && s.cascade.waiting == {2} && s.cascade.queue == []
  {
    hide StartCascade, Init, GroupsFor, Dispatchable, Extended, IsMerged, Accumulate, Exhausted;
    var cfg := TwoPartitions(c);
    FreshCascade(c);
    var s0 := Init(cfg);
    var s1 := Next(cfg, s0, PrimaryReplies(PRIMARY_LOST));
    var s2 := Next(cfg, s1, TakePrimary);
    FirstGroups(c, s2.cascade.tried);
    s := Next(cfg, s2, StartWave);
    RunOfThree(cfg, s0, PrimaryReplies(PRIMARY_LOST), TakePrimary, StartWave);
  }

  lemma RunOfThree(cfg: Config, s: State, a: Step, b: Step, c: Step)
    requires Enabled(cfg, s, a) && Enabled(cfg, Next(cfg, s, a), b)
    requires Enabled(cfg, Next(cfg, Next(cfg, s, a), b), c)
    ensures Run(cfg, s, [a, b, c], Next(cfg, Next(cfg, Next(cfg, s, a), b), c))
  {
    hide Enabled, Next;
    assert [a, b, c][1..] == [b, c] && [b, c][1..] == [c] && [c][1..] == [];
    var s1 := Next(cfg, s, a);
    var s2 := Next(cfg, s1, b);
    var s3 := Next(cfg, s2, c);
    assert Run(cfg, s3, [], s3);
    assert Run(cfg, s2, [c], s3);
    assert Run(cfg, s1, [b, c], s3);
  }

  lemma {:induction false} RunsCompose(cfg: Config, s: State, first: seq<Step>, mid: State, second: seq<Step>, end: State)
    requires Run(cfg, s, first, mid) && Run(cfg, mid, second, end)
    ensures Run(cfg, s, first + second, end)
    decreases |first|
  {
    hide Enabled, Next;
    if first == [] {
      assert first + second == second;
    } else {
      assert (first + second)[1..] == first[1..] + second;
      RunsCompose(cfg, Next(cfg, s, first[0]), first[1..], mid, second, end);
    }
  }

  lemma BothResolved(c: Classifier)
    ensures var leg := Scope(BOTH_WRITTEN, {P, Q});
            && leg.err.None?
            && Accumulate(c, InitialAcc({P, Q}), leg) == Acc({}, map[P := NO_ERROR, Q := NO_ERROR], map[], None, false)
            && IsMerged(c, Accumulate(c, InitialAcc({P, Q}), leg), BOTH_WRITTEN.resp.value)
  {
    BothLines();
    var es := [Entry(P, NO_ERROR), Entry(Q, NO_ERROR)];
    assert es[1..] == [Entry(Q, NO_ERROR)] && es[1..][1..] == [];
    OwnedAllZero(es, {P, Q});
    var leg := Scope(BOTH_WRITTEN, {P, Q});
    var a0 := InitialAcc({P, Q});
    var a1 := ResolveOne(a0, es[0], leg);
    assert a1 == Acc({Q}, map[P := NO_ERROR], map[], None, false);
    var a2 := ResolveOne(a1, es[1], leg);
    assert a2 == Acc({}, map[P := NO_ERROR, Q := NO_ERROR], map[], None, false);
    assert ResolveAll(a1, es[1..], leg) == ResolveAll(a2, [], leg);
    assert ResolveAll(a0, es, leg) == a2;
    assert a2.Keys() == {P, Q};
    assert LinesFor(c, a2, {P, Q}) == {Entry(P, NO_ERROR), Entry(Q, NO_ERROR)};
    assert multiset(es) == multiset{Entry(P, NO_ERROR), Entry(Q, NO_ERROR)};
  }

  /** The flush that reports first carries only P, but names Q for another caller. */
  lemma SplitReport(c: Classifier, w: State) returns (end: State)
    requires w.caller == Fallback(PRIMARY_LOST) && w.ctx.None? && w.log == [Attempt(1, {P, Q}, PRIMARY_LOST)]
    requires w.cascade.InWave? && w.cascade.acc == InitialAcc({P, Q})
    requires w.cascade.groups == map[2 := {P, Q}] && w.cascade.waiting == {2} && w.cascade.queue == []
    ensures Run(TwoPartitions(c), w, [LegReports(2, {P}, BOTH_WRITTEN), Collect(BOTH_WRITTEN.resp.value), TakeFallback], end)
    ensures end.caller == Returned(BOTH_WRITTEN)
    ensures end.log == [Attempt(1, {P, Q}, PRIMARY_LOST), Attempt(2, {P}, BOTH_WRITTEN)]
  {
    hide IsMerged, Entries, Accumulate, TwoPartitions, Exhausted, Dispatchable, GroupsFor, Extended, StartCascade;
    var cfg := TwoPartitions(c);
    assert cfg.classify == c by { Classified(c); }
    BothResolved(c);
    var report := LegReports(2, {P}, BOTH_WRITTEN);
    var collect := Collect(BOTH_WRITTEN.resp.value);
    var s4 := Next(cfg, w, report);
    assert s4.cascade.queue == [Scope(BOTH_WRITTEN, {P, Q})];
    var s5 := Next(cfg, s4, collect);
    assert s5.cascade == Finished(BOTH_WRITTEN, w.cascade.attempts + 1, None);
    end := Next(cfg, s5, TakeFallback);
    RunOfThree(cfg, w, report, collect, TakeFallback);
  }

  lemma Classified(c: Classifier)
    ensures TwoPartitions(c).classify == c
  {
  }

  /** Without the hypothesis the promise fails: when an overflow flush splits a leg's group,
      a partition can be acknowledged although no attempt that carried it was answered. */
  lemma SplitGroupFalselyAcknowledges(c: Classifier) returns (steps: seq<Step>, end: State)
    ensures Run(TwoPartitions(c), Init(TwoPartitions(c)), steps, end)
    ensures end.caller.Returned? && Q in TwoPartitions(c).parts
    ensures RecordErr(c, end.caller.result, Q).None? && !Backed(end.log, Q)
    ensures forall s :: s in steps && s.LegReports? ==> s == LegReports(2, {P}, BOTH_WRITTEN)
  {
    var first := [PrimaryReplies(PRIMARY_LOST), TakePrimary, StartWave];
    var second := [LegReports(2, {P}, BOTH_WRITTEN), Collect(BOTH_WRITTEN.resp.value), TakeFallback];
    var w := FirstWave(c);
    end := SplitReport(c, w);
    steps := first + second;
    assert Run(TwoPartitions(c), Init(TwoPartitions(c)), steps, end) by {
      hide *;
      RunsCompose(TwoPartitions(c), Init(TwoPartitions(c)), first, w, second, end);
    }
    BothLines();
    QIsAcked(c);
    assert forall i :: 0 <= i < |end.log| ==> !Acks(end.log[i], Q);
  }

  lemma QIsAcked(c: Classifier)
    ensures RecordErr(c, BOTH_WRITTEN, Q).None?
  {
    BothLines();
    var es := [Entry(P, NO_ERROR), Entry(Q, NO_ERROR)];
    assert es[1..] == [Entry(Q, NO_ERROR)];
    assert FirstCode(es, Q) == FirstCode(es[1..], Q);
  }
}
