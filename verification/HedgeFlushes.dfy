/** Hedge legs on their way through the hedge buffer: when a leg's whole group is carried by the
    flush that reports for it, and what follows for the race. */
module HedgeFlushes {
  import opened Basics
  import opened ProduceResults
  import opened RecordBatches
  import opened RoutedBatches
  import opened AgentBuffers
  import opened AgentBufferRuns
  import opened FlushResults
  import opened RecordFlow
  import Hedger
  import HedgeWaves
  import HedgerLimits

  function Partitions(ps: seq<Promise<RoutedEncoded>>): set<TopicPartition> {
    set p | p in ps :: p.item.tp
  }

  function Owners(ps: seq<Promise<RoutedEncoded>>): set<nat> {
    set p | p in ps :: p.owner
  }

  /** The partitions of which the batch holds an item of these callers, and not merely of others. */
  function CarriedFor(batch: seq<Promise<RoutedEncoded>>, owners: set<nat>): set<TopicPartition> {
    set p | p in batch && p.owner in owners :: p.item.tp
  }

  lemma {:induction false} EncodedChunks(items: seq<Promise<RoutedEncoded>>)
    ensures AllChunks(EncodedKind(), items) == items
  {
    if items != [] {
      EncodedChunks(items[1..]);
      assert [items[0]] + items[1..] == items;
    }
  }

  // ---- An entry is in one batch only ----

  lemma {:induction false} CountedOnce<W>(ps: seq<Promise<W>>, o: nat)
    requires forall i, j :: 0 <= i < j < |ps| ==> ps[i].owner != ps[j].owner
    ensures Count(ps, o) <= 1
  {
    if ps != [] {
      CountedOnce(ps[1..], o);
      if ps[0].owner == o && Count(ps[1..], o) > 0 {
        var q := CountedSome(ps[1..], o);
      }
    }
  }

  lemma {:induction false} CountedSome<W>(ps: seq<Promise<W>>, o: nat) returns (p: Promise<W>)
    requires Count(ps, o) > 0
    ensures p in ps && p.owner == o
  {
    if ps[0].owner == o {
      p := ps[0];
    } else {
      p := CountedSome(ps[1..], o);
    }
  }

  lemma {:induction false} FlushedCounts<W>(fs: seq<Flush<W>>, i: nat, o: nat)
    requires i < |fs|
    ensures Count(Flushed(fs), o) >= Count(fs[i].entries, o)
    ensures forall j :: i < j < |fs| ==> Count(Flushed(fs), o) >= Count(fs[i].entries, o) + Count(fs[j].entries, o)
    decreases |fs|
  {
    hide Count;
    var n := |fs| - 1;
    CountAppend(Flushed(fs[..n]), fs[n].entries, o);
    if i < n {
      FlushedCounts(fs[..n], i, o);
      forall j | i < j < |fs|
        ensures Count(Flushed(fs), o) >= Count(fs[i].entries, o) + Count(fs[j].entries, o)
      {
        assert j < n ==> fs[..n][j] == fs[j];
      }
    }
  }

  /** With callers told apart, an entry found in a flush is in no other batch. */
  lemma OneBatchOnly<W>(c: Core<W>, p: Promise<W>, i: nat)
    requires i < |c.flushes| && p in c.flushes[i].entries
    requires forall a, b :: 0 <= a < b < |Trail(c)| ==> Trail(c)[a].owner != Trail(c)[b].owner
    ensures p !in c.items
    ensures forall j :: 0 <= j < |c.flushes| && j != i ==> p !in c.flushes[j].entries
  {
    hide Flushed, Count;
    CountedOnce(Trail(c), p.owner);
    CountAppend(Flushed(c.flushes), c.items, p.owner);
    NoneCounted(c.flushes[i].entries, p);
    FlushedCounts(c.flushes, i, p.owner);
    if p in c.items {
      NoneCounted(c.items, p);
    }
    forall j | 0 <= j < |c.flushes| && j != i
      ensures p !in c.flushes[j].entries
    {
      if p in c.flushes[j].entries {
        NoneCounted(c.flushes[j].entries, p);
        FlushedCounts(c.flushes, j, p.owner);
      }
    }
  }

  // ---- A leg in the buffer ----

  /** A leg's way through its agent's hedge buffer: what happened before, the submission, and
      what happened since. */
  datatype Journey = Journey(
    past: seq<Event<RoutedEncoded>>,
    before: World<RoutedEncoded>,
    leg: seq<Promise<RoutedEncoded>>,
    later: seq<Event<RoutedEncoded>>,
    end: World<RoutedEncoded>)

  ghost predicate Travels(cfg: Setup<RoutedEncoded>, j: Journey) {
    && cfg.kind == EncodedKind() && Run(cfg, InitialWorld<RoutedEncoded>(), j.past, j.before)
    && Enabled(cfg, j.before, SubmitItems(j.leg)) && TotalRecords(cfg.kind, j.leg) > 0
    && Run(cfg, Step(cfg, j.before, SubmitItems(j.leg)), j.later, j.end)
  }

  predicate Fits(cfg: Setup<RoutedEncoded>, j: Journey) {
    FitsTogether(cfg.kind, cfg.cap, j.before.core, j.leg)
  }

  lemma {:induction false} RunsCompose<W>(cfg: Setup<W>, w: World<W>, first: seq<Event<W>>, mid: World<W>, second: seq<Event<W>>, end: World<W>)
    requires Run(cfg, w, first, mid) && Run(cfg, mid, second, end)
    ensures Run(cfg, w, first + second, end)
    decreases |first|
  {
    hide Enabled, Step;
    if first == [] {
      assert first + second == second;
    } else {
      assert (first + second)[1..] == first[1..] + second;
      RunsCompose(cfg, Step(cfg, w, first[0]), first[1..], mid, second, end);
    }
  }

  lemma JourneyIsARun(cfg: Setup<RoutedEncoded>, j: Journey)
    requires Travels(cfg, j)
    ensures Run(cfg, InitialWorld<RoutedEncoded>(), j.past + ([SubmitItems(j.leg)] + j.later), j.end)
  {
    hide Enabled, Step, TotalRecords;
    var tail := [SubmitItems(j.leg)] + j.later;
    assert tail[1..] == j.later;
    assert Run(cfg, j.before, tail, j.end);
    RunsCompose(cfg, InitialWorld<RoutedEncoded>(), j.past, j.before, tail, j.end);
  }

  /** A fitting leg is found whole wherever any of it is found: when a flush holds one item of the
      leg it holds them all, so what it carries for the leg is exactly the leg's partitions. */
  lemma LegRidesInOneFlush(cfg: Setup<RoutedEncoded>, j: Journey, i: nat, p: Promise<RoutedEncoded>)
    requires Travels(cfg, j) && !j.before.core.closed && Fits(cfg, j)
    requires i < |j.end.core.flushes| && p in j.leg && p in j.end.core.flushes[i].entries
    ensures forall q :: q in j.leg ==> q in j.end.core.flushes[i].entries
    ensures Partitions(j.leg) <= CarriedFor(j.end.core.flushes[i].entries, Owners(j.leg))
  {
    hide Run, Inv, Enabled, Step, TotalRecords, Within, FitsTogether, Sourced;
    ReachableIsSourced(cfg, j.past, j.before);
    EncodedChunks(j.leg);
    FittingGroupSharesOneFlush(cfg, j.before, j.leg, j.later, j.end);
    TrailApart(cfg, j);
    OneBatchOnly(j.end.core, p, i);
    if Within(j.end.core.items, j.leg) {
      WithinHolds(j.end.core.items, j.leg);
    } else {
      var n :| 0 <= n < |j.end.core.flushes| && Within(j.end.core.flushes[n].entries, j.leg);
      WithinHolds(j.end.core.flushes[n].entries, j.leg);
    }
  }

  lemma WithinHolds(ps: seq<Promise<RoutedEncoded>>, group: seq<Promise<RoutedEncoded>>)
    requires Within(ps, group)
    ensures forall q :: q in group ==> q in ps
  {
    var n :| SitsAt(ps, n, group);
    forall q | q in group
      ensures q in ps
    {
      assert q in ps[n..n + |group|];
    }
  }

  lemma TrailApart(cfg: Setup<RoutedEncoded>, j: Journey)
    requires Travels(cfg, j)
    ensures var t := Trail(j.end.core); forall a, b :: 0 <= a < b < |t| ==> t[a].owner != t[b].owner
  {
    hide Run, Enabled, Step, TotalRecords;
    JourneyIsARun(cfg, j);
    ReachableIsSourced(cfg, j.past + ([SubmitItems(j.leg)] + j.later), j.end);
    EncodedChunks(j.end.submitted);
  }

  // ---- Exactly the fitting legs stay whole ----

  /** A leg names no partition twice. */
  ghost predicate DistinctPartitions(leg: seq<Promise<RoutedEncoded>>) {
    forall a, b :: 0 <= a < b < |leg| ==> leg[a].item.tp != leg[b].item.tp
  }

  /** Whichever flush holds any of the leg carries all of its partitions for it. */
  ghost predicate Whole(j: Journey) {
    forall i, p :: 0 <= i < |j.end.core.flushes| && p in j.leg && p in j.end.core.flushes[i].entries ==>
      Partitions(j.leg) <= CarriedFor(j.end.core.flushes[i].entries, Owners(j.leg))
  }

  lemma {:induction false} LastIsPending<W>(k: Kind<W>, cap: nat, c: Core<W>, ps: seq<Promise<W>>)
    requires ps != []
    ensures var items := AddMany(k, cap, c, ps).items; items != [] && items[|items| - 1] == ps[|ps| - 1]
    decreases |ps|
  {
    if |ps| > 1 {
      LastIsPending(k, cap, AddOne(k, cap, c, ps[0]), ps[1..]);
    } else {
      assert ps[1..] == [];
    }
  }

  lemma {:induction false} EntryIsFlushed<W>(fs: seq<Flush<W>>, i: nat, p: Promise<W>)
    requires i < |fs| && p in fs[i].entries
    ensures p in Flushed(fs)
  {
    if i < |fs| - 1 {
      EntryIsFlushed(fs[..|fs| - 1], i, p);
    }
  }

  /** A group that does not ride together leaves its first item in a flush. */
  lemma CutLeavesFirst<W>(k: Kind<W>, cap: nat, c: Core<W>, group: seq<Promise<W>>)
    requires group != [] && !RidesTogether(k, cap, c, group)
    ensures group[0] in Flushed(AddMany(k, cap, c, group).flushes)
  {
    hide AddMany, Flushed;
    var c' := AddMany(k, cap, c, group);
    var f, t := Flushed(c'.flushes), Trail(c) + group;
    AddManyTrail(k, cap, c, group);
    assert f + c'.items == t;
    var n := |Trail(c)|;
    assert t[n..] == group;
    if |f| > n {
      assert (f + c'.items)[n] == f[n];
    }
  }

  lemma LastIsNotCarried(c: Core<RoutedEncoded>, leg: seq<Promise<RoutedEncoded>>, i: nat)
    requires leg != [] && DistinctPartitions(leg) && i < |c.flushes| && leg[|leg| - 1] in c.items
    requires forall a, b :: 0 <= a < b < |Trail(c)| ==> Trail(c)[a].owner != Trail(c)[b].owner
    requires forall p :: p in leg ==> p in Trail(c)
    ensures leg[|leg| - 1].item.tp !in CarriedFor(c.flushes[i].entries, Owners(leg))
  {
    hide Flushed;
    var last := leg[|leg| - 1];
    forall q | q in c.flushes[i].entries && q.owner in Owners(leg)
      ensures q.item.tp != last.item.tp
    {
      EntryIsFlushed(c.flushes, i, q);
      var l :| l in leg && l.owner == q.owner;
      SameEntry(Trail(c), q, l);
      OneBatchOnly(c, q, i);
      var a :| 0 <= a < |leg| && leg[a] == l;
    }
  }

  lemma SameEntry<W>(ps: seq<Promise<W>>, p: Promise<W>, q: Promise<W>)
    requires p in ps && q in ps && p.owner == q.owner
    requires forall a, b :: 0 <= a < b < |ps| ==> ps[a].owner != ps[b].owner
    ensures p == q
  {
    var a :| 0 <= a < |ps| && ps[a] == p;
    var b :| 0 <= b < |ps| && ps[b] == q;
    assert a == b;
  }

  /** Right after its submission to an open buffer, a leg that does not fit is cut. */
  lemma UnfittingLegIsCut(cfg: Setup<RoutedEncoded>, j: Journey)
    requires Travels(cfg, j) && j.later == [] && !j.before.core.closed && DistinctPartitions(j.leg) && !Fits(cfg, j)
    ensures !Whole(j)
  {
    hide Run, Inv, Sourced, AddMany, RidesTogether, FitsTogether, DistinctPartitions;
    ReachableIsSourced(cfg, j.past, j.before);
    SubmittedCore(cfg, j);
    var core := AddMany(cfg.kind, cfg.cap, j.before.core, j.leg);
    TrailApart(cfg, j);
    EveryItemCounts(cfg, j.before, j.leg);
    RidesTogetherExactlyWhenItFits(cfg.kind, cfg.cap, j.before.core, j.leg);
    SmallLegFits(cfg, j.before.core, j.leg);
    CutLeavesFirst(cfg.kind, cfg.cap, j.before.core, j.leg);
    LastIsPending(cfg.kind, cfg.cap, j.before.core, j.leg);
    AddManyTrail(cfg.kind, cfg.cap, j.before.core, j.leg);
    assert Trail(j.end.core) == Trail(core);
    var i, k := FlushOf(j.end.core.flushes, j.leg[0]);
    assert j.leg[0] in j.leg && j.leg[0] in j.end.core.flushes[i].entries;
    var last := j.leg[|j.leg| - 1];
    LastIsNotCarried(j.end.core, j.leg, i);
    assert last in j.leg && last.item.tp in Partitions(j.leg);
  }

  lemma SmallLegFits(cfg: Setup<RoutedEncoded>, c: Core<RoutedEncoded>, leg: seq<Promise<RoutedEncoded>>)
    ensures !FitsTogether(cfg.kind, cfg.cap, c, leg) ==> leg != []
  {
  }

  lemma EveryItemCounts(cfg: Setup<RoutedEncoded>, w: World<RoutedEncoded>, leg: seq<Promise<RoutedEncoded>>)
    requires cfg.kind == EncodedKind() && Enabled(cfg, w, SubmitItems(leg)) && TotalRecords(cfg.kind, leg) > 0 && Inv(cfg, w)
    ensures Consistent(cfg.kind, cfg.cap, w.core)
    ensures forall p :: p in leg ==> cfg.kind.count(p.item) > 0
  {
    hide Consistent, TotalRecords;
    EncodedChunks(leg);
  }

  lemma SubmittedCore(cfg: Setup<RoutedEncoded>, j: Journey)
    requires Travels(cfg, j) && j.later == [] && !j.before.core.closed
    ensures j.end.core == ArmTimer(AddMany(cfg.kind, cfg.cap, j.before.core, j.leg))
  {
    hide AddMany, TotalRecords;
    EncodedChunks(j.leg);
  }

  ghost predicate AlwaysWhole(cfg: Setup<RoutedEncoded>, past: seq<Event<RoutedEncoded>>, before: World<RoutedEncoded>, leg: seq<Promise<RoutedEncoded>>) {
    forall later, end :: Travels(cfg, Journey(past, before, leg, later, end)) ==> Whole(Journey(past, before, leg, later, end))
  }

  /** For every open hedge buffer and every leg: whatever happens afterwards the flush that reports
      carries the leg's whole group, if and only if the leg fits when it is submitted. */
  lemma LegIsWholeExactlyWhenItFits(cfg: Setup<RoutedEncoded>, past: seq<Event<RoutedEncoded>>, before: World<RoutedEncoded>,
                                    leg: seq<Promise<RoutedEncoded>>)
    requires cfg.kind == EncodedKind() && Run(cfg, InitialWorld<RoutedEncoded>(), past, before) && !before.core.closed
    requires Enabled(cfg, before, SubmitItems(leg)) && TotalRecords(cfg.kind, leg) > 0 && DistinctPartitions(leg)
    ensures AlwaysWhole(cfg, past, before, leg) <==> FitsTogether(cfg.kind, cfg.cap, before.core, leg)
  {
    hide Run, Enabled, Step, TotalRecords, FitsTogether, DistinctPartitions;
    if FitsTogether(cfg.kind, cfg.cap, before.core, leg) {
      forall later, end | Travels(cfg, Journey(past, before, leg, later, end))
        ensures Whole(Journey(past, before, leg, later, end))
      {
        var j := Journey(past, before, leg, later, end);
        forall i, p | 0 <= i < |end.core.flushes| && p in leg && p in end.core.flushes[i].entries
          ensures Partitions(leg) <= CarriedFor(end.core.flushes[i].entries, Owners(leg))
        {
          LegRidesInOneFlush(cfg, j, i, p);
        }
      }
    } else {
      var j := Journey(past, before, leg, [], Step(cfg, before, SubmitItems(leg)));
      NoMoreEvents(cfg, j.end);
      UnfittingLegIsCut(cfg, j);
    }
  }

  lemma NoMoreEvents(cfg: Setup<RoutedEncoded>, w: World<RoutedEncoded>)
    ensures Run(cfg, w, [], w)
  {
  }

  // ---- What the race hears of a leg ----

  /** The leg's completion was called with raw, by flush i, which carried these partitions for it. */
  ghost predicate Delivers(cfg: Setup<RoutedEncoded>, j: Journey, i: nat, group: set<TopicPartition>, carried: set<TopicPartition>, raw: ProduceResult) {
    && Travels(cfg, j) && Partitions(j.leg) == group
    && i < |j.end.core.flushes| && j.end.core.flushes[i].result == Some(raw)
    && carried == CarriedFor(j.end.core.flushes[i].entries, Owners(j.leg))
    && exists p :: p in j.leg && p in j.end.core.flushes[i].entries && (p.owner, raw) in j.end.fired
  }

  /** A leg that a step reports with a response came through the buffer, which was open and had room
      for it as a whole; a cancelled or rejected leg has no response. */
  ghost predicate ThroughBuffer(cfg: Setup<RoutedEncoded>, s: Hedger.State, step: Hedger.Step) {
    (step.LegReports? && s.cascade.InWave? && step.agent in s.cascade.groups && step.raw.resp.Some?) ==>
      exists j: Journey, i: nat :: Delivers(cfg, j, i, s.cascade.groups[step.agent], step.carried, step.raw) && !j.before.core.closed && Fits(cfg, j)
  }

  lemma ThroughBufferIsOneFlush(cfg: Setup<RoutedEncoded>, s: Hedger.State, step: Hedger.Step)
    requires ThroughBuffer(cfg, s, step)
    ensures Hedger.OneFlush(s, step)
  {
    hide Travels, Fits;
    if step.LegReports? && s.cascade.InWave? && step.agent in s.cascade.groups && step.raw.resp.Some? {
      var j: Journey, i: nat :| Delivers(cfg, j, i, s.cascade.groups[step.agent], step.carried, step.raw) && !j.before.core.closed && Fits(cfg, j);
      var p :| p in j.leg && p in j.end.core.flushes[i].entries && (p.owner, step.raw) in j.end.fired;
      LegRidesInOneFlush(cfg, j, i, p);
    }
  }

  ghost predicate EveryLegThroughBuffer(cfg: Setup<RoutedEncoded>, race: HedgeWaves.Config, s: Hedger.State, steps: seq<Hedger.Step>)
    decreases |steps|
  {
    (steps != [] && Hedger.Enabled(race, s, steps[0])) ==>
      ThroughBuffer(cfg, s, steps[0]) && EveryLegThroughBuffer(cfg, race, Hedger.Next(race, s, steps[0]), steps[1..])
  }

  lemma {:induction false} LegsRideInOneFlush(cfg: Setup<RoutedEncoded>, race: HedgeWaves.Config, s: Hedger.State, steps: seq<Hedger.Step>)
    requires EveryLegThroughBuffer(cfg, race, s, steps)
    ensures Hedger.EveryLegInOneFlush(race, s, steps)
    decreases |steps|
  {
    hide ThroughBuffer, Hedger.OneFlush, Hedger.Enabled, Hedger.Next;
    if steps != [] && Hedger.Enabled(race, s, steps[0]) {
      ThroughBufferIsOneFlush(cfg, s, steps[0]);
      LegsRideInOneFlush(cfg, race, Hedger.Next(race, s, steps[0]), steps[1..]);
    }
  }

  /** The race on top of the buffer: in every run whose legs fit the hedge buffer when they are
      submitted, a partition reported without an error was acknowledged by an attempt that
      carried it. */
  lemma FittingLegsAreNeverFalselyAcknowledged(cfg: Setup<RoutedEncoded>, race: HedgeWaves.Config, steps: seq<Hedger.Step>,
                                               end: Hedger.State, tp: TopicPartition)
    requires race.Valid() && Hedger.Run(race, Hedger.Init(race), steps, end)
    requires EveryLegThroughBuffer(cfg, race, Hedger.Init(race), steps)
    requires end.caller.Returned? && tp in race.parts
    ensures RecordErr(race.classify, end.caller.result, tp).None? ==> Hedger.Backed(end.log, tp)
  {
    hide *;
    LegsRideInOneFlush(cfg, race, Hedger.Init(race), steps);
    Hedger.NoFalseAcknowledgement(race, steps, end, tp);
  }

  // ---- A leg that does not fit ----

  function ItemFor(e: EncodedBatch, tp: TopicPartition): RoutedEncoded {
    RoutedEncoded(tp, 2, e)
  }

  // Caller 0 already waits with an item for Q when the leg of callers 1 and 2 arrives at a buffer
  // with room for two such items.
  function Other(e: EncodedBatch): Promise<RoutedEncoded> {
    Promise(0, ItemFor(e, HedgerLimits.Q))
  }

  function LegP(e: EncodedBatch): Promise<RoutedEncoded> {
    Promise(1, ItemFor(e, HedgerLimits.P))
  }

  function LegQ(e: EncodedBatch): Promise<RoutedEncoded> {
    Promise(2, ItemFor(e, HedgerLimits.Q))
  }

  function TightBuffer(c: Classifier, e: EncodedBatch): Setup<RoutedEncoded> {
    Setup(EncodedKind(), 2 * EncodedWireBytes(e), c)
  }

  /** The overflow falls between the leg's two items. */
  lemma OverflowCut(c: Classifier, e: EncodedBatch)
    requires e.records > 0
    ensures var (k, cap, n, w) := (EncodedKind(), TightBuffer(c, e).cap, e.records, EncodedWireBytes(e));
            && AddMany(k, cap, Core([], 0, 0, false, false, []), [Other(e)]) == Core([Other(e)], n, w, false, false, [])
            && AddMany(k, cap, Core([Other(e)], n, w, true, false, []), [LegP(e), LegQ(e)])
                 == Core([LegQ(e)], n, w, false, false, [Flush([Other(e), LegP(e)], None, 0)])
            && TotalRecords(k, [Other(e)]) == n && TotalRecords(k, [LegP(e), LegQ(e)]) == 2 * n
            && !FitsTogether(k, cap, Core([Other(e)], n, w, true, false, []), [LegP(e), LegQ(e)])
  {
    var k, cap, n, w := EncodedKind(), 2 * EncodedWireBytes(e), e.records, EncodedWireBytes(e);
    var leg := [LegP(e), LegQ(e)];
    assert [Other(e)][1..] == [] && leg[1..] == [LegQ(e)] && leg[1..][1..] == [];
    assert [] + [Other(e)] == [Other(e)];
    var c0 := Core([Other(e)], n, w, true, false, []);
    var c1 := AddOne(k, cap, c0, LegP(e));
    assert [Other(e)] + [LegP(e)] == [Other(e), LegP(e)];
    assert c1 == Core([Other(e), LegP(e)], 2 * n, 2 * w, true, false, []);
    var c2 := AddOne(k, cap, c1, LegQ(e));
    assert [] + [LegQ(e)] == [LegQ(e)];
    assert [] + [Flush([Other(e), LegP(e)], None, 0)] == [Flush([Other(e), LegP(e)], None, 0)];
    assert AddMany(k, cap, c1, leg[1..]) == AddMany(k, cap, c2, []);
    assert TotalWire(k, leg[1..]) == w + TotalWire(k, []);
    assert TotalRecords(k, leg[1..]) == n + TotalRecords(k, []);
  }

  function Cut(e: EncodedBatch, result: Option<ProduceResult>, reported: nat): Core<RoutedEncoded> {
    Core([LegQ(e)], e.records, EncodedWireBytes(e), true, false, [Flush([Other(e), LegP(e)], result, reported)])
  }

  function FanFor(p: Promise<RoutedEncoded>, results: seq<ProduceResult>): Fan {
    Fan(p.item.tp, 1, results)
  }

  function WaitingWorld(e: EncodedBatch): World<RoutedEncoded> {
    World(Core([Other(e)], e.records, EncodedWireBytes(e), true, false, []), [], map[0 := FanFor(Other(e), [])], [], [Other(e)])
  }

  function CutWorld(e: EncodedBatch, result: Option<ProduceResult>, reported: nat, heard0: seq<ProduceResult>, heard1: seq<ProduceResult>,
                    fired: seq<(nat, ProduceResult)>): World<RoutedEncoded> {
    World(Cut(e, result, reported), [],
          map[0 := FanFor(Other(e), heard0), 1 := FanFor(LegP(e), heard1), 2 := FanFor(LegQ(e), [])],
          fired, [Other(e), LegP(e), LegQ(e)])
  }

  lemma OtherWaits(c: Classifier, e: EncodedBatch)
    requires e.records > 0
    ensures var cfg, w0 := TightBuffer(c, e), InitialWorld<RoutedEncoded>();
            Enabled(cfg, w0, SubmitItems([Other(e)])) && Step(cfg, w0, SubmitItems([Other(e)])) == WaitingWorld(e)
  {
    hide AddMany, TotalRecords, AllChunks, FitsTogether;
    OverflowCut(c, e);
    EncodedChunks([Other(e)]);
    assert [Other(e)][1..] == [];
    assert [] + [Other(e)] == [Other(e)];
    assert AddFans(EncodedKind(), map[], [Other(e)]) == map[0 := FanFor(Other(e), [])];
  }

  lemma LegIsCut(c: Classifier, e: EncodedBatch)
    requires e.records > 0
    ensures var cfg, leg := TightBuffer(c, e), SubmitItems([LegP(e), LegQ(e)]);
            Enabled(cfg, WaitingWorld(e), leg) && Step(cfg, WaitingWorld(e), leg) == CutWorld(e, None, 0, [], [], [])
  {
    hide AddMany, TotalRecords, AllChunks, FitsTogether;
    OverflowCut(c, e);
    var leg := [LegP(e), LegQ(e)];
    EncodedChunks(leg);
    assert leg[1..] == [LegQ(e)] && leg[1..][1..] == [];
    assert [Other(e)] + leg == [Other(e), LegP(e), LegQ(e)];
    var fans := map[0 := FanFor(Other(e), [])];
    var fans1 := fans[1 := FanFor(LegP(e), [])];
    assert AddFans(EncodedKind(), fans, leg) == AddFans(EncodedKind(), fans1, [LegQ(e)]) == fans1[2 := FanFor(LegQ(e), [])];
  }

  lemma CutIsProduced(c: Classifier, e: EncodedBatch, b: ProduceResult)
    ensures var cfg, w := TightBuffer(c, e), CutWorld(e, None, 0, [], [], []);
            Enabled(cfg, w, Produced(0, b)) && Step(cfg, w, Produced(0, b)) == CutWorld(e, Some(b), 0, [], [], [])
  {
  }

  lemma OtherHears(c: Classifier, e: EncodedBatch, b: ProduceResult)
    ensures var cfg, w := TightBuffer(c, e), CutWorld(e, Some(b), 0, [], [], []);
            Enabled(cfg, w, Report(0)) && Step(cfg, w, Report(0)) == CutWorld(e, Some(b), 1, [b], [], [(0, b)])
  {
    hide Failed;
    assert [] + [b] == [b] && [] + [(0, b)] == [(0, b)];
  }

  lemma LegHears(c: Classifier, e: EncodedBatch, b: ProduceResult)
    ensures var cfg, w := TightBuffer(c, e), CutWorld(e, Some(b), 1, [b], [], [(0, b)]);
            Enabled(cfg, w, Report(0)) && Step(cfg, w, Report(0)) == CutWorld(e, Some(b), 2, [b], [b], [(0, b), (1, b)])
  {
    hide Failed;
    assert [] + [b] == [b] && [(0, b)] + [(1, b)] == [(0, b), (1, b)];
  }

  /** The cut flush answers the other caller's Q and the leg's P, and calls their completions. */
  lemma CutIsReported(c: Classifier, e: EncodedBatch, b: ProduceResult)
    ensures Run(TightBuffer(c, e), CutWorld(e, None, 0, [], [], []), [Produced(0, b), Report(0), Report(0)],
                CutWorld(e, Some(b), 2, [b], [b], [(0, b), (1, b)]))
  {
    hide Enabled, Step, CutWorld, TightBuffer;
    CutIsProduced(c, e, b);
    OtherHears(c, e, b);
    LegHears(c, e, b);
    RunOfThree(TightBuffer(c, e), CutWorld(e, None, 0, [], [], []), Produced(0, b), Report(0), Report(0));
  }

  lemma RunOfThree(cfg: Setup<RoutedEncoded>, w: World<RoutedEncoded>, a: Event<RoutedEncoded>, b: Event<RoutedEncoded>, c: Event<RoutedEncoded>)
    requires Enabled(cfg, w, a) && Enabled(cfg, Step(cfg, w, a), b) && Enabled(cfg, Step(cfg, Step(cfg, w, a), b), c)
    ensures Run(cfg, w, [a, b, c], Step(cfg, Step(cfg, Step(cfg, w, a), b), c))
  {
    hide Enabled, Step;
    assert [a, b, c][1..] == [b, c] && [b, c][1..] == [c] && [c][1..] == [];
    var w1 := Step(cfg, w, a);
    var w2 := Step(cfg, w1, b);
    var w3 := Step(cfg, w2, c);
    assert Run(cfg, w3, [], w3);
    assert Run(cfg, w2, [c], w3);
    assert Run(cfg, w1, [b, c], w3);
  }

  function CutJourney(e: EncodedBatch): Journey {
    var b := HedgerLimits.BOTH_WRITTEN;
    Journey([SubmitItems([Other(e)])], WaitingWorld(e), [LegP(e), LegQ(e)], [Produced(0, b), Report(0), Report(0)],
            CutWorld(e, Some(b), 2, [b], [b], [(0, b), (1, b)]))
  }

  /** The buffer really produces such a report: the leg is told that both partitions were written
      by a flush that carried only its P, the Q in it being another caller's. */
  lemma OverflowSplitsTheLeg(c: Classifier, e: EncodedBatch)
    requires e.records > 0
    ensures var cfg, j := TightBuffer(c, e), CutJourney(e);
            && !Fits(cfg, j)
            && Delivers(cfg, j, 0, {HedgerLimits.P, HedgerLimits.Q}, {HedgerLimits.P}, HedgerLimits.BOTH_WRITTEN)
  {
    hide Enabled, Step, AddMany, TotalRecords, FitsTogether;
    var cfg, j := TightBuffer(c, e), CutJourney(e);
    OverflowCut(c, e);
    OtherWaits(c, e);
    LegIsCut(c, e);
    CutIsReported(c, e, HedgerLimits.BOTH_WRITTEN);
    assert j.past[1..] == [];
    assert Run(cfg, WaitingWorld(e), [], WaitingWorld(e));
    var p := LegP(e);
    assert p in j.leg && p in j.end.core.flushes[0].entries;
    assert (p.owner, HedgerLimits.BOTH_WRITTEN) == j.end.fired[1];
    assert Owners(j.leg) == {1, 2};
    assert CarriedFor([Other(e), p], {1, 2}) == {HedgerLimits.P};
    assert Partitions(j.leg) == {HedgerLimits.P, HedgerLimits.Q};
  }

  /** And the race believes it: a run whose one leg report is that delivery returns Q without an
      error, although no attempt that carried Q was answered with code 0 for it. */
  lemma OverflowFalselyAcknowledges(c: Classifier, e: EncodedBatch) returns (steps: seq<Hedger.Step>, end: Hedger.State)
    requires e.records > 0
    ensures var race, b := HedgerLimits.TwoPartitions(c), HedgerLimits.BOTH_WRITTEN;
            && Hedger.Run(race, Hedger.Init(race), steps, end) && end.caller.Returned?
            && (forall s :: s in steps && s.LegReports? ==>
                  s.agent == 2 && Delivers(TightBuffer(c, e), CutJourney(e), 0, {HedgerLimits.P, HedgerLimits.Q}, s.carried, s.raw))
            && RecordErr(c, end.caller.result, HedgerLimits.Q).None? && !Hedger.Backed(end.log, HedgerLimits.Q)
  {
    hide *;
    OverflowSplitsTheLeg(c, e);
    steps, end := HedgerLimits.SplitGroupFalselyAcknowledges(c);
  }
}
