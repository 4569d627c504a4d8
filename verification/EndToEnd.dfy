/** From a caller's records to an agent's acknowledgement: the main buffer, whose flushes are
    produced by the hedge race, whose legs go through the hedge buffer. */
module EndToEnd {
  import opened Basics
  import opened ProduceResults
  import opened RecordBatches
  import opened RoutedBatches
  import opened AgentBuffers
  import opened AgentBufferRuns
  import opened FlushResults
  import opened RecordFlow
  import opened HedgeFlushes
  import opened ClusterRuns
  import Hedger
  import HedgeWaves

  /** The race that produced one flush. */
  datatype Race = Race(cfg: HedgeWaves.Config, steps: seq<Hedger.Step>, end: Hedger.State)

  function FlushedPartitions(f: Flush<Routed>): set<TopicPartition> {
    set p | p in f.entries :: p.item.tp
  }

  /** The flush sent its partitions through the race and was answered with the race's result. */
  ghost predicate ProducedBy(hedge: Setup<RoutedEncoded>, classify: Classifier, f: Flush<Routed>, race: Race) {
    && race.cfg.Valid() && race.cfg.classify == classify && Elements(race.cfg.parts) == FlushedPartitions(f)
    && Hedger.Run(race.cfg, Hedger.Init(race.cfg), race.steps, race.end)
    && EveryLegThroughBuffer(hedge, race.cfg, Hedger.Init(race.cfg), race.steps)
    && race.end.caller.Returned? && f.result == Some(race.end.caller.result)
  }

  lemma {:induction false} ChunkIsAmongAll<W>(k: Kind<W>, items: seq<Promise<W>>, p: Promise<W>, c: Promise<W>)
    requires p in items && c in ChunksOf(k, p)
    ensures c in AllChunks(k, items)
  {
    if items[0] != p {
      assert p in items[1..];
      ChunkIsAmongAll(k, items[1..], p, c);
    }
  }

  lemma ChunkKeepsPartition(cap: nat, p: Promise<Routed>, c: Promise<Routed>)
    requires c in ChunksOf(RecordKind(cap), p)
    ensures c.owner == p.owner && c.item.tp == p.item.tp
  {
    hide BatchEstimate;
  }

  /** Over every run of the cluster buffer, every race behind its flushes and every journey of their
      legs: when a caller is told that its partition had no error, each chunk of its records rode
      in a flush of which some attempt, the primary or a hedge leg, carried that partition and was
      answered with code 0 for it. Assumes that the legs fit the hedge buffer. */
  lemma AcknowledgedRecordsWereWritten(cap: nat, classify: Classifier, hedge: Setup<RoutedEncoded>,
                                       acts: seq<Act<Routed>>, end: Cluster<Routed>, agent: int, races: seq<Race>,
                                       caller: Promise<Routed>, chunk: Promise<Routed>, res: ProduceResult)
    returns (i: nat)
    requires Runs(Setup(RecordKind(cap), cap, classify), InitialCluster<Routed>(), acts, end)
    requires caller.owner < |end.items.items| && res in end.items.items[caller.owner].calls
    requires RecordErr(classify, res, caller.item.tp).None?
    requires caller.owner in end.home && end.home[caller.owner] == agent && agent in end.agents
    requires caller in end.agents[agent].submitted && chunk in ChunksOf(RecordKind(cap), caller)
    requires |races| == |end.agents[agent].core.flushes|
    requires forall n :: 0 <= n < |races| && end.agents[agent].core.flushes[n].result.Some? ==>
               ProducedBy(hedge, classify, end.agents[agent].core.flushes[n], races[n])
    ensures i < |end.agents[agent].core.flushes| && chunk in end.agents[agent].core.flushes[i].entries
    ensures Hedger.Backed(races[i].end.log, caller.item.tp)
  {
    hide Runs, ChunksOf, AllChunks, Inv, Sourced, Hedger.Run, Hedger.Init, EveryLegThroughBuffer, Hedger.Backed;
    var cfg := Setup(RecordKind(cap), cap, classify);
    CallersHearTheirFlush(cfg, acts, end, caller.owner);
    ReachableCluster(cfg, acts, end);
    var w := end.agents[agent];
    ChunkIsAmongAll(cfg.kind, w.submitted, caller, chunk);
    ChunkKeepsPartition(cap, caller, chunk);
    i := CompletedMeansEveryChunk(cfg, w, caller, chunk, res);
    var race := races[i];
    assert ProducedBy(hedge, classify, w.core.flushes[i], race);
    assert caller.item.tp in FlushedPartitions(w.core.flushes[i]);
    assert caller.item.tp in Elements(race.cfg.parts);
    FittingLegsAreNeverFalselyAcknowledged(hedge, race.cfg, race.steps, race.end, caller.item.tp);
  }
}
