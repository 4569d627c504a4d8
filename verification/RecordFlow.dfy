/** The two kinds of items the buffer carries, and what happens to their records: the main
    buffer holds record groups, the hedge buffer holds encoded batches. */
module RecordFlow {
  import opened Basics
  import opened RecordBatches
  import opened ProduceResults
  import opened RoutedBatches
  import opened AgentBuffers
  import opened AgentBufferRuns

  function RecordKind(cap: nat): Kind<Routed> {
    Kind((r: Routed) => |r.records|, (r: Routed) => BatchEstimate(r.records), (r: Routed) => Split(r, cap), (r: Routed) => r.tp)
  }

  /** An encoded batch is never split again, whatever its size. */
  datatype RoutedEncoded = RoutedEncoded(tp: TopicPartition, nodeID: int, batch: EncodedBatch)

  function EncodedKind(): Kind<RoutedEncoded> {
    Kind((e: RoutedEncoded) => e.batch.records, (e: RoutedEncoded) => EncodedWireBytes(e.batch), (e: RoutedEncoded) => [e], (e: RoutedEncoded) => e.tp)
  }

  /** Both kinds meet what a single Add assumes: a fitting item does not split. */
  lemma FittingItemsDoNotSplit(cap: nat, r: Routed, e: RoutedEncoded)
    ensures RecordKind(cap).wire(r) <= cap ==> |RecordKind(cap).split(r)| <= 1
    ensures |EncodedKind().split(e)| <= 1
  {
  }

  // ---- Records of one partition, in order ----

  function Items(ps: seq<Promise<Routed>>): seq<Routed> {
    if ps == [] then [] else [ps[0].item] + Items(ps[1..])
  }

  /** All records of one partition that the entries hold, in entry order. */
  function RecordsFor(ps: seq<Promise<Routed>>, tp: TopicPartition): seq<Record> {
    if ps == [] then []
    else (if ps[0].item.tp == tp then ps[0].item.records else []) + RecordsFor(ps[1..], tp)
  }

  lemma {:induction false} RecordsForAppend(a: seq<Promise<Routed>>, b: seq<Promise<Routed>>, tp: TopicPartition)
    ensures RecordsFor(a + b, tp) == RecordsFor(a, tp) + RecordsFor(b, tp)
  {
    if a == [] {
      assert a + b == b;
    } else {
      assert (a + b)[1..] == a[1..] + b;
      RecordsForAppend(a[1..], b, tp);
    }
  }

  /** The wire item a flush sends for a partition holds exactly those records. */
  lemma {:induction false} WireHoldsRecords(ps: seq<Promise<Routed>>, tp: TopicPartition)
    ensures RecordsOf(Project(Items(ps), tp)) == RecordsFor(ps, tp)
  {
    if ps != [] {
      WireHoldsRecords(ps[1..], tp);
      var rest := Project(Items(ps[1..]), tp);
      assert Items(ps)[1..] == Items(ps[1..]);
      assert ([ps[0].item] + rest)[1..] == rest;
    }
  }

  function Spread(owner: nat, r: Routed, chunks: seq<seq<Record>>): seq<Promise<Routed>> {
    if chunks == [] then [] else [Promise(owner, r.(records := chunks[0]))] + Spread(owner, r, chunks[1..])
  }

  lemma {:induction false} SpreadAt(owner: nat, r: Routed, chunks: seq<seq<Record>>)
    ensures |Spread(owner, r, chunks)| == |chunks|
    ensures forall i :: 0 <= i < |chunks| ==> Spread(owner, r, chunks)[i] == Promise(owner, r.(records := chunks[i]))
  {
    if chunks != [] {
      SpreadAt(owner, r, chunks[1..]);
    }
  }

  lemma {:induction false} SpreadRecords(owner: nat, r: Routed, chunks: seq<seq<Record>>, tp: TopicPartition)
    ensures RecordsFor(Spread(owner, r, chunks), tp) == if r.tp == tp then Flatten(chunks) else []
  {
    if chunks != [] {
      SpreadRecords(owner, r, chunks[1..], tp);
      assert Spread(owner, r, chunks)[1..] == Spread(owner, r, chunks[1..]);
    }
  }

  lemma SplitIsSpread(cap: nat, p: Promise<Routed>)
    ensures |Split(p.item, cap)| > 1 ==> ChunksOf(RecordKind(cap), p) == Spread(p.owner, p.item, SplitRecords(p.item.records, cap))
  {
    hide SplitRecords, Spread;
    SpreadAt(p.owner, p.item, SplitRecords(p.item.records, cap));
  }

  lemma SplitKeepsRecords(cap: nat, p: Promise<Routed>, tp: TopicPartition)
    ensures RecordsFor(ChunksOf(RecordKind(cap), p), tp) == RecordsFor([p], tp)
  {
    hide BatchEstimate, Spread, Chunks;
    assert [p][1..] == [];
    if |Split(p.item, cap)| > 1 {
      SplitIsSpread(cap, p);
      SplitCorrect(p.item.records, cap);
      SpreadRecords(p.owner, p.item, SplitRecords(p.item.records, cap), tp);
    }
  }

  lemma {:induction false} ChunksKeepRecords(cap: nat, items: seq<Promise<Routed>>, tp: TopicPartition)
    ensures RecordsFor(AllChunks(RecordKind(cap), items), tp) == RecordsFor(items, tp)
  {
    hide ChunksOf, RecordKind;
    if items != [] {
      SplitKeepsRecords(cap, items[0], tp);
      ChunksKeepRecords(cap, items[1..], tp);
      RecordsForAppend(ChunksOf(RecordKind(cap), items[0]), AllChunks(RecordKind(cap), items[1..]), tp);
      RecordsForAppend([items[0]], items[1..], tp);
      assert [items[0]] + items[1..] == items;
    }
  }

  /** Over every run, every record the buffer accepted for a partition is in exactly one place:
      walking the flushes from oldest to newest and then the pending batch yields the accepted
      records of that partition, each once and in arrival order. */
  lemma EveryRecordReachesOneFlush(cap: nat, classify: Classifier, events: seq<Event<Routed>>, end: World<Routed>, tp: TopicPartition)
    requires Run(Setup(RecordKind(cap), cap, classify), InitialWorld<Routed>(), events, end)
    ensures RecordsFor(Flushed(end.core.flushes), tp) + RecordsFor(end.core.items, tp) == RecordsFor(end.submitted, tp)
  {
    hide RecordKind, Run;
    ExactlyOnce(Setup(RecordKind(cap), cap, classify), events, end);
    RecordsForAppend(Flushed(end.core.flushes), end.core.items, tp);
    ChunksKeepRecords(cap, end.submitted, tp);
  }

  // ---- Chunks fit the cap ----

  /** The per-record gate of the client: no record is too large to be sent alone. */
  ghost predicate Gated(cap: nat, items: seq<Promise<Routed>>) {
    forall p :: p in items ==>
      p.item.records != [] && forall r :: r in p.item.records ==> SingleBatchEstimate(r) <= cap
  }

  lemma ChunksFitCap(cap: nat, p: Promise<Routed>, c: Promise<Routed>)
    requires p.item.records != [] && (forall r :: r in p.item.records ==> SingleBatchEstimate(r) <= cap)
    requires c in ChunksOf(RecordKind(cap), p)
    ensures c.item.records != [] && BatchEstimate(c.item.records) <= cap
  {
    hide BatchEstimate, SingleBatchEstimate;
    var chunks := SplitRecords(p.item.records, cap);
    SplitCorrect(p.item.records, cap);
    var parts := Split(p.item, cap);
    if |parts| <= 1 {
      assert Flatten(chunks) == chunks[0] by {
        assert chunks[1..] == [];
      }
      assert chunks[0] in chunks;
    } else {
      var i :| 0 <= i < |parts| && c == Promise(p.owner, parts[i]);
      assert chunks[i] in chunks;
    }
  }

  lemma {:induction false} AllChunksFitCap(cap: nat, items: seq<Promise<Routed>>)
    requires Gated(cap, items)
    ensures forall c :: c in AllChunks(RecordKind(cap), items) ==> c.item.records != [] && BatchEstimate(c.item.records) <= cap
  {
    hide ChunksOf, BatchEstimate, SingleBatchEstimate;
    if items != [] {
      assert items[0] in items;
      AllChunksFitCap(cap, items[1..]);
      forall c | c in ChunksOf(RecordKind(cap), items[0])
        ensures c.item.records != [] && BatchEstimate(c.item.records) <= cap
      {
        ChunksFitCap(cap, items[0], c);
      }
    }
  }

  /** When every accepted record passed the gate, the pending batch never exceeds the cap, and
      neither does any entry of any flush. */
  lemma GatedRecordsNeverOverflow(cap: nat, classify: Classifier, events: seq<Event<Routed>>, end: World<Routed>)
    requires Run(Setup(RecordKind(cap), cap, classify), InitialWorld<Routed>(), events, end)
    requires Gated(cap, end.submitted)
    ensures end.core.wire == TotalWire(RecordKind(cap), end.core.items) <= cap
    ensures forall p :: p in Flushed(end.core.flushes) ==> BatchEstimate(p.item.records) <= cap
  {
    hide Run, BatchEstimate, SingleBatchEstimate;
    ExactlyOnce(Setup(RecordKind(cap), cap, classify), events, end);
    AllChunksFitCap(cap, end.submitted);
    var all := AllChunks(RecordKind(cap), end.submitted);
    assert forall p :: p in end.core.items ==> p in Flushed(end.core.flushes) + end.core.items;
    assert forall p :: p in Flushed(end.core.flushes) ==> p in Flushed(end.core.flushes) + end.core.items;
  }
}
