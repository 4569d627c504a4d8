/** Splitting an oversized partition group into batches that fit, merging same-partition
    groups at flush time, and the fan-in that completes a split group once. */
module RoutedBatches {
  import opened Basics
  import opened RecordBatches
  import opened Wire
  import opened ProduceResults

  /** Records for one partition and the routing decision made for them. */
  datatype Routed = Routed(tp: TopicPartition, nodeID: int, nodeState: AgentState, records: seq<Record>)

  // ---- Splitting ----

  /** Fills a batch until the next record no longer fits, then starts another. */
  function Chunks(curr: seq<Record>, rest: seq<Record>, cap: nat): seq<seq<Record>>
    decreases |rest|
  {
    if rest == [] then [curr]
    else if BatchEstimate(curr + [rest[0]]) > cap then [curr] + Chunks([rest[0]], rest[1..], cap)
    else Chunks(curr + [rest[0]], rest[1..], cap)
  }

  function SplitRecords(records: seq<Record>, cap: nat): seq<seq<Record>> {
    if BatchEstimate(records) <= cap || records == [] then [records] else Chunks([records[0]], records[1..], cap)
  }

  function Split(p: Routed, cap: nat): seq<Routed> {
    var chunks := SplitRecords(p.records, cap);
    seq(|chunks|, i requires 0 <= i < |chunks| => p.(records := chunks[i]))
  }

  /** The loop keeps a running size instead of re-computing each candidate batch. */
  method SplitLoop(records: seq<Record>, cap: nat) returns (chunks: seq<seq<Record>>)
    requires BatchEstimate(records) > cap
    ensures chunks == SplitRecords(records, cap)
  {
    hide RecordEstimate, BatchEstimate, SingleBatchEstimate;
    NonEmpty(records, cap);
    chunks := [];
    var curr, currBytes, firstTs := [records[0]], BATCH_HEADER_BYTES + RecordEstimate(records[0], 0, 0), records[0].timestamp;
    SingleSize(records[0]);
    for i := 1 to |records|
      invariant curr != [] && firstTs == curr[0].timestamp && currBytes == BatchEstimate(curr)
      invariant chunks + Chunks(curr, records[i..], cap) == SplitRecords(records, cap)
    {
      var r := records[i];
      assert records[i..][0] == r && records[i..][1..] == records[i + 1..];
      BatchEstimateSnoc(curr, r);
      var cost := RecordEstimate(r, ToInt32(|curr|), ToInt64(r.timestamp - firstTs));
      if currBytes + cost > cap {
        assert (chunks + [curr]) + Chunks([r], records[i + 1..], cap) == chunks + ([curr] + Chunks([r], records[i + 1..], cap));
        chunks := chunks + [curr];
        firstTs := r.timestamp;
        curr := [r];
        currBytes := BATCH_HEADER_BYTES + RecordEstimate(r, 0, 0);
        SingleSize(r);
      } else {
        curr := curr + [r];
        currBytes := currBytes + cost;
      }
    }
    chunks := chunks + [curr];
  }

  lemma NonEmpty(records: seq<Record>, cap: nat)
    requires BatchEstimate(records) > cap
    ensures records != []
  {
  }

  lemma SingleSize(r: Record)
    ensures BatchEstimate([r]) == BATCH_HEADER_BYTES + RecordEstimate(r, 0, 0)
  {
    BatchEstimateSnoc([], r);
  }

  method SplitByMaxBytes(p: Routed, cap: nat) returns (out: seq<Routed>)
    ensures out == Split(p, cap)
  {
    var size := EstimateBatch(p.records);
    if size <= cap {
      return [p];
    }
    var chunks := SplitLoop(p.records, cap);
    out := seq(|chunks|, i requires 0 <= i < |chunks| => p.(records := chunks[i]));
  }

  lemma {:induction false} ChunksCorrect(curr: seq<Record>, rest: seq<Record>, cap: nat)
    requires curr != []
    ensures var cs := Chunks(curr, rest, cap);
            && cs != [] && curr <= cs[0] && Flatten(cs) == curr + rest
            && (forall c :: c in cs ==> c != [])
    decreases |rest|
  {
    hide BatchEstimate;
    if rest == [] {
      assert [curr][1..] == [] && curr + rest == curr;
    } else if BatchEstimate(curr + [rest[0]]) > cap {
      ChunksCorrect([rest[0]], rest[1..], cap);
      var tail := Chunks([rest[0]], rest[1..], cap);
      assert ([curr] + tail)[1..] == tail;
      assert [rest[0]] + rest[1..] == rest;
    } else {
      ChunksCorrect(curr + [rest[0]], rest[1..], cap);
      assert curr + [rest[0]] + rest[1..] == curr + rest;
    }
  }

  lemma {:induction false} ChunksFit(curr: seq<Record>, rest: seq<Record>, cap: nat)
    requires BatchEstimate(curr) <= cap
    requires forall r :: r in rest ==> SingleBatchEstimate(r) <= cap
    ensures forall c :: c in Chunks(curr, rest, cap) ==> BatchEstimate(c) <= cap
    decreases |rest|
  {
    hide BatchEstimate, SingleBatchEstimate;
    if rest != [] {
      if BatchEstimate(curr + [rest[0]]) > cap {
        SingleIsBatch(rest[0]);
        ChunksFit([rest[0]], rest[1..], cap);
      } else {
        ChunksFit(curr + [rest[0]], rest[1..], cap);
      }
    }
  }

  lemma SingleIsBatch(r: Record)
    ensures BatchEstimate([r]) == SingleBatchEstimate(r)
  {
    BatchEstimateSnoc([], r);
  }

  /** No chunk could have taken the first record of the next one. */
  ghost predicate Maximal(cs: seq<seq<Record>>, cap: nat) {
    forall i, j :: 0 <= i < j < |cs| && j == i + 1 ==> CannotTake(cs[i], cs[j], cap)
  }

  predicate CannotTake(c: seq<Record>, next: seq<Record>, cap: nat) {
    next != [] && BatchEstimate(c + [next[0]]) > cap
  }

  lemma MaximalCons(c: seq<Record>, tail: seq<seq<Record>>, cap: nat)
    requires Maximal(tail, cap) && tail != [] && CannotTake(c, tail[0], cap)
    ensures Maximal([c] + tail, cap)
  {
    hide CannotTake;
  }

  lemma {:induction false} ChunksAreMaximal(curr: seq<Record>, rest: seq<Record>, cap: nat)
    requires curr != []
    ensures Maximal(Chunks(curr, rest, cap), cap)
    decreases |rest|
  {
    hide BatchEstimate;
    if rest != [] {
      if BatchEstimate(curr + [rest[0]]) > cap {
        ChunksAreMaximal([rest[0]], rest[1..], cap);
        ChunksCorrect([rest[0]], rest[1..], cap);
        var tail := Chunks([rest[0]], rest[1..], cap);
        assert tail[0][0] == rest[0];
        MaximalCons(curr, tail, cap);
      } else {
        ChunksAreMaximal(curr + [rest[0]], rest[1..], cap);
      }
    }
  }

  /** Splitting keeps every record in order, makes no empty chunk, and splits no further than
      needed; and when every record alone fits the cap, so does every chunk. */
  lemma SplitCorrect(records: seq<Record>, cap: nat)
    requires records != []
    ensures var cs := SplitRecords(records, cap);
            && Flatten(cs) == records
            && (forall c :: c in cs ==> c != [])
            && Maximal(cs, cap)
    ensures (forall r :: r in records ==> SingleBatchEstimate(r) <= cap) ==>
              forall c :: c in SplitRecords(records, cap) ==> BatchEstimate(c) <= cap
  {
    hide BatchEstimate, SingleBatchEstimate;
    assert [records[0]] + records[1..] == records;
    if BatchEstimate(records) <= cap {
      assert [records][1..] == [];
    } else {
      ChunksCorrect([records[0]], records[1..], cap);
      ChunksAreMaximal([records[0]], records[1..], cap);
      if forall r :: r in records ==> SingleBatchEstimate(r) <= cap {
        SingleIsBatch(records[0]);
        ChunksFit([records[0]], records[1..], cap);
      }
    }
  }

  // ---- Merging at flush time ----

  /** The items of one partition, in arrival order. */
  function Project(items: seq<Routed>, tp: TopicPartition): seq<Routed> {
    if items == [] then []
    else if items[0].tp == tp then [items[0]] + Project(items[1..], tp)
    else Project(items[1..], tp)
  }

  function RecordsOf(items: seq<Routed>): seq<Record> {
    if items == [] then [] else items[0].records + RecordsOf(items[1..])
  }

  /** mergeWith: all records in arrival order, and the last contributor's state. */
  function MergeGroup(group: seq<Routed>): Routed
    requires group != []
  {
    Routed(group[0].tp, group[0].nodeID, group[|group| - 1].nodeState, RecordsOf(group))
  }

  /** Partitions in order of first appearance. */
  function FirstSeen(items: seq<Routed>): seq<TopicPartition> {
    if items == [] then []
    else
      var before := FirstSeen(items[..|items| - 1]);
      var tp := items[|items| - 1].tp;
      if tp in before then before else before + [tp]
  }

  lemma {:induction false} FirstSeenCorrect(items: seq<Routed>)
    ensures Distinct(FirstSeen(items))
    ensures forall tp :: tp in FirstSeen(items) <==> exists i :: 0 <= i < |items| && items[i].tp == tp
  {
    if items != [] {
      var n := |items| - 1;
      FirstSeenCorrect(items[..n]);
      forall tp
        ensures tp in FirstSeen(items) <==> exists i :: 0 <= i < |items| && items[i].tp == tp
      {
        if i :| 0 <= i < |items| && items[i].tp == tp {
          if i < n {
            assert items[..n][i].tp == tp;
          }
        }
      }
    }
  }

  lemma {:induction false} ProjectSnoc(items: seq<Routed>, p: Routed, tp: TopicPartition)
    ensures Project(items + [p], tp) == Project(items, tp) + if p.tp == tp then [p] else []
  {
    if items == [] {
      assert items + [p] == [p] && [p][1..] == [];
    } else {
      assert (items + [p])[1..] == items[1..] + [p];
      ProjectSnoc(items[1..], p, tp);
    }
  }

  lemma {:induction false} ProjectIsNonEmpty(items: seq<Routed>, tp: TopicPartition)
    ensures Project(items, tp) != [] <==> exists i :: 0 <= i < |items| && items[i].tp == tp
    ensures forall p :: p in Project(items, tp) ==> p in items && p.tp == tp
  {
    if items != [] {
      ProjectIsNonEmpty(items[1..], tp);
      if i :| 0 <= i < |items| && items[i].tp == tp {
        if i > 0 {
          assert items[1..][i - 1].tp == tp;
        }
      }
      if j :| 0 <= j < |items[1..]| && items[1..][j].tp == tp {
        assert items[j + 1].tp == tp;
      }
    }
  }

  ghost predicate Grouped(items: seq<Routed>, order: seq<TopicPartition>, groups: map<TopicPartition, seq<Routed>>) {
    && order == FirstSeen(items)
    && groups.Keys == Elements(order)
    && (forall tp :: tp in groups ==> groups[tp] == Project(items, tp) != [])
    && (forall tp :: tp !in groups ==> Project(items, tp) == [])
  }

  lemma GroupOne(items: seq<Routed>, p: Routed, order: seq<TopicPartition>, groups: map<TopicPartition, seq<Routed>>)
    requires Grouped(items, order, groups)
    ensures p.tp !in groups ==> Grouped(items + [p], order + [p.tp], groups[p.tp := [p]])
    ensures p.tp in groups ==> Grouped(items + [p], order, groups[p.tp := groups[p.tp] + [p]])
  {
    hide Project;
    var all := items + [p];
    assert all[..|all| - 1] == items;
    assert p.tp in order <==> p.tp in Elements(order);
    assert Elements(order + [p.tp]) == Elements(order) + {p.tp};
    forall tp
      ensures Project(all, tp) == Project(items, tp) + if p.tp == tp then [p] else []
    {
      ProjectSnoc(items, p, tp);
    }
  }

  /** The first loop: group by partition, remembering the order partitions were first seen. */
  method GroupByPartition(items: seq<Routed>)
    returns (order: seq<TopicPartition>, groups: map<TopicPartition, seq<Routed>>)
    ensures Grouped(items, order, groups)
  {
    order, groups := [], map[];
    for i := 0 to |items|
      invariant Grouped(items[..i], order, groups)
    {
      hide Grouped;
      var p := items[i];
      GroupOne(items[..i], p, order, groups);
      assert items[..i + 1] == items[..i] + [p];
      if p.tp !in groups {
        order := order + [p.tp];
        groups := groups[p.tp := [p]];
      } else {
        groups := groups[p.tp := groups[p.tp] + [p]];
      }
    }
    assert items[..|items|] == items;
  }

  /** One wire item per partition: distinct partitions, in order of first appearance, each with
      all of its partition's records in arrival order. Mixing agents would be a bug upstream. */
  method MergeByPartition(items: seq<Routed>) returns (wire: seq<Routed>)
    requires forall i, j :: 0 <= i < |items| && 0 <= j < |items| ==> items[i].nodeID == items[j].nodeID
    ensures |wire| == |FirstSeen(items)|
    ensures forall i :: 0 <= i < |wire| ==> wire[i].tp == FirstSeen(items)[i]
    ensures forall i :: 0 <= i < |wire| ==> Project(items, wire[i].tp) != [] && wire[i] == MergeGroup(Project(items, wire[i].tp))
  {
    var order, groups := GroupByPartition(items);
    wire := [];
    for i := 0 to |order|
      invariant |wire| == i
      invariant forall j :: 0 <= j < i ==> wire[j].tp == order[j]
      invariant forall j :: 0 <= j < i ==> Project(items, wire[j].tp) != [] && wire[j] == MergeGroup(Project(items, wire[j].tp))
    {
      hide Project, FirstSeen;
      assert order[i] in Elements(order);
      var group := groups[order[i]];
      ProjectIsNonEmpty(items, order[i]);
      assert group[0].tp == order[i];
      var merged := MergeWith(group[0], group[1..]);
      assert [group[0]] + group[1..] == group;
      wire := wire + [merged];
    }
  }

  method MergeWith(p: Routed, others: seq<Routed>) returns (merged: Routed)
    ensures merged == MergeGroup([p] + others)
  {
    if others == [] {
      assert [p][1..] == [];
      assert p.records + [] == p.records;
      return p;
    }
    var combined := p.records;
    assert RecordsOf([p] + others) == p.records + RecordsOf(others) by {
      assert ([p] + others)[1..] == others;
    }
    for i := 0 to |others|
      invariant combined + RecordsOf(others[i..]) == RecordsOf([p] + others)
    {
      assert others[i..][1..] == others[i + 1..];
      combined := combined + others[i].records;
    }
    merged := p.(records := combined, nodeState := others[|others| - 1].nodeState);
  }

  /** What a merged group is: one item of the shared partition and agent, with the records of all in
      order, each once, and the routing state of the newest. */
  lemma {:induction false} MergedGroupHolds(group: seq<Routed>, i: nat, k: nat)
    requires i < |group| && k < |group[i].records|
    ensures var m := MergeGroup(group);
            && m.tp == group[0].tp && m.nodeID == group[0].nodeID && m.nodeState == group[|group| - 1].nodeState
            && |m.records| == TotalOf(group)
            && TotalOf(group[..i]) + k < |m.records| && m.records[TotalOf(group[..i]) + k] == group[i].records[k]
  {
    RecordsAt(group, i, k);
  }

  function TotalOf(group: seq<Routed>): nat {
    if group == [] then 0 else |group[0].records| + TotalOf(group[1..])
  }

  lemma {:induction false} RecordsAt(group: seq<Routed>, i: nat, k: nat)
    requires i < |group| && k < |group[i].records|
    ensures |RecordsOf(group)| == TotalOf(group)
    ensures TotalOf(group[..i]) + k < TotalOf(group) && RecordsOf(group)[TotalOf(group[..i]) + k] == group[i].records[k]
  {
    if i > 0 {
      RecordsAt(group[1..], i - 1, k);
      assert group[..i][1..] == group[1..][..i - 1];
    } else {
      RecordsCount(group);
    }
  }

  lemma {:induction false} RecordsCount(group: seq<Routed>)
    ensures |RecordsOf(group)| == TotalOf(group)
  {
    if group != [] {
      RecordsCount(group[1..]);
    }
  }

  /** A chunk differs from the item it was split off only in its records. */
  lemma ChunksKeepRouting(p: Routed, cap: nat, i: nat)
    requires i < |Split(p, cap)|
    ensures Split(p, cap)[i] == p.(records := Split(p, cap)[i].records)
  {
    hide SplitRecords;
  }

  // ---- Fan-in of a split group ----

  predicate Failed(c: Classifier, tp: TopicPartition, r: ProduceResult) {
    RecordErr(c, r, tp).Some?
  }

  /** The result a split group reports: its first failure, or else its first result. */
  function Choose(c: Classifier, tp: TopicPartition, rs: seq<ProduceResult>): ProduceResult
    requires rs != []
  {
    if Failed(c, tp, rs[0]) || |rs| == 1 then rs[0]
    else
      var later := Choose(c, tp, rs[1..]);
      if Failed(c, tp, later) then later else rs[0]
  }

  lemma {:induction false} ChooseSnoc(c: Classifier, tp: TopicPartition, rs: seq<ProduceResult>, r: ProduceResult)
    requires rs != []
    ensures Choose(c, tp, rs + [r])
         == if !Failed(c, tp, Choose(c, tp, rs)) && Failed(c, tp, r) then r else Choose(c, tp, rs)
  {
    hide Failed;
    assert (rs + [r])[0] == rs[0];
    if |rs| == 1 {
      assert (rs + [r])[1..] == [r];
    } else {
      assert (rs + [r])[1..] == rs[1..] + [r];
      ChooseSnoc(c, tp, rs[1..], r);
    }
  }

  /** The group is reported as written exactly when every one of its chunks was. */
  lemma {:induction false} ChooseReportsAnyFailure(c: Classifier, tp: TopicPartition, rs: seq<ProduceResult>)
    requires rs != []
    ensures Choose(c, tp, rs) in rs
    ensures Failed(c, tp, Choose(c, tp, rs)) <==> exists r :: r in rs && Failed(c, tp, r)
  {
    hide Failed;
    if |rs| > 1 {
      ChooseReportsAnyFailure(c, tp, rs[1..]);
      assert forall r :: r in rs <==> r == rs[0] || r in rs[1..];
    }
  }

  /** It is the first failure, or the first result when there is none. */
  lemma {:induction false} ChooseIsTheFirstFailure(c: Classifier, tp: TopicPartition, rs: seq<ProduceResult>) returns (k: nat)
    requires rs != []
    ensures k < |rs| && Choose(c, tp, rs) == rs[k]
    ensures Failed(c, tp, rs[k]) ==> forall j :: 0 <= j < k ==> !Failed(c, tp, rs[j])
    ensures !Failed(c, tp, rs[k]) ==> k == 0
  {
    hide Failed;
    k := 0;
    if |rs| > 1 && !Failed(c, tp, rs[0]) && Failed(c, tp, Choose(c, tp, rs[1..])) {
      var later := ChooseIsTheFirstFailure(c, tp, rs[1..]);
      k := later + 1;
      assert forall j :: 1 <= j < k ==> rs[j] == rs[1..][j - 1];
    }
  }

  /** The completion shared by the chunks of one split group. */
  class FanIn {
    const classify: Classifier
    const tp: TopicPartition
    var remaining: nat
    var chosen: Option<ProduceResult>
    var chosenOK: bool
    /** What the group's own completion has been called with. */
    var delivered: seq<ProduceResult>
    ghost var results: seq<ProduceResult>
    ghost const total: nat

    ghost predicate Valid()
      reads this
    {
      && remaining + |results| == total
      && (results == [] ==> chosen.None?)
      && (results != [] ==> chosen == Some(Choose(classify, tp, results)) && chosenOK == !Failed(classify, tp, chosen.value))
      && delivered == if remaining == 0 && total > 0 then [Choose(classify, tp, results)] else []
    }

    constructor (classify: Classifier, tp: TopicPartition, chunks: nat)
      ensures Valid() && results == [] && remaining == chunks && total == chunks
      ensures this.classify == classify && this.tp == tp
    {
      this.classify, this.tp := classify, tp;
      remaining, chosen, chosenOK, delivered := chunks, None, false, [];
      results, total := [], chunks;
    }

    /** Called once per chunk, in whatever order the flushes complete. The group completes
        once, on the last call, with a failure of its partition if there was any. */
    method Done(res: ProduceResult)
      requires Valid() && remaining > 0
      modifies this
      ensures Valid() && remaining == old(remaining) - 1 && results == old(results) + [res]
      ensures remaining == 0 ==> delivered == [Choose(classify, tp, results)]
      ensures remaining > 0 ==> delivered == []
    {
      hide Failed;
      if results != [] {
        ChooseSnoc(classify, tp, results, res);
      } else {
        assert results + [res] == [res];
      }
      remaining := remaining - 1;
      if chosen.None? {
        chosen := Some(res);
        chosenOK := !Failed(classify, tp, res);
      } else if chosenOK && Failed(classify, tp, res) {
        chosen := Some(res);
        chosenOK := false;
      }
      results := results + [res];
      if remaining == 0 {
        delivered := delivered + [chosen.value];
      }
    }
  }
}
