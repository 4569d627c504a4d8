/** From a Metadata response to the agent pool's snapshot: leaders, topics, partition counts
    and the leaders that had to be left out. */
module AgentPools {
  import opened Basics

  datatype PartitionMeta = PartitionMeta(partition: int, leader: int)
  datatype TopicMeta = TopicMeta(name: Option<string>, errorCode: int, topicID: int, partitions: seq<PartitionMeta>)

  /** Leaders whose node is not a listed broker, with the first one as a sample. */
  datatype Drops = Drops(count: nat, sample: Option<(TopicPartition, int)>)

  datatype Extracted = Extracted(
    leaders: map<TopicPartition, int>,
    topicIDs: map<string, int>,
    noLiveLeader: set<string>,
    noLeader: set<TopicPartition>,
    partitionCounts: map<string, int>,
    dropped: Drops)

  const NOTHING := Extracted(map[], map[], {}, {}, map[], Drops(0, None))

  /** What the inner loop has built and counted for one topic so far. */
  datatype Scan = Scan(x: Extracted, kept: nat, excluded: nat, maxPartition: int)

  function ScanOne(name: string, agents: set<int>, s: Scan, p: PartitionMeta): Scan {
    var tp := TopicPartition(name, p.partition);
    var s := s.(maxPartition := if p.partition > s.maxPartition then p.partition else s.maxPartition);
    if p.leader < 0 then s.(x := s.x.(noLeader := s.x.noLeader + {tp}))
    else if p.leader !in agents then
      var sample := if s.x.dropped.count == 0 then Some((tp, p.leader)) else s.x.dropped.sample;
      s.(x := s.x.(dropped := Drops(s.x.dropped.count + 1, sample)), excluded := s.excluded + 1)
    else s.(x := s.x.(leaders := s.x.leaders[tp := p.leader]), kept := s.kept + 1)
  }

  function ScanAll(name: string, agents: set<int>, x: Extracted, ps: seq<PartitionMeta>): Scan {
    if ps == [] then Scan(x, 0, 0, -1)
    else ScanOne(name, agents, ScanAll(name, agents, x, ps[..|ps| - 1]), ps[|ps| - 1])
  }

  /** A topic-level error keeps only the topic's previous identifier. */
  function ExtractTopic(agents: set<int>, prevIDs: map<string, int>, x: Extracted, t: TopicMeta): Extracted {
    if t.name.None? then x
    else
      var name := t.name.value;
      if t.errorCode != 0 then
        if name in prevIDs then x.(topicIDs := x.topicIDs[name := prevIDs[name]]) else x
      else
        var s := ScanAll(name, agents, x.(topicIDs := x.topicIDs[name := t.topicID]), t.partitions);
        s.x.(partitionCounts := s.x.partitionCounts[name := s.maxPartition + 1],
             noLiveLeader := if s.excluded > 0 && s.kept == 0 then s.x.noLiveLeader + {name} else s.x.noLiveLeader)
  }

  function Extract(agents: set<int>, prevIDs: map<string, int>, topics: seq<TopicMeta>): Extracted {
    if topics == [] then NOTHING
    else ExtractTopic(agents, prevIDs, Extract(agents, prevIDs, topics[..|topics| - 1]), topics[|topics| - 1])
  }

  method ScanTopic(name: string, agents: set<int>, start: Extracted, ps: seq<PartitionMeta>) returns (s: Scan)
    ensures s == ScanAll(name, agents, start, ps)
  {
    var leaders, noLeader, dropped := start.leaders, start.noLeader, start.dropped;
    var kept, excluded, maxPartition := 0, 0, -1;
    for i := 0 to |ps|
      invariant ScanAll(name, agents, start, ps[..i])
             == Scan(start.(leaders := leaders, noLeader := noLeader, dropped := dropped), kept, excluded, maxPartition)
    {
      assert ps[..i + 1][..i] == ps[..i];
      var p := ps[i];
      var tp := TopicPartition(name, p.partition);
      if p.partition > maxPartition {
        maxPartition := p.partition;
      }
      if p.leader < 0 {
        noLeader := noLeader + {tp};
        continue;
      }
      if p.leader !in agents {
        dropped := Drops(dropped.count + 1, if dropped.count == 0 then Some((tp, p.leader)) else dropped.sample);
        excluded := excluded + 1;
        continue;
      }
      kept := kept + 1;
      leaders := leaders[tp := p.leader];
    }
    assert ps[..|ps|] == ps;
    s := Scan(start.(leaders := leaders, noLeader := noLeader, dropped := dropped), kept, excluded, maxPartition);
  }

  method BuildLeadersAndTopicIDs(topics: seq<TopicMeta>, agents: set<int>, prevIDs: map<string, int>) returns (x: Extracted)
    ensures x == Extract(agents, prevIDs, topics)
  {
    x := NOTHING;
    for i := 0 to |topics|
      invariant x == Extract(agents, prevIDs, topics[..i])
    {
      hide ScanAll;
      assert topics[..i + 1][..i] == topics[..i];
      var t := topics[i];
      if t.name.None? {
        continue;
      }
      var name := t.name.value;
      if t.errorCode != 0 {
        if name in prevIDs {
          x := x.(topicIDs := x.topicIDs[name := prevIDs[name]]);
        }
        continue;
      }
      var s := ScanTopic(name, agents, x.(topicIDs := x.topicIDs[name := t.topicID]), t.partitions);
      x := s.x.(partitionCounts := s.x.partitionCounts[name := s.maxPartition + 1]);
      if s.excluded > 0 && s.kept == 0 {
        x := x.(noLiveLeader := x.noLiveLeader + {name});
      }
    }
    assert topics[..|topics|] == topics;
  }

  // ---- What one topic contributes ----

  predicate Absent(agents: set<int>, p: PartitionMeta) {
    p.leader >= 0 && p.leader !in agents
  }

  predicate Live(agents: set<int>, p: PartitionMeta) {
    p.leader >= 0 && p.leader in agents
  }

  function CountAbsent(agents: set<int>, ps: seq<PartitionMeta>): nat {
    if ps == [] then 0 else CountAbsent(agents, ps[..|ps| - 1]) + if Absent(agents, ps[|ps| - 1]) then 1 else 0
  }

  ghost predicate DistinctPartitions(ps: seq<PartitionMeta>) {
    forall i, j :: 0 <= i < j < |ps| ==> ps[i].partition != ps[j].partition
  }

  /** No entry of x is about the topic. */
  ghost predicate Untouched(x: Extracted, name: string) {
    && (forall p :: TopicPartition(name, p) !in x.leaders && TopicPartition(name, p) !in x.noLeader)
    && name !in x.noLiveLeader && name !in x.partitionCounts
  }

  lemma {:induction false} ScanCounts(name: string, agents: set<int>, x: Extracted, ps: seq<PartitionMeta>)
    ensures var s := ScanAll(name, agents, x, ps);
            && s.x.dropped.count == x.dropped.count + CountAbsent(agents, ps)
            && (s.excluded > 0 <==> exists p :: p in ps && Absent(agents, p))
            && (s.kept > 0 <==> exists p :: p in ps && Live(agents, p))
            && (forall p :: p in ps ==> p.partition <= s.maxPartition)
  {
    if ps != [] {
      var n := |ps| - 1;
      ScanCounts(name, agents, x, ps[..n]);
      LastOrBefore(ps, n);
      if Live(agents, ps[n]) || Absent(agents, ps[n]) {
        assert ps[n] in ps;
      }
    }
  }

  lemma LastOrBefore(ps: seq<PartitionMeta>, n: nat)
    requires |ps| == n + 1
    ensures forall p :: p in ps <==> p in ps[..n] || p == ps[n]
  {
    assert ps == ps[..n] + [ps[n]];
  }

  /** With distinct partition ids, each listed partition ends in the one place its leader says. */
  lemma {:induction false} ScanPlaces(name: string, agents: set<int>, x: Extracted, ps: seq<PartitionMeta>, i: nat)
    requires Untouched(x, name) && DistinctPartitions(ps) && i < |ps|
    ensures Placed(ScanAll(name, agents, x, ps), name, agents, ps[i])
  {
    hide Untouched, Placed, ScanOne;
    var n := |ps| - 1;
    var before := ps[..n];
    if i < n {
      ScanPlaces(name, agents, x, before, i);
      PlacedStays(ScanAll(name, agents, x, before), name, agents, ps[i], ps[n]);
    } else {
      NotScannedYet(name, agents, x, before, ps[n].partition);
      PlaceOne(ScanAll(name, agents, x, before), name, agents, ps[n]);
    }
  }

  /** The snapshot says about p what its leader field says. */
  ghost predicate Placed(s: Scan, name: string, agents: set<int>, p: PartitionMeta) {
    var tp := TopicPartition(name, p.partition);
    && (tp in s.x.noLeader <==> p.leader < 0)
    && (tp in s.x.leaders <==> Live(agents, p))
    && (tp in s.x.leaders ==> s.x.leaders[tp] == p.leader)
  }

  lemma PlacedStays(s: Scan, name: string, agents: set<int>, p: PartitionMeta, later: PartitionMeta)
    requires Placed(s, name, agents, p) && p.partition != later.partition
    ensures Placed(ScanOne(name, agents, s, later), name, agents, p)
  {
  }

  lemma PlaceOne(s: Scan, name: string, agents: set<int>, p: PartitionMeta)
    requires TopicPartition(name, p.partition) !in s.x.leaders && TopicPartition(name, p.partition) !in s.x.noLeader
    ensures Placed(ScanOne(name, agents, s, p), name, agents, p)
  {
  }

  lemma {:induction false} NotScannedYet(name: string, agents: set<int>, x: Extracted, ps: seq<PartitionMeta>, partition: int)
    requires Untouched(x, name) && (forall p :: p in ps ==> p.partition != partition)
    ensures var s := ScanAll(name, agents, x, ps);
            TopicPartition(name, partition) !in s.x.leaders && TopicPartition(name, partition) !in s.x.noLeader
  {
    if ps != [] {
      var n := |ps| - 1;
      NotScannedYet(name, agents, x, ps[..n], partition);
      assert ps[n] in ps;
    }
  }

  lemma {:induction false} ScanMax(name: string, agents: set<int>, x: Extracted, ps: seq<PartitionMeta>, q: int)
    requires q >= 0 && forall p :: p in ps ==> p.partition < q
    ensures ScanAll(name, agents, x, ps).maxPartition < q
  {
    if ps != [] {
      assert ps[|ps| - 1] in ps;
      ScanMax(name, agents, x, ps[..|ps| - 1], q);
    }
  }

  /** x and y say the same about the topic. */
  ghost predicate SameAbout(x: Extracted, y: Extracted, name: string) {
    && (forall p :: TopicPartition(name, p) in x.leaders <==> TopicPartition(name, p) in y.leaders)
    && (forall p :: TopicPartition(name, p) in x.leaders ==> x.leaders[TopicPartition(name, p)] == y.leaders[TopicPartition(name, p)])
    && (forall p :: TopicPartition(name, p) in x.noLeader <==> TopicPartition(name, p) in y.noLeader)
    && (name in x.noLiveLeader <==> name in y.noLiveLeader)
    && (name in x.partitionCounts <==> name in y.partitionCounts)
    && (name in x.partitionCounts ==> x.partitionCounts[name] == y.partitionCounts[name])
  }

  lemma {:induction false} ScanLeavesOthers(name: string, agents: set<int>, x: Extracted, ps: seq<PartitionMeta>, other: string)
    requires name != other
    ensures var s := ScanAll(name, agents, x, ps);
            SameAbout(x, s.x, other) && s.x.noLiveLeader == x.noLiveLeader && s.x.partitionCounts == x.partitionCounts
  {
    if ps != [] {
      ScanLeavesOthers(name, agents, x, ps[..|ps| - 1], other);
    }
  }

  lemma TopicLeavesOthers(agents: set<int>, prevIDs: map<string, int>, x: Extracted, t: TopicMeta, other: string)
    requires t.name != Some(other)
    ensures SameAbout(x, ExtractTopic(agents, prevIDs, x, t), other)
  {
    if t.name.Some? && t.errorCode == 0 {
      ScanLeavesOthers(t.name.value, agents, x.(topicIDs := x.topicIDs[t.name.value := t.topicID]), t.partitions, other);
    }
  }

  ghost predicate DistinctTopics(topics: seq<TopicMeta>) {
    forall i, j :: 0 <= i < j < |topics| && topics[i].name.Some? ==> topics[i].name != topics[j].name
  }

  lemma {:induction false} UntouchedUntilListed(agents: set<int>, prevIDs: map<string, int>, topics: seq<TopicMeta>, name: string)
    requires forall t :: t in topics ==> t.name != Some(name)
    ensures Untouched(Extract(agents, prevIDs, topics), name)
  {
    hide ExtractTopic;
    if topics != [] {
      var n := |topics| - 1;
      UntouchedUntilListed(agents, prevIDs, topics[..n], name);
      TopicLeavesOthers(agents, prevIDs, Extract(agents, prevIDs, topics[..n]), topics[n], name);
    }
  }

  /** Everything the snapshot says about a listed, error-free topic is said by that topic alone. */
  lemma {:induction false} TopicDecidesItself(agents: set<int>, prevIDs: map<string, int>, topics: seq<TopicMeta>, i: nat)
    requires DistinctTopics(topics) && i < |topics| && topics[i].name.Some? && topics[i].errorCode == 0
    ensures exists x :: Untouched(x, topics[i].name.value)
              && SameAbout(ExtractTopic(agents, prevIDs, x, topics[i]), Extract(agents, prevIDs, topics), topics[i].name.value)
  {
    hide ExtractTopic;
    var n := |topics| - 1;
    var name := topics[i].name.value;
    if i < n {
      TopicDecidesItself(agents, prevIDs, topics[..n], i);
      TopicLeavesOthers(agents, prevIDs, Extract(agents, prevIDs, topics[..n]), topics[n], name);
    } else {
      UntouchedUntilListed(agents, prevIDs, topics[..n], name);
      assert Untouched(Extract(agents, prevIDs, topics[..n]), name);
    }
  }

  /** The excluded-leader count is the number of listed partitions naming an absent node. */
  function TotalAbsent(agents: set<int>, topics: seq<TopicMeta>): nat {
    if topics == [] then 0
    else
      var t := topics[|topics| - 1];
      TotalAbsent(agents, topics[..|topics| - 1])
      + if t.name.Some? && t.errorCode == 0 then CountAbsent(agents, t.partitions) else 0
  }

  lemma {:induction false} DropCountIsExact(agents: set<int>, prevIDs: map<string, int>, topics: seq<TopicMeta>)
    ensures Extract(agents, prevIDs, topics).dropped.count == TotalAbsent(agents, topics)
  {
    if topics != [] {
      var n := |topics| - 1;
      DropCountIsExact(agents, prevIDs, topics[..n]);
      var t := topics[n];
      if t.name.Some? && t.errorCode == 0 {
        var x := Extract(agents, prevIDs, topics[..n]);
        ScanCounts(t.name.value, agents, x.(topicIDs := x.topicIDs[t.name.value := t.topicID]), t.partitions);
      }
    }
  }

  // ---- Topic ids, and the first drop ----

  lemma {:induction false} ScanKeepsIDs(name: string, agents: set<int>, x: Extracted, ps: seq<PartitionMeta>)
    ensures ScanAll(name, agents, x, ps).x.topicIDs == x.topicIDs
  {
    if ps != [] {
      ScanKeepsIDs(name, agents, x, ps[..|ps| - 1]);
    }
  }

  lemma TopicSetsItsID(agents: set<int>, prevIDs: map<string, int>, x: Extracted, t: TopicMeta, name: string)
    ensures var x' := ExtractTopic(agents, prevIDs, x, t);
            if t.name != Some(name) then (name in x'.topicIDs <==> name in x.topicIDs) && (name in x.topicIDs ==> x'.topicIDs[name] == x.topicIDs[name])
            else if t.errorCode == 0 then name in x'.topicIDs && x'.topicIDs[name] == t.topicID
            else if name in prevIDs then name in x'.topicIDs && x'.topicIDs[name] == prevIDs[name]
            else x'.topicIDs == x.topicIDs
  {
    hide ScanAll;
    if t.name.Some? && t.errorCode == 0 {
      ScanKeepsIDs(t.name.value, agents, x.(topicIDs := x.topicIDs[t.name.value := t.topicID]), t.partitions);
    }
  }

  lemma {:induction false} UnlistedHasNoID(agents: set<int>, prevIDs: map<string, int>, topics: seq<TopicMeta>, name: string)
    requires forall t :: t in topics ==> t.name != Some(name)
    ensures name !in Extract(agents, prevIDs, topics).topicIDs
  {
    hide ExtractTopic;
    if topics != [] {
      var n := |topics| - 1;
      assert topics[n] in topics;
      UnlistedHasNoID(agents, prevIDs, topics[..n], name);
      TopicSetsItsID(agents, prevIDs, Extract(agents, prevIDs, topics[..n]), topics[n], name);
    }
  }

  /** With distinct names, a listed topic has the id it is listed with; while it is in error it
      keeps the one known before, if any. */
  lemma {:induction false} TopicIDsExactly(agents: set<int>, prevIDs: map<string, int>, topics: seq<TopicMeta>, i: nat)
    requires DistinctTopics(topics) && i < |topics| && topics[i].name.Some?
    ensures var ids, t := Extract(agents, prevIDs, topics).topicIDs, topics[i];
            var name := t.name.value;
            && (t.errorCode == 0 ==> name in ids && ids[name] == t.topicID)
            && (t.errorCode != 0 ==> (name in ids <==> name in prevIDs) && (name in prevIDs ==> ids[name] == prevIDs[name]))
  {
    hide ExtractTopic;
    var n := |topics| - 1;
    var name := topics[i].name.value;
    TopicSetsItsID(agents, prevIDs, Extract(agents, prevIDs, topics[..n]), topics[n], name);
    if i < n {
      TopicIDsExactly(agents, prevIDs, topics[..n], i);
    } else {
      UnlistedHasNoID(agents, prevIDs, topics[..n], name);
    }
  }

  /** The first partition of the list that names an absent node. */
  function FirstAbsent(name: string, agents: set<int>, ps: seq<PartitionMeta>): Option<(TopicPartition, int)> {
    if ps == [] then None
    else if Absent(agents, ps[0]) then Some((TopicPartition(name, ps[0].partition), ps[0].leader))
    else FirstAbsent(name, agents, ps[1..])
  }

  function FirstDrop(agents: set<int>, topics: seq<TopicMeta>): Option<(TopicPartition, int)> {
    if topics == [] then None
    else
      var t := topics[0];
      var here := if t.name.Some? && t.errorCode == 0 then FirstAbsent(t.name.value, agents, t.partitions) else None;
      if here.Some? then here else FirstDrop(agents, topics[1..])
  }

  lemma {:induction false} FirstAbsentSnoc(name: string, agents: set<int>, ps: seq<PartitionMeta>, p: PartitionMeta)
    ensures FirstAbsent(name, agents, ps + [p])
         == if FirstAbsent(name, agents, ps).Some? then FirstAbsent(name, agents, ps) else FirstAbsent(name, agents, [p])
  {
    if ps == [] {
      assert ps + [p] == [p];
    } else {
      assert (ps + [p])[1..] == ps[1..] + [p];
      FirstAbsentSnoc(name, agents, ps[1..], p);
    }
  }

  lemma {:induction false} FirstDropSnoc(agents: set<int>, topics: seq<TopicMeta>, t: TopicMeta)
    ensures FirstDrop(agents, topics + [t])
         == if FirstDrop(agents, topics).Some? then FirstDrop(agents, topics) else FirstDrop(agents, [t])
  {
    hide FirstAbsent;
    if topics == [] {
      assert topics + [t] == [t];
    } else {
      assert (topics + [t])[1..] == topics[1..] + [t];
      FirstDropSnoc(agents, topics[1..], t);
    }
  }

  ghost predicate SampleOK(d: Drops) {
    d.sample.Some? <==> d.count > 0
  }

  lemma {:induction false} ScanSample(name: string, agents: set<int>, x: Extracted, ps: seq<PartitionMeta>)
    requires SampleOK(x.dropped)
    ensures var d := ScanAll(name, agents, x, ps).x.dropped;
            SampleOK(d) && d.sample == if x.dropped.sample.Some? then x.dropped.sample else FirstAbsent(name, agents, ps)
  {
    if ps != [] {
      var n := |ps| - 1;
      ScanSample(name, agents, x, ps[..n]);
      FirstAbsentSnoc(name, agents, ps[..n], ps[n]);
      assert ps[..n] + [ps[n]] == ps && [ps[n]][1..] == [];
    }
  }

  /** The drop that is reported is the first one of the metadata. */
  lemma {:induction false} DropSampleIsTheFirst(agents: set<int>, prevIDs: map<string, int>, topics: seq<TopicMeta>)
    ensures SampleOK(Extract(agents, prevIDs, topics).dropped)
    ensures Extract(agents, prevIDs, topics).dropped.sample == FirstDrop(agents, topics)
  {
    hide ScanAll, FirstAbsent;
    if topics != [] {
      var n := |topics| - 1;
      var t, x := topics[n], Extract(agents, prevIDs, topics[..n]);
      DropSampleIsTheFirst(agents, prevIDs, topics[..n]);
      FirstDropSnoc(agents, topics[..n], t);
      assert topics[..n] + [t] == topics && [t][1..] == [];
      if t.name.Some? && t.errorCode == 0 {
        ScanSample(t.name.value, agents, x.(topicIDs := x.topicIDs[t.name.value := t.topicID]), t.partitions);
      }
    }
  }

  ghost predicate LiveLeaders(leaders: map<TopicPartition, int>, agents: set<int>) {
    forall tp :: tp in leaders ==> leaders[tp] in agents
  }

  lemma {:induction false} ScanKeepsLive(name: string, agents: set<int>, x: Extracted, ps: seq<PartitionMeta>)
    requires LiveLeaders(x.leaders, agents)
    ensures LiveLeaders(ScanAll(name, agents, x, ps).x.leaders, agents)
  {
    if ps != [] {
      ScanKeepsLive(name, agents, x, ps[..|ps| - 1]);
    }
  }

  /** Every leader in the snapshot is a listed broker. */
  lemma {:induction false} LeadersAreLive(agents: set<int>, prevIDs: map<string, int>, topics: seq<TopicMeta>)
    ensures LiveLeaders(Extract(agents, prevIDs, topics).leaders, agents)
  {
    hide ScanAll;
    if topics != [] {
      var n := |topics| - 1;
      LeadersAreLive(agents, prevIDs, topics[..n]);
      var t, x := topics[n], Extract(agents, prevIDs, topics[..n]);
      if t.name.Some? && t.errorCode == 0 {
        ScanKeepsLive(t.name.value, agents, x.(topicIDs := x.topicIDs[t.name.value := t.topicID]), t.partitions);
      }
    }
  }

  // ---- Membership changes between two refreshes ----

  method DiffRemovedAgents(old_: seq<int>, new_: set<int>) returns (removed: seq<int>)
    ensures Elements(removed) == Elements(old_) - new_
    ensures Distinct(old_) ==> Distinct(removed)
  {
    removed := [];
    for i := 0 to |old_|
      invariant Elements(removed) == Elements(old_[..i]) - new_
      invariant Distinct(old_) ==> Distinct(removed)
    {
      assert Elements(old_[..i + 1]) == Elements(old_[..i]) + {old_[i]};
      if old_[i] !in new_ {
        assert Distinct(old_) ==> old_[i] !in Elements(old_[..i]);
        assert Elements(removed + [old_[i]]) == Elements(removed) + {old_[i]};
        removed := removed + [old_[i]];
      }
    }
    assert old_[..|old_|] == old_;
  }

  ghost predicate Ascending(s: seq<int>) {
    forall i, j :: 0 <= i < j < |s| ==> s[i] < s[j]
  }

  ghost predicate AllBelow(a: seq<int>, b: seq<int>) {
    forall i, j :: 0 <= i < |a| && 0 <= j < |b| ==> a[i] < b[j]
  }

  lemma GrowDifference(s: seq<int>, i: nat, other: set<int>)
    requires Ascending(s) && i < |s|
    ensures |Elements(s[..i + 1]) - other| == |Elements(s[..i]) - other| + if s[i] in other then 0 else 1
  {
    assert s[i] !in s[..i];
    assert Elements(s[..i + 1]) == Elements(s[..i]) + {s[i]};
    if s[i] in other {
      assert Elements(s[..i + 1]) - other == Elements(s[..i]) - other;
    } else {
      assert Elements(s[..i + 1]) - other == (Elements(s[..i]) - other) + {s[i]};
    }
  }

  /** The tail of a list whose head is already counted: none of it is in the other list. */
  lemma {:induction false} TailDifference(s: seq<int>, i: nat, other: set<int>)
    requires Ascending(s) && i <= |s| && (forall k :: i <= k < |s| ==> s[k] !in other)
    ensures |Elements(s) - other| == |Elements(s[..i]) - other| + |s| - i
    decreases |s| - i
  {
    if i < |s| {
      GrowDifference(s, i, other);
      TailDifference(s, i + 1, other);
    } else {
      assert s[..i] == s;
    }
  }

  /** The merge walk over sorted lists counts exactly the set differences. */
  method DiffAgentMembership(old_: seq<int>, new_: seq<int>) returns (added: int, removed: int)
    requires Ascending(old_) && Ascending(new_)
    ensures added == |Elements(new_) - Elements(old_)|
    ensures removed == |Elements(old_) - Elements(new_)|
  {
    hide Ascending, AllBelow;
    var i, j := 0, 0;
    added, removed := 0, 0;
    NothingWalked(old_, new_);
    while i < |old_| && j < |new_|
      invariant 0 <= i <= |old_| && 0 <= j <= |new_|
      invariant AllBelow(old_[..i], new_[j..]) && AllBelow(new_[..j], old_[i..])
      invariant removed == |Elements(old_[..i]) - Elements(new_)|
      invariant added == |Elements(new_[..j]) - Elements(old_)|
      decreases |old_| - i + |new_| - j
    {
      GrowDifference(old_, i, Elements(new_));
      GrowDifference(new_, j, Elements(old_));
      Walk(old_, i, new_, j);
      Walk(new_, j, old_, i);
      if old_[i] == new_[j] {
        i, j := i + 1, j + 1;
      } else if old_[i] < new_[j] {
        removed := removed + 1;
        i := i + 1;
      } else {
        added := added + 1;
        j := j + 1;
      }
    }
    Leftover(old_, i, new_, j);
    Leftover(new_, j, old_, i);
    removed := removed + |old_| - i;
    added := added + |new_| - j;
  }

  lemma NothingWalked(a: seq<int>, b: seq<int>)
    ensures AllBelow(a[..0], b[0..]) && AllBelow(b[..0], a[0..])
    ensures Elements(a[..0]) - Elements(b) == {} && Elements(b[..0]) - Elements(a) == {}
  {
  }

  lemma Walk(a: seq<int>, i: nat, b: seq<int>, j: nat)
    requires Ascending(a) && Ascending(b) && i < |a| && j < |b|
    requires AllBelow(a[..i], b[j..]) && AllBelow(b[..j], a[i..])
    ensures a[i] < b[j] ==> a[i] !in Elements(b) && AllBelow(a[..i + 1], b[j..]) && AllBelow(b[..j], a[i + 1..])
    ensures a[i] == b[j] ==> a[i] in Elements(b) && AllBelow(a[..i + 1], b[j + 1..])
  {
  }

  lemma Leftover(a: seq<int>, i: nat, b: seq<int>, j: nat)
    requires Ascending(a) && i <= |a| && j <= |b| && (i == |a| || j == |b|)
    requires AllBelow(b[..j], a[i..])
    ensures |Elements(a) - Elements(b)| == |Elements(a[..i]) - Elements(b)| + |a| - i
  {
    forall k | i <= k < |a|
      ensures a[k] !in Elements(b)
    {
      assert b[..j] == b;
      forall m | 0 <= m < |b|
        ensures b[m] < a[k]
      {
        assert b[..j][m] < a[i..][k - i];
      }
    }
    TailDifference(a, i, Elements(b));
  }
}
