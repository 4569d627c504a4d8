/** The immutable routing snapshot: for each partition, the leader or a stand-in first, then the
    other agents in hash order. */
module PartitionAssignment {
  import opened Basics
  import opened AgentPools

  datatype Route = Unclassified | Leader | StandIn | MissEmptyPool | MissUnknownTopic | MissNoLeader | MissOutOfRange

  datatype Strategy = Strategy(
    agents: seq<int>,
    leaders: map<TopicPartition, int>,
    knownTopics: set<string>,
    noLeader: set<TopicPartition>,
    partitionCounts: map<string, int>)

  /** Known topics are those with a leader, and those whose named leaders were all excluded. */
  function NewStrategy(agents: seq<int>, x: Extracted): Strategy {
    Strategy(agents, x.leaders, x.noLiveLeader + (set tp | tp in x.leaders :: tp.topic), x.noLeader, x.partitionCounts)
  }

  function NonLeaders(agents: seq<int>, leader: int): seq<int> {
    if agents == [] then []
    else if agents[0] == leader then NonLeaders(agents[1..], leader)
    else [agents[0]] + NonLeaders(agents[1..], leader)
  }

  /** The scan for the idx-th agent that is not the leader; 0 when there is none. */
  method NthNonLeader(agents: seq<int>, leader: int, idx: nat) returns (id: int)
    ensures id == if idx < |NonLeaders(agents, leader)| then NonLeaders(agents, leader)[idx] else 0
  {
    var seen := 0;
    for i := 0 to |agents|
      invariant seen <= idx && seen <= |NonLeaders(agents, leader)|
      invariant NonLeaders(agents, leader)[seen..] == NonLeaders(agents[i..], leader)
    {
      assert agents[i..][1..] == agents[i + 1..];
      if agents[i] == leader {
        continue;
      }
      if seen == idx {
        return agents[i];
      }
      seen := seen + 1;
    }
    return 0;
  }

  function Pick(agents: seq<int>, leader: int, idx: nat): int {
    if idx < |NonLeaders(agents, leader)| then NonLeaders(agents, leader)[idx] else 0
  }

  /** The first n alternates: the non-leaders walked from the hash position, wrapping around. */
  function Alternates(agents: seq<int>, leader: int, hash: nat, n: nat): seq<int>
    requires n <= |agents| - 1 || n == 0
  {
    if n == 0 then []
    else Alternates(agents, leader, hash, n - 1) + [Pick(agents, leader, (hash % (|agents| - 1) + (n - 1)) % (|agents| - 1))]
  }

  /** Which agent comes first, and how it was found. */
  function Primary(s: Strategy, hash: nat, tp: TopicPartition): (Option<int>, Route) {
    if tp in s.leaders then (Some(s.leaders[tp]), Leader)
    else if tp in s.noLeader then (None, MissNoLeader)
    else if |s.agents| == 0 then (None, MissEmptyPool)
    else if tp.topic !in s.knownTopics then
      if tp.topic in s.partitionCounts && (tp.partition < 0 || tp.partition >= s.partitionCounts[tp.topic])
      then (None, MissOutOfRange) else (None, MissUnknownTopic)
    else if tp.partition < 0 || tp.partition >= (if tp.topic in s.partitionCounts then s.partitionCounts[tp.topic] else 0)
    then (None, MissOutOfRange)
    else (Some(s.agents[hash % |s.agents|]), StandIn)
  }

  function Min(a: int, b: int): int {
    if a <= b then a else b
  }

  function Candidates(s: Strategy, hash: nat, tp: TopicPartition, max: int): (seq<int>, Route) {
    if max <= 0 then ([], Unclassified)
    else
      var (first, route) := Primary(s, hash, tp);
      if first.None? then ([], route)
      else
        var alternates := if |s.agents| - 1 <= 0 then 0 else Min(max - 1, |s.agents| - 1);
        ([first.value] + Alternates(s.agents, first.value, hash, alternates), route)
  }

  method CandidatesWithRoute(s: Strategy, hash: nat, tp: TopicPartition, max: int) returns (out: seq<int>, route: Route)
    ensures (out, route) == Candidates(s, hash, tp, max)
  {
    if max <= 0 {
      return [], Unclassified;
    }
    var leader: int;
    if tp in s.leaders {
      leader, route := s.leaders[tp], Leader;
    } else {
      if tp in s.noLeader {
        return [], MissNoLeader;
      }
      if |s.agents| == 0 {
        return [], MissEmptyPool;
      }
      if tp.topic !in s.knownTopics {
        if tp.topic in s.partitionCounts && (tp.partition < 0 || tp.partition >= s.partitionCounts[tp.topic]) {
          return [], MissOutOfRange;
        }
        return [], MissUnknownTopic;
      }
      var count := if tp.topic in s.partitionCounts then s.partitionCounts[tp.topic] else 0;
      if tp.partition < 0 || tp.partition >= count {
        return [], MissOutOfRange;
      }
      leader, route := s.agents[hash % |s.agents|], StandIn;
    }
    out := [leader];
    assert [leader] + [] == [leader];
    if max == 1 {
      return;
    }
    var nonLeaderCount := |s.agents| - 1;
    if nonLeaderCount <= 0 {
      return;
    }
    out := WalkAlternates(s.agents, leader, hash, max);
  }

  method WalkAlternates(agents: seq<int>, leader: int, hash: nat, max: int) returns (out: seq<int>)
    requires max > 1 && |agents| > 1
    ensures out == [leader] + Alternates(agents, leader, hash, Min(max - 1, |agents| - 1))
  {
    out := [leader];
    var n := |agents| - 1;
    var start := hash % n;
    var offset := 0;
    while offset < n && |out| < max
      invariant 0 <= offset <= n && |out| == offset + 1 <= max
      invariant out == [leader] + Alternates(agents, leader, hash, offset)
    {
      var id := NthNonLeader(agents, leader, (start + offset) % n);
      out := out + [id];
      offset := offset + 1;
    }
  }

  // ---- Shorter requests are prefixes of longer ones ----

  lemma {:induction false} AlternatesLength(agents: seq<int>, leader: int, hash: nat, n: nat)
    requires n <= |agents| - 1 || n == 0
    ensures |Alternates(agents, leader, hash, n)| == n
  {
    if n > 0 {
      AlternatesLength(agents, leader, hash, n - 1);
    }
  }

  lemma {:induction false} AlternatesPrefix(agents: seq<int>, leader: int, hash: nat, n: nat, m: nat)
    requires n <= m && (m <= |agents| - 1 || m == 0)
    ensures Alternates(agents, leader, hash, n) <= Alternates(agents, leader, hash, m)
    decreases m
  {
    if n < m {
      AlternatesPrefix(agents, leader, hash, n, m - 1);
    }
  }

  /** For every snapshot and every hash, asking for fewer candidates gives a prefix of the longer
      answer, with the same classification. */
  lemma ShorterIsPrefix(s: Strategy, hash: nat, tp: TopicPartition, k: int, m: int)
    requires 1 <= k <= m
    ensures Candidates(s, hash, tp, k).0 == Candidates(s, hash, tp, m).0[..Min(k, |Candidates(s, hash, tp, m).0|)]
    ensures Candidates(s, hash, tp, k).1 == Candidates(s, hash, tp, m).1
  {
    hide Alternates;
    var (first, route) := Primary(s, hash, tp);
    if first.Some? && |s.agents| > 1 {
      var a, b := Min(k - 1, |s.agents| - 1), Min(m - 1, |s.agents| - 1);
      AlternatesLength(s.agents, first.value, hash, a);
      AlternatesLength(s.agents, first.value, hash, b);
      AlternatesPrefix(s.agents, first.value, hash, a, b);
    } else if first.Some? {
      AlternatesLength(s.agents, first.value, hash, 0);
    }
  }

  // ---- The full list is a permutation of the pool ----

  lemma {:induction false} NonLeadersCorrect(agents: seq<int>, leader: int)
    requires Distinct(agents) && leader in agents
    ensures multiset(agents) == multiset{leader} + multiset(NonLeaders(agents, leader))
    ensures |NonLeaders(agents, leader)| == |agents| - 1
  {
    assert agents == [agents[0]] + agents[1..];
    if agents[0] == leader {
      AllNonLeaders(agents[1..], leader);
    } else {
      NonLeadersCorrect(agents[1..], leader);
    }
  }

  lemma {:induction false} AllNonLeaders(agents: seq<int>, leader: int)
    requires leader !in agents
    ensures NonLeaders(agents, leader) == agents
  {
    if agents != [] {
      assert agents[0] in agents;
      AllNonLeaders(agents[1..], leader);
    }
  }

  lemma {:induction false} AlternatesRotate(agents: seq<int>, leader: int, hash: nat, n: nat)
    requires |agents| > 1 && n <= |agents| - 1 && |NonLeaders(agents, leader)| == |agents| - 1
    ensures var nl := NonLeaders(agents, leader);
            Alternates(agents, leader, hash, n) == (nl[hash % |nl|..] + nl[..hash % |nl|])[..n]
  {
    hide NonLeaders;
    var nl := NonLeaders(agents, leader);
    var c := |nl|;
    var start := hash % c;
    var rotated := nl[start..] + nl[..start];
    if n > 0 {
      AlternatesRotate(agents, leader, hash, n - 1);
      Wrap(start, n - 1, c);
      assert Pick(agents, leader, (start + (n - 1)) % c) == rotated[n - 1];
      assert rotated[..n] == rotated[..n - 1] + [rotated[n - 1]];
    }
  }

  lemma Wrap(start: nat, k: nat, c: nat)
    requires start < c && k < c
    ensures (start + k) % c == if start + k < c then start + k else start + k - c
  {
    if start + k >= c {
      assert (start + k - c) % c == start + k - c;
      ModShift(start + k - c, c);
    }
  }

  lemma ModShift(x: nat, c: nat)
    requires c > 0
    ensures (x + c) % c == x % c
  {
    assert x + c == c * (x / c + 1) + x % c;
    Remainder(x + c, c, x / c + 1, x % c);
  }

  lemma Remainder(a: int, c: int, q: int, r: int)
    requires c > 0 && 0 <= r < c && a == c * q + r
    ensures a % c == r
  {
    assert a == c * (a / c) + a % c;
    if q < a / c {
      Gap(c, q, a / c);
    } else if q > a / c {
      Gap(c, a / c, q);
    }
  }

  lemma Product(a: int, b: int)
    requires a >= 0 && b >= 0
    ensures a * b >= 0
  {
  }

  lemma Gap(c: int, p: int, q: int)
    requires c > 0 && p < q
    ensures c * q >= c * p + c
  {
    Product(c, q - p - 1);
    assert c * q == c * p + c + c * (q - p - 1);
  }

  /** The pool's snapshot: distinct agents, and leaders among them. */
  ghost predicate ValidStrategy(s: Strategy) {
    Distinct(s.agents) && LiveLeaders(s.leaders, Elements(s.agents))
  }

  lemma PrimaryIsLive(s: Strategy, hash: nat, tp: TopicPartition)
    requires ValidStrategy(s)
    ensures Primary(s, hash, tp).0.Some? ==> Primary(s, hash, tp).0.value in s.agents
  {
  }

  /** A routable partition's full candidate list is a permutation of the live agents, with the
      leader or the stand-in first, for every hash value. */
  lemma FullListIsPermutation(s: Strategy, hash: nat, tp: TopicPartition, max: int)
    requires ValidStrategy(s) && Primary(s, hash, tp).0.Some? && max >= |s.agents| && max >= 1
    ensures var list := Candidates(s, hash, tp, max).0;
            && multiset(list) == multiset(s.agents)
            && list[0] == Primary(s, hash, tp).0.value
  {
    hide Alternates, NonLeaders, Primary;
    PrimaryIsLive(s, hash, tp);
    var leader := Primary(s, hash, tp).0.value;
    NonLeadersCorrect(s.agents, leader);
    var nl := NonLeaders(s.agents, leader);
    if |s.agents| > 1 {
      AlternatesRotate(s.agents, leader, hash, |s.agents| - 1);
      var start := hash % |nl|;
      var rotated := nl[start..] + nl[..start];
      assert rotated[..|nl|] == rotated;
      assert nl == nl[..start] + nl[start..];
    } else {
      AlternatesLength(s.agents, leader, hash, 0);
      assert nl == [] && Candidates(s, hash, tp, max).0 == [leader];
    }
  }

  /** Any list, of any length, has distinct entries that are live agents. */
  lemma CandidatesAreDistinctAndLive(s: Strategy, hash: nat, tp: TopicPartition, max: int)
    requires ValidStrategy(s)
    ensures var list := Candidates(s, hash, tp, max).0; Distinct(list) && forall a :: a in list ==> a in s.agents
  {
    hide Alternates, Primary, ValidStrategy;
    if max >= 1 && Primary(s, hash, tp).0.Some? {
      var m := if max >= |s.agents| then max else |s.agents|;
      ShorterIsPrefix(s, hash, tp, max, m);
      FullListIsPermutation(s, hash, tp, m);
      DistinctByCount(s, Candidates(s, hash, tp, m).0);
    }
  }

  lemma DistinctByCount(s: Strategy, list: seq<int>)
    requires ValidStrategy(s) && multiset(list) == multiset(s.agents)
    ensures Distinct(list) && forall a :: a in list ==> a in s.agents
  {
    forall a | a in list
      ensures a in s.agents
    {
      assert a in multiset(list);
    }
    forall i, j | 0 <= i < j < |list|
      ensures list[i] != list[j]
    {
      if list[i] == list[j] {
        TwiceMeansTwo(list, i, j);
        OnceMeansOne(s.agents, list[i]);
      }
    }
  }

  lemma TwiceMeansTwo(s: seq<int>, i: nat, j: nat)
    requires i < j < |s| && s[i] == s[j]
    ensures multiset(s)[s[i]] >= 2
  {
    assert s == s[..i + 1] + s[i + 1..];
    assert s[i] in s[..i + 1] && s[i + 1..][j - i - 1] == s[i];
    assert multiset(s[..i + 1])[s[i]] >= 1 && multiset(s[i + 1..])[s[i]] >= 1;
  }

  lemma {:induction false} OnceMeansOne(s: seq<int>, x: int)
    requires Distinct(s)
    ensures multiset(s)[x] <= 1
  {
    if s != [] {
      OnceMeansOne(s[1..], x);
      assert s == [s[0]] + s[1..];
      if s[0] == x {
        assert x !in s[1..];
      }
    }
  }

  // ---- From metadata to routing ----

  /** agents is the sorted list of the brokers' ids. */
  ghost predicate SortedIds(agents: seq<int>, brokers: seq<int>) {
    Ascending(agents) && multiset(agents) == multiset(brokers)
  }

  lemma RefreshedStrategyIsValid(agents: seq<int>, prevIDs: map<string, int>, topics: seq<TopicMeta>)
    requires Ascending(agents)
    ensures ValidStrategy(NewStrategy(agents, Extract(Elements(agents), prevIDs, topics)))
  {
    hide Extract;
    LeadersAreLive(Elements(agents), prevIDs, topics);
  }

  /** What the snapshot records about one listed partition of an error-free topic. */
  lemma ListedPartition(agents: set<int>, prevIDs: map<string, int>, topics: seq<TopicMeta>, i: nat, j: nat)
    requires DistinctTopics(topics) && i < |topics| && topics[i].name.Some? && topics[i].errorCode == 0
    requires DistinctPartitions(topics[i].partitions) && j < |topics[i].partitions|
    ensures var x := Extract(agents, prevIDs, topics);
            var name, p := topics[i].name.value, topics[i].partitions[j];
            var tp := TopicPartition(name, p.partition);
            && (tp in x.noLeader <==> p.leader < 0)
            && (tp in x.leaders <==> Live(agents, p))
            && name in x.partitionCounts && p.partition < x.partitionCounts[name]
            && (Absent(agents, p) ==> name in x.noLiveLeader || exists q :: TopicPartition(name, q) in x.leaders)
  {
    hide Extract, ScanAll;
    var name, ps := topics[i].name.value, topics[i].partitions;
    TopicDecidesItself(agents, prevIDs, topics, i);
    var x0 :| Untouched(x0, name)
      && SameAbout(ExtractTopic(agents, prevIDs, x0, topics[i]), Extract(agents, prevIDs, topics), name);
    var x1 := x0.(topicIDs := x0.topicIDs[name := topics[i].topicID]);
    ScanPlaces(name, agents, x1, ps, j);
    ScanCounts(name, agents, x1, ps);
    assert ps[j] in ps;
    if Absent(agents, ps[j]) && ScanAll(name, agents, x1, ps).kept > 0 {
      var p :| p in ps && Live(agents, p);
      var k :| 0 <= k < |ps| && ps[k] == p;
      ScanPlaces(name, agents, x1, ps, k);
    }
  }

  /** With distinct topics and distinct non-negative partition ids, a listed partition of an
      error-free topic is routable exactly when it names a leader and there is a broker; every
      candidate is a listed broker; and the leader, when live, comes first. */
  lemma RoutableExactlyWhenLed(brokers: seq<int>, agents: seq<int>, prevIDs: map<string, int>, topics: seq<TopicMeta>,
                               i: nat, j: nat, hash: nat, max: int)
    requires SortedIds(agents, brokers) && DistinctTopics(topics) && max >= 1
    requires i < |topics| && topics[i].name.Some? && topics[i].errorCode == 0
    requires DistinctPartitions(topics[i].partitions) && j < |topics[i].partitions|
    requires topics[i].partitions[j].partition >= 0
    ensures var p := topics[i].partitions[j];
            var s := NewStrategy(agents, Extract(Elements(agents), prevIDs, topics));
            var list := Candidates(s, hash, TopicPartition(topics[i].name.value, p.partition), max).0;
            && (list != [] <==> p.leader >= 0 && brokers != [])
            && (forall a :: a in list ==> a in brokers)
            && (p.leader in brokers && p.leader >= 0 ==> list[0] == p.leader)
  {
    hide Extract, Alternates;
    var p := topics[i].partitions[j];
    var s := NewStrategy(agents, Extract(Elements(agents), prevIDs, topics));
    var tp := TopicPartition(topics[i].name.value, p.partition);
    SameIds(agents, brokers);
    RefreshedStrategyIsValid(agents, prevIDs, topics);
    CandidatesAreDistinctAndLive(s, hash, tp, max);
    FirstOfListed(agents, prevIDs, topics, i, j, hash);
  }

  lemma SameIds(agents: seq<int>, brokers: seq<int>)
    requires multiset(agents) == multiset(brokers)
    ensures forall a :: a in agents <==> a in brokers
    ensures agents == [] <==> brokers == []
  {
    assert forall a :: a in agents <==> a in multiset(agents);
    assert forall a :: a in brokers <==> a in multiset(brokers);
    assert |agents| == |multiset(agents)| && |brokers| == |multiset(brokers)|;
  }

  lemma FirstOfListed(agents: seq<int>, prevIDs: map<string, int>, topics: seq<TopicMeta>, i: nat, j: nat, hash: nat)
    requires DistinctTopics(topics)
    requires i < |topics| && topics[i].name.Some? && topics[i].errorCode == 0
    requires DistinctPartitions(topics[i].partitions) && j < |topics[i].partitions|
    requires topics[i].partitions[j].partition >= 0
    ensures var p := topics[i].partitions[j];
            var s := NewStrategy(agents, Extract(Elements(agents), prevIDs, topics));
            var first := Primary(s, hash, TopicPartition(topics[i].name.value, p.partition)).0;
            && (first.Some? <==> p.leader >= 0 && agents != [])
            && (p.leader >= 0 && p.leader in agents ==> first == Some(p.leader))
  {
    hide Extract;
    ListedPartition(Elements(agents), prevIDs, topics, i, j);
    ListedLeader(Elements(agents), prevIDs, topics, i, j);
  }

  lemma ListedLeader(agents: set<int>, prevIDs: map<string, int>, topics: seq<TopicMeta>, i: nat, j: nat)
    requires DistinctTopics(topics) && i < |topics| && topics[i].name.Some? && topics[i].errorCode == 0
    requires DistinctPartitions(topics[i].partitions) && j < |topics[i].partitions|
    ensures var x := Extract(agents, prevIDs, topics);
            var tp := TopicPartition(topics[i].name.value, topics[i].partitions[j].partition);
            tp in x.leaders ==> x.leaders[tp] == topics[i].partitions[j].leader
  {
    hide Extract, ScanAll;
    var name, ps := topics[i].name.value, topics[i].partitions;
    TopicDecidesItself(agents, prevIDs, topics, i);
    var x0 :| Untouched(x0, name)
      && SameAbout(ExtractTopic(agents, prevIDs, x0, topics[i]), Extract(agents, prevIDs, topics), name);
    ScanPlaces(name, agents, x0.(topicIDs := x0.topicIDs[name := topics[i].topicID]), ps, j);
  }

  // ---- How a lookup is classified ----

  /** A listed partition of an error-free topic, from the metadata: its live leader; the agent at its
      hash position when it names a leader that is not a broker; a miss when it names none, or when
      there is no broker to stand in. */
  lemma ListedIsClassified(agents: seq<int>, prevIDs: map<string, int>, topics: seq<TopicMeta>, i: nat, j: nat, hash: nat)
    requires DistinctTopics(topics)
    requires i < |topics| && topics[i].name.Some? && topics[i].errorCode == 0
    requires DistinctPartitions(topics[i].partitions) && j < |topics[i].partitions|
    requires topics[i].partitions[j].partition >= 0
    ensures var p := topics[i].partitions[j];
            var s := NewStrategy(agents, Extract(Elements(agents), prevIDs, topics));
            Primary(s, hash, TopicPartition(topics[i].name.value, p.partition))
              == if p.leader < 0 then (None, MissNoLeader)
                 else if p.leader in agents then (Some(p.leader), Leader)
                 else if agents == [] then (None, MissEmptyPool)
                 else (Some(agents[hash % |agents|]), StandIn)
  {
    hide Extract;
    ListedPartition(Elements(agents), prevIDs, topics, i, j);
    ListedLeader(Elements(agents), prevIDs, topics, i, j);
  }

  lemma UnlistedPartition(agents: set<int>, prevIDs: map<string, int>, topics: seq<TopicMeta>, i: nat, q: int)
    requires DistinctTopics(topics) && i < |topics| && topics[i].name.Some? && topics[i].errorCode == 0
    requires forall p :: p in topics[i].partitions ==> p.partition != q
    ensures var x, name := Extract(agents, prevIDs, topics), topics[i].name.value;
            && TopicPartition(name, q) !in x.leaders && TopicPartition(name, q) !in x.noLeader
            && name in x.partitionCounts
            && (q >= 0 && (forall p :: p in topics[i].partitions ==> p.partition < q) ==> x.partitionCounts[name] <= q)
  {
    hide Extract, ScanAll;
    var name, ps := topics[i].name.value, topics[i].partitions;
    TopicDecidesItself(agents, prevIDs, topics, i);
    var x0 :| Untouched(x0, name)
      && SameAbout(ExtractTopic(agents, prevIDs, x0, topics[i]), Extract(agents, prevIDs, topics), name);
    var x1 := x0.(topicIDs := x0.topicIDs[name := topics[i].topicID]);
    NotScannedYet(name, agents, x1, ps, q);
    if q >= 0 && forall p :: p in ps ==> p.partition < q {
      ScanMax(name, agents, x1, ps, q);
    }
  }

  /** A partition beyond all that an error-free topic lists, or a negative one, is out of range. */
  lemma BeyondListedIsOutOfRange(agents: seq<int>, prevIDs: map<string, int>, topics: seq<TopicMeta>, i: nat, q: int, hash: nat)
    requires DistinctTopics(topics) && agents != []
    requires i < |topics| && topics[i].name.Some? && topics[i].errorCode == 0
    requires forall p :: p in topics[i].partitions ==> 0 <= p.partition && (q < 0 || p.partition < q)
    ensures Primary(NewStrategy(agents, Extract(Elements(agents), prevIDs, topics)), hash, TopicPartition(topics[i].name.value, q))
         == (None, MissOutOfRange)
  {
    hide Extract;
    UnlistedPartition(Elements(agents), prevIDs, topics, i, q);
  }

  /** A topic the metadata does not list is unknown. */
  lemma UnlistedTopicIsUnknown(agents: seq<int>, prevIDs: map<string, int>, topics: seq<TopicMeta>, tp: TopicPartition, hash: nat)
    requires agents != [] && forall t :: t in topics ==> t.name != Some(tp.topic)
    ensures Primary(NewStrategy(agents, Extract(Elements(agents), prevIDs, topics)), hash, tp) == (None, MissUnknownTopic)
  {
    hide Extract;
    UntouchedUntilListed(Elements(agents), prevIDs, topics, tp.topic);
    var x := Extract(Elements(agents), prevIDs, topics);
    assert tp == TopicPartition(tp.topic, tp.partition);
    forall p | p in x.leaders
      ensures p.topic != tp.topic
    {
      assert p == TopicPartition(p.topic, p.partition);
    }
  }
}
