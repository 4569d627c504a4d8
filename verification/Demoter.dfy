/** The demotion policy around the routing strategy: skip agents judged faulty, probe them now
    and then, and never refuse to route. */
module Demoters {
  import opened Basics
  import opened ClusterStatistics
  import opened StatsRings
  import opened PartitionAssignment

  /** When an agent was last probed; a freshly demoted one never was. */
  datatype ProbeTime = Never | At(t: int)

  type Probes = map<int, ProbeTime>

  datatype Agent = Agent(id: int, state: AgentState)

  /** One pass sees one reading of the tracker. */
  datatype Reading = Reading(now: int, stats: map<int, AgentStats>, cluster: Cluster)

  // ---- The verdict on one agent ----

  function Floor(c: Cluster): nat {
    ErrorRateMinRequests(c.faultyThreshold, c.avgRequests)
  }

  /** Once demoted, a single request is enough to keep the agent under judgement. */
  predicate Verdict(wasDemoted: bool, a: AgentStats, c: Cluster) {
    a.requests >= (if wasDemoted then 1 else Floor(c)) && a.errorRate > c.faultyThreshold
  }

  predicate Judge(m: Probes, r: Reading, id: int) {
    id in r.stats && Verdict(id in m, r.stats[id], r.cluster)
  }

  /** The demotion and recovery edges; an agent without stats is left as it is. */
  function AfterJudging(m: Probes, r: Reading, id: int): Probes {
    if id !in r.stats then m
    else if Judge(m, r, id) && id !in m then m[id := Never]
    else if id in m && !Judge(m, r, id) then m - {id}
    else m
  }

  /** With the same stats, judging again gives the same verdict and changes nothing. */
  ghost predicate StableOn(m: Probes, r: Reading, id: int) {
    var m' := AfterJudging(m, r, id);
    Judge(m', r, id) == Judge(m, r, id) && AfterJudging(m', r, id) == m'
  }

  /** The one figure that could be judged differently once demoted: a failing agent without requests,
      under a floor of none. */
  predicate Steady(r: Reading, id: int) {
    id in r.stats ==> Floor(r.cluster) >= 1 || r.stats[id].requests >= 1 || r.stats[id].errorRate <= r.cluster.faultyThreshold
  }

  ghost predicate AllSteady(r: Reading) {
    forall id :: Steady(r, id)
  }

  /** Judging an agent is stable in every state exactly when its figures are steady. */
  lemma HysteresisIsStableExactly(r: Reading, id: int)
    ensures (forall m: Probes :: StableOn(m, r, id)) <==> Steady(r, id)
  {
    hide ErrorRateMinRequests;
    if !Steady(r, id) {
      var m: Probes := map[id := Never];
      assert !Judge(m, r, id) && AfterJudging(m, r, id) == map[];
      assert Judge(map[], r, id);
      assert !StableOn(m, r, id);
    }
  }

  /** The figures the tracker gives are always steady, whatever was recorded, in whatever order,
      and whatever the configured threshold: it answers only from two buckets on. */
  lemma TrackerFiguresAreSteady(r: Reading, id: int, log: seq<Request>, now: int)
    requires id in r.stats ==> AgentStatsOf(SnapshotOf(Replay(log), now)) == Some(r.stats[id])
    ensures Steady(r, id) && forall m: Probes :: StableOn(m, r, id)
  {
    hide ErrorRateMinRequests, Replay, SnapshotOf, StableOn;
    FilledIsAtMostTotal(Replay(log), now);
    HysteresisIsStableExactly(r, id);
  }

  // ---- Building the list ----

  /** Whether a probe slot may be taken; an agent with no entry is always due. */
  predicate Due(m: Probes, now: int, interval: int, id: int) {
    id in m && m[id].At? ==> now - m[id].t >= interval
  }

  /** The walk over the inner candidates: healthy agents are kept, a demoted one only in the
      first slot and only when it takes its probe slot. */
  function Build(list: seq<int>, max: int, bad: int -> bool, due: int -> bool, acc: seq<Agent>): seq<Agent>
    decreases |list|
  {
    if list == [] || |acc| >= max then acc
    else if !bad(list[0]) then Build(list[1..], max, bad, due, acc + [Agent(list[0], Healthy)])
    else if acc == [] && due(list[0]) then Build(list[1..], max, bad, due, [Agent(list[0], Demoted)])
    else Build(list[1..], max, bad, due, acc)
  }

  /** With nothing to return, the natural primary is probed anyway. */
  function OneShot(list: seq<int>, max: int, bad: int -> bool, due: int -> bool): seq<Agent> {
    var built := Build(list, max, bad, due, []);
    if built == [] && list != [] then [Agent(list[0], Demoted)] else built
  }

  function HealthyOnes(list: seq<int>, bad: int -> bool): seq<int> {
    if list == [] then []
    else if bad(list[0]) then HealthyOnes(list[1..], bad)
    else [list[0]] + HealthyOnes(list[1..], bad)
  }

  /** The first demoted agent that is due, among those ahead of every healthy one. */
  function ProbeOf(list: seq<int>, bad: int -> bool, due: int -> bool): Option<int> {
    if list == [] || !bad(list[0]) then None
    else if due(list[0]) then Some(list[0])
    else ProbeOf(list[1..], bad, due)
  }

  function AsHealthy(ids: seq<int>): seq<Agent> {
    if ids == [] then [] else [Agent(ids[0], Healthy)] + AsHealthy(ids[1..])
  }

  function Take<T>(s: seq<T>, n: int): seq<T> {
    if n <= 0 then [] else if n >= |s| then s else s[..n]
  }

  lemma {:induction false} BuildAfterFirst(list: seq<int>, max: int, bad: int -> bool, due: int -> bool, acc: seq<Agent>)
    requires acc != []
    ensures Build(list, max, bad, due, acc) == acc + AsHealthy(Take(HealthyOnes(list, bad), max - |acc|))
    decreases |list|
  {
    if list == [] || |acc| >= max {
      assert acc + [] == acc;
    } else {
      var rest := list[1..];
      if bad(list[0]) {
        BuildAfterFirst(rest, max, bad, due, acc);
      } else {
        var acc' := acc + [Agent(list[0], Healthy)];
        BuildAfterFirst(rest, max, bad, due, acc');
        TakeCons(list[0], HealthyOnes(rest, bad), max - |acc|);
        var tail := AsHealthy(Take(HealthyOnes(rest, bad), max - |acc|  - 1));
        assert acc' + tail == acc + ([Agent(list[0], Healthy)] + tail);
      }
    }
  }

  lemma TakeCons(x: int, rest: seq<int>, n: int)
    requires n >= 1
    ensures AsHealthy(Take([x] + rest, n)) == [Agent(x, Healthy)] + AsHealthy(Take(rest, n - 1))
  {
    var taken := Take([x] + rest, n);
    assert taken[0] == x && taken[1..] == Take(rest, n - 1);
  }

  lemma {:induction false} BuildFromStart(list: seq<int>, max: int, bad: int -> bool, due: int -> bool)
    requires max >= 1
    ensures Build(list, max, bad, due, [])
         == match ProbeOf(list, bad, due)
            case Some(a) => [Agent(a, Demoted)] + AsHealthy(Take(HealthyOnes(list, bad), max - 1))
            case None => AsHealthy(Take(HealthyOnes(list, bad), max))
    decreases |list|
  {
    if list != [] {
      var rest := list[1..];
      if !bad(list[0]) {
        BuildAfterFirst(rest, max, bad, due, [Agent(list[0], Healthy)]);
        assert [] + [Agent(list[0], Healthy)] == [Agent(list[0], Healthy)];
        TakeCons(list[0], HealthyOnes(rest, bad), max);
      } else if due(list[0]) {
        BuildAfterFirst(rest, max, bad, due, [Agent(list[0], Demoted)]);
      } else {
        BuildFromStart(rest, max, bad, due);
      }
    }
  }

  /** The list, said directly: the probe if one is due ahead of the healthy agents, then as many
      healthy agents as fit, in order; or the forced probe when that leaves nothing. */
  lemma OneShotShape(list: seq<int>, max: int, bad: int -> bool, due: int -> bool)
    requires max >= 1
    ensures var healthy, probe := HealthyOnes(list, bad), ProbeOf(list, bad, due);
            OneShot(list, max, bad, due)
              == if probe.Some? then [Agent(probe.value, Demoted)] + AsHealthy(Take(healthy, max - 1))
                 else if healthy != [] then AsHealthy(Take(healthy, max))
                 else if list != [] then [Agent(list[0], Demoted)]
                 else []
  {
    BuildFromStart(list, max, bad, due);
    var healthy := HealthyOnes(list, bad);
    if healthy != [] {
      assert Take(healthy, max) != [];
    }
  }

  lemma {:induction false} AsHealthyAt(ids: seq<int>)
    ensures |AsHealthy(ids)| == |ids|
    ensures forall i :: 0 <= i < |ids| ==> AsHealthy(ids)[i] == Agent(ids[i], Healthy)
  {
    if ids != [] {
      AsHealthyAt(ids[1..]);
    }
  }

  lemma {:induction false} HealthyOnesAre(list: seq<int>, bad: int -> bool)
    ensures forall a :: a in HealthyOnes(list, bad) <==> a in list && !bad(a)
  {
    if list != [] {
      HealthyOnesAre(list[1..], bad);
    }
  }

  lemma {:induction false} ProbeIsBad(list: seq<int>, bad: int -> bool, due: int -> bool)
    ensures var p := ProbeOf(list, bad, due); p.Some? ==> p.value in list && bad(p.value) && due(p.value)
  {
    if list != [] {
      ProbeIsBad(list[1..], bad, due);
    }
  }

  /** Non-empty whenever the inner list is, never longer than asked, all from the inner list, and
      an agent is marked demoted exactly when it is judged so, which happens only in the first slot. */
  lemma OneShotPromises(list: seq<int>, max: int, bad: int -> bool, due: int -> bool)
    requires max >= 1
    ensures var r := OneShot(list, max, bad, due);
            && (r != [] <==> list != [])
            && |r| <= max
            && (forall i :: 0 <= i < |r| ==> r[i].id in list && (r[i].state == Demoted <==> bad(r[i].id)))
            && (forall i :: 1 <= i < |r| ==> r[i].state == Healthy)
  {
    var healthy := HealthyOnes(list, bad);
    OneShotShape(list, max, bad, due);
    AsHealthyAt(Take(healthy, max - 1));
    AsHealthyAt(Take(healthy, max));
    HealthyOnesAre(list, bad);
    ProbeIsBad(list, bad, due);
    TakeIsWithin(healthy, max - 1);
    TakeIsWithin(healthy, max);
    if list != [] && healthy == [] {
      assert list[0] in list;
    }
  }

  lemma TakeIsWithin(s: seq<int>, n: int)
    ensures |Take(s, n)| <= (if n <= 0 then 0 else n) && forall a :: a in Take(s, n) ==> a in s
  {
  }

  // ---- The doubling lookup ----

  lemma {:induction false} HealthyOnesAppend(a: seq<int>, b: seq<int>, bad: int -> bool)
    ensures HealthyOnes(a + b, bad) == HealthyOnes(a, bad) + HealthyOnes(b, bad)
  {
    if a == [] {
      assert a + b == b;
    } else {
      assert (a + b)[1..] == a[1..] + b;
      HealthyOnesAppend(a[1..], b, bad);
    }
  }

  lemma {:induction false} ProbeOfAppend(a: seq<int>, b: seq<int>, bad: int -> bool, due: int -> bool)
    requires HealthyOnes(a, bad) != []
    ensures ProbeOf(a + b, bad, due) == ProbeOf(a, bad, due)
  {
    assert (a + b)[1..] == a[1..] + b;
    if bad(a[0]) && !due(a[0]) {
      ProbeOfAppend(a[1..], b, bad, due);
    }
  }

  /** A prefix with enough healthy agents already decides the answer. */
  lemma PrefixDecides(list: seq<int>, n: nat, max: int, bad: int -> bool, due: int -> bool)
    requires max >= 1 && n <= |list| && |HealthyOnes(list[..n], bad)| >= max
    ensures OneShot(list[..n], max, bad, due) == OneShot(list, max, bad, due)
  {
    var a, b := list[..n], list[n..];
    assert list == a + b;
    HealthyOnesAppend(a, b, bad);
    ProbeOfAppend(a, b, bad, due);
    OneShotShape(a, max, bad, due);
    OneShotShape(list, max, bad, due);
    var h, all := HealthyOnes(a, bad), HealthyOnes(list, bad);
    assert Take(h, max) == Take(all, max) && Take(h, max - 1) == Take(all, max - 1);
  }

  /** With no demoted agent in sight the first entries are returned as they are. */
  lemma {:induction false} AllHealthy(list: seq<int>, max: int, bad: int -> bool, due: int -> bool)
    requires max >= 1 && (forall a :: a in list ==> !bad(a))
    ensures HealthyOnes(list, bad) == list
    ensures OneShot(list, max, bad, due) == AsHealthy(Take(list, max))
  {
    KeepsAll(list, bad);
    OneShotShape(list, max, bad, due);
    if list != [] {
      assert list[0] in list;
    }
  }

  lemma {:induction false} KeepsAll(list: seq<int>, bad: int -> bool)
    requires forall a :: a in list ==> !bad(a)
    ensures HealthyOnes(list, bad) == list
  {
    if list != [] {
      var first := list[0];
      assert first in list;
      assert !bad(first);
      KeepsAll(list[1..], bad);
      assert HealthyOnes(list, bad) == [list[0]] + list[1..];
    }
  }

  // ---- State after a pass ----

  /** The verdicts of a pass, fixed by the state it started from. */
  function BadAt(m: Probes, r: Reading): int -> bool {
    (id: int) => Judge(m, r, id)
  }

  function DueAt(m: Probes, r: Reading, interval: int): int -> bool {
    (id: int) => Due(m, r.now, interval, id)
  }

  /** m after the agents of seen have been judged, in any order and any number of times. */
  ghost function Settled(m: Probes, r: Reading, seen: set<int>): Probes {
    map id | id in m.Keys + seen && (if id in seen && id in r.stats then Judge(m, r, id) else id in m) ::
      if id in m then m[id] else Never
  }

  lemma SettleOne(m: Probes, r: Reading, seen: set<int>, id: int)
    requires Steady(r, id)
    ensures Judge(Settled(m, r, seen), r, id) == Judge(m, r, id)
    ensures AfterJudging(Settled(m, r, seen), r, id) == Settled(m, r, seen + {id})
  {
    hide ErrorRateMinRequests;
  }

  /** A demoted agent is as due after the judging as it was before it. */
  lemma DueIsSettled(m: Probes, r: Reading, seen: set<int>, interval: int, id: int)
    requires Judge(m, r, id) && id in seen
    ensures Due(Settled(m, r, seen), r.now, interval, id) == Due(m, r.now, interval, id)
  {
  }

  const EXTRA_MAX: int := 64

  class Demoter {
    const interval: int
    const maxFaultyFraction: real
    var lastProbe: Probes

    constructor (interval: int, maxFaultyFraction: real)
      ensures this.interval == interval && this.maxFaultyFraction == maxFaultyFraction && lastProbe == map[]
    {
      this.interval, this.maxFaultyFraction, lastProbe := interval, maxFaultyFraction, map[];
    }

    method IsDemoted(r: Reading, id: int) returns (faulty: bool)
      modifies this
      ensures faulty == Judge(old(lastProbe), r, id)
      ensures lastProbe == AfterJudging(old(lastProbe), r, id)
    {
      if id !in r.stats {
        return false;
      }
      var stats := r.stats[id];
      var minRequests := ErrorRateMinRequests(r.cluster.faultyThreshold, r.cluster.avgRequests);
      var wasDemoted := id in lastProbe;
      if wasDemoted {
        minRequests := 1;
      }
      faulty := stats.requests >= minRequests && stats.errorRate > r.cluster.faultyThreshold;
      if faulty && !wasDemoted {
        lastProbe := lastProbe[id := Never];
      } else if wasDemoted && !faulty {
        lastProbe := lastProbe - {id};
      }
    }

    /** Takes the probe slot if it is due. */
    method ShouldProbe(now: int, id: int) returns (granted: bool)
      modifies this
      ensures granted == Due(old(lastProbe), now, interval, id)
      ensures lastProbe == if granted then old(lastProbe)[id := At(now)] else old(lastProbe)
    {
      if id in lastProbe && lastProbe[id].At? && now - lastProbe[id].t < interval {
        return false;
      }
      lastProbe := lastProbe[id := At(now)];
      return true;
    }

    /** Forgets every agent that has left the pool. */
    method Refresh(currentAgents: seq<int>)
      modifies this
      ensures lastProbe == Kept(old(lastProbe), Elements(currentAgents))
    {
      var left: set<int> := lastProbe.Keys;
      ghost var before := lastProbe;
      while exists id :: id in left
        invariant lastProbe == Kept(before, left + Elements(currentAgents))
        decreases left
      {
        var id :| id in left;
        if id !in currentAgents {
          lastProbe := lastProbe - {id};
        }
        left := left - {id};
      }
      assert left + Elements(currentAgents) == Elements(currentAgents);
    }

    /** Judges every agent of the list and counts the healthy ones. */
    method Examine(r: Reading, list: seq<int>, ghost m: Probes, ghost seen: set<int>)
      returns (nonDemoted: nat, noneDemoted: bool)
      requires AllSteady(r) && lastProbe == Settled(m, r, seen)
      modifies this
      ensures lastProbe == Settled(m, r, seen + Elements(list))
      ensures nonDemoted == |HealthyOnes(list, BadAt(m, r))|
      ensures noneDemoted <==> forall a :: a in list ==> !Judge(m, r, a)
    {
      hide Settled, Judge, AfterJudging, HealthyOnes, ErrorRateMinRequests;
      nonDemoted, noneDemoted := 0, true;
      assert seen + Elements(list[..0]) == seen;
      NoneCounted(list, BadAt(m, r));
      for i := 0 to |list|
        invariant lastProbe == Settled(m, r, seen + Elements(list[..i]))
        invariant nonDemoted == |HealthyOnes(list[..i], BadAt(m, r))|
        invariant noneDemoted <==> forall a :: a in list[..i] ==> !Judge(m, r, a)
      {
        SettleOne(m, r, seen + Elements(list[..i]), list[i]);
        CountOne(list, i, BadAt(m, r));
        assert list[..i + 1] == list[..i] + [list[i]];
        assert seen + Elements(list[..i]) + {list[i]} == seen + Elements(list[..i + 1]);
        var demoted := IsDemoted(r, list[i]);
        if !demoted {
          nonDemoted := nonDemoted + 1;
        } else {
          noneDemoted := false;
        }
      }
      assert list[..|list|] == list;
    }

    /** The walk of the build pass: the same list as the one-shot walk, with at most one stamp. */
    method BuildPass(r: Reading, list: seq<int>, max: int, ghost m: Probes, ghost seen: set<int>)
      returns (out: seq<Agent>)
      requires AllSteady(r) && max >= 1 && Elements(list) <= seen && lastProbe == Settled(m, r, seen)
      modifies this
      ensures out == Build(list, max, BadAt(m, r), DueAt(m, r, interval), [])
      ensures lastProbe == Stamped(Settled(m, r, seen), r.now, out)
    {
      hide Settled, Judge, AfterJudging, ErrorRateMinRequests, Due;
      out := [];
      for i := 0 to |list|
        invariant Build(list[i..], max, BadAt(m, r), DueAt(m, r, interval), out)
               == Build(list, max, BadAt(m, r), DueAt(m, r, interval), [])
        invariant lastProbe == Stamped(Settled(m, r, seen), r.now, out)
        invariant out != [] && out[0].state == Demoted ==> Judge(m, r, out[0].id) && out[0].id in seen
      {
        if |out| >= max {
          break;
        }
        var id := list[i];
        assert id in Elements(list);
        assert list[i..][0] == id && list[i..][1..] == list[i + 1..];
        JudgedAgain(m, r, seen, out, id);
        var demoted := IsDemoted(r, id);
        if !demoted {
          out := out + [Agent(id, Healthy)];
          continue;
        }
        if |out| > 0 {
          continue;
        }
        DueIsSettled(m, r, seen, interval, id);
        var granted := ShouldProbe(r.now, id);
        if granted {
          out := [Agent(id, Demoted)];
        }
      }
    }

    /** The lookup as a whole: ask for a little more than needed and double the headroom until
        enough healthy agents are seen or the pool is exhausted, then build the list. The answer is
        the one-shot walk over the longest list, judged by the state before the call. */
    method CandidatesWithRoute(inner: Strategy, hash: nat, tp: TopicPartition, max: int, now: int,
                               stats: map<int, AgentStats>, cluster: Option<Cluster>)
      returns (out: seq<Agent>, route: Route)
      requires cluster.Some? ==> AllSteady(Reading(now, stats, cluster.value))
      modifies this
      ensures max <= 0 ==> out == [] && route == Unclassified && lastProbe == old(lastProbe)
      ensures max >= 1 ==> route == Candidates(inner, hash, tp, max).1
      ensures max >= 1 && Suppressed(cluster, maxFaultyFraction) ==>
                out == AsHealthy(Candidates(inner, hash, tp, max).0) && lastProbe == old(lastProbe)
      ensures max >= 1 && !Suppressed(cluster, maxFaultyFraction) ==>
                var r := Reading(now, stats, cluster.value);
                && out == OneShot(Candidates(inner, hash, tp, max + EXTRA_MAX).0, max,
                                  BadAt(old(lastProbe), r), DueAt(old(lastProbe), r, interval))
                && lastProbe == Stamped(Settled(old(lastProbe), r, Examined(inner, hash, tp, max, old(lastProbe), r)), now, out)
    {
      if max <= 0 {
        return [], Unclassified;
      }
      if Suppressed(cluster, maxFaultyFraction) {
        var plain;
        plain, route := PartitionAssignment.CandidatesWithRoute(inner, hash, tp, max);
        return AsHealthy(plain), route;
      }
      out, route := LookupAndBuild(inner, hash, tp, max, Reading(now, stats, cluster.value));
    }

    method LookupAndBuild(inner: Strategy, hash: nat, tp: TopicPartition, max: int, r: Reading)
      returns (out: seq<Agent>, route: Route)
      requires AllSteady(r) && max >= 1
      modifies this
      ensures route == Candidates(inner, hash, tp, max).1
      ensures out == OneShot(Candidates(inner, hash, tp, max + EXTRA_MAX).0, max,
                             BadAt(old(lastProbe), r), DueAt(old(lastProbe), r, interval))
      ensures lastProbe == Stamped(Settled(old(lastProbe), r, Examined(inner, hash, tp, max, old(lastProbe), r)), r.now, out)
    {
      hide Settled, Judge, AfterJudging, ErrorRateMinRequests, Due, Candidates, HealthyOnes, Examined, Build;
      ghost var m := lastProbe;
      var agents, noneDemoted;
      agents, noneDemoted, route := Lookup(inner, hash, tp, max, r);
      if |agents| == 0 {
        NothingBuilt(max, BadAt(m, r), DueAt(m, r, interval));
        return [], route;
      }
      if noneDemoted {
        AllHealthy(agents, max, BadAt(m, r), DueAt(m, r, interval));
        out := AsHealthy(Take(agents, max));
        AsHealthyAt(Take(agents, max));
        return;
      }
      out := BuildPass(r, agents, max, m, Elements(agents));
      if |out| == 0 {
        out := [Agent(agents[0], Demoted)];
        lastProbe := lastProbe[agents[0] := At(r.now)];
      }
    }

    /** The doubling loop. It stops on a prefix that already decides the answer. */
    method Lookup(inner: Strategy, hash: nat, tp: TopicPartition, max: int, r: Reading)
      returns (agents: seq<int>, noneDemoted: bool, route: Route)
      requires AllSteady(r) && max >= 1
      modifies this
      ensures route == Candidates(inner, hash, tp, max).1
      ensures Elements(agents) == Examined(inner, hash, tp, max, old(lastProbe), r)
      ensures lastProbe == Settled(old(lastProbe), r, Elements(agents))
      ensures noneDemoted <==> forall a :: a in agents ==> !Judge(old(lastProbe), r, a)
      ensures var full := Candidates(inner, hash, tp, max + EXTRA_MAX).0;
              OneShot(agents, max, BadAt(old(lastProbe), r), DueAt(old(lastProbe), r, interval))
                == OneShot(full, max, BadAt(old(lastProbe), r), DueAt(old(lastProbe), r, interval))
    {
      hide Settled, Judge, AfterJudging, ErrorRateMinRequests, Due, Candidates, HealthyOnes, OneShot, BadAt, DueAt;
      ghost var m := lastProbe;
      ghost var full := Candidates(inner, hash, tp, max + EXTRA_MAX).0;
      ShorterIsPrefix(inner, hash, tp, max + EXTRA_MAX, max + EXTRA_MAX);
      NothingSettled(m, r);
      ghost var n := 0;
      assert Elements(full[..0]) == {};
      var retry, extra := 0, 2;
      while true
        invariant 0 <= retry < 6 && extra == [2, 4, 8, 16, 32, 64][retry]
        invariant 0 <= n <= |full| && n <= max + extra
        invariant lastProbe == Settled(m, r, Elements(full[..n]))
        invariant Looked(full, max, extra, BadAt(m, r)) == Looked(full, max, 2, BadAt(m, r))
        decreases 6 - retry
      {
        var asked := max + extra;
        agents, route := PartitionAssignment.CandidatesWithRoute(inner, hash, tp, asked);
        ShorterIsPrefix(inner, hash, tp, asked, max + EXTRA_MAX);
        ShorterIsPrefix(inner, hash, tp, max, asked);
        var nonDemoted;
        nonDemoted, noneDemoted := Examine(r, agents, m, Elements(full[..n]));
        PrefixElements(full, n, |agents|);
        n := |agents|;
        if nonDemoted >= max || |agents| < asked || retry == 5 {
          StopDecides(full, agents, asked, max, nonDemoted, BadAt(m, r), DueAt(m, r, interval));
          return;
        }
        retry, extra := retry + 1, extra * 2;
      }
    }
  }

  /** How much of the longest list the doubling lookup looks at. */
  ghost function Looked(full: seq<int>, max: int, extra: int, bad: int -> bool): nat
    requires max >= 1 && extra >= 2
    decreases EXTRA_MAX - extra
  {
    var n := Min(max + extra, |full|);
    if |HealthyOnes(full[..n], bad)| >= max || n < max + extra || extra >= EXTRA_MAX then n
    else Looked(full, max, extra * 2, bad)
  }

  ghost function Examined(inner: Strategy, hash: nat, tp: TopicPartition, max: int, m: Probes, r: Reading): set<int>
    requires max >= 1
  {
    var full := Candidates(inner, hash, tp, max + EXTRA_MAX).0;
    LookedIsWithin(full, max, 2, BadAt(m, r));
    Elements(full[..Looked(full, max, 2, BadAt(m, r))])
  }

  lemma {:induction false} LookedIsWithin(full: seq<int>, max: int, extra: int, bad: int -> bool)
    requires max >= 1 && extra >= 2
    ensures Looked(full, max, extra, bad) <= |full|
    decreases EXTRA_MAX - extra
  {
    var n := Min(max + extra, |full|);
    if |HealthyOnes(full[..n], bad)| < max && n == max + extra && extra < EXTRA_MAX {
      LookedIsWithin(full, max, extra * 2, bad);
    }
  }

  lemma PrefixElements(full: seq<int>, n: nat, k: nat)
    requires n <= k <= |full|
    ensures Elements(full[..n]) + Elements(full[..k]) == Elements(full[..k])
  {
  }

  lemma NothingBuilt(max: int, bad: int -> bool, due: int -> bool)
    ensures OneShot([], max, bad, due) == []
  {
  }

  /** Demotion is off without a cluster view, or when too many agents are faulty. */
  predicate Suppressed(cluster: Option<Cluster>, maxFaultyFraction: real) {
    cluster.None? || TooManyFaulty(cluster.value, maxFaultyFraction)
  }

  /** A demoted agent in the first slot has its probe time set. */
  function Stamped(m: Probes, now: int, out: seq<Agent>): Probes {
    if out != [] && out[0].state == Demoted then m[out[0].id := At(now)] else m
  }

  lemma NothingSettled(m: Probes, r: Reading)
    ensures Settled(m, r, {}) == m
  {
  }

  lemma NoneCounted(list: seq<int>, bad: int -> bool)
    ensures HealthyOnes(list[..0], bad) == []
  {
  }

  lemma CountOne(list: seq<int>, i: nat, bad: int -> bool)
    requires i < |list|
    ensures |HealthyOnes(list[..i + 1], bad)| == |HealthyOnes(list[..i], bad)| + if bad(list[i]) then 0 else 1
  {
    assert list[..i + 1] == list[..i] + [list[i]];
    HealthyOnesAppend(list[..i], [list[i]], bad);
    assert [list[i]][1..] == [];
  }

  lemma JudgedAgain(m: Probes, r: Reading, seen: set<int>, out: seq<Agent>, id: int)
    requires AllSteady(r) && id in seen
    requires out != [] && out[0].state == Demoted ==> Judge(m, r, out[0].id) && out[0].id in seen
    ensures var s := Stamped(Settled(m, r, seen), r.now, out);
            Judge(s, r, id) == Judge(m, r, id) && AfterJudging(s, r, id) == s
  {
    hide ErrorRateMinRequests;
    assert Steady(r, id);
    SettleOne(m, r, seen, id);
    assert seen + {id} == seen;
  }

  lemma StopDecides(full: seq<int>, agents: seq<int>, asked: int, max: int, nonDemoted: nat, bad: int -> bool, due: int -> bool)
    requires 1 <= max < asked <= max + EXTRA_MAX
    requires agents == full[..Min(asked, |full|)] && |full| <= max + EXTRA_MAX
    requires nonDemoted == |HealthyOnes(agents, bad)|
    requires nonDemoted >= max || |agents| < asked || asked == max + EXTRA_MAX
    ensures OneShot(agents, max, bad, due) == OneShot(full, max, bad, due)
  {
    if nonDemoted >= max {
      PrefixDecides(full, |agents|, max, bad, due);
    } else {
      assert agents == full;
    }
  }

  // ---- How much can be demoted ----

  /** The tracker answers for agent ids[i] out of its snapshot snaps[i]. */
  ghost predicate ReadFrom(r: Reading, ids: seq<int>, snaps: seq<Snapshot>) {
    && |ids| == |snaps|
    && forall i :: 0 <= i < |ids| ==>
         && (ids[i] in r.stats <==> AgentStatsOf(snaps[i]).Some?)
         && (ids[i] in r.stats ==> r.stats[ids[i]] == AgentStatsOf(snaps[i]).value)
  }

  /** An agent that is not demoted yet is judged faulty by the Demoter exactly when the view it is
      judged against counted it as faulty. */
  lemma DemoterJudgesTheCounted(m: Probes, r: Reading, ids: seq<int>, snaps: seq<Snapshot>, slowMultiplier: real, i: nat)
    requires ReadFrom(r, ids, snaps) && WellFormed(snaps) && i < |ids| && ids[i] !in m
    requires View(snaps, slowMultiplier, r.cluster.faultyThreshold) == Some(r.cluster)
    ensures Judge(m, r, ids[i]) <==> JudgedAgent(r.cluster, snaps[i])
    ensures Judge(m, r, ids[i]) <==> IsFaulty(snaps[i], r.cluster.faultyThreshold, MinRequests(snaps, r.cluster.faultyThreshold))
  {
    hide ErrorRateMinRequests, IsFaulty, AgentStatsOf;
    assert snaps[i] in snaps;
    VerdictIsTheCount(r.cluster, snaps[i]);
    UnprovenVerdict(m, r, ids[i], AgentStatsOf(snaps[i]));
    assert r.cluster.avgRequests == AvgRequests(snaps);
  }

  lemma UnprovenVerdict(m: Probes, r: Reading, id: int, figures: Option<AgentStats>)
    requires id !in m && (id in r.stats <==> figures.Some?) && (id in r.stats ==> figures.value == r.stats[id])
    ensures Judge(m, r, id) <==> figures.Some? && JudgedFaulty(r.cluster, figures.value)
  {
    hide ErrorRateMinRequests;
  }

  lemma ReadFromTail(r: Reading, ids: seq<int>, snaps: seq<Snapshot>)
    requires ReadFrom(r, ids, snaps) && ids != []
    ensures ReadFrom(r, ids[1..], snaps[1..])
    ensures Judge(map[], r, ids[0]) ==> JudgedOne(r.cluster)(snaps[0]) == 1
  {
    hide AgentStatsOf, JudgedFaulty, Judge;
    assert forall i :: 0 <= i < |ids| - 1 ==> ids[1..][i] == ids[i + 1] && snaps[1..][i] == snaps[i + 1];
    UnprovenVerdict(map[], r, ids[0], AgentStatsOf(snaps[0]));
  }

  lemma WithoutFirst(ids: seq<int>, bad: set<int>)
    requires ids != [] && bad <= Elements(ids)
    ensures bad - {ids[0]} <= Elements(ids[1..])
    ensures |bad - {ids[0]}| == if ids[0] in bad then |bad| - 1 else |bad|
  {
    assert ids == [ids[0]] + ids[1..];
    if ids[0] !in bad {
      assert bad - {ids[0]} == bad;
    }
  }

  lemma {:induction false} JudgedAreCounted(r: Reading, ids: seq<int>, snaps: seq<Snapshot>, bad: set<int>)
    requires ReadFrom(r, ids, snaps) && bad <= Elements(ids) && (forall id :: id in bad ==> Judge(map[], r, id))
    ensures |bad| <= Sum(JudgedOne(r.cluster), snaps)
    decreases |ids|
  {
    hide Judge, JudgedAgent;
    if ids == [] {
      assert bad == {};
    } else {
      var first := ids[0];
      ReadFromTail(r, ids, snaps);
      WithoutFirst(ids, bad);
      JudgedAreCounted(r, ids[1..], snaps[1..], bad - {first});
      assert first in bad ==> Judge(map[], r, first);
    }
  }

  lemma SettledAreJudged(r: Reading, seen: set<int>)
    ensures forall id :: id in Settled(map[], r, seen) ==> id in r.stats && Judge(map[], r, id)
  {
    hide ErrorRateMinRequests;
  }

  /** From a state without demotions and on one reading of the tracker, whatever agents are
      examined, the demoted ones are within the configured fraction or a single one. */
  lemma DemotedAreBounded(r: Reading, ids: seq<int>, snaps: seq<Snapshot>, slowMultiplier: real, maxFaultyFraction: real, seen: set<int>)
    requires ReadFrom(r, ids, snaps) && r.stats.Keys <= Elements(ids) && WellFormed(snaps)
    requires View(snaps, slowMultiplier, r.cluster.faultyThreshold) == Some(r.cluster)
    requires !Suppressed(Some(r.cluster), maxFaultyFraction)
    ensures var demoted := |Settled(map[], r, seen).Keys|;
            demoted as real <= maxFaultyFraction * r.cluster.faultyContributors as real || demoted <= 1
  {
    hide View, TooManyFaulty, JudgedOne, Judge;
    SettledAreJudged(r, seen);
    JudgedAreCounted(r, ids, snaps, Settled(map[], r, seen).Keys);
    FaultyAgentsAreBounded(snaps, slowMultiplier, r.cluster.faultyThreshold, maxFaultyFraction);
  }

  /** Demotion acts exactly when there is a view and the agents judged faulty on it are within the
      configured fraction of the observed ones, or a single one. */
  lemma DemotionActsExactly(snaps: seq<Snapshot>, slowMultiplier: real, faultyThreshold: real, maxFaultyFraction: real)
    requires WellFormed(snaps)
    ensures var view := View(snaps, slowMultiplier, faultyThreshold);
            !Suppressed(view, maxFaultyFraction) <==>
            view.Some? && var judged := Sum(JudgedOne(view.value), snaps);
                          judged as real <= maxFaultyFraction * view.value.faultyContributors as real || judged <= 1
  {
    hide View, Sum, JudgedOne, TooManyFaulty;
    if View(snaps, slowMultiplier, faultyThreshold).Some? {
      FaultyAgentsAreBounded(snaps, slowMultiplier, faultyThreshold, maxFaultyFraction);
    }
  }

  /** A call that answers with a demoted agent takes that agent's slot: it is due again exactly when the
      interval has passed; no other agent's probe time changes. */
  lemma AnswerTakesTheSlot(m: Probes, now: int, out: seq<Agent>, later: int, interval: int, id: int)
    ensures var m' := Stamped(m, now, out);
            if out != [] && out[0] == Agent(id, Demoted) then Due(m', later, interval, id) <==> later - now >= interval
            else Due(m', later, interval, id) == Due(m, later, interval, id)
  {
  }

  // ---- Spacing of probes ----

  function Kept(m: Probes, pool: set<int>): Probes {
    map id | id in m && id in pool :: m[id]
  }

  /** Everything that touches the probe times, one critical section at a time. */
  datatype Event = Judged(r: Reading, id: int) | Asked(now: int, id: int) | Forced(now: int, id: int) | Refreshed(pool: set<int>)

  function After(interval: int, m: Probes, e: Event): Probes {
    match e
    case Judged(r, id) => AfterJudging(m, r, id)
    case Asked(now, id) => if Due(m, now, interval, id) then m[id := At(now)] else m
    case Forced(now, id) => m[id := At(now)]
    case Refreshed(pool) => Kept(m, pool)
  }

  function StateAt(interval: int, m: Probes, events: seq<Event>, k: nat): Probes
    requires k <= |events|
  {
    if k == 0 then m else After(interval, StateAt(interval, m, events, k - 1), events[k - 1])
  }

  predicate Stamping(e: Event) {
    e.Asked? || e.Forced?
  }

  ghost predicate ClockForward(events: seq<Event>) {
    forall i, j :: 0 <= i < j < |events| && Stamping(events[i]) && Stamping(events[j]) ==> events[i].now <= events[j].now
  }

  /** Step i grants the agent's probe slot. */
  predicate Grants(interval: int, m: Probes, events: seq<Event>, i: nat, id: int)
    requires i < |events|
  {
    events[i].Asked? && events[i].id == id && Due(StateAt(interval, m, events, i), events[i].now, interval, id)
  }

  /** The agent stays demoted from after step i up to step j. */
  ghost predicate OneEpisode(interval: int, m: Probes, events: seq<Event>, i: nat, j: nat, id: int)
    requires j <= |events|
  {
    forall k :: i < k <= j ==> id in StateAt(interval, m, events, k)
  }

  lemma {:induction false} ProbedSince(interval: int, m: Probes, events: seq<Event>, i: nat, k: nat, id: int)
    requires ClockForward(events) && i < k <= |events|
    requires Grants(interval, m, events, i, id) && OneEpisode(interval, m, events, i, k, id)
    ensures var p := StateAt(interval, m, events, k)[id]; p.At? && p.t >= events[i].now
    decreases k
  {
    if k > i + 1 {
      ProbedSince(interval, m, events, i, k - 1, id);
      assert id in StateAt(interval, m, events, k);
      if Stamping(events[k - 1]) {
        assert events[i].now <= events[k - 1].now;
      }
    }
  }

  /** Over every interleaving of judgements, probe requests, forced probes and refreshes of any
      agents: within one demotion episode two granted slots are at least the interval apart. */
  lemma ProbesAreSpaced(interval: int, m: Probes, events: seq<Event>, i: nat, j: nat, id: int)
    requires ClockForward(events) && i < j < |events|
    requires Grants(interval, m, events, i, id) && Grants(interval, m, events, j, id)
    requires OneEpisode(interval, m, events, i, j, id)
    ensures events[j].now - events[i].now >= interval
  {
    ProbedSince(interval, m, events, i, j, id);
  }

  /** Step k sets the agent's probe time. */
  predicate Stamps(interval: int, m: Probes, events: seq<Event>, k: nat, id: int)
    requires k < |events|
  {
    Grants(interval, m, events, k, id) || (events[k].Forced? && events[k].id == id)
  }

  lemma {:induction false} StampOrigin(interval: int, m: Probes, events: seq<Event>, n: nat, id: int)
    requires n <= |events| && id in StateAt(interval, m, events, n) && StateAt(interval, m, events, n)[id].At?
    ensures var p := StateAt(interval, m, events, n)[id];
            (id in m && m[id] == p) || exists k :: 0 <= k < n && Stamps(interval, m, events, k, id) && events[k].now == p.t
  {
    hide Judge;
    if n > 0 {
      var before, e := StateAt(interval, m, events, n - 1), events[n - 1];
      if (e.Asked? || e.Forced?) && e.id == id && After(interval, before, e)[id] == At(e.now) && Stamps(interval, m, events, n - 1, id) {
      } else {
        assert id in before && before[id] == StateAt(interval, m, events, n)[id];
        StampOrigin(interval, m, events, n - 1, id);
      }
    }
  }

  /** And a slot is not withheld: once the interval has passed since every probe of the agent that was
      granted or forced, the next request gets it. */
  lemma SlotIsGrantedOnceDue(interval: int, m: Probes, events: seq<Event>, j: nat, id: int)
    requires j < |events| && events[j].Asked? && events[j].id == id
    requires id in m && m[id].At? ==> events[j].now - m[id].t >= interval
    requires forall k :: 0 <= k < j && Stamps(interval, m, events, k, id) ==> events[j].now - events[k].now >= interval
    ensures Grants(interval, m, events, j, id)
  {
    hide Stamps, After;
    var s := StateAt(interval, m, events, j);
    if id in s && s[id].At? {
      StampOrigin(interval, m, events, j, id);
    }
  }

  /** A freshly demoted agent is probed at once. */
  lemma FreshDemotionIsDue(m: Probes, r: Reading, id: int, now: int, interval: int)
    requires id !in m && Judge(m, r, id)
    ensures id in AfterJudging(m, r, id) && Due(AfterJudging(m, r, id), now, interval, id)
  {
    hide ErrorRateMinRequests;
  }

  // ---- Order ----

  function Ids(agents: seq<Agent>): seq<int> {
    if agents == [] then [] else [agents[0].id] + Ids(agents[1..])
  }

  predicate Subsequence(a: seq<int>, b: seq<int>) {
    a == [] || (b != [] && (if a[0] == b[0] then Subsequence(a[1..], b[1..]) else Subsequence(a, b[1..])))
  }

  lemma {:induction false} HealthyOnesKeepOrder(list: seq<int>, bad: int -> bool, n: int)
    requires Distinct(list)
    ensures Subsequence(Take(HealthyOnes(list, bad), n), list)
    decreases |list|
  {
    if list != [] && n > 0 {
      var rest := list[1..];
      var h := HealthyOnes(rest, bad);
      if bad(list[0]) {
        HealthyOnesKeepOrder(rest, bad, n);
        HealthyOnesAre(rest, bad);
        TakeIsWithin(h, n);
        if Take(h, n) != [] {
          assert Take(h, n)[0] in Take(h, n);
        }
      } else {
        HealthyOnesKeepOrder(rest, bad, n - 1);
        var t := Take([list[0]] + h, n);
        assert t[0] == list[0] && t[1..] == Take(h, n - 1);
      }
    }
  }

  lemma IdsCons(a: Agent, rest: seq<Agent>)
    ensures Ids([a] + rest) == [a.id] + Ids(rest)
  {
    assert ([a] + rest)[1..] == rest;
  }

  lemma {:induction false} IdsOfHealthy(ids: seq<int>)
    ensures Ids(AsHealthy(ids)) == ids
  {
    hide Ids;
    if ids == [] {
      NoIds();
    } else {
      IdsOfHealthy(ids[1..]);
      IdsCons(Agent(ids[0], Healthy), AsHealthy(ids[1..]));
      assert ids == [ids[0]] + ids[1..];
    }
  }

  lemma NoIds()
    ensures Ids([]) == []
  {
  }

  lemma {:induction false} ProbeKeepsOrder(list: seq<int>, bad: int -> bool, due: int -> bool, n: int)
    requires Distinct(list) && ProbeOf(list, bad, due).Some?
    ensures Subsequence([ProbeOf(list, bad, due).value] + Take(HealthyOnes(list, bad), n), list)
    decreases |list|
  {
    var out := [ProbeOf(list, bad, due).value] + Take(HealthyOnes(list, bad), n);
    if due(list[0]) {
      HealthyOnesKeepOrder(list[1..], bad, n);
      assert out[1..] == Take(HealthyOnes(list[1..], bad), n);
    } else {
      ProbeIsBad(list[1..], bad, due);
      ProbeKeepsOrder(list[1..], bad, due, n);
    }
  }

  /** The returned agents keep the order of the inner list. */
  lemma OneShotKeepsOrder(list: seq<int>, max: int, bad: int -> bool, due: int -> bool)
    requires max >= 1 && Distinct(list)
    ensures Subsequence(Ids(OneShot(list, max, bad, due)), list)
  {
    hide OneShot, HealthyOnes, AsHealthy, Take;
    OneShotShape(list, max, bad, due);
    var healthy, probe := HealthyOnes(list, bad), ProbeOf(list, bad, due);
    if probe.Some? {
      var tail := AsHealthy(Take(healthy, max - 1));
      IdsOfHealthy(Take(healthy, max - 1));
      assert ([Agent(probe.value, Demoted)] + tail)[1..] == tail;
      ProbeKeepsOrder(list, bad, due, max - 1);
    } else if healthy != [] {
      IdsOfHealthy(Take(healthy, max));
      HealthyOnesKeepOrder(list, bad, max);
    } else if list != [] {
      assert [Agent(list[0], Demoted)][1..] == [];
    }
  }

  /** What a caller of the lookup can rely on, for every routing snapshot, hash and verdicts: an
      answer whenever the strategy has one, within the requested length, in the strategy's order
      and without repeats, and with a demoted agent only in the first slot. */
  lemma LookupPromises(s: Strategy, hash: nat, tp: TopicPartition, max: int, bad: int -> bool, due: int -> bool)
    requires ValidStrategy(s) && max >= 1
    ensures var full := Candidates(s, hash, tp, max + EXTRA_MAX).0;
            var out := OneShot(full, max, bad, due);
            && (out != [] <==> Candidates(s, hash, tp, max).0 != [])
            && |out| <= max
            && Subsequence(Ids(out), full) && Distinct(full)
            && (forall i :: 0 <= i < |out| ==> (out[i].state == Demoted <==> bad(out[i].id)))
            && (forall i :: 1 <= i < |out| ==> out[i].state == Healthy)
  {
    hide OneShot, Candidates, Subsequence, Ids;
    var full := Candidates(s, hash, tp, max + EXTRA_MAX).0;
    ShorterIsPrefix(s, hash, tp, max, max + EXTRA_MAX);
    CandidatesAreDistinctAndLive(s, hash, tp, max + EXTRA_MAX);
    OneShotPromises(full, max, bad, due);
    OneShotKeepsOrder(full, max, bad, due);
  }

  // ---- Figures that change during a call ----

  /** The build walk when every judgement and every probe request has its own answer. */
  function Walk(list: seq<int>, max: int, verdicts: seq<bool>, dues: seq<bool>, acc: seq<Agent>): seq<Agent>
    requires |verdicts| == |dues| == |list|
    decreases |list|
  {
    if list == [] || |acc| >= max then acc
    else if !verdicts[0] then Walk(list[1..], max, verdicts[1..], dues[1..], acc + [Agent(list[0], Healthy)])
    else if acc == [] && dues[0] then Walk(list[1..], max, verdicts[1..], dues[1..], [Agent(list[0], Demoted)])
    else Walk(list[1..], max, verdicts[1..], dues[1..], acc)
  }

  /** What a call returns from the list its lookup ended with; noneDemoted is what that lookup saw. */
  function Outcome(list: seq<int>, max: int, noneDemoted: bool, verdicts: seq<bool>, dues: seq<bool>): seq<Agent>
    requires |verdicts| == |dues| == |list|
  {
    if list == [] then []
    else if noneDemoted then AsHealthy(Take(list, max))
    else
      var built := Walk(list, max, verdicts, dues, []);
      if built == [] then [Agent(list[0], Demoted)] else built
  }

  ghost function AnswerFor(list: seq<int>, answers: seq<bool>): int -> bool
    requires |answers| == |list|
  {
    (id: int) => exists i :: 0 <= i < |list| && list[i] == id && answers[i]
  }

  lemma AnswerAt(list: seq<int>, answers: seq<bool>, i: nat)
    requires |answers| == |list| && Distinct(list) && i < |list|
    ensures AnswerFor(list, answers)(list[i]) == answers[i]
  {
  }

  /** On a list without repeats, answers by position are answers by agent. */
  lemma {:induction false} WalkIsBuild(list: seq<int>, max: int, verdicts: seq<bool>, dues: seq<bool>, i: nat, acc: seq<Agent>)
    requires |verdicts| == |dues| == |list| && Distinct(list) && i <= |list|
    ensures Walk(list[i..], max, verdicts[i..], dues[i..], acc)
         == Build(list[i..], max, AnswerFor(list, verdicts), AnswerFor(list, dues), acc)
    decreases |list| - i
  {
    hide AnswerFor;
    if i < |list| {
      AnswerAt(list, verdicts, i);
      AnswerAt(list, dues, i);
      assert list[i..][1..] == list[i + 1..] && verdicts[i..][1..] == verdicts[i + 1..] && dues[i..][1..] == dues[i + 1..];
      WalkIsBuild(list, max, verdicts, dues, i + 1, acc);
      WalkIsBuild(list, max, verdicts, dues, i + 1, acc + [Agent(list[i], Healthy)]);
      WalkIsBuild(list, max, verdicts, dues, i + 1, [Agent(list[i], Demoted)]);
    }
  }

  lemma {:induction false} SubsequenceOfPrefix(a: seq<int>, b: seq<int>, n: nat)
    requires n <= |b| && Subsequence(a, b[..n])
    ensures Subsequence(a, b)
    decreases |b|
  {
    if a != [] {
      assert b[..n][1..] == b[1..][..n - 1];
      SubsequenceOfPrefix(if a[0] == b[0] then a[1..] else a, b[1..], n - 1);
    }
  }

  /** Whatever figures each judgement of a call reads, and wherever its lookup stops, the answer
      is there whenever the strategy has one, within the requested length, in the strategy's
      order, and has a demoted agent only in the first slot. */
  lemma PromisesUnderAnyVerdicts(full: seq<int>, n: nat, max: int, noneDemoted: bool, verdicts: seq<bool>, dues: seq<bool>)
    requires Distinct(full) && n <= |full| && (n == 0 ==> full == []) && max >= 1 && |verdicts| == |dues| == n
    ensures var out := Outcome(full[..n], max, noneDemoted, verdicts, dues);
            && (out != [] <==> full != [])
            && |out| <= max
            && Subsequence(Ids(out), full)
            && (forall i :: 1 <= i < |out| ==> out[i].state == Healthy)
  {
    hide Build, Walk, Subsequence, Ids, Distinct, AnswerFor, HealthyOnes, AsHealthy;
    var list := full[..n];
    PrefixIsDistinct(full, n);
    var bad, due := AnswerFor(list, verdicts), AnswerFor(list, dues);
    if noneDemoted && list != [] {
      bad, due := (id: int) => false, (id: int) => false;
      AllHealthy(list, max, bad, due);
    } else {
      WalkIsBuild(list, max, verdicts, dues, 0, []);
      assert list[0..] == list && verdicts[0..] == verdicts && dues[0..] == dues;
      NothingBuilt(max, bad, due);
    }
    assert Outcome(list, max, noneDemoted, verdicts, dues) == OneShot(list, max, bad, due);
    OneShotPromises(list, max, bad, due);
    OneShotKeepsOrder(list, max, bad, due);
    SubsequenceOfPrefix(Ids(OneShot(list, max, bad, due)), full, n);
  }

  lemma PrefixIsDistinct(full: seq<int>, n: nat)
    requires Distinct(full) && n <= |full|
    ensures Distinct(full[..n])
  {
  }
}
