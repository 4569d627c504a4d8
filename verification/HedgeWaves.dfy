/** How a wave of the hedge cascade gives each pending partition its next agent. */
module HedgeWaves {
  import opened Basics
  import opened ProduceResults

  type Tried = map<TopicPartition, seq<int>>
  type Groups = map<int, set<TopicPartition>>

  /** The call: every partition with the agent it was routed to, and the candidate
      list of each partition, which is looked up once and then reused. */
  datatype Config = Config(
    classify: Classifier,
    primary: int,
    parts: seq<TopicPartition>,
    routedTo: seq<int>,
    candidates: TopicPartition -> seq<int>,
    maxAgents: nat)
  {
    function Input(): set<TopicPartition> {
      Elements(parts)
    }

    /** The caller hands one destination per partition; the budget is validated at start-up. */
    ghost predicate Valid() {
      |routedTo| == |parts| && maxAgents >= 1
    }
  }

  // ---- Picking the agents of a wave ----

  datatype Exhaustion = NoAlternate | ListDrained | BudgetCap

  /** The first candidate that has not been tried. */
  function NextAgent(candidates: seq<int>, tried: seq<int>): (r: Option<int>)
    ensures r.Some? ==> r.value in candidates && r.value !in tried
    ensures r.Some? ==> exists i :: FirstAt(candidates, i, r.value) && forall j :: 0 <= j < i ==> candidates[j] in tried
    ensures r.None? ==> forall c :: c in candidates ==> c in tried
  {
    if candidates == [] then None
    else if candidates[0] !in tried then
      assert FirstAt(candidates, 0, candidates[0]);
      Some(candidates[0])
    else
      var r := NextAgent(candidates[1..], tried);
      assert r.Some? ==> exists i :: FirstAt(candidates, i, r.value) && forall j :: 0 <= j < i ==> candidates[j] in tried by {
        if r.Some? {
          var i :| FirstAt(candidates[1..], i, r.value) && forall j :: 0 <= j < i ==> candidates[1..][j] in tried;
          assert FirstAt(candidates, i + 1, r.value);
          assert forall j :: 0 < j < i + 1 ==> candidates[j] == candidates[1..][j - 1];
        }
      }
      r
  }

  predicate FirstAt(candidates: seq<int>, i: int, agent: int) {
    0 <= i < |candidates| && candidates[i] == agent
  }

  /** A partition is exhausted exactly when its budget is used up or every candidate was tried. */
  lemma ExhaustedExactly(cfg: Config, tp: TopicPartition, tried: seq<int>)
    ensures Exhausted(cfg, tp, tried).Some? <==> |tried| >= cfg.maxAgents || forall c :: c in cfg.candidates(tp) ==> c in tried
    ensures Exhausted(cfg, tp, tried) == Some(BudgetCap) <==> |tried| >= cfg.maxAgents
    ensures Exhausted(cfg, tp, tried).Some? && |tried| < cfg.maxAgents ==>
              Exhausted(cfg, tp, tried).value == if |tried| == 1 then NoAlternate else ListDrained
  {
  }

  /** A wave sends every pending partition once: to its first untried candidate, in that agent's
      group and no other; and nothing else is sent. */
  lemma WaveSendsEachPendingOnce(cfg: Config, pending: set<TopicPartition>, tried: Tried, tp: TopicPartition)
    requires Dispatchable(cfg, pending, tried)
    ensures var groups := GroupsFor(cfg, pending, tried);
            && (tp in pending ==> AgentFor(cfg, tp, tried) in groups && tp in groups[AgentFor(cfg, tp, tried)])
            && (forall a :: a in groups && tp in groups[a] ==> tp in pending && a == AgentFor(cfg, tp, tried))
            && (forall a :: a in groups ==> groups[a] != {})
            && (tp in pending ==> Extended(cfg, pending, tried)[tp] == tried[tp] + [AgentFor(cfg, tp, tried)])
            && (tp in pending ==> AgentFor(cfg, tp, tried) in cfg.candidates(tp) && AgentFor(cfg, tp, tried) !in tried[tp])
  {
    var groups := GroupsFor(cfg, pending, tried);
    forall a | a in groups
      ensures groups[a] != {}
    {
      var p :| p in pending && AgentFor(cfg, p, tried) == a;
      assert p in groups[a];
    }
  }

  /** Why a partition cannot be attempted again, if so. */
  function Exhausted(cfg: Config, tp: TopicPartition, tried: seq<int>): Option<Exhaustion> {
    if |tried| >= cfg.maxAgents then Some(BudgetCap)
    else if NextAgent(cfg.candidates(tp), tried).Some? then None
    else if |tried| == 1 then Some(NoAlternate)
    else Some(ListDrained)
  }

  ghost predicate Dispatchable(cfg: Config, pending: set<TopicPartition>, tried: Tried) {
    pending <= tried.Keys && forall tp :: tp in pending ==> Exhausted(cfg, tp, tried[tp]).None?
  }

  function AgentFor(cfg: Config, tp: TopicPartition, tried: Tried): int
    requires tp in tried && Exhausted(cfg, tp, tried[tp]).None?
  {
    NextAgent(cfg.candidates(tp), tried[tp]).value
  }

  ghost function Extended(cfg: Config, pending: set<TopicPartition>, tried: Tried): Tried
    requires Dispatchable(cfg, pending, tried)
  {
    map tp | tp in tried :: if tp in pending then tried[tp] + [AgentFor(cfg, tp, tried)] else tried[tp]
  }

  ghost function AgentsFor(cfg: Config, pending: set<TopicPartition>, tried: Tried): set<int>
    requires Dispatchable(cfg, pending, tried)
  {
    set tp | tp in pending :: AgentFor(cfg, tp, tried)
  }

  ghost function GroupsFor(cfg: Config, pending: set<TopicPartition>, tried: Tried): Groups
    requires Dispatchable(cfg, pending, tried)
  {
    map a | a in AgentsFor(cfg, pending, tried) :: set tp | tp in pending && AgentFor(cfg, tp, tried) == a
  }

  /** tried and groups are what the walk has built after the partitions of done. */
  ghost predicate Picked(cfg: Config, done: set<TopicPartition>, tried0: Tried, tried: Tried, groups: Groups) {
    && Dispatchable(cfg, done, tried0)
    && tried == Extended(cfg, done, tried0)
    && groups == GroupsFor(cfg, done, tried0)
  }

  /** Walks the pending partitions in the order the map yields them. Either every one
      gets its next agent, or the walk stops at the first one that is exhausted. */
  method PickWave(cfg: Config, order: seq<TopicPartition>, tried0: Tried)
    returns (stop: Option<Exhaustion>, tried: Tried, groups: Groups)
    requires Distinct(order) && Elements(order) <= tried0.Keys
    ensures stop.None? ==> Picked(cfg, Elements(order), tried0, tried, groups)
    ensures stop.Some? ==>
              exists i :: 0 <= i < |order|
                && Exhausted(cfg, order[i], tried0[order[i]]) == stop
                && Dispatchable(cfg, Elements(order[..i]), tried0)
  {
    hide Picked;
    tried, groups := tried0, map[];
    StartPicking(cfg, tried0);
    assert Elements(order[..0]) == {};
    for i := 0 to |order|
      invariant Picked(cfg, Elements(order[..i]), tried0, tried, groups)
    {
      var tp := order[i];
      NotYetPicked(cfg, order, i, tried0, tried, groups);
      if |tried[tp]| >= cfg.maxAgents {
        return Some(BudgetCap), tried, groups;
      }
      var next := NextAgent(cfg.candidates(tp), tried[tp]);
      if next.None? {
        return Some(if |tried[tp]| == 1 then NoAlternate else ListDrained), tried, groups;
      }
      PickOne(cfg, Elements(order[..i]), tp, tried0, tried, groups);
      assert Elements(order[..i + 1]) == Elements(order[..i]) + {tp};
      tried := tried[tp := tried[tp] + [next.value]];
      groups := groups[next.value := (if next.value in groups then groups[next.value] else {}) + {tp}];
    }
    assert order[..|order|] == order;
    stop := None;
  }

  lemma StartPicking(cfg: Config, tried: Tried)
    ensures Picked(cfg, {}, tried, tried, map[])
  {
  }

  lemma NotYetPicked(cfg: Config, order: seq<TopicPartition>, i: nat, tried0: Tried, tried: Tried, groups: Groups)
    requires Distinct(order) && i < |order| && order[i] in tried0
    requires Picked(cfg, Elements(order[..i]), tried0, tried, groups)
    ensures order[i] !in Elements(order[..i])
    ensures order[i] in tried && tried[order[i]] == tried0[order[i]]
    ensures Dispatchable(cfg, Elements(order[..i]), tried0)
  {
  }

  /** The pending partition tp joins the group of its next agent. */
  lemma PickOne(cfg: Config, done: set<TopicPartition>, tp: TopicPartition, tried0: Tried, tried: Tried, groups: Groups)
    requires Picked(cfg, done, tried0, tried, groups)
    requires tp !in done && tp in tried0 && Exhausted(cfg, tp, tried0[tp]).None?
    ensures var next := AgentFor(cfg, tp, tried0);
            tp in tried &&
            Picked(cfg, done + {tp}, tried0, tried[tp := tried[tp] + [next]],
                   groups[next := (if next in groups then groups[next] else {}) + {tp}])
  {
    var next := AgentFor(cfg, tp, tried0);
    var grown := done + {tp};
    assert Dispatchable(cfg, grown, tried0);
    assert Extended(cfg, grown, tried0) == tried[tp := tried[tp] + [next]];
    assert AgentsFor(cfg, grown, tried0) == AgentsFor(cfg, done, tried0) + {next};
    var groups' := groups[next := (if next in groups then groups[next] else {}) + {tp}];
    forall a | a in groups'
      ensures groups'[a] == set t | t in grown && AgentFor(cfg, t, tried0) == a
    {
    }
    assert groups' == GroupsFor(cfg, grown, tried0);
  }
}
