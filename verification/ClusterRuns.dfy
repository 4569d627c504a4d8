/** The cluster buffer on top of its agents' buffers: items counted in, handed to the buffer of
    their agent, completed by its flushes, and counted out, in every interleaving. */
module ClusterRuns {
  import opened Basics
  import opened ProduceResults
  import opened RoutedBatches
  import opened AgentBuffers
  import opened AgentBufferRuns
  import opened FlushResults
  import C = ClusterBuffers

  /** home tells which agent's buffer an item was handed to; there the item is the caller of the
      same number. */
  datatype Cluster<W> = Cluster(
    items: C.State,
    agents: map<int, World<W>>,
    home: map<nat, int>,
    closed: bool)

  datatype Act<W> =
    | Item(step: C.Step)
    | Refuse(i: nat, err: Error)
    | Hand(agent: int, items: seq<Promise<W>>)
    | AtAgent(agent: int, e: Event<W>)
    | Complete(i: nat, result: ProduceResult)
    | CloseMap

  function InitialCluster<W>(): Cluster<W> {
    Cluster(C.INITIAL, map[], map[], false)
  }

  /** The agent's buffer, created empty on first use. */
  function BufferOf<W>(c: Cluster<W>, agent: int): World<W> {
    if agent in c.agents then c.agents[agent] else InitialWorld<W>()
  }

  predicate Waits<W>(c: Cluster<W>, i: nat) {
    i < |c.items.items| && c.items.items[i].stage.Held?
  }

  /** A pre-cancelled context or a closed map refuses an item; a buffer found before the map was
      closed still takes items, and rejects them itself once it is closed. Items hold records. */
  ghost predicate Possible<W>(cfg: Setup<W>, c: Cluster<W>, act: Act<W>) {
    match act
    case Item(step) => C.Enabled(c.items, step) && !step.DoneCalled? && !step.ExtraDone?
    case Refuse(i, _) => Waits(c, i) && i !in c.home
    case Hand(agent, items) =>
      && (agent in c.agents || !c.closed)
      && (forall p :: p in items ==> Waits(c, p.owner) && p.owner !in c.home)
      && TotalRecords(cfg.kind, items) > 0 && Enabled(cfg, BufferOf(c, agent), SubmitItems(items))
    case AtAgent(agent, e) => agent in c.agents && !e.SubmitItems? && Enabled(cfg, c.agents[agent], e)
    case Complete(i, result) =>
      Waits(c, i) && i in c.home && c.home[i] in c.agents && (i, result) in c.agents[c.home[i]].fired
    case CloseMap => true
  }

  ghost function CallersOf<W>(items: seq<Promise<W>>): set<nat> {
    set p | p in items :: p.owner
  }

  ghost function HandedTo<W>(items: seq<Promise<W>>, agent: int): map<nat, int> {
    map i | i in CallersOf(items) :: agent
  }

  ghost function Do<W>(cfg: Setup<W>, c: Cluster<W>, act: Act<W>): Cluster<W>
    requires Possible(cfg, c, act)
  {
    match act
    case Item(step) => c.(items := C.Next(c.items, step))
    case Refuse(i, err) => c.(items := C.Next(c.items, C.DoneCalled(i, ProduceResult(None, Some(err)))))
    case Hand(agent, items) =>
      c.(agents := c.agents[agent := Step(cfg, BufferOf(c, agent), SubmitItems(items))], home := c.home + HandedTo(items, agent))
    case AtAgent(agent, e) => c.(agents := c.agents[agent := Step(cfg, c.agents[agent], e)])
    case Complete(i, result) => c.(items := C.Next(c.items, C.DoneCalled(i, result)))
    case CloseMap => c.(closed := true)
  }

  ghost predicate Runs<W>(cfg: Setup<W>, c: Cluster<W>, acts: seq<Act<W>>, end: Cluster<W>)
    decreases |acts|
  {
    if acts == [] then c == end
    else Possible(cfg, c, acts[0]) && Runs(cfg, Do(cfg, c, acts[0]), acts[1..], end)
  }

  // ---- What every run keeps ----

  /** A handed item is a caller of its agent's buffer. */
  ghost predicate Housed<W>(c: Cluster<W>) {
    forall i :: i in c.home ==> c.home[i] in c.agents && i in c.agents[c.home[i]].fans
  }

  ghost predicate AgentsOK<W>(cfg: Setup<W>, c: Cluster<W>) {
    forall a :: a in c.agents ==> Inv(cfg, c.agents[a]) && Sourced(cfg, c.agents[a])
  }

  /** A handed item's result is what its agent's buffer completed it with; an item that was refused
      has a bare error. */
  ghost predicate Founded<W>(c: Cluster<W>, i: nat, r: ProduceResult) {
    if i in c.home then c.home[i] in c.agents && (i, r) in c.agents[c.home[i]].fired
    else r.resp.None? && r.err.Some?
  }

  ghost predicate ResultFounded<W>(c: Cluster<W>, i: nat)
    requires i < |c.items.items|
  {
    forall r :: C.Reports(c.items.items[i], r) ==> Founded(c, i, r)
  }

  /** And nothing else completes an item. */
  ghost predicate OutcomesFounded<W>(c: Cluster<W>) {
    forall i :: 0 <= i < |c.items.items| ==> ResultFounded(c, i) && c.items.items[i].extras == []
  }

  ghost predicate ClusterInv<W>(cfg: Setup<W>, c: Cluster<W>) {
    C.Inv(c.items) && AgentsOK(cfg, c) && Housed(c) && OutcomesFounded(c)
  }

  /** Completions already called stay called, and callers stay known. */
  lemma StepOnlyAdds<W>(cfg: Setup<W>, w: World<W>, e: Event<W>)
    requires Enabled(cfg, w, e)
    ensures forall x :: x in w.fired ==> x in Step(cfg, w, e).fired
    ensures forall o :: o in w.fans ==> o in Step(cfg, w, e).fans
    ensures e.SubmitItems? && TotalRecords(cfg.kind, e.items) > 0 ==> forall p :: p in e.items ==> p.owner in Step(cfg, w, e).fans
  {
    hide AddMany, AllChunks, TotalRecords, Choose, AddFans;
    if e.SubmitItems? {
      AddFansAdds(cfg.kind, w.fans, e.items);
    }
  }

  /** The agents' side moves; the items do not. */
  lemma AgentMoveKeeps<W>(cfg: Setup<W>, c: Cluster<W>, agent: int, e: Event<W>, home: map<nat, int>)
    requires ClusterInv(cfg, c) && Enabled(cfg, BufferOf(c, agent), e)
    requires forall i :: i in c.home ==> i in home && home[i] == c.home[i]
    requires forall i :: i in home && i !in c.home ==> Waits(c, i) && home[i] == agent && i in Step(cfg, BufferOf(c, agent), e).fans
    ensures ClusterInv(cfg, c.(agents := c.agents[agent := Step(cfg, BufferOf(c, agent), e)], home := home))
  {
    hide Inv, Sourced, Step, Enabled, C.Inv, OutcomesFounded;
    InitiallySourced(cfg);
    StepKeepsInv(cfg, BufferOf(c, agent), e);
    StepKeepsSourced(cfg, BufferOf(c, agent), e);
    StepOnlyAdds(cfg, BufferOf(c, agent), e);
    MoreFiredKeepsFounded(c, agent, Step(cfg, BufferOf(c, agent), e), home);
  }

  lemma MoreFiredKeepsFounded<W>(c: Cluster<W>, agent: int, w: World<W>, home: map<nat, int>)
    requires OutcomesFounded(c) && forall i :: i in c.home ==> i in home && home[i] == c.home[i]
    requires forall i :: i in home && i !in c.home ==> Waits(c, i)
    requires forall x :: x in BufferOf(c, agent).fired ==> x in w.fired
    ensures OutcomesFounded(c.(agents := c.agents[agent := w], home := home))
  {
    var c' := c.(agents := c.agents[agent := w], home := home);
    forall i | 0 <= i < |c'.items.items|
      ensures ResultFounded(c', i)
    {
      assert ResultFounded(c, i);
    }
  }

  /** The items' side moves; the agents do not. */
  lemma ItemMoveKeeps<W>(cfg: Setup<W>, c: Cluster<W>, step: C.Step)
    requires ClusterInv(cfg, c) && C.Enabled(c.items, step) && !step.ExtraDone?
    requires step.DoneCalled? ==> Founded(c, step.i, step.result)
    ensures ClusterInv(cfg, c.(items := C.Next(c.items, step)))
  {
    hide Inv, Sourced, C.Inv, C.Next, C.Enabled, C.Reports;
    C.StepKeepsInv(c.items, step);
    var c' := c.(items := C.Next(c.items, step));
    forall i | 0 <= i < |c'.items.items|
      ensures ResultFounded(c', i) && c'.items.items[i].extras == []
    {
      forall r | C.Reports(c'.items.items[i], r)
        ensures Founded(c', i, r)
      {
        C.NewReports(c.items, step, i, r);
        assert ResultFounded(c, i);
      }
      NoSurplus(c.items, step, i);
    }
  }

  lemma NoSurplus(s: C.State, step: C.Step, i: nat)
    requires C.Enabled(s, step) && !step.ExtraDone? && i < |C.Next(s, step).items|
    requires i < |s.items| ==> s.items[i].extras == []
    ensures C.Next(s, step).items[i].extras == []
  {
  }

  lemma ActKeepsInv<W>(cfg: Setup<W>, c: Cluster<W>, act: Act<W>)
    requires ClusterInv(cfg, c) && Possible(cfg, c, act)
    ensures ClusterInv(cfg, Do(cfg, c, act))
  {
    hide ClusterInv, Enabled, Step, C.Enabled, C.Next;
    match act
    case Item(step) => ItemMoveKeeps(cfg, c, step);
    case Refuse(i, err) =>
      WaitingCanComplete(c, i, ProduceResult(None, Some(err)));
      ItemMoveKeeps(cfg, c, C.DoneCalled(i, ProduceResult(None, Some(err))));
    case Hand(agent, items) =>
      StepOnlyAdds(cfg, BufferOf(c, agent), SubmitItems(items));
      AgentMoveKeeps(cfg, c, agent, SubmitItems(items), c.home + HandedTo(items, agent));
    case AtAgent(agent, e) => AgentMoveKeeps(cfg, c, agent, e, c.home);
    case Complete(i, result) =>
      WaitingCanComplete(c, i, result);
      ItemMoveKeeps(cfg, c, C.DoneCalled(i, result));
    case CloseMap => ClosingKeeps(cfg, c);
  }

  lemma WaitingCanComplete<W>(c: Cluster<W>, i: nat, r: ProduceResult)
    requires Waits(c, i)
    ensures C.Enabled(c.items, C.DoneCalled(i, r))
  {
  }

  lemma ClosingKeeps<W>(cfg: Setup<W>, c: Cluster<W>)
    requires ClusterInv(cfg, c)
    ensures ClusterInv(cfg, c.(closed := true))
  {
    hide Inv, Sourced, C.Inv;
    var c' := c.(closed := true);
    forall i | 0 <= i < |c'.items.items|
      ensures ResultFounded(c', i)
    {
      assert ResultFounded(c, i);
    }
  }

  lemma {:induction false} RunsKeepInv<W>(cfg: Setup<W>, c: Cluster<W>, acts: seq<Act<W>>, end: Cluster<W>)
    requires ClusterInv(cfg, c) && Runs(cfg, c, acts, end)
    ensures ClusterInv(cfg, end)
    decreases |acts|
  {
    hide ClusterInv, Possible, Do;
    if acts != [] {
      ActKeepsInv(cfg, c, acts[0]);
      RunsKeepInv(cfg, Do(cfg, c, acts[0]), acts[1..], end);
    }
  }

  lemma ReachableCluster<W>(cfg: Setup<W>, acts: seq<Act<W>>, end: Cluster<W>)
    requires Runs(cfg, InitialCluster<W>(), acts, end)
    ensures ClusterInv(cfg, end)
  {
    assert Sum(C.BytesHeld, []) == 0 == Sum(C.RecordsHeld, []);
    RunsKeepInv(cfg, InitialCluster<W>(), acts, end);
  }

  // ---- What callers are told ----

  function StepsOf<W>(act: Act<W>): seq<C.Step> {
    match act
    case Item(step) => [step]
    case Refuse(i, err) => [C.DoneCalled(i, ProduceResult(None, Some(err)))]
    case Complete(i, result) => [C.DoneCalled(i, result)]
    case _ => []
  }

  /** The run as the items see it. */
  function ItemSteps<W>(acts: seq<Act<W>>): seq<C.Step> {
    if acts == [] then [] else StepsOf(acts[0]) + ItemSteps(acts[1..])
  }

  lemma OneStep(s: C.State, step: C.Step)
    requires C.Enabled(s, step)
    ensures C.Run(s, [step], C.Next(s, step))
  {
    hide C.Enabled, C.Next;
    assert [step][1..] == [];
    assert C.Run(C.Next(s, step), [], C.Next(s, step));
  }

  lemma ActProjects<W>(cfg: Setup<W>, c: Cluster<W>, act: Act<W>)
    requires Possible(cfg, c, act)
    ensures C.Run(c.items, StepsOf(act), Do(cfg, c, act).items)
  {
    hide Enabled, Step, TotalRecords, C.Next, C.Enabled;
    match act
    case Item(step) => OneStep(c.items, step);
    case Refuse(i, err) =>
      WaitingCanComplete(c, i, ProduceResult(None, Some(err)));
      OneStep(c.items, C.DoneCalled(i, ProduceResult(None, Some(err))));
    case Complete(i, result) =>
      WaitingCanComplete(c, i, result);
      OneStep(c.items, C.DoneCalled(i, result));
    case _ =>
  }

  lemma {:induction false} ItemsRun<W>(cfg: Setup<W>, c: Cluster<W>, acts: seq<Act<W>>, end: Cluster<W>)
    requires Runs(cfg, c, acts, end)
    ensures C.Run(c.items, ItemSteps(acts), end.items)
    decreases |acts|
  {
    hide Possible, Do, StepsOf;
    if acts != [] {
      var c1 := Do(cfg, c, acts[0]);
      ActProjects(cfg, c, acts[0]);
      ItemsRun(cfg, c1, acts[1..], end);
      C.RunsCompose(c.items, StepsOf(acts[0]), c1.items, ItemSteps(acts[1..]), end.items);
    }
  }

  lemma {:induction false} StepIsAnAct<W>(acts: seq<Act<W>>, step: C.Step)
    requires step in ItemSteps(acts) && !step.DoneCalled?
    ensures Item(step) in acts
  {
    if acts[0] != Item(step) {
      assert step in ItemSteps(acts[1..]);
      StepIsAnAct(acts[1..], step);
    }
  }

  /** In every run, a handed item's caller is told what its agent's buffer completed it with, or the
      error its context ended with, and the latter only if the context's callback ran. Once the
      item is finished and no callback ran, the caller was told exactly the buffer's result. */
  lemma CallersHearTheirFlush<W>(cfg: Setup<W>, acts: seq<Act<W>>, end: Cluster<W>, i: nat)
    requires Runs(cfg, InitialCluster<W>(), acts, end) && i < |end.items.items| && i in end.home
    ensures end.home[i] in end.agents
    ensures forall r :: r in end.items.items[i].calls ==>
              || (i, r) in end.agents[end.home[i]].fired
              || (r.resp.None? && r.err.Some? && Item(C.ContextEnds(i, r.err.value)) in acts && Item(C.CallbackRuns(i)) in acts)
    ensures end.items.items[i].stage.Finished? && Item(C.CallbackRuns(i)) !in acts ==>
              exists r :: end.items.items[i].calls == [r] && (i, r) in end.agents[end.home[i]].fired
  {
    hide Runs, Inv, Sourced, C.Run, ItemSteps;
    ReachableCluster(cfg, acts, end);
    ItemsRun(cfg, InitialCluster<W>(), acts, end);
    C.RunTraced([], C.INITIAL, ItemSteps(acts), end.items);
    assert [] + ItemSteps(acts) == ItemSteps(acts);
    var x := end.items.items[i];
    assert x in end.items.items && C.ItemOK(x) && ResultFounded(end, i) && x.extras == [];
    assert C.ItemTraced(ItemSteps(acts), i, x);
    if x.watch.Spent? {
      StepIsAnAct(acts, C.ContextEnds(i, x.watch.err));
      StepIsAnAct(acts, C.CallbackRuns(i));
    }
    if x.stage.Finished? {
      assert C.Reports(x, x.stage.result);
      assert x.calls == [x.calls[0]] && x.calls[0] in x.calls;
    }
  }

  /** A refused item's caller is never told of a response. */
  lemma RefusedCallersHearErrors<W>(cfg: Setup<W>, acts: seq<Act<W>>, end: Cluster<W>, i: nat, r: ProduceResult)
    requires Runs(cfg, InitialCluster<W>(), acts, end)
    requires i < |end.items.items| && i !in end.home && r in end.items.items[i].calls
    ensures r.resp.None? && r.err.Some?
  {
    hide Runs, Inv, Sourced;
    ReachableCluster(cfg, acts, end);
    var x := end.items.items[i];
    assert x in end.items.items && C.ItemOK(x) && ResultFounded(end, i) && x.extras == [];
    assert x.stage.Finished? ==> C.Reports(x, x.stage.result);
  }

  // ---- After Close ----

  /** Close has returned: every buffer is closed and its flush goroutines are done. */
  ghost predicate Drained<W>(c: Cluster<W>) {
    c.closed && forall a :: a in c.agents ==> c.agents[a].core.closed && FlushesFinished(c.agents[a].core)
  }

  /** No Add is under way: each item was handed over or refused, and the rejections were delivered. */
  ghost predicate NoAddRunning<W>(c: Cluster<W>) {
    && (forall i :: 0 <= i < |c.items.items| ==>
          i in c.home || !(c.items.items[i].stage.Fresh? || c.items.items[i].stage.BytesIn? || c.items.items[i].stage.Held?))
    && (forall a :: a in c.agents ==> forall f :: f in c.agents[a].rejects ==> f.reported == |f.entries|)
  }

  /** No completion is in the middle of being called. */
  ghost predicate NoCompletionRunning<W>(cfg: Setup<W>, c: Cluster<W>) {
    && (forall i, r :: !Possible(cfg, c, Complete(i, r)))
    && (forall i :: 0 <= i < |c.items.items| ==>
          !c.items.items[i].stage.Called? && !c.items.items[i].stage.BytesOut? && !c.items.items[i].stage.RecordsOut?)
  }

  lemma {:induction false} FiredWith(fired: seq<(nat, ProduceResult)>, o: nat) returns (r: ProduceResult)
    requires Fires(fired, o) > 0
    ensures (o, r) in fired
  {
    if fired[0].0 == o {
      r := fired[0].1;
      assert fired[0] == (o, r);
    } else {
      r := FiredWith(fired[1..], o);
    }
  }

  /** A caller of a drained buffer has been completed. */
  lemma DrainedCallerFired<W>(cfg: Setup<W>, w: World<W>, o: nat) returns (r: ProduceResult)
    requires Inv(cfg, w) && w.core.closed && FlushesFinished(w.core) && o in w.fans
    requires forall f :: f in w.rejects ==> f.reported == |f.entries|
    ensures (o, r) in w.fired
  {
    hide Fires, LeftIn, AllChunks, Trail, FiredOK, Apart;
    NothingLeft(w.core.flushes, o);
    NothingLeft(w.rejects, o);
    assert FanOK(w, o);
    r := FiredWith(w.fired, o);
  }

  lemma HandedItemIsFinished<W>(cfg: Setup<W>, c: Cluster<W>, i: nat)
    requires AgentsOK(cfg, c) && Housed(c) && Drained(c) && NoAddRunning(c) && NoCompletionRunning(cfg, c)
    requires i < |c.items.items| && i in c.home
    ensures !c.items.items[i].stage.Held?
  {
    hide Inv, Sourced, FlushesFinished;
    var a := c.home[i];
    assert a in c.agents;
    assert Inv(cfg, c.agents[a]);
    var r := DrainedCallerFired(cfg, c.agents[a], i);
    assert !Possible(cfg, c, Complete(i, r));
  }

  /** Items are handed over only once they are counted in. */
  ghost predicate HandedHeld<W>(c: Cluster<W>) {
    forall i :: i in c.home ==> CountedIn(c.items, i)
  }

  predicate CountedIn(s: C.State, i: nat) {
    i < |s.items| && !s.items[i].stage.Fresh? && !s.items[i].stage.BytesIn?
  }

  lemma StaysCountedIn(s: C.State, step: C.Step, i: nat)
    requires C.Enabled(s, step) && CountedIn(s, i)
    ensures CountedIn(C.Next(s, step), i)
  {
  }

  lemma ItemStepKeepsHanded<W>(c: Cluster<W>, step: C.Step)
    requires HandedHeld(c) && C.Enabled(c.items, step)
    ensures HandedHeld(c.(items := C.Next(c.items, step)))
  {
    hide CountedIn, C.Enabled, C.Next;
    forall i | i in c.home
      ensures CountedIn(C.Next(c.items, step), i)
    {
      StaysCountedIn(c.items, step, i);
    }
  }

  lemma ActKeepsHanded<W>(cfg: Setup<W>, c: Cluster<W>, act: Act<W>)
    requires HandedHeld(c) && Possible(cfg, c, act)
    ensures HandedHeld(Do(cfg, c, act))
  {
    hide Enabled, Step, TotalRecords, C.Enabled, C.Next;
    match act
    case Item(step) => ItemStepKeepsHanded(c, step);
    case Refuse(i, err) =>
      WaitingCanComplete(c, i, ProduceResult(None, Some(err)));
      ItemStepKeepsHanded(c, C.DoneCalled(i, ProduceResult(None, Some(err))));
    case Complete(i, result) =>
      WaitingCanComplete(c, i, result);
      ItemStepKeepsHanded(c, C.DoneCalled(i, result));
    case _ =>
  }

  lemma {:induction false} RunsKeepHanded<W>(cfg: Setup<W>, c: Cluster<W>, acts: seq<Act<W>>, end: Cluster<W>)
    requires HandedHeld(c) && Runs(cfg, c, acts, end)
    ensures HandedHeld(end)
    decreases |acts|
  {
    hide HandedHeld, Possible, Do;
    if acts != [] {
      ActKeepsHanded(cfg, c, acts[0]);
      RunsKeepHanded(cfg, Do(cfg, c, acts[0]), acts[1..], end);
    }
  }

  /** When the first Close has returned and no call is under way any more, both counters are back
      to zero and every caller there ever was has been completed exactly once. */
  lemma ClosedClusterIsEmpty<W>(cfg: Setup<W>, acts: seq<Act<W>>, end: Cluster<W>)
    requires Runs(cfg, InitialCluster<W>(), acts, end)
    requires Drained(end) && NoAddRunning(end) && NoCompletionRunning(cfg, end)
    ensures end.items.bufferedBytes == 0 && end.items.bufferedRecords == 0
    ensures forall x :: x in end.items.items ==> |x.calls| == 1
  {
    hide Runs, Inv, Sourced, Possible;
    ReachableCluster(cfg, acts, end);
    RunsKeepHanded(cfg, InitialCluster<W>(), acts, end);
    forall x | x in end.items.items
      ensures x.stage.Finished?
    {
      var i :| 0 <= i < |end.items.items| && end.items.items[i] == x;
      if i in end.home {
        HandedItemIsFinished(cfg, end, i);
      }
    }
    C.NothingHeld(end.items.items);
  }
}
