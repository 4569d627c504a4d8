/** The cluster-wide buffer: accounting of what is buffered, and the race between a caller's
    context and the flush over the caller's completion, one atomic operation per step. */
module ClusterBuffers {
  import opened Basics
  import opened ProduceResults
  import opened AgentBuffers

  /** How far the buffer side has got with an item: counted in by wrap, then counted out by
      the wrapped completion once a flush or a rejection reports. */
  datatype Stage =
    | Fresh
    | BytesIn
    | Held
    | Called(result: ProduceResult)
    | BytesOut(result: ProduceResult)
    | RecordsOut(result: ProduceResult)
    | Finished(result: ProduceResult)

  /** Armed is the registered context callback. Once the context has ended the callback runs in
      a goroutine of its own and can no longer be stopped. */
  datatype Watch = NoWatch | Armed | Running(err: Error) | Spent(err: Error)

  /** extras are the results of completion calls after the first; calls is what the caller was told. */
  datatype Item = Item(
    bytes: nat,
    records: nat,
    cancellable: bool,
    stage: Stage,
    watch: Watch,
    ourDoneFired: bool,
    origDoneFired: bool,
    extras: seq<ProduceResult>,
    calls: seq<ProduceResult>)

  datatype State = State(items: seq<Item>, bufferedBytes: int, bufferedRecords: int)

  datatype Step =
    | Arrive(bytes: nat, records: nat, cancellable: bool)
    | CountBytes(i: nat)
    | CountRecords(i: nat)
    | ContextEnds(i: nat, err: Error)
    | CallbackRuns(i: nat)
    | DoneCalled(i: nat, result: ProduceResult)
    | ReleaseBytes(i: nat)
    | ReleaseRecords(i: nat)
    | Fire(i: nat)
    | ExtraDone(i: nat, result: ProduceResult)

  const INITIAL := State([], 0, 0)

  /** The once-gate in front of the caller's completion. */
  function FireOrigDone(x: Item, result: ProduceResult): Item {
    if x.origDoneFired then x else x.(origDoneFired := true, calls := x.calls + [result])
  }

  predicate Enabled(s: State, step: Step) {
    match step
    case Arrive(_, _, _) => true
    case CountBytes(i) => i < |s.items| && s.items[i].stage.Fresh?
    case CountRecords(i) => i < |s.items| && s.items[i].stage.BytesIn?
    case ContextEnds(i, _) => i < |s.items| && s.items[i].watch.Armed?
    case CallbackRuns(i) => i < |s.items| && s.items[i].watch.Running?
    case DoneCalled(i, _) => i < |s.items| && s.items[i].stage.Held?
    case ReleaseBytes(i) => i < |s.items| && s.items[i].stage.Called?
    case ReleaseRecords(i) => i < |s.items| && s.items[i].stage.BytesOut?
    case Fire(i) => i < |s.items| && s.items[i].stage.RecordsOut?
    // a gated completion tolerates being called again
    case ExtraDone(i, _) => i < |s.items| && s.items[i].cancellable && s.items[i].ourDoneFired
  }

  /** The item a step works on, after the step. */
  function Touched(x: Item, step: Step): Item {
    match step
    case CountBytes(_) => x.(stage := BytesIn)
    case CountRecords(_) => x.(stage := Held, watch := if x.cancellable then Armed else NoWatch)
    case ContextEnds(_, err) => x.(watch := Running(err))
    case CallbackRuns(_) =>
      if x.watch.Running? then FireOrigDone(x.(watch := Spent(x.watch.err)), ProduceResult(None, Some(x.watch.err))) else x
    case DoneCalled(_, result) =>
      x.(stage := Called(result), ourDoneFired := x.cancellable, watch := if x.watch.Armed? then NoWatch else x.watch)
    case ReleaseBytes(_) => if x.stage.Called? then x.(stage := BytesOut(x.stage.result)) else x
    case ReleaseRecords(_) => if x.stage.BytesOut? then x.(stage := RecordsOut(x.stage.result)) else x
    case Fire(_) =>
      if !x.stage.RecordsOut? then x
      else if x.cancellable then FireOrigDone(x.(stage := Finished(x.stage.result)), x.stage.result)
      else x.(stage := Finished(x.stage.result), calls := x.calls + [x.stage.result])
    case ExtraDone(_, result) => FireOrigDone(x.(extras := x.extras + [result]), result)
    case Arrive(_, _, _) => x
  }

  function Next(s: State, step: Step): State
    requires Enabled(s, step)
  {
    if step.Arrive? then
      s.(items := s.items + [Item(step.bytes, step.records, step.cancellable, Fresh, NoWatch, false, false, [], [])])
    else
      var x := s.items[step.i];
      var s' := s.(items := s.items[step.i := Touched(x, step)]);
      match step
      case CountBytes(_) => s'.(bufferedBytes := s.bufferedBytes + x.bytes)
      case CountRecords(_) => s'.(bufferedRecords := s.bufferedRecords + x.records)
      case ReleaseBytes(_) => s'.(bufferedBytes := s.bufferedBytes - x.bytes)
      case ReleaseRecords(_) => s'.(bufferedRecords := s.bufferedRecords - x.records)
      case _ => s'
  }

  ghost predicate Run(s: State, steps: seq<Step>, end: State)
    decreases |steps|
  {
    if steps == [] then s == end
    else Enabled(s, steps[0]) && Run(Next(s, steps[0]), steps[1..], end)
  }

  // ---- Accounting ----

  /** What an item contributes to each counter: everything from the moment it is counted in
      until its flush or rejection has reported, whatever its context did. */
  function BytesHeld(x: Item): int {
    if x.stage.BytesIn? || x.stage.Held? || x.stage.Called? then x.bytes else 0
  }

  function RecordsHeld(x: Item): int {
    if x.stage.Held? || x.stage.Called? || x.stage.BytesOut? then x.records else 0
  }

  ghost predicate Accounted(s: State) {
    s.bufferedBytes == Sum(BytesHeld, s.items) && s.bufferedRecords == Sum(RecordsHeld, s.items)
  }

  /** Who the caller was told by: the flush or rejection that finished the item, the context, or a
      surplus completion call. */
  predicate ToldBy(x: Item, r: ProduceResult) {
    || (x.stage.Finished? && r == x.stage.result)
    || (x.watch.Spent? && r == ProduceResult(None, Some(x.watch.err)))
    || r in x.extras
  }

  /** Each caller is completed at most once, and exactly once when its item is finished. */
  ghost predicate ItemOK(x: Item) {
    && x.calls == (if x.calls == [] then [] else [x.calls[0]])
    && (x.stage.Finished? ==> |x.calls| == 1)
    && (forall r :: r in x.calls ==> ToldBy(x, r))
    && (x.cancellable ==> (x.origDoneFired <==> x.calls != []))
    && (!x.cancellable ==> !x.origDoneFired && (x.calls != [] <==> x.stage.Finished?))
    && (!x.cancellable ==> x.watch.NoWatch? && x.extras == [])
    && (x.ourDoneFired ==> x.cancellable && !x.stage.Fresh? && !x.stage.BytesIn?)
    && (x.stage.Fresh? || x.stage.BytesIn? ==> x.watch.NoWatch? && x.calls == [] && x.extras == [])
  }

  ghost predicate Inv(s: State) {
    Accounted(s) && forall x :: x in s.items ==> ItemOK(x)
  }

  lemma QuietStepKeepsItem(s: State, step: Step)
    requires Enabled(s, step) && !step.Arrive? && !step.CallbackRuns? && !step.Fire? && !step.ExtraDone? && ItemOK(s.items[step.i])
    ensures ItemOK(Touched(s.items[step.i], step))
  {
    hide ToldBy;
    var x, x' := s.items[step.i], Touched(s.items[step.i], step);
    forall r | r in x'.calls
      ensures ToldBy(x', r)
    {
      assert ToldBy(x, r);
      StillTold(s, step, r);
    }
  }

  lemma StillTold(s: State, step: Step, r: ProduceResult)
    requires Enabled(s, step) && !step.Arrive? && ToldBy(s.items[step.i], r) && r in s.items[step.i].calls && ItemOK(s.items[step.i])
    ensures ToldBy(Touched(s.items[step.i], step), r)
  {
  }

  lemma TellingStepKeepsItem(s: State, step: Step)
    requires Enabled(s, step) && (step.CallbackRuns? || step.Fire? || step.ExtraDone?) && ItemOK(s.items[step.i])
    ensures ItemOK(Touched(s.items[step.i], step))
  {
    var x, x' := s.items[step.i], Touched(s.items[step.i], step);
    forall r | r in x'.calls
      ensures ToldBy(x', r)
    {
      if r in x.calls {
        assert ToldBy(x, r);
        StillTold(s, step, r);
      }
    }
  }

  lemma TouchedKeepsItem(s: State, step: Step)
    requires Enabled(s, step) && !step.Arrive? && ItemOK(s.items[step.i])
    ensures ItemOK(Touched(s.items[step.i], step))
  {
    hide ItemOK, Touched, Enabled;
    if step.CallbackRuns? || step.Fire? || step.ExtraDone? {
      TellingStepKeepsItem(s, step);
    } else {
      QuietStepKeepsItem(s, step);
    }
  }

  lemma StepKeepsInv(s: State, step: Step)
    requires Inv(s) && Enabled(s, step)
    ensures Inv(Next(s, step))
  {
    hide BytesHeld, RecordsHeld;
    if step.Arrive? {
      var x := Item(step.bytes, step.records, step.cancellable, Fresh, NoWatch, false, false, [], []);
      SumSnoc(BytesHeld, s.items, x);
      SumSnoc(RecordsHeld, s.items, x);
      HeldBy(x);
    } else {
      var x := s.items[step.i];
      var x' := Touched(x, step);
      assert x in s.items;
      TouchedKeepsItem(s, step);
      SumUpdate(BytesHeld, s.items, step.i, x');
      SumUpdate(RecordsHeld, s.items, step.i, x');
      HeldChange(s, step);
    }
  }

  lemma HeldBy(x: Item)
    ensures x.stage.Fresh? ==> BytesHeld(x) == 0 == RecordsHeld(x)
  {
  }

  lemma HeldChange(s: State, step: Step)
    requires Enabled(s, step) && !step.Arrive?
    ensures var x := s.items[step.i];
            var x' := Touched(x, step);
            && BytesHeld(x') - BytesHeld(x) == (if step.CountBytes? then x.bytes else if step.ReleaseBytes? then 0 - x.bytes else 0)
            && RecordsHeld(x') - RecordsHeld(x) == (if step.CountRecords? then x.records else if step.ReleaseRecords? then 0 - x.records else 0)
  {
  }

  lemma {:induction false} RunKeepsInv(s: State, steps: seq<Step>, end: State)
    requires Inv(s) && Run(s, steps, end)
    ensures Inv(end)
    decreases |steps|
  {
    hide Inv, Enabled, Next;
    if steps != [] {
      StepKeepsInv(s, steps[0]);
      RunKeepsInv(Next(s, steps[0]), steps[1..], end);
    }
  }

  lemma {:induction false} RunsCompose(s: State, first: seq<Step>, mid: State, second: seq<Step>, end: State)
    requires Run(s, first, mid) && Run(mid, second, end)
    ensures Run(s, first + second, end)
    decreases |first|
  {
    hide Enabled, Next;
    if first == [] {
      assert first + second == second;
    } else {
      assert (first + second)[1..] == first[1..] + second;
      RunsCompose(Next(s, first[0]), first[1..], mid, second, end);
    }
  }

  /** In every interleaving of arrivals, context cancellations, flush completions and
      rejections: the counters equal the sums over the items still held, each caller has been
      completed at most once, and exactly once if its item is finished. */
  lemma CountersAndCompletions(steps: seq<Step>, end: State)
    requires Run(INITIAL, steps, end)
    ensures end.bufferedBytes == Sum(BytesHeld, end.items)
    ensures end.bufferedRecords == Sum(RecordsHeld, end.items)
    ensures forall x :: x in end.items ==> |x.calls| <= 1 && (x.stage.Finished? ==> |x.calls| == 1)
  {
    RunKeepsInv(INITIAL, steps, end);
  }

  /** A cancellation completes a caller that is not complete yet and changes nothing else: the
      item is still held and its flush still completes it. */
  lemma CancellationOnlyDetaches(s: State, i: nat)
    requires Inv(s) && Enabled(s, CallbackRuns(i))
    ensures var s', x := Next(s, CallbackRuns(i)), s.items[i];
            && s'.bufferedBytes == s.bufferedBytes && s'.bufferedRecords == s.bufferedRecords
            && s'.items[i].stage == x.stage
            && s'.items[i].calls == (if x.calls == [] then [ProduceResult(None, Some(x.watch.err))] else x.calls)
  {
    assert s.items[i] in s.items;
  }

  /** What a caller was told first is all it is told. */
  lemma FirstTellerWins(s: State, step: Step, i: nat)
    requires Inv(s) && Enabled(s, step) && i < |s.items| && s.items[i].calls != []
    ensures Next(s, step).items[i].calls == s.items[i].calls
  {
    assert s.items[i] in s.items;
  }

  // ---- Told by the steps of the run ----

  predicate Reports(x: Item, r: ProduceResult) {
    match x.stage
    case Called(result) => r == result
    case BytesOut(result) => r == result
    case RecordsOut(result) => r == result
    case Finished(result) => r == result
    case _ => false
  }

  /** What is on record for item i was brought by a step about item i. */
  ghost predicate ItemTraced(past: seq<Step>, i: nat, x: Item) {
    && (forall r :: Reports(x, r) ==> DoneCalled(i, r) in past)
    && (x.watch.Running? ==> ContextEnds(i, x.watch.err) in past)
    && (x.watch.Spent? ==> ContextEnds(i, x.watch.err) in past && CallbackRuns(i) in past)
    && (forall r :: r in x.extras ==> ExtraDone(i, r) in past)
  }

  ghost predicate Traced(past: seq<Step>, s: State) {
    forall i :: 0 <= i < |s.items| ==> ItemTraced(past, i, s.items[i])
  }

  lemma TouchedTraced(past: seq<Step>, step: Step, x: Item)
    requires !step.Arrive? && ItemTraced(past, step.i, x)
    ensures ItemTraced(past + [step], step.i, Touched(x, step))
  {
    assert step in past + [step];
    assert forall y :: y in past ==> y in past + [step];
  }

  /** Only the completion brings a result. */
  lemma NewReports(s: State, step: Step, i: nat, r: ProduceResult)
    requires Enabled(s, step) && i < |Next(s, step).items| && Reports(Next(s, step).items[i], r)
    ensures i < |s.items|
    ensures Reports(s.items[i], r) || step == DoneCalled(i, r)
  {
  }

  lemma OthersTraced(past: seq<Step>, step: Step, i: nat, x: Item)
    requires ItemTraced(past, i, x)
    ensures ItemTraced(past + [step], i, x)
  {
    assert forall y :: y in past ==> y in past + [step];
  }

  lemma StepTraced(past: seq<Step>, s: State, step: Step)
    requires Traced(past, s) && Enabled(s, step)
    ensures Traced(past + [step], Next(s, step))
  {
    hide ItemTraced, Touched;
    var s' := Next(s, step);
    forall i | 0 <= i < |s'.items|
      ensures ItemTraced(past + [step], i, s'.items[i])
    {
      if i == |s.items| {
        FreshTraced(past + [step], i, s'.items[i]);
      } else if !step.Arrive? && step.i == i {
        TouchedTraced(past, step, s.items[i]);
      } else {
        OthersTraced(past, step, i, s.items[i]);
      }
    }
  }

  lemma FreshTraced(past: seq<Step>, i: nat, x: Item)
    requires x.stage.Fresh? && x.watch.NoWatch? && x.extras == []
    ensures ItemTraced(past, i, x)
  {
  }

  lemma {:induction false} RunTraced(past: seq<Step>, s: State, steps: seq<Step>, end: State)
    requires Traced(past, s) && Run(s, steps, end)
    ensures Traced(past + steps, end)
    decreases |steps|
  {
    hide Traced, Enabled, Next;
    if steps == [] {
      assert past + steps == past;
    } else {
      StepTraced(past, s, steps[0]);
      RunTraced(past + [steps[0]], Next(s, steps[0]), steps[1..], end);
      assert past + [steps[0]] + steps[1..] == past + steps;
    }
  }

  /** In every interleaving a caller is told the result its own completion was called with, or the
      error its context ended with, and the latter only if the context's callback ran; a finished
      item whose callback never ran was told the result of its completion. */
  lemma CallersAreTold(steps: seq<Step>, end: State, i: nat)
    requires Run(INITIAL, steps, end) && i < |end.items|
    ensures forall r :: r in end.items[i].calls ==>
              || DoneCalled(i, r) in steps || ExtraDone(i, r) in steps
              || (CallbackRuns(i) in steps && r.resp.None? && r.err.Some? && ContextEnds(i, r.err.value) in steps)
    ensures end.items[i].stage.Finished? && CallbackRuns(i) !in steps && (forall r :: ExtraDone(i, r) !in steps) ==>
              end.items[i].calls == [end.items[i].stage.result] && DoneCalled(i, end.items[i].stage.result) in steps
  {
    hide Run;
    RunKeepsInv(INITIAL, steps, end);
    RunTraced([], INITIAL, steps, end);
    assert [] + steps == steps;
    var x := end.items[i];
    assert x in end.items && ItemOK(x) && ItemTraced(steps, i, x);
    assert x.stage.Finished? ==> Reports(x, x.stage.result);
    if x.calls != [] {
      assert x.calls[0] in x.calls;
    }
  }

  lemma {:induction false} NothingHeld(items: seq<Item>)
    requires forall x :: x in items ==> x.stage.Finished?
    ensures Sum(BytesHeld, items) == 0 && Sum(RecordsHeld, items) == 0
  {
    if items != [] {
      assert items[0] in items;
      NothingHeld(items[1..]);
    }
  }

  // ---- One buffer per agent ----

  /** The agent map with its lazy creation and one-time close. */
  class AgentMap<!W> {
    const kind: Kind<W>
    const cap: nat
    var agentBuffers: map<int, AgentBuffer<W>>
    var closed: bool
    /** Every buffer ever created, by agent. */
    ghost var created: map<int, AgentBuffer<W>>

    /** The map holds every buffer until it is closed, and no two agents share one. */
    ghost predicate Valid()
      reads this
    {
      && agentBuffers == (if closed then map[] else created)
      && (forall a, b :: a in created && b in created && a != b ==> created[a] != created[b])
      && (forall a :: a in created ==> created[a].kind == kind && created[a].cap == cap)
    }

    constructor (kind: Kind<W>, cap: nat)
      ensures Valid() && !closed && created == map[] && this.kind == kind && this.cap == cap
    {
      this.kind, this.cap := kind, cap;
      agentBuffers, closed, created := map[], false, map[];
    }

    /** The read-locked fast path. */
    method Lookup(nodeID: int) returns (isClosed: bool, found: Option<AgentBuffer<W>>)
      requires Valid()
      ensures isClosed == closed
      ensures found == if !closed && nodeID in created then Some(created[nodeID]) else None
    {
      if closed {
        return true, None;
      }
      return false, if nodeID in agentBuffers then Some(agentBuffers[nodeID]) else None;
    }

    /** The write-locked path re-checks both conditions: another goroutine may have closed the
        buffer or created this agent's entry since the fast path missed. */
    method GetOrCreate(nodeID: int) returns (buffer: Option<AgentBuffer<W>>)
      requires Valid()
      modifies this
      ensures Valid() && closed == old(closed)
      ensures closed ==> buffer == None && created == old(created)
      ensures !closed ==> nodeID in created && buffer == Some(created[nodeID])
      ensures !closed && nodeID in old(created) ==> created == old(created)
      ensures !closed && nodeID !in old(created) ==>
                created == old(created)[nodeID := created[nodeID]] && fresh(created[nodeID])
                && created[nodeID].Value() == Core([], 0, 0, false, false, [])
    {
      if closed {
        return None;
      }
      if nodeID in agentBuffers {
        return Some(agentBuffers[nodeID]);
      }
      var b := new AgentBuffer(kind, cap);
      agentBuffers := agentBuffers[nodeID := b];
      created := created[nodeID := b];
      return Some(b);
    }

    /** Takes ownership of every buffer and closes each; a second call does nothing. */
    method Close()
      requires Valid()
      modifies this, created.Values
      ensures Valid() && closed && created == old(created)
      ensures forall a :: a in created ==>
                created[a].Value() == if old(closed) then old(created[a].Value()) else CloseCore(old(created[a].Value()))
    {
      if closed {
        return;
      }
      closed := true;
      var taken := agentBuffers;
      agentBuffers := map[];
      var left := taken.Keys;
      while exists a :: a in left
        invariant left <= taken.Keys && Valid() && closed && taken == created == old(created)
        invariant forall a :: a in taken ==>
                    taken[a].Value() == if a in left then old(taken[a].Value()) else CloseCore(old(taken[a].Value()))
        decreases left
      {
        var a :| a in left;
        taken[a].BeginClose();
        left := left - {a};
      }
    }
  }
}
