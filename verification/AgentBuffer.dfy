/** The per-agent batching buffer: linger, overflow and close flushes over one pending batch. */
module AgentBuffers {
  import opened Basics
  import opened ProduceResults

  /** What the buffer asks of an item; record groups and encoded batches both provide it. */
  datatype Kind<!W> = Kind(count: W -> nat, wire: W -> nat, split: W -> seq<W>, tp: W -> TopicPartition)

  /** An item and the caller whose completion it belongs to. */
  datatype Promise<W> = Promise(owner: nat, item: W)

  /** A flush goroutine: the entries it took, the outcome once produced, and how many of the
      entries' completions it has called. */
  datatype Flush<W> = Flush(entries: seq<Promise<W>>, result: Option<ProduceResult>, reported: nat)

  datatype Core<W> = Core(
    items: seq<Promise<W>>,
    records: nat,
    wire: nat,
    timer: bool,
    closed: bool,
    flushes: seq<Flush<W>>)

  /** The chunks an item is added as: itself, unless it splits in two or more. */
  function ChunksOf<W>(k: Kind<W>, p: Promise<W>): seq<Promise<W>> {
    var parts := k.split(p.item);
    if |parts| <= 1 then [p] else seq(|parts|, i requires 0 <= i < |parts| => Promise(p.owner, parts[i]))
  }

  function AllChunks<W>(k: Kind<W>, items: seq<Promise<W>>): seq<Promise<W>> {
    if items == [] then [] else ChunksOf(k, items[0]) + AllChunks(k, items[1..])
  }

  function TotalRecords<W>(k: Kind<W>, items: seq<Promise<W>>): nat {
    if items == [] then 0 else k.count(items[0].item) + TotalRecords(k, items[1..])
  }

  function TotalWire<W>(k: Kind<W>, items: seq<Promise<W>>): nat {
    if items == [] then 0 else k.wire(items[0].item) + TotalWire(k, items[1..])
  }

  // ---- Steps under the buffer's mutex ----

  function StartFlush<W>(c: Core<W>): Core<W> {
    if c.records == 0 then c
    else c.(items := [], records := 0, wire := 0, timer := false, flushes := c.flushes + [Flush(c.items, None, 0)])
  }

  predicate Overflows<W>(k: Kind<W>, cap: nat, c: Core<W>, p: Promise<W>) {
    c.records > 0 && c.wire + k.wire(p.item) > cap
  }

  function AddOne<W>(k: Kind<W>, cap: nat, c: Core<W>, p: Promise<W>): Core<W> {
    var c' := if Overflows(k, cap, c, p) then StartFlush(c) else c;
    c'.(items := c'.items + [p], records := c'.records + k.count(p.item), wire := c'.wire + k.wire(p.item))
  }

  function AddMany<W>(k: Kind<W>, cap: nat, c: Core<W>, ps: seq<Promise<W>>): Core<W>
    decreases |ps|
  {
    if ps == [] then c else AddMany(k, cap, AddOne(k, cap, c, ps[0]), ps[1..])
  }

  function ArmTimer<W>(c: Core<W>): Core<W> {
    if c.records > 0 then c.(timer := true) else c
  }

  /** A closed buffer accepts nothing; the chunks are handed back to be failed. */
  function Submit<W>(k: Kind<W>, cap: nat, c: Core<W>, items: seq<Promise<W>>): (Core<W>, seq<Promise<W>>) {
    if TotalRecords(k, items) == 0 then (c, [])
    else if c.closed then (c, AllChunks(k, items))
    else (ArmTimer(AddMany(k, cap, c, AllChunks(k, items))), [])
  }

  function CloseCore<W>(c: Core<W>): Core<W> {
    if c.closed then c else StartFlush(c.(closed := true))
  }

  class AgentBuffer<!W> {
    const kind: Kind<W>
    const cap: nat
    var nextProduceItems: seq<Promise<W>>
    var nextProduceRecords: nat
    var nextProduceWireBytes: nat
    var timerRunning: bool
    var closed: bool
    /** The flush goroutines started so far, oldest first. */
    var flushes: seq<Flush<W>>

    ghost function Value(): Core<W>
      reads this
    {
      Core(nextProduceItems, nextProduceRecords, nextProduceWireBytes, timerRunning, closed, flushes)
    }

    constructor (kind: Kind<W>, cap: nat)
      ensures this.kind == kind && this.cap == cap
      ensures Value() == Core([], 0, 0, false, false, [])
    {
      this.kind, this.cap := kind, cap;
      nextProduceItems, nextProduceRecords, nextProduceWireBytes := [], 0, 0;
      timerRunning, closed, flushes := false, false, [];
    }

    method StartFlushLocked()
      modifies this
      ensures Value() == StartFlush(old(Value()))
    {
      if nextProduceRecords == 0 {
        return;
      }
      timerRunning := false;
      var entries := nextProduceItems;
      nextProduceItems, nextProduceRecords, nextProduceWireBytes := [], 0, 0;
      flushes := flushes + [Flush(entries, None, 0)];
    }

    method AddToNextProduceLocked(p: Promise<W>)
      modifies this
      ensures Value() == AddOne(kind, cap, old(Value()), p)
    {
      var addBytes := kind.wire(p.item);
      if nextProduceRecords > 0 && nextProduceWireBytes + addBytes > cap {
        StartFlushLocked();
      }
      nextProduceItems := nextProduceItems + [p];
      nextProduceRecords := nextProduceRecords + kind.count(p.item);
      nextProduceWireBytes := nextProduceWireBytes + addBytes;
    }

    method MaybeStartTimerLocked()
      modifies this`timerRunning
      ensures Value() == ArmTimer(old(Value()))
    {
      if nextProduceRecords > 0 && !timerRunning {
        timerRunning := true;
      }
    }

    /** Items come back only from a closed buffer, for the caller to fail. */
    method MultiAdd(items: seq<Promise<W>>) returns (rejected: seq<Promise<W>>)
      modifies this
      ensures (Value(), rejected) == Submit(kind, cap, old(Value()), items)
    {
      var incoming := CountRecords(items);
      if incoming == 0 {
        return [];
      }
      var chunks := SplitAll(items);
      if closed {
        return chunks;
      }
      for i := 0 to |chunks|
        invariant AddMany(kind, cap, Value(), chunks[i..]) == AddMany(kind, cap, old(Value()), chunks)
      {
        assert chunks[i..][1..] == chunks[i + 1..];
        AddToNextProduceLocked(chunks[i]);
      }
      MaybeStartTimerLocked();
      rejected := [];
    }

    method CountRecords(items: seq<Promise<W>>) returns (n: nat)
      ensures n == TotalRecords(kind, items)
    {
      n := 0;
      for i := 0 to |items|
        invariant n + TotalRecords(kind, items[i..]) == TotalRecords(kind, items)
      {
        assert items[i..][1..] == items[i + 1..];
        n := n + kind.count(items[i].item);
      }
    }

    method SplitAll(items: seq<Promise<W>>) returns (chunks: seq<Promise<W>>)
      ensures chunks == AllChunks(kind, items)
    {
      chunks := [];
      for i := 0 to |items|
        invariant chunks + AllChunks(kind, items[i..]) == AllChunks(kind, items)
      {
        hide ChunksOf;
        assert items[i..][1..] == items[i + 1..];
        chunks := chunks + ChunksOf(kind, items[i]);
      }
    }

    /** One item. A fitting one skips the split; only an oversized one takes the other path. */
    method Add(p: Promise<W>) returns (rejected: seq<Promise<W>>)
      requires kind.wire(p.item) <= cap ==> |kind.split(p.item)| <= 1
      modifies this
      ensures (Value(), rejected) == Submit(kind, cap, old(Value()), [p])
    {
      SingleItem(kind, p);
      if kind.count(p.item) == 0 {
        return [];
      }
      if kind.wire(p.item) > cap {
        rejected := MultiAdd([p]);
        return;
      }
      if closed {
        return [p];
      }
      OneChunk(kind, cap, Value(), p);
      AddToNextProduceLocked(p);
      MaybeStartTimerLocked();
      rejected := [];
    }

    method TimerFlush()
      modifies this
      ensures Value() == StartFlush(old(Value()))
    {
      StartFlushLocked();
    }

    /** The part of Close under the mutex; the caller then waits for the flushes. */
    method BeginClose()
      modifies this
      ensures Value() == CloseCore(old(Value()))
    {
      if closed {
        return;
      }
      closed := true;
      StartFlushLocked();
    }
  }

  lemma SingleItem<W>(k: Kind<W>, p: Promise<W>)
    ensures TotalRecords(k, [p]) == k.count(p.item)
    ensures AllChunks(k, [p]) == ChunksOf(k, p)
  {
  }

  lemma OneChunk<W>(k: Kind<W>, cap: nat, c: Core<W>, p: Promise<W>)
    ensures AddMany(k, cap, c, [p]) == AddOne(k, cap, c, p)
  {
  }

  // ---- What every step keeps ----

  lemma {:induction false} TotalsAppend<W>(k: Kind<W>, a: seq<Promise<W>>, b: seq<Promise<W>>)
    ensures TotalRecords(k, a + b) == TotalRecords(k, a) + TotalRecords(k, b)
    ensures TotalWire(k, a + b) == TotalWire(k, a) + TotalWire(k, b)
  {
    if a == [] {
      assert a + b == b;
    } else {
      assert (a + b)[1..] == a[1..] + b;
      TotalsAppend(k, a[1..], b);
    }
  }

  /** The counters are the sums over the pending items, a pending batch of two or more items
      fits the cap, and pending items always hold records. */
  ghost predicate Consistent<W>(k: Kind<W>, cap: nat, c: Core<W>) {
    && c.records == TotalRecords(k, c.items)
    && c.wire == TotalWire(k, c.items)
    && (|c.items| >= 2 ==> c.wire <= cap)
    && (forall p :: p in c.items ==> k.count(p.item) > 0)
    && (c.closed ==> c.items == [])
  }

  /** When every chunk fits the cap by itself, so does every pending batch. */
  ghost predicate WithinCap<W>(k: Kind<W>, cap: nat, c: Core<W>) {
    (forall p :: p in c.items ==> k.wire(p.item) <= cap) ==> c.wire <= cap
  }

  lemma PendingStaysWithinCap<W>(k: Kind<W>, cap: nat, c: Core<W>)
    requires Consistent(k, cap, c)
    ensures WithinCap(k, cap, c)
  {
    if |c.items| == 1 {
      var p := c.items[0];
      assert p in c.items;
      assert c.items == [] + [p];
      TotalsAppend(k, [], [p]);
      assert TotalWire(k, [p]) == k.wire(p.item) + TotalWire(k, []);
    }
  }

  lemma AddOneKeeps<W>(k: Kind<W>, cap: nat, c: Core<W>, p: Promise<W>)
    requires Consistent(k, cap, c) && !c.closed && k.count(p.item) > 0
    ensures Consistent(k, cap, AddOne(k, cap, c, p)) && !AddOne(k, cap, c, p).closed
  {
    var c' := if Overflows(k, cap, c, p) then StartFlush(c) else c;
    TotalsAppend(k, c'.items, [p]);
    assert [p][1..] == [];
    if c.items != [] {
      assert c.items[0] in c.items;
      assert c.records > 0;
    }
  }

  lemma {:induction false} AddManyKeeps<W>(k: Kind<W>, cap: nat, c: Core<W>, ps: seq<Promise<W>>)
    requires Consistent(k, cap, c) && !c.closed && (forall p :: p in ps ==> k.count(p.item) > 0)
    ensures Consistent(k, cap, AddMany(k, cap, c, ps)) && !AddMany(k, cap, c, ps).closed
    decreases |ps|
  {
    hide Consistent;
    if ps != [] {
      AddOneKeeps(k, cap, c, ps[0]);
      AddManyKeeps(k, cap, AddOne(k, cap, c, ps[0]), ps[1..]);
    }
  }

  // ---- When a group of items rides in one flush ----

  /** No flush boundary fell inside the group: all of it sits at the end of the pending batch. */
  ghost predicate RidesTogether<W>(k: Kind<W>, cap: nat, c: Core<W>, group: seq<Promise<W>>) {
    var items := AddMany(k, cap, c, group).items;
    |group| <= |items| && items[|items| - |group|..] == group
  }

  /** Checkable before the call: whether the first item evicts what is pending, the group,
      together with what stays pending before it, fits the cap. */
  predicate FitsTogether<W>(k: Kind<W>, cap: nat, c: Core<W>, group: seq<Promise<W>>) {
    |group| <= 1 ||
    (if Overflows(k, cap, c, group[0]) then 0 else c.wire) + TotalWire(k, group) <= cap
  }

  lemma {:induction false} TailRidesAlong<W>(k: Kind<W>, cap: nat, c: Core<W>, tail: seq<Promise<W>>)
    requires c.records > 0
    requires c.wire + TotalWire(k, tail) <= cap
    ensures AddMany(k, cap, c, tail).items == c.items + tail
    decreases |tail|
  {
    if tail == [] {
      assert c.items + tail == c.items;
    } else {
      var c' := AddOne(k, cap, c, tail[0]);
      assert c'.items == c.items + [tail[0]];
      TailRidesAlong(k, cap, c', tail[1..]);
      assert c.items + [tail[0]] + tail[1..] == c.items + tail;
    }
  }

  lemma {:induction false} PendingIsShort<W>(k: Kind<W>, cap: nat, c: Core<W>, tail: seq<Promise<W>>)
    requires c.records > 0 && tail != []
    requires c.wire + TotalWire(k, tail) > cap
    ensures |AddMany(k, cap, c, tail).items| <= |tail|
    decreases |tail|
  {
    var c' := AddOne(k, cap, c, tail[0]);
    if Overflows(k, cap, c, tail[0]) {
      assert |c'.items| == 1;
      GrowsByAtMost(k, cap, c', tail[1..]);
    } else {
      PendingIsShort(k, cap, c', tail[1..]);
    }
  }

  lemma {:induction false} GrowsByAtMost<W>(k: Kind<W>, cap: nat, c: Core<W>, tail: seq<Promise<W>>)
    ensures |AddMany(k, cap, c, tail).items| <= |c.items| + |tail|
    decreases |tail|
  {
    if tail != [] {
      GrowsByAtMost(k, cap, AddOne(k, cap, c, tail[0]), tail[1..]);
    }
  }

  /** A group of items added in one call rides in one flush exactly when it fits together. */
  lemma RidesTogetherExactlyWhenItFits<W>(k: Kind<W>, cap: nat, c: Core<W>, group: seq<Promise<W>>)
    requires Consistent(k, cap, c) && (forall p :: p in group ==> k.count(p.item) > 0)
    ensures RidesTogether(k, cap, c, group) <==> FitsTogether(k, cap, c, group)
  {
    if group != [] {
      var c' := AddOne(k, cap, c, group[0]);
      assert group[0] in group;
      assert c'.items != [] && c'.items[|c'.items| - 1] == group[0];
      var tail := group[1..];
      assert AddMany(k, cap, c, group) == AddMany(k, cap, c', tail);
      if FitsTogether(k, cap, c, group) {
        GroupStays(k, cap, c', group);
      } else {
        PendingIsShort(k, cap, c', tail);
      }
    }
  }

  lemma GroupStays<W>(k: Kind<W>, cap: nat, c: Core<W>, group: seq<Promise<W>>)
    requires group != [] && c.items != [] && c.items[|c.items| - 1] == group[0] && c.records > 0
    requires |group| == 1 || c.wire + TotalWire(k, group[1..]) <= cap
    ensures var items := AddMany(k, cap, c, group[1..]).items;
            |group| <= |items| && items[|items| - |group|..] == group
  {
    var tail := group[1..];
    if |group| == 1 {
      assert AddMany(k, cap, c, tail).items == c.items + tail;
    } else {
      TailRidesAlong(k, cap, c, tail);
    }
    var items := c.items + tail;
    assert items[|items| - |group|..] == group;
  }
}
