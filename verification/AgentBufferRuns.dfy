/** Every interleaving of calls, linger timers, flush outcomes and closing on one agent's
    buffer: completions fire exactly once, and entries leave in arrival order. */
module AgentBufferRuns {
  import opened Basics
  import opened ProduceResults
  import opened RoutedBatches
  import opened AgentBuffers

  datatype Setup<!W> = Setup(kind: Kind<W>, cap: nat, classify: Classifier)

  /** A caller's completion: how many chunks it waits for and the outcomes it has received. */
  datatype Fan = Fan(tp: TopicPartition, parts: nat, results: seq<ProduceResult>)

  /** rejects are the calls that met a closed buffer: their completions are called by the
      submitting goroutine itself, after the mutex is released. fired is the log of calls to
      the callers' own completions. */
  datatype World<W> = World(
    core: Core<W>,
    rejects: seq<Flush<W>>,
    fans: map<nat, Fan>,
    fired: seq<(nat, ProduceResult)>,
    submitted: seq<Promise<W>>)

  datatype Event<W> =
    | SubmitItems(items: seq<Promise<W>>)
    | Timer
    | Produced(i: nat, result: ProduceResult)
    | Report(i: nat)
    | ReportReject(i: nat)
    | Close

  const CLOSED := ProduceResult(None, Some(BufferClosed))

  function InitialWorld<W>(): World<W> {
    World(Core([], 0, 0, false, false, []), [], map[], [], [])
  }

  function AddFans<W>(k: Kind<W>, fans: map<nat, Fan>, items: seq<Promise<W>>): map<nat, Fan>
    decreases |items|
  {
    if items == [] then fans
    else AddFans(k, fans[items[0].owner := Fan(k.tp(items[0].item), |ChunksOf(k, items[0])|, [])], items[1..])
  }

  /** One call of the completion shared by owner's chunks; the last one completes the caller. */
  function Deliver<W>(cfg: Setup<W>, w: World<W>, owner: nat, result: ProduceResult): World<W>
    requires owner in w.fans
  {
    var f := w.fans[owner];
    var results := f.results + [result];
    w.(fans := w.fans[owner := f.(results := results)],
       fired := if |results| == f.parts then w.fired + [(owner, Choose(cfg.classify, f.tp, results))] else w.fired)
  }

  predicate Reportable<W>(w: World<W>, f: Flush<W>) {
    f.result.Some? && f.reported < |f.entries| && f.entries[f.reported].owner in w.fans
  }

  function OneMore<W>(fs: seq<Flush<W>>, i: nat): seq<Flush<W>>
    requires i < |fs|
  {
    fs[i := fs[i].(reported := fs[i].reported + 1)]
  }

  /** Every submission brings its own fresh completions. Items hold at least one record; a call
      whose items are all empty is dropped. */
  ghost predicate Enabled<W>(cfg: Setup<W>, w: World<W>, e: Event<W>) {
    match e
    case SubmitItems(items) =>
      && (forall i, j :: 0 <= i < j < |items| ==> items[i].owner != items[j].owner)
      && (forall p :: p in items ==> p.owner !in w.fans)
      && (TotalRecords(cfg.kind, items) == 0 || forall p :: p in AllChunks(cfg.kind, items) ==> cfg.kind.count(p.item) > 0)
    case Timer => true
    case Produced(i, _) => i < |w.core.flushes| && w.core.flushes[i].result.None?
    case Report(i) => i < |w.core.flushes| && Reportable(w, w.core.flushes[i])
    case ReportReject(i) => i < |w.rejects| && Reportable(w, w.rejects[i])
    case Close => true
  }

  ghost function Step<W>(cfg: Setup<W>, w: World<W>, e: Event<W>): World<W>
    requires Enabled(cfg, w, e)
  {
    match e
    case SubmitItems(items) =>
      if TotalRecords(cfg.kind, items) == 0 then w
      else
        var (core, rejected) := Submit(cfg.kind, cfg.cap, w.core, items);
        var fans := AddFans(cfg.kind, w.fans, items);
        if w.core.closed then w.(rejects := w.rejects + [Flush(rejected, Some(CLOSED), 0)], fans := fans)
        else w.(core := core, fans := fans, submitted := w.submitted + items)
    case Timer => w.(core := StartFlush(w.core))
    case Produced(i, result) =>
      w.(core := w.core.(flushes := w.core.flushes[i := w.core.flushes[i].(result := Some(result))]))
    case Report(i) =>
      var f := w.core.flushes[i];
      Deliver(cfg, w.(core := w.core.(flushes := OneMore(w.core.flushes, i))), f.entries[f.reported].owner, f.result.value)
    case ReportReject(i) =>
      var f := w.rejects[i];
      Deliver(cfg, w.(rejects := OneMore(w.rejects, i)), f.entries[f.reported].owner, f.result.value)
    case Close => w.(core := CloseCore(w.core))
  }

  ghost predicate Run<W>(cfg: Setup<W>, w: World<W>, events: seq<Event<W>>, end: World<W>)
    decreases |events|
  {
    if events == [] then w == end
    else Enabled(cfg, w, events[0]) && Run(cfg, Step(cfg, w, events[0]), events[1..], end)
  }

  // ---- Counting what is outstanding ----

  function Count<W>(ps: seq<Promise<W>>, o: nat): nat {
    if ps == [] then 0 else (if ps[0].owner == o then 1 else 0) + Count(ps[1..], o)
  }

  lemma {:induction false} CountAppend<W>(a: seq<Promise<W>>, b: seq<Promise<W>>, o: nat)
    ensures Count(a + b, o) == Count(a, o) + Count(b, o)
  {
    if a == [] {
      assert a + b == b;
    } else {
      assert (a + b)[1..] == a[1..] + b;
      CountAppend(a[1..], b, o);
    }
  }

  /** Entries of a flush whose completions have not been called. */
  function Unreported<W>(f: Flush<W>): seq<Promise<W>> {
    if f.reported <= |f.entries| then f.entries[f.reported..] else []
  }

  function LeftIn<W>(fs: seq<Flush<W>>, o: nat): nat {
    if fs == [] then 0 else Count(Unreported(fs[0]), o) + LeftIn(fs[1..], o)
  }

  lemma {:induction false} LeftInAppend<W>(a: seq<Flush<W>>, b: seq<Flush<W>>, o: nat)
    ensures LeftIn(a + b, o) == LeftIn(a, o) + LeftIn(b, o)
  {
    hide Count, Unreported;
    if a == [] {
      assert a + b == b;
    } else {
      assert (a + b)[1..] == a[1..] + b;
      LeftInAppend(a[1..], b, o);
    }
  }

  lemma LeftInSnoc<W>(fs: seq<Flush<W>>, f: Flush<W>, o: nat)
    ensures LeftIn(fs + [f], o) == LeftIn(fs, o) + Count(Unreported(f), o)
  {
    LeftInAppend(fs, [f], o);
    assert [f][1..] == [];
  }

  lemma LeftInUpdate<W>(fs: seq<Flush<W>>, i: nat, f: Flush<W>, o: nat)
    requires i < |fs|
    ensures LeftIn(fs[i := f], o) == LeftIn(fs, o) - Count(Unreported(fs[i]), o) + Count(Unreported(f), o)
  {
    hide Count, Unreported;
    LeftInSnoc(fs[..i], fs[i], o);
    LeftInSnoc(fs[..i], f, o);
    LeftInAppend(fs[..i] + [fs[i]], fs[i + 1..], o);
    LeftInAppend(fs[..i] + [f], fs[i + 1..], o);
    assert fs == fs[..i] + [fs[i]] + fs[i + 1..];
    assert fs[i := f] == fs[..i] + [f] + fs[i + 1..];
  }

  /** Chunks of owner o that are pending or in flight. */
  function CoreLeft<W>(c: Core<W>, o: nat): nat {
    Count(c.items, o) + LeftIn(c.flushes, o)
  }

  function Left<W>(w: World<W>, o: nat): nat {
    CoreLeft(w.core, o) + LeftIn(w.rejects, o)
  }

  function Fires(fired: seq<(nat, ProduceResult)>, o: nat): nat {
    if fired == [] then 0 else (if fired[0].0 == o then 1 else 0) + Fires(fired[1..], o)
  }

  lemma {:induction false} FiresSnoc(fired: seq<(nat, ProduceResult)>, x: (nat, ProduceResult), o: nat)
    ensures Fires(fired + [x], o) == Fires(fired, o) + if x.0 == o then 1 else 0
  {
    if fired != [] {
      assert (fired + [x])[1..] == fired[1..] + [x];
      FiresSnoc(fired[1..], x, o);
    }
  }

  lemma StartFlushLeft<W>(c: Core<W>, o: nat)
    requires c.records == 0 ==> c.items == []
    ensures CoreLeft(StartFlush(c), o) == CoreLeft(c, o)
  {
    LeftInSnoc(c.flushes, Flush(c.items, None, 0), o);
    assert c.items[0..] == c.items;
  }

  lemma AddOneLeft<W>(k: Kind<W>, cap: nat, c: Core<W>, p: Promise<W>, o: nat)
    requires c.records == 0 ==> c.items == []
    ensures CoreLeft(AddOne(k, cap, c, p), o) == CoreLeft(c, o) + Count([p], o)
  {
    StartFlushLeft(c, o);
    CountAppend(c.items, [p], o);
    CountAppend([], [p], o);
    assert [] + [p] == [p];
  }

  lemma {:induction false} AddManyLeft<W>(k: Kind<W>, cap: nat, c: Core<W>, ps: seq<Promise<W>>, o: nat)
    requires Consistent(k, cap, c) && !c.closed && (forall p :: p in ps ==> k.count(p.item) > 0)
    ensures CoreLeft(AddMany(k, cap, c, ps), o) == CoreLeft(c, o) + Count(ps, o)
    decreases |ps|
  {
    hide CoreLeft;
    if ps != [] {
      EmptyWhenNoRecords(k, cap, c);
      AddOneKeeps(k, cap, c, ps[0]);
      AddOneLeft(k, cap, c, ps[0], o);
      AddManyLeft(k, cap, AddOne(k, cap, c, ps[0]), ps[1..], o);
      CountAppend([ps[0]], ps[1..], o);
      assert [ps[0]] + ps[1..] == ps;
    }
  }

  lemma EmptyWhenNoRecords<W>(k: Kind<W>, cap: nat, c: Core<W>)
    requires Consistent(k, cap, c)
    ensures c.records == 0 ==> c.items == []
  {
  }

  // ---- Entries leave in arrival order ----

  /** Everything that was added: flushed entries, oldest flush first, then the pending ones. */
  function Flushed<W>(fs: seq<Flush<W>>): seq<Promise<W>> {
    if fs == [] then [] else Flushed(fs[..|fs| - 1]) + fs[|fs| - 1].entries
  }

  function Trail<W>(c: Core<W>): seq<Promise<W>> {
    Flushed(c.flushes) + c.items
  }

  lemma StartFlushTrail<W>(c: Core<W>)
    ensures Trail(StartFlush(c)) == Trail(c)
  {
  }

  lemma {:induction false} AddManyTrail<W>(k: Kind<W>, cap: nat, c: Core<W>, ps: seq<Promise<W>>)
    ensures Trail(AddMany(k, cap, c, ps)) == Trail(c) + ps
    decreases |ps|
  {
    if ps == [] {
      assert Trail(c) + ps == Trail(c);
    } else {
      var c' := AddOne(k, cap, c, ps[0]);
      AddOneTrail(k, cap, c, ps[0]);
      AddManyTrail(k, cap, c', ps[1..]);
      assert Trail(c) + [ps[0]] + ps[1..] == Trail(c) + ps;
    }
  }

  lemma AddOneTrail<W>(k: Kind<W>, cap: nat, c: Core<W>, p: Promise<W>)
    ensures Trail(AddOne(k, cap, c, p)) == Trail(c) + [p]
  {
    hide Flushed, StartFlush;
    StartFlushTrail(c);
    var c' := if Overflows(k, cap, c, p) then StartFlush(c) else c;
    assert Flushed(c'.flushes) + (c'.items + [p]) == Trail(c') + [p];
  }

  lemma {:induction false} FlushedIgnoresProgress<W>(fs: seq<Flush<W>>, i: nat, f: Flush<W>)
    requires i < |fs| && f.entries == fs[i].entries
    ensures Flushed(fs[i := f]) == Flushed(fs)
  {
    var n := |fs| - 1;
    if i < n {
      FlushedIgnoresProgress(fs[..n], i, f);
      assert fs[i := f][..n] == fs[..n][i := f];
    } else {
      assert fs[i := f][..n] == fs[..n];
    }
  }

  lemma {:induction false} AllChunksAppend<W>(k: Kind<W>, a: seq<Promise<W>>, b: seq<Promise<W>>)
    ensures AllChunks(k, a + b) == AllChunks(k, a) + AllChunks(k, b)
  {
    hide ChunksOf;
    if a == [] {
      assert a + b == b;
    } else {
      assert (a + b)[1..] == a[1..] + b;
      AllChunksAppend(k, a[1..], b);
    }
  }

  // ---- The invariant ----

  /** A completion is called once its chunks are all reported, and not before. */
  ghost predicate FanOK<W>(w: World<W>, o: nat) {
    if o in w.fans then
      && w.fans[o].parts > 0
      && Left(w, o) + |w.fans[o].results| == w.fans[o].parts
      && Fires(w.fired, o) == (if Left(w, o) == 0 then 1 else 0)
    else Left(w, o) == 0 && Fires(w.fired, o) == 0
  }

  ghost predicate FlushOK<W>(f: Flush<W>) {
    f.reported <= |f.entries| && (f.result.None? ==> f.reported == 0)
  }

  /** A caller was completed with the fan-in of all its chunks' outcomes. */
  ghost predicate FiredOK<W>(cfg: Setup<W>, w: World<W>) {
    forall x :: x in w.fired ==>
      && x.0 in w.fans && w.fans[x.0].results != []
      && |w.fans[x.0].results| == w.fans[x.0].parts
      && x.1 == Choose(cfg.classify, w.fans[x.0].tp, w.fans[x.0].results)
  }

  /** Accepted items are never also rejected ones. */
  ghost predicate Apart<W>(w: World<W>) {
    forall p :: p in w.submitted ==> p.owner in w.fans && LeftIn(w.rejects, p.owner) == 0
  }

  ghost predicate Inv<W>(cfg: Setup<W>, w: World<W>) {
    && Consistent(cfg.kind, cfg.cap, w.core)
    && (w.core.records > 0 <==> w.core.timer)
    && Trail(w.core) == AllChunks(cfg.kind, w.submitted)
    && (forall f :: f in w.core.flushes ==> FlushOK(f))
    && (forall f :: f in w.rejects ==> FlushOK(f))
    && (forall o :: FanOK(w, o))
    && FiredOK(cfg, w)
    && Apart(w)
  }

  lemma {:induction false} InitialInv<W>(cfg: Setup<W>)
    ensures Inv(cfg, InitialWorld<W>())
  {
  }

  /** Steps that only move entries leave every completion where it was. */
  lemma MovesKeepFans<W>(cfg: Setup<W>, w: World<W>, core: Core<W>)
    requires Inv(cfg, w) && (forall o :: CoreLeft(core, o) == CoreLeft(w.core, o))
    ensures var w' := w.(core := core);
            (forall o :: FanOK(w', o)) && FiredOK(cfg, w') && Apart(w')
  {
    hide CoreLeft, Fires, LeftIn;
    var w' := w.(core := core);
    forall o
      ensures FanOK(w', o)
    {
      assert FanOK(w, o);
    }
  }

  lemma FlushKeepsInv<W>(cfg: Setup<W>, w: World<W>, closing: bool)
    requires Inv(cfg, w)
    ensures Inv(cfg, w.(core := StartFlush(w.core.(closed := w.core.closed || closing))))
  {
    hide AllChunks, Choose, CoreLeft, Trail, FanOK, FiredOK, Apart;
    var c := w.core.(closed := w.core.closed || closing);
    FlushKeepsConsistent(cfg, w.core, closing);
    forall o
      ensures CoreLeft(StartFlush(c), o) == CoreLeft(w.core, o)
    {
      ClosingLeft(w.core, c.closed, o);
      StartFlushLeft(c, o);
    }
    MovesKeepFans(cfg, w, StartFlush(c));
    ClosingLeft(w.core, c.closed, 0);
    StartFlushTrail(c);
  }

  lemma ClosingLeft<W>(c: Core<W>, closed: bool, o: nat)
    ensures CoreLeft(c.(closed := closed), o) == CoreLeft(c, o)
    ensures Trail(c.(closed := closed)) == Trail(c)
  {
  }

  lemma FlushKeepsConsistent<W>(cfg: Setup<W>, c: Core<W>, closing: bool)
    requires Consistent(cfg.kind, cfg.cap, c)
    ensures c.records == 0 ==> c.items == []
    ensures Consistent(cfg.kind, cfg.cap, StartFlush(c.(closed := c.closed || closing)))
  {
    EmptyWhenNoRecords(cfg.kind, cfg.cap, c);
  }

  lemma ProducedKeepsInv<W>(cfg: Setup<W>, w: World<W>, i: nat, result: ProduceResult)
    requires Inv(cfg, w) && Enabled(cfg, w, Produced(i, result))
    ensures Inv(cfg, Step(cfg, w, Produced(i, result)))
  {
    hide AllChunks, TotalRecords, TotalWire;
    var f := w.core.flushes[i].(result := Some(result));
    var core := w.core.(flushes := w.core.flushes[i := f]);
    assert w.core.flushes[i] in w.core.flushes;
    forall o
      ensures CoreLeft(core, o) == CoreLeft(w.core, o)
    {
      LeftInUpdate(w.core.flushes, i, f, o);
    }
    MovesKeepFans(cfg, w, core);
    FlushedIgnoresProgress(w.core.flushes, i, f);
  }

  // ---- Reporting one entry ----

  lemma ReportTakesOne<W>(fs: seq<Flush<W>>, i: nat, o: nat)
    requires i < |fs| && fs[i].reported < |fs[i].entries|
    ensures LeftIn(OneMore(fs, i), o)
         == LeftIn(fs, o) - if fs[i].entries[fs[i].reported].owner == o then 1 else 0
  {
    var f := fs[i];
    LeftInUpdate(fs, i, f.(reported := f.reported + 1), o);
    assert f.entries[f.reported..][1..] == f.entries[f.reported + 1..];
  }

  /** w' is w with one chunk of owner fewer outstanding, before its completion is called. */
  ghost predicate TookOne<W>(w: World<W>, w': World<W>, owner: nat) {
    && w'.fans == w.fans && w'.fired == w.fired
    && (forall o :: Left(w', o) == Left(w, o) - if o == owner then 1 else 0)
  }

  lemma DeliverKeepsFans<W>(cfg: Setup<W>, w: World<W>, w': World<W>, owner: nat, result: ProduceResult)
    requires (forall o :: FanOK(w, o)) && FiredOK(cfg, w)
    requires owner in w.fans && TookOne(w, w', owner)
    ensures var w'' := Deliver(cfg, w', owner, result);
            (forall o :: FanOK(w'', o)) && FiredOK(cfg, w'')
  {
    hide CoreLeft, Fires, LeftIn, Choose;
    var w'' := Deliver(cfg, w', owner, result);
    var f := w.fans[owner];
    assert FanOK(w, owner);
    assert Left(w', owner) == Left(w, owner) - 1;
    forall o
      ensures FanOK(w'', o)
    {
      assert FanOK(w, o) && Left(w'', o) == Left(w', o);
      FiresSnoc(w.fired, (owner, Choose(cfg.classify, f.tp, f.results + [result])), o);
    }
    forall x | x in w''.fired
      ensures x.0 in w''.fans && w''.fans[x.0].results != []
      ensures |w''.fans[x.0].results| == w''.fans[x.0].parts
      ensures x.1 == Choose(cfg.classify, w''.fans[x.0].tp, w''.fans[x.0].results)
    {
      if x in w.fired {
        assert x.0 != owner;
      }
    }
  }

  lemma ReportKeepsInv<W>(cfg: Setup<W>, w: World<W>, i: nat)
    requires Inv(cfg, w) && Enabled(cfg, w, Report(i))
    ensures Inv(cfg, Step(cfg, w, Report(i)))
  {
    hide AllChunks, TotalRecords, TotalWire, Choose, Count, LeftIn;
    var fs := w.core.flushes;
    var f := fs[i];
    assert f in fs;
    var w' := w.(core := w.core.(flushes := OneMore(fs, i)));
    forall o
      ensures Left(w', o) == Left(w, o) - if o == f.entries[f.reported].owner then 1 else 0
    {
      ReportTakesOne(fs, i, o);
    }
    DeliverKeepsFans(cfg, w, w', f.entries[f.reported].owner, f.result.value);
    FlushedIgnoresProgress(fs, i, f.(reported := f.reported + 1));
  }

  lemma ReportRejectKeepsInv<W>(cfg: Setup<W>, w: World<W>, i: nat)
    requires Inv(cfg, w) && Enabled(cfg, w, ReportReject(i))
    ensures Inv(cfg, Step(cfg, w, ReportReject(i)))
  {
    hide AllChunks, TotalRecords, TotalWire, Choose, Count, LeftIn;
    var fs := w.rejects;
    var f := fs[i];
    assert f in fs;
    var w' := w.(rejects := OneMore(fs, i));
    forall o
      ensures LeftIn(w'.rejects, o) == LeftIn(w.rejects, o) - if o == f.entries[f.reported].owner then 1 else 0
    {
      ReportTakesOne(fs, i, o);
    }
    DeliverKeepsFans(cfg, w, w', f.entries[f.reported].owner, f.result.value);
  }

  // ---- Submitting items ----

  lemma {:induction false} SameOwner<W>(ps: seq<Promise<W>>, owner: nat, o: nat)
    requires forall p :: p in ps ==> p.owner == owner
    ensures Count(ps, o) == if o == owner then |ps| else 0
  {
    if ps != [] {
      assert ps[0] in ps;
      SameOwner(ps[1..], owner, o);
    }
  }

  predicate HasOwner<W>(items: seq<Promise<W>>, o: nat) {
    exists i :: 0 <= i < |items| && items[i].owner == o
  }

  /** Each submitted caller waits for exactly its own chunks. */
  lemma {:induction false} FansCountChunks<W>(k: Kind<W>, fans: map<nat, Fan>, items: seq<Promise<W>>, o: nat)
    requires forall i, j :: 0 <= i < j < |items| ==> items[i].owner != items[j].owner
    ensures !HasOwner(items, o) ==>
              Count(AllChunks(k, items), o) == 0 && (o in AddFans(k, fans, items) <==> o in fans)
    ensures !HasOwner(items, o) && o in fans ==> AddFans(k, fans, items)[o] == fans[o]
    ensures HasOwner(items, o) ==>
              && o in AddFans(k, fans, items)
              && AddFans(k, fans, items)[o].results == []
              && AddFans(k, fans, items)[o].parts == Count(AllChunks(k, items), o) > 0
    decreases |items|
  {
    if items != [] {
      var p := items[0];
      var fans' := fans[p.owner := Fan(k.tp(p.item), |ChunksOf(k, p)|, [])];
      FansCountChunks(k, fans', items[1..], o);
      CountAppend(ChunksOf(k, p), AllChunks(k, items[1..]), o);
      SameOwner(ChunksOf(k, p), p.owner, o);
      OwnerOfCons(items, o);
    }
  }

  lemma OwnerOfCons<W>(items: seq<Promise<W>>, o: nat)
    requires items != []
    requires forall i, j :: 0 <= i < j < |items| ==> items[i].owner != items[j].owner
    ensures HasOwner(items, o) <==> items[0].owner == o || HasOwner(items[1..], o)
    ensures items[0].owner == o ==> !HasOwner(items[1..], o)
  {
  }

  /** w' has the submitted items' chunks outstanding, and their completions registered. */
  lemma SubmitKeepsFans<W>(cfg: Setup<W>, w: World<W>, w': World<W>, items: seq<Promise<W>>)
    requires (forall o :: FanOK(w, o)) && FiredOK(cfg, w) && Enabled(cfg, w, SubmitItems(items))
    requires w'.fans == AddFans(cfg.kind, w.fans, items) && w'.fired == w.fired
    requires forall o :: Left(w', o) == Left(w, o) + Count(AllChunks(cfg.kind, items), o)
    ensures (forall o :: FanOK(w', o)) && FiredOK(cfg, w')
  {
    hide CoreLeft, Fires, LeftIn, Choose, Count, AllChunks, AddFans;
    forall o
      ensures FanOK(w', o)
    {
      assert FanOK(w, o);
      FansCountChunks(cfg.kind, w.fans, items, o);
      if HasOwner(items, o) {
        FreshOwner(cfg, w, items, o);
      }
    }
    forall x | x in w'.fired
      ensures x.0 in w'.fans && w'.fans[x.0] == w.fans[x.0]
    {
      FansCountChunks(cfg.kind, w.fans, items, x.0);
      if HasOwner(items, x.0) {
        FreshOwner(cfg, w, items, x.0);
      }
    }
  }

  lemma FreshOwner<W>(cfg: Setup<W>, w: World<W>, items: seq<Promise<W>>, o: nat)
    requires Enabled(cfg, w, SubmitItems(items)) && HasOwner(items, o)
    ensures o !in w.fans
  {
  }

  lemma {:induction false} TimerHasRecords<W>(k: Kind<W>, cap: nat, c: Core<W>, ps: seq<Promise<W>>)
    requires (c.timer ==> c.records > 0) && forall p :: p in ps ==> k.count(p.item) > 0
    ensures AddMany(k, cap, c, ps).timer ==> AddMany(k, cap, c, ps).records > 0
    decreases |ps|
  {
    if ps != [] {
      TimerHasRecords(k, cap, AddOne(k, cap, c, ps[0]), ps[1..]);
    }
  }

  lemma AcceptKeepsInv<W>(cfg: Setup<W>, w: World<W>, items: seq<Promise<W>>)
    requires Inv(cfg, w) && Enabled(cfg, w, SubmitItems(items))
    requires !w.core.closed && TotalRecords(cfg.kind, items) > 0
    ensures Inv(cfg, Step(cfg, w, SubmitItems(items)))
  {
    hide AllChunks, TotalRecords, TotalWire, Choose, Count, LeftIn, AddFans, AddMany;
    var ps := AllChunks(cfg.kind, items);
    var added := AddMany(cfg.kind, cfg.cap, w.core, ps);
    var w' := Step(cfg, w, SubmitItems(items));
    assert w'.core == ArmTimer(added);
    AddManyKeeps(cfg.kind, cfg.cap, w.core, ps);
    TimerHasRecords(cfg.kind, cfg.cap, w.core, ps);
    forall o
      ensures Left(w', o) == Left(w, o) + Count(ps, o)
    {
      AddManyLeft(cfg.kind, cfg.cap, w.core, ps, o);
    }
    SubmitKeepsFans(cfg, w, w', items);
    AddManyTrail(cfg.kind, cfg.cap, w.core, ps);
    AllChunksAppend(cfg.kind, w.submitted, items);
    AddManyFlushes(cfg.kind, cfg.cap, w.core, ps);
    forall p | p in w'.submitted
      ensures p.owner in w'.fans && LeftIn(w'.rejects, p.owner) == 0
    {
      SubmittedStaysApart(cfg, w, items, p);
    }
  }

  lemma SubmittedStaysApart<W>(cfg: Setup<W>, w: World<W>, items: seq<Promise<W>>, p: Promise<W>)
    requires Apart(w) && (forall o :: FanOK(w, o)) && Enabled(cfg, w, SubmitItems(items)) && p in w.submitted + items
    ensures p.owner in AddFans(cfg.kind, w.fans, items)
    ensures LeftIn(w.rejects, p.owner) == 0
  {
    hide AllChunks, Count, LeftIn, AddFans, CoreLeft;
    FansCountChunks(cfg.kind, w.fans, items, p.owner);
    if p in items {
      var i :| 0 <= i < |items| && items[i] == p;
      assert HasOwner(items, p.owner);
      assert FanOK(w, p.owner);
    }
  }

  lemma {:induction false} AddManyFlushes<W>(k: Kind<W>, cap: nat, c: Core<W>, ps: seq<Promise<W>>)
    requires forall f :: f in c.flushes ==> FlushOK(f)
    ensures forall f :: f in AddMany(k, cap, c, ps).flushes ==> FlushOK(f)
    decreases |ps|
  {
    if ps != [] {
      AddManyFlushes(k, cap, AddOne(k, cap, c, ps[0]), ps[1..]);
    }
  }

  lemma RejectKeepsInv<W>(cfg: Setup<W>, w: World<W>, items: seq<Promise<W>>)
    requires Inv(cfg, w) && Enabled(cfg, w, SubmitItems(items))
    requires w.core.closed && TotalRecords(cfg.kind, items) > 0
    ensures Inv(cfg, Step(cfg, w, SubmitItems(items)))
  {
    hide AllChunks, TotalRecords, TotalWire, Choose, Count, LeftIn, AddFans, AddMany;
    var ps := AllChunks(cfg.kind, items);
    var w' := Step(cfg, w, SubmitItems(items));
    var f := Flush(ps, Some(CLOSED), 0);
    assert ps[0..] == ps;
    forall o
      ensures LeftIn(w'.rejects, o) == LeftIn(w.rejects, o) + Count(ps, o)
    {
      LeftInSnoc(w.rejects, f, o);
    }
    SubmitKeepsFans(cfg, w, w', items);
    forall p | p in w'.submitted
      ensures p.owner in w'.fans && LeftIn(w'.rejects, p.owner) == 0
    {
      FansCountChunks(cfg.kind, w.fans, items, p.owner);
      assert !HasOwner(items, p.owner);
    }
  }

  lemma StepKeepsInv<W>(cfg: Setup<W>, w: World<W>, e: Event<W>)
    requires Inv(cfg, w) && Enabled(cfg, w, e)
    ensures Inv(cfg, Step(cfg, w, e))
  {
    match e
    case SubmitItems(items) =>
      if TotalRecords(cfg.kind, items) > 0 {
        if w.core.closed {
          RejectKeepsInv(cfg, w, items);
        } else {
          AcceptKeepsInv(cfg, w, items);
        }
      }
    case Timer => FlushKeepsInv(cfg, w, false);
    case Produced(i, result) => ProducedKeepsInv(cfg, w, i, result);
    case Report(i) => ReportKeepsInv(cfg, w, i);
    case ReportReject(i) => ReportRejectKeepsInv(cfg, w, i);
    case Close => FlushKeepsInv(cfg, w, true);
  }

  lemma {:induction false} RunKeepsInv<W>(cfg: Setup<W>, w: World<W>, events: seq<Event<W>>, end: World<W>)
    requires Inv(cfg, w) && Run(cfg, w, events, end)
    ensures Inv(cfg, end)
    decreases |events|
  {
    hide Inv, Enabled, Step;
    if events != [] {
      StepKeepsInv(cfg, w, events[0]);
      RunKeepsInv(cfg, Step(cfg, w, events[0]), events[1..], end);
    }
  }

  // ---- Theorems over every run ----

  /** After any interleaving: a caller's completion has been called once if none of its chunks is
      outstanding and not at all otherwise, always with the fan-in of every chunk's outcome; the
      accepted chunks have left in arrival order, each in one flush or still pending; the size
      counters are exact; and a pending batch always has its timer. */
  lemma ExactlyOnce<W>(cfg: Setup<W>, events: seq<Event<W>>, end: World<W>)
    requires Run(cfg, InitialWorld<W>(), events, end)
    ensures forall o :: o in end.fans ==> Fires(end.fired, o) == if Left(end, o) == 0 then 1 else 0
    ensures FiredOK(cfg, end)
    ensures Flushed(end.core.flushes) + end.core.items == AllChunks(cfg.kind, end.submitted)
    ensures Consistent(cfg.kind, cfg.cap, end.core) && WithinCap(cfg.kind, cfg.cap, end.core)
    ensures end.core.items != [] <==> end.core.timer
  {
    InitialInv(cfg);
    RunKeepsInv(cfg, InitialWorld<W>(), events, end);
    PendingStaysWithinCap(cfg.kind, cfg.cap, end.core);
    EmptyWhenNoRecords(cfg.kind, cfg.cap, end.core);
    forall o | o in end.fans
      ensures Fires(end.fired, o) == if Left(end, o) == 0 then 1 else 0
    {
      assert FanOK(end, o);
    }
  }

  /** Close waits for this: every flush goroutine has called all of its completions. */
  ghost predicate FlushesFinished<W>(c: Core<W>) {
    forall f :: f in c.flushes ==> f.reported == |f.entries|
  }

  lemma {:induction false} NothingLeft<W>(fs: seq<Flush<W>>, o: nat)
    requires forall f :: f in fs ==> f.reported == |f.entries|
    ensures LeftIn(fs, o) == 0
  {
    if fs != [] {
      assert fs[0] in fs;
      assert Unreported(fs[0]) == [];
      NothingLeft(fs[1..], o);
    }
  }

  /** When the closing call returns, nothing is pending and every accepted caller has been
      completed exactly once. */
  lemma NothingOutstandingAfterClose<W>(cfg: Setup<W>, events: seq<Event<W>>, end: World<W>, p: Promise<W>)
    requires Run(cfg, InitialWorld<W>(), events, end)
    requires end.core.closed && FlushesFinished(end.core) && p in end.submitted
    ensures end.core.items == [] && Fires(end.fired, p.owner) == 1
  {
    InitialInv(cfg);
    RunKeepsInv(cfg, InitialWorld<W>(), events, end);
    NothingLeft(end.core.flushes, p.owner);
    assert FanOK(end, p.owner);
  }

  // ---- A group that rides together stays together ----

  ghost predicate Within<W>(ps: seq<Promise<W>>, group: seq<Promise<W>>) {
    exists n :: SitsAt(ps, n, group)
  }

  predicate SitsAt<W(==)>(ps: seq<Promise<W>>, n: int, group: seq<Promise<W>>) {
    0 <= n <= |ps| - |group| && ps[n..n + |group|] == group
  }

  /** The whole group is in one batch: the pending one, or that of a single flush. */
  ghost predicate InOneBatch<W>(c: Core<W>, group: seq<Promise<W>>) {
    Within(c.items, group) || exists i :: 0 <= i < |c.flushes| && Within(c.flushes[i].entries, group)
  }

  lemma WithinGrows<W>(ps: seq<Promise<W>>, p: Promise<W>, group: seq<Promise<W>>)
    requires Within(ps, group)
    ensures Within(ps + [p], group)
  {
    var n :| SitsAt(ps, n, group);
    assert (ps + [p])[n..n + |group|] == ps[n..n + |group|];
    assert SitsAt(ps + [p], n, group);
  }

  lemma StartFlushKeepsBatch<W>(c: Core<W>, group: seq<Promise<W>>)
    requires InOneBatch(c, group)
    ensures InOneBatch(StartFlush(c), group)
  {
    if c.records > 0 {
      var fs := c.flushes + [Flush(c.items, None, 0)];
      if Within(c.items, group) {
        assert fs[|c.flushes|].entries == c.items;
      } else {
        var i :| 0 <= i < |c.flushes| && Within(c.flushes[i].entries, group);
        assert fs[i] == c.flushes[i];
      }
    }
  }

  lemma {:induction false} AddManyKeepsBatch<W>(k: Kind<W>, cap: nat, c: Core<W>, ps: seq<Promise<W>>, group: seq<Promise<W>>)
    requires InOneBatch(c, group)
    ensures InOneBatch(AddMany(k, cap, c, ps), group)
    decreases |ps|
  {
    if ps != [] {
      AddOneKeepsBatch(k, cap, c, ps[0], group);
      AddManyKeepsBatch(k, cap, AddOne(k, cap, c, ps[0]), ps[1..], group);
    }
  }

  lemma AddOneKeepsBatch<W>(k: Kind<W>, cap: nat, c: Core<W>, p: Promise<W>, group: seq<Promise<W>>)
    requires InOneBatch(c, group)
    ensures InOneBatch(AddOne(k, cap, c, p), group)
  {
    hide Within, StartFlush;
    StartFlushKeepsBatch(c, group);
    var c' := if Overflows(k, cap, c, p) then StartFlush(c) else c;
    if Within(c'.items, group) {
      WithinGrows(c'.items, p, group);
    }
  }

  lemma StepKeepsBatch<W>(cfg: Setup<W>, w: World<W>, e: Event<W>, group: seq<Promise<W>>)
    requires Enabled(cfg, w, e) && InOneBatch(w.core, group)
    ensures InOneBatch(Step(cfg, w, e).core, group)
  {
    hide AddMany, AllChunks, Within, Choose;
    StartFlushKeepsBatch(w.core, group);
    match e
    case SubmitItems(items) => AddManyKeepsBatch(cfg.kind, cfg.cap, w.core, AllChunks(cfg.kind, items), group);
    case Produced(i, _) => ProgressKeepsBatch(w.core, i, Step(cfg, w, e).core.flushes[i], group);
    case Report(i) => ProgressKeepsBatch(w.core, i, Step(cfg, w, e).core.flushes[i], group);
    case Close => StartFlushKeepsBatch(w.core.(closed := true), group);
    case _ =>
  }

  lemma ProgressKeepsBatch<W>(c: Core<W>, i: nat, f: Flush<W>, group: seq<Promise<W>>)
    requires InOneBatch(c, group) && i < |c.flushes| && f.entries == c.flushes[i].entries
    ensures InOneBatch(c.(flushes := c.flushes[i := f]), group)
  {
    hide Within;
    var c' := c.(flushes := c.flushes[i := f]);
    if !Within(c.items, group) {
      var j :| 0 <= j < |c.flushes| && Within(c.flushes[j].entries, group);
      assert c'.flushes[j].entries == c.flushes[j].entries;
    }
  }

  lemma {:induction false} RunKeepsBatch<W>(cfg: Setup<W>, w: World<W>, events: seq<Event<W>>, end: World<W>, group: seq<Promise<W>>)
    requires InOneBatch(w.core, group) && Run(cfg, w, events, end)
    ensures InOneBatch(end.core, group)
    decreases |events|
  {
    hide InOneBatch, Enabled, Step;
    if events != [] {
      StepKeepsBatch(cfg, w, events[0], group);
      RunKeepsBatch(cfg, Step(cfg, w, events[0]), events[1..], end, group);
    }
  }

  /** What a hedge leg needs: when its items, none of which splits, fit together, then whatever
      happens later they are all in one batch, so one flush carries and reports the whole group. */
  lemma FittingGroupSharesOneFlush<W>(cfg: Setup<W>, before: World<W>, items: seq<Promise<W>>, events: seq<Event<W>>, end: World<W>)
    requires Inv(cfg, before) && !before.core.closed
    requires Enabled(cfg, before, SubmitItems(items)) && TotalRecords(cfg.kind, items) > 0
    requires AllChunks(cfg.kind, items) == items
    requires FitsTogether(cfg.kind, cfg.cap, before.core, items)
    requires Run(cfg, Step(cfg, before, SubmitItems(items)), events, end)
    ensures InOneBatch(end.core, items)
  {
    hide AddMany, AllChunks, TotalRecords, Run;
    RidesTogetherExactlyWhenItFits(cfg.kind, cfg.cap, before.core, items);
    var core := AddMany(cfg.kind, cfg.cap, before.core, items);
    assert SitsAt(core.items, |core.items| - |items|, items);
    assert InOneBatch(core, items);
    var w := Step(cfg, before, SubmitItems(items));
    assert w.core == ArmTimer(core);
    RunKeepsBatch(cfg, w, events, end, items);
  }
}
