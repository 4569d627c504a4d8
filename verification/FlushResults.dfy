/** Where a caller's outcome comes from: which flush carried each of its chunks, and that the
    caller heard exactly what those flushes were answered. */
module FlushResults {
  import opened Basics
  import opened ProduceResults
  import opened RoutedBatches
  import opened AgentBuffers
  import opened AgentBufferRuns

  /** Flush i was answered with r and holds an entry of caller o. */
  ghost predicate Answered<W>(w: World<W>, i: int, o: nat, r: ProduceResult) {
    && 0 <= i < |w.core.flushes| && w.core.flushes[i].result == Some(r)
    && exists p :: p in w.core.flushes[i].entries && p.owner == o
  }

  /** The caller of entry k of flush i has received that flush's answer. */
  ghost predicate Heard<W>(w: World<W>, i: int, k: int)
    requires 0 <= i < |w.core.flushes| && 0 <= k < |w.core.flushes[i].entries|
  {
    var f := w.core.flushes[i];
    f.result.Some? && f.entries[k].owner in w.fans && f.result.value in w.fans[f.entries[k].owner].results
  }

  ghost predicate AnswersSourced<W>(w: World<W>) {
    forall o, r :: o in w.fans && r in w.fans[o].results ==> r == CLOSED || exists i :: Answered(w, i, o, r)
  }

  ghost predicate ReportsHeard<W>(w: World<W>) {
    forall i, k :: 0 <= i < |w.core.flushes| && 0 <= k < |w.core.flushes[i].entries| && k < w.core.flushes[i].reported ==>
      Heard(w, i, k)
  }

  ghost predicate RejectsClosed<W>(w: World<W>) {
    forall f :: f in w.rejects ==> f.result == Some(CLOSED)
  }

  /** Callers are told apart, and a completion is asked about its own partition. */
  ghost predicate CallersApart<W>(cfg: Setup<W>, w: World<W>) {
    && (forall i, j :: 0 <= i < j < |w.submitted| ==> w.submitted[i].owner != w.submitted[j].owner)
    && (forall p :: p in w.submitted ==> p.owner in w.fans && w.fans[p.owner].tp == cfg.kind.tp(p.item))
  }

  ghost predicate Sourced<W>(cfg: Setup<W>, w: World<W>) {
    AnswersSourced(w) && ReportsHeard(w) && RejectsClosed(w) && CallersApart(cfg, w)
  }

  // ---- New flushes join at the end, unanswered ----

  ghost predicate Extends<W>(a: seq<Flush<W>>, b: seq<Flush<W>>) {
    |a| <= |b| && b[..|a|] == a && forall i :: |a| <= i < |b| ==> b[i].result.None? && b[i].reported == 0
  }

  lemma StartFlushExtends<W>(c: Core<W>)
    ensures Extends(c.flushes, StartFlush(c).flushes)
  {
  }

  lemma ExtendsTransitive<W>(a: seq<Flush<W>>, b: seq<Flush<W>>, c: seq<Flush<W>>)
    requires Extends(a, b) && Extends(b, c)
    ensures Extends(a, c)
  {
    assert c[..|a|] == c[..|b|][..|a|];
    assert forall i :: 0 <= i < |b| ==> c[..|b|][i] == c[i];
  }

  lemma {:induction false} AddManyExtends<W>(k: Kind<W>, cap: nat, c: Core<W>, ps: seq<Promise<W>>)
    ensures Extends(c.flushes, AddMany(k, cap, c, ps).flushes)
    decreases |ps|
  {
    hide Extends, StartFlush, Overflows;
    StartFlushExtends(c);
    ExtendsItself(c.flushes);
    if ps != [] {
      var c' := AddOne(k, cap, c, ps[0]);
      AddManyExtends(k, cap, c', ps[1..]);
      ExtendsTransitive(c.flushes, c'.flushes, AddMany(k, cap, c', ps[1..]).flushes);
    }
  }

  lemma ExtendsItself<W>(a: seq<Flush<W>>)
    ensures Extends(a, a)
  {
  }

  /** Appending unanswered flushes and fresh callers disturbs nothing. */
  lemma GrowthKeepsAnswers<W>(w: World<W>, w': World<W>)
    requires AnswersSourced(w) && ReportsHeard(w) && Extends(w.core.flushes, w'.core.flushes)
    requires forall o :: o in w.fans ==> o in w'.fans && w'.fans[o] == w.fans[o]
    requires forall o :: o in w'.fans && o !in w.fans ==> w'.fans[o].results == []
    ensures AnswersSourced(w') && ReportsHeard(w')
  {
    var a, b := w.core.flushes, w'.core.flushes;
    assert forall i :: 0 <= i < |a| ==> b[i] == b[..|a|][i] == a[i];
    forall o, r | o in w'.fans && r in w'.fans[o].results
      ensures r == CLOSED || exists i :: Answered(w', i, o, r)
    {
      if r != CLOSED {
        var i :| Answered(w, i, o, r);
        assert Answered(w', i, o, r);
      }
    }
    forall i, k | 0 <= i < |b| && 0 <= k < |b[i].entries| && k < b[i].reported
      ensures Heard(w', i, k)
    {
      assert i < |a|;
      assert Heard(w, i, k);
    }
  }

  lemma ProducedKeepsAnswers<W>(w: World<W>, w': World<W>, i: nat, r: ProduceResult)
    requires AnswersSourced(w) && ReportsHeard(w) && i < |w.core.flushes|
    requires w.core.flushes[i].result.None? && w.core.flushes[i].reported == 0
    requires w' == w.(core := w.core.(flushes := w.core.flushes[i := w.core.flushes[i].(result := Some(r))]))
    ensures AnswersSourced(w') && ReportsHeard(w')
  {
    forall o, x | o in w'.fans && x in w'.fans[o].results
      ensures x == CLOSED || exists j :: Answered(w', j, o, x)
    {
      if x != CLOSED {
        var j :| Answered(w, j, o, x);
        assert Answered(w', j, o, x);
      }
    }
    forall j, k | 0 <= j < |w'.core.flushes| && 0 <= k < |w'.core.flushes[j].entries| && k < w'.core.flushes[j].reported
      ensures Heard(w', j, k)
    {
      assert Heard(w, j, k);
    }
  }

  /** One caller receives one more result. */
  ghost predicate Received<W>(w: World<W>, w': World<W>, owner: nat, r: ProduceResult) {
    && owner in w.fans && w'.fans.Keys == w.fans.Keys
    && w'.fans[owner].results == w.fans[owner].results + [r]
    && (forall o :: o in w.fans ==> w'.fans[o].tp == w.fans[o].tp)
    && (forall o :: o in w.fans && o != owner ==> w'.fans[o] == w.fans[o])
  }

  lemma DeliverReceives<W>(cfg: Setup<W>, w: World<W>, owner: nat, r: ProduceResult)
    requires owner in w.fans
    ensures Received(w, Deliver(cfg, w, owner, r), owner, r)
    ensures var w' := Deliver(cfg, w, owner, r); w'.core == w.core && w'.rejects == w.rejects && w'.submitted == w.submitted
  {
    hide Choose;
  }

  lemma ReportKeepsAnswers<W>(w: World<W>, w': World<W>, i: nat)
    requires AnswersSourced(w) && ReportsHeard(w) && i < |w.core.flushes| && Reportable(w, w.core.flushes[i])
    requires w'.core.flushes == OneMore(w.core.flushes, i)
    requires Received(w, w', w.core.flushes[i].entries[w.core.flushes[i].reported].owner, w.core.flushes[i].result.value)
    ensures AnswersSourced(w') && ReportsHeard(w')
  {
    var f := w.core.flushes[i];
    var owner, r := f.entries[f.reported].owner, f.result.value;
    forall o, x | o in w'.fans && x in w'.fans[o].results
      ensures x == CLOSED || exists j :: Answered(w', j, o, x)
    {
      if o == owner && x == r {
        assert f.entries[f.reported] in f.entries;
        assert Answered(w', i, o, x);
      } else if x != CLOSED {
        assert x in w.fans[o].results;
        var j :| Answered(w, j, o, x);
        assert Answered(w', j, o, x);
      }
    }
    forall j, k | 0 <= j < |w'.core.flushes| && 0 <= k < |w'.core.flushes[j].entries| && k < w'.core.flushes[j].reported
      ensures Heard(w', j, k)
    {
      assert (j == i && k == f.reported) || Heard(w, j, k);
    }
  }

  lemma RejectKeepsAnswers<W>(w: World<W>, w': World<W>, owner: nat)
    requires AnswersSourced(w) && ReportsHeard(w) && w'.core == w.core && Received(w, w', owner, CLOSED)
    ensures AnswersSourced(w') && ReportsHeard(w')
  {
    forall o, x | o in w'.fans && x in w'.fans[o].results && x != CLOSED
      ensures exists j :: Answered(w', j, o, x)
    {
      assert x in w.fans[o].results;
      var j :| Answered(w, j, o, x);
      assert Answered(w', j, o, x);
    }
    forall j, k | 0 <= j < |w'.core.flushes| && 0 <= k < |w'.core.flushes[j].entries| && k < w'.core.flushes[j].reported
      ensures Heard(w', j, k)
    {
      assert Heard(w, j, k);
    }
  }

  // ---- Submissions ----

  lemma {:induction false} AddFansAdds<W>(k: Kind<W>, fans: map<nat, Fan>, items: seq<Promise<W>>)
    requires forall i, j :: 0 <= i < j < |items| ==> items[i].owner != items[j].owner
    requires forall p :: p in items ==> p.owner !in fans
    ensures forall o :: o in fans ==> o in AddFans(k, fans, items) && AddFans(k, fans, items)[o] == fans[o]
    ensures forall o :: o in AddFans(k, fans, items) && o !in fans ==> AddFans(k, fans, items)[o].results == []
    ensures forall p :: p in items ==> p.owner in AddFans(k, fans, items) && AddFans(k, fans, items)[p.owner].tp == k.tp(p.item)
    decreases |items|
  {
    hide ChunksOf;
    if items != [] {
      var p := items[0];
      var fans' := fans[p.owner := Fan(k.tp(p.item), |ChunksOf(k, p)|, [])];
      assert p in items;
      forall q | q in items[1..]
        ensures q.owner !in fans'
      {
        var j :| 0 <= j < |items| - 1 && items[1..][j] == q;
        assert items[j + 1] == q && items[0].owner != items[j + 1].owner;
      }
      AddFansAdds(k, fans', items[1..]);
      assert items == [p] + items[1..];
    }
  }

  lemma SubmissionKeepsApart<W>(cfg: Setup<W>, w: World<W>, w': World<W>, items: seq<Promise<W>>)
    requires CallersApart(cfg, w) && Enabled(cfg, w, SubmitItems(items))
    requires w'.fans == AddFans(cfg.kind, w.fans, items) && w'.submitted in [w.submitted, w.submitted + items]
    ensures CallersApart(cfg, w')
  {
    hide TotalRecords, AllChunks, AddFans;
    AddFansAdds(cfg.kind, w.fans, items);
    var n := |w.submitted|;
    forall i, j | 0 <= i < j < |w'.submitted|
      ensures w'.submitted[i].owner != w'.submitted[j].owner
    {
      if i < n <= j {
        assert w.submitted[i] in w.submitted && items[j - n] in items;
      }
    }
  }

  lemma SubmitKeepsSourced<W>(cfg: Setup<W>, w: World<W>, items: seq<Promise<W>>)
    requires Sourced(cfg, w) && Enabled(cfg, w, SubmitItems(items))
    ensures Sourced(cfg, Step(cfg, w, SubmitItems(items)))
  {
    hide TotalRecords, AllChunks, AddFans, AddMany, AnswersSourced, ReportsHeard, CallersApart, Extends;
    var w' := Step(cfg, w, SubmitItems(items));
    if TotalRecords(cfg.kind, items) > 0 {
      AddFansAdds(cfg.kind, w.fans, items);
      AddManyExtends(cfg.kind, cfg.cap, w.core, AllChunks(cfg.kind, items));
      ExtendsItself(w.core.flushes);
      GrowthKeepsAnswers(w, w');
      SubmissionKeepsApart(cfg, w, w', items);
    }
  }

  // ---- Every event ----

  lemma ProgressKeepsSourced<W>(cfg: Setup<W>, w: World<W>, e: Event<W>)
    requires Sourced(cfg, w) && Inv(cfg, w) && Enabled(cfg, w, e) && (e.Produced? || e.Report? || e.ReportReject?)
    ensures Sourced(cfg, Step(cfg, w, e))
  {
    hide AnswersSourced, ReportsHeard, Deliver, Consistent, FanOK, FiredOK, Apart, Trail, AllChunks;
    match e
    case Produced(i, r) =>
      assert w.core.flushes[i] in w.core.flushes;
      ProducedKeepsAnswers(w, Step(cfg, w, e), i, r);
    case Report(i) =>
      var f := w.core.flushes[i];
      var taken := w.(core := w.core.(flushes := OneMore(w.core.flushes, i)));
      DeliverReceives(cfg, taken, f.entries[f.reported].owner, f.result.value);
      ReportKeepsAnswers(w, Step(cfg, w, e), i);
    case ReportReject(i) =>
      var f := w.rejects[i];
      assert f in w.rejects;
      var taken := w.(rejects := OneMore(w.rejects, i));
      DeliverReceives(cfg, taken, f.entries[f.reported].owner, f.result.value);
      RejectKeepsAnswers(w, Step(cfg, w, e), f.entries[f.reported].owner);
  }

  lemma StepKeepsSourced<W>(cfg: Setup<W>, w: World<W>, e: Event<W>)
    requires Sourced(cfg, w) && Inv(cfg, w) && Enabled(cfg, w, e)
    ensures Sourced(cfg, Step(cfg, w, e))
  {
    hide Inv, AnswersSourced, ReportsHeard, CallersApart, Extends;
    match e
    case SubmitItems(items) => SubmitKeepsSourced(cfg, w, items);
    case Timer =>
      StartFlushExtends(w.core);
      GrowthKeepsAnswers(w, Step(cfg, w, e));
      SameCallers(cfg, w, Step(cfg, w, e));
    case Close =>
      StartFlushExtends(w.core.(closed := true));
      ExtendsItself(w.core.flushes);
      GrowthKeepsAnswers(w, Step(cfg, w, e));
      SameCallers(cfg, w, Step(cfg, w, e));
    case _ => ProgressKeepsSourced(cfg, w, e);
  }

  lemma SameCallers<W>(cfg: Setup<W>, w: World<W>, w': World<W>)
    requires CallersApart(cfg, w) && w'.fans == w.fans && w'.submitted == w.submitted
    ensures CallersApart(cfg, w')
  {
  }

  lemma {:induction false} RunKeepsSourced<W>(cfg: Setup<W>, w: World<W>, events: seq<Event<W>>, end: World<W>)
    requires Sourced(cfg, w) && Inv(cfg, w) && Run(cfg, w, events, end)
    ensures Sourced(cfg, end) && Inv(cfg, end)
    decreases |events|
  {
    hide Sourced, Inv, Enabled, Step;
    if events != [] {
      StepKeepsInv(cfg, w, events[0]);
      StepKeepsSourced(cfg, w, events[0]);
      RunKeepsSourced(cfg, Step(cfg, w, events[0]), events[1..], end);
    }
  }

  lemma InitiallySourced<W>(cfg: Setup<W>)
    ensures Sourced(cfg, InitialWorld<W>()) && Inv(cfg, InitialWorld<W>())
  {
    hide Inv;
    InitialInv(cfg);
  }

  lemma ReachableIsSourced<W>(cfg: Setup<W>, events: seq<Event<W>>, end: World<W>)
    requires Run(cfg, InitialWorld<W>(), events, end)
    ensures Sourced(cfg, end) && Inv(cfg, end)
  {
    hide Inv, Run, Sourced;
    InitiallySourced(cfg);
    RunKeepsSourced(cfg, InitialWorld<W>(), events, end);
  }

  // ---- A flush's answer is what was produced for it ----

  ghost predicate AnswersProduced<W>(past: seq<Event<W>>, w: World<W>) {
    forall i :: 0 <= i < |w.core.flushes| && w.core.flushes[i].result.Some? ==>
      Produced(i, w.core.flushes[i].result.value) in past
  }

  lemma ExtensionProduced<W>(past: seq<Event<W>>, e: Event<W>, a: World<W>, b: World<W>)
    requires AnswersProduced(past, a) && Extends(a.core.flushes, b.core.flushes)
    ensures AnswersProduced(past + [e], b)
  {
    var n := |a.core.flushes|;
    forall i | 0 <= i < |b.core.flushes| && b.core.flushes[i].result.Some?
      ensures Produced(i, b.core.flushes[i].result.value) in past + [e]
    {
      assert i < n;
      assert b.core.flushes[..n][i] == b.core.flushes[i];
    }
  }

  lemma StepProduced<W>(cfg: Setup<W>, past: seq<Event<W>>, w: World<W>, e: Event<W>)
    requires AnswersProduced(past, w) && Enabled(cfg, w, e)
    ensures AnswersProduced(past + [e], Step(cfg, w, e))
  {
    hide AllChunks, AddMany, TotalRecords, AddFans, Choose, Extends;
    match e
    case SubmitItems(items) =>
      AddManyExtends(cfg.kind, cfg.cap, w.core, AllChunks(cfg.kind, items));
      ExtendsItself(w.core.flushes);
      ExtensionProduced(past, e, w, Step(cfg, w, e));
    case Timer =>
      StartFlushExtends(w.core);
      ExtensionProduced(past, e, w, Step(cfg, w, e));
    case Close =>
      StartFlushExtends(w.core.(closed := true));
      ExtendsItself(w.core.flushes);
      ExtensionProduced(past, e, w, Step(cfg, w, e));
    case _ => assert e in past + [e];
  }

  /** In every run the answer a flush has is the one produced for that flush. */
  lemma {:induction false} AnswersAreProduced<W>(cfg: Setup<W>, past: seq<Event<W>>, w: World<W>, events: seq<Event<W>>, end: World<W>)
    requires AnswersProduced(past, w) && Run(cfg, w, events, end)
    ensures AnswersProduced(past + events, end)
    decreases |events|
  {
    hide AnswersProduced, Enabled, Step;
    if events == [] {
      assert past + events == past;
    } else {
      StepProduced(cfg, past, w, events[0]);
      AnswersAreProduced(cfg, past + [events[0]], Step(cfg, w, events[0]), events[1..], end);
      assert past + [events[0]] + events[1..] == past + events;
    }
  }

  // ---- A completed caller heard every one of its chunks' flushes ----

  lemma {:induction false} NoneCounted<W>(ps: seq<Promise<W>>, p: Promise<W>)
    requires p in ps
    ensures Count(ps, p.owner) > 0
  {
    if ps[0] != p {
      assert p in ps[1..];
      NoneCounted(ps[1..], p);
    }
  }

  lemma {:induction false} NoneLeftIn<W>(fs: seq<Flush<W>>, i: nat, o: nat)
    requires i < |fs|
    ensures LeftIn(fs, o) >= Count(Unreported(fs[i]), o)
  {
    if i > 0 {
      NoneLeftIn(fs[1..], i - 1, o);
    }
  }

  lemma {:induction false} FlushOf<W>(fs: seq<Flush<W>>, p: Promise<W>) returns (i: nat, k: nat)
    requires p in Flushed(fs)
    ensures i < |fs| && k < |fs[i].entries| && fs[i].entries[k] == p
  {
    var n := |fs| - 1;
    if p in fs[n].entries {
      i := n;
      k :| 0 <= k < |fs[n].entries| && fs[n].entries[k] == p;
    } else {
      i, k := FlushOf(fs[..n], p);
    }
  }

  lemma {:induction false} FiredOnce(fired: seq<(nat, ProduceResult)>, x: (nat, ProduceResult))
    requires x in fired
    ensures Fires(fired, x.0) > 0
  {
    if fired[0] != x {
      assert x in fired[1..];
      FiredOnce(fired[1..], x);
    }
  }

  lemma ChunkIsReported<W>(cfg: Setup<W>, w: World<W>, p: Promise<W>, res: ProduceResult) returns (i: nat, k: nat)
    requires Inv(cfg, w) && p in AllChunks(cfg.kind, w.submitted) && (p.owner, res) in w.fired
    ensures i < |w.core.flushes| && k < |w.core.flushes[i].entries| && k < w.core.flushes[i].reported
    ensures w.core.flushes[i].entries[k] == p
  {
    hide AllChunks, Consistent, FiredOK, Apart, Flushed, Fires, LeftIn;
    var o := p.owner;
    FiredOnce(w.fired, (o, res));
    assert FanOK(w, o);
    assert Left(w, o) == 0;
    if p in w.core.items {
      NoneCounted(w.core.items, p);
    }
    i, k := FlushOf(w.core.flushes, p);
    var f := w.core.flushes[i];
    assert f in w.core.flushes;
    NoneLeftIn(w.core.flushes, i, o);
    if k >= f.reported {
      assert Unreported(f)[k - f.reported] == p;
      NoneCounted(Unreported(f), p);
    }
  }

  /** In every reachable state: when a caller was completed without an error for its partition,
      every one of its chunks rode in a flush whose answer has no error for that partition. */
  lemma CompletedMeansEveryChunk<W>(cfg: Setup<W>, w: World<W>, caller: Promise<W>, chunk: Promise<W>, res: ProduceResult)
    returns (i: nat)
    requires Inv(cfg, w) && Sourced(cfg, w)
    requires caller in w.submitted && chunk in AllChunks(cfg.kind, w.submitted) && chunk.owner == caller.owner
    requires (caller.owner, res) in w.fired && RecordErr(cfg.classify, res, cfg.kind.tp(caller.item)).None?
    ensures i < |w.core.flushes| && chunk in w.core.flushes[i].entries && w.core.flushes[i].result.Some?
    ensures RecordErr(cfg.classify, w.core.flushes[i].result.value, cfg.kind.tp(caller.item)).None?
  {
    hide AllChunks, AnswersSourced, Consistent, FanOK, Apart, RecordErr, Choose;
    var k;
    i, k := ChunkIsReported(cfg, w, chunk, res);
    assert Heard(w, i, k);
    var results := w.fans[caller.owner].results;
    ChooseReportsAnyFailure(cfg.classify, cfg.kind.tp(caller.item), results);
    assert !Failed(cfg.classify, cfg.kind.tp(caller.item), res);
    assert !Failed(cfg.classify, cfg.kind.tp(caller.item), w.core.flushes[i].result.value);
  }
}
