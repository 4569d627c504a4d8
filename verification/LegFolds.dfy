/** What the accumulator has after any list of legs, said about the legs alone. */
module LegFolds {
  import opened Basics
  import opened ProduceResults

  /** Legs as the cascade collects them: flush results scoped to partitions of the call. */
  ghost predicate LegsOf(input: set<TopicPartition>, legs: seq<Scoped>) {
    forall leg :: leg in legs ==> leg == Scope(leg.raw, leg.own) && leg.own <= input
  }

  ghost function Fold(c: Classifier, input: set<TopicPartition>, legs: seq<Scoped>): Acc
    requires LegsOf(input, legs)
  {
    if legs == [] then InitialAcc(input)
    else
      var n := |legs| - 1;
      Accumulate(c, Fold(c, input, legs[..n]), legs[n])
  }

  // ---- The legs alone ----

  /** A leg error after which no other agent is tried. */
  predicate Fatal(c: Classifier, leg: Scoped) {
    leg.err.Some? && !c(leg.err.value).retriable
  }

  ghost predicate SomeFatal(c: Classifier, legs: seq<Scoped>) {
    exists leg :: leg in legs && Fatal(c, leg)
  }

  function LastError(legs: seq<Scoped>): Option<Error> {
    if legs == [] then None
    else if legs[|legs| - 1].err.Some? then legs[|legs| - 1].err
    else LastError(legs[..|legs| - 1])
  }

  /** The leg wrote tp: it is free of errors of its own and its response names tp for it. */
  ghost predicate Wrote(leg: Scoped, tp: TopicPartition) {
    leg.err.None? && tp in leg.own && leg.raw.resp.Some? && Entry(tp, NO_ERROR) in Entries(leg.raw.resp.value)
  }

  ghost predicate SomeWrote(legs: seq<Scoped>, tp: TopicPartition) {
    exists leg :: leg in legs && Wrote(leg, tp)
  }

  /** The last non-zero code the lines give for tp. */
  function LastCode(es: seq<Entry>, tp: TopicPartition): Option<int> {
    if es == [] then None
    else
      var later := LastCode(es[1..], tp);
      if later.Some? then later
      else if es[0].tp == tp && es[0].code != NO_ERROR then Some(es[0].code)
      else None
  }

  /** The code a leg reports against tp, if it failed and sent tp. */
  function CodeAgainst(leg: Scoped, tp: TopicPartition): Option<int> {
    if leg.err.Some? && leg.raw.resp.Some? && tp in leg.own then LastCode(Entries(leg.raw.resp.value), tp) else None
  }

  /** The latest code any leg reported against tp. */
  function LastFailure(legs: seq<Scoped>, tp: TopicPartition): Option<int> {
    if legs == [] then None
    else
      var code := CodeAgainst(legs[|legs| - 1], tp);
      if code.Some? then code else LastFailure(legs[..|legs| - 1], tp)
  }

  // ---- One leg ----

  lemma WroteIsResolved(leg: Scoped, tp: TopicPartition)
    requires leg == Scope(leg.raw, leg.own)
    ensures tp in NewlyResolved(leg) <==> Wrote(leg, tp)
  {
    if leg.err.None? {
      var es := Entries(leg.raw.resp.value);
      OwnedAllZero(es, leg.own);
      forall e | e in es
        ensures leg.Owns(e.tp) <==> e.tp in leg.own
      {
        OwnershipShortcut(leg.raw, leg.own, e);
      }
      if tp in NewlyResolved(leg) {
        var e :| e in es && leg.Owns(e.tp) && e.tp == tp;
        assert e == Entry(tp, NO_ERROR);
      }
      if Wrote(leg, tp) {
        assert leg.Owns(Entry(tp, NO_ERROR).tp);
      }
    }
  }

  lemma {:induction false} RecordFailuresExactly(a: Acc, es: seq<Entry>, s: Scoped, tp: TopicPartition)
    requires forall e :: e in es ==> (s.Owns(e.tp) <==> e.tp in s.own)
    ensures var b := RecordFailures(a, es, s);
            && b == a.(failed := b.failed)
            && (tp in a.pending && tp in s.own && LastCode(es, tp).Some? ==> tp in b.failed && b.failed[tp] == LastCode(es, tp).value)
            && (!(tp in a.pending && tp in s.own && LastCode(es, tp).Some?) ==>
                  (tp in b.failed <==> tp in a.failed) && (tp in a.failed ==> b.failed[tp] == a.failed[tp]))
    decreases |es|
  {
    if es != [] {
      assert es[0] in es;
      RecordFailuresExactly(RecordFailure(a, es[0], s), es[1..], s, tp);
    }
  }

  lemma {:induction false} ResolveAllExactly(a: Acc, es: seq<Entry>, s: Scoped)
    ensures var b := ResolveAll(a, es, s);
            && b.pending == a.pending - OwnedKeys(es, s)
            && b.failed == a.failed - OwnedKeys(es, s)
            && b.lastErr == a.lastErr && b.aborted == a.aborted
    decreases |es|
  {
    if es != [] {
      ResolveAllExactly(ResolveOne(a, es[0], s), es[1..], s);
      OwnedKeysStep(es, s);
    }
  }

  // ---- Any list of legs ----

  /** The accumulator's parts, each in terms of the legs. */
  ghost predicate Reflects(c: Classifier, input: set<TopicPartition>, legs: seq<Scoped>, a: Acc) {
    && AccInv(a, input)
    && (forall tp :: tp in a.resolved <==> SomeWrote(legs, tp))
    && (a.aborted <==> SomeFatal(c, legs))
    && a.lastErr == LastError(legs)
    && (forall tp :: tp in a.failed <==> tp in a.pending && LastFailure(legs, tp).Some?)
    && (forall tp :: tp in a.failed ==> a.failed[tp] == LastFailure(legs, tp).value)
  }

  lemma SnocLegs(c: Classifier, legs: seq<Scoped>, leg: Scoped, tp: TopicPartition)
    ensures SomeWrote(legs + [leg], tp) <==> SomeWrote(legs, tp) || Wrote(leg, tp)
    ensures SomeFatal(c, legs + [leg]) <==> SomeFatal(c, legs) || Fatal(c, leg)
    ensures LastError(legs + [leg]) == if leg.err.Some? then leg.err else LastError(legs)
    ensures LastFailure(legs + [leg], tp) == if CodeAgainst(leg, tp).Some? then CodeAgainst(leg, tp) else LastFailure(legs, tp)
  {
    hide Wrote, Fatal, CodeAgainst;
    var all := legs + [leg];
    assert all[..|legs|] == legs && all[|legs|] == leg;
    assert forall l :: l in all <==> l in legs || l == leg;
  }

  lemma FailingLegKeepsRest(c: Classifier, a: Acc, leg: Scoped)
    requires leg == Scope(leg.raw, leg.own) && leg.err.Some?
    ensures var b := Accumulate(c, a, leg); b == NoteError(c, a, leg.err.value).(failed := b.failed)
  {
    if leg.raw.resp.Some? {
      forall e | e in Entries(leg.raw.resp.value)
        ensures leg.Owns(e.tp) <==> e.tp in leg.own
      {
        OwnershipShortcut(leg.raw, leg.own, e);
      }
      RecordFailuresExactly(NoteError(c, a, leg.err.value), Entries(leg.raw.resp.value), leg, TopicPartition("", 0));
    }
  }

  lemma FailingLegReflects(c: Classifier, input: set<TopicPartition>, legs: seq<Scoped>, leg: Scoped, a: Acc)
    requires Reflects(c, input, legs, a) && leg == Scope(leg.raw, leg.own) && leg.own <= input && leg.err.Some?
    ensures Reflects(c, input, legs + [leg], Accumulate(c, a, leg))
  {
    hide SomeWrote, SomeFatal, LastError, LastFailure, LastCode;
    AccumulateKeepsInv(c, a, leg.raw, leg.own, input);
    var noted, b := NoteError(c, a, leg.err.value), Accumulate(c, a, leg);
    SnocLegs(c, legs, leg, TopicPartition("", 0));
    FailingLegKeepsRest(c, a, leg);
    forall tp
      ensures tp in b.resolved <==> SomeWrote(legs + [leg], tp)
      ensures tp in b.failed <==> tp in b.pending && LastFailure(legs + [leg], tp).Some?
      ensures tp in b.failed ==> b.failed[tp] == LastFailure(legs + [leg], tp).value
    {
      SnocLegs(c, legs, leg, tp);
      if leg.raw.resp.Some? {
        var es := Entries(leg.raw.resp.value);
        forall e | e in es
          ensures leg.Owns(e.tp) <==> e.tp in leg.own
        {
          OwnershipShortcut(leg.raw, leg.own, e);
        }
        RecordFailuresExactly(noted, es, leg, tp);
      }
    }
  }

  lemma WritingLegReflects(c: Classifier, input: set<TopicPartition>, legs: seq<Scoped>, leg: Scoped, a: Acc)
    requires Reflects(c, input, legs, a) && leg == Scope(leg.raw, leg.own) && leg.own <= input && leg.err.None?
    ensures Reflects(c, input, legs + [leg], Accumulate(c, a, leg))
  {
    hide SomeWrote, SomeFatal, LastError, LastFailure, LastCode, Wrote, ResolveAll, Scope;
    LegHasResponse(leg);
    AccumulateKeepsInv(c, a, leg.raw, leg.own, input);
    var b := Accumulate(c, a, leg);
    ResolveAllExactly(a, Entries(leg.raw.resp.value), leg);
    SnocLegs(c, legs, leg, TopicPartition("", 0));
    forall tp
      ensures tp in b.resolved <==> SomeWrote(legs + [leg], tp)
      ensures tp in b.failed <==> tp in b.pending && LastFailure(legs + [leg], tp).Some?
      ensures tp in b.failed ==> b.failed[tp] == LastFailure(legs + [leg], tp).value
    {
      SnocLegs(c, legs, leg, tp);
      WroteIsResolved(leg, tp);
    }
  }

  lemma LegHasResponse(leg: Scoped)
    requires leg == Scope(leg.raw, leg.own) && leg.err.None?
    ensures leg.raw.resp.Some?
  {
  }

  /** For every list of legs folded from the start: a partition is resolved exactly when some leg
      wrote it; the cascade is aborted exactly when some leg's error is not retriable; the last
      error is the last leg's that failed; and the code on record against a pending partition is
      the latest a failing leg that sent it reported. */
  lemma {:induction false} FoldReflects(c: Classifier, input: set<TopicPartition>, legs: seq<Scoped>)
    requires LegsOf(input, legs)
    ensures Reflects(c, input, legs, Fold(c, input, legs))
  {
    hide Reflects;
    if legs == [] {
      NoLegs(c, input);
    } else {
      var n := |legs| - 1;
      FoldReflects(c, input, legs[..n]);
      assert legs[n] in legs && legs[..n] + [legs[n]] == legs;
      if legs[n].err.Some? {
        FailingLegReflects(c, input, legs[..n], legs[n], Fold(c, input, legs[..n]));
      } else {
        WritingLegReflects(c, input, legs[..n], legs[n], Fold(c, input, legs[..n]));
      }
    }
  }

  lemma NoLegs(c: Classifier, input: set<TopicPartition>)
    ensures Reflects(c, input, [], InitialAcc(input))
  {
  }

  // ---- The merged response ----

  /** The code the caller reads for tp after these legs. */
  ghost function Verdict(c: Classifier, legs: seq<Scoped>, tp: TopicPartition): int {
    if SomeWrote(legs, tp) then NO_ERROR
    else if LastFailure(legs, tp).Some? then LastFailure(legs, tp).value
    else if LastError(legs).Some? then c(LastError(legs).value).code
    else REQUEST_TIMED_OUT
  }

  /** Every partition of the call reads its own verdict off the merged response, in whatever order
      the response lists them, and the result is an error exactly when some partition was not
      written: the last leg error within a record timeout. */
  lemma MergedVerdicts(c: Classifier, input: set<TopicPartition>, legs: seq<Scoped>, resp: Response, tp: TopicPartition)
    requires LegsOf(input, legs) && IsMerged(c, Fold(c, input, legs), resp)
    ensures tp in input ==> FirstCode(Entries(resp), tp) == Some(Verdict(c, legs, tp))
    ensures tp !in input ==> FirstCode(Entries(resp), tp) == None
    ensures var r := ResultOf(Fold(c, input, legs), resp);
            && r.resp == Some(resp)
            && (r.err.None? <==> forall p :: p in input ==> SomeWrote(legs, p))
            && (r.err.Some? ==> r.err.value == if LastError(legs).Some? then Wrapped(RecordTimeout, LastError(legs).value) else RecordTimeout)
  {
    hide IsMerged, SomeWrote, LastFailure, LastError, SomeFatal, Fold;
    FoldReflects(c, input, legs);
    var a := Fold(c, input, legs);
    MergedLookup(c, a, resp, tp);
    if a.pending != {} {
      var p :| p in a.pending;
      assert p in input && p !in a.resolved;
    }
  }

  /** When every partition was written, the merged result is a full success. */
  lemma AllWrittenSucceeds(c: Classifier, input: set<TopicPartition>, legs: seq<Scoped>, resp: Response)
    requires LegsOf(input, legs) && IsMerged(c, Fold(c, input, legs), resp)
    ensures Succeeded(ResultOf(Fold(c, input, legs), resp)) <==> forall p :: p in input ==> SomeWrote(legs, p)
  {
    hide SomeWrote, LastFailure, LastError, SomeFatal, Fold;
    FoldReflects(c, input, legs);
    var a := Fold(c, input, legs);
    if a.pending == {} {
      NoErrorMeansAllZero(Entries(resp));
      assert forall e :: e in Entries(resp) <==> e in multiset(Entries(resp));
      assert forall e :: e in Entries(resp) ==> e in LinesFor(c, a, a.Keys());
    } else {
      var p :| p in a.pending;
      assert p in input && p !in a.resolved;
    }
  }
}
