/** Outcomes of produce attempts, and the accumulator that merges the legs of a
    hedge cascade into one response. */
module ProduceResults {
  import opened Basics

  datatype Error =
    | Canceled
    | DeadlineExceeded
    | RecordTimeout
    | EmptyResult
    | IncompleteResponse
    | BufferClosed
    | DuplicatePartition
    | Misrouted
    | Kafka(code: int)
    | Transport(id: int)
    | Wrapped(outer: Error, inner: Error)

  const NO_ERROR: int := 0
  const REQUEST_TIMED_OUT: int := 7

  /** How an error is classified: whether another agent may be tried, and the
      Kafka code that stands for it, which is never zero. */
  datatype ErrorClass = ErrorClass(retriable: bool, code: int)

  type Classifier = c: Error -> ErrorClass | forall e :: c(e).code != NO_ERROR
    witness (e: Error) => ErrorClass(false, REQUEST_TIMED_OUT)

  datatype PartitionEntry = PartitionEntry(partition: int, code: int)
  datatype ResponseTopic = ResponseTopic(topic: string, partitions: seq<PartitionEntry>)
  type Response = seq<ResponseTopic>

  datatype ProduceResult = ProduceResult(resp: Option<Response>, err: Option<Error>)

  /** One partition's line of a response, whichever topic block it sits in. */
  datatype Entry = Entry(tp: TopicPartition, code: int)

  function EntryOf(topic: string, p: PartitionEntry): Entry {
    Entry(TopicPartition(topic, p.partition), p.code)
  }

  function TopicEntries(topic: string, ps: seq<PartitionEntry>): (es: seq<Entry>)
    ensures |es| == |ps|
    ensures forall j :: 0 <= j < |ps| ==> es[j] == EntryOf(topic, ps[j])
  {
    if ps == [] then [] else [EntryOf(topic, ps[0])] + TopicEntries(topic, ps[1..])
  }

  /** All lines of a response in wire order. */
  function Entries(resp: Response): seq<Entry> {
    if resp == [] then [] else TopicEntries(resp[0].topic, resp[0].partitions) + Entries(resp[1..])
  }

  lemma {:induction false} EntriesAppend(a: Response, b: Response)
    ensures Entries(a + b) == Entries(a) + Entries(b)
  {
    if a == [] {
      assert a + b == b;
    } else {
      assert (a + b)[1..] == a[1..] + b;
      EntriesAppend(a[1..], b);
    }
  }

  lemma EntriesSnoc(a: Response, t: ResponseTopic)
    ensures Entries(a + [t]) == Entries(a) + TopicEntries(t.topic, t.partitions)
  {
    EntriesAppend(a, [t]);
    assert [t][1..] == [];
  }

  // ---- Reading a result ----

  function FirstError(es: seq<Entry>): Option<Error> {
    if es == [] then None
    else if es[0].code != NO_ERROR then Some(Kafka(es[0].code))
    else FirstError(es[1..])
  }

  /** The error to surface for a result; None only for a fully successful one. */
  function ResultError(r: ProduceResult): Option<Error> {
    if r.err.Some? then r.err
    else if r.resp.None? then Some(EmptyResult)
    else FirstError(Entries(r.resp.value))
  }

  predicate Succeeded(r: ProduceResult) {
    ResultError(r).None?
  }

  /** The code of the first line about tp, if there is one. */
  function FirstCode(es: seq<Entry>, tp: TopicPartition): Option<int> {
    if es == [] then None
    else if es[0].tp == tp then Some(es[0].code)
    else FirstCode(es[1..], tp)
  }

  /** The error one partition's caller sees. */
  function RecordErr(c: Classifier, r: ProduceResult, tp: TopicPartition): Option<Error> {
    if r.resp.None? then r.err
    else match FirstCode(Entries(r.resp.value), tp)
      case None => None
      case Some(code) =>
        if code == NO_ERROR then None
        else if c(Kafka(code)).retriable then Some(Wrapped(RecordTimeout, Kafka(code)))
        else Some(Kafka(code))
  }

  lemma {:induction false} FirstCodeIsALine(es: seq<Entry>, tp: TopicPartition)
    ensures FirstCode(es, tp).Some? ==> Entry(tp, FirstCode(es, tp).value) in es
    ensures FirstCode(es, tp).None? ==> forall e :: e in es ==> e.tp != tp
  {
    if es != [] {
      FirstCodeIsALine(es[1..], tp);
    }
  }

  lemma {:induction false} NoErrorMeansAllZero(es: seq<Entry>)
    ensures FirstError(es).None? <==> forall e :: e in es ==> e.code == NO_ERROR
  {
    if es != [] {
      NoErrorMeansAllZero(es[1..]);
      assert es == [es[0]] + es[1..];
    }
  }

  /** A result is a success exactly when it has a response, no error, and only zero codes. */
  lemma SucceededExactly(r: ProduceResult)
    ensures Succeeded(r) <==> r.err.None? && r.resp.Some? && forall e :: e in Entries(r.resp.value) ==> e.code == NO_ERROR
  {
    if r.resp.Some? {
      NoErrorMeansAllZero(Entries(r.resp.value));
    }
  }

  // ---- Coverage of the primary response ----

  function FirstMissing(es: seq<Entry>, requested: seq<TopicPartition>): Option<TopicPartition> {
    if requested == [] then None
    else if FirstCode(es, requested[0]).None? then Some(requested[0])
    else FirstMissing(es, requested[1..])
  }

  /** A response that omits a requested partition counts as failed. */
  function CoverageChecked(r: ProduceResult, requested: seq<TopicPartition>): ProduceResult {
    if r.err.Some? then r
    else if FirstMissing(if r.resp.Some? then Entries(r.resp.value) else [], requested).Some?
    then r.(err := Some(IncompleteResponse))
    else r
  }

  lemma {:induction false} NothingMissing(es: seq<Entry>, requested: seq<TopicPartition>)
    ensures FirstMissing(es, requested).None? <==> forall tp :: tp in requested ==> FirstCode(es, tp).Some?
  {
    if requested != [] {
      NothingMissing(es, requested[1..]);
      assert requested[0] in requested;
      assert forall tp :: tp in requested[1..] ==> tp in requested;
    }
  }

  /** The check leaves a failed result and the response as they are, and adds an error exactly when
      a requested partition has no line. */
  lemma CoverageExactly(r: ProduceResult, requested: seq<TopicPartition>)
    ensures var checked := CoverageChecked(r, requested);
            && checked.resp == r.resp
            && (r.err.Some? ==> checked.err == r.err)
            && (r.err.None? ==>
                  (checked.err.None? <==> forall tp :: tp in requested ==> r.resp.Some? && FirstCode(Entries(r.resp.value), tp).Some?))
  {
    hide FirstMissing;
    NothingMissing(if r.resp.Some? then Entries(r.resp.value) else [], requested);
  }

  /** A caller whose result has a response is told its own partition's code and nothing else: no
      error for zero or when it has no line, the code itself otherwise, as a record timeout exactly
      when the code would allow another try. Without a response it is told the call's error. */
  lemma RecordErrExactly(c: Classifier, r: ProduceResult, tp: TopicPartition, code: int)
    ensures r.resp.None? ==> RecordErr(c, r, tp) == r.err
    ensures r.resp.Some? ==>
              (RecordErr(c, r, tp).None? <==> FirstCode(Entries(r.resp.value), tp) in [None, Some(NO_ERROR)])
    ensures r.resp.Some? && FirstCode(Entries(r.resp.value), tp) == Some(code) && code != NO_ERROR ==>
              && RecordErr(c, r, tp).value in [Kafka(code), Wrapped(RecordTimeout, Kafka(code))]
              && (RecordErr(c, r, tp).value.Wrapped? <==> c(Kafka(code)).retriable)
  {
  }

  // ---- One leg's view of a shared flush ----

  /** A flush result restricted to the partitions one leg sent. allOwned lets repeated
      ownership questions skip the lookup. */
  datatype Scoped = Scoped(raw: ProduceResult, own: set<TopicPartition>, err: Option<Error>, allOwned: bool) {
    predicate Owns(tp: TopicPartition) {
      allOwned || tp in own
    }
  }

  function FirstOwnedError(es: seq<Entry>, own: set<TopicPartition>): Option<Error> {
    if es == [] then None
    else if es[0].tp in own && es[0].code != NO_ERROR then Some(Kafka(es[0].code))
    else FirstOwnedError(es[1..], own)
  }

  predicate AllOwned(es: seq<Entry>, own: set<TopicPartition>) {
    forall e :: e in es ==> e.tp in own
  }

  function Scope(res: ProduceResult, own: set<TopicPartition>): Scoped {
    if res.resp.None? then
      Scoped(res, own, if res.err.Some? then res.err else Some(EmptyResult), false)
    else
      var es := Entries(res.resp.value);
      Scoped(res, own, if res.err.Some? then res.err else FirstOwnedError(es, own), AllOwned(es, own))
  }

  lemma {:induction false} FirstOwnedErrorSnoc(es: seq<Entry>, e: Entry, own: set<TopicPartition>)
    ensures FirstOwnedError(es + [e], own)
         == if FirstOwnedError(es, own).Some? then FirstOwnedError(es, own) else FirstOwnedError([e], own)
  {
    if es == [] {
      assert es + [e] == [e];
    } else {
      assert (es + [e])[1..] == es[1..] + [e];
      FirstOwnedErrorSnoc(es[1..], e, own);
    }
  }

  /** The two running flags of the scan, after the lines es. */
  function Scan(start: Option<Error>, es: seq<Entry>, own: set<TopicPartition>): (Option<Error>, bool) {
    (if start.Some? then start else FirstOwnedError(es, own), AllOwned(es, own))
  }

  lemma ScanSnoc(start: Option<Error>, es: seq<Entry>, e: Entry, own: set<TopicPartition>)
    ensures var (err, all) := Scan(start, es, own);
            Scan(start, es + [e], own)
              == if e.tp !in own then (err, false)
                 else if err.None? && e.code != NO_ERROR then (Some(Kafka(e.code)), all)
                 else (err, all)
  {
    FirstOwnedErrorSnoc(es, e, own);
    assert FirstOwnedError([e][1..], own) == None;
    assert e in es + [e];
    assert forall x :: x in es + [e] <==> x in es || x == e;
  }

  method ScanTopic(start: Option<Error>, ghost before: seq<Entry>, t: ResponseTopic, own: set<TopicPartition>,
                   flags: (Option<Error>, bool))
    returns (out: (Option<Error>, bool))
    requires flags == Scan(start, before, own)
    ensures out == Scan(start, before + TopicEntries(t.topic, t.partitions), own)
  {
    hide Scan, TopicEntries;
    out := flags;
    ghost var lines := TopicEntries(t.topic, t.partitions);
    assert before + lines[..0] == before;
    for j := 0 to |t.partitions|
      invariant out == Scan(start, before + lines[..j], own)
    {
      var e := EntryOf(t.topic, t.partitions[j]);
      ScanSnoc(start, before + lines[..j], e, own);
      assert before + lines[..j + 1] == before + lines[..j] + [e];
      if e.tp !in own {
        out := (out.0, false);
      } else if out.0.None? && e.code != NO_ERROR {
        out := (Some(Kafka(e.code)), out.1);
      }
    }
    assert lines[..|lines|] == lines;
  }

  /** The loop over topics and their partitions. */
  method ScopeToPartitions(res: ProduceResult, own: set<TopicPartition>) returns (s: Scoped)
    ensures s == Scope(res, own)
  {
    if res.resp.None? {
      return Scoped(res, own, if res.err.Some? then res.err else Some(EmptyResult), false);
    }
    var resp := res.resp.value;
    var flags := (res.err, true);
    for i := 0 to |resp|
      invariant flags == Scan(res.err, Entries(resp[..i]), own)
    {
      flags := ScanTopic(res.err, Entries(resp[..i]), resp[i], own, flags);
      EntriesSnoc(resp[..i], resp[i]);
      assert resp[..i + 1] == resp[..i] + [resp[i]];
    }
    assert resp[..|resp|] == resp;
    s := Scoped(res, own, flags.0, flags.1);
  }

  /** The shortcut answers like the lookup on every line of the response. */
  lemma OwnershipShortcut(res: ProduceResult, own: set<TopicPartition>, e: Entry)
    requires res.resp.Some? && e in Entries(res.resp.value)
    ensures Scope(res, own).Owns(e.tp) <==> e.tp in own
  {
  }

  lemma {:induction false} OwnedAllZero(es: seq<Entry>, own: set<TopicPartition>)
    ensures FirstOwnedError(es, own).None? <==> forall e :: e in es && e.tp in own ==> e.code == NO_ERROR
  {
    if es != [] {
      OwnedAllZero(es[1..], own);
      assert es == [es[0]] + es[1..];
    }
  }

  /** A leg has failed exactly when its flush did, came back empty, or reports a non-zero code for a
      partition the leg sent; lines of other legs never count against it. */
  lemma ScopeExactly(res: ProduceResult, own: set<TopicPartition>)
    ensures var s := Scope(res, own);
            && s.raw == res && s.own == own
            && (s.err.None? <==> res.err.None? && res.resp.Some? && forall e :: e in Entries(res.resp.value) && e.tp in own ==> e.code == NO_ERROR)
            && (res.err.Some? ==> s.err == res.err)
            && (res.err.None? && res.resp.None? ==> s.err == Some(EmptyResult))
            && (res.err.None? && res.resp.Some? && s.err.Some? ==>
                  exists e :: e in Entries(res.resp.value) && e.tp in own && e.code != NO_ERROR && s.err == Some(Kafka(e.code)))
  {
    if res.resp.Some? {
      OwnedAllZero(Entries(res.resp.value), own);
      OwnedErrorIsALine(Entries(res.resp.value), own);
    }
  }

  lemma {:induction false} OwnedErrorIsALine(es: seq<Entry>, own: set<TopicPartition>)
    ensures FirstOwnedError(es, own).Some? ==>
              exists e :: e in es && e.tp in own && e.code != NO_ERROR && FirstOwnedError(es, own) == Some(Kafka(e.code))
  {
    if es != [] {
      OwnedErrorIsALine(es[1..], own);
      assert es[0] in es;
    }
  }

  // ---- The accumulator as a value ----

  datatype Acc = Acc(
    pending: set<TopicPartition>,
    resolved: map<TopicPartition, int>,
    failed: map<TopicPartition, int>,
    lastErr: Option<Error>,
    aborted: bool)
  {
    function Keys(): set<TopicPartition> {
      pending + resolved.Keys
    }

    predicate Done() {
      pending == {} || aborted
    }
  }

  function InitialAcc(input: set<TopicPartition>): Acc {
    Acc(input, map[], map[], None, false)
  }

  function ResolveOne(a: Acc, e: Entry, s: Scoped): Acc {
    if s.Owns(e.tp) then
      a.(pending := a.pending - {e.tp}, resolved := a.resolved[e.tp := e.code], failed := a.failed - {e.tp})
    else a
  }

  function ResolveAll(a: Acc, es: seq<Entry>, s: Scoped): Acc
    decreases |es|
  {
    if es == [] then a else ResolveAll(ResolveOne(a, es[0], s), es[1..], s)
  }

  function RecordFailure(a: Acc, e: Entry, s: Scoped): Acc {
    if e.code != NO_ERROR && s.Owns(e.tp) && e.tp in a.pending then a.(failed := a.failed[e.tp := e.code]) else a
  }

  function RecordFailures(a: Acc, es: seq<Entry>, s: Scoped): Acc
    decreases |es|
  {
    if es == [] then a else RecordFailures(RecordFailure(a, es[0], s), es[1..], s)
  }

  function NoteError(c: Classifier, a: Acc, e: Error): Acc {
    a.(lastErr := Some(e), aborted := a.aborted || !c(e).retriable)
  }

  /** Folds one leg's outcome into the merged state. */
  function Accumulate(c: Classifier, a: Acc, s: Scoped): Acc
    requires s.err.None? ==> s.raw.resp.Some?
  {
    if s.err.Some? then
      var noted := NoteError(c, a, s.err.value);
      if s.raw.resp.Some? then RecordFailures(noted, Entries(s.raw.resp.value), s) else noted
    else ResolveAll(a, Entries(s.raw.resp.value), s)
  }

  /** What every sequence of legs keeps. */
  ghost predicate AccInv(a: Acc, input: set<TopicPartition>) {
    && a.pending !! a.resolved.Keys
    && a.Keys() == input
    && a.failed.Keys <= a.pending
    && (forall tp :: tp in a.resolved ==> a.resolved[tp] == NO_ERROR)
    && (forall tp :: tp in a.failed ==> a.failed[tp] != NO_ERROR)
    && (a.aborted ==> a.lastErr.Some?)
  }

  lemma {:induction false} RecordFailuresKeepsInv(a: Acc, es: seq<Entry>, s: Scoped, input: set<TopicPartition>)
    requires AccInv(a, input)
    ensures AccInv(RecordFailures(a, es, s), input)
    ensures RecordFailures(a, es, s).pending == a.pending
    ensures RecordFailures(a, es, s).resolved == a.resolved
    decreases |es|
  {
    if es != [] {
      RecordFailuresKeepsInv(RecordFailure(a, es[0], s), es[1..], s, input);
    }
  }

  /** Partitions named by es that s owns. */
  ghost function OwnedKeys(es: seq<Entry>, s: Scoped): set<TopicPartition> {
    set e | e in es && s.Owns(e.tp) :: e.tp
  }

  lemma {:induction false} ResolveAllKeepsInv(a: Acc, es: seq<Entry>, s: Scoped, input: set<TopicPartition>)
    requires AccInv(a, input)
    requires forall e :: e in es && s.Owns(e.tp) ==> e.tp in input && e.code == NO_ERROR
    ensures AccInv(ResolveAll(a, es, s), input)
    ensures ResolveAll(a, es, s).resolved.Keys == a.resolved.Keys + OwnedKeys(es, s)
    ensures ResolveAll(a, es, s).aborted == a.aborted
    decreases |es|
  {
    if es != [] {
      ResolveOneKeepsInv(a, es[0], s, input);
      ResolveAllKeepsInv(ResolveOne(a, es[0], s), es[1..], s, input);
      OwnedKeysStep(es, s);
    }
  }

  lemma ResolveOneKeepsInv(a: Acc, e: Entry, s: Scoped, input: set<TopicPartition>)
    requires AccInv(a, input)
    requires s.Owns(e.tp) ==> e.tp in input && e.code == NO_ERROR
    ensures AccInv(ResolveOne(a, e, s), input)
    ensures ResolveOne(a, e, s).resolved.Keys == a.resolved.Keys + if s.Owns(e.tp) then {e.tp} else {}
  {
  }

  lemma OwnedKeysStep(es: seq<Entry>, s: Scoped)
    requires es != []
    ensures OwnedKeys(es, s) == (if s.Owns(es[0].tp) then {es[0].tp} else {}) + OwnedKeys(es[1..], s)
  {
  }

  /** Partitions one leg's outcome resolves: all it owns and names, or none. */
  ghost function NewlyResolved(s: Scoped): set<TopicPartition> {
    if s.err.Some? || s.raw.resp.None? then {} else OwnedKeys(Entries(s.raw.resp.value), s)
  }

  /** The accumulator invariant holds after any leg, and a leg resolves exactly the
      owned partitions its response names when it is free of owned errors. */
  lemma AccumulateKeepsInv(c: Classifier, a: Acc, res: ProduceResult, own: set<TopicPartition>, input: set<TopicPartition>)
    requires AccInv(a, input) && own <= input
    ensures var s := Scope(res, own);
            var b := Accumulate(c, a, s);
            && AccInv(b, input)
            && b.resolved.Keys == a.resolved.Keys + NewlyResolved(s)
            && NewlyResolved(s) <= own
  {
    var s := Scope(res, own);
    if s.err.Some? {
      var noted := NoteError(c, a, s.err.value);
      if res.resp.Some? {
        RecordFailuresKeepsInv(noted, Entries(res.resp.value), s, input);
      }
    } else {
      var es := Entries(res.resp.value);
      OwnedAllZero(es, own);
      forall e | e in es && s.Owns(e.tp)
        ensures e.tp in own && e.code == NO_ERROR
      {
        OwnershipShortcut(res, own, e);
      }
      ResolveAllKeepsInv(a, es, s, input);
    }
  }

  // ---- The merged response ----

  function SyntheticCode(c: Classifier, a: Acc): int {
    if a.lastErr.Some? then c(a.lastErr.value).code else REQUEST_TIMED_OUT
  }

  /** The code a merged response reports for tp. */
  function CodeFor(c: Classifier, a: Acc, tp: TopicPartition): int {
    if tp in a.resolved then a.resolved[tp]
    else if tp in a.failed then a.failed[tp]
    else SyntheticCode(c, a)
  }

  ghost function LinesFor(c: Classifier, a: Acc, keys: set<TopicPartition>): set<Entry> {
    set tp | tp in keys :: Entry(tp, CodeFor(c, a, tp))
  }

  /** resp lists every input partition exactly once, in any order, one block per topic. */
  ghost predicate IsMerged(c: Classifier, a: Acc, resp: Response) {
    && multiset(Entries(resp)) == multiset(LinesFor(c, a, a.Keys()))
    && (forall i, j :: 0 <= i < j < |resp| ==> resp[i].topic != resp[j].topic)
  }

  /** Every input partition is found with the code chosen for it, which is zero exactly
      when the partition was resolved; no other partition is named. */
  lemma MergedLookup(c: Classifier, a: Acc, resp: Response, tp: TopicPartition)
    requires IsMerged(c, a, resp) && AccInv(a, a.Keys())
    ensures tp in a.Keys() ==> FirstCode(Entries(resp), tp) == Some(CodeFor(c, a, tp))
    ensures tp in a.Keys() ==> (CodeFor(c, a, tp) == NO_ERROR <==> tp in a.resolved)
    ensures tp !in a.Keys() ==> FirstCode(Entries(resp), tp) == None
  {
    var es := Entries(resp);
    FirstCodeIsALine(es, tp);
    assert forall e :: e in es <==> e in multiset(es);
    assert forall e :: e in es <==> e in LinesFor(c, a, a.Keys());
    if tp in a.Keys() {
      assert Entry(tp, CodeFor(c, a, tp)) in es;
    }
  }

  function ResultOf(a: Acc, resp: Response): ProduceResult {
    if a.pending == {} then ProduceResult(Some(resp), None)
    else if a.lastErr.Some? then ProduceResult(Some(resp), Some(Wrapped(RecordTimeout, a.lastErr.value)))
    else ProduceResult(Some(resp), Some(RecordTimeout))
  }

  /** Which outcome to surface once the primary and the cascade have both reported. */
  function Select(primary: ProduceResult, fallback: ProduceResult): ProduceResult {
    if Succeeded(primary) then primary
    else if fallback.err.None? then fallback
    else if primary.err.Some? then
      ProduceResult(fallback.resp, Some(Wrapped(primary.err.value, fallback.err.value)))
    else if fallback.resp.Some? then fallback
    else primary
  }

  /** The call succeeds exactly when one of the two did, and only an answer of one of them,
      unchanged but for its error, is ever surfaced. */
  lemma SelectSucceedsExactly(primary: ProduceResult, fallback: ProduceResult)
    ensures Succeeded(Select(primary, fallback)) <==> Succeeded(primary) || Succeeded(fallback)
    ensures Select(primary, fallback).resp in [primary.resp, fallback.resp]
    ensures !Succeeded(primary) && fallback.resp.Some? ==> Select(primary, fallback).resp == fallback.resp
    ensures Succeeded(primary) ==> Select(primary, fallback) == primary
    ensures !Succeeded(primary) && fallback.err.None? ==> Select(primary, fallback) == fallback
    ensures !Succeeded(primary) && primary.err.Some? && fallback.err.Some? ==>
              Select(primary, fallback).err == Some(Wrapped(primary.err.value, fallback.err.value))
  {
  }
}
