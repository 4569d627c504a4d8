/** The time-limited cache of the cluster view, filled and purged by concurrent callers: every
    section under one of its locks, and every call of the inner tracker, is one step. */
module StatsCaches {
  import opened Basics
  import opened ClusterStatistics

  datatype Key = Key(slowMultiplier: real, faultyThreshold: real)

  /** version counts the inner purges that had happened when the view was computed. */
  datatype CacheEntry = CacheEntry(view: Option<Cluster>, computedAt: int, version: nat)

  /** Where a caller that missed is: it waits for the refresh lock, holds it, has checked
      again, has read the purge generation, has computed. */
  datatype Fill =
    | Missed(key: Key, now: int)
    | Locked(key: Key, now: int)
    | Rechecked(key: Key, now: int)
    | GenRead(key: Key, now: int, gen: nat)
    | Computed(key: Key, now: int, gen: nat, view: Option<Cluster>, version: nat)

  /** An answer given to a caller that read the clock at now: from the cache, or freshly computed. */
  datatype Answer = Hit(key: Key, now: int, view: Option<Cluster>) | Computation(key: Key, now: int, view: Option<Cluster>)

  /** purging maps a purging goroutine to the version its inner purge made; purged is the newest
      version whose purge has completed. */
  datatype State = State(
    ttl: int,
    cache: map<Key, CacheEntry>,
    gen: nat,
    refresher: Option<int>,
    fills: map<int, Fill>,
    version: nat,
    purging: map<int, nat>,
    purged: nat,
    answers: seq<Answer>)

  datatype Step =
    | Ask(t: int, key: Key, now: int)
    | Lock(t: int)
    | Recheck(t: int)
    | ReadGen(t: int)
    | Compute(t: int, view: Option<Cluster>)
    | Store(t: int)
    | PurgeInner(t: int)
    | PurgeClear(t: int)

  function Init(ttl: int): State {
    State(ttl, map[], 0, None, map[], 0, map[], 0, [])
  }

  /** A hit must be younger than the time limit, by the caller's own clock reading. */
  function Lookup(s: State, key: Key, now: int): Option<CacheEntry> {
    if key in s.cache && now - s.cache[key].computedAt < s.ttl then Some(s.cache[key]) else None
  }

  predicate Enabled(s: State, step: Step) {
    match step
    case Ask(t, _, _) => t !in s.fills
    case Lock(t) => t in s.fills && s.fills[t].Missed? && s.refresher.None?
    case Recheck(t) => t in s.fills && s.fills[t].Locked?
    case ReadGen(t) => t in s.fills && s.fills[t].Rechecked?
    case Compute(t, _) => t in s.fills && s.fills[t].GenRead?
    case Store(t) => t in s.fills && s.fills[t].Computed?
    case PurgeInner(t) => t !in s.purging
    case PurgeClear(t) => t in s.purging
  }

  function Next(s: State, step: Step): State
    requires Enabled(s, step)
  {
    match step
    case Ask(t, key, now) =>
      var hit := Lookup(s, key, now);
      if hit.Some? then s.(answers := s.answers + [Hit(key, now, hit.value.view)])
      else s.(fills := s.fills[t := Missed(key, now)])
    case Lock(t) => s.(refresher := Some(t), fills := s.fills[t := Locked(s.fills[t].key, s.fills[t].now)])
    case Recheck(t) =>
      var f := s.fills[t];
      var hit := Lookup(s, f.key, f.now);
      if hit.Some? then s.(answers := s.answers + [Hit(f.key, f.now, hit.value.view)], refresher := None, fills := s.fills - {t})
      else s.(fills := s.fills[t := Rechecked(f.key, f.now)])
    case ReadGen(t) => s.(fills := s.fills[t := GenRead(s.fills[t].key, s.fills[t].now, s.gen)])
    case Compute(t, view) =>
      var f := s.fills[t];
      s.(fills := s.fills[t := Computed(f.key, f.now, f.gen, view, s.version)])
    case Store(t) =>
      var f := s.fills[t];
      s.(cache := if s.gen == f.gen then s.cache[f.key := CacheEntry(f.view, f.now, f.version)] else s.cache,
         answers := s.answers + [Computation(f.key, f.now, f.view)],
         refresher := None,
         fills := s.fills - {t})
    case PurgeInner(t) => s.(version := s.version + 1, purging := s.purging[t := s.version + 1])
    case PurgeClear(t) =>
      s.(cache := map[], gen := s.gen + 1,
         purged := if s.purging[t] > s.purged then s.purging[t] else s.purged,
         purging := s.purging - {t})
  }

  ghost predicate Run(s: State, steps: seq<Step>, end: State)
    decreases |steps|
  {
    if steps == [] then s == end
    else Enabled(s, steps[0]) && Run(Next(s, steps[0]), steps[1..], end)
  }

  // ---- What every run keeps ----

  predicate HoldsLock(f: Fill) {
    !f.Missed?
  }

  /** A fill whose generation is still current can only have computed from a state at least as
      new as every completed purge. */
  ghost predicate FillOK(s: State, f: Fill) {
    && (f.GenRead? ==> f.gen <= s.gen)
    && (f.Computed? ==> f.gen <= s.gen && (f.gen == s.gen ==> f.version >= s.purged))
  }

  /** Answer i, if it is a hit, repeats the view of an earlier computation of the same key that is
      younger than the time limit by the two callers' own clock readings. */
  ghost predicate HitBacked(ttl: int, answers: seq<Answer>, i: int)
    requires 0 <= i < |answers|
  {
    answers[i].Hit? ==>
      exists j :: 0 <= j < i && answers[j].Computation? && answers[j].key == answers[i].key
        && answers[j].view == answers[i].view && answers[i].now - answers[j].now < ttl
  }

  ghost predicate HitsBacked(ttl: int, answers: seq<Answer>) {
    forall i :: 0 <= i < |answers| ==> HitBacked(ttl, answers, i)
  }

  lemma AnswersGrow(ttl: int, answers: seq<Answer>, a: Answer, t0: int)
    requires HitsBacked(ttl, answers)
    requires a.Hit? ==> Computation(a.key, t0, a.view) in answers && a.now - t0 < ttl
    ensures HitsBacked(ttl, answers + [a])
  {
    var all := answers + [a];
    forall i | 0 <= i < |all|
      ensures HitBacked(ttl, all, i)
    {
      if i < |answers| {
        assert HitBacked(ttl, answers, i);
        assert forall j :: 0 <= j < |answers| ==> all[j] == answers[j];
      } else if a.Hit? {
        var j :| 0 <= j < |answers| && answers[j] == Computation(a.key, t0, a.view);
        assert all[j] == answers[j];
      }
    }
  }

  ghost predicate CacheBacked(s: State) {
    forall k :: k in s.cache ==> Computation(k, s.cache[k].computedAt, s.cache[k].view) in s.answers
  }

  ghost predicate Inv(s: State) {
    && s.purged <= s.version
    && (forall k :: k in s.cache ==> s.cache[k].version >= s.purged)
    && (forall t :: t in s.fills ==> FillOK(s, s.fills[t]))
    && (forall t :: t in s.fills && HoldsLock(s.fills[t]) ==> s.refresher == Some(t))
    && (forall t :: t in s.purging ==> s.purging[t] <= s.version)
    && HitsBacked(s.ttl, s.answers)
    && CacheBacked(s)
  }

  lemma FillKeepsInv(s: State, step: Step)
    requires Inv(s) && Enabled(s, step) && (step.Lock? || step.ReadGen? || step.Compute? || step.Store?)
    ensures Inv(Next(s, step)) && Next(s, step).ttl == s.ttl
  {
    hide Lookup, HitsBacked;
    if step.Store? {
      var f := s.fills[step.t];
      AnswersGrow(s.ttl, s.answers, Computation(f.key, f.now, f.view), 0);
    }
  }

  lemma AskKeepsInv(s: State, step: Step)
    requires Inv(s) && Enabled(s, step) && (step.Ask? || step.Recheck?)
    ensures Inv(Next(s, step)) && Next(s, step).ttl == s.ttl
  {
    hide HitsBacked;
    var key, now := if step.Ask? then step.key else s.fills[step.t].key, if step.Ask? then step.now else s.fills[step.t].now;
    var hit := Lookup(s, key, now);
    if hit.Some? {
      AnswersGrow(s.ttl, s.answers, Hit(key, now, hit.value.view), hit.value.computedAt);
    }
  }

  lemma PurgeKeepsInv(s: State, step: Step)
    requires Inv(s) && Enabled(s, step) && (step.PurgeInner? || step.PurgeClear?)
    ensures Inv(Next(s, step)) && Next(s, step).ttl == s.ttl
  {
    hide Lookup, HitsBacked;
  }

  lemma StepKeepsInv(s: State, step: Step)
    requires Inv(s) && Enabled(s, step)
    ensures Inv(Next(s, step)) && Next(s, step).ttl == s.ttl
  {
    hide Inv, Enabled, Next;
    if step.PurgeInner? || step.PurgeClear? {
      PurgeKeepsInv(s, step);
    } else if step.Ask? || step.Recheck? {
      AskKeepsInv(s, step);
    } else {
      FillKeepsInv(s, step);
    }
  }

  lemma {:induction false} RunKeepsInv(s: State, steps: seq<Step>, end: State)
    requires Inv(s) && Run(s, steps, end)
    ensures Inv(end) && end.ttl == s.ttl
    decreases |steps|
  {
    hide Inv, Enabled, Next;
    if steps != [] {
      StepKeepsInv(s, steps[0]);
      RunKeepsInv(Next(s, steps[0]), steps[1..], end);
    }
  }

  /** In every interleaving of fills and purges: whatever is in the cache was computed from the
      tracker at or after every purge that has completed; every hit repeats an earlier computation
      of its key that is younger than the time limit; and at most one caller recomputes at a time. */
  lemma CacheNeverResurrects(ttl: int, steps: seq<Step>, end: State)
    requires Run(Init(ttl), steps, end)
    ensures forall k :: k in end.cache ==> end.cache[k].version >= end.purged
    ensures forall i :: 0 <= i < |end.answers| ==> HitBacked(ttl, end.answers, i)
    ensures forall t, u :: t in end.fills && u in end.fills && HoldsLock(end.fills[t]) && HoldsLock(end.fills[u]) ==> t == u
  {
    RunKeepsInv(Init(ttl), steps, end);
  }

  /** A caller that waited while another one filled the cache takes that result instead of
      recomputing, unless a purge came in between or the result is too old for it. */
  lemma WaitersShareTheFill(s: State, first: int, second: int)
    requires Inv(s) && Enabled(s, Store(first)) && s.fills[first].gen == s.gen
    requires second != first && second in s.fills && s.fills[second].Missed?
    requires s.fills[second].key == s.fills[first].key
    requires s.fills[second].now - s.fills[first].now < s.ttl
    ensures var s1 := Next(s, Store(first));
            && Enabled(s1, Lock(second))
            && Enabled(Next(s1, Lock(second)), Recheck(second))
            && Next(Next(s1, Lock(second)), Recheck(second)).answers
                 == s1.answers + [Hit(s.fills[second].key, s.fills[second].now, s.fills[first].view)]
  {
  }

  /** Without the generation check a purge could be undone: a view computed before the purge
      would be stored after it. */
  lemma StaleFillIsDropped(s: State, t: int)
    requires Inv(s) && Enabled(s, Store(t)) && s.fills[t].version < s.purged
    ensures Next(s, Store(t)).cache == s.cache
  {
  }

  // ---- The same, told by the steps of the run ----

  /** How many purges of the inner tracker are among the steps. */
  function Inners(steps: seq<Step>): nat {
    if steps == [] then 0
    else Inners(steps[..|steps| - 1]) + if steps[|steps| - 1].PurgeInner? then 1 else 0
  }

  lemma {:induction false} InnersGrow(steps: seq<Step>, m: nat, n: nat)
    requires m <= n <= |steps|
    ensures Inners(steps[..m]) <= Inners(steps[..n])
    decreases n
  {
    if m < n {
      InnersGrow(steps, m, n - 1);
      assert steps[..n][..n - 1] == steps[..n - 1];
    }
  }

  /** Step c computed this view, after that many purges of the inner tracker. */
  ghost predicate ComputedAt(past: seq<Step>, c: int, t: int, view: Option<Cluster>, version: nat) {
    0 <= c < |past| && past[c] == Compute(t, view) && version == Inners(past[..c])
  }

  /** Step a was t's purge of the inner tracker, the version-th. */
  ghost predicate PurgedAt(past: seq<Step>, a: int, t: int, version: nat) {
    0 <= a < |past| && past[a] == PurgeInner(t) && version == Inners(past[..a + 1])
  }

  /** The purge that began with step a completed with step b. */
  ghost predicate Completed(past: seq<Step>, a: int, b: int) {
    && 0 <= a < b < |past| && past[a].PurgeInner? && past[b] == PurgeClear(past[a].t)
    && forall x :: a < x < b ==> past[x] != PurgeClear(past[a].t)
  }

  ghost predicate FillTraced(past: seq<Step>, t: int, f: Fill) {
    && Ask(t, f.key, f.now) in past
    && (f.Computed? ==> exists c :: ComputedAt(past, c, t, f.view, f.version))
  }

  ghost predicate AnswerTraced(past: seq<Step>, a: Answer) {
    a.Computation? ==> exists t :: Ask(t, a.key, a.now) in past && Compute(t, a.view) in past
  }

  ghost predicate EntryTraced(past: seq<Step>, e: CacheEntry) {
    exists c, t :: ComputedAt(past, c, t, e.view, e.version)
  }

  /** An inner purge that its goroutine has not completed is the one on record for it. */
  ghost predicate PurgesTraced(past: seq<Step>, s: State) {
    && (forall t :: t in s.purging ==> exists a :: PurgedAt(past, a, t, s.purging[t]))
    && (forall a :: 0 <= a < |past| && past[a].PurgeInner? && Open(past, a) ==>
          past[a].t in s.purging && s.purging[past[a].t] == Inners(past[..a + 1]))
    && (forall a, b :: Completed(past, a, b) ==> Inners(past[..a + 1]) <= s.purged)
  }

  ghost predicate Open(past: seq<Step>, a: int)
    requires 0 <= a < |past| && past[a].PurgeInner?
  {
    forall x :: a < x < |past| ==> past[x] != PurgeClear(past[a].t)
  }

  ghost predicate Traced(past: seq<Step>, s: State) {
    && s.version == Inners(past)
    && (forall t :: t in s.fills ==> FillTraced(past, t, s.fills[t]))
    && (forall a :: a in s.answers ==> AnswerTraced(past, a))
    && (forall k :: k in s.cache ==> EntryTraced(past, s.cache[k]))
    && PurgesTraced(past, s)
  }

  lemma PrefixStays(past: seq<Step>, step: Step, c: nat)
    requires c <= |past|
    ensures (past + [step])[..c] == past[..c]
  {
  }

  lemma TracesStay(past: seq<Step>, step: Step)
    ensures forall c, t, view, version :: ComputedAt(past, c, t, view, version) ==> ComputedAt(past + [step], c, t, view, version)
    ensures forall a, t, version :: PurgedAt(past, a, t, version) ==> PurgedAt(past + [step], a, t, version)
    ensures forall x :: x in past ==> x in past + [step]
  {
    forall c, t, view, version | ComputedAt(past, c, t, view, version)
      ensures ComputedAt(past + [step], c, t, view, version)
    {
      PrefixStays(past, step, c);
    }
    forall a, t, version | PurgedAt(past, a, t, version)
      ensures PurgedAt(past + [step], a, t, version)
    {
      PrefixStays(past, step, a + 1);
    }
  }

  lemma FillsStayTraced(past: seq<Step>, step: Step, t: int, f: Fill)
    requires FillTraced(past, t, f)
    ensures FillTraced(past + [step], t, f)
  {
    TracesStay(past, step);
    if f.Computed? {
      var c :| ComputedAt(past, c, t, f.view, f.version);
      assert ComputedAt(past + [step], c, t, f.view, f.version);
    }
  }

  lemma AnswersStayTraced(past: seq<Step>, step: Step, a: Answer)
    requires AnswerTraced(past, a)
    ensures AnswerTraced(past + [step], a)
  {
    if a.Computation? {
      var t :| Ask(t, a.key, a.now) in past && Compute(t, a.view) in past;
      assert Ask(t, a.key, a.now) in past + [step] && Compute(t, a.view) in past + [step];
    }
  }

  lemma EntriesStayTraced(past: seq<Step>, step: Step, e: CacheEntry)
    requires EntryTraced(past, e)
    ensures EntryTraced(past + [step], e)
  {
    TracesStay(past, step);
    var c, t :| ComputedAt(past, c, t, e.view, e.version);
    assert ComputedAt(past + [step], c, t, e.view, e.version);
  }

  /** What the step itself adds. */
  lemma StepFill(past: seq<Step>, s: State, step: Step, t: int)
    requires Enabled(s, step) && Traced(past, s) && t in Next(s, step).fills
    ensures FillTraced(past + [step], t, Next(s, step).fills[t])
  {
    hide Lookup, Inners, PurgesTraced, AnswerTraced, EntryTraced;
    var past' := past + [step];
    assert past'[|past|] == step && step in past' && past'[..|past|] == past;
    if t in s.fills {
      FillsStayTraced(past, step, t, s.fills[t]);
    }
    if step.Compute? && step.t == t {
      assert ComputedAt(past', |past|, t, step.view, s.version);
    }
  }

  lemma StepAnswer(past: seq<Step>, s: State, step: Step, a: Answer)
    requires Enabled(s, step) && Traced(past, s) && a in Next(s, step).answers
    ensures AnswerTraced(past + [step], a)
  {
    hide Lookup, Inners, PurgesTraced, EntryTraced, AnswerTraced;
    if a in s.answers {
      AnswersStayTraced(past, step, a);
    } else {
      NewAnswer(past, s, step, a);
    }
  }

  lemma NewAnswer(past: seq<Step>, s: State, step: Step, a: Answer)
    requires Enabled(s, step) && Traced(past, s) && a in Next(s, step).answers && a !in s.answers
    ensures AnswerTraced(past + [step], a)
  {
    hide Inners, PurgesTraced, EntryTraced;
    if a.Computation? {
      var f := s.fills[step.t];
      assert FillTraced(past, step.t, f);
      var c :| ComputedAt(past, c, step.t, f.view, f.version);
      assert past[c] in past && past[c] in past + [step];
      assert Ask(step.t, f.key, f.now) in past + [step];
    }
  }

  lemma StepEntry(past: seq<Step>, s: State, step: Step, k: Key)
    requires Enabled(s, step) && Traced(past, s) && k in Next(s, step).cache
    ensures EntryTraced(past + [step], Next(s, step).cache[k])
  {
    hide Lookup, Inners, PurgesTraced, AnswerTraced;
    var e := Next(s, step).cache[k];
    if k in s.cache && e == s.cache[k] {
      EntriesStayTraced(past, step, e);
    } else {
      var f := s.fills[step.t];
      assert FillTraced(past, step.t, f);
      var c :| ComputedAt(past, c, step.t, f.view, f.version);
      assert EntryTraced(past, e);
      EntriesStayTraced(past, step, e);
    }
  }

  lemma StepPurges(past: seq<Step>, s: State, step: Step)
    requires Enabled(s, step) && Traced(past, s)
    ensures PurgesTraced(past + [step], Next(s, step))
  {
    hide Lookup, Inners, AnswerTraced, EntryTraced, FillTraced;
    var past', s', n := past + [step], Next(s, step), |past|;
    TracesStay(past, step);
    CountStep(past, step);
    assert past'[n] == step && forall a :: 0 <= a < n ==> past'[a] == past[a];
    forall a | 0 <= a < n && past[a].PurgeInner?
      ensures Inners(past'[..a + 1]) == Inners(past[..a + 1])
    {
      PrefixStays(past, step, a + 1);
    }
    assert past'[..n + 1] == past';
    forall t | t in s'.purging
      ensures exists a :: PurgedAt(past', a, t, s'.purging[t])
    {
      if step == PurgeInner(t) {
        assert PurgedAt(past', n, t, s'.purging[t]);
      } else {
        var a :| PurgedAt(past, a, t, s.purging[t]);
        assert PurgedAt(past', a, t, s'.purging[t]);
      }
    }
    forall a | 0 <= a < |past'| && past'[a].PurgeInner? && Open(past', a)
      ensures past'[a].t in s'.purging && s'.purging[past'[a].t] == Inners(past'[..a + 1])
    {
      if a < n {
        assert Open(past, a) by {
          forall x | a < x < n
            ensures past[x] != PurgeClear(past[a].t)
          {
            assert past'[x] == past[x];
          }
        }
        assert past'[n] != PurgeClear(past[a].t);
      }
    }
    forall a, b | Completed(past', a, b)
      ensures Inners(past'[..a + 1]) <= s'.purged
    {
      if b < n {
        assert Completed(past, a, b) by {
          forall x | a < x < b
            ensures past[x] != PurgeClear(past[a].t)
          {
            assert past'[x] == past[x];
          }
        }
      } else {
        assert Open(past, a) by {
          forall x | a < x < n
            ensures past[x] != PurgeClear(past[a].t)
          {
            assert past'[x] == past[x];
          }
        }
      }
    }
  }

  lemma CountStep(past: seq<Step>, step: Step)
    ensures Inners(past + [step]) == Inners(past) + if step.PurgeInner? then 1 else 0
  {
    assert (past + [step])[..|past|] == past;
  }

  lemma StepTraced(past: seq<Step>, s: State, step: Step)
    requires Enabled(s, step) && Traced(past, s)
    ensures Traced(past + [step], Next(s, step))
  {
    hide Lookup, Inners, FillTraced, AnswerTraced, EntryTraced, PurgesTraced;
    var past', s' := past + [step], Next(s, step);
    CountStep(past, step);
    forall t | t in s'.fills
      ensures FillTraced(past', t, s'.fills[t])
    {
      StepFill(past, s, step, t);
    }
    forall a | a in s'.answers
      ensures AnswerTraced(past', a)
    {
      StepAnswer(past, s, step, a);
    }
    forall k | k in s'.cache
      ensures EntryTraced(past', s'.cache[k])
    {
      StepEntry(past, s, step, k);
    }
    StepPurges(past, s, step);
  }

  lemma {:induction false} RunTraced(past: seq<Step>, s: State, steps: seq<Step>, end: State)
    requires Inv(s) && Traced(past, s) && Run(s, steps, end)
    ensures Traced(past + steps, end) && Inv(end)
    decreases |steps|
  {
    hide Inv, Traced, Enabled, Next;
    if steps == [] {
      assert past + steps == past;
    } else {
      StepKeepsInv(s, steps[0]);
      StepTraced(past, s, steps[0]);
      RunTraced(past + [steps[0]], Next(s, steps[0]), steps[1..], end);
      assert past + [steps[0]] + steps[1..] == past + steps;
    }
  }

  lemma ReachableIsTraced(ttl: int, steps: seq<Step>, end: State)
    requires Run(Init(ttl), steps, end)
    ensures Traced(steps, end) && Inv(end)
  {
    hide Run;
    RunTraced([], Init(ttl), steps, end);
    assert [] + steps == steps;
  }

  /** A computed answer is the view its own caller computed, for the key and clock it asked with. */
  lemma AnswersAreComputed(ttl: int, steps: seq<Step>, end: State, a: Answer)
    requires Run(Init(ttl), steps, end) && a in end.answers && a.Computation?
    ensures exists t :: Ask(t, a.key, a.now) in steps && Compute(t, a.view) in steps
  {
    hide Run, PurgesTraced, EntryTraced, FillTraced, Inv;
    ReachableIsTraced(ttl, steps, end);
    assert AnswerTraced(steps, a);
  }

  /** After a purge has completed, whatever is in the cache was computed after that purge reached
      the inner tracker. */
  lemma CachedViewsFollowThePurge(ttl: int, steps: seq<Step>, end: State, k: Key, a: nat, b: nat)
    requires Run(Init(ttl), steps, end) && k in end.cache && Completed(steps, a, b)
    ensures exists c, t :: a < c < |steps| && steps[c] == Compute(t, end.cache[k].view)
  {
    hide Run, Inners, AnswerTraced, FillTraced;
    ReachableIsTraced(ttl, steps, end);
    var e := end.cache[k];
    assert EntryTraced(steps, e);
    var c, t :| ComputedAt(steps, c, t, e.view, e.version);
    CountStep(steps[..a], steps[a]);
    assert steps[..a] + [steps[a]] == steps[..a + 1];
    if c <= a {
      InnersGrow(steps, c, a);
    }
    assert steps[c] == Compute(t, end.cache[k].view);
  }
}
