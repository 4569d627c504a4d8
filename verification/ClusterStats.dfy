/** The cluster-wide view over all agents' snapshots, and the health verdicts read from it. */
module ClusterStatistics {
  import opened Basics
  import opened StatsRings

  const MIN_FILLED_BUCKETS: nat := 2

  datatype AgentStats = AgentStats(latencyMs: int, errorRate: real, requests: nat)

  /** Latencies in milliseconds; fractions as reals. */
  datatype Cluster = Cluster(
    baselineMs: int,
    slowThresholdMs: int,
    slowFraction: real,
    slowContributors: nat,
    baselineErrorRate: real,
    faultyThreshold: real,
    avgRequests: int,
    faultyFraction: real,
    faultyContributors: nat)

  function Truncate(x: real): int {
    if x >= 0.0 then x.Floor else -((-x).Floor)
  }

  function Ceiling(x: real): int {
    -((-x).Floor)
  }

  /** An agent's own view, available once its requests spread over enough buckets. */
  function AgentStatsOf(s: Snapshot): Option<AgentStats> {
    if s.filled < MIN_FILLED_BUCKETS then None
    else Some(AgentStats(
                if s.okCount > 0 then TruncDiv(s.latencySum, s.okCount) else 0,
                if s.Total() > 0 then s.faulty as real / s.Total() as real else 0.0,
                s.Total()))
  }

  /** How many requests an agent needs before its error rate may be acted upon. */
  function ErrorRateMinRequests(faultyThreshold: real, avgRequests: int): (n: nat)
    ensures faultyThreshold > 0.0 ==> n >= 1
  {
    if faultyThreshold <= 0.0 then 0
    else
      var ceiling := Ceiling(1.0 / faultyThreshold);
      var base := if ceiling < 1 then 1 else ceiling;
      if avgRequests >= base then base
      else if base < MIN_FILLED_BUCKETS then base
      else MIN_FILLED_BUCKETS
  }

  // ---- What one agent contributes ----

  predicate Observed(s: Snapshot) {
    s.Total() > 0
  }

  predicate Qualified(s: Snapshot) {
    Observed(s) && s.filled >= MIN_FILLED_BUCKETS
  }

  predicate Measured(s: Snapshot) {
    Qualified(s) && s.okCount > 0
  }

  function ObservedOne(s: Snapshot): int {
    if Observed(s) then 1 else 0
  }

  function ObservedRequests(s: Snapshot): int {
    s.Total()
  }

  function QualifiedOne(s: Snapshot): int {
    if Qualified(s) then 1 else 0
  }

  function QualifiedRequests(s: Snapshot): int {
    if Qualified(s) then s.Total() else 0
  }

  function QualifiedFaulty(s: Snapshot): int {
    if Qualified(s) then s.faulty else 0
  }

  function MeasuredOne(s: Snapshot): int {
    if Measured(s) then 1 else 0
  }

  function AverageLatency(s: Snapshot): int {
    if Measured(s) then TruncDiv(s.latencySum, s.okCount) else 0
  }

  function SlowOne(threshold: int): Snapshot -> int {
    (s: Snapshot) => if Measured(s) && AverageLatency(s) > threshold then 1 else 0
  }

  predicate IsFaulty(s: Snapshot, threshold: real, minRequests: nat) {
    Qualified(s) && s.Total() >= minRequests && s.faulty as real / s.Total() as real > threshold
  }

  function FaultyOne(threshold: real, minRequests: nat): Snapshot -> int {
    (s: Snapshot) => if IsFaulty(s, threshold, minRequests) then 1 else 0
  }

  // ---- The view, from sums over the agents ----

  function BaselineMs(snaps: seq<Snapshot>): int {
    var measured := Sum(MeasuredOne, snaps);
    if measured > 0 then TruncDiv(Sum(AverageLatency, snaps), measured) else 0
  }

  function ScaledMs(baseline: int, slowMultiplier: real): int {
    Truncate(baseline as real * slowMultiplier)
  }

  function SlowThresholdMs(snaps: seq<Snapshot>, slowMultiplier: real): int {
    ScaledMs(BaselineMs(snaps), slowMultiplier)
  }

  function SlowCount(snaps: seq<Snapshot>, slowMultiplier: real): int {
    Sum(SlowOne(SlowThresholdMs(snaps, slowMultiplier)), snaps)
  }

  function AvgRequests(snaps: seq<Snapshot>): int {
    var observed := Sum(ObservedOne, snaps);
    if observed > 0 then TruncDiv(Sum(ObservedRequests, snaps), observed) else 0
  }

  function MinRequests(snaps: seq<Snapshot>, faultyThreshold: real): nat {
    ErrorRateMinRequests(faultyThreshold, AvgRequests(snaps))
  }

  function FaultyCount(snaps: seq<Snapshot>, faultyThreshold: real): int {
    Sum(FaultyOne(faultyThreshold, MinRequests(snaps, faultyThreshold)), snaps)
  }

  /** Fewer than half of the agents with any request in the window qualify, or none does. */
  predicate NoQuorum(snaps: seq<Snapshot>) {
    Sum(QualifiedOne, snaps) == 0 || Sum(QualifiedOne, snaps) * 2 < Sum(ObservedOne, snaps)
  }

  function View(snaps: seq<Snapshot>, slowMultiplier: real, faultyThreshold: real): Option<Cluster> {
    if NoQuorum(snaps) then None
    else
      Counts(snaps);
      var observed, measured, requests := Sum(ObservedOne, snaps), Sum(MeasuredOne, snaps), Sum(QualifiedRequests, snaps);
      Some(Cluster(
             BaselineMs(snaps),
             SlowThresholdMs(snaps, slowMultiplier),
             if measured > 0 then SlowCount(snaps, slowMultiplier) as real / measured as real else 0.0,
             measured,
             if requests > 0 then Sum(QualifiedFaulty, snaps) as real / requests as real else 0.0,
             faultyThreshold,
             AvgRequests(snaps),
             FaultyCount(snaps, faultyThreshold) as real / observed as real,
             observed))
  }

  lemma {:induction false} Counts(snaps: seq<Snapshot>)
    ensures 0 <= Sum(MeasuredOne, snaps) <= Sum(QualifiedOne, snaps) <= Sum(ObservedOne, snaps)
  {
    if snaps != [] {
      Counts(snaps[1..]);
    }
  }

  lemma SumsIgnoreOrder(a: seq<Snapshot>, b: seq<Snapshot>)
    requires multiset(a) == multiset(b)
    ensures Sum(ObservedOne, a) == Sum(ObservedOne, b) && Sum(ObservedRequests, a) == Sum(ObservedRequests, b)
    ensures Sum(QualifiedOne, a) == Sum(QualifiedOne, b) && Sum(QualifiedRequests, a) == Sum(QualifiedRequests, b)
    ensures Sum(QualifiedFaulty, a) == Sum(QualifiedFaulty, b)
    ensures Sum(MeasuredOne, a) == Sum(MeasuredOne, b) && Sum(AverageLatency, a) == Sum(AverageLatency, b)
  {
    SumPermutation(ObservedOne, a, b);
    SumPermutation(ObservedRequests, a, b);
    SumPermutation(QualifiedOne, a, b);
    SumPermutation(QualifiedRequests, a, b);
    SumPermutation(QualifiedFaulty, a, b);
    SumPermutation(MeasuredOne, a, b);
    SumPermutation(AverageLatency, a, b);
  }

  /** The view does not depend on the order in which the agents are visited. */
  lemma ViewIgnoresOrder(a: seq<Snapshot>, b: seq<Snapshot>, slowMultiplier: real, faultyThreshold: real)
    requires multiset(a) == multiset(b)
    ensures View(a, slowMultiplier, faultyThreshold) == View(b, slowMultiplier, faultyThreshold)
  {
    hide Sum, SlowOne, FaultyOne;
    SumsIgnoreOrder(a, b);
    SumPermutation(SlowOne(SlowThresholdMs(a, slowMultiplier)), a, b);
    SumPermutation(FaultyOne(faultyThreshold, MinRequests(a, faultyThreshold)), a, b);
    assert NoQuorum(a) == NoQuorum(b);
    assert BaselineMs(a) == BaselineMs(b);
    assert SlowThresholdMs(a, slowMultiplier) == SlowThresholdMs(b, slowMultiplier);
    assert AvgRequests(a) == AvgRequests(b);
    assert SlowCount(a, slowMultiplier) == SlowCount(b, slowMultiplier);
    assert FaultyCount(a, faultyThreshold) == FaultyCount(b, faultyThreshold);
  }

  // ---- The accumulating walk over the agents ----

  /** Average latencies of the measured agents, in visiting order. */
  function Latencies(snaps: seq<Snapshot>): seq<int> {
    if snaps == [] then []
    else
      var before := Latencies(snaps[..|snaps| - 1]);
      if Measured(snaps[|snaps| - 1]) then before + [AverageLatency(snaps[|snaps| - 1])] else before
  }

  function Qualifying(snaps: seq<Snapshot>): seq<Snapshot> {
    if snaps == [] then []
    else
      var before := Qualifying(snaps[..|snaps| - 1]);
      if Qualified(snaps[|snaps| - 1]) then before + [snaps[|snaps| - 1]] else before
  }

  function Above(threshold: int): int -> int {
    (x: int) => if x > threshold then 1 else 0
  }

  lemma {:induction false} SlowAmongLatencies(snaps: seq<Snapshot>, threshold: int)
    ensures Sum(Above(threshold), Latencies(snaps)) == Sum(SlowOne(threshold), snaps)
    ensures |Latencies(snaps)| == Sum(MeasuredOne, snaps)
  {
    if snaps != [] {
      var n := |snaps| - 1;
      SlowAmongLatencies(snaps[..n], threshold);
      assert snaps == snaps[..n] + [snaps[n]];
      SumSnoc(SlowOne(threshold), snaps[..n], snaps[n]);
      SumSnoc(MeasuredOne, snaps[..n], snaps[n]);
      SumSnoc(Above(threshold), Latencies(snaps[..n]), AverageLatency(snaps[n]));
    }
  }

  lemma {:induction false} FaultyAmongQualifying(snaps: seq<Snapshot>, threshold: real, minRequests: nat)
    ensures Sum(FaultyOne(threshold, minRequests), Qualifying(snaps)) == Sum(FaultyOne(threshold, minRequests), snaps)
    ensures forall s :: s in Qualifying(snaps) ==> Qualified(s)
  {
    hide Qualified;
    if snaps != [] {
      var n := |snaps| - 1;
      FaultyAmongQualifying(snaps[..n], threshold, minRequests);
      assert snaps == snaps[..n] + [snaps[n]];
      SumSnoc(FaultyOne(threshold, minRequests), snaps[..n], snaps[n]);
      SumSnoc(FaultyOne(threshold, minRequests), Qualifying(snaps[..n]), snaps[n]);
    }
  }

  /** Running totals of the walk. */
  datatype Totals = Totals(observed: int, observedRequests: int, qualified: int, requests: int, faulty: int, latencySum: int,
                           latencies: seq<int>, qualifying: seq<Snapshot>)

  ghost function TotalsOf(snaps: seq<Snapshot>): Totals {
    Totals(Sum(ObservedOne, snaps), Sum(ObservedRequests, snaps), Sum(QualifiedOne, snaps), Sum(QualifiedRequests, snaps),
           Sum(QualifiedFaulty, snaps), Sum(AverageLatency, snaps), Latencies(snaps), Qualifying(snaps))
  }

  lemma TotalsSnoc(snaps: seq<Snapshot>, s: Snapshot)
    ensures var t, t' := TotalsOf(snaps), TotalsOf(snaps + [s]);
            && t'.observed == t.observed + ObservedOne(s) && t'.observedRequests == t.observedRequests + ObservedRequests(s)
            && t'.qualified == t.qualified + QualifiedOne(s) && t'.requests == t.requests + QualifiedRequests(s)
            && t'.faulty == t.faulty + QualifiedFaulty(s) && t'.latencySum == t.latencySum + AverageLatency(s)
            && t'.latencies == (if Measured(s) then t.latencies + [AverageLatency(s)] else t.latencies)
            && t'.qualifying == (if Qualified(s) then t.qualifying + [s] else t.qualifying)
  {
    assert (snaps + [s])[..|snaps|] == snaps;
    SumSnoc(ObservedOne, snaps, s);
    SumSnoc(ObservedRequests, snaps, s);
    SumSnoc(QualifiedOne, snaps, s);
    SumSnoc(QualifiedRequests, snaps, s);
    SumSnoc(QualifiedFaulty, snaps, s);
    SumSnoc(AverageLatency, snaps, s);
  }

  method Walk(snaps: seq<Snapshot>) returns (t: Totals)
    ensures t == TotalsOf(snaps)
  {
    t := Totals(0, 0, 0, 0, 0, 0, [], []);
    for i := 0 to |snaps|
      invariant t == TotalsOf(snaps[..i])
    {
      hide TotalsOf;
      var s := snaps[i];
      TotalsSnoc(snaps[..i], s);
      assert snaps[..i + 1] == snaps[..i] + [s];
      if s.Total() == 0 {
        continue;
      }
      t := t.(observed := t.observed + 1, observedRequests := t.observedRequests + s.Total());
      if s.filled < MIN_FILLED_BUCKETS {
        continue;
      }
      t := t.(qualified := t.qualified + 1, requests := t.requests + s.Total(), faulty := t.faulty + s.faulty,
              qualifying := t.qualifying + [s]);
      if s.okCount > 0 {
        var average := TruncDiv(s.latencySum, s.okCount);
        t := t.(latencySum := t.latencySum + average, latencies := t.latencies + [average]);
      }
    }
    assert snaps[..|snaps|] == snaps;
  }

  method CountAbove(xs: seq<int>, threshold: int) returns (n: int)
    ensures n == Sum(Above(threshold), xs)
  {
    n := 0;
    for i := 0 to |xs|
      invariant n == Sum(Above(threshold), xs[..i])
    {
      SumSnoc(Above(threshold), xs[..i], xs[i]);
      assert xs[..i + 1] == xs[..i] + [xs[i]];
      if xs[i] > threshold {
        n := n + 1;
      }
    }
    assert xs[..|xs|] == xs;
  }

  method CountFaulty(xs: seq<Snapshot>, threshold: real, minRequests: nat) returns (n: int)
    requires forall s :: s in xs ==> Qualified(s)
    ensures n == Sum(FaultyOne(threshold, minRequests), xs)
  {
    n := 0;
    for i := 0 to |xs|
      invariant n == Sum(FaultyOne(threshold, minRequests), xs[..i])
    {
      var s := xs[i];
      assert s in xs;
      SumSnoc(FaultyOne(threshold, minRequests), xs[..i], s);
      assert xs[..i + 1] == xs[..i] + [s];
      if s.Total() >= minRequests && s.faulty as real / s.Total() as real > threshold {
        n := n + 1;
      }
    }
    assert xs[..|xs|] == xs;
  }

  /** Computes the view from the agents in any order: one pass for the sums, then one over the
      collected latencies and one over the collected error counts, once the thresholds are known. */
  method ClusterStats(snaps: seq<Snapshot>, slowMultiplier: real, faultyThreshold: real) returns (view: Option<Cluster>)
    ensures view == View(snaps, slowMultiplier, faultyThreshold)
  {
    hide Sum, Latencies, Qualifying, SlowOne, FaultyOne, Above, Qualified, ErrorRateMinRequests;
    var t := Walk(snaps);
    if t.qualified == 0 || t.qualified * 2 < t.observed {
      return None;
    }
    Counts(snaps);
    SlowAmongLatencies(snaps, SlowThresholdMs(snaps, slowMultiplier));
    FaultyAmongQualifying(snaps, faultyThreshold, MinRequests(snaps, faultyThreshold));
    var baseline := 0;
    if |t.latencies| > 0 {
      baseline := TruncDiv(t.latencySum, |t.latencies|);
    }
    var slowThreshold := ScaledMs(baseline, slowMultiplier);
    assert baseline == BaselineMs(snaps) && slowThreshold == SlowThresholdMs(snaps, slowMultiplier);
    var errorRate := 0.0;
    if t.requests > 0 {
      errorRate := t.faulty as real / t.requests as real;
    }
    var avg := TruncDiv(t.observedRequests, t.observed);
    var minRequests := ErrorRateMinRequests(faultyThreshold, avg);
    var faultyAgents := CountFaulty(t.qualifying, faultyThreshold, minRequests);
    var slowFraction := 0.0;
    if |t.latencies| > 0 {
      var slowAgents := CountAbove(t.latencies, slowThreshold);
      assert slowAgents == SlowCount(snaps, slowMultiplier);
      slowFraction := slowAgents as real / |t.latencies| as real;
    }
    assert avg == AvgRequests(snaps) && faultyAgents == FaultyCount(snaps, faultyThreshold);
    view := Some(Cluster(baseline, slowThreshold, slowFraction, |t.latencies|, errorRate, faultyThreshold, avg,
                         faultyAgents as real / t.observed as real, t.observed));
  }

  // ---- What the figures mean ----

  function Where(p: Snapshot -> bool, snaps: seq<Snapshot>): seq<Snapshot> {
    if snaps == [] then [] else (if p(snaps[0]) then [snaps[0]] else []) + Where(p, snaps[1..])
  }

  lemma {:induction false} CountIsWhere(one: Snapshot -> int, p: Snapshot -> bool, snaps: seq<Snapshot>)
    requires forall s :: one(s) == if p(s) then 1 else 0
    ensures Sum(one, snaps) == |Where(p, snaps)|
  {
    if snaps != [] {
      CountIsWhere(one, p, snaps[1..]);
    }
  }

  /** f is a out of b. */
  predicate IsRatio(f: real, a: int, b: int) {
    f * b as real == a as real
  }

  /** q is a divided by n, rounded down. */
  predicate IsQuotient(q: int, a: int, n: int) {
    q * n <= a < (q + 1) * n
  }

  lemma Ratio(a: int, b: int)
    requires b > 0
    ensures IsRatio(a as real / b as real, a, b)
  {
  }

  lemma Quotient(a: int, n: int)
    requires a >= 0 && n > 0
    ensures IsQuotient(TruncDiv(a, n), a, n)
  {
    assert a == n * (a / n) + a % n;
  }

  /** n is below one over the threshold, so a single error among n requests is a rate above it. */
  predicate OneErrorExceeds(n: int, threshold: real)
    requires threshold > 0.0
  {
    n as real < 1.0 / threshold
  }

  /** The floor, said directly: the fewest requests at which a single error is within the threshold,
      or two when the cluster does not see that many, and never more than the former. */
  lemma FloorExactly(faultyThreshold: real, avgRequests: int) returns (base: int)
    requires faultyThreshold > 0.0
    ensures base >= 1 && !OneErrorExceeds(base, faultyThreshold)
    ensures base > 1 ==> OneErrorExceeds(base - 1, faultyThreshold)
    ensures ErrorRateMinRequests(faultyThreshold, avgRequests)
         == if avgRequests >= base then base else if base < MIN_FILLED_BUCKETS then base else MIN_FILLED_BUCKETS
  {
    hide OneErrorExceeds;
    var ceiling := Ceiling(1.0 / faultyThreshold);
    CeilingOfInverse(faultyThreshold);
    base := if ceiling < 1 then 1 else ceiling;
  }

  lemma CeilingOfInverse(threshold: real)
    requires threshold > 0.0
    ensures var n := Ceiling(1.0 / threshold); n >= 1 && !OneErrorExceeds(n, threshold) && OneErrorExceeds(n - 1, threshold)
  {
    hide Ceiling;
    InverseIsPositive(threshold);
    CeilingBounds(1.0 / threshold);
  }

  lemma InverseIsPositive(t: real)
    requires t > 0.0
    ensures 1.0 / t > 0.0
  {
  }

  lemma CeilingBounds(x: real)
    ensures (Ceiling(x) - 1) as real < x <= Ceiling(x) as real
  {
  }

  /** An agent's own figures: available from two buckets on; its error rate is its share of faulty
      requests, and its latency the whole milliseconds of the successful ones' average. */
  lemma AgentFigures(s: Snapshot)
    ensures AgentStatsOf(s).Some? <==> s.filled >= MIN_FILLED_BUCKETS
    ensures AgentStatsOf(s).Some? ==>
              var a := AgentStatsOf(s).value;
              && a.requests == s.okCount + s.faulty
              && (a.requests > 0 ==> IsRatio(a.errorRate, s.faulty, a.requests))
              && (s.okCount > 0 && s.latencySum >= 0 ==> IsQuotient(a.latencyMs, s.latencySum, s.okCount))
  {
    if s.Total() > 0 {
      Ratio(s.faulty, s.Total());
    }
    if s.okCount > 0 && s.latencySum >= 0 {
      Quotient(s.latencySum, s.okCount);
    }
  }

  lemma CountsAreWhere(snaps: seq<Snapshot>)
    ensures Sum(ObservedOne, snaps) == |Where(Observed, snaps)|
    ensures Sum(QualifiedOne, snaps) == |Where(Qualified, snaps)|
    ensures Sum(MeasuredOne, snaps) == |Where(Measured, snaps)|
  {
    CountIsWhere(ObservedOne, Observed, snaps);
    CountIsWhere(QualifiedOne, Qualified, snaps);
    CountIsWhere(MeasuredOne, Measured, snaps);
  }

  /** There is a view exactly when some agent qualifies and at least half of the observed ones do. */
  lemma ViewNeedsAQuorum(snaps: seq<Snapshot>, slowMultiplier: real, faultyThreshold: real)
    ensures View(snaps, slowMultiplier, faultyThreshold).Some? <==>
            |Where(Qualified, snaps)| > 0 && 2 * |Where(Qualified, snaps)| >= |Where(Observed, snaps)|
  {
    hide Sum, Where;
    CountsAreWhere(snaps);
  }

  predicate Slow(s: Snapshot, threshold: int) {
    Measured(s) && AverageLatency(s) > threshold
  }

  lemma FaultyAreWhere(snaps: seq<Snapshot>, threshold: real, minRequests: nat)
    ensures Sum(FaultyOne(threshold, minRequests), snaps) == |Where((s: Snapshot) => IsFaulty(s, threshold, minRequests), snaps)|
  {
    CountIsWhere(FaultyOne(threshold, minRequests), (s: Snapshot) => IsFaulty(s, threshold, minRequests), snaps);
  }

  lemma SlowAreWhere(snaps: seq<Snapshot>, threshold: int)
    ensures Sum(SlowOne(threshold), snaps) == |Where((s: Snapshot) => Slow(s, threshold), snaps)|
  {
    CountIsWhere(SlowOne(threshold), (s: Snapshot) => Slow(s, threshold), snaps);
  }

  /** The error figures: the faulty fraction is that of the observed agents, judged by the floor for the
      average number of requests they have; the baseline rate is that of the qualified agents'
      requests. */
  lemma ViewErrorFigures(snaps: seq<Snapshot>, slowMultiplier: real, faultyThreshold: real)
    requires View(snaps, slowMultiplier, faultyThreshold).Some?
    ensures var c := View(snaps, slowMultiplier, faultyThreshold).value;
            && c.faultyThreshold == faultyThreshold && c.faultyContributors == |Where(Observed, snaps)| > 0
            && IsQuotient(c.avgRequests, Sum(ObservedRequests, snaps), c.faultyContributors)
            && IsRatio(c.faultyFraction,
                       |Where((s: Snapshot) => IsFaulty(s, faultyThreshold, ErrorRateMinRequests(faultyThreshold, c.avgRequests)), snaps)|,
                       c.faultyContributors)
            && IsRatio(c.baselineErrorRate, Sum(QualifiedFaulty, snaps), Sum(QualifiedRequests, snaps))
  {
    hide Where, ErrorRateMinRequests, IsFaulty, TruncDiv, IsRatio, IsQuotient, Sum, BaselineMs, SlowThresholdMs, SlowCount;
    CountsAreWhere(snaps);
    Counts(snaps);
    TotalsAreNatural(snaps);
    var observed, requests := Sum(ObservedOne, snaps), Sum(QualifiedRequests, snaps);
    Quotient(Sum(ObservedRequests, snaps), observed);
    FaultyAreWhere(snaps, faultyThreshold, MinRequests(snaps, faultyThreshold));
    Ratio(FaultyCount(snaps, faultyThreshold), observed);
    if requests > 0 {
      Ratio(Sum(QualifiedFaulty, snaps), requests);
    } else {
      NothingOfNothing();
    }
  }

  lemma NothingOfNothing()
    ensures IsRatio(0.0, 0, 0)
  {
  }

  lemma {:induction false} TotalsAreNatural(snaps: seq<Snapshot>)
    ensures Sum(ObservedRequests, snaps) >= 0
    ensures 0 <= Sum(QualifiedFaulty, snaps) <= Sum(QualifiedRequests, snaps)
  {
    if snaps != [] {
      TotalsAreNatural(snaps[1..]);
    }
  }

  /** The latency figures: the baseline is the whole milliseconds of the average over the measured
      agents, the threshold the multiple of it, and the slow fraction that of the agents above it. */
  lemma ViewLatencyFigures(snaps: seq<Snapshot>, slowMultiplier: real, faultyThreshold: real)
    requires NonNegative(snaps) && slowMultiplier >= 0.0 && View(snaps, slowMultiplier, faultyThreshold).Some?
    ensures var c := View(snaps, slowMultiplier, faultyThreshold).value;
            && c.slowContributors == |Where(Measured, snaps)|
            && (c.slowContributors == 0 ==> c.baselineMs == 0 && c.slowFraction == 0.0)
            && (c.slowContributors > 0 ==> IsQuotient(c.baselineMs, Sum(AverageLatency, snaps), c.slowContributors))
            && IsWholePart(c.slowThresholdMs, c.baselineMs, slowMultiplier)
            && IsRatio(c.slowFraction, |Where((s: Snapshot) => Slow(s, c.slowThresholdMs), snaps)|, c.slowContributors)
  {
    hide Where, TruncDiv, Slow, ErrorRateMinRequests, IsRatio, IsQuotient, IsWholePart, Sum, ScaledMs, FaultyCount, AvgRequests, Truncate;
    CountsAreWhere(snaps);
    Counts(snaps);
    LatenciesAreNatural(snaps);
    var measured := Sum(MeasuredOne, snaps);
    SlowAreWhere(snaps, SlowThresholdMs(snaps, slowMultiplier));
    if measured > 0 {
      Quotient(Sum(AverageLatency, snaps), measured);
      Ratio(SlowCount(snaps, slowMultiplier), measured);
      BaselineBounds(snaps);
    } else {
      NothingOfNothing();
    }
    SlowWithinMeasured(snaps, SlowThresholdMs(snaps, slowMultiplier));
    ScaledIsWholePart(BaselineMs(snaps), slowMultiplier);
  }

  /** t is the whole part of baseline times the multiplier. */
  predicate IsWholePart(t: int, baseline: int, multiplier: real) {
    t as real <= baseline as real * multiplier < (t + 1) as real
  }

  lemma ScaledIsWholePart(baseline: int, multiplier: real)
    requires baseline >= 0 && multiplier >= 0.0
    ensures IsWholePart(ScaledMs(baseline, multiplier), baseline, multiplier)
  {
    Scaled(baseline as real, multiplier);
    WholePart(baseline as real * multiplier);
  }

  lemma WholePart(x: real)
    requires x >= 0.0
    ensures Truncate(x) as real <= x < (Truncate(x) + 1) as real
  {
  }

  lemma {:induction false} SlowWithinMeasured(snaps: seq<Snapshot>, threshold: int)
    ensures 0 <= Sum(SlowOne(threshold), snaps) <= Sum(MeasuredOne, snaps)
  {
    if snaps != [] {
      SlowWithinMeasured(snaps[1..], threshold);
    }
  }

  lemma {:induction false} LatenciesAreNatural(snaps: seq<Snapshot>)
    requires NonNegative(snaps)
    ensures Sum(AverageLatency, snaps) >= 0
  {
    if snaps != [] {
      assert snaps[0] in snaps;
      LatenciesAreNatural(snaps[1..]);
    }
  }

  // ---- Not every agent can be slow ----

  /** Latencies are durations, so their averages are not negative. */
  ghost predicate NonNegative(snaps: seq<Snapshot>) {
    forall s :: s in snaps ==> AverageLatency(s) >= 0
  }

  lemma {:induction false} SlowAgentsWeigh(snaps: seq<Snapshot>, threshold: int)
    requires NonNegative(snaps) && threshold >= -1
    ensures Sum(SlowOne(threshold), snaps) * (threshold + 1) <= Sum(AverageLatency, snaps)
    ensures Sum(SlowOne(threshold), snaps) <= Sum(MeasuredOne, snaps)
  {
    hide AverageLatency;
    if snaps != [] {
      var s := snaps[0];
      assert s in snaps;
      SlowAgentsWeigh(snaps[1..], threshold);
      var one, rest := SlowOne(threshold)(s), Sum(SlowOne(threshold), snaps[1..]);
      assert (one + rest) * (threshold + 1) == one * (threshold + 1) + rest * (threshold + 1);
    }
  }

  lemma QuotientBound(a: int, n: int)
    requires a >= 0 && n > 0
    ensures a < n * (TruncDiv(a, n) + 1)
  {
    assert a == n * (a / n) + a % n;
    assert n * (a / n + 1) == n * (a / n) + n;
  }

  /** The slow agents together weigh less than the measured ones at the baseline; so with a
      multiplier of at least one, not every measured agent is slow. */
  lemma SlowAgentBound(snaps: seq<Snapshot>, slowMultiplier: real)
    requires NonNegative(snaps) && slowMultiplier >= 0.0 && Sum(MeasuredOne, snaps) > 0
    ensures SlowCount(snaps, slowMultiplier) * (SlowThresholdMs(snaps, slowMultiplier) + 1)
          < Sum(MeasuredOne, snaps) * (BaselineMs(snaps) + 1)
    ensures slowMultiplier >= 1.0 ==> SlowCount(snaps, slowMultiplier) < Sum(MeasuredOne, snaps)
  {
    hide *;
    var n, sum := Sum(MeasuredOne, snaps), Sum(AverageLatency, snaps);
    var baseline, threshold := BaselineMs(snaps), SlowThresholdMs(snaps, slowMultiplier);
    BaselineBounds(snaps);
    ThresholdBounds(snaps, slowMultiplier);
    SlowAgentsWeigh(snaps, threshold);
    SlowCountIs(snaps, slowMultiplier);
    FewerSlow(SlowCount(snaps, slowMultiplier), n, baseline, threshold, sum);
  }

  lemma SlowCountIs(snaps: seq<Snapshot>, slowMultiplier: real)
    ensures SlowCount(snaps, slowMultiplier) == Sum(SlowOne(SlowThresholdMs(snaps, slowMultiplier)), snaps)
  {
  }

  lemma BaselineBounds(snaps: seq<Snapshot>)
    requires NonNegative(snaps) && Sum(MeasuredOne, snaps) > 0
    ensures BaselineMs(snaps) >= 0
    ensures Sum(AverageLatency, snaps) < Sum(MeasuredOne, snaps) * (BaselineMs(snaps) + 1)
  {
    hide Sum, AverageLatency, Measured, TruncDiv;
    SumBounds(AverageLatency, snaps);
    QuotientBound(Sum(AverageLatency, snaps), Sum(MeasuredOne, snaps));
    QuotientSign(Sum(AverageLatency, snaps), Sum(MeasuredOne, snaps));
  }

  lemma QuotientSign(a: int, n: int)
    requires a >= 0 && n > 0
    ensures TruncDiv(a, n) >= 0
  {
  }

  lemma ThresholdBounds(snaps: seq<Snapshot>, slowMultiplier: real)
    requires BaselineMs(snaps) >= 0 && slowMultiplier >= 0.0
    ensures SlowThresholdMs(snaps, slowMultiplier) >= 0
    ensures slowMultiplier >= 1.0 ==> SlowThresholdMs(snaps, slowMultiplier) >= BaselineMs(snaps)
  {
    hide ScaledMs;
    ThresholdAboveBaseline(BaselineMs(snaps), slowMultiplier);
  }

  lemma FewerSlow(slow: int, n: int, baseline: int, threshold: int, sum: int)
    requires slow * (threshold + 1) <= sum < n * (baseline + 1) && slow <= n
    ensures slow * (threshold + 1) < n * (baseline + 1)
    ensures threshold >= baseline >= 0 && n > 0 ==> slow < n
  {
    if threshold >= baseline && n > 0 {
      LargerFactor(n, baseline + 1, threshold + 1);
    }
  }

  lemma ThresholdAboveBaseline(baseline: int, slowMultiplier: real)
    requires baseline >= 0 && slowMultiplier >= 0.0
    ensures ScaledMs(baseline, slowMultiplier) >= 0
    ensures slowMultiplier >= 1.0 ==> ScaledMs(baseline, slowMultiplier) >= baseline
  {
    Scaled(baseline as real, slowMultiplier);
  }

  lemma Scaled(x: real, m: real)
    requires x >= 0.0 && m >= 0.0
    ensures x * m >= 0.0
    ensures m >= 1.0 ==> x * m >= x
  {
    if m >= 1.0 {
      assert x * m - x == x * (m - 1.0);
    }
  }

  lemma LargerFactor(n: int, a: int, b: int)
    requires n > 0 && a <= b
    ensures n * a <= n * b
  {
    assert n * b - n * a == n * (b - a);
  }

  // ---- Health verdicts ----

  /** max(configured, 1/contributors): one bad agent alone never trips a fraction gate. */
  function FractionFloor(configured: real, contributors: int): real {
    if contributors <= 0 then configured
    else if configured >= 1.0 / contributors as real then configured
    else 1.0 / contributors as real
  }

  predicate TooManyFaulty(c: Cluster, maxFaultyFraction: real) {
    c.faultyFraction > FractionFloor(maxFaultyFraction, c.faultyContributors)
  }

  /** The verdict the Hedger passes on a primary, and the Demoter on an agent not yet demoted. */
  predicate JudgedFaulty(c: Cluster, a: AgentStats) {
    a.requests >= ErrorRateMinRequests(c.faultyThreshold, c.avgRequests) && a.errorRate > c.faultyThreshold
  }

  predicate JudgedAgent(c: Cluster, s: Snapshot) {
    AgentStatsOf(s).Some? && JudgedFaulty(c, AgentStatsOf(s).value)
  }

  function JudgedOne(c: Cluster): Snapshot -> int {
    (s: Snapshot) => if JudgedAgent(c, s) then 1 else 0
  }

  /** Each counted bucket holds a request. */
  ghost predicate WellFormed(snaps: seq<Snapshot>) {
    forall s :: s in snaps ==> s.filled <= s.Total()
  }

  /** Agent by agent: it is judged faulty exactly when the view counts it as faulty. */
  lemma VerdictIsTheCount(c: Cluster, s: Snapshot)
    requires s.filled <= s.Total()
    ensures JudgedAgent(c, s) <==> IsFaulty(s, c.faultyThreshold, ErrorRateMinRequests(c.faultyThreshold, c.avgRequests))
  {
  }

  /** On one snapshot of the tracker, the agents judged faulty are exactly those counted into the
      view that they are judged against. */
  lemma {:induction false} VerdictsAgreeWithCount(c: Cluster, snaps: seq<Snapshot>)
    requires WellFormed(snaps)
    ensures forall s :: s in snaps ==>
              (JudgedAgent(c, s) <==> IsFaulty(s, c.faultyThreshold, ErrorRateMinRequests(c.faultyThreshold, c.avgRequests)))
    ensures Sum(JudgedOne(c), snaps)
         == Sum(FaultyOne(c.faultyThreshold, ErrorRateMinRequests(c.faultyThreshold, c.avgRequests)), snaps)
  {
    hide JudgedAgent, IsFaulty, ErrorRateMinRequests;
    if snaps != [] {
      assert snaps[0] in snaps;
      VerdictIsTheCount(c, snaps[0]);
      VerdictsAgreeWithCount(c, snaps[1..]);
    }
  }

  lemma Fractions(faulty: int, n: int, f: real)
    requires n > 0
    ensures faulty as real / n as real <= FractionFloor(f, n) <==> faulty as real <= f * n as real || faulty <= 1
  {
    var x, m := faulty as real, n as real;
    assert x / m * m == x && 1.0 / m * m == 1.0;
    Cleared(x, m, f);
    Cleared(x, m, 1.0 / m);
  }

  lemma Cleared(x: real, m: real, f: real)
    requires m > 0.0
    ensures x / m <= f <==> x <= f * m
  {
    var q := x / m;
    assert q * m == x;
    assert (f - q) * m == f * m - x;
    if q <= f {
      NonNegativeProduct(f - q, m);
    } else {
      NegativeProduct(q - f, m);
      assert (q - f) * m == x - f * m;
    }
  }

  lemma NonNegativeProduct(a: real, b: real)
    requires a >= 0.0 && b >= 0.0
    ensures a * b >= 0.0
  {
  }

  lemma NegativeProduct(a: real, b: real)
    requires a > 0.0 && b > 0.0
    ensures a * b > 0.0
  {
  }

  /** On one snapshot of the tracker, the agents judged faulty are as many as the view counted;
      and faulty agents are acted upon exactly when they are at most the configured fraction of
      the observed agents, or a single one. */
  lemma FaultyAgentsAreBounded(snaps: seq<Snapshot>, slowMultiplier: real, faultyThreshold: real, maxFaultyFraction: real)
    requires WellFormed(snaps) && View(snaps, slowMultiplier, faultyThreshold).Some?
    ensures var c := View(snaps, slowMultiplier, faultyThreshold).value;
            var judged := Sum(JudgedOne(c), snaps);
            !TooManyFaulty(c, maxFaultyFraction) <==>
            (judged as real <= maxFaultyFraction * c.faultyContributors as real || judged <= 1)
  {
    hide Sum, JudgedOne, FaultyOne, FractionFloor, ErrorRateMinRequests;
    var c := View(snaps, slowMultiplier, faultyThreshold).value;
    Counts(snaps);
    VerdictsAgreeWithCount(c, snaps);
    Fractions(FaultyCount(snaps, faultyThreshold), c.faultyContributors, maxFaultyFraction);
  }
}
