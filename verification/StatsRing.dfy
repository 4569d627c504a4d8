/** Per-agent request statistics: six time buckets in a ring, overwritten lazily, against the
    full log of recorded requests. */
module StatsRings {
  const SLOTS: int := 6
  const BUCKET_NS: int := 10_000_000_000

  datatype Outcome = Succeeded | Errored | CanceledByCaller

  /** A recorded request; a call its own caller cancelled is never recorded. */
  datatype Request = Request(now: int, latencyMs: int, ok: bool)

  datatype Bucket = Bucket(epochStart: int, latencySum: int, okCount: nat, faulty: nat)

  const EMPTY_BUCKET := Bucket(0, 0, 0, 0)

  datatype Snapshot = Snapshot(latencySum: int, okCount: nat, faulty: nat, filled: nat) {
    function Total(): nat {
      okCount + faulty
    }
  }

  const EMPTY_SNAPSHOT := Snapshot(0, 0, 0, 0)

  /** Go's division rounds toward zero. */
  function TruncDiv(a: int, b: int): int
    requires b > 0
  {
    if a >= 0 then a / b else -((-a) / b)
  }

  function Epoch(now: int): int {
    TruncDiv(now, BUCKET_NS)
  }

  /** The remainder keeps the dividend's sign, so a slot before the Unix epoch is normalized. */
  function BucketIndex(now: int): (i: nat)
    ensures i < SLOTS && i == Epoch(now) % SLOTS
  {
    var e := Epoch(now);
    var r := e - SLOTS * TruncDiv(e, SLOTS);
    if r < 0 then r + SLOTS else r
  }

  /** Adds one request to the bucket of its epoch, clearing the slot if it holds another one. */
  function Record(b: Bucket, r: Request): Bucket {
    var epochStart := Epoch(r.now) * BUCKET_NS;
    var c := if b.epochStart != epochStart then Bucket(epochStart, 0, 0, 0) else b;
    if r.ok then c.(latencySum := c.latencySum + r.latencyMs, okCount := c.okCount + 1)
    else c.(faulty := c.faulty + 1)
  }

  type Ring = s: seq<Bucket> | |s| == SLOTS witness [EMPTY_BUCKET, EMPTY_BUCKET, EMPTY_BUCKET, EMPTY_BUCKET, EMPTY_BUCKET, EMPTY_BUCKET]

  const EMPTY_RING: Ring := [EMPTY_BUCKET, EMPTY_BUCKET, EMPTY_BUCKET, EMPTY_BUCKET, EMPTY_BUCKET, EMPTY_BUCKET]

  function Track(ring: Ring, r: Request): Ring {
    ring[BucketIndex(r.now) := Record(ring[BucketIndex(r.now)], r)]
  }

  /** The ring after a whole log of requests, in the order they were recorded. */
  function Replay(log: seq<Request>): Ring {
    if log == [] then EMPTY_RING else Track(Replay(log[..|log| - 1]), log[|log| - 1])
  }

  predicate Visible(b: Bucket, now: int) {
    b.okCount + b.faulty != 0 && b.epochStart >= (Epoch(now) - (SLOTS - 1)) * BUCKET_NS
  }

  function AddBucket(s: Snapshot, b: Bucket, now: int): Snapshot {
    if Visible(b, now) then
      Snapshot(s.latencySum + b.latencySum, s.okCount + b.okCount, s.faulty + b.faulty, s.filled + 1)
    else s
  }

  function SnapshotOf(ring: seq<Bucket>, now: int): Snapshot {
    if ring == [] then EMPTY_SNAPSHOT else AddBucket(SnapshotOf(ring[..|ring| - 1], now), ring[|ring| - 1], now)
  }

  class AgentRing {
    var buckets: array<Bucket>

    ghost predicate Valid()
      reads this
    {
      buckets.Length == SLOTS
    }

    constructor ()
      ensures Valid() && fresh(buckets) && buckets[..] == EMPTY_RING
    {
      buckets := new Bucket[SLOTS](_ => EMPTY_BUCKET);
    }

    method TrackRequest(now: int, latencyMs: int, outcome: Outcome)
      requires Valid()
      modifies buckets
      ensures outcome.CanceledByCaller? ==> buckets[..] == old(buckets[..])
      ensures !outcome.CanceledByCaller? ==>
                buckets[..] == Track(old(buckets[..]), Request(now, latencyMs, outcome.Succeeded?))
    {
      if outcome.CanceledByCaller? {
        return;
      }
      var epochStart := Epoch(now) * BUCKET_NS;
      var idx := BucketIndex(now);
      var b := buckets[idx];
      if b.epochStart != epochStart {
        b := Bucket(epochStart, 0, 0, 0);
      }
      if outcome.Succeeded? {
        b := b.(latencySum := b.latencySum + latencyMs, okCount := b.okCount + 1);
      } else {
        b := b.(faulty := b.faulty + 1);
      }
      buckets[idx] := b;
    }

    method TakeSnapshot(now: int) returns (snap: Snapshot)
      requires Valid()
      ensures snap == SnapshotOf(buckets[..], now)
    {
      hide Epoch;
      var cutoff := (Epoch(now) - (SLOTS - 1)) * BUCKET_NS;
      snap := EMPTY_SNAPSHOT;
      ghost var all := buckets[..];
      for i := 0 to buckets.Length
        invariant snap == SnapshotOf(all[..i], now)
      {
        assert all[..i + 1][..i] == all[..i];
        var b := buckets[i];
        if b.okCount + b.faulty != 0 && b.epochStart >= cutoff {
          snap := Snapshot(snap.latencySum + b.latencySum, snap.okCount + b.okCount, snap.faulty + b.faulty, snap.filled + 1);
        }
      }
      assert all[..buckets.Length] == all;
    }
  }

  // ---- The same figures, computed from the log ----

  datatype Tally = Tally(latencySum: int, okCount: nat, faulty: nat) {
    function Plus(r: Request): Tally {
      if r.ok then Tally(latencySum + r.latencyMs, okCount + 1, faulty) else Tally(latencySum, okCount, faulty + 1)
    }
  }

  /** All requests of one epoch. */
  function EpochTally(log: seq<Request>, e: int): Tally {
    if log == [] then Tally(0, 0, 0)
    else
      var before := EpochTally(log[..|log| - 1], e);
      if Epoch(log[|log| - 1].now) == e then before.Plus(log[|log| - 1]) else before
  }

  predicate InWindow(r: Request, now: int) {
    Epoch(r.now) >= Epoch(now) - (SLOTS - 1)
  }

  /** All requests of the last six epochs. */
  function WindowTally(log: seq<Request>, now: int): Tally {
    if log == [] then Tally(0, 0, 0)
    else
      var before := WindowTally(log[..|log| - 1], now);
      if InWindow(log[|log| - 1], now) then before.Plus(log[|log| - 1]) else before
  }

  /** The distinct epochs of the window that saw a request. */
  ghost function WindowEpochs(log: seq<Request>, now: int): set<int> {
    set r | r in log && InWindow(r, now) :: Epoch(r.now)
  }

  /** Every request is recorded less than six epochs behind the newest one before it; a clock
      that never goes back has this property, and so does moderate reordering. */
  ghost predicate NotTooLate(log: seq<Request>) {
    forall i, j :: 0 <= i < j < |log| ==> Epoch(log[i].now) < Epoch(log[j].now) + SLOTS
  }

  lemma MonotonicClockIsNotTooLate(log: seq<Request>)
    requires forall i, j :: 0 <= i < j < |log| ==> log[i].now <= log[j].now
    ensures NotTooLate(log)
  {
  }

  // ---- What each slot holds ----

  predicate InSlot(r: Request, i: nat) {
    Epoch(r.now) % SLOTS == i
  }

  function Size(t: Tally): nat {
    t.okCount + t.faulty
  }

  lemma {:induction false} NoRequestNoTally(log: seq<Request>, e: int)
    ensures (forall r :: r in log ==> Epoch(r.now) != e) ==> EpochTally(log, e) == Tally(0, 0, 0)
    ensures EpochTally(log, e).okCount + EpochTally(log, e).faulty > 0 <==> exists r :: r in log && Epoch(r.now) == e
  {
    if log != [] {
      var n := |log| - 1;
      NoRequestNoTally(log[..n], e);
      assert log == log[..n] + [log[n]];
    }
  }

  /** What slot i holds of epoch w. */
  function Share(b: Bucket, w: int): Tally {
    if b.epochStart == w * BUCKET_NS then Tally(b.latencySum, b.okCount, b.faulty) else Tally(0, 0, 0)
  }

  ghost predicate Saw(log: seq<Request>, e: int) {
    exists r :: r in log && Epoch(r.now) == e
  }

  lemma SawNothing(log: seq<Request>, i: nat, w: int)
    ensures Saw(log, w) <==> Size(EpochTally(log, w)) > 0
    ensures !Saw(log, w) ==> EpochTally(log, w) == Tally(0, 0, 0) && Unbroken(log, i, w)
  {
    hide Epoch, EpochTally;
    NoRequestNoTally(log, w);
    if !Saw(log, w) {
      assert forall a :: 0 <= a < |log| ==> log[a] in log;
    }
  }

  /** Once epoch w was recorded in slot i, no other epoch was. */
  ghost predicate Unbroken(log: seq<Request>, i: nat, w: int) {
    forall a, b :: 0 <= a < b < |log| && Epoch(log[a].now) == w && InSlot(log[b], i) ==> Epoch(log[b].now) == w
  }

  lemma UnbrokenSnoc(log: seq<Request>, r: Request, i: nat, w: int)
    ensures Unbroken(log + [r], i, w) <==>
            Unbroken(log, i, w) && (InSlot(r, i) && Epoch(r.now) != w ==> !Saw(log, w))
  {
    hide Epoch;
    var all, n := log + [r], |log|;
    assert all[n] == r && forall a :: 0 <= a < n ==> all[a] == log[a];
    if Unbroken(all, i, w) {
      forall x | x in log && InSlot(r, i) && Epoch(r.now) != w
        ensures Epoch(x.now) != w
      {
        var a :| 0 <= a < n && log[a] == x;
        assert all[a] == x;
      }
    }
  }

  lemma ShareStep(ring: Ring, r: Request, i: nat, w: int)
    requires i < SLOTS && w % SLOTS == i
    ensures Share(Track(ring, r)[i], w)
         == if Epoch(r.now) == w then Share(ring[i], w).Plus(r) else if InSlot(r, i) then Tally(0, 0, 0) else Share(ring[i], w)
  {
    hide Epoch;
  }

  /** The bucket has all of the log's requests of epoch w if that epoch was not broken into, and
      otherwise fewer. */
  ghost predicate HoldsExactly(b: Bucket, log: seq<Request>, i: nat, w: int) {
    if Unbroken(log, i, w) then Share(b, w) == EpochTally(log, w) else Size(Share(b, w)) < Size(EpochTally(log, w))
  }

  lemma EpochTallySnoc(log: seq<Request>, r: Request, w: int)
    ensures EpochTally(log + [r], w) == if Epoch(r.now) == w then EpochTally(log, w).Plus(r) else EpochTally(log, w)
  {
    hide Epoch;
    assert (log + [r])[..|log|] == log;
  }

  lemma TrackHoldsExactly(ring: Ring, log: seq<Request>, r: Request, i: nat, w: int)
    requires i < SLOTS && w % SLOTS == i && HoldsExactly(ring[i], log, i, w)
    ensures HoldsExactly(Track(ring, r)[i], log + [r], i, w)
  {
    hide Epoch, Track, Share, Unbroken, EpochTally, InSlot, Saw;
    UnbrokenSnoc(log, r, i, w);
    ShareStep(ring, r, i, w);
    EpochTallySnoc(log, r, w);
    SawNothing(log, i, w);
  }

  lemma {:induction false} SlotExactly(log: seq<Request>, i: nat, w: int)
    requires i < SLOTS && w % SLOTS == i
    ensures HoldsExactly(Replay(log)[i], log, i, w)
  {
    hide HoldsExactly, Track;
    if log == [] {
      EmptySlot(i, w);
    } else {
      var n := |log| - 1;
      SlotExactly(log[..n], i, w);
      TrackHoldsExactly(Replay(log[..n]), log[..n], log[n], i, w);
      assert log[..n] + [log[n]] == log;
    }
  }

  lemma EmptySlot(i: nat, w: int)
    requires i < SLOTS
    ensures HoldsExactly(Replay([])[i], [], i, w)
  {
  }

  /** Slot i holds the newest epoch of the log that maps to it, complete. */
  ghost predicate SlotOK(b: Bucket, log: seq<Request>, i: nat) {
    if exists r :: r in log && InSlot(r, i) then
      exists e :: HoldsNewest(b, log, i, e)
    else b.okCount == 0 && b.faulty == 0 && b.latencySum == 0
  }

  ghost predicate Newest(log: seq<Request>, i: nat, e: int) {
    && e % SLOTS == i
    && (exists r :: r in log && Epoch(r.now) == e)
    && (forall r :: r in log && InSlot(r, i) ==> Epoch(r.now) <= e)
  }

  ghost predicate HoldsNewest(b: Bucket, log: seq<Request>, i: nat, e: int) {
    Newest(log, i, e) && b.epochStart == e * BUCKET_NS && Tally(b.latencySum, b.okCount, b.faulty) == EpochTally(log, e)
  }

  lemma {:induction false} NewestExists(log: seq<Request>, i: nat) returns (e: int)
    requires exists r :: r in log && InSlot(r, i)
    ensures Newest(log, i, e)
  {
    hide Epoch;
    var n := |log| - 1;
    var r := log[n];
    assert log == log[..n] + [r] && r in log;
    e := Epoch(r.now);
    if exists x :: x in log[..n] && InSlot(x, i) {
      var before := NewestExists(log[..n], i);
      if !InSlot(r, i) || before > e {
        e := before;
      }
    }
  }

  /** A bucket that counts anything holds an epoch of the log. */
  lemma {:induction false} BucketOrigin(log: seq<Request>, i: nat)
    requires i < SLOTS
    ensures var b := Replay(log)[i];
            if b.okCount + b.faulty == 0 then b.latencySum == 0
            else exists r :: r in log && InSlot(r, i) && b.epochStart == Epoch(r.now) * BUCKET_NS
  {
    hide Epoch;
    if log != [] {
      var n := |log| - 1;
      BucketOrigin(log[..n], i);
      assert log == log[..n] + [log[n]] && log[n] in log;
    }
  }

  lemma SameResidue(a: int, b: int)
    requires a % SLOTS == b % SLOTS && a < b + SLOTS
    ensures a <= b
  {
  }

  lemma NewestIsUnbroken(log: seq<Request>, i: nat, e: int)
    requires NotTooLate(log) && i < SLOTS && Newest(log, i, e)
    ensures Unbroken(log, i, e)
  {
    hide Epoch;
    forall a, b | 0 <= a < b < |log| && Epoch(log[a].now) == e && InSlot(log[b], i)
      ensures Epoch(log[b].now) == e
    {
      assert log[b] in log;
      SameResidue(e, Epoch(log[b].now));
    }
  }

  lemma ReplayHoldsNewest(log: seq<Request>, i: nat)
    requires NotTooLate(log) && i < SLOTS
    ensures SlotOK(Replay(log)[i], log, i)
  {
    hide Epoch, Replay, NotTooLate, Unbroken;
    BucketOrigin(log, i);
    if exists r :: r in log && InSlot(r, i) {
      var e := NewestExists(log, i);
      NewestIsUnbroken(log, i, e);
      SlotExactly(log, i, e);
      NoRequestNoTally(log, e);
      assert HoldsNewest(Replay(log)[i], log, i, e);
    }
  }

  // ---- The window ----

  /** The epoch of the window that maps to slot i. */
  function SlotEpoch(now: int, i: nat): int
    requires i < SLOTS
  {
    Epoch(now) - (Epoch(now) - i) % SLOTS
  }

  lemma SlotEpochIsUnique(now: int, i: nat, e: int)
    requires i < SLOTS
    ensures Epoch(now) - (SLOTS - 1) <= SlotEpoch(now, i) <= Epoch(now) && SlotEpoch(now, i) % SLOTS == i
    ensures Epoch(now) - (SLOTS - 1) <= e <= Epoch(now) && e % SLOTS == i ==> e == SlotEpoch(now, i)
  {
    hide Epoch;
    var c := Epoch(now);
    var d := (c - i) % SLOTS;
    assert c - i == SLOTS * ((c - i) / SLOTS) + d;
    assert c - d == SLOTS * ((c - i) / SLOTS) + i;
  }

  function AddTally(s: Snapshot, t: Tally): Snapshot {
    Snapshot(s.latencySum + t.latencySum, s.okCount + t.okCount, s.faulty + t.faulty,
             s.filled + if t.okCount + t.faulty > 0 then 1 else 0)
  }

  /** Of a log read at its newest epoch or later, a slot contributes what it holds of its window epoch. */
  lemma SlotContributes(log: seq<Request>, now: int, i: nat, s: Snapshot)
    requires i < SLOTS && forall r :: r in log ==> Epoch(r.now) <= Epoch(now)
    ensures AddBucket(s, Replay(log)[i], now) == AddTally(s, Share(Replay(log)[i], SlotEpoch(now, i)))
  {
    hide Epoch, Replay, SlotEpoch;
    var b, w := Replay(log)[i], SlotEpoch(now, i);
    BucketOrigin(log, i);
    SlotEpochIsUnique(now, i, w);
    if b.okCount + b.faulty > 0 {
      var r :| r in log && InSlot(r, i) && b.epochStart == Epoch(r.now) * BUCKET_NS;
      SlotEpochIsUnique(now, i, Epoch(r.now));
    }
  }

  ghost function ShareBelow(log: seq<Request>, now: int, n: nat): Snapshot
    requires n <= SLOTS
  {
    if n == 0 then EMPTY_SNAPSHOT
    else AddTally(ShareBelow(log, now, n - 1), Share(Replay(log)[n - 1], SlotEpoch(now, n - 1)))
  }

  lemma {:induction false} SnapshotIsShares(log: seq<Request>, now: int, n: nat)
    requires n <= SLOTS && forall r :: r in log ==> Epoch(r.now) <= Epoch(now)
    ensures SnapshotOf(Replay(log)[..n], now) == ShareBelow(log, now, n)
  {
    hide Epoch, Replay, AddBucket, AddTally, Share, SlotEpoch;
    if n > 0 {
      SnapshotIsShares(log, now, n - 1);
      var ring := Replay(log);
      assert ring[..n][..n - 1] == ring[..n - 1];
      SlotContributes(log, now, n - 1, ShareBelow(log, now, n - 1));
    }
  }

  ghost predicate UnbrokenBelow(log: seq<Request>, now: int, n: nat)
    requires n <= SLOTS
  {
    n == 0 || (UnbrokenBelow(log, now, n - 1) && Unbroken(log, n - 1, SlotEpoch(now, n - 1)))
  }

  /** The window figures of the requests whose slot is below n. */
  ghost function TallyBelow(log: seq<Request>, now: int, n: nat): Snapshot
    requires n <= SLOTS
  {
    if n == 0 then EMPTY_SNAPSHOT else AddTally(TallyBelow(log, now, n - 1), EpochTally(log, SlotEpoch(now, n - 1)))
  }

  /** No slot holds more than the log, so the sums agree only if every slot does. */
  lemma {:induction false} SharesExactly(log: seq<Request>, now: int, n: nat)
    requires n <= SLOTS
    ensures UnbrokenBelow(log, now, n) ==> ShareBelow(log, now, n) == TallyBelow(log, now, n)
    ensures !UnbrokenBelow(log, now, n) ==> ShareBelow(log, now, n).Total() < TallyBelow(log, now, n).Total()
  {
    hide Epoch, Replay, Share, SlotEpoch, EpochTally, Unbroken;
    if n > 0 {
      SharesExactly(log, now, n - 1);
      SlotEpochIsUnique(now, n - 1, 0);
      SlotExactly(log, n - 1, SlotEpoch(now, n - 1));
    }
  }

  /** The requests of the window whose slot is below n. */
  predicate Counted(r: Request, now: int, n: nat) {
    InWindow(r, now) && Epoch(r.now) % SLOTS < n
  }

  function TallyCounted(log: seq<Request>, now: int, n: nat): Tally {
    if log == [] then Tally(0, 0, 0)
    else
      var before := TallyCounted(log[..|log| - 1], now, n);
      if Counted(log[|log| - 1], now, n) then before.Plus(log[|log| - 1]) else before
  }

  function Sum2(a: Tally, b: Tally): Tally {
    Tally(a.latencySum + b.latencySum, a.okCount + b.okCount, a.faulty + b.faulty)
  }

  lemma {:induction false} CountedGrows(log: seq<Request>, now: int, n: nat)
    requires n < SLOTS && (forall r :: r in log ==> Epoch(r.now) <= Epoch(now))
    ensures TallyCounted(log, now, n + 1) == Sum2(TallyCounted(log, now, n), EpochTally(log, SlotEpoch(now, n)))
  {
    hide Epoch, SlotEpoch;
    if log != [] {
      var m := |log| - 1;
      var r := log[m];
      CountedGrows(log[..m], now, n);
      assert r in log;
      SlotEpochIsUnique(now, n, Epoch(r.now));
    }
  }

  lemma {:induction false} TallyBelowIsCounted(log: seq<Request>, now: int, n: nat)
    requires n <= SLOTS && (forall r :: r in log ==> Epoch(r.now) <= Epoch(now))
    ensures var s := TallyBelow(log, now, n);
            Tally(s.latencySum, s.okCount, s.faulty) == TallyCounted(log, now, n)
  {
    hide Epoch, SlotEpoch, EpochTally, TallyCounted;
    if n == 0 {
      NothingCounted(log, now);
    } else {
      TallyBelowIsCounted(log, now, n - 1);
      CountedGrows(log, now, n - 1);
    }
  }

  lemma {:induction false} NothingCounted(log: seq<Request>, now: int)
    ensures TallyCounted(log, now, 0) == Tally(0, 0, 0)
  {
    if log != [] {
      NothingCounted(log[..|log| - 1], now);
    }
  }

  lemma {:induction false} AllCounted(log: seq<Request>, now: int)
    ensures TallyCounted(log, now, SLOTS) == WindowTally(log, now)
  {
    hide Epoch;
    if log != [] {
      AllCounted(log[..|log| - 1], now);
    }
  }

  ghost function EpochsBelow(log: seq<Request>, now: int, n: nat): set<int> {
    set r | r in log && Counted(r, now, n) :: Epoch(r.now)
  }

  lemma {:induction false} FilledIsDistinctEpochs(log: seq<Request>, now: int, n: nat)
    requires n <= SLOTS && (forall r :: r in log ==> Epoch(r.now) <= Epoch(now))
    ensures TallyBelow(log, now, n).filled == |EpochsBelow(log, now, n)|
  {
    hide Epoch, SlotEpoch, EpochTally;
    if n == 0 {
      assert EpochsBelow(log, now, 0) == {};
    } else {
      FilledIsDistinctEpochs(log, now, n - 1);
      EpochsGrow(log, now, n - 1);
    }
  }

  lemma EpochsGrow(log: seq<Request>, now: int, n: nat)
    requires n < SLOTS && (forall r :: r in log ==> Epoch(r.now) <= Epoch(now))
    ensures var t := EpochTally(log, SlotEpoch(now, n));
            |EpochsBelow(log, now, n + 1)| == |EpochsBelow(log, now, n)| + if t.okCount + t.faulty > 0 then 1 else 0
  {
    hide Epoch, SlotEpoch;
    var w := SlotEpoch(now, n);
    NoRequestNoTally(log, w);
    SlotEpochIsUnique(now, n, w);
    forall r | r in log
      ensures Counted(r, now, n + 1) <==> Counted(r, now, n) || Epoch(r.now) == w
      ensures Counted(r, now, n) ==> Epoch(r.now) != w
    {
      SlotEpochIsUnique(now, n, Epoch(r.now));
    }
    if r :| r in log && Epoch(r.now) == w {
      assert EpochsBelow(log, now, n + 1) == EpochsBelow(log, now, n) + {w};
      assert w !in EpochsBelow(log, now, n);
    } else {
      assert EpochsBelow(log, now, n + 1) == EpochsBelow(log, now, n);
    }
  }

  /** After a request of the window, its slot saw no older epoch. */
  ghost predicate WindowInOrder(log: seq<Request>, now: int) {
    forall a, b :: 0 <= a < b < |log| && InWindow(log[a], now) && Epoch(log[a].now) % SLOTS == Epoch(log[b].now) % SLOTS ==>
      Epoch(log[a].now) <= Epoch(log[b].now)
  }

  lemma OrderedSlot(log: seq<Request>, now: int, i: nat)
    requires i < SLOTS && WindowInOrder(log, now) && forall r :: r in log ==> Epoch(r.now) <= Epoch(now)
    ensures Unbroken(log, i, SlotEpoch(now, i))
  {
    hide Epoch, SlotEpoch;
    var w := SlotEpoch(now, i);
    SlotEpochIsUnique(now, i, w);
    forall a, b | 0 <= a < b < |log| && Epoch(log[a].now) == w && InSlot(log[b], i)
      ensures Epoch(log[b].now) == w
    {
      assert InWindow(log[a], now) && log[b] in log;
      SlotEpochIsUnique(now, i, Epoch(log[b].now));
    }
  }

  lemma {:induction false} OrderedSlots(log: seq<Request>, now: int, n: nat)
    requires n <= SLOTS && WindowInOrder(log, now) && forall r :: r in log ==> Epoch(r.now) <= Epoch(now)
    ensures UnbrokenBelow(log, now, n)
  {
    hide WindowInOrder, Unbroken, Epoch, SlotEpoch;
    if n > 0 {
      OrderedSlots(log, now, n - 1);
      OrderedSlot(log, now, n - 1);
    }
  }

  lemma {:induction false} UnbrokenAt(log: seq<Request>, now: int, n: nat, i: nat)
    requires i < n <= SLOTS && UnbrokenBelow(log, now, n)
    ensures Unbroken(log, i, SlotEpoch(now, i))
  {
    if i < n - 1 {
      UnbrokenAt(log, now, n - 1, i);
    }
  }

  lemma UnbrokenIsOrdered(log: seq<Request>, now: int)
    requires UnbrokenBelow(log, now, SLOTS) && forall r :: r in log ==> Epoch(r.now) <= Epoch(now)
    ensures WindowInOrder(log, now)
  {
    hide Epoch, SlotEpoch, UnbrokenBelow;
    forall a, b | 0 <= a < b < |log| && InWindow(log[a], now) && Epoch(log[a].now) % SLOTS == Epoch(log[b].now) % SLOTS
      ensures Epoch(log[a].now) <= Epoch(log[b].now)
    {
      var i := Epoch(log[a].now) % SLOTS;
      assert log[a] in log;
      SlotEpochIsUnique(now, i, Epoch(log[a].now));
      UnbrokenAt(log, now, SLOTS, i);
    }
  }

  /** The figures of the ring are those of the full log over the last six epochs: latency sum,
      counts, and the number of distinct epochs that saw a request. */
  ghost predicate SnapshotAgrees(log: seq<Request>, now: int) {
    var s := SnapshotOf(Replay(log), now);
    Tally(s.latencySum, s.okCount, s.faulty) == WindowTally(log, now) && s.filled == |WindowEpochs(log, now)|
  }

  lemma WindowIsTallyBelow(log: seq<Request>, now: int)
    requires forall r :: r in log ==> Epoch(r.now) <= Epoch(now)
    ensures var t := TallyBelow(log, now, SLOTS);
            Tally(t.latencySum, t.okCount, t.faulty) == WindowTally(log, now) && t.filled == |WindowEpochs(log, now)|
  {
    hide TallyBelow, TallyCounted, WindowTally, Epoch;
    TallyBelowIsCounted(log, now, SLOTS);
    AllCounted(log, now);
    FilledIsDistinctEpochs(log, now, SLOTS);
    assert EpochsBelow(log, now, SLOTS) == WindowEpochs(log, now);
  }

  /** For every log, in whatever order its requests were recorded, and every read no earlier than
      its newest epoch: the snapshot agrees with the log if and only if no slot of the window was
      given to an older epoch. */
  lemma SnapshotEqualsLogExactly(log: seq<Request>, now: int)
    requires forall r :: r in log ==> Epoch(r.now) <= Epoch(now)
    ensures SnapshotAgrees(log, now) <==> WindowInOrder(log, now)
  {
    hide Replay, TallyBelow, ShareBelow, UnbrokenBelow, WindowTally, WindowInOrder, Epoch, SnapshotOf;
    assert Replay(log)[..SLOTS] == Replay(log);
    SnapshotIsShares(log, now, SLOTS);
    SharesExactly(log, now, SLOTS);
    WindowIsTallyBelow(log, now);
    if WindowInOrder(log, now) {
      OrderedSlots(log, now, SLOTS);
    } else if UnbrokenBelow(log, now, SLOTS) {
      UnbrokenIsOrdered(log, now);
    }
  }

  /** Each counted bucket holds a request, whatever the log. */
  lemma {:induction false} FilledIsAtMostTotal(ring: seq<Bucket>, now: int)
    ensures SnapshotOf(ring, now).filled <= SnapshotOf(ring, now).Total()
  {
    if ring != [] {
      FilledIsAtMostTotal(ring[..|ring| - 1], now);
    }
  }

  lemma NotTooLateIsInOrder(log: seq<Request>, now: int)
    requires NotTooLate(log)
    ensures WindowInOrder(log, now)
  {
    hide Epoch;
    forall a, b | 0 <= a < b < |log| && Epoch(log[a].now) % SLOTS == Epoch(log[b].now) % SLOTS
      ensures Epoch(log[a].now) <= Epoch(log[b].now)
    {
      SameResidue(Epoch(log[a].now), Epoch(log[b].now));
    }
  }

  /** In particular for requests recorded less than six epochs out of order. */
  lemma SnapshotEqualsLog(log: seq<Request>, now: int)
    requires NotTooLate(log) && (forall r :: r in log ==> Epoch(r.now) <= Epoch(now))
    ensures SnapshotAgrees(log, now) && SnapshotOf(Replay(log), now).filled <= SnapshotOf(Replay(log), now).Total()
  {
    hide *;
    FilledIsAtMostTotal(Replay(log), now);
    NotTooLateIsInOrder(log, now);
    SnapshotEqualsLogExactly(log, now);
  }

  /** A request six epochs late erases a newer one of the window. */
  lemma SixEpochsLateErases()
    ensures var newer, late := Request(SLOTS * BUCKET_NS, 5, true), Request(0, 7, true);
            && !WindowInOrder([newer, late], newer.now)
            && WindowTally([newer, late], newer.now) == Tally(5, 1, 0)
            && SnapshotOf(Replay([newer, late]), newer.now) == EMPTY_SNAPSHOT
  {
    var newer, late := Request(SLOTS * BUCKET_NS, 5, true), Request(0, 7, true);
    var log := [newer, late];
    assert Epoch(newer.now) == 6 && Epoch(late.now) == 0;
    assert log[..1] == [newer] && [newer][..0] == [];
    assert !(Epoch(log[0].now) <= Epoch(log[1].now)) && InWindow(log[0], newer.now);
    assert Replay([newer]) == EMPTY_RING[0 := Bucket(6 * BUCKET_NS, 5, 1, 0)];
    var ring := Replay(log);
    assert ring == EMPTY_RING[0 := Bucket(0, 7, 1, 0)];
    AllInvisible(ring, newer.now);
    assert WindowTally([newer], newer.now) == Tally(5, 1, 0);
  }

  lemma {:induction false} AllInvisible(ring: seq<Bucket>, now: int)
    requires forall b :: b in ring ==> !Visible(b, now)
    ensures SnapshotOf(ring, now) == EMPTY_SNAPSHOT
  {
    if ring != [] {
      AllInvisible(ring[..|ring| - 1], now);
    }
  }
}
