/**
 The latency histogram: fixed-width buckets with an overflow bucket, and quantiles read off the
 bucket counts, against the order statistics of the samples that were recorded.
 */
module Latency {
  import opened Words

  const BUCKET_WIDTH: nat := 1000
  const BUCKETS: nat := 20000

  /** The bucket of a latency; everything from 20 ms on shares the last one. */
  function BucketOf(ns: nat): (b: nat)
    ensures b <= BUCKETS
  {
    if ns / BUCKET_WIDTH < BUCKETS then ns / BUCKET_WIDTH else BUCKETS
  }

  // Counting samples

  function InBucket(log: seq<nat>, b: nat): nat {
    if log == [] then 0 else InBucket(log[..|log| - 1], b) + if BucketOf(log[|log| - 1]) == b then 1 else 0
  }

  /** Samples in buckets before `b`. */
  function Before(log: seq<nat>, b: nat): nat {
    if log == [] then 0 else Before(log[..|log| - 1], b) + if BucketOf(log[|log| - 1]) < b then 1 else 0
  }

  /** Samples below `bound`. */
  function Less(log: seq<nat>, bound: nat): (n: nat)
    ensures n <= |log|
  {
    if log == [] then 0 else Less(log[..|log| - 1], bound) + if log[|log| - 1] < bound then 1 else 0
  }

  function Max(log: seq<nat>): nat {
    if log == [] then 0
    else
      var m := Max(log[..|log| - 1]);
      if m < log[|log| - 1] then log[|log| - 1] else m
  }

  lemma {:induction false} BeforeNext(log: seq<nat>, b: nat)
    ensures Before(log, b + 1) == Before(log, b) + InBucket(log, b)
  {
    if log != [] {
      BeforeNext(log[..|log| - 1], b);
    }
  }

  lemma {:induction false} BeforeZero(log: seq<nat>)
    ensures Before(log, 0) == 0
  {
    if log != [] {
      BeforeZero(log[..|log| - 1]);
    }
  }

  lemma {:induction false} BeforeAll(log: seq<nat>)
    ensures Before(log, BUCKETS + 1) == |log|
  {
    if log != [] {
      BeforeAll(log[..|log| - 1]);
    }
  }

  /** Samples in buckets before that of `v` are below `v`; those up to `v` are in buckets up to it. */
  lemma {:induction false} BucketsAndRanks(log: seq<nat>, b: nat, v: nat)
    ensures b <= BucketOf(v) ==> Before(log, b) <= Less(log, v)
    ensures Less(log, v + 1) <= Before(log, BucketOf(v) + 1)
  {
    if log != [] {
      BucketsAndRanks(log[..|log| - 1], b, v);
    }
  }

  // Order statistics

  /** `v` is the `k`-th smallest sample, counting from 1: fewer than `k` are below it, `k` up to it. */
  ghost predicate IsKth(log: seq<nat>, k: nat, v: nat) {
    Less(log, v) < k <= Less(log, v + 1)
  }

  lemma {:induction false} LessMonotone(log: seq<nat>, a: nat, b: nat)
    requires a <= b
    ensures Less(log, a) <= Less(log, b)
  {
    if log != [] {
      LessMonotone(log[..|log| - 1], a, b);
    }
  }

  lemma {:induction false} LessZero(log: seq<nat>)
    ensures Less(log, 0) == 0
  {
    if log != [] {
      LessZero(log[..|log| - 1]);
    }
  }

  lemma {:induction false} LessAboveMax(log: seq<nat>, bound: nat)
    requires Max(log) < bound
    ensures Less(log, bound) == |log|
  {
    if log != [] {
      LessAboveMax(log[..|log| - 1], bound);
    }
  }

  lemma {:induction false} FindKth(log: seq<nat>, k: nat, hi: nat) returns (v: nat)
    requires 0 < k <= Less(log, hi)
    ensures IsKth(log, k, v) && v < hi
    decreases hi
  {
    LessZero(log);
    if Less(log, hi - 1) < k {
      v := hi - 1;
    } else {
      v := FindKth(log, k, hi - 1);
    }
  }

  lemma KthUnique(log: seq<nat>, j: nat, k: nat, v: nat, w: nat)
    requires IsKth(log, j, v) && IsKth(log, k, w) && j <= k
    ensures v <= w
    ensures v <= Max(log)
  {
    if w < v {
      LessMonotone(log, w + 1, v);
      assert false;
    }
    if Max(log) < v {
      LessAboveMax(log, v);
      assert false;
    }
  }

  // The same by sorting

  ghost predicate Sorted(s: seq<nat>) {
    forall i, j :: 0 <= i < j < |s| ==> s[i] <= s[j]
  }

  lemma {:induction false} LessRemove(s: seq<nat>, j: nat, bound: nat)
    requires j < |s|
    ensures Less(s, bound) == Less(s[..j] + s[j + 1..], bound) + if s[j] < bound then 1 else 0
  {
    var n := |s| - 1;
    if j < n {
      LessRemove(s[..n], j, bound);
      assert (s[..j] + s[j + 1..])[..n - 1] == s[..n][..j] + s[..n][j + 1..];
    } else {
      assert s[..j] + s[j + 1..] == s[..n];
    }
  }

  lemma {:induction false} LessPermuted(a: seq<nat>, b: seq<nat>, bound: nat)
    requires multiset(a) == multiset(b)
    ensures Less(a, bound) == Less(b, bound)
  {
    assert |multiset(a)| == |a| && |multiset(b)| == |b|;
    if a == [] {
      assert b == [];
    } else {
      hide Less;
      var n := |a| - 1;
      var j := WithoutOne(a, b);
      LessPermuted(a[..n], b[..j] + b[j + 1..], bound);
      LessRemove(b, j, bound);
      LessRemove(a, n, bound);
      assert a[..n] + a[n + 1..] == a[..n];
    }
  }

  lemma WithoutOne(a: seq<nat>, b: seq<nat>) returns (j: nat)
    requires multiset(a) == multiset(b) && a != []
    ensures j < |b| && b[j] == a[|a| - 1] && multiset(b[..j] + b[j + 1..]) == multiset(a[..|a| - 1])
  {
    var n := |a| - 1;
    assert a == a[..n] + [a[n]];
    assert a[n] in multiset(b);
    j :| 0 <= j < |b| && b[j] == a[n];
    assert b == b[..j] + [b[j]] + b[j + 1..];
    assert multiset(b[..j] + b[j + 1..]) == multiset(b) - multiset{a[n]};
  }

  lemma {:induction false} LessSplit(s: seq<nat>, m: nat, bound: nat)
    requires m <= |s|
    ensures (forall i :: m <= i < |s| ==> s[i] >= bound) ==> Less(s, bound) <= m
    ensures (forall i :: 0 <= i < m ==> s[i] < bound) ==> Less(s, bound) >= m
  {
    if m < |s| {
      var n := |s| - 1;
      LessSplit(s[..n], m, bound);
      assert forall i :: m <= i < n ==> s[..n][i] == s[i];
    } else if m > 0 {
      LessSplit(s[..m - 1], m - 1, bound);
      assert forall i :: 0 <= i < m - 1 ==> s[..m - 1][i] == s[i];
    }
  }

  /** The `k`-th smallest sample is the one at place `k` when the samples are sorted. */
  lemma KthWhenSorted(log: seq<nat>, sorted: seq<nat>, k: nat)
    requires multiset(sorted) == multiset(log) && Sorted(sorted) && 0 < k <= |sorted|
    ensures IsKth(log, k, sorted[k - 1])
  {
    var v := sorted[k - 1];
    LessPermuted(log, sorted, v);
    LessPermuted(log, sorted, v + 1);
    LessSplit(sorted, k - 1, v);
    LessSplit(sorted, k, v + 1);
  }

  lemma {:induction false} MaxIsLargest(log: seq<nat>)
    ensures forall i :: 0 <= i < |log| ==> log[i] <= Max(log)
    ensures log != [] ==> exists i :: 0 <= i < |log| && log[i] == Max(log)
  {
    if |log| == 1 {
      assert log[..0] == [];
    } else if log != [] {
      var n := |log| - 1;
      MaxIsLargest(log[..n]);
      var i :| 0 <= i < n && log[..n][i] == Max(log[..n]);
      assert log[i] == Max(log) || log[n] == Max(log);
    }
  }

  // Quantiles

  datatype Snapshot = Snapshot(samples: Word, p50: nat, p99: nat, p999: nat, maxNs: nat, overflow: Word)

  /** The number of samples a quantile must cover, exactly. */
  function Ceil(n: nat, num: nat, den: nat): nat
    requires den > 0
  {
    (n * num + den - 1) / den
  }

  /** It is the least number of samples that is at least the fraction `num / den` of all. */
  lemma CeilIsLeast(n: nat, num: nat, den: nat)
    requires den > 0
    ensures den * Ceil(n, num, den) >= n * num
    ensures Ceil(n, num, den) > 0 ==> den * (Ceil(n, num, den) - 1) < n * num
  {
    var x := n * num + den - 1;
    var q := x / den;
    assert den * q <= x < den * q + den;
    MulMonotone(den, q, q - 1);
  }

  /** The same number as the code computes it, on wrapping 64-bit arithmetic. */
  function Target(n: Word, num: nat, den: nat): nat
    requires den > 0
  {
    var t := ((n * num + den - 1) % TWO_64) / den;
    if t < 1 then 1 else t
  }

  /** The first bucket at which the running (wrapping) count reaches the target, or the end. */
  function Scan(counts: seq<Word>, target: nat, i: nat, seen: Word): (k: nat)
    requires i <= |counts|
    ensures i <= k <= |counts|
    decreases |counts| - i
  {
    if i == |counts| then i
    else
      var s := (seen + counts[i]) % TWO_64;
      if s >= target then i else Scan(counts, target, i + 1, s)
  }

  /** What a quantile reports for the bucket found. */
  function Edge(b: nat, maxNs: nat): nat {
    if b >= BUCKETS then maxNs else (b + 1) * BUCKET_WIDTH
  }

  /** `quantile_ns`: walk the counts until the target is reached. */
  method Quantile(counts: seq<Word>, samples: Word, maxNs: nat, num: nat, den: nat) returns (q: nat)
    requires den > 0 && |counts| == BUCKETS + 1
    ensures q == Edge(Scan(counts, Target(samples, num, den), 0, 0), maxNs)
  {
    var target := Target(samples, num, den);
    var seen: Word := 0;
    for i := 0 to |counts|
      invariant Scan(counts, target, 0, 0) == Scan(counts, target, i, seen)
    {
      seen := (seen + counts[i]) % TWO_64;
      if seen >= target {
        if i >= BUCKETS {
          return maxNs;
        }
        return (i + 1) * BUCKET_WIDTH;
      }
    }
    q := maxNs;
  }

  /** The histogram of a log without wrap-around. */
  ghost predicate CountsOf(counts: seq<Word>, log: seq<nat>) {
    |counts| == BUCKETS + 1 && |log| < TWO_64 && forall b :: 0 <= b <= BUCKETS ==> counts[b] == InBucket(log, b)
  }

  /** The scan stops exactly at the bucket of the sample of that rank, never at the end. */
  lemma {:induction false} ScanFindsRank(counts: seq<Word>, log: seq<nat>, k: nat, v: nat, i: nat)
    requires CountsOf(counts, log) && IsKth(log, k, v) && i <= BucketOf(v)
    ensures Before(log, i) < TWO_64 && Scan(counts, k, i, Before(log, i)) == BucketOf(v)
    decreases BUCKETS - i
  {
    BucketsAndRanks(log, i + 1, v);
    BeforeNext(log, i);
    BeforeFits(log, i);
    BeforeFits(log, i + 1);
    ScanStep(counts, k, i, Before(log, i), Before(log, i + 1));
    if i < BucketOf(v) {
      ScanFindsRank(counts, log, k, v, i + 1);
    }
  }

  lemma ScanStep(counts: seq<Word>, k: nat, i: nat, seen: Word, next: Word)
    requires i < |counts| && next == seen + counts[i]
    ensures Scan(counts, k, i, seen) == if next >= k then i else Scan(counts, k, i + 1, next)
  {
  }

  lemma {:induction false} BeforeFits(log: seq<nat>, b: nat)
    ensures Before(log, b) <= |log|
  {
    if log != [] {
      BeforeFits(log[..|log| - 1], b);
    }
  }

  /**
   The wrapping target equals the exact one if and only if `n * num + den - 1` fits in 64 bits.
   */
  lemma TargetExactIff(n: Word, num: nat, den: nat)
    requires n > 0 && 0 < num <= den <= 1000
    ensures Target(n, num, den) == Ceil(n, num, den) <==> n * num + den - 1 < TWO_64
  {
    var x := n * num + den - 1;
    MulMonotone(num, 1, n);
    if x < TWO_64 {
      CeilPositive(x, den);
    } else {
      WrappedQuotient(x, den);
    }
  }

  lemma CeilPositive(x: nat, den: nat)
    requires 0 < den <= x
    ensures x / den >= 1
  {
  }

  lemma WrappedQuotient(x: nat, den: nat)
    requires 0 < den <= 1000 && x >= TWO_64
    ensures (x % TWO_64) / den < x / den && x / den > 1
  {
    var y := x % TWO_64;
    assert y <= x - TWO_64;
    QuotientGrows(y, x, den);
    QuotientGrows(0, x, den);
  }

  lemma QuotientGrows(y: nat, x: nat, den: nat)
    requires den > 0 && y + 2 * den <= x
    ensures y / den + 1 < x / den
  {
    var a, b := y / den, x / den;
    assert y >= den * a && x < den * b + den;
    MulMonotone(den, b, a + 1);
  }

  lemma MulMonotone(m: nat, a: int, b: int)
    ensures a <= b ==> m * a <= m * b
    ensures m * (b + 1) == m * b + m
  {
  }

  lemma CeilInRange(n: nat, num: nat, den: nat)
    requires n > 0 && 0 < num <= den
    ensures 0 < Ceil(n, num, den) <= n
  {
    var x := n * num + den - 1;
    assert n * num >= num && n * num <= n * den;
    DivBounds(x, den, n);
  }

  lemma DivBounds(x: nat, den: nat, n: nat)
    requires 0 < den <= x <= n * den + den - 1
    ensures 0 < x / den <= n
  {
    var q := x / den;
    assert den * q <= x < den * q + den;
    MulMonotone(den, n + 1, q);
    MulMonotone(den, n, n);
  }

  /**
   A quantile reported without a concurrent recorder is the upper edge of the bucket that holds
   the sample of rank `ceil(n * num / den)`, or the exact maximum if that sample is 20 ms or more.
   */
  lemma QuantileIsOrderStatistic(counts: seq<Word>, log: seq<nat>, num: nat, den: nat)
    returns (v: nat)
    requires CountsOf(counts, log) && log != [] && 0 < num <= den <= 1000
    requires |log| * num + den - 1 < TWO_64
    ensures IsKth(log, Ceil(|log|, num, den), v) && v <= Max(log)
    ensures var k := Scan(counts, Target(|log|, num, den), 0, 0);
            && k == BucketOf(v)
            && (v < BUCKETS * BUCKET_WIDTH ==> Edge(k, Max(log)) - BUCKET_WIDTH <= v < Edge(k, Max(log)))
            && (v >= BUCKETS * BUCKET_WIDTH ==> Edge(k, Max(log)) == Max(log))
  {
    var k := Ceil(|log|, num, den);
    CeilInRange(|log|, num, den);
    TargetExactIff(|log|, num, den);
    LessAboveMax(log, Max(log) + 1);
    v := FindKth(log, k, Max(log) + 1);
    BeforeZero(log);
    ScanFindsRank(counts, log, k, v, 0);
    KthUnique(log, k, k, v, v);
  }

  lemma EdgeMonotone(v: nat, w: nat, maxNs: nat)
    requires v <= w <= maxNs
    ensures Edge(BucketOf(v), maxNs) <= Edge(BucketOf(w), maxNs)
  {
  }

  lemma CeilOrdered(n: nat)
    ensures Ceil(n, 50, 100) <= Ceil(n, 99, 100) <= Ceil(n, 999, 1000)
  {
    var a, b, c := Ceil(n, 50, 100), Ceil(n, 99, 100), Ceil(n, 999, 1000);
    assert 100 * b <= 99 * n + 99 && 999 * n + 999 < 1000 * c + 1000;
  }

  function Reported(counts: seq<Word>, samples: Word, maxNs: nat, num: nat, den: nat): nat
    requires den > 0
  {
    Edge(Scan(counts, Target(samples, num, den), 0, 0), maxNs)
  }

  /** The three quantiles of one snapshot are in order. */
  lemma QuantilesOrdered(counts: seq<Word>, log: seq<nat>)
    requires CountsOf(counts, log) && log != [] && |log| * 999 + 999 < TWO_64
    ensures var n, m := |log|, Max(log);
            Reported(counts, n, m, 50, 100) <= Reported(counts, n, m, 99, 100) <= Reported(counts, n, m, 999, 1000)
  {
    CeilOrdered(|log|);
    var p50 := QuantileIsOrderStatistic(counts, log, 50, 100);
    var p99 := QuantileIsOrderStatistic(counts, log, 99, 100);
    var p999 := QuantileIsOrderStatistic(counts, log, 999, 1000);
    KthUnique(log, Ceil(|log|, 50, 100), Ceil(|log|, 99, 100), p50, p99);
    KthUnique(log, Ceil(|log|, 99, 100), Ceil(|log|, 999, 1000), p99, p999);
    EdgeMonotone(p50, p99, Max(log));
    EdgeMonotone(p99, p999, Max(log));
  }

  /** Wrapping spoils it: with `2^63` samples the median's target is the first sample. */
  lemma WrappedMedian()
    ensures Target(0x8000_0000_0000_0000, 50, 100) == 1
    ensures Ceil(0x8000_0000_0000_0000, 50, 100) == 0x4000_0000_0000_0000
  {
  }

  /** The bucket counters after recording `log`. */
  function Histogram(log: seq<nat>): (counts: seq<Word>)
    ensures |counts| == BUCKETS + 1
  {
    seq(BUCKETS + 1, (b: nat) => InBucket(log, b) % TWO_64)
  }

  lemma {:induction false} InBucketFits(log: seq<nat>, b: nat)
    ensures InBucket(log, b) <= |log|
  {
    if log != [] {
      InBucketFits(log[..|log| - 1], b);
    }
  }

  lemma HistogramCounts(log: seq<nat>)
    requires |log| < TWO_64
    ensures CountsOf(Histogram(log), log)
  {
    forall b | 0 <= b <= BUCKETS
      ensures Histogram(log)[b] == InBucket(log, b)
    {
      InBucketFits(log, b);
    }
  }

  /**
   `q` is what should be reported for the fraction `num / den` of the samples: the upper edge of the
   microsecond that holds the sample of that rank, or the maximum if that sample is 20 ms or more.
   */
  ghost predicate IsQuantile(q: nat, log: seq<nat>, num: nat, den: nat)
    requires den > 0
  {
    && (exists v: nat :: IsKth(log, Ceil(|log|, num, den), v))
    && forall v: nat :: IsKth(log, Ceil(|log|, num, den), v) ==>
         && (v < 20_000_000 ==> q % 1000 == 0 && q - 1000 <= v < q)
         && (v >= 20_000_000 ==> q == Max(log))
  }

  lemma ReportedIsQuantile(log: seq<nat>, num: nat, den: nat)
    requires log != [] && 0 < num <= den <= 1000 && |log| * num + den - 1 < TWO_64 && |log| < TWO_64
    ensures IsQuantile(Reported(Histogram(log), |log|, Max(log), num, den), log, num, den)
  {
    HistogramCounts(log);
    hide Histogram, Scan, Less, Ceil, Target, InBucket, IsKth;
    var k := Ceil(|log|, num, den);
    var v := QuantileIsOrderStatistic(Histogram(log), log, num, den);
    forall w: nat | IsKth(log, k, w)
      ensures w == v
    {
      KthUnique(log, k, k, v, w);
      KthUnique(log, k, k, w, v);
    }
    EdgeIsMultiple(v, Max(log));
  }

  lemma EdgeIsMultiple(v: nat, maxNs: nat)
    ensures v < 20_000_000 ==> Edge(BucketOf(v), maxNs) % 1000 == 0
    ensures v < 20_000_000 <==> v < BUCKETS * BUCKET_WIDTH
    ensures BUCKET_WIDTH == 1000
  {
  }

  lemma SnapshotIsExact(log: seq<nat>)
    requires log != [] && |log| * 999 + 999 < TWO_64
    ensures |log| < TWO_64 && |log| % TWO_64 == |log|
    ensures IsQuantile(Reported(Histogram(log), |log|, Max(log), 50, 100), log, 50, 100)
    ensures IsQuantile(Reported(Histogram(log), |log|, Max(log), 99, 100), log, 99, 100)
    ensures IsQuantile(Reported(Histogram(log), |log|, Max(log), 999, 1000), log, 999, 1000)
  {
    hide IsQuantile, Reported, Histogram, Max;
    ReportedIsQuantile(log, 50, 100);
    ReportedIsQuantile(log, 99, 100);
    ReportedIsQuantile(log, 999, 1000);
  }

  /** The last bucket counts the samples of 20 ms and more. */
  lemma OverflowCounts(log: seq<nat>)
    ensures |log| < TWO_64 ==> Histogram(log)[BUCKETS] == |log| - Less(log, 20_000_000)
  {
    hide InBucket, Less;
    InLastBucket(log);
    InBucketFits(log, BUCKETS);
    assert Histogram(log)[BUCKETS] == InBucket(log, BUCKETS) % TWO_64;
  }

  lemma {:induction false} InLastBucket(log: seq<nat>)
    ensures InBucket(log, BUCKETS) == |log| - Less(log, 20_000_000)
  {
    if log != [] {
      InLastBucket(log[..|log| - 1]);
    }
  }

  class Recorder {
    const buckets: array<Word>
    var samples: Word
    var maxNs: nat
    ghost var log: seq<nat>

    ghost predicate Valid()
      reads this, buckets
    {
      && buckets.Length == BUCKETS + 1 && buckets[..] == Histogram(log)
      && samples == |log| % TWO_64 && maxNs == Max(log)
    }

    constructor ()
      ensures Valid() && log == [] && fresh(buckets)
    {
      buckets := new Word[BUCKETS + 1](_ => 0);
      samples, maxNs := 0, 0;
      log := [];
      new;
      assert buckets[..] == Histogram(log);
    }

    /** `record_latency`; the weak compare-and-swap may fail `spurious` times. */
    method Record(ns: Word, spurious: nat)
      requires Valid()
      modifies this, buckets
      ensures Valid() && log == old(log) + [ns]
    {
      var bucket := BucketOf(ns);
      buckets[bucket] := Inc(buckets[bucket]);
      samples := Inc(samples);
      var current, failures := maxNs, spurious;
      while current < ns
        invariant current == maxNs && (maxNs == old(maxNs) || (maxNs == ns && old(maxNs) < ns))
        invariant buckets[..] == old(buckets[..])[bucket := Inc(old(buckets[bucket]))]
        invariant samples == Inc(old(samples)) && log == old(log)
        decreases failures, if current < ns then 1 else 0
      {
        if failures == 0 {
          maxNs := ns;
          current := ns;
        } else {
          failures := failures - 1;
          current := maxNs;
        }
      }
      log := log + [ns];
      HistogramStep(old(log), ns);
    }

    /** `snapshot_latency`: drain every counter, then report on what was drained. */
    method TakeSnapshot() returns (snap: Snapshot)
      requires Valid()
      modifies this, buckets
      ensures Valid() && log == []
      ensures var n: Word, m := |old(log)| % TWO_64, Max(old(log));
              && snap.samples == n && snap.maxNs == m && snap.overflow == Histogram(old(log))[BUCKETS]
              && snap.p50 == (if n == 0 then 0 else Reported(Histogram(old(log)), n, m, 50, 100))
              && snap.p99 == (if n == 0 then 0 else Reported(Histogram(old(log)), n, m, 99, 100))
              && snap.p999 == (if n == 0 then 0 else Reported(Histogram(old(log)), n, m, 999, 1000))
      ensures old(log) != [] && |old(log)| * 999 + 999 < TWO_64 ==>
                && IsQuantile(snap.p50, old(log), 50, 100) && IsQuantile(snap.p99, old(log), 99, 100)
                && IsQuantile(snap.p999, old(log), 999, 1000)
      ensures |old(log)| < TWO_64 ==>
                snap.samples == |old(log)| && snap.overflow == |old(log)| - Less(old(log), 20_000_000)
      ensures old(log) == [] ==> snap == Snapshot(0, 0, 0, 0, 0, 0)
    {
      hide IsQuantile, Scan, Target, Edge;
      var counts: seq<Word> := [];
      for i := 0 to BUCKETS + 1
        invariant counts == old(buckets[..i]) && samples == old(samples) && maxNs == old(maxNs)
        invariant forall j :: i <= j <= BUCKETS ==> buckets[j] == old(buckets[j])
        invariant forall j :: 0 <= j < i ==> buckets[j] == 0
      {
        assert old(buckets[..i + 1]) == old(buckets[..i]) + [old(buckets[i])];
        counts := counts + [buckets[i]];
        buckets[i] := 0;
      }
      assert counts == Histogram(old(log));
      OverflowCounts(old(log));
      snap := Snapshot(samples, 0, 0, 0, maxNs, counts[BUCKETS]);
      samples, maxNs := 0, 0;
      log := [];
      assert buckets[..] == Histogram([]);
      if snap.samples == 0 {
        return;
      }
      var p50 := Quantile(counts, snap.samples, snap.maxNs, 50, 100);
      var p99 := Quantile(counts, snap.samples, snap.maxNs, 99, 100);
      var p999 := Quantile(counts, snap.samples, snap.maxNs, 999, 1000);
      snap := snap.(p50 := p50, p99 := p99, p999 := p999);
      if |old(log)| * 999 + 999 < TWO_64 {
        SnapshotIsExact(old(log));
      }
    }
  }

  lemma HistogramStep(log: seq<nat>, ns: nat)
    ensures var b := BucketOf(ns); Histogram(log + [ns]) == Histogram(log)[b := Inc(Histogram(log)[b])]
    ensures Max(log + [ns]) == if Max(log) < ns then ns else Max(log)
    ensures |log + [ns]| % TWO_64 == Inc(|log| % TWO_64)
  {
    assert (log + [ns])[..|log|] == log;
    HistogramBuckets(log, ns);
  }

  lemma HistogramBuckets(log: seq<nat>, ns: nat)
    ensures var b := BucketOf(ns); Histogram(log + [ns]) == Histogram(log)[b := Inc(Histogram(log)[b])]
  {
    hide InBucket;
    var b := BucketOf(ns);
    var before, after := Histogram(log), Histogram(log + [ns]);
    forall i | 0 <= i <= BUCKETS
      ensures after[i] == if i == b then Inc(before[b]) else before[i]
    {
      InBucketStep(log, ns, i);
    }
  }

  lemma InBucketStep(log: seq<nat>, ns: nat, i: nat)
    ensures InBucket(log + [ns], i) == InBucket(log, i) + if BucketOf(ns) == i then 1 else 0
  {
    assert (log + [ns])[..|log|] == log;
  }
}
