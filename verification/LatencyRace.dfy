/**
 One thread recording latencies while another drains the counters for a snapshot, interleaved at
 every atomic operation on wrapping 64-bit counters: nothing recorded is lost or counted twice.
 */
module LatencyRace {
  import opened Words
  import opened Latency

  /** The recorder's next atomic operation; `Swap` is the weak compare-and-swap on the maximum. */
  datatype RecordPc = AddBucket | AddSample(ns: nat) | LoadMax(ns: nat) | Swap(ns: nat, expected: nat)

  datatype SnapPc = Waiting | DrainBucket(i: nat) | DrainSamples | DrainMax

  /**
   The shared counters and both program counters. The other fields record the run: samples whose
   bucket was incremented, samples recorded completely, and what the snapshots have drained.
   */
  datatype State = State(
    buckets: seq<Word>, samples: Word, maxNs: nat, recorder: RecordPc, snapshotter: SnapPc,
    logged: seq<nat>, finished: seq<nat>, drained: seq<nat>, drainedSamples: nat, drainedMax: nat)

  function Finish(s: State, ns: nat): State {
    s.(recorder := AddBucket, finished := s.finished + [ns])
  }

  /** The loop condition after `current_max` was read as `current`. */
  function Compare(s: State, ns: nat, current: nat): State {
    if current < ns then s.(recorder := Swap(ns, current)) else Finish(s, ns)
  }

  function RecordStep(s: State, ns: nat, spurious: bool): State
    requires |s.buckets| == BUCKETS + 1
  {
    match s.recorder
    case AddBucket =>
      s.(buckets := s.buckets[BucketOf(ns) := Inc(s.buckets[BucketOf(ns)])],
         logged := s.logged + [ns], recorder := AddSample(ns))
    case AddSample(x) => s.(samples := Inc(s.samples), recorder := LoadMax(x))
    case LoadMax(x) => Compare(s, x, s.maxNs)
    case Swap(x, expected) =>
      if s.maxNs == expected && !spurious then Finish(s.(maxNs := x), x) else Compare(s, x, s.maxNs)
  }

  function Larger(a: nat, b: nat): nat {
    if a < b then b else a
  }

  function SnapStep(s: State): State
    requires |s.buckets| == |s.drained| == BUCKETS + 1
  {
    match s.snapshotter
    case Waiting => s.(snapshotter := DrainBucket(0))
    case DrainBucket(i) =>
      if i <= BUCKETS then
        s.(buckets := s.buckets[i := 0], drained := s.drained[i := s.drained[i] + s.buckets[i]],
           snapshotter := DrainBucket(i + 1))
      else
        s.(snapshotter := DrainSamples)
    case DrainSamples =>
      s.(samples := 0, drainedSamples := s.drainedSamples + s.samples, snapshotter := DrainMax)
    case DrainMax => s.(maxNs := 0, drainedMax := Larger(s.drainedMax, s.maxNs), snapshotter := Waiting)
  }

  ghost predicate Init(s: State) {
    && s.buckets == seq(BUCKETS + 1, _ => 0) && s.drained == seq(BUCKETS + 1, _ => 0)
    && s.samples == 0 && s.maxNs == 0 && s.drainedSamples == 0 && s.drainedMax == 0
    && s.recorder == AddBucket && s.snapshotter == Waiting && s.logged == [] && s.finished == []
  }

  ghost predicate Next(s: State, s': State) {
    && |s.buckets| == |s.drained| == BUCKETS + 1
    && ((exists ns, spurious :: s' == RecordStep(s, ns, spurious)) || s' == SnapStep(s))
  }

  ghost predicate Run(run: seq<State>) {
    && run != [] && Init(run[0])
    && forall i :: 0 <= i && i + 1 < |run| ==> Next(run[i], run[i + 1])
  }

  /** The largest value any snapshot has reported or will find. */
  function Top(s: State): nat {
    Larger(s.maxNs, s.drainedMax)
  }

  /** `total` is `count` modulo 2^64, and `count` itself as long as that fits in 64 bits. */
  ghost predicate Adds(total: nat, count: nat, logged: nat) {
    total % TWO_64 == count % TWO_64 && (logged < TWO_64 ==> total == count)
  }

  /** Each bucket's drained total and residue add up to its increments; likewise the samples. */
  ghost predicate CountsOk(s: State) {
    && |s.buckets| == |s.drained| == BUCKETS + 1 && (s.recorder.AddSample? ==> s.logged != [])
    && (forall b :: 0 <= b <= BUCKETS ==> Adds(s.buckets[b] + s.drained[b], InBucket(s.logged, b), |s.logged|))
    && Adds(s.samples + s.drainedSamples, SamplesAdded(s), |s.logged|)
  }

  /** The samples counted: all that were logged but for one between its two increments. */
  function SamplesAdded(s: State): nat {
    if s.recorder.AddSample? && s.logged != [] then |s.logged| - 1 else |s.logged|
  }

  /** No maximum is lost: the top dominates every finished record and is itself a recorded value. */
  ghost predicate MaxOk(s: State) {
    && s.logged == s.finished + (if s.recorder.AddBucket? then [] else [s.recorder.ns])
    && (forall k :: 0 <= k < |s.finished| ==> s.finished[k] <= Top(s))
    && (Top(s) == 0 || Top(s) in s.logged)
    && (s.recorder.Swap? ==> s.recorder.expected < s.recorder.ns)
  }

  lemma IncAdds(x: Word, drained: nat, count: nat, logged: nat)
    requires Adds(x + drained, count, logged) && count + 1 <= logged
    ensures Adds(Inc(x) + drained, count + 1, logged)
  {
    assert Inc(x) == x + 1 || Inc(x) == x + 1 - TWO_64;
  }

  lemma AddsStays(total: nat, count: nat, logged: nat)
    requires Adds(total, count, logged)
    ensures Adds(total, count, logged + 1)
  {
  }

  lemma AddBucketKeeps(s: State, ns: nat, spurious: bool, b: nat)
    requires CountsOk(s) && s.recorder.AddBucket? && b <= BUCKETS
    ensures var s' := RecordStep(s, ns, spurious);
            Adds(s'.buckets[b] + s'.drained[b], InBucket(s'.logged, b), |s'.logged|)
  {
    hide Adds, InBucket;
    InBucketStep(s.logged, ns, b);
    InBucketFits(s.logged, b);
    AddsStays(s.buckets[b] + s.drained[b], InBucket(s.logged, b), |s.logged|);
    if b == BucketOf(ns) {
      IncAdds(s.buckets[b], s.drained[b], InBucket(s.logged, b), |s.logged| + 1);
    }
  }

  lemma RecordKeepsCounts(s: State, ns: nat, spurious: bool)
    requires CountsOk(s)
    ensures CountsOk(RecordStep(s, ns, spurious))
  {
    hide Adds, InBucket;
    var s' := RecordStep(s, ns, spurious);
    if s.recorder.AddBucket? {
      forall b | 0 <= b <= BUCKETS
        ensures Adds(s'.buckets[b] + s'.drained[b], InBucket(s'.logged, b), |s'.logged|)
      {
        AddBucketKeeps(s, ns, spurious, b);
      }
      AddsStays(s.samples + s.drainedSamples, |s.logged|, |s.logged|);
    } else if s.recorder.AddSample? {
      IncAdds(s.samples, s.drainedSamples, SamplesAdded(s), |s.logged|);
    }
  }

  lemma SnapKeepsCounts(s: State)
    requires CountsOk(s)
    ensures CountsOk(SnapStep(s))
  {
    hide Adds, InBucket;
  }

  lemma RecordKeepsMax(s: State, ns: nat, spurious: bool)
    requires |s.buckets| == BUCKETS + 1 && MaxOk(s)
    ensures MaxOk(RecordStep(s, ns, spurious))
  {
    var s' := RecordStep(s, ns, spurious);
    if !s.recorder.AddBucket? {
      assert s'.logged == s.logged && s.logged[|s.finished|] == s.recorder.ns;
    }
  }

  lemma SnapKeepsMax(s: State)
    requires |s.buckets| == |s.drained| == BUCKETS + 1 && MaxOk(s)
    ensures MaxOk(SnapStep(s))
  {
    assert Top(SnapStep(s)) == Top(s);
  }

  lemma {:induction false} RunKeeps(run: seq<State>, i: nat)
    requires Run(run) && i < |run|
    ensures CountsOk(run[i]) && MaxOk(run[i])
  {
    if i > 0 {
      RunKeeps(run, i - 1);
      var s, s' := run[i - 1], run[i];
      assert Next(s, run[i - 1 + 1]);
      if s' == SnapStep(s) {
        SnapKeepsCounts(s);
        SnapKeepsMax(s);
      } else {
        var ns, spurious :| s' == RecordStep(s, ns, spurious);
        RecordKeepsCounts(s, ns, spurious);
        RecordKeepsMax(s, ns, spurious);
      }
    }
  }

  function Sum(q: seq<nat>): nat {
    if q == [] then 0 else Sum(q[..|q| - 1]) + q[|q| - 1]
  }

  lemma {:induction false} SumsAreLog(log: seq<nat>, a: seq<nat>, b: seq<nat>)
    requires |a| == |b| <= BUCKETS + 1
    requires forall i :: 0 <= i < |a| ==> Adds(a[i] + b[i], InBucket(log, i), |log|)
    ensures Adds(Sum(a) + Sum(b), Before(log, |a|), |log|)
  {
    if a == [] {
      BeforeZero(log);
    } else {
      var n := |a| - 1;
      SumsAreLog(log, a[..n], b[..n]);
      BeforeNext(log, n);
      AddsAdd(Sum(a[..n]) + Sum(b[..n]), Before(log, n), a[n] + b[n], InBucket(log, n), |log|);
    }
  }

  lemma AddsAdd(x: nat, m: nat, y: nat, n: nat, logged: nat)
    requires Adds(x, m, logged) && Adds(y, n, logged)
    ensures Adds(x + y, m + n, logged)
  {
    assert (x + y) % TWO_64 == (x % TWO_64 + y % TWO_64) % TWO_64;
    assert (m + n) % TWO_64 == (m % TWO_64 + n % TWO_64) % TWO_64;
  }

  /**
   At every moment of every run, all bucket counts ever drained or still standing are the samples
   logged, and all sample counts are those but for one record between its two increments: modulo
   2^64 always, and exactly up to 2^64 - 1 samples. No maximum that a finished record established
   is ever missing from the snapshots and the counter together.
   */
  lemma NothingIsLost(run: seq<State>, i: nat)
    requires Run(run) && i < |run|
    ensures var s := run[i];
            && Adds(Sum(s.buckets) + Sum(s.drained), |s.logged|, |s.logged|)
            && Adds(s.samples + s.drainedSamples, SamplesAdded(s), |s.logged|)
            && 0 <= |s.logged| - SamplesAdded(s) <= 1
            && (s.recorder.AddBucket? ==> s.logged == s.finished)
            && (forall k :: 0 <= k < |s.finished| ==> s.finished[k] <= Top(s))
            && (Top(s) == 0 || Top(s) in s.logged)
  {
    var s := run[i];
    RunKeeps(run, i);
    SumsAreLog(s.logged, s.buckets, s.drained);
    BeforeAll(s.logged);
  }

  // One thread alone

  /** A whole record, made while no snapshot moves: bucket, sample and maximum account for it. */
  lemma RecordAlone(s: State, ns: nat)
    requires |s.buckets| == BUCKETS + 1 && s.recorder == AddBucket
    ensures var s2 := RecordStep(RecordStep(s, ns, false), ns, false);
            var s3 := RecordStep(s2, ns, false);
            var r := if s.maxNs < ns then RecordStep(s3, ns, false) else s3;
            && r.recorder == AddBucket && r.snapshotter == s.snapshotter && r.finished == s.finished + [ns]
            && r.buckets == s.buckets[BucketOf(ns) := Inc(s.buckets[BucketOf(ns)])] && r.samples == Inc(s.samples)
            && r.maxNs == Larger(s.maxNs, ns)
  {
  }

  ghost function SnapAlone(s: State, n: nat): (r: State)
    requires |s.buckets| == |s.drained| == BUCKETS + 1
    ensures |r.buckets| == |r.drained| == BUCKETS + 1
  {
    if n == 0 then s else SnapStep(SnapAlone(s, n - 1))
  }

  lemma {:induction false} DrainSome(s: State, n: nat)
    requires |s.buckets| == |s.drained| == BUCKETS + 1 && s.snapshotter == Waiting && n <= BUCKETS + 1
    ensures var r := SnapAlone(s, 1 + n);
            && r == s.(buckets := r.buckets, drained := r.drained, snapshotter := DrainBucket(n))
            && (forall b :: 0 <= b < n ==> r.buckets[b] == 0 && r.drained[b] == s.drained[b] + s.buckets[b])
            && (forall b :: n <= b <= BUCKETS ==> r.buckets[b] == s.buckets[b] && r.drained[b] == s.drained[b])
  {
    if n == 0 {
      assert SnapAlone(s, 0) == s;
    } else {
      DrainSome(s, n - 1);
    }
  }

  /** A whole snapshot, taken while no record moves: every counter is drained and left at 0. */
  lemma SnapshotAlone(s: State)
    requires |s.buckets| == |s.drained| == BUCKETS + 1 && s.snapshotter == Waiting
    ensures var r := SnapAlone(s, BUCKETS + 5);
            && r.snapshotter == Waiting && r.recorder == s.recorder && r.logged == s.logged
            && r.buckets == seq(BUCKETS + 1, _ => 0) && r.samples == 0 && r.maxNs == 0
            && (forall b :: 0 <= b <= BUCKETS ==> r.drained[b] == s.drained[b] + s.buckets[b])
            && r.drainedSamples == s.drainedSamples + s.samples && r.drainedMax == Larger(s.drainedMax, s.maxNs)
  {
    DrainSome(s, BUCKETS + 1);
    SnapEnds(SnapAlone(s, BUCKETS + 2));
    assert SnapAlone(s, BUCKETS + 3) == SnapStep(SnapAlone(s, BUCKETS + 2));
    assert SnapAlone(s, BUCKETS + 4) == SnapStep(SnapAlone(s, BUCKETS + 3));
    assert SnapAlone(s, BUCKETS + 5) == SnapStep(SnapAlone(s, BUCKETS + 4));
    hide SnapAlone, SnapStep;
    assert SnapAlone(s, BUCKETS + 5).buckets == seq(BUCKETS + 1, _ => 0);
  }

  lemma SnapEnds(m: State)
    requires |m.buckets| == |m.drained| == BUCKETS + 1 && m.snapshotter == DrainBucket(BUCKETS + 1)
    ensures SnapStep(SnapStep(SnapStep(m))) ==
            m.(snapshotter := Waiting, samples := 0, drainedSamples := m.drainedSamples + m.samples,
               maxNs := 0, drainedMax := Larger(m.drainedMax, m.maxNs))
  {
  }
}
