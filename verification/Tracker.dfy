/**
 The sequence-number tracker that every engine runs on decoded messages, with the metrics that
 the first two engines keep, against an independent description by left-to-right maxima.
 */
module SequenceTracking {
  import opened Words

  datatype Tracker = Tracker(
    initialized: bool, expected: Word, received: nat, processed: nat, drops: nat, gaps: nat)

  const START := Tracker(false, 0, 0, 0, 0, 0)

  /** The engines' branches on one message, on wrapping 64-bit numbers. */
  function Step(t: Tracker, n: Word): Tracker {
    var u := t.(received := t.received + 1);
    if !t.initialized then
      u.(expected := Inc(n), initialized := true, processed := t.processed + 1)
    else if n == t.expected then
      u.(expected := Inc(t.expected), processed := t.processed + 1)
    else if n > t.expected then
      u.(gaps := t.gaps + (n - t.expected), expected := Inc(n), processed := t.processed + 1)
    else
      u.(drops := t.drops + 1)
  }

  function Track(arrivals: seq<Word>): Tracker {
    if arrivals == [] then START else Step(Track(arrivals[..|arrivals| - 1]), arrivals[|arrivals| - 1])
  }

  /** `process_loop` and `process` of the first two engines, on one decoded message. */
  class MeteredTracker {
    var expected: Word
    var initialized: bool
    var received: nat
    var processed: nat
    var drops: nat
    var gaps: nat

    function State(): Tracker
      reads this
    {
      Tracker(initialized, expected, received, processed, drops, gaps)
    }

    constructor ()
      ensures State() == START
    {
      expected, initialized, received, processed, drops, gaps := 0, false, 0, 0, 0, 0;
    }

    method OnMessage(n: Word)
      modifies this
      ensures State() == Step(old(State()), n)
    {
      received := received + 1;
      if !initialized {
        expected := Inc(n);
        initialized := true;
        processed := processed + 1;
      } else if n == expected {
        expected := Inc(expected);
        processed := processed + 1;
      } else if n > expected {
        var gap := Sub(n, expected);
        gaps := gaps + gap;
        expected := Inc(n);
        processed := processed + 1;
      } else {
        drops := drops + 1;
      }
    }
  }

  /** `process_one` of the third engine after decoding: it returns early on the first message. */
  class BareTracker {
    var expected: Word
    var initialized: bool

    constructor ()
      ensures !initialized && expected == 0
    {
      expected, initialized := 0, false;
    }

    /** Agrees with the metered tracker from every common state. */
    method OnMessage(n: Word)
      modifies this
      ensures forall t: Tracker ::
                t.initialized == old(initialized) && t.expected == old(expected) ==>
                  Step(t, n).initialized == initialized && Step(t, n).expected == expected
    {
      if !initialized {
        expected := Inc(n);
        initialized := true;
        return;
      }
      if n == expected {
        expected := Inc(expected);
      } else if n > expected {
        expected := Inc(n);
      }
    }
  }

  predicate Exceeds(n: nat, earlier: seq<Word>) {
    forall i :: 0 <= i < |earlier| ==> earlier[i] < n
  }

  /** The arrivals that exceed everything before them. */
  function Records(arrivals: seq<Word>): seq<nat> {
    if arrivals == [] then
      []
    else
      var n := |arrivals| - 1;
      var rest := Records(arrivals[..n]);
      if Exceeds(arrivals[n], arrivals[..n]) then rest + [arrivals[n]] else rest
  }

  ghost predicate IsMax(m: nat, arrivals: seq<Word>) {
    && (exists i :: 0 <= i < |arrivals| && arrivals[i] == m)
    && (forall i :: 0 <= i < |arrivals| ==> arrivals[i] <= m)
  }

  ghost predicate StrictlyIncreasing(s: seq<nat>) {
    forall i, j :: 0 <= i < j < |s| ==> s[i] < s[j]
  }

  /** The numbers of `[lo, hi)` that do not occur in `s`. */
  ghost function Missing(lo: nat, hi: nat, s: seq<nat>): set<nat> {
    set n | lo <= n < hi && n !in s
  }

  function Last(s: seq<nat>): nat
    requires s != []
  {
    s[|s| - 1]
  }

  ghost predicate RecordsOf(r: seq<nat>, arrivals: seq<Word>) {
    && r != [] && arrivals != [] && StrictlyIncreasing(r)
    && r[0] == arrivals[0] && IsMax(Last(r), arrivals)
  }

  lemma ExtendRecords(r: seq<nat>, before: seq<Word>, n: Word)
    requires RecordsOf(r, before)
    ensures Exceeds(n, before) == (n > Last(r))
    ensures RecordsOf(if n > Last(r) then r + [n] else r, before + [n])
  {
    var i :| 0 <= i < |before| && before[i] == Last(r);
    assert (before + [n])[i] == Last(r) && (before + [n])[|before|] == n;
  }

  /** What the records look like: they start at the first arrival and climb to the maximum. */
  lemma {:induction false} RecordsShape(arrivals: seq<Word>)
    requires arrivals != []
    ensures RecordsOf(Records(arrivals), arrivals)
  {
    var n := |arrivals| - 1;
    var before := arrivals[..n];
    assert before + [arrivals[n]] == arrivals;
    if n == 0 {
      assert Records(arrivals) == [arrivals[0]];
    } else {
      RecordsShape(before);
      ExtendRecords(Records(before), before, arrivals[n]);
    }
  }

  ghost predicate Counts(t: Tracker, r: seq<nat>, total: nat) {
    && t.received == total && t.processed == |r| && t.drops + |r| == total
    && t.initialized == (r != []) && (r == [] ==> t.gaps == 0)
    && (r != [] ==> t.expected == 1 + Last(r) && t.processed + t.gaps == t.expected - r[0])
  }

  lemma StepCounts(t: Tracker, r: seq<nat>, total: nat, n: Word)
    requires Counts(t, r, total) && n < TWO_64 - 1
    ensures Counts(Step(t, n), if r == [] || n > Last(r) then r + [n] else r, total + 1)
  {
  }

  ghost predicate NoneLast(arrivals: seq<Word>) {
    forall i :: 0 <= i < |arrivals| ==> arrivals[i] < TWO_64 - 1
  }

  /**
   For arrivals below `2^64 - 1`, in any order and with duplicates: as many messages are processed
   as there are records, the next expected number is one past the maximum, and everything else is
   counted as an out-of-order drop.
   */
  lemma {:induction false} TrackerCountsRecords(arrivals: seq<Word>)
    requires NoneLast(arrivals)
    ensures Counts(Track(arrivals), Records(arrivals), |arrivals|)
  {
    if arrivals != [] {
      var n := |arrivals| - 1;
      var before := arrivals[..n];
      TrackerCountsRecords(before);
      StepCounts(Track(before), Records(before), n, arrivals[n]);
      if n > 0 {
        RecordsShape(before);
        ExtendRecords(Records(before), before, arrivals[n]);
      }
    }
  }

  /** The numbers the tracker processed, as its own counter tells, in order of arrival. */
  function Processed(arrivals: seq<Word>): seq<nat> {
    if arrivals == [] then
      []
    else
      var n := |arrivals| - 1;
      var rest, t := Processed(arrivals[..n]), Track(arrivals[..n]);
      if Step(t, arrivals[n]).processed > t.processed then rest + [arrivals[n]] else rest
  }

  /** What the tracker processes are exactly the left-to-right maxima: which ones, not only how many. */
  lemma {:induction false} ProcessedAreRecords(arrivals: seq<Word>)
    requires NoneLast(arrivals)
    ensures Processed(arrivals) == Records(arrivals)
  {
    if arrivals != [] {
      var before := arrivals[..|arrivals| - 1];
      ProcessedAreRecords(before);
      TrackerCountsRecords(before);
      TrackerCountsRecords(arrivals);
    }
  }

  lemma {:induction false} MissingCount(lo: nat, s: seq<nat>)
    requires s != [] && StrictlyIncreasing(s) && s[0] == lo
    ensures |Missing(lo, Last(s) + 1, s)| + |s| == Last(s) + 1 - lo
  {
    var n := |s| - 1;
    if n == 0 {
      assert Missing(lo, s[0] + 1, s) == {};
    } else {
      var rest := s[..n];
      MissingCount(lo, rest);
      var a, b := rest[n - 1] + 1, s[n];
      Interval(a, b);
      assert forall k :: k in rest ==> k < a;
      MissingSplit(lo, a, b, rest, s);
    }
  }

  /** One more number beyond the rest: those skipped on the way to it are missing too. */
  lemma MissingSplit(lo: nat, a: nat, b: nat, rest: seq<nat>, s: seq<nat>)
    requires lo <= a <= b && s == rest + [b] && forall k :: k in rest ==> k < a
    ensures |Missing(lo, b + 1, s)| == |Missing(lo, a, rest)| + |Missing(a, b, [])|
  {
    assert Missing(lo, b + 1, s) == Missing(lo, a, rest) + Missing(a, b, []);
  }

  lemma {:induction false} Interval(a: nat, b: nat)
    requires a <= b
    ensures |Missing(a, b, [])| == b - a
    decreases b
  {
    if a < b {
      Interval(a, b - 1);
      assert Missing(a, b, []) == Missing(a, b - 1, []) + {b - 1};
    } else {
      assert Missing(a, b, []) == {};
    }
  }

  /** `t` is what a tracker should show after `arrivals` when it has processed `r`. */
  ghost predicate Accounts(t: Tracker, r: seq<nat>, arrivals: seq<Word>) {
    && arrivals != [] && t.expected > 0
    && IsMax(t.expected - 1, arrivals)
    && t.gaps == |Missing(arrivals[0], t.expected, r)|
    && t.processed + t.drops == t.received == |arrivals|
    && t.processed + t.gaps == t.expected - arrivals[0]
  }

  lemma RecordsAccount(t: Tracker, r: seq<nat>, arrivals: seq<Word>)
    requires Counts(t, r, |arrivals|) && RecordsOf(r, arrivals)
    ensures Accounts(t, r, arrivals)
  {
    MissingCount(r[0], r);
    assert t.expected - 1 == Last(r);
  }

  /**
   The gap counter is the number of sequence numbers between the first arrival and the next
   expected one that were never processed; every message received is processed or dropped.
   */
  lemma GapsAreMissingNumbers(arrivals: seq<Word>)
    requires arrivals != [] && NoneLast(arrivals)
    ensures Accounts(Track(arrivals), Processed(arrivals), arrivals)
    ensures StrictlyIncreasing(Processed(arrivals))
  {
    RecordsShape(arrivals);
    ProcessedAreRecords(arrivals);
    TrackerCountsRecords(arrivals);
    RecordsAccount(Track(arrivals), Records(arrivals), arrivals);
  }

  /** On all arrivals, wrapping ones included, conservation still holds modulo `2^64`. */
  lemma {:induction false} ConservationModulo(arrivals: seq<Word>)
    requires arrivals != []
    ensures var t := Track(arrivals);
            (t.processed + t.gaps) % TWO_64 == (t.expected - arrivals[0]) % TWO_64
    ensures Track(arrivals).initialized
    ensures Track(arrivals).processed + Track(arrivals).drops == |arrivals| == Track(arrivals).received
  {
    var n := |arrivals| - 1;
    if n == 0 {
      assert Track(arrivals[..0]) == START;
    } else {
      ConservationModulo(arrivals[..n]);
      StepCongruent(Track(arrivals[..n]), arrivals[n], arrivals[0]);
    }
  }

  lemma StepCongruent(t: Tracker, n: Word, first: Word)
    requires t.initialized && (t.processed + t.gaps) % TWO_64 == (t.expected - first) % TWO_64
    ensures var u := Step(t, n); (u.processed + u.gaps) % TWO_64 == (u.expected - first) % TWO_64
  {
    var u := Step(t, n);
    var grown := (u.processed + u.gaps) - (t.processed + t.gaps);
    AddCongruent(t.processed + t.gaps, t.expected - first, grown);
    if u.expected - t.expected != grown {
      assert u.expected - first == (t.expected - first + grown) - TWO_64;
      WrapCongruent(t.expected - first + grown);
    }
  }

  lemma WrapCongruent(x: int)
    ensures (x - TWO_64) % TWO_64 == x % TWO_64
  {
  }

  lemma AddCongruent(x: int, y: int, d: int)
    requires x % TWO_64 == y % TWO_64
    ensures (x + d) % TWO_64 == (y + d) % TWO_64
  {
  }

  /**
   The law `expected == 1 + max` holds exactly when the largest number is below `2^64 - 1`:
   the last number wraps the expectation to 0, after which old numbers look new.
   */
  lemma ExpectedIsNextIff(arrivals: seq<Word>, m: Word)
    requires IsMax(m, arrivals)
    ensures Track(arrivals).expected == m + 1 <==> m < TWO_64 - 1
  {
    if m < TWO_64 - 1 {
      RecordsShape(arrivals);
      TrackerCountsRecords(arrivals);
    }
  }

  /** A duplicate of the last representable number is processed twice. */
  lemma WrapProcessesDuplicate()
    ensures var t := Track([TWO_64 - 1, TWO_64 - 1]);
            t.processed == 2 && t.drops == 0 && t.gaps == TWO_64 - 1 && t.expected == 0
  {
    assert [TWO_64 - 1, TWO_64 - 1][..1] == [TWO_64 - 1];
    assert Track([TWO_64 - 1]) == Step(START, TWO_64 - 1) by {
      assert [TWO_64 - 1][..0] == [];
    }
  }
}
