/**
 What an observer sees of an engine, whichever threads and rings are inside: the datagrams it was
 offered, those it let through, the frames it decoded so far, and its sequence tracker.
 */
module LossyFifos {
  import opened Words
  import opened Codec
  import opened SequenceTracking

  /** A received datagram: the bytes that arrived and the truncation flag. */
  datatype Datagram = Datagram(bytes: seq<Byte>, truncated: bool)

  predicate IsComplete(d: Datagram) {
    !d.truncated && |d.bytes| == WIRE_SIZE
  }

  /** `acceptedAt[n]` says which datagram, counting from 1, the `n`-th accepted frame was. */
  datatype View = View(
    offered: seq<Datagram>, accepted: seq<Frame>, acceptedAt: seq<nat>, decoded: seq<Frame>, tracker: Tracker)

  function SeqNums(fs: seq<Frame>): (ns: seq<Word>)
    ensures |ns| == |fs|
  {
    seq(|fs|, i requires 0 <= i < |fs| => Parse(fs[i]).value.seqNum)
  }

  /** The `k`-th datagram offered, counting from 1, was complete and had these bytes. */
  ghost predicate IsOffered(offered: seq<Datagram>, k: nat, f: Frame) {
    0 < k <= |offered| && offered[k - 1] == Datagram(f, false)
  }

  /**
   A FIFO that may lose datagrams but never alters, repeats or reorders them: what was accepted are
   complete datagrams in the order they came, what was decoded are the first of those accepted,
   byte for byte, and the tracker has seen exactly what was decoded.
   */
  ghost predicate LossyFifo(v: View) {
    && v.decoded <= v.accepted
    && |v.acceptedAt| == |v.accepted|
    && (forall n :: 0 <= n < |v.accepted| ==> IsOffered(v.offered, v.acceptedAt[n], v.accepted[n]))
    && (forall m, n :: 0 <= m < n < |v.accepted| ==> v.acceptedAt[m] < v.acceptedAt[n])
    && v.tracker == Track(SeqNums(v.decoded))
  }

  lemma OfferedStays(offered: seq<Datagram>, offered': seq<Datagram>)
    requires offered <= offered'
    ensures forall k, f | IsOffered(offered, k, f) :: IsOffered(offered', k, f)
  {
  }

  /** Decoding one more frame is one more step of the tracker. */
  lemma TrackNext(fs: seq<Frame>, f: Frame)
    ensures Parse(f).Some? && Track(SeqNums(fs + [f])) == Step(Track(SeqNums(fs)), Parse(f).value.seqNum)
  {
    var before, after := SeqNums(fs), SeqNums(fs + [f]);
    assert after[..|before|] == before && after[|before|] == Parse(f).value.seqNum;
  }

  lemma {:induction false} TrackTotals(arrivals: seq<Word>)
    ensures var t := Track(arrivals); t.received == |arrivals| == t.processed + t.drops
  {
    if arrivals != [] {
      TrackTotals(arrivals[..|arrivals| - 1]);
    }
  }

  /** Strictly increasing numbers from 1 to their count are all of them. */
  lemma DenseIncreasing(at: seq<nat>, n: nat)
    requires n < |at| && (forall k :: 0 <= k < |at| ==> 0 < at[k] <= |at|)
    requires forall j, k :: 0 <= j < k < |at| ==> at[j] < at[k]
    ensures at[n] == n + 1
  {
    AtLeast(at, n);
    AtMost(at, n);
  }

  lemma {:induction false} AtLeast(at: seq<nat>, n: nat)
    requires n < |at| && at[0] > 0 && forall j, k :: 0 <= j < k < |at| ==> at[j] < at[k]
    ensures at[n] >= n + 1
  {
    if n > 0 {
      AtLeast(at, n - 1);
    }
  }

  lemma {:induction false} AtMost(at: seq<nat>, n: nat)
    requires n < |at| && at[|at| - 1] <= |at| && forall j, k :: 0 <= j < k < |at| ==> at[j] < at[k]
    ensures at[n] <= n + 1
    decreases |at| - n
  {
    if n + 1 < |at| {
      AtMost(at, n + 1);
    }
  }

  /** If as many frames were decoded as datagrams were offered, every datagram was accepted, in order. */
  lemma NothingSkipped(v: View)
    requires LossyFifo(v) && |v.decoded| == |v.offered|
    ensures |v.acceptedAt| == |v.offered| && forall n :: 0 <= n < |v.offered| ==> v.acceptedAt[n] == n + 1
  {
    hide Track;
    forall n | 0 <= n < |v.acceptedAt|
      ensures 0 < v.acceptedAt[n] <= |v.offered|
    {
      assert IsOffered(v.offered, v.acceptedAt[n], v.accepted[n]);
    }
    if v.acceptedAt != [] {
      AtLeast(v.acceptedAt, |v.acceptedAt| - 1);
    }
    forall n | 0 <= n < |v.offered|
      ensures v.acceptedAt[n] == n + 1
    {
      DenseIncreasing(v.acceptedAt, n);
    }
  }
}
