/**
 From the generator to the tracker's metrics: through the codec and any channel that loses
 datagrams but keeps their order, alone and then through every engine and interleaving.
 */
module EndToEnd {
  import opened Words
  import opened Wrappers
  import opened Codec
  import opened SequenceTracking
  import opened Generators
  import opened LossyFifos
  import FirstEngine = PipelineV1
  import SecondEngine = PipelineV2Flow
  import ThirdEngine = UdpFrames

  /** `at` picks messages of the feed, each at most once and in order. */
  ghost predicate InOrder(at: seq<nat>, f: Feed) {
    StrictlyIncreasing(at) && forall k :: 0 <= k < |at| ==> at[k] < |f.msgs|
  }

  /** The frames that arrive when the channel delivers the messages at `at`. */
  function Delivered(f: Feed, at: seq<nat>): (fs: seq<Frame>)
    requires forall k :: 0 <= k < |at| ==> at[k] < |f.msgs|
    ensures |fs| == |at|
  {
    seq(|at|, k requires 0 <= k < |at| => Wire(f.msgs[at[k]]))
  }

  lemma {:induction false} IncreasingAreRecords(ns: seq<Word>)
    requires StrictlyIncreasing(ns)
    ensures Records(ns) == ns
  {
    if ns != [] {
      var n := |ns| - 1;
      IncreasingAreRecords(ns[..n]);
      assert Exceeds(ns[n], ns[..n]);
      assert ns == ns[..n] + [ns[n]];
    }
  }

  /** Decoding a delivered frame gives the number of the message it encodes. */
  lemma NumbersArrive(f: Feed, at: seq<nat>, k: nat)
    requires (forall i :: 0 <= i < |at| ==> at[i] < |f.msgs|) && k < |at|
    ensures SeqNums(Delivered(f, at))[k] == f.msgs[at[k]].seqNum
  {
    var m := f.msgs[at[k]];
    ParseWire(m, []);
    assert Wire(m) + [] == Wire(m);
  }

  /** The tracker's verdict on a feed of which `n >= 1` messages arrived, from `first` to `last`. */
  ghost predicate CleanVerdict(t: Tracker, n: nat, first: nat, last: nat) {
    && t.received == t.processed == n && t.drops == 0
    && t.gaps + n == last - first + 1
    && t.expected == last + 1
  }

  lemma NumbersBelowNext(g: Gaps, f: Feed, i: nat)
    requires WellNumbered(g, f) && i < |f.msgs|
    ensures f.msgs[i].seqNum < f.seqNum
  {
    SkippedMonotone(g, f.before[i], f.gapSlots);
  }

  /**
   Whatever an in-order channel loses, the tracker drops nothing as out of order, processes all
   that was delivered, and reports as gaps exactly the missing numbers between first and last.
   */
  lemma InOrderDeliveryIsClean(g: Gaps, f: Feed, at: seq<nat>)
    requires WellNumbered(g, f) && InOrder(at, f) && at != []
    ensures CleanVerdict(Track(SeqNums(Delivered(f, at))), |at|,
                         f.msgs[at[0]].seqNum, f.msgs[at[|at| - 1]].seqNum)
  {
    hide Track, Parse, Wire, WellNumbered, Skipped;
    var ns := SeqNums(Delivered(f, at));
    forall k | 0 <= k < |at|
      ensures ns[k] == f.msgs[at[k]].seqNum && ns[k] < TWO_64 - 1
    {
      NumbersArrive(f, at, k);
      NumbersBelowNext(g, f, at[k]);
    }
    forall i, j | 0 <= i < j < |ns|
      ensures ns[i] < ns[j]
    {
      NumbersIncrease(g, f, at[i], at[j]);
    }
    IncreasingIsClean(ns);
  }

  lemma IncreasingIsClean(ns: seq<Word>)
    requires ns != [] && StrictlyIncreasing(ns) && NoneLast(ns)
    ensures CleanVerdict(Track(ns), |ns|, ns[0], ns[|ns| - 1])
  {
    IncreasingAreRecords(ns);
    TrackerCountsRecords(ns);
  }

  /** All positions: a channel that loses nothing. */
  function Everything(n: nat): (at: seq<nat>)
    ensures |at| == n && forall k :: 0 <= k < n ==> at[k] == k
  {
    seq(n, k => k)
  }

  /** What a lossless channel shows of a feed: everything sent, and only the numbers gaps skipped. */
  ghost predicate ExactMetrics(t: Tracker, g: Gaps, f: Feed) {
    var n := |f.msgs|;
    && |f.before| == n && t.received == t.processed == n && t.drops == 0
    && (n > 0 ==> f.before[0] <= f.before[n - 1] && t.gaps == Skipped(g, f.before[n - 1] - f.before[0]))
  }

  lemma EmptyFeed(g: Gaps, f: Feed)
    requires f.msgs == [] && f.before == []
    ensures ExactMetrics(Track(SeqNums(Delivered(f, Everything(0)))), g, f)
  {
    assert SeqNums(Delivered(f, Everything(0))) == [];
  }

  lemma LosslessFeed(g: Gaps, f: Feed)
    requires WellNumbered(g, f)
    ensures ExactMetrics(Track(SeqNums(Delivered(f, Everything(|f.msgs|)))), g, f)
  {
    var n := |f.msgs|;
    if n == 0 {
      EmptyFeed(g, f);
    } else {
      FirstAndLast(g, f);
      hide Track, Wire, WellNumbered, Skipped, SeqNums;
      InOrderDeliveryIsClean(g, f, Everything(n));
      SkippedDifference(g, f.before[0], f.before[n - 1]);
    }
  }

  lemma FirstAndLast(g: Gaps, f: Feed)
    requires WellNumbered(g, f) && f.msgs != []
    ensures var n := |f.msgs|;
            && |f.before| == n && f.before[0] <= f.before[n - 1] && f.msgs[0].seqNum == Skipped(g, f.before[0])
            && f.msgs[n - 1].seqNum == n - 1 + Skipped(g, f.before[n - 1])
  {
    hide Skipped;
  }

  /**
   Without loss, the gap count is the `span + 1` numbers of each gap slot that lies between the
   first and the last message of the run, for every seed and every number of slots.
   */
  lemma LosslessGaps(symbols: U32, g: Gaps, seed: I32, count: nat)
    requires count < TWO_31
    ensures var f := Slots(symbols, g, Start(seed), count);
            ExactMetrics(Track(SeqNums(Delivered(f, Everything(|f.msgs|)))), g, f)
  {
    SlotsAreCounted(symbols, g, seed, count);
    LosslessFeed(g, Slots(symbols, g, Start(seed), count));
  }

  lemma SkippedDifference(g: Gaps, m: nat, n: nat)
    requires m <= n
    ensures Skipped(g, n - m) == Skipped(g, n) - Skipped(g, m)
  {
    if g.Inject() {
      assert (n - m) * (g.span + 1) == n * (g.span + 1) - m * (g.span + 1);
    }
  }

  // Through the engines

  /** The datagrams offered to an engine so far are messages of the feed, in order. */
  ghost predicate Fed(v: View, f: Feed, at: seq<nat>) {
    && InOrder(at, f) && |at| == |v.offered|
    && forall k :: 0 <= k < |at| ==> v.offered[k] == Datagram(Wire(f.msgs[at[k]]), false)
  }

  /** Which messages of the feed have been decoded. */
  function DecodedAt(v: View, at: seq<nat>): seq<nat>
    requires |v.decoded| <= |v.acceptedAt|
    requires forall n :: 0 <= n < |v.acceptedAt| ==> 0 < v.acceptedAt[n] <= |at|
  {
    seq(|v.decoded|, n requires 0 <= n < |v.decoded| => at[v.acceptedAt[n] - 1])
  }

  lemma AcceptedIsFed(v: View, f: Feed, at: seq<nat>, n: nat)
    requires Fed(v, f, at) && LossyFifo(v) && n < |v.acceptedAt|
    ensures 0 < v.acceptedAt[n] <= |at| && v.accepted[n] == Wire(f.msgs[at[v.acceptedAt[n] - 1]])
  {
    assert IsOffered(v.offered, v.acceptedAt[n], v.accepted[n]);
  }

  lemma DecodedIsInOrder(v: View, f: Feed, at: seq<nat>)
    requires Fed(v, f, at) && LossyFifo(v)
    ensures forall n :: 0 <= n < |v.acceptedAt| ==> 0 < v.acceptedAt[n] <= |at|
    ensures InOrder(DecodedAt(v, at), f) && v.decoded == Delivered(f, DecodedAt(v, at))
  {
    hide Wire, Track;
    forall n | 0 <= n < |v.acceptedAt|
      ensures 0 < v.acceptedAt[n] <= |at|
    {
      AcceptedIsFed(v, f, at, n);
    }
    var dec := DecodedAt(v, at);
    forall i, j | 0 <= i < j < |dec|
      ensures dec[i] < dec[j]
    {
      assert v.acceptedAt[i] < v.acceptedAt[j];
    }
    forall n | 0 <= n < |v.decoded|
      ensures v.decoded[n] == Delivered(f, dec)[n]
    {
      AcceptedIsFed(v, f, at, n);
      assert v.decoded[n] == v.accepted[n];
    }
  }

  /**
   The verdict on an engine that was fed from this feed: it decoded messages of the feed in order,
   dropped none as out of order, and its gap count is exact for what it decoded.
   */
  ghost predicate IsClean(v: View, f: Feed, at: seq<nat>) {
    && |v.decoded| <= |v.acceptedAt|
    && (forall n :: 0 <= n < |v.acceptedAt| ==> 0 < v.acceptedAt[n] <= |at|)
    && var dec := DecodedAt(v, at);
    && InOrder(dec, f) && v.decoded == Delivered(f, dec)
    && (dec != [] ==> CleanVerdict(v.tracker, |dec|, f.msgs[dec[0]].seqNum, f.msgs[dec[|dec| - 1]].seqNum))
  }

  lemma LossyFifoIsClean(v: View, g: Gaps, f: Feed, at: seq<nat>)
    requires LossyFifo(v) && WellNumbered(g, f) && Fed(v, f, at)
    ensures IsClean(v, f, at)
  {
    hide Track, Wire, SeqNums, WellNumbered;
    DecodedIsInOrder(v, f, at);
    if v.decoded != [] {
      InOrderDeliveryIsClean(g, f, DecodedAt(v, at));
    }
  }

  /**
   End to end: whenever either engine is fed, in order and with any losses, the output of the
   generator for any seed and parameters, its tracker's metrics are exact in every interleaving.
   */
  lemma FirstEngineIsClean(run: seq<FirstEngine.State>, i: nat, symbols: U32, g: Gaps, seed: I32, count: nat,
                           at: seq<nat>)
    requires FirstEngine.Run(run) && i < |run| && count < TWO_31
    ensures var v, f := FirstEngine.ViewOf(run[i]), Slots(symbols, g, Start(seed), count);
            Fed(v, f, at) ==> IsClean(v, f, at)
  {
    var v, f := FirstEngine.ViewOf(run[i]), Slots(symbols, g, Start(seed), count);
    FirstEngine.RunsAreLossyFifos(run, i);
    SlotsAreCounted(symbols, g, seed, count);
    if Fed(v, f, at) {
      LossyFifoIsClean(v, g, f, at);
    }
  }

  lemma SecondEngineIsClean(run: seq<SecondEngine.State>, i: nat, symbols: U32, g: Gaps, seed: I32, count: nat,
                           at: seq<nat>)
    requires SecondEngine.Run(run) && i < |run| && count < TWO_31
    ensures var v, f := SecondEngine.ViewOf(run[i]), Slots(symbols, g, Start(seed), count);
            Fed(v, f, at) ==> IsClean(v, f, at)
  {
    var v, f := SecondEngine.ViewOf(run[i]), Slots(symbols, g, Start(seed), count);
    SecondEngine.RunsAreLossyFifos(run, i);
    SlotsAreCounted(symbols, g, seed, count);
    if Fed(v, f, at) {
      LossyFifoIsClean(v, g, f, at);
    }
  }

  // Without loss

  /** All of the feed was fed to the engine, and as many frames have been decoded as were sent. */
  lemma AllDecoded(v: View, f: Feed)
    requires LossyFifo(v) && Fed(v, f, Everything(|f.msgs|)) && |v.decoded| == |f.msgs|
    ensures v.decoded == Delivered(f, Everything(|f.msgs|))
  {
    hide Track, Wire;
    var at := Everything(|f.msgs|);
    DecodedIsInOrder(v, f, at);
    NothingSkipped(v);
    assert DecodedAt(v, at) == at;
  }

  /** Then the gaps an engine reports are exactly those the generator put between first and last message. */
  lemma LosslessFifo(v: View, g: Gaps, f: Feed)
    requires LossyFifo(v) && WellNumbered(g, f) && Fed(v, f, Everything(|f.msgs|)) && |v.decoded| == |f.msgs|
    ensures ExactMetrics(v.tracker, g, f)
  {
    AllDecoded(v, f);
    LosslessFeed(g, f);
  }

  lemma FirstEngineLossless(run: seq<FirstEngine.State>, i: nat, symbols: U32, g: Gaps, seed: I32, count: nat)
    requires FirstEngine.Run(run) && i < |run| && count < TWO_31
    ensures var v, f := FirstEngine.ViewOf(run[i]), Slots(symbols, g, Start(seed), count);
            Fed(v, f, Everything(|f.msgs|)) && |v.decoded| == |f.msgs| ==> ExactMetrics(v.tracker, g, f)
  {
    var v, f := FirstEngine.ViewOf(run[i]), Slots(symbols, g, Start(seed), count);
    FirstEngine.RunsAreLossyFifos(run, i);
    SlotsAreCounted(symbols, g, seed, count);
    if Fed(v, f, Everything(|f.msgs|)) && |v.decoded| == |f.msgs| {
      LosslessFifo(v, g, f);
    }
  }

  lemma SecondEngineLossless(run: seq<SecondEngine.State>, i: nat, symbols: U32, g: Gaps, seed: I32, count: nat)
    requires SecondEngine.Run(run) && i < |run| && count < TWO_31
    ensures var v, f := SecondEngine.ViewOf(run[i]), Slots(symbols, g, Start(seed), count);
            Fed(v, f, Everything(|f.msgs|)) && |v.decoded| == |f.msgs| ==> ExactMetrics(v.tracker, g, f)
  {
    var v, f := SecondEngine.ViewOf(run[i]), Slots(symbols, g, Start(seed), count);
    SecondEngine.RunsAreLossyFifos(run, i);
    SlotsAreCounted(symbols, g, seed, count);
    if Fed(v, f, Everything(|f.msgs|)) && |v.decoded| == |f.msgs| {
      LosslessFifo(v, g, f);
    }
  }

  // Through the third engine

  /** What the third engine polls: a frame that carries message `at` of the feed, or anything else. */
  datatype Traffic = Carrier(parts: ThirdEngine.Parts, extra: seq<Byte>, at: nat) | Noise(packet: Option<seq<Byte>>)

  ghost predicate TrafficOk(t: Traffic, f: Feed, port: ThirdEngine.U16) {
    match t
    case Carrier(parts, extra, at) =>
      && at < |f.msgs| && ThirdEngine.WellFormed(parts) && ThirdEngine.Acceptable(parts, port)
      && parts.payload == Wire(f.msgs[at]) + extra
    case Noise(packet) => ThirdEngine.Arrival(packet, port).None?
  }

  ghost function PacketOf(t: Traffic): Option<seq<Byte>> {
    match t
    case Carrier(parts, _, _) => if ThirdEngine.WellFormed(parts) then Some(ThirdEngine.Build(parts)) else None
    case Noise(packet) => packet
  }

  ghost function Packets(ts: seq<Traffic>): (ps: seq<Option<seq<Byte>>>)
    ensures |ps| == |ts|
  {
    seq(|ts|, i requires 0 <= i < |ts| => PacketOf(ts[i]))
  }

  /** The messages that the traffic carries. */
  function Carried(ts: seq<Traffic>): seq<nat> {
    if ts == [] then []
    else
      var n := |ts| - 1;
      Carried(ts[..n]) + if ts[n].Carrier? then [ts[n].at] else []
  }

  lemma {:induction false} TrafficBrings(ts: seq<Traffic>, f: Feed, port: ThirdEngine.U16)
    requires forall i :: 0 <= i < |ts| ==> TrafficOk(ts[i], f, port)
    ensures forall k :: 0 <= k < |Carried(ts)| ==> Carried(ts)[k] < |f.msgs|
    ensures ThirdEngine.Arrivals(Packets(ts), port) == SeqNums(Delivered(f, Carried(ts)))
  {
    if ts != [] {
      var n := |ts| - 1;
      TrafficBrings(ts[..n], f, port);
      assert Packets(ts)[..n] == Packets(ts[..n]);
      match ts[n]
      case Carrier(parts, extra, at) =>
        ThirdEngine.FrameBringsMessage(parts, port, f.msgs[at], extra);
        DeliverOne(f, Carried(ts[..n]), at);
      case Noise(_) =>
    }
  }

  lemma DeliverOne(f: Feed, at: seq<nat>, next: nat)
    requires (forall k :: 0 <= k < |at| ==> at[k] < |f.msgs|) && next < |f.msgs|
    ensures SeqNums(Delivered(f, at + [next])) == SeqNums(Delivered(f, at)) + [f.msgs[next].seqNum]
  {
    forall k | 0 <= k < |at|
      ensures SeqNums(Delivered(f, at + [next]))[k] == SeqNums(Delivered(f, at))[k]
    {
      NumbersArrive(f, at, k);
      NumbersArrive(f, at + [next], k);
    }
    NumbersArrive(f, at + [next], |at|);
  }

  /**
   The third engine, fed with frames that carry the generator's messages in order, with any losses
   and with any other packets in between: the tracker steps on exactly the messages carried, finds
   none out of order, and expects the number after the last of them.
   */
  lemma ThirdEngineIsClean(ts: seq<Traffic>, port: ThirdEngine.U16, symbols: U32, g: Gaps, seed: I32, count: nat)
    requires count < TWO_31
    ensures var f := Slots(symbols, g, Start(seed), count);
            (forall i :: 0 <= i < |ts| ==> TrafficOk(ts[i], f, port)) && InOrder(Carried(ts), f)
              && Carried(ts) != [] ==>
              var at := Carried(ts);
              CleanVerdict(Track(ThirdEngine.Arrivals(Packets(ts), port)), |at|,
                           f.msgs[at[0]].seqNum, f.msgs[at[|at| - 1]].seqNum)
  {
    var f := Slots(symbols, g, Start(seed), count);
    SlotsAreCounted(symbols, g, seed, count);
    if (forall i :: 0 <= i < |ts| ==> TrafficOk(ts[i], f, port)) && InOrder(Carried(ts), f) && Carried(ts) != [] {
      TrafficBrings(ts, f, port);
      InOrderDeliveryIsClean(g, f, Carried(ts));
    }
  }
}
