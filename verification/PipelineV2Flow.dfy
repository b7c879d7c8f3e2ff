/**
 What flows through the second engine: the datagrams the kernel writes into reserved slots, the
 frames published and those decoded. It runs on top of the index machine of `PipelineV2`, whose
 ownership result is what keeps the kernel away from slots that are still to be decoded.
 */
module PipelineV2Flow {
  import opened Wrappers
  import opened Codec
  import opened SequenceTracking
  import opened LossyFifos
  import opened FramePools
  import Core = PipelineV2

  /** What a receive call returns: an error, or the datagrams that were waiting. */
  datatype Reply = Failed | Got(ds: seq<Datagram>)

  /**
   The index machine, the slots, the lengths and flags of the current batch, and the tracker. The
   other fields record the run: datagrams received, worked off by `publish_batch` and abandoned at
   a stop; frames published and which datagrams they were; frames decoded.
   */
  datatype State = State(
    core: Core.State,
    slots: seq<Frame>,
    batch: seq<Datagram>,
    tracker: Tracker,
    decodeErrors: nat,
    offered: seq<Datagram>,
    handled: seq<Datagram>,
    lost: seq<Datagram>,
    published: seq<Frame>,
    publishedAt: seq<nat>,
    decoded: seq<Frame>)

  /** A datagram written over a slot: longer ones are cut, shorter ones leave the rest as it was. */
  function Overlay(slot: Frame, bytes: seq<Byte>): Frame {
    if |bytes| < WIRE_SIZE then bytes + slot[|bytes|..] else bytes[..WIRE_SIZE]
  }

  /** The kernel writes each datagram into the slot reserved for it. */
  function Fill(slots: seq<Frame>, hand: seq<nat>, ds: seq<Datagram>): (r: seq<Frame>)
    requires |ds| <= |hand| && forall j :: 0 <= j < |hand| ==> hand[j] < |slots|
    ensures |r| == |slots|
  {
    if ds == [] then slots
    else
      var n := |ds| - 1;
      var before := Fill(slots, hand, ds[..n]);
      before[hand[n] := Overlay(before[hand[n]], ds[n].bytes)]
  }

  function Min(a: nat, b: nat): nat {
    if a < b then a else b
  }

  /** Every memory access the next step makes is inside its array. */
  ghost predicate Safe(s: State) {
    && Core.PcsInRange(s.core)
    && (s.core.io.Receive? ==> forall j :: 0 <= j < |s.core.io.hand| ==> s.core.io.hand[j] < |s.slots|)
    && (s.core.io.Publish? ==> |s.batch| == s.core.io.n)
    && (s.core.consumer.Process? ==>
          forall j :: 0 <= j < |s.core.consumer.hand| ==> s.core.consumer.hand[j] < |s.slots|)
  }

  function OracleOf(s: State, reply: Reply): Core.Oracle
    requires Safe(s)
  {
    var io := s.core.io;
    Core.Oracle(if reply.Got? then |reply.ds| else -1, io.Publish? && io.i < io.n && !IsComplete(s.batch[io.i]))
  }

  function IoStep(s: State, reply: Reply): State
    requires Safe(s)
  {
    var s' := s.(core := Core.IoStep(s.core, OracleOf(s, reply)));
    match s.core.io
    case Receive(hand, _) => if reply.Got? then Received(s', hand, reply.ds[..Min(|reply.ds|, |hand|)]) else s'
    case CheckRunning(_, _) => if s.core.running then s' else s'.(batch := [], lost := s.batch)
    case Publish(_, n, i) =>
      if i < n then Worked(s', s.batch[i], |s.core.ready| < s.core.capacity) else s'.(batch := [])
    case _ => s'
  }

  function Received(s: State, hand: seq<nat>, ds: seq<Datagram>): State
    requires |ds| <= |hand| && forall j :: 0 <= j < |hand| ==> hand[j] < |s.slots|
  {
    s.(slots := Fill(s.slots, hand, ds), batch := ds, offered := s.offered + ds)
  }

  /** One datagram of the batch worked off: published when it is complete and `ready` has room. */
  function Worked(s: State, d: Datagram, room: bool): State {
    var s' := s.(handled := s.handled + [d]);
    if IsComplete(d) && room then
      s'.(published := s.published + [d.bytes], publishedAt := s.publishedAt + [|s.handled| + 1])
    else
      s'
  }

  function ConsumerStep(s: State): State
    requires Safe(s)
  {
    var s' := s.(core := Core.ConsumerStep(s.core));
    match s.core.consumer
    case Process(hand, i) => if i < |hand| then Consume(s', s.slots[hand[i]]) else s'
    case _ => s'
  }

  /** Decode the slot and run the sequence tracker, or count a decode error. */
  function Consume(s: State, f: Frame): State {
    match Parse(f)
    case Some(m) => s.(tracker := Step(s.tracker, m.seqNum), decoded := s.decoded + [f])
    case None => s.(decodeErrors := s.decodeErrors + 1)
  }

  ghost predicate Init(s: State) {
    && Core.Init(s.core) && |s.slots| == s.core.capacity
    && s.batch == [] && s.tracker == START && s.decodeErrors == 0
    && s.offered == [] && s.handled == [] && s.lost == []
    && s.published == [] && s.publishedAt == [] && s.decoded == []
  }

  ghost predicate Next(s: State, s': State) {
    && Safe(s)
    && (|| (exists reply :: s' == IoStep(s, reply))
        || s' == ConsumerStep(s)
        || s' == s.(core := s.core.(running := false)))
  }

  ghost predicate Run(run: seq<State>) {
    && run != [] && Init(run[0])
    && forall i :: 0 <= i && i + 1 < |run| ==> Next(run[i], run[i + 1])
  }

  // The indices of every run are a run of the index machine

  function Cores(run: seq<State>): (cores: seq<Core.State>)
    ensures |cores| == |run|
  {
    seq(|run|, i requires 0 <= i < |run| => run[i].core)
  }

  lemma CoreStep(s: State, s': State)
    requires Next(s, s')
    ensures Core.Next(s.core, s'.core)
  {
    if s' != ConsumerStep(s) && s' != s.(core := s.core.(running := false)) {
      var reply :| s' == IoStep(s, reply);
      assert s'.core == Core.IoStep(s.core, OracleOf(s, reply));
    }
  }

  lemma CoresRun(run: seq<State>)
    requires Run(run)
    ensures Core.Run(Cores(run))
  {
    forall i | 0 <= i && i + 1 < |run|
      ensures Core.Next(Cores(run)[i], Cores(run)[i + 1])
    {
      assert Next(run[i], run[i + 1]);
      CoreStep(run[i], run[i + 1]);
    }
  }

  // The invariant

  /** The indices published and not yet decoded, oldest first. */
  function Queue(c: Core.State): seq<nat>
    requires Core.PcsInRange(c)
  {
    Pending(c) + c.ready
  }

  function Pending(c: Core.State): seq<nat>
    requires Core.PcsInRange(c)
  {
    match c.consumer
    case Drain(hand) => hand
    case Process(hand, i) => hand[i..]
    case _ => []
  }

  /** How much of the batch has been worked off. */
  function Done(io: Core.IoPc): nat {
    if io.Publish? then io.i else 0
  }

  /** Received and not yet worked off. */
  function Waiting(s: State): seq<Datagram> {
    if Done(s.core.io) <= |s.batch| then s.batch[Done(s.core.io)..] else []
  }

  /** Every complete datagram of the batch that still waits is in its slot. */
  ghost predicate BatchOk(s: State) {
    var io := s.core.io;
    if io.CheckRunning? || io.Publish? then
      && Done(io) <= |s.batch| == io.n <= |io.hand|
      && forall j :: Done(io) <= j < io.n && IsComplete(s.batch[j]) ==>
           io.hand[j] < |s.slots| && s.slots[io.hand[j]] == s.batch[j].bytes
    else
      s.batch == []
  }

  /** The slots named by `q` hold, in order, the frames of `fs`. */
  ghost predicate Carries(slots: seq<Frame>, q: seq<nat>, fs: seq<Frame>) {
    |fs| == |q| && forall k :: 0 <= k < |q| ==> q[k] < |slots| && slots[q[k]] == fs[k]
  }

  /** Every index in the queue names the slot of the frame published through it. */
  ghost predicate QueueOk(s: State) {
    && Core.PcsInRange(s.core) && s.decoded <= s.published
    && Carries(s.slots, Queue(s.core), s.published[|s.decoded|..])
  }

  ghost predicate CountsOk(s: State) {
    && s.offered == s.handled + Waiting(s) + s.lost
    && |s.handled| == s.core.drops + |s.published|
    && s.core.processed == |s.decoded| && s.decodeErrors == 0 && s.tracker == Track(SeqNums(s.decoded))
    && |s.lost| <= Core.BATCH
    && (s.lost != [] ==> !s.core.running && (s.core.io.LoopHead? || s.core.io.IoDone?))
  }

  /** The frames published are complete datagrams, unaltered and in the order they came. */
  ghost predicate Sourced(handled: seq<Datagram>, fs: seq<Frame>, at: seq<nat>) {
    && |at| == |fs|
    && (forall n :: 0 <= n < |fs| ==> IsOffered(handled, at[n], fs[n]))
    && (forall m, n :: 0 <= m < n < |fs| ==> at[m] < at[n])
  }

  lemma SourcedStays(handled: seq<Datagram>, more: seq<Datagram>, fs: seq<Frame>, at: seq<nat>)
    requires Sourced(handled, fs, at)
    ensures Sourced(handled + more, fs, at)
  {
    OfferedStays(handled, handled + more);
  }

  lemma SourcedGrows(handled: seq<Datagram>, fs: seq<Frame>, at: seq<nat>, f: Frame)
    requires Sourced(handled, fs, at)
    ensures Sourced(handled + [Datagram(f, false)], fs + [f], at + [|handled| + 1])
  {
    var handled' := handled + [Datagram(f, false)];
    SourcedStays(handled, [Datagram(f, false)], fs, at);
    assert IsOffered(handled', |handled| + 1, f);
    forall m | 0 <= m < |fs|
      ensures at[m] < |handled| + 1
    {
      assert IsOffered(handled, at[m], fs[m]);
    }
  }

  ghost predicate FlowOk(s: State) {
    |s.slots| == s.core.capacity && BatchOk(s) && QueueOk(s) && CountsOk(s)
    && Sourced(s.handled, s.published, s.publishedAt)
  }

  ghost predicate Invariant(s: State) {
    Core.Invariant(s.core) && FlowOk(s)
  }

  // What ownership says about slots

  lemma HandIsOwn(c: Core.State, j: nat)
    requires Core.Owned(c) && j < |Core.IoHand(c)|
    ensures var x := Core.IoHand(c)[j];
            && x < c.capacity && x !in Queue(c)
            && forall k :: j < k < |Core.IoHand(c)| ==> Core.IoHand(c)[k] != x
  {
    var hand := Core.IoHand(c);
    var x := hand[j];
    assert Core.Held(c, x) <= 1;
    OccursIn(hand, x);
    OccursIn(c.ready, x);
    OccursIn(Core.ConsumerHand(c), x);
    assert x !in c.ready && x !in Core.ConsumerHand(c);
    forall k | j < k < |hand|
      ensures hand[k] != x
    {
      if hand[k] == x {
        OccursTwice(hand, j, k);
      }
    }
  }

  lemma ConsumerHandInRange(c: Core.State, j: nat)
    requires Core.Owned(c) && j < |Core.ConsumerHand(c)|
    ensures Core.ConsumerHand(c)[j] < c.capacity
  {
    var x := Core.ConsumerHand(c)[j];
    OccursIn(Core.ConsumerHand(c), x);
    assert Core.Held(c, x) >= 1;
  }

  lemma InvariantIsSafe(s: State)
    requires Invariant(s)
    ensures Safe(s)
  {
    if s.core.io.Receive? {
      forall j | 0 <= j < |s.core.io.hand|
        ensures s.core.io.hand[j] < |s.slots|
      {
        HandIsOwn(s.core, j);
      }
    }
    if s.core.consumer.Process? {
      forall j | 0 <= j < |s.core.consumer.hand|
        ensures s.core.consumer.hand[j] < |s.slots|
      {
        ConsumerHandInRange(s.core, j);
      }
    }
  }

  lemma {:induction false} FillElsewhere(slots: seq<Frame>, hand: seq<nat>, ds: seq<Datagram>, x: nat)
    requires |ds| <= |hand| && (forall j :: 0 <= j < |hand| ==> hand[j] < |slots|)
    requires x < |slots| && forall j :: 0 <= j < |ds| ==> hand[j] != x
    ensures Fill(slots, hand, ds)[x] == slots[x]
  {
    if ds != [] {
      FillElsewhere(slots, hand, ds[..|ds| - 1], x);
    }
  }

  lemma {:induction false} FillAt(slots: seq<Frame>, hand: seq<nat>, ds: seq<Datagram>, j: nat)
    requires |ds| <= |hand| && (forall j :: 0 <= j < |hand| ==> hand[j] < |slots|)
    requires j < |ds| && IsComplete(ds[j]) && forall k :: j < k < |hand| ==> hand[k] != hand[j]
    ensures Fill(slots, hand, ds)[hand[j]] == ds[j].bytes
  {
    if j < |ds| - 1 {
      FillAt(slots, hand, ds[..|ds| - 1], j);
    }
  }

  // IO steps

  /** The kernel's writes reach the slots in hand and leave those of the queue alone. */
  lemma ReceiveFills(s: State, ds: seq<Datagram>)
    requires Core.Owned(s.core) && Safe(s) && s.core.io.Receive?
          && |ds| <= |s.core.io.hand| && |s.slots| == s.core.capacity
    ensures var hand, slots', q := s.core.io.hand, Fill(s.slots, s.core.io.hand, ds), Queue(s.core);
            && (forall j :: 0 <= j < |ds| && IsComplete(ds[j]) ==> slots'[hand[j]] == ds[j].bytes)
            && (forall k :: 0 <= k < |q| && q[k] < |s.slots| ==> slots'[q[k]] == s.slots[q[k]])
  {
    var hand, q := s.core.io.hand, Queue(s.core);
    forall j | 0 <= j < |ds|
      ensures hand[j] !in q && (IsComplete(ds[j]) ==> Fill(s.slots, hand, ds)[hand[j]] == ds[j].bytes)
    {
      HandIsOwn(s.core, j);
      if IsComplete(ds[j]) {
        FillAt(s.slots, hand, ds, j);
      }
    }
    forall k | 0 <= k < |q| && q[k] < |s.slots|
      ensures Fill(s.slots, hand, ds)[q[k]] == s.slots[q[k]]
    {
      FillElsewhere(s.slots, hand, ds, q[k]);
    }
  }

  lemma ReceivedKeeps(s: State, slots': seq<Frame>, ds: seq<Datagram>)
    requires FlowOk(s) && s.core.io.Receive? && 0 < |ds| <= |s.core.io.hand| && |slots'| == |s.slots|
    requires forall j :: 0 <= j < |s.core.io.hand| ==> s.core.io.hand[j] < |s.slots|
    requires forall j :: 0 <= j < |ds| && IsComplete(ds[j]) ==> slots'[s.core.io.hand[j]] == ds[j].bytes
    requires var q := Queue(s.core); forall k :: 0 <= k < |q| && q[k] < |s.slots| ==> slots'[q[k]] == s.slots[q[k]]
    ensures FlowOk(s.(core := s.core.(io := Core.CheckRunning(s.core.io.hand, |ds|)),
                   slots := slots', batch := ds, offered := s.offered + ds))
  {
    hide Sourced, Track, IsComplete;
    assert Queue(s.core.(io := Core.CheckRunning(s.core.io.hand, |ds|))) == Queue(s.core);
    assert ds[0..] == ds;
  }

  lemma ReceiveKeeps(s: State, ds: seq<Datagram>)
    requires Invariant(s) && Safe(s) && s.core.io.Receive? && ds != []
    ensures FlowOk(IoStep(s, Got(ds)))
  {
    var hand := s.core.io.hand;
    var got := ds[..Min(|ds|, |hand|)];
    ReceiveFills(s, got);
    ReceivedKeeps(s, Fill(s.slots, hand, got), got);
  }

  /** The state after the check between a receive and its publication. */
  function Checked(s: State): State
    requires s.core.io.CheckRunning?
  {
    var (c, hand) := (s.core, s.core.io.hand);
    if c.running then s.(core := c.(io := Core.Publish(hand, c.io.n, 0)))
    else s.(core := c.(io := Core.LoopHead(hand)), batch := [], lost := s.batch)
  }

  lemma GoOnKeeps(s: State)
    requires FlowOk(s) && s.core.io.CheckRunning? && s.core.running
    ensures FlowOk(Checked(s))
  {
    assert Queue(Checked(s).core) == Queue(s.core);
    assert s.batch[0..] == s.batch;
  }

  lemma AbandonKeeps(s: State)
    requires FlowOk(s) && s.core.io.CheckRunning? && s.core.io.n <= Core.BATCH && !s.core.running
    ensures FlowOk(Checked(s))
  {
    assert Queue(Checked(s).core) == Queue(s.core);
    assert s.lost == [] && s.batch[0..] == s.batch;
    assert CountsOk(Checked(s));
  }

  lemma WaitingShrinks(offered: seq<Datagram>, handled: seq<Datagram>, batch: seq<Datagram>,
                       i: nat, lost: seq<Datagram>)
    requires i < |batch| && offered == handled + batch[i..] + lost
    ensures offered == (handled + [batch[i]]) + batch[i + 1..] + lost
  {
    assert batch[i..] == [batch[i]] + batch[i + 1..];
  }

  /** The state after publishing the next datagram of the batch. */
  function PublishedNext(s: State, f: Frame): State
    requires s.core.io.Publish? && s.core.io.i < |s.core.io.hand|
  {
    var c := s.core;
    var (hand, i) := (c.io.hand, c.io.i);
    s.(core := c.(ready := c.ready + [hand[i]], io := Core.Publish(hand, c.io.n, i + 1)),
       handled := s.handled + [Datagram(f, false)],
       published := s.published + [f], publishedAt := s.publishedAt + [|s.handled| + 1])
  }

  lemma PublishGrowsQueue(s: State, f: Frame)
    requires BatchOk(s) && QueueOk(s) && s.core.io.Publish? && s.core.io.i < s.core.io.n
    requires s.batch[s.core.io.i] == Datagram(f, false)
    ensures BatchOk(PublishedNext(s, f)) && QueueOk(PublishedNext(s, f))
  {
    var s' := PublishedNext(s, f);
    assert Queue(s'.core) == Queue(s.core) + [s.core.io.hand[s.core.io.i]];
  }

  lemma PublishKeepsCounts(s: State, f: Frame)
    requires CountsOk(s) && s.core.io.Publish? && s.core.io.i < |s.core.io.hand|
    requires s.core.io.i < |s.batch| && s.batch[s.core.io.i] == Datagram(f, false)
    ensures CountsOk(PublishedNext(s, f))
  {
    WaitingShrinks(s.offered, s.handled, s.batch, s.core.io.i, s.lost);
  }

  lemma PublishGoodKeeps(s: State, f: Frame)
    requires FlowOk(s) && s.core.io.Publish? && s.core.io.i < s.core.io.n && s.batch[s.core.io.i] == Datagram(f, false)
    ensures FlowOk(PublishedNext(s, f))
  {
    PublishGrowsQueue(s, f);
    PublishKeepsCounts(s, f);
    SourcedGrows(s.handled, s.published, s.publishedAt, f);
    hide BatchOk, QueueOk, CountsOk, Sourced;
  }

  /** The state after giving the slot of the next datagram back to `free`. */
  function DroppedNext(s: State, free': seq<nat>, d: Datagram): State
    requires s.core.io.Publish?
  {
    var c := s.core;
    s.(core := c.(drops := c.drops + 1, free := free', io := Core.Publish(c.io.hand, c.io.n, c.io.i + 1)),
       handled := s.handled + [d])
  }

  lemma DropKeepsQueue(s: State, free': seq<nat>, d: Datagram)
    requires BatchOk(s) && QueueOk(s) && s.core.io.Publish? && s.core.io.i < s.core.io.n
    ensures BatchOk(DroppedNext(s, free', d)) && QueueOk(DroppedNext(s, free', d))
  {
    assert Queue(DroppedNext(s, free', d).core) == Queue(s.core);
  }

  lemma DropKeepsCounts(s: State, free': seq<nat>)
    requires CountsOk(s) && s.core.io.Publish? && s.core.io.i < |s.batch|
    ensures CountsOk(DroppedNext(s, free', s.batch[s.core.io.i]))
  {
    WaitingShrinks(s.offered, s.handled, s.batch, s.core.io.i, s.lost);
  }

  lemma PublishBadKeeps(s: State, free': seq<nat>)
    requires FlowOk(s) && s.core.io.Publish? && s.core.io.i < s.core.io.n && Done(s.core.io) < |s.batch|
    ensures FlowOk(DroppedNext(s, free', s.batch[s.core.io.i]))
  {
    DropKeepsQueue(s, free', s.batch[s.core.io.i]);
    DropKeepsCounts(s, free');
    SourcedStays(s.handled, [s.batch[s.core.io.i]], s.published, s.publishedAt);
  }

  lemma PublishHasRoom(s: State, reply: Reply, f: Frame)
    requires Safe(s) && s.core.io.Publish? && s.core.io.i < s.core.io.n && Core.TotalHeld(s.core) == s.core.capacity
    requires s.batch[s.core.io.i] == Datagram(f, false)
    ensures IoStep(s, reply) == PublishedNext(s, f)
  {
  }

  lemma PublishKeeps(s: State, reply: Reply)
    requires Core.Owned(s.core) && FlowOk(s) && Safe(s) && s.core.io.Publish? && s.core.io.i < s.core.io.n
    ensures FlowOk(IoStep(s, reply))
  {
    var d := s.batch[s.core.io.i];
    if IsComplete(d) {
      PublishHasRoom(s, reply, d.bytes);
      PublishGoodKeeps(s, d.bytes);
    } else {
      assert IoStep(s, reply) == DroppedNext(s, IoStep(s, reply).core.free, d);
      PublishBadKeeps(s, IoStep(s, reply).core.free);
    }
  }

  lemma CheckStep(s: State, reply: Reply)
    requires Safe(s) && s.core.io.CheckRunning?
    ensures IoStep(s, reply) == Checked(s)
  {
  }

  lemma CheckKeeps(s: State, reply: Reply)
    requires Core.ShapeOk(s.core) && FlowOk(s) && Safe(s) && s.core.io.CheckRunning?
    ensures FlowOk(IoStep(s, reply))
  {
    CheckStep(s, reply);
    if s.core.running {
      GoOnKeeps(s);
    } else {
      AbandonKeeps(s);
    }
  }

  /** The IO thread is not at a step that touches datagrams. */
  predicate Elsewhere(s: State, reply: Reply) {
    match s.core.io
    case Receive(_, _) => reply.Failed? || reply.ds == []
    case CheckRunning(_, _) => false
    case Publish(_, n, i) => i == n
    case _ => true
  }

  /** Only the index machine moves, and no batch is in progress before or after. */
  ghost predicate OnlyIndices(s: State, c: Core.State) {
    && Core.PcsInRange(c) && c == s.core.(free := c.free, running := c.running, io := c.io)
    && Waiting(s) == [] && !c.io.CheckRunning? && !c.io.Publish?
    && (s.lost != [] ==> !c.running && (c.io.LoopHead? || c.io.IoDone?))
  }

  lemma ElsewhereStep(s: State, reply: Reply)
    requires Safe(s) && Elsewhere(s, reply) && BatchOk(s)
    ensures IoStep(s, reply) == s.(core := IoStep(s, reply).core, batch := [])
  {
  }

  lemma ElsewhereWaits(s: State, reply: Reply)
    requires Core.PcsInRange(s.core) && BatchOk(s) && Elsewhere(s, reply)
    ensures Waiting(s) == []
  {
  }

  lemma ElsewhereCore(c: Core.State, o: Core.Oracle)
    requires Core.ShapeOk(c) && !c.io.CheckRunning?
    requires (c.io.Receive? ==> o.received <= 0) && (c.io.Publish? ==> c.io.i == c.io.n)
    ensures var c' := Core.IoStep(c, o);
            && c' == c.(free := c'.free, running := c'.running, io := c'.io)
            && !c'.io.CheckRunning? && !c'.io.Publish?
            && (!c.running && (c.io.LoopHead? || c.io.IoDone?) ==> !c'.running && c'.io.IoDone?)
  {
  }

  lemma ElsewhereMoves(s: State, reply: Reply)
    requires Core.ShapeOk(s.core) && BatchOk(s) && Safe(s) && Elsewhere(s, reply)
    requires s.lost != [] ==> !s.core.running && (s.core.io.LoopHead? || s.core.io.IoDone?)
    requires Core.PcsInRange(IoStep(s, reply).core)
    ensures OnlyIndices(s, IoStep(s, reply).core)
  {
    ElsewhereWaits(s, reply);
    ElsewhereCore(s.core, OracleOf(s, reply));
    assert IoStep(s, reply).core == Core.IoStep(s.core, OracleOf(s, reply));
  }

  lemma OnlyIndicesKeeps(s: State, c: Core.State)
    requires FlowOk(s) && OnlyIndices(s, c)
    ensures FlowOk(s.(core := c, batch := []))
  {
    assert Queue(c) == Queue(s.core);
  }

  lemma OtherIoKeeps(s: State, reply: Reply)
    requires Invariant(s) && Safe(s) && Elsewhere(s, reply) && Core.PcsInRange(IoStep(s, reply).core)
    ensures FlowOk(IoStep(s, reply))
  {
    ElsewhereStep(s, reply);
    ElsewhereMoves(s, reply);
    OnlyIndicesKeeps(s, IoStep(s, reply).core);
  }

  lemma IoKeeps(s: State, reply: Reply)
    requires Invariant(s)
    ensures Safe(s) && Invariant(IoStep(s, reply))
  {
    InvariantIsSafe(s);
    Core.IoKeeps(s.core, OracleOf(s, reply));
    if Elsewhere(s, reply) {
      OtherIoKeeps(s, reply);
    } else if s.core.io.Receive? {
      ReceiveKeeps(s, reply.ds);
    } else if s.core.io.CheckRunning? {
      CheckKeeps(s, reply);
    } else {
      PublishKeeps(s, reply);
    }
  }

  // Consumer steps

  /** The consumer moves indices about without decoding. */
  lemma NoDecodeKeeps(s: State, c: Core.State)
    requires FlowOk(s) && Core.PcsInRange(c) && Queue(c) == Queue(s.core)
    requires c == s.core.(free := c.free, ready := c.ready, consumer := c.consumer)
    ensures FlowOk(s.(core := c))
  {
  }

  lemma QueueStays(c: Core.State)
    requires Core.PcsInRange(c) && !(c.consumer.Process? && c.consumer.i < |c.consumer.hand|)
    ensures var c' := Core.ConsumerStep(c);
            && Core.PcsInRange(c') && Queue(c') == Queue(c)
            && c' == c.(free := c'.free, ready := c'.ready, consumer := c'.consumer)
  {
  }

  function DecodedNext(s: State, f: Frame): State
    requires s.core.consumer.Process?
  {
    var (c, t) := (s.core, s.core.consumer);
    s.(core := c.(processed := c.processed + 1, consumer := Core.Process(t.hand, t.i + 1)),
       tracker := Step(s.tracker, Parse(f).value.seqNum), decoded := s.decoded + [f])
  }

  /** The next index of the consumer's batch is the oldest of the queue. */
  lemma QueueHead(c: Core.State)
    requires Core.PcsInRange(c) && c.consumer.Process? && c.consumer.i < |c.consumer.hand|
    ensures var (hand, i) := (c.consumer.hand, c.consumer.i);
            Queue(c) == [hand[i]] + Queue(c.(processed := c.processed + 1, consumer := Core.Process(hand, i + 1)))
  {
    assert c.consumer.hand[c.consumer.i..] == [c.consumer.hand[c.consumer.i]] + c.consumer.hand[c.consumer.i + 1..];
  }

  lemma DecodeShrinksQueue(s: State, f: Frame)
    requires QueueOk(s) && s.core.consumer.Process? && s.core.consumer.i < |s.core.consumer.hand|
    requires s.core.consumer.hand[s.core.consumer.i] < |s.slots|
          && f == s.slots[s.core.consumer.hand[s.core.consumer.i]]
    ensures QueueOk(DecodedNext(s, f))
  {
    QueueHead(s.core);
    var fs, n := s.published, |s.decoded|;
    CarriesTail(s.slots, s.core.consumer.hand[s.core.consumer.i], Queue(DecodedNext(s, f).core), fs[n..]);
    assert fs[n..][0] == fs[n] && fs[n..][1..] == fs[n + 1..];
  }

  lemma CarriesTail(slots: seq<Frame>, x: nat, q: seq<nat>, fs: seq<Frame>)
    requires Carries(slots, [x] + q, fs)
    ensures fs != [] && x < |slots| && slots[x] == fs[0] && Carries(slots, q, fs[1..])
  {
    assert ([x] + q)[0] == x && ([x] + q)[1..] == q;
  }

  lemma DecodeKeeps(s: State, f: Frame)
    requires FlowOk(s) && s.core.consumer.Process? && s.core.consumer.i < |s.core.consumer.hand|
    requires s.core.consumer.hand[s.core.consumer.i] < |s.slots|
          && f == s.slots[s.core.consumer.hand[s.core.consumer.i]]
    ensures FlowOk(DecodedNext(s, f))
  {
    DecodeShrinksQueue(s, f);
    TrackNext(s.decoded, f);
    assert CountsOk(DecodedNext(s, f));
  }

  lemma DecodeStep(s: State)
    requires Safe(s) && s.core.consumer.Process? && s.core.consumer.i < |s.core.consumer.hand|
    ensures ConsumerStep(s) == DecodedNext(s, s.slots[s.core.consumer.hand[s.core.consumer.i]])
  {
  }

  lemma ConsumerKeeps(s: State)
    requires Invariant(s)
    ensures Safe(s) && Invariant(ConsumerStep(s))
  {
    InvariantIsSafe(s);
    Core.ConsumerKeeps(s.core);
    if s.core.consumer.Process? && s.core.consumer.i < |s.core.consumer.hand| {
      DecodeStep(s);
      DecodeKeeps(s, s.slots[s.core.consumer.hand[s.core.consumer.i]]);
    } else {
      QueueStays(s.core);
      NoDecodeKeeps(s, Core.ConsumerStep(s.core));
    }
  }

  lemma StopKeeps(s: State)
    requires Invariant(s)
    ensures Invariant(s.(core := s.core.(running := false)))
  {
    Core.StopKeeps(s.core);
    assert Queue(s.core.(running := false)) == Queue(s.core);
  }

  // Whole runs

  lemma {:induction false} RunKeeps(run: seq<State>, i: nat)
    requires Run(run) && i < |run|
    ensures Invariant(run[i])
  {
    if i == 0 {
      Core.InitInvariant(run[0].core);
      assert SeqNums([]) == [];
    } else {
      RunKeeps(run, i - 1);
      var s, s' := run[i - 1], run[i];
      assert Next(s, run[i - 1 + 1]);
      if s' == ConsumerStep(s) {
        ConsumerKeeps(s);
      } else if s' == s.(core := s.core.(running := false)) {
        StopKeeps(s);
      } else {
        var reply :| s' == IoStep(s, reply);
        IoKeeps(s, reply);
      }
    }
  }

  function ViewOf(s: State): View {
    View(s.offered, s.published, s.publishedAt, s.decoded, s.tracker)
  }

  /** Refinement: batching, early exits and the shared slots are invisible but for losses. */
  lemma RunsAreLossyFifos(run: seq<State>, i: nat)
    requires Run(run) && i < |run|
    ensures Safe(run[i]) && LossyFifo(ViewOf(run[i]))
  {
    RunKeeps(run, i);
    InvariantIsSafe(run[i]);
    var s := run[i];
    SourcedStays(s.handled, Waiting(s) + s.lost, s.published, s.publishedAt);
    assert s.offered == s.handled + (Waiting(s) + s.lost);
  }

  /**
   Conservation: every datagram received was dropped by the IO thread, processed, dropped as out of
   order, is in flight, or was abandoned with the one batch in hand at a stop.
   */
  lemma DatagramsAreConserved(run: seq<State>, i: nat)
    requires Run(run) && i < |run|
    ensures var s := run[i];
            var inFlight := |Waiting(s)| + |s.published| - |s.decoded|;
            && |s.offered| == s.core.drops + s.tracker.processed + s.tracker.drops + inFlight + |s.lost|
            && 0 <= inFlight <= s.core.capacity
            && s.decodeErrors == 0 && s.core.processed == s.tracker.received
            && |s.lost| <= Core.BATCH && (s.core.running ==> s.lost == [])
  {
    var s := run[i];
    RunKeeps(run, i);
    TrackTotals(SeqNums(s.decoded));
    InFlightFits(s);
  }

  lemma InFlightFits(s: State)
    requires Invariant(s)
    ensures |Waiting(s)| + |Queue(s.core)| <= s.core.capacity
  {
    assert |Waiting(s)| <= |Core.IoHand(s.core)|;
    assert |Pending(s.core)| <= |Core.ConsumerHand(s.core)|;
  }

  lemma WritesAreReceives(s: State, s': State) returns (reply: Reply)
    requires Next(s, s') && s'.slots != s.slots
    ensures s.core.io.Receive? && reply.Got?
    ensures s'.slots == Fill(s.slots, s.core.io.hand, reply.ds[..Min(|reply.ds|, |s.core.io.hand|)])
  {
    reply :| s' == IoStep(s, reply);
  }

  /** A slot changes only while the IO thread holds it: never while it is queued or being decoded. */
  lemma OnlyHeldSlotsAreWritten(run: seq<State>, i: nat, slot: nat)
    requires Run(run) && i + 1 < |run| && slot < |run[i].slots|
    ensures |run[i + 1].slots| == |run[i].slots| && Core.Owned(run[i].core)
    ensures run[i + 1].slots[slot] != run[i].slots[slot] ==>
              slot in Core.IoHand(run[i].core) && slot !in Queue(run[i].core)
  {
    var s, s' := run[i], run[i + 1];
    RunKeeps(run, i);
    assert Next(s, s');
    if s'.slots != s.slots {
      var reply := WritesAreReceives(s, s');
      var hand := s.core.io.hand;
      var got := reply.ds[..Min(|reply.ds|, |hand|)];
      if slot in hand {
        var j :| 0 <= j < |hand| && hand[j] == slot;
        HandIsOwn(s.core, j);
      } else {
        FillElsewhere(s.slots, hand, got, slot);
      }
    }
  }

  lemma ExitSeesEmpty(c: Core.State, c': Core.State)
    requires Core.Next(c, c') && !c.consumer.ConsumerDone? && c'.consumer.ConsumerDone?
    ensures c.consumer.WhileReady? && c.ready == []
  {
  }

  /** Draining: at the moment the consumer leaves its loop, everything published has been decoded. */
  lemma ConsumerDrainsBeforeExit(run: seq<State>, i: nat)
    requires Run(run) && i + 1 < |run|
    requires !run[i].core.consumer.ConsumerDone? && run[i + 1].core.consumer.ConsumerDone?
    ensures run[i].decoded == run[i].published
  {
    RunKeeps(run, i);
    assert Next(run[i], run[i + 1]);
    CoreStep(run[i], run[i + 1]);
    ExitSeesEmpty(run[i].core, run[i + 1].core);
  }

  /** After that at most one more batch is published, and stays undecoded in `ready` for good. */
  lemma StrandedAtTheEnd(run: seq<State>, i: nat)
    requires Run(run) && i < |run| && run[i].core.consumer.ConsumerDone?
    ensures !run[i].core.running && |run[i].published| - |run[i].decoded| == |run[i].core.ready| <= Core.BATCH
  {
    RunKeeps(run, i);
    CoresRun(run);
    Core.AtMostOneBatchStranded(Cores(run), i);
  }

  // What is published

  /** The complete ones among some datagrams. */
  function CompleteFrames(ds: seq<Datagram>): seq<Frame> {
    if ds == [] then []
    else
      var n := |ds| - 1;
      CompleteFrames(ds[..n]) + if !ds[n].truncated && |ds[n].bytes| == 44 then [ds[n].bytes] else []
  }

  lemma CompleteMore(ds: seq<Datagram>, d: Datagram)
    ensures CompleteFrames(ds + [d]) ==
            CompleteFrames(ds) + if !d.truncated && |d.bytes| == 44 then [d.bytes] else []
  {
    assert (ds + [d])[..|ds|] == ds;
  }

  lemma WorkingOff(s: State, s': State)
    requires Invariant(s) && Next(s, s')
    ensures (s'.handled == s.handled && s'.published == s.published)
         || (exists d :: s'.handled == s.handled + [d]
                         && s'.published == s.published + if !d.truncated && |d.bytes| == 44 then [d.bytes] else [])
  {
    if s' != ConsumerStep(s) && s' != s.(core := s.core.(running := false)) {
      var reply :| s' == IoStep(s, reply);
      var io := s.core.io;
      if io.Publish? && io.i < io.n {
        var d := s.batch[io.i];
        RoomInReady(s);
        assert s'.handled == s.handled + [d];
      }
    }
  }

  lemma RoomInReady(s: State)
    requires Invariant(s) && s.core.io.Publish? && s.core.io.i < s.core.io.n
    ensures |s.core.ready| < s.core.capacity
  {
  }

  /** In every run the frames published are exactly the complete datagrams among those worked off. */
  lemma {:induction false} PublishedAreComplete(run: seq<State>, i: nat)
    requires Run(run) && i < |run|
    ensures run[i].published == CompleteFrames(run[i].handled)
  {
    if i > 0 {
      PublishedAreComplete(run, i - 1);
      RunKeeps(run, i - 1);
      var s, s' := run[i - 1], run[i];
      assert Next(s, run[i - 1 + 1]);
      WorkingOff(s, s');
      hide Next, Invariant, CompleteFrames;
      if s'.handled != s.handled {
        var d :| s'.handled == s.handled + [d]
                 && s'.published == s.published + if !d.truncated && |d.bytes| == 44 then [d.bytes] else [];
        CompleteMore(s.handled, d);
      }
    }
  }

  // What a stop abandons

  lemma OtherKeepsLost(s: State, reply: Reply)
    requires Safe(s) && !s.core.io.CheckRunning?
    ensures IoStep(s, reply).lost == s.lost
  {
  }

  lemma AbandonedByCheck(s: State, s': State)
    requires Invariant(s) && Next(s, s')
    ensures s.lost == [] && s'.lost != [] <==> s.core.io.CheckRunning? && !s.core.running && s'.core.io.LoopHead?
    ensures s.lost != [] ==> s'.lost == s.lost
    ensures s.lost == [] && s'.lost != [] ==> s'.lost == s.batch && s'.core.io.left == s.core.io.hand
  {
    assert s.core.io.CheckRunning? ==> |s.batch| == s.core.io.n && s.lost == [];
    StepAbandons(s, s');
  }

  lemma StepAbandons(s: State, s': State)
    requires Core.PcsInRange(s.core) && Next(s, s')
    requires s.core.io.CheckRunning? ==> |s.batch| == s.core.io.n && s.lost == []
    ensures s.lost == [] && s'.lost != [] <==> s.core.io.CheckRunning? && !s.core.running && s'.core.io.LoopHead?
    ensures s.lost != [] ==> s'.lost == s.lost
    ensures s.lost == [] && s'.lost != [] ==> s'.lost == s.batch && s'.core.io.left == s.core.io.hand
  {
    if s' == ConsumerStep(s) || s' == s.(core := s.core.(running := false)) {
      assert s'.core.io == s.core.io && s'.lost == s.lost;
    } else {
      var reply :| s' == IoStep(s, reply);
      if s.core.io.CheckRunning? {
        CheckStep(s, reply);
      } else {
        OtherKeepsLost(s, reply);
      }
    }
  }

  /**
   In every run datagrams are abandoned at exactly one kind of moment: the IO thread, with a batch
   received, finds the engine stopped. What is lost is that batch, and its indices stay in hand.
   */
  lemma AbandonedIff(run: seq<State>, i: nat)
    requires Run(run) && i + 1 < |run|
    ensures var s, s' := run[i], run[i + 1];
            && (s.lost == [] && s'.lost != [] <==> s.core.io.CheckRunning? && !s.core.running && s'.core.io.LoopHead?)
            && (s.lost == [] && s'.lost != [] ==> s'.lost == s.batch && s'.core.io.left == s.core.io.hand)
            && (s.lost != [] ==> s'.lost == s.lost)
  {
    RunKeeps(run, i);
    assert Next(run[i], run[i + 1]);
    AbandonedByCheck(run[i], run[i + 1]);
  }

  function Last(run: seq<State>): State
    requires run != []
  {
    run[|run| - 1]
  }

  lemma Extend(run: seq<State>, s: State)
    requires Run(run) && (Safe(Last(run)) ==> Next(Last(run), s))
    ensures Run(run + [s]) && Last(run + [s]) == s
  {
    RunKeeps(run, |run| - 1);
    InvariantIsSafe(Last(run));
  }

  lemma LastIsSafe(run: seq<State>)
    requires Run(run)
    ensures Invariant(Last(run)) && Safe(Last(run))
  {
    RunKeeps(run, |run| - 1);
    InvariantIsSafe(Last(run));
  }

  /** The IO thread goes on reserving until it has a full batch or `free` is empty. */
  lemma {:induction false} ReserveOn(run: seq<State>) returns (longer: seq<State>)
    requires Run(run) && var c := Last(run).core; c.running && c.io.Reserve? && |c.io.hand| + |c.free| > 0
    ensures Run(longer) && run <= longer
    ensures var s, c := Last(run), Last(longer).core;
            && Last(longer) == s.(core := c) && c.running && c.io.Receive?
            && |c.io.hand| == Min(Core.BATCH, |s.core.io.hand| + |s.core.free|)
    decreases |Last(run).core.free|
  {
    LastIsSafe(run);
    var s := Last(run);
    var s' := IoStep(s, Failed);
    Extend(run, s');
    if s'.core.io.Reserve? {
      longer := ReserveOn(run + [s']);
    } else {
      longer := run + [s'];
    }
  }

  /** The start: every index free, nothing received. */
  function Start(slots: seq<Frame>): State {
    var core := Core.State(|slots|, Indices(|slots|), [], true, Core.LoopHead([]), Core.WhileRunning, 0, 0);
    State(core, slots, [], START, 0, [], [], [], [], [], [])
  }

  lemma StartReserves(slots: seq<Frame>) returns (run: seq<State>)
    requires slots != []
    ensures Run(run) && run[0] == Start(slots)
    ensures var s, c := Start(slots), Last(run).core;
            && Last(run) == s.(core := c) && c.running && c.io.Receive? && |c.io.hand| == Min(Core.BATCH, |slots|)
  {
    var s := Start(slots);
    run := [s];
    LastIsSafe(run);
    var s' := IoStep(s, Failed);
    Extend(run, s');
    run := ReserveOn(run + [s']);
  }

  /**
   The loss is real: in every pool, whatever datagrams arrive first, there is a run in which all
   of them are received, the engine is stopped, and they are abandoned with their indices.
   */
  lemma AbandonedRun(slots: seq<Frame>, ds: seq<Datagram>) returns (run: seq<State>)
    requires slots != [] && 0 < |ds| <= Min(Core.BATCH, |slots|)
    ensures Run(run) && run[0] == Start(slots)
    ensures var s := Last(run);
            && s.lost == s.offered == ds && s.core.io.LoopHead? && |s.core.io.left| == Min(Core.BATCH, |slots|)
  {
    run := StartReserves(slots);
    LastIsSafe(run);
    run := Receives(run, ds);
    LastIsSafe(run);
    var stopped := Last(run).(core := Last(run).core.(running := false));
    Extend(run, stopped);
    run := run + [stopped];
    LastIsSafe(run);
    CheckStep(stopped, Failed);
    Extend(run, IoStep(stopped, Failed));
    run := run + [IoStep(stopped, Failed)];
  }

  lemma Receives(run: seq<State>, ds: seq<Datagram>) returns (longer: seq<State>)
    requires Run(run) && Safe(Last(run)) && Last(run).core.io.Receive?
    requires 0 < |ds| <= |Last(run).core.io.hand|
    ensures Run(longer) && run <= longer
    ensures var s, s' := Last(run), Last(longer);
            && s'.core == s.core.(io := Core.CheckRunning(s.core.io.hand, |ds|))
            && s'.batch == ds && s'.offered == s.offered + ds && s'.lost == s.lost
  {
    var s' := IoStep(Last(run), Got(ds));
    assert ds[..|ds|] == ds;
    Extend(run, s');
    longer := run + [s'];
  }
}
