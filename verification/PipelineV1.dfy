/**
 The first engine: the IO thread takes a slot index from `free`, copies a datagram into the slot
 and passes the index through `ready`; the consumer decodes the slot and gives the index back.
 Both threads are interleaved at every load and store of both rings and every byte of a slot.
 */
module PipelineV1 {
  import opened Words
  import opened Wrappers
  import opened RingBuffers
  import opened Codec
  import opened FramePools
  import opened SequenceTracking
  import opened LossyFifos

  datatype IoPc =
    | IoIdle
    | IoPop(frame: Frame, pop: PopPc<nat>)
    | IoCopy(frame: Frame, idx: nat, copied: nat)
    | IoPush(frame: Frame, idx: nat, push: PushPc<nat>)
    | IoFallback(idx: nat, push: PushPc<nat>)

  datatype ConsumerPc =
    | CheckRunning
    | CheckEmptyHead
    | CheckEmptyTail(h: Word)
    | TakeReady(pop: PopPc<nat>)
    | DecodeSlot(idx: nat, got: seq<Byte>)
    | GiveBack(idx: nat, push: PushPc<nat>)
    | Exited

  /**
   The shared memory, the two program counters and the metrics. The remaining fields record the
   run: the datagrams handled, what went through the rings, the frames published (and which
   datagrams they were) and the frames decoded.
   */
  datatype State = State(
    free: Ring<nat>,
    ready: Ring<nat>,
    slots: seq<Frame>,
    running: bool,
    io: IoPc,
    consumer: ConsumerPc,
    ioDrops: nat,
    decodeErrors: nat,
    tracker: Tracker,
    offered: seq<Datagram>,
    freeHistory: History<nat>,
    readyHistory: History<nat>,
    accepted: seq<Frame>,
    acceptedAt: seq<nat>,
    decoded: seq<Frame>)

  /** Every memory access the next step makes is inside its array. */
  ghost predicate Safe(s: State) {
    && |s.free.buffer| > 0 && |s.ready.buffer| > 0
    && (s.io.IoCopy? ==> s.io.idx < |s.slots| && s.io.copied < WIRE_SIZE)
    && (s.consumer.DecodeSlot? ==> s.consumer.idx < |s.slots| && |s.consumer.got| < WIRE_SIZE)
  }

  /** The IO thread's next access; `d` is the datagram it handles when it is idle. */
  function IoStep(s: State, d: Datagram): State
    requires Safe(s)
  {
    match s.io
    case IoIdle =>
      if !IsComplete(d) then
        s.(offered := s.offered + [d], ioDrops := s.ioDrops + 1)
      else
        s.(offered := s.offered + [d], io := IoPop(d.bytes, PopLoadHead))
    case IoPop(f, p) =>
      var (free', p') := PopStep(s.free, p);
      var s' := s.(free := free', freeHistory := AfterPop(s.freeHistory, p));
      (match p'
       case PopDone(None) => s'.(io := IoIdle, ioDrops := s.ioDrops + 1)
       case PopDone(Some(idx)) => s'.(io := IoCopy(f, idx, 0))
       case _ => s'.(io := IoPop(f, p')))
    case IoCopy(f, idx, k) =>
      s.(slots := s.slots[idx := s.slots[idx][k := f[k]]],
         io := if k + 1 < WIRE_SIZE then IoCopy(f, idx, k + 1) else IoPush(f, idx, PushLoadHead(idx)))
    case IoPush(f, idx, p) =>
      var (ready', p') := PushStep(s.ready, p);
      var s' := s.(ready := ready', readyHistory := AfterPush(s.readyHistory, p));
      (match p'
       case PushDone(true) =>
         s'.(io := IoIdle, accepted := s.accepted + [f], acceptedAt := s.acceptedAt + [|s.offered|])
       case PushDone(false) => s'.(io := IoFallback(idx, PushLoadHead(idx)), ioDrops := s.ioDrops + 1)
       case _ => s'.(io := IoPush(f, idx, p')))
    case IoFallback(idx, p) =>
      var (free', p') := PushStep(s.free, p);
      s.(free := free', freeHistory := AfterPush(s.freeHistory, p),
         io := if p'.PushDone? then IoIdle else IoFallback(idx, p'))
  }

  /** The consumer's next access. */
  function ConsumerStep(s: State): State
    requires Safe(s)
  {
    match s.consumer
    case CheckRunning => s.(consumer := if s.running then TakeReady(PopLoadHead) else CheckEmptyHead)
    case CheckEmptyHead => s.(consumer := CheckEmptyTail(s.ready.head))
    case CheckEmptyTail(h) => s.(consumer := if h == s.ready.tail then Exited else TakeReady(PopLoadHead))
    case TakeReady(p) =>
      var (ready', p') := PopStep(s.ready, p);
      var s' := s.(ready := ready', readyHistory := AfterPop(s.readyHistory, p));
      (match p'
       case PopDone(None) => s'.(consumer := CheckRunning)
       case PopDone(Some(idx)) => s'.(consumer := DecodeSlot(idx, []))
       case _ => s'.(consumer := TakeReady(p')))
    case DecodeSlot(idx, got) =>
      var got' := got + [s.slots[idx][|got|]];
      if |got'| < WIRE_SIZE then
        s.(consumer := DecodeSlot(idx, got'))
      else
        Consume(s, got').(consumer := GiveBack(idx, PushLoadHead(idx)))
    case GiveBack(idx, p) =>
      var (free', p') := PushStep(s.free, p);
      s.(free := free', freeHistory := AfterPush(s.freeHistory, p),
         consumer := if p'.PushDone? then CheckRunning else GiveBack(idx, p'))
    case Exited => s
  }

  /** Decode the bytes read and run the sequence tracker, or count a decode error. */
  function Consume(s: State, f: Frame): State {
    match Parse(f)
    case Some(m) => s.(tracker := Step(s.tracker, m.seqNum), decoded := s.decoded + [f])
    case None => s.(decodeErrors := s.decodeErrors + 1)
  }

  ghost predicate Init(s: State) {
    && |s.free.buffer| == |s.ready.buffer| == |s.slots|
    && s.freeHistory == History(Indices(|s.slots|), 0) && Represents(s.free, s.freeHistory)
    && s.readyHistory == History([], 0) && Represents(s.ready, s.readyHistory)
    && s.io == IoIdle && s.consumer == CheckRunning
    && s.offered == [] && s.ioDrops == 0 && s.decodeErrors == 0 && s.tracker == START
    && s.accepted == [] && s.acceptedAt == [] && s.decoded == []
  }

  ghost predicate Next(s: State, s': State) {
    && Safe(s)
    && (|| (exists d :: s' == IoStep(s, d))
        || s' == ConsumerStep(s)
        || s' == s.(running := false))
  }

  ghost predicate Run(run: seq<State>) {
    && run != [] && Init(run[0])
    && forall i :: 0 <= i && i + 1 < |run| ==> Next(run[i], run[i + 1])
  }

  // Who holds what

  predicate IoHolds(s: State) {
    s.io.IoCopy? || s.io.IoPush? || s.io.IoFallback?
  }

  predicate ConsumerHolds(s: State) {
    s.consumer.DecodeSlot? || s.consumer.GiveBack?
  }

  ghost function InIoHand(s: State, i: nat): nat {
    if IoHolds(s) && s.io.idx == i then 1 else 0
  }

  ghost function InConsumerHand(s: State, i: nat): nat {
    if ConsumerHolds(s) && s.consumer.idx == i then 1 else 0
  }

  /** How often index `i` is held: free, by the IO thread, ready, or by the consumer. */
  ghost function Held(s: State, i: nat): nat
    requires s.freeHistory.Valid() && s.readyHistory.Valid()
  {
    Occurs(s.freeHistory.Contents(), i) + InIoHand(s, i) + Occurs(s.readyHistory.Contents(), i) + InConsumerHand(s, i)
  }

  ghost function TotalHeld(s: State): nat
    requires s.freeHistory.Valid() && s.readyHistory.Valid()
  {
    |s.freeHistory.Contents()| + (if IoHolds(s) then 1 else 0)
    + |s.readyHistory.Contents()| + (if ConsumerHolds(s) then 1 else 0)
  }

  // The threads as pusher and popper of each ring

  function FreePopper(s: State): PopPc<nat> {
    if s.io.IoPop? then s.io.pop else PopDone(None)
  }

  function ReadyPusher(s: State): PushPc<nat> {
    if s.io.IoPush? then s.io.push else PushDone(true)
  }

  function ReadyPopper(s: State): PopPc<nat> {
    if s.consumer.TakeReady? then s.consumer.pop else PopDone(None)
  }

  function FreePusher(s: State): PushPc<nat> {
    if s.consumer.GiveBack? then s.consumer.push else PushDone(true)
  }

  /** A push in progress carries the index in hand and has seen room. */
  ghost predicate PushHasRoom(r: Ring<nat>, idx: nat, p: PushPc<nat>) {
    && !p.PushDone? && p.x == idx
    && (p.PushLoadTail? ==> Sub(r.tail, p.h) < |r.buffer|)
  }

  // The simultaneous invariant

  /** Both rings represent their histories, and each has one pusher and one popper. */
  ghost predicate RingsOk(s: State) {
    && |s.free.buffer| == |s.ready.buffer| == |s.slots|
    && RingOk(s.free, s.freeHistory, FreePusher(s), FreePopper(s))
    && RingOk(s.ready, s.readyHistory, ReadyPusher(s), ReadyPopper(s))
  }

  /** Program counters: in particular the IO thread never reaches its fallback push. */
  ghost predicate PcsOk(s: State) {
    && !s.io.IoFallback?
    && (s.io.IoPop? ==> !s.io.pop.PopDone?)
    && (s.io.IoCopy? ==> s.io.copied < WIRE_SIZE)
    && (s.io.IoPush? ==> PushHasRoom(s.ready, s.io.idx, s.io.push))
    && (s.consumer.CheckEmptyHead? || s.consumer.CheckEmptyTail? ==> !s.running)
    && (s.consumer.CheckEmptyTail? ==> s.consumer.h == s.ready.head)
    && (s.consumer.TakeReady? ==> !s.consumer.pop.PopDone?)
    && (s.consumer.DecodeSlot? ==> |s.consumer.got| < WIRE_SIZE)
    && (s.consumer.GiveBack? ==> PushHasRoom(s.free, s.consumer.idx, s.consumer.push))
  }

  /** Every index is held exactly once, and nothing else is held. */
  ghost predicate Owned(s: State) {
    && s.freeHistory.Valid() && s.readyHistory.Valid()
    && TotalHeld(s) == |s.slots|
    && forall i: nat :: Held(s, i) == if i < |s.slots| then 1 else 0
  }

  /** Every slot between the threads holds the frame published through it. */
  ghost predicate DataOk(s: State) {
    var h := s.readyHistory;
    && |s.accepted| == |h.pushed| && h.popped <= |h.pushed|
    && (forall n :: h.popped <= n < |h.pushed| ==> h.pushed[n] < |s.slots| && s.slots[h.pushed[n]] == s.accepted[n])
    && (s.io.IoCopy? ==>
          && s.io.idx < |s.slots| && s.io.copied <= WIRE_SIZE
          && s.slots[s.io.idx][..s.io.copied] == s.io.frame[..s.io.copied])
    && (s.io.IoPush? ==> s.io.idx < |s.slots| && s.slots[s.io.idx] == s.io.frame)
    && (s.consumer.DecodeSlot? ==>
          && h.popped > 0 && s.consumer.idx < |s.slots|
          && s.slots[s.consumer.idx] == s.accepted[h.popped - 1]
          && |s.consumer.got| <= WIRE_SIZE && s.consumer.got == s.accepted[h.popped - 1][..|s.consumer.got|])
    && s.decoded == s.accepted[..Decoded(s)]
  }

  function Decoded(s: State): (n: nat)
    ensures n <= s.readyHistory.popped
  {
    if s.consumer.DecodeSlot? && s.readyHistory.popped > 0 then s.readyHistory.popped - 1 else s.readyHistory.popped
  }

  /** Every datagram handled was dropped, published or is still in the IO thread's hand. */
  ghost predicate CountsOk(s: State) {
    && |s.offered| == s.ioDrops + |s.accepted| + (if s.io.IoIdle? then 0 else 1)
    && s.decodeErrors == 0
    && s.tracker == Track(SeqNums(s.decoded))
  }

  /** The frames published are datagrams handled, complete, unaltered and in the order they came. */
  ghost predicate SourceOk(s: State) {
    && |s.acceptedAt| == |s.accepted|
    && (forall n :: 0 <= n < |s.accepted| ==> IsOffered(s.offered, s.acceptedAt[n], s.accepted[n]))
    && (forall m, n :: 0 <= m < n < |s.accepted| ==> s.acceptedAt[m] < s.acceptedAt[n])
    && (!s.io.IoIdle? ==>
          && s.offered != []
          && (forall n :: 0 <= n < |s.accepted| ==> s.acceptedAt[n] < |s.offered|)
          && (s.io.IoPop? || s.io.IoCopy? || s.io.IoPush? ==> IsOffered(s.offered, |s.offered|, s.io.frame)))
  }

  ghost predicate Invariant(s: State) {
    RingsOk(s) && PcsOk(s) && Owned(s) && DataOk(s) && CountsOk(s) && SourceOk(s)
  }

  // Ownership arithmetic

  /** The slot in the IO thread's hand is in nobody else's. */
  lemma IoHandExclusive(s: State)
    requires Owned(s) && IoHolds(s)
    ensures s.io.idx < |s.slots|
    ensures s.io.idx !in s.readyHistory.Contents() && s.io.idx !in s.freeHistory.Contents()
    ensures ConsumerHolds(s) ==> s.consumer.idx != s.io.idx
  {
    OccursIn(s.readyHistory.Contents(), s.io.idx);
    OccursIn(s.freeHistory.Contents(), s.io.idx);
    assert Held(s, s.io.idx) >= 1;
  }

  lemma FreeIsIndex(s: State)
    requires Owned(s) && s.freeHistory.popped < |s.freeHistory.pushed|
    ensures s.freeHistory.pushed[s.freeHistory.popped] < |s.slots|
  {
    var i := s.freeHistory.pushed[s.freeHistory.popped];
    PopTakes(s.freeHistory, i);
    assert Held(s, i) >= 1;
  }

  // IO steps

  lemma IoIdleKeepsRings(s: State, d: Datagram)
    requires RingsOk(s) && PcsOk(s) && Safe(s) && s.io.IoIdle?
    ensures var s' := IoStep(s, d); RingsOk(s') && PcsOk(s')
  {
  }

  lemma IoPopKeepsRings(s: State, d: Datagram)
    requires RingsOk(s) && PcsOk(s) && Safe(s) && s.io.IoPop?
    ensures var s' := IoStep(s, d); RingsOk(s') && PcsOk(s')
  {
    var s' := IoStep(s, d);
    PopStepKeeps(s.free, s.freeHistory, FreePusher(s), s.io.pop);
    assert RingOk(s'.free, s'.freeHistory, FreePusher(s'), FreePopper(s'));
  }

  lemma IoCopyKeepsRings(s: State, d: Datagram)
    requires RingsOk(s) && PcsOk(s) && Safe(s) && s.io.IoCopy?
    ensures var s' := IoStep(s, d); RingsOk(s') && PcsOk(s')
  {
  }

  lemma IoPushKeepsRings(s: State, d: Datagram)
    requires RingsOk(s) && PcsOk(s) && Safe(s) && s.io.IoPush? && Owned(s)
    ensures var s' := IoStep(s, d); RingsOk(s') && PcsOk(s')
  {
    var s' := IoStep(s, d);
    var (r', p') := PushStep(s.ready, s.io.push);
    PushStepKeeps(s.ready, s.readyHistory, s.io.push, ReadyPopper(s));
    PushKeepsRoom(s.ready, s.readyHistory, s.io.idx, s.io.push);
    assert RingOk(s'.ready, s'.readyHistory, ReadyPusher(s'), ReadyPopper(s'));
  }

  /** With room in the ring, a push that has seen room does not fail and keeps seeing room. */
  lemma PushKeepsRoom(r: Ring<nat>, h: History<nat>, idx: nat, p: PushPc<nat>)
    requires Represents(r, h) && PushHasRoom(r, idx, p) && |h.Contents()| < |r.buffer|
    ensures var (r', p') := PushStep(r, p); p' == PushDone(true) || PushHasRoom(r', idx, p')
    ensures PushStep(r, p).1.PushDone? <==> p.PushStoreTail?
  {
    Occupancy(r, h);
  }

  lemma IoKeepsRings(s: State, d: Datagram)
    requires RingsOk(s) && PcsOk(s) && Owned(s) && Safe(s)
    ensures RingsOk(IoStep(s, d)) && PcsOk(IoStep(s, d))
  {
    match s.io
    case IoIdle => IoIdleKeepsRings(s, d);
    case IoPop(_, _) => IoPopKeepsRings(s, d);
    case IoCopy(_, _, _) => IoCopyKeepsRings(s, d);
    case IoPush(_, _, _) => IoPushKeepsRings(s, d);
  }

  // What the remaining lemmas need to know about the rings

  /** A pop about to store the head holds the oldest element. */
  ghost predicate PopTakesFirst(h: History<nat>, p: PopPc<nat>) {
    p.PopStoreHead? ==> h.popped < |h.pushed| && p.x == h.pushed[h.popped]
  }

  /** A push returns only by storing the tail, and then succeeds. */
  ghost predicate PushSucceeds(r: Ring<nat>, idx: nat, p: PushPc<nat>) {
    && |r.buffer| > 0 && !p.PushDone? && p.x == idx
    && (if p.PushStoreTail? then PushStep(r, p).1 == PushDone(true) else !PushStep(r, p).1.PushDone?)
  }

  ghost predicate RingFacts(s: State) {
    && Safe(s) && !s.io.IoFallback?
    && s.freeHistory.Valid() && s.readyHistory.Valid()
    && (s.io.IoPop? ==> PopTakesFirst(s.freeHistory, s.io.pop) && !s.io.pop.PopDone?)
    && (s.io.IoPush? ==> PushSucceeds(s.ready, s.io.idx, s.io.push))
    && (s.consumer.TakeReady? ==> PopTakesFirst(s.readyHistory, s.consumer.pop) && !s.consumer.pop.PopDone?)
    && (s.consumer.GiveBack? ==> PushSucceeds(s.free, s.consumer.idx, s.consumer.push))
  }

  lemma RingFactsHold(s: State)
    requires RingsOk(s) && PcsOk(s) && Owned(s) && DataOk(s)
    ensures RingFacts(s)
  {
    if s.io.IoPush? {
        PushKeepsRoom(s.ready, s.readyHistory, s.io.idx, s.io.push);
    }
    if s.consumer.GiveBack? {
        PushKeepsRoom(s.free, s.freeHistory, s.consumer.idx, s.consumer.push);
    }
  }

  ghost predicate HoldsSame(s: State, s': State, i: nat) {
    && s.freeHistory.Valid() && s.readyHistory.Valid() && s'.freeHistory.Valid() && s'.readyHistory.Valid()
    && Held(s', i) == Held(s, i) && TotalHeld(s') == TotalHeld(s)
  }

  /** The state after the IO thread has taken the oldest free index. */
  function TakenByIo(s: State): State
    requires s.io.IoPop? && s.io.pop.PopStoreHead?
  {
    s.(free := s.free.(head := Inc(s.io.pop.h)), freeHistory := s.freeHistory.(popped := s.freeHistory.popped + 1),
       io := IoCopy(s.io.frame, s.io.pop.x, 0))
  }

  lemma TakenByIoMoves(s: State, i: nat)
    requires s.freeHistory.Valid() && s.readyHistory.Valid()
    requires s.io.IoPop? && s.io.pop.PopStoreHead? && PopTakesFirst(s.freeHistory, s.io.pop)
    ensures HoldsSame(s, TakenByIo(s), i)
  {
    PopTakes(s.freeHistory, i);
  }

  lemma IoPopStep(s: State, d: Datagram)
    requires Safe(s) && s.io.IoPop? && !s.io.pop.PopDone?
    ensures var s' := IoStep(s, d);
            if s.io.pop.PopStoreHead? then s' == TakenByIo(s)
            else s' == s.(io := s'.io, ioDrops := s'.ioDrops) && !IoHolds(s')
  {
  }

  lemma IoPopMoves(s: State, d: Datagram, i: nat)
    requires RingFacts(s) && s.io.IoPop?
    ensures HoldsSame(s, IoStep(s, d), i)
  {
    IoPopStep(s, d);
    if s.io.pop.PopStoreHead? {
      TakenByIoMoves(s, i);
    }
  }

  lemma IoPushMoves(s: State, d: Datagram, i: nat)
    requires RingFacts(s) && s.io.IoPush?
    ensures HoldsSame(s, IoStep(s, d), i)
  {
    var s' := IoStep(s, d);
    if s.io.push.PushStoreTail? {
      assert s'.readyHistory == s.readyHistory.(pushed := s.readyHistory.pushed + [s.io.idx]);
      PushGives(s.readyHistory, s.io.idx, i);
    } else {
      assert s'.readyHistory == s.readyHistory && IoHolds(s') && s'.io.idx == s.io.idx;
    }
  }

  lemma IoMoves(s: State, d: Datagram, i: nat)
    requires RingFacts(s)
    ensures HoldsSame(s, IoStep(s, d), i)
  {
    match s.io
    case IoPop(_, _) => IoPopMoves(s, d, i);
    case IoPush(_, _, _) => IoPushMoves(s, d, i);
    case _ =>
  }

  lemma IoKeepsOwned(s: State, d: Datagram)
    requires RingFacts(s) && Owned(s)
    ensures Owned(IoStep(s, d))
  {
    var s' := IoStep(s, d);
    IoMoves(s, d, 0);
    forall i: nat
      ensures Held(s', i) == Held(s, i)
    {
      IoMoves(s, d, i);
    }
    assert |s'.slots| == |s.slots|;
  }

  lemma IoPopKeepsData(s: State, d: Datagram)
    requires RingFacts(s) && Owned(s) && DataOk(s) && s.io.IoPop?
    ensures DataOk(IoStep(s, d))
  {
    var s' := IoStep(s, d);
    if s.io.pop.PopStoreHead? {
      FreeIsIndex(s);
      assert s'.io == IoCopy(s.io.frame, s.io.pop.x, 0);
    } else {
      assert s'.io.IoIdle? || s'.io.IoPop?;
    }
  }

  lemma IoCopyKeepsData(s: State, d: Datagram)
    requires RingFacts(s) && Owned(s) && DataOk(s) && s.io.IoCopy?
    ensures DataOk(IoStep(s, d))
  {
    var h, s' := s.readyHistory, IoStep(s, d);
    IoHandExclusive(s);
    forall n | h.popped <= n < |h.pushed|
      ensures h.pushed[n] != s.io.idx
    {
      assert h.Contents()[n - h.popped] == h.pushed[n];
    }
    var k := s.io.copied;
    assert s'.slots[s.io.idx][..k + 1] == s.io.frame[..k + 1] by {
      assert s'.slots[s.io.idx][..k] == s.slots[s.io.idx][..k];
    }
    if k + 1 == WIRE_SIZE {
      assert s'.slots[s.io.idx] == s'.slots[s.io.idx][..k + 1] && s.io.frame == s.io.frame[..k + 1];
    }
  }

  lemma IoPushKeepsData(s: State, d: Datagram)
    requires RingFacts(s) && DataOk(s) && s.io.IoPush?
    ensures DataOk(IoStep(s, d))
  {
    var s' := IoStep(s, d);
    assert s'.accepted[..Decoded(s)] == s.accepted[..Decoded(s)];
  }

  lemma IoKeepsData(s: State, d: Datagram)
    requires RingFacts(s) && Owned(s) && DataOk(s)
    ensures DataOk(IoStep(s, d))
  {
    match s.io
    case IoIdle =>
    case IoPop(_, _) => IoPopKeepsData(s, d);
    case IoCopy(_, _, _) => IoCopyKeepsData(s, d);
    case IoPush(_, _, _) => IoPushKeepsData(s, d);
  }

  lemma IoKeepsCounts(s: State, d: Datagram)
    requires RingFacts(s) && CountsOk(s)
    ensures CountsOk(IoStep(s, d))
  {
    var s' := IoStep(s, d);
    assert s'.decodeErrors == s.decodeErrors && s'.tracker == s.tracker && s'.decoded == s.decoded;
  }

  lemma IoIdleKeepsSource(s: State, d: Datagram)
    requires RingFacts(s) && SourceOk(s) && s.io.IoIdle?
    ensures SourceOk(IoStep(s, d))
  {
    OfferedStays(s.offered, IoStep(s, d).offered);
  }

  lemma IoBusyKeepsSource(s: State, d: Datagram)
    requires RingFacts(s) && SourceOk(s) && !s.io.IoIdle?
    ensures SourceOk(IoStep(s, d))
  {
    var s' := IoStep(s, d);
    OfferedStays(s.offered, s'.offered);
    if s.io.IoPush? && s.io.push.PushStoreTail? {
      assert s'.accepted == s.accepted + [s.io.frame] && s'.acceptedAt == s.acceptedAt + [|s.offered|];
      assert IsOffered(s'.offered, |s.offered|, s.io.frame);
    } else {
      assert s'.accepted == s.accepted && s'.acceptedAt == s.acceptedAt;
    }
  }

  lemma IoKeepsSource(s: State, d: Datagram)
    requires RingFacts(s) && SourceOk(s)
    ensures SourceOk(IoStep(s, d))
  {
    if s.io.IoIdle? {
      IoIdleKeepsSource(s, d);
    } else {
      IoBusyKeepsSource(s, d);
    }
  }

  lemma ConsumerKeepsSource(s: State)
    requires RingFacts(s) && SourceOk(s)
    ensures SourceOk(ConsumerStep(s))
  {
    var s' := ConsumerStep(s);
    assert s'.offered == s.offered && s'.io == s.io && s'.accepted == s.accepted && s'.acceptedAt == s.acceptedAt;
    OfferedStays(s.offered, s'.offered);
  }

  lemma IoKeeps(s: State, d: Datagram)
    requires Invariant(s)
    ensures Safe(s) && Invariant(IoStep(s, d))
  {
    RingFactsHold(s);
    IoKeepsRings(s, d);
    IoKeepsOwned(s, d);
    IoKeepsData(s, d);
    IoKeepsCounts(s, d);
    IoKeepsSource(s, d);
  }

  // Consumer steps

  lemma TakeReadyKeepsRings(s: State)
    requires RingsOk(s) && PcsOk(s) && Safe(s) && s.consumer.TakeReady?
    ensures var s' := ConsumerStep(s); RingsOk(s') && PcsOk(s')
  {
    var s' := ConsumerStep(s);
    PopStepKeeps(s.ready, s.readyHistory, ReadyPusher(s), s.consumer.pop);
    assert RingOk(s'.ready, s'.readyHistory, ReadyPusher(s'), ReadyPopper(s'));
  }

  lemma GiveBackKeepsRings(s: State)
    requires RingsOk(s) && PcsOk(s) && Safe(s) && Owned(s) && s.consumer.GiveBack?
    ensures var s' := ConsumerStep(s); RingsOk(s') && PcsOk(s')
  {
    var s' := ConsumerStep(s);
    PushStepKeeps(s.free, s.freeHistory, s.consumer.push, FreePopper(s));
    PushKeepsRoom(s.free, s.freeHistory, s.consumer.idx, s.consumer.push);
    assert RingOk(s'.free, s'.freeHistory, FreePusher(s'), FreePopper(s'));
  }

  lemma CheckKeepsRings(s: State)
    requires RingsOk(s) && PcsOk(s) && Safe(s) && !s.consumer.TakeReady? && !s.consumer.GiveBack?
    ensures var s' := ConsumerStep(s); RingsOk(s') && PcsOk(s')
  {
    var s' := ConsumerStep(s);
    assert s'.free == s.free && s'.ready == s.ready && s'.io == s.io && s'.slots == s.slots && s'.running == s.running;
    assert s'.freeHistory == s.freeHistory && s'.readyHistory == s.readyHistory;
    hide Represents, PusherKnows;
  }

  lemma ConsumerKeepsRings(s: State)
    requires RingsOk(s) && PcsOk(s) && Owned(s) && Safe(s)
    ensures RingsOk(ConsumerStep(s)) && PcsOk(ConsumerStep(s))
  {
    if s.consumer.TakeReady? {
      TakeReadyKeepsRings(s);
    } else if s.consumer.GiveBack? {
      GiveBackKeepsRings(s);
    } else {
      CheckKeepsRings(s);
    }
  }

  /** The state after the consumer has taken the oldest ready index. */
  function TakenByConsumer(s: State): State
    requires s.consumer.TakeReady? && s.consumer.pop.PopStoreHead?
  {
    s.(ready := s.ready.(head := Inc(s.consumer.pop.h)),
       readyHistory := s.readyHistory.(popped := s.readyHistory.popped + 1),
       consumer := DecodeSlot(s.consumer.pop.x, []))
  }

  lemma TakenByConsumerMoves(s: State, i: nat)
    requires s.freeHistory.Valid() && s.readyHistory.Valid()
    requires s.consumer.TakeReady? && s.consumer.pop.PopStoreHead? && PopTakesFirst(s.readyHistory, s.consumer.pop)
    ensures HoldsSame(s, TakenByConsumer(s), i)
  {
    PopTakes(s.readyHistory, i);
  }

  lemma TakeReadyStep(s: State)
    requires Safe(s) && s.consumer.TakeReady? && !s.consumer.pop.PopDone?
    ensures var s' := ConsumerStep(s);
            if s.consumer.pop.PopStoreHead? then s' == TakenByConsumer(s)
            else s' == s.(consumer := s'.consumer) && !ConsumerHolds(s')
  {
  }

  lemma TakeReadyMoves(s: State, i: nat)
    requires RingFacts(s) && s.consumer.TakeReady?
    ensures HoldsSame(s, ConsumerStep(s), i)
  {
    TakeReadyStep(s);
    if s.consumer.pop.PopStoreHead? {
      TakenByConsumerMoves(s, i);
    }
  }

  lemma GiveBackMoves(s: State, i: nat)
    requires RingFacts(s) && s.consumer.GiveBack?
    ensures HoldsSame(s, ConsumerStep(s), i)
  {
    var s' := ConsumerStep(s);
    if s.consumer.push.PushStoreTail? {
      assert s'.freeHistory == s.freeHistory.(pushed := s.freeHistory.pushed + [s.consumer.idx]);
      PushGives(s.freeHistory, s.consumer.idx, i);
    } else {
      assert s'.freeHistory == s.freeHistory && ConsumerHolds(s') && s'.consumer.idx == s.consumer.idx;
    }
  }

  lemma ConsumerMoves(s: State, i: nat)
    requires RingFacts(s)
    ensures HoldsSame(s, ConsumerStep(s), i)
  {
    if s.consumer.TakeReady? {
      TakeReadyMoves(s, i);
    } else if s.consumer.GiveBack? {
      GiveBackMoves(s, i);
    } else {
      OtherConsumerMoves(s, i);
    }
  }

  lemma OtherConsumerMoves(s: State, i: nat)
    requires RingFacts(s) && !s.consumer.TakeReady? && !s.consumer.GiveBack?
    ensures HoldsSame(s, ConsumerStep(s), i)
  {
    var s' := ConsumerStep(s);
    assert s'.freeHistory == s.freeHistory && s'.readyHistory == s.readyHistory && s'.io == s.io;
    assert ConsumerHolds(s') == ConsumerHolds(s) && InConsumerHand(s', i) == InConsumerHand(s, i);
  }

  lemma ConsumerKeepsOwned(s: State)
    requires RingFacts(s) && Owned(s)
    ensures Owned(ConsumerStep(s))
  {
    var s' := ConsumerStep(s);
    ConsumerMoves(s, 0);
    forall i: nat
      ensures Held(s', i) == Held(s, i)
    {
      ConsumerMoves(s, i);
    }
    assert |s'.slots| == |s.slots|;
  }

  /** Reading the last byte of a slot completes the frame that was published through it. */
  lemma LastByteDecodes(s: State, f: Frame)
    requires Safe(s) && DataOk(s) && s.consumer.DecodeSlot? && |s.consumer.got| + 1 == WIRE_SIZE
    requires f == s.accepted[s.readyHistory.popped - 1]
    ensures ConsumerStep(s) == Consume(s, f).(consumer := GiveBack(s.consumer.idx, PushLoadHead(s.consumer.idx)))
    ensures s.decoded + [f] == s.accepted[..s.readyHistory.popped]
  {
    assert s.consumer.got + [f[|s.consumer.got|]] == f;
  }

  lemma DecodeKeepsData(s: State)
    requires Safe(s) && DataOk(s) && CountsOk(s) && s.consumer.DecodeSlot?
    ensures DataOk(ConsumerStep(s)) && CountsOk(ConsumerStep(s))
  {
    hide Track;
    var f := s.accepted[s.readyHistory.popped - 1];
    var got := s.consumer.got;
    if |got| + 1 == WIRE_SIZE {
      LastByteDecodes(s, f);
      TrackNext(s.decoded, f);
    } else {
      assert got + [f[|got|]] == f[..|got| + 1];
    }
  }

  lemma TakeReadyKeepsData(s: State)
    requires RingFacts(s) && DataOk(s) && s.consumer.TakeReady?
    ensures DataOk(ConsumerStep(s))
  {
    var h, s' := s.readyHistory, ConsumerStep(s);
    if s.consumer.pop.PopStoreHead? {
      assert s'.consumer == DecodeSlot(h.pushed[h.popped], []) && s'.readyHistory.popped == h.popped + 1;
    } else {
      assert s'.readyHistory == h && Decoded(s') == Decoded(s);
    }
  }

  lemma OtherKeepsData(s: State)
    requires RingFacts(s) && DataOk(s) && !s.consumer.TakeReady? && !s.consumer.DecodeSlot?
    ensures DataOk(ConsumerStep(s))
  {
    var s' := ConsumerStep(s);
    assert s'.readyHistory == s.readyHistory && Decoded(s') == Decoded(s);
  }

  lemma ConsumerKeepsCounts(s: State)
    requires RingFacts(s) && CountsOk(s) && !s.consumer.DecodeSlot?
    ensures CountsOk(ConsumerStep(s))
  {
    var s' := ConsumerStep(s);
    assert s' == s.(free := s'.free, ready := s'.ready, freeHistory := s'.freeHistory,
                    readyHistory := s'.readyHistory, consumer := s'.consumer);
  }

  lemma ConsumerKeepsData(s: State)
    requires RingFacts(s) && DataOk(s) && CountsOk(s)
    ensures DataOk(ConsumerStep(s)) && CountsOk(ConsumerStep(s))
  {
    if s.consumer.DecodeSlot? {
      DecodeKeepsData(s);
    } else {
      ConsumerKeepsCounts(s);
      if s.consumer.TakeReady? {
        TakeReadyKeepsData(s);
      } else {
        OtherKeepsData(s);
      }
    }
  }

  lemma ConsumerKeeps(s: State)
    requires Invariant(s)
    ensures Safe(s) && Invariant(ConsumerStep(s))
  {
    RingFactsHold(s);
    ConsumerKeepsRings(s);
    ConsumerKeepsOwned(s);
    ConsumerKeepsData(s);
    ConsumerKeepsSource(s);
  }

  // Whole runs

  lemma InitOwned(s: State)
    requires Init(s)
    ensures Owned(s)
  {
    assert s.freeHistory.Contents() == Indices(|s.slots|) && s.readyHistory.Contents() == [];
    forall i: nat
      ensures Held(s, i) == if i < |s.slots| then 1 else 0
    {
      IndicesOnce(|s.slots|, i);
    }
  }

  lemma InitInvariant(s: State)
    requires Init(s)
    ensures Invariant(s)
  {
    InitOwned(s);
    assert SeqNums([]) == [];
  }

  lemma StopKeeps(s: State)
    requires Invariant(s)
    ensures Invariant(s.(running := false))
  {
    hide Track, Occurs, Represents;
    var s' := s.(running := false);
    assert forall i: nat :: Held(s', i) == Held(s, i);
    OfferedStays(s.offered, s'.offered);
  }

  lemma StepKeeps(s: State, s': State)
    requires Invariant(s) && Next(s, s')
    ensures Invariant(s')
  {
    if s' == ConsumerStep(s) {
      ConsumerKeeps(s);
    } else if s' == s.(running := false) {
      StopKeeps(s);
    } else {
      var d :| s' == IoStep(s, d);
      IoKeeps(s, d);
    }
  }

  lemma {:induction false} RunKeeps(run: seq<State>, i: nat)
    requires Run(run) && i < |run|
    ensures Invariant(run[i])
  {
    if i == 0 {
      InitInvariant(run[0]);
    } else {
      RunKeeps(run, i - 1);
      assert Next(run[i - 1], run[i - 1 + 1]);
      StepKeeps(run[i - 1], run[i]);
    }
  }

  /** Ownership: at every moment of every run each slot index is in exactly one place. */
  lemma EverySlotHasOneHolder(run: seq<State>, i: nat, slot: nat)
    requires Run(run) && i < |run| && slot < |run[i].slots|
    ensures Owned(run[i]) && Held(run[i], slot) == 1
  {
    RunKeeps(run, i);
  }

  /**
   No push ever fails: the IO thread never reaches its fallback push, so each ring really has one
   pusher and one popper, and neither thread's next access can make a push return false.
   */
  lemma NoPushFails(run: seq<State>, i: nat)
    requires Run(run) && i < |run|
    ensures var s := run[i];
            && Safe(s) && !s.io.IoFallback?
            && (s.io.IoPush? ==> PushStep(s.ready, s.io.push).1 != PushDone(false))
            && (s.consumer.GiveBack? ==> PushStep(s.free, s.consumer.push).1 != PushDone(false))
  {
    RunKeeps(run, i);
    RingFactsHold(run[i]);
  }

  lemma WritesAreCopies(s: State, s': State)
    requires RingFacts(s) && Next(s, s')
    ensures |s'.slots| == |s.slots|
    ensures forall i :: 0 <= i < |s.slots| && s'.slots[i] != s.slots[i] ==> s.io.IoCopy? && s.io.idx == i
  {
  }

  /** A slot changes only while the IO thread holds it: never while it is free, ready or being decoded. */
  lemma OnlyHeldSlotsAreWritten(run: seq<State>, i: nat, slot: nat)
    requires Run(run) && i + 1 < |run| && slot < |run[i].slots|
    ensures |run[i + 1].slots| == |run[i].slots|
    ensures Owned(run[i])
    ensures run[i + 1].slots[slot] != run[i].slots[slot] ==>
              && InIoHand(run[i], slot) == 1 && InConsumerHand(run[i], slot) == 0
              && slot !in run[i].readyHistory.Contents() && slot !in run[i].freeHistory.Contents()
  {
    RunKeeps(run, i);
    RingFactsHold(run[i]);
    assert Next(run[i], run[i + 1]);
    WritesAreCopies(run[i], run[i + 1]);
    if run[i].io.IoCopy? {
      IoHandExclusive(run[i]);
    }
  }

  function ViewOf(s: State): View {
    View(s.offered, s.accepted, s.acceptedAt, s.decoded, s.tracker)
  }

  /** Refinement: the k-th frame decoded is, byte for byte, the k-th datagram published. */
  lemma RunsAreLossyFifos(run: seq<State>, i: nat)
    requires Run(run) && i < |run|
    ensures LossyFifo(ViewOf(run[i]))
  {
    RunKeeps(run, i);
  }

  /**
   Conservation: every datagram handled was dropped by the IO thread, processed, dropped as out
   of order, or is in flight, and no more are in flight than the pool has slots, plus one.
   */
  lemma DatagramsAreConserved(run: seq<State>, i: nat)
    requires Run(run) && i < |run|
    ensures var s := run[i];
            var inFlight := |s.accepted| - |s.decoded| + (if s.io.IoIdle? then 0 else 1);
            && |s.offered| == s.ioDrops + s.tracker.processed + s.tracker.drops + inFlight
            && 0 <= inFlight <= |s.slots| + 1
            && s.decodeErrors == 0
  {
    RunKeeps(run, i);
    TrackTotals(SeqNums(run[i].decoded));
  }

  lemma ExitSeesEmpty(s: State, s': State)
    requires RingFacts(s) && Next(s, s') && !s.consumer.Exited? && s'.consumer.Exited?
    ensures s.consumer.CheckEmptyTail? && s.consumer.h == s.ready.tail
  {
  }

  lemma EmptyMeansDrained(s: State)
    requires Invariant(s) && s.ready.head == s.ready.tail && !s.consumer.DecodeSlot?
    ensures s.decoded == s.accepted
  {
    Occupancy(s.ready, s.readyHistory);
  }

  /** Draining: at the moment the consumer leaves its loop, everything published has been decoded. */
  lemma ConsumerDrainsBeforeExit(run: seq<State>, i: nat)
    requires Run(run) && i + 1 < |run| && !run[i].consumer.Exited? && run[i + 1].consumer.Exited?
    ensures run[i].decoded == run[i].accepted && !run[i].running
  {
    RunKeeps(run, i);
    RingFactsHold(run[i]);
    assert Next(run[i], run[i + 1]);
    ExitSeesEmpty(run[i], run[i + 1]);
    EmptyMeansDrained(run[i]);
  }

  lemma ExitedStays(s: State, s': State)
    requires RingFacts(s) && Next(s, s') && s.consumer.Exited?
    ensures s'.consumer.Exited? && s'.decoded == s.decoded
  {
  }

  /**
   Afterwards nothing more is decoded: what the IO thread still publishes, at most as many frames as
   there are slots, stays in `ready` for good.
   */
  lemma {:induction false} StrandedAtTheEnd(run: seq<State>, i: nat, j: nat)
    requires Run(run) && i <= j < |run| && run[i].consumer.Exited?
    ensures run[j].consumer.Exited? && run[j].decoded == run[i].decoded
    ensures 0 <= |run[j].accepted| - |run[j].decoded| <= |run[j].slots|
    decreases j
  {
    hide Invariant, RingFacts, Next, Init;
    RunKeeps(run, j);
    UndecodedFits(run[j]);
    if i < j {
      StrandedAtTheEnd(run, i, j - 1);
      RunKeeps(run, j - 1);
      InvariantFacts(run[j - 1]);
      assert Next(run[j - 1], run[j - 1 + 1]);
      ExitedStays(run[j - 1], run[j]);
    }
  }

  lemma UndecodedFits(s: State)
    requires Invariant(s)
    ensures 0 <= |s.accepted| - |s.decoded| <= |s.slots|
  {
  }

  lemma InvariantFacts(s: State)
    requires Invariant(s)
    ensures RingFacts(s)
  {
    RingFactsHold(s);
  }

  // When a datagram is dropped

  /** The IO thread has just found `free` empty. */
  ghost predicate FindsNoSlot(s: State) {
    s.io.IoPop? && s.io.pop.PopLoadTail? && s.freeHistory.Valid() && s.freeHistory.Contents() == []
  }

  lemma IoDropsIff(s: State, d: Datagram)
    requires Invariant(s) && Safe(s)
    ensures IoStep(s, d).ioDrops == s.ioDrops +
            (if (s.io.IoIdle? && (d.truncated || |d.bytes| != 44)) || FindsNoSlot(s) then 1 else 0)
  {
    RingFactsHold(s);
    Occupancy(s.free, s.freeHistory);
  }

  /**
   A datagram is dropped for two reasons only, and always for these: in every run the IO thread's
   counter goes up at a step, by one, exactly if the step takes up a datagram that is truncated or
   not 44 bytes long, or finds `free` empty for one that is complete.
   */
  lemma DropsIff(run: seq<State>, i: nat)
    requires Run(run) && i + 1 < |run|
    ensures var s, s' := run[i], run[i + 1];
            var badDatagram := |s'.offered| > |s.offered|
              && var d := s'.offered[|s.offered|]; d.truncated || |d.bytes| != 44;
            && s'.ioDrops == s.ioDrops + (if badDatagram || (FindsNoSlot(s) && s'.io != s.io) then 1 else 0)
  {
    var s, s' := run[i], run[i + 1];
    RunKeeps(run, i);
    RingFactsHold(s);
    assert Next(s, run[i + 1]);
    StepDrops(s, s');
  }

  lemma StepDrops(s: State, s': State)
    requires Invariant(s) && RingFacts(s) && Next(s, s')
    ensures var badDatagram := |s'.offered| > |s.offered|
              && var d := s'.offered[|s.offered|]; d.truncated || |d.bytes| != 44;
            && s'.ioDrops == s.ioDrops + (if badDatagram || (FindsNoSlot(s) && s'.io != s.io) then 1 else 0)
  {
    if s' == ConsumerStep(s) || s' == s.(running := false) {
      assert s'.io == s.io && s'.offered == s.offered && s'.ioDrops == s.ioDrops;
    } else {
      var d :| s' == IoStep(s, d);
      IoDropsIff(s, d);
      IoTakesUp(s, d);
    }
  }

  lemma IoTakesUp(s: State, d: Datagram)
    requires Safe(s)
    ensures IoStep(s, d).offered == if s.io.IoIdle? then s.offered + [d] else s.offered
    ensures FindsNoSlot(s) ==> IoStep(s, d).io != s.io
  {
  }
}
