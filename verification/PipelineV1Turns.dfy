/**
 What one whole turn of each thread of the first engine does when the other thread does not move:
 the IO thread with one datagram, the consumer with one index or none. Every turn ends after a
 fixed number of accesses.
 */
module PipelineV1Turns {
  import opened Words
  import opened RingBuffers
  import opened Codec
  import opened SequenceTracking
  import opened LossyFifos
  import opened PipelineV1

  // The IO thread

  /** After `k` accesses of the IO thread alone; `d` is the datagram it finds when it is idle. */
  ghost function IoAlone(s: State, d: Datagram, k: nat): (r: State)
    requires Invariant(s)
    ensures Invariant(r)
  {
    if k == 0 then s
    else
      var m := IoAlone(s, d, k - 1);
      IoKeeps(m, d);
      IoStep(m, d)
  }

  lemma {:induction false} IoAloneAdds(s: State, d: Datagram, m: nat, n: nat)
    requires Invariant(s)
    ensures IoAlone(IoAlone(s, d, m), d, n) == IoAlone(s, d, m + n)
  {
    hide Invariant, Safe, IoStep;
    if n > 0 {
      IoAloneAdds(s, d, m, n - 1);
    }
  }

  lemma IoAloneNone(s: State, d: Datagram)
    requires Invariant(s)
    ensures IoAlone(s, d, 0) == s
  {
  }

  lemma IoAloneStep(s: State, d: Datagram, k: nat, m: State)
    requires Invariant(s) && IoAlone(s, d, k) == m
    ensures Safe(m) && Invariant(m) && IoAlone(s, d, k + 1) == IoStep(m, d)
  {
    hide Invariant, Safe, IoStep;
    IoKeeps(m, d);
  }

  /** The oldest free index. */
  ghost function FirstFree(s: State): nat
    requires s.freeHistory.popped < |s.freeHistory.pushed|
  {
    s.freeHistory.pushed[s.freeHistory.popped]
  }

  /** What the IO thread needs to know to make its next access. */
  lemma IoFacts(s: State)
    requires Invariant(s)
    ensures RingFacts(s) && Represents(s.free, s.freeHistory) && Represents(s.ready, s.readyHistory)
  {
    RingFactsHold(s);
  }

  lemma PopLoads(s: State, d: Datagram)
    requires Safe(s) && s.io.IoPop? && s.io.pop.PopLoadHead? && s.free.head != s.free.tail
    ensures var s1 := s.(io := IoPop(s.io.frame, PopLoadTail(s.free.head)));
            && IoStep(s, d) == s1 && Safe(s1) && IoStep(s1, d) == s.(io := IoPop(s.io.frame, PopReadSlot(s.free.head)))
  {
  }

  lemma PopReads(s: State, d: Datagram)
    requires Safe(s) && s.io.IoPop? && s.io.pop == PopReadSlot(s.free.head)
    ensures IoStep(s, d) ==
            s.(io := IoPop(s.io.frame, PopStoreHead(s.free.head, s.free.buffer[s.free.Slot(s.free.head)])))
  {
    hide BitAnd;
  }

  lemma PopStores(s: State, d: Datagram, x: nat)
    requires Safe(s) && s.io.IoPop? && s.io.pop == PopStoreHead(s.free.head, x)
    ensures IoStep(s, d) ==
            s.(free := s.free.(head := Inc(s.free.head)),
               freeHistory := s.freeHistory.(popped := s.freeHistory.popped + 1),
               io := IoCopy(s.io.frame, x, 0))
  {
  }

  lemma FirstIsHeld(s: State)
    requires Invariant(s)
    ensures s.io.IoPop? && s.io.pop.PopStoreHead? && s.freeHistory.popped < |s.freeHistory.pushed| ==>
              s.io.pop.x == FirstFree(s)
    ensures s.freeHistory.popped < |s.freeHistory.pushed| ==> s.free.head != s.free.tail
    ensures s.consumer.TakeReady? && s.consumer.pop.PopStoreHead? && s.readyHistory.popped < |s.readyHistory.pushed| ==>
              s.consumer.pop.x == FirstReady(s)
    ensures s.readyHistory.popped < |s.readyHistory.pushed| ==> s.ready.head != s.ready.tail
  {
    RingFactsHold(s);
    Occupancy(s.free, s.freeHistory);
    Occupancy(s.ready, s.readyHistory);
  }

  lemma PopPhase(s: State, d: Datagram)
    requires Invariant(s) && s.io.IoPop? && s.io.pop.PopLoadHead? && s.freeHistory.popped < |s.freeHistory.pushed|
    ensures IoAlone(s, d, 4) ==
            s.(free := s.free.(head := Inc(s.free.head)),
               freeHistory := s.freeHistory.(popped := s.freeHistory.popped + 1),
               io := IoCopy(s.io.frame, FirstFree(s), 0))
  {
    hide Invariant, IoAlone, BitAnd, IoStep;
    FirstIsHeld(s);
    IoAloneNone(s, d);
    IoAloneStep(s, d, 0, s);
    PopLoads(s, d);
    IoAloneStep(s, d, 1, IoAlone(s, d, 1));
    IoAloneStep(s, d, 2, IoAlone(s, d, 2));
    PopReads(IoAlone(s, d, 2), d);
    var s3 := IoAlone(s, d, 3);
    IoAloneStep(s, d, 3, s3);
    FirstIsHeld(s3);
    PopStores(s3, d, FirstFree(s));
  }

  lemma EmptyPhase(s: State, d: Datagram)
    requires Invariant(s) && s.io.IoPop? && s.io.pop.PopLoadHead? && s.freeHistory.popped == |s.freeHistory.pushed|
    ensures IoAlone(s, d, 2) == s.(io := IoIdle, ioDrops := s.ioDrops + 1)
  {
    hide Invariant, IoAlone, BitAnd;
    IoAloneNone(s, d);
    IoAloneStep(s, d, 0, s);
    IoFacts(s);
    Occupancy(s.free, s.freeHistory);
    hide Represents;
    IoAloneStep(s, d, 1, s.(io := IoPop(s.io.frame, PopLoadTail(s.free.head))));
  }

  lemma HandIsSlot(s: State)
    requires Invariant(s) && IoHolds(s)
    ensures s.io.idx < |s.slots|
  {
    IoHandExclusive(s);
  }

  lemma {:induction false} CopyPhase(s: State, d: Datagram, k: nat)
    requires Invariant(s) && s.io.IoCopy? && s.io.copied == 0 && k < WIRE_SIZE
    ensures var m, idx := IoAlone(s, d, k), s.io.idx;
            && idx < |s.slots| && |m.slots| == |s.slots|
            && m == s.(io := IoCopy(s.io.frame, idx, k), slots := s.slots[idx := m.slots[idx]])
  {
    hide Invariant, IoAlone;
    HandIsSlot(s);
    if k == 0 {
      IoAloneNone(s, d);
    } else {
      CopyPhase(s, d, k - 1);
      IoAloneStep(s, d, k - 1, IoAlone(s, d, k - 1));
    }
  }

  lemma PushedSlotHolds(s: State)
    requires Invariant(s) && s.io.IoPush?
    ensures s.io.idx < |s.slots| && s.slots[s.io.idx] == s.io.frame
  {
  }

  lemma CopyAll(s: State, d: Datagram)
    requires Invariant(s) && s.io.IoCopy? && s.io.copied == 0
    ensures s.io.idx < |s.slots|
    ensures IoAlone(s, d, WIRE_SIZE) ==
            s.(io := IoPush(s.io.frame, s.io.idx, PushLoadHead(s.io.idx)), slots := s.slots[s.io.idx := s.io.frame])
  {
    hide Invariant, IoAlone;
    CopyPhase(s, d, WIRE_SIZE - 1);
    var m := IoAlone(s, d, WIRE_SIZE - 1);
    IoAloneStep(s, d, WIRE_SIZE - 1, m);
    var r := IoStep(m, d);
    assert r.io == IoPush(s.io.frame, s.io.idx, PushLoadHead(s.io.idx));
    PushedSlotHolds(r);
  }

  /** What the memory of a ring is after a push of `x` that finds room. */
  function RingWith(r: Ring<nat>, x: nat): Ring<nat>
    requires |r.buffer| > 0
  {
    Ring(r.head, Inc(r.tail), r.buffer[r.Slot(r.tail) := x])
  }

  lemma LoadsBoth(s: State, d: Datagram)
    requires Safe(s) && s.io.IoPush? && s.io.push.PushLoadHead? && s.io.push.x == s.io.idx
    requires Sub(s.ready.tail, s.ready.head) != |s.ready.buffer|
    ensures var s1 := s.(io := IoPush(s.io.frame, s.io.idx, PushLoadTail(s.io.idx, s.ready.head)));
            && IoStep(s, d) == s1 && Safe(s1)
            && IoStep(s1, d) == s.(io := IoPush(s.io.frame, s.io.idx, PushWriteSlot(s.io.idx, s.ready.tail)))
  {
  }

  lemma WritesAndStores(s: State, d: Datagram, x: nat, t: Word)
    requires Safe(s) && s.io.IoPush? && s.io.push == PushWriteSlot(x, t) && x == s.io.idx && t == s.ready.tail
    ensures var s1 := s.(io := IoPush(s.io.frame, x, PushStoreTail(x, t)),
                         ready := s.ready.(buffer := s.ready.buffer[s.ready.Slot(t) := x]));
            && IoStep(s, d) == s1 && Safe(s1)
            && IoStep(s1, d) ==
               s.(io := IoIdle, ready := RingWith(s.ready, x),
                  readyHistory := s.readyHistory.(pushed := s.readyHistory.pushed + [x]),
                  accepted := s.accepted + [s.io.frame], acceptedAt := s.acceptedAt + [|s.offered|])
  {
    hide BitAnd;
  }

  lemma ReadyHasRoom(s: State)
    requires Invariant(s) && IoHolds(s)
    ensures |s.ready.buffer| > 0 && Sub(s.ready.tail, s.ready.head) != |s.ready.buffer|
    ensures s.io.IoPush? && s.io.push.PushLoadHead? ==> s.io.push.x == s.io.idx
  {
    Occupancy(s.ready, s.readyHistory);
  }

  lemma PushPhase(s: State, d: Datagram)
    requires Invariant(s) && s.io.IoPush? && s.io.push.PushLoadHead?
    ensures |s.ready.buffer| > 0
    ensures IoAlone(s, d, 4) ==
            s.(io := IoIdle, ready := RingWith(s.ready, s.io.idx),
               readyHistory := s.readyHistory.(pushed := s.readyHistory.pushed + [s.io.idx]),
               accepted := s.accepted + [s.io.frame], acceptedAt := s.acceptedAt + [|s.offered|])
  {
    hide Invariant, IoAlone, IoStep;
    ReadyHasRoom(s);
    IoAloneNone(s, d);
    IoAloneStep(s, d, 0, s);
    LoadsBoth(s, d);
    IoAloneStep(s, d, 1, IoAlone(s, d, 1));
    var s2 := IoAlone(s, d, 2);
    IoAloneStep(s, d, 2, s2);
    WritesAndStores(s2, d, s.io.idx, s.ready.tail);
    IoAloneStep(s, d, 3, IoAlone(s, d, 3));
  }

  /** A complete datagram with a free slot: one slot further, published, in 53 accesses. */
  function Published(s: State, d: Datagram, idx: nat): State
    requires |s.ready.buffer| > 0 && idx < |s.slots| && |d.bytes| == WIRE_SIZE
  {
    s.(offered := s.offered + [d], slots := s.slots[idx := d.bytes],
       free := s.free.(head := Inc(s.free.head)), freeHistory := s.freeHistory.(popped := s.freeHistory.popped + 1),
       ready := RingWith(s.ready, idx), readyHistory := s.readyHistory.(pushed := s.readyHistory.pushed + [idx]),
       accepted := s.accepted + [d.bytes], acceptedAt := s.acceptedAt + [|s.offered| + 1])
  }

  /**
   The IO thread's turn. From every reachable state in which it is idle: a datagram that is
   truncated or not 44 bytes long is dropped; a complete one is dropped if no slot is free, and
   otherwise copied to the slot that has been free longest and published.
   */
  lemma IoTurn(s: State, d: Datagram)
    requires Invariant(s) && s.io.IoIdle?
    ensures var dropped := s.(offered := s.offered + [d], ioDrops := s.ioDrops + 1);
            if d.truncated || |d.bytes| != 44 then IoAlone(s, d, 1) == dropped
            else if s.freeHistory.popped == |s.freeHistory.pushed| then IoAlone(s, d, 3) == dropped
            else
              && s.freeHistory.popped < |s.freeHistory.pushed| && FirstFree(s) < |s.slots| && |s.ready.buffer| > 0
              && IoAlone(s, d, 53) == Published(s, d, FirstFree(s))
  {
    hide Invariant, IoAlone, Represents;
    IoAloneNone(s, d);
    IoAloneStep(s, d, 0, s);
    IoFacts(s);
    if !d.truncated && |d.bytes| == 44 {
      var s1 := s.(offered := s.offered + [d], io := IoPop(d.bytes, PopLoadHead));
      assert IoAlone(s, d, 1) == s1;
      if s.freeHistory.popped == |s.freeHistory.pushed| {
        EmptyPhase(s1, d);
        IoAloneAdds(s, d, 1, 2);
      } else {
        FreeIsSlot(s);
        PublishTurn(s, d, s1);
      }
    }
  }

  lemma FreeIsSlot(s: State)
    requires Invariant(s) && s.freeHistory.popped < |s.freeHistory.pushed|
    ensures FirstFree(s) < |s.slots|
  {
    FreeIsIndex(s);
  }

  lemma PublishTurn(s: State, d: Datagram, s1: State)
    requires Invariant(s) && s.io.IoIdle? && !d.truncated && |d.bytes| == 44
    requires s1 == s.(offered := s.offered + [d], io := IoPop(d.bytes, PopLoadHead)) && IoAlone(s, d, 1) == s1
    requires s.freeHistory.popped < |s.freeHistory.pushed| && FirstFree(s) < |s.slots|
    ensures |s.ready.buffer| > 0 && IoAlone(s, d, 53) == Published(s, d, FirstFree(s))
  {
    hide IoAlone, Invariant;
    PopPhase(s1, d);
    IoAloneAdds(s, d, 1, 4);
    var s5 := IoAlone(s, d, 5);
    CopyAll(s5, d);
    IoAloneAdds(s, d, 5, WIRE_SIZE);
    var s49 := IoAlone(s, d, 49);
    PushPhase(s49, d);
    IoAloneAdds(s, d, 49, 4);
    assert d == Datagram(d.bytes, false);
  }

  // The consumer

  /** After `k` accesses of the consumer alone. */
  ghost function ConsumerAlone(s: State, k: nat): (r: State)
    requires Invariant(s)
    ensures Invariant(r)
  {
    if k == 0 then s
    else
      var m := ConsumerAlone(s, k - 1);
      ConsumerKeeps(m);
      ConsumerStep(m)
  }

  lemma {:induction false} ConsumerAloneAdds(s: State, m: nat, n: nat)
    requires Invariant(s)
    ensures ConsumerAlone(ConsumerAlone(s, m), n) == ConsumerAlone(s, m + n)
  {
    hide Invariant, Safe, ConsumerStep;
    if n > 0 {
      ConsumerAloneAdds(s, m, n - 1);
    }
  }

  lemma ConsumerAloneNone(s: State)
    requires Invariant(s)
    ensures ConsumerAlone(s, 0) == s
  {
  }

  lemma ConsumerAloneStep(s: State, k: nat, m: State)
    requires Invariant(s) && ConsumerAlone(s, k) == m
    ensures Safe(m) && Invariant(m) && ConsumerAlone(s, k + 1) == ConsumerStep(m)
  {
    hide Invariant, Safe, ConsumerStep;
    ConsumerKeeps(m);
  }

  /** The oldest ready index. */
  ghost function FirstReady(s: State): nat
    requires s.readyHistory.popped < |s.readyHistory.pushed|
  {
    s.readyHistory.pushed[s.readyHistory.popped]
  }

  lemma TakeLoads(s: State)
    requires Safe(s) && s.consumer.TakeReady? && s.consumer.pop.PopLoadHead? && s.ready.head != s.ready.tail
    ensures var s1 := s.(consumer := TakeReady(PopLoadTail(s.ready.head)));
            && ConsumerStep(s) == s1 && Safe(s1)
            && ConsumerStep(s1) == s.(consumer := TakeReady(PopReadSlot(s.ready.head)))
  {
  }

  lemma TakeReads(s: State)
    requires Safe(s) && s.consumer.TakeReady? && s.consumer.pop == PopReadSlot(s.ready.head)
    ensures ConsumerStep(s) ==
            s.(consumer := TakeReady(PopStoreHead(s.ready.head, s.ready.buffer[s.ready.Slot(s.ready.head)])))
  {
    hide BitAnd;
  }

  lemma TakeStores(s: State, x: nat)
    requires Safe(s) && s.consumer.TakeReady? && s.consumer.pop == PopStoreHead(s.ready.head, x)
    ensures ConsumerStep(s) ==
            s.(ready := s.ready.(head := Inc(s.ready.head)),
               readyHistory := s.readyHistory.(popped := s.readyHistory.popped + 1), consumer := DecodeSlot(x, []))
  {
  }

  lemma TakePhase(s: State)
    requires Invariant(s) && s.consumer.TakeReady? && s.consumer.pop.PopLoadHead?
    requires s.readyHistory.popped < |s.readyHistory.pushed|
    ensures ConsumerAlone(s, 4) ==
            s.(ready := s.ready.(head := Inc(s.ready.head)),
               readyHistory := s.readyHistory.(popped := s.readyHistory.popped + 1),
               consumer := DecodeSlot(FirstReady(s), []))
  {
    hide Invariant, ConsumerAlone, BitAnd, ConsumerStep;
    FirstIsHeld(s);
    ConsumerAloneNone(s);
    ConsumerAloneStep(s, 0, s);
    TakeLoads(s);
    ConsumerAloneStep(s, 1, ConsumerAlone(s, 1));
    ConsumerAloneStep(s, 2, ConsumerAlone(s, 2));
    TakeReads(ConsumerAlone(s, 2));
    var s3 := ConsumerAlone(s, 3);
    ConsumerAloneStep(s, 3, s3);
    FirstIsHeld(s3);
    TakeStores(s3, FirstReady(s));
  }

  lemma NothingReadyPhase(s: State)
    requires Invariant(s) && s.consumer.TakeReady? && s.consumer.pop.PopLoadHead?
    requires s.readyHistory.popped == |s.readyHistory.pushed|
    ensures ConsumerAlone(s, 2) == s.(consumer := CheckRunning)
  {
    hide Invariant, ConsumerAlone, BitAnd;
    ConsumerAloneNone(s);
    ConsumerAloneStep(s, 0, s);
    IoFacts(s);
    Occupancy(s.ready, s.readyHistory);
    hide Represents;
    ConsumerAloneStep(s, 1, s.(consumer := TakeReady(PopLoadTail(s.ready.head))));
  }

  /** The frame in the slot that the consumer is reading. */
  lemma ReadsAccepted(s: State)
    requires Invariant(s) && s.consumer.DecodeSlot?
    ensures 0 < s.readyHistory.popped <= |s.accepted| && s.consumer.idx < |s.slots| && |s.consumer.got| < WIRE_SIZE
    ensures s.slots[s.consumer.idx] == s.accepted[s.readyHistory.popped - 1]
    ensures s.consumer.got == s.accepted[s.readyHistory.popped - 1][..|s.consumer.got|]
  {
  }

  lemma {:induction false} DecodePhase(s: State, k: nat)
    requires Invariant(s) && s.consumer.DecodeSlot? && s.consumer.got == [] && k < WIRE_SIZE
    ensures var r := ConsumerAlone(s, k);
            r == s.(consumer := r.consumer) && r.consumer.DecodeSlot?
            && r.consumer.idx == s.consumer.idx && |r.consumer.got| == k
  {
    hide Invariant, ConsumerAlone;
    if k == 0 {
      ConsumerAloneNone(s);
    } else {
      DecodePhase(s, k - 1);
      ConsumerAloneStep(s, k - 1, ConsumerAlone(s, k - 1));
    }
  }

  lemma DecodeAll(s: State, f: Frame)
    requires Invariant(s) && s.consumer.DecodeSlot? && s.consumer.got == []
    requires 0 < s.readyHistory.popped <= |s.accepted| && f == s.accepted[s.readyHistory.popped - 1]
    ensures Parse(f).Some?
    ensures ConsumerAlone(s, WIRE_SIZE) ==
            s.(tracker := Step(s.tracker, Parse(f).value.seqNum), decoded := s.decoded + [f],
               consumer := GiveBack(s.consumer.idx, PushLoadHead(s.consumer.idx)))
  {
    hide Invariant, ConsumerAlone;
    DecodePhase(s, WIRE_SIZE - 1);
    var m := ConsumerAlone(s, WIRE_SIZE - 1);
    ConsumerAloneStep(s, WIRE_SIZE - 1, m);
    ReadsAccepted(m);
    assert m.consumer.got + [f[WIRE_SIZE - 1]] == f;
  }

  lemma BackLoads(s: State)
    requires Safe(s) && s.consumer.GiveBack? && s.consumer.push.PushLoadHead? && s.consumer.push.x == s.consumer.idx
    requires Sub(s.free.tail, s.free.head) != |s.free.buffer|
    ensures var s1 := s.(consumer := GiveBack(s.consumer.idx, PushLoadTail(s.consumer.idx, s.free.head)));
            && ConsumerStep(s) == s1 && Safe(s1)
            && ConsumerStep(s1) == s.(consumer := GiveBack(s.consumer.idx, PushWriteSlot(s.consumer.idx, s.free.tail)))
  {
  }

  lemma BackStores(s: State, x: nat, t: Word)
    requires Safe(s) && s.consumer.GiveBack? && s.consumer.push == PushWriteSlot(x, t) && x == s.consumer.idx
    requires t == s.free.tail
    ensures var s1 := s.(consumer := GiveBack(x, PushStoreTail(x, t)),
                         free := s.free.(buffer := s.free.buffer[s.free.Slot(t) := x]));
            && ConsumerStep(s) == s1 && Safe(s1)
            && ConsumerStep(s1) ==
               s.(consumer := CheckRunning, free := RingWith(s.free, x),
                  freeHistory := s.freeHistory.(pushed := s.freeHistory.pushed + [x]))
  {
    hide BitAnd;
  }

  lemma FreeHasRoom(s: State)
    requires Invariant(s) && ConsumerHolds(s)
    ensures |s.free.buffer| > 0 && Sub(s.free.tail, s.free.head) != |s.free.buffer|
    ensures s.consumer.GiveBack? && s.consumer.push.PushLoadHead? ==> s.consumer.push.x == s.consumer.idx
  {
    Occupancy(s.free, s.freeHistory);
  }

  lemma BackPhase(s: State)
    requires Invariant(s) && s.consumer.GiveBack? && s.consumer.push.PushLoadHead?
    ensures |s.free.buffer| > 0
    ensures ConsumerAlone(s, 4) ==
            s.(consumer := CheckRunning, free := RingWith(s.free, s.consumer.idx),
               freeHistory := s.freeHistory.(pushed := s.freeHistory.pushed + [s.consumer.idx]))
  {
    hide Invariant, ConsumerAlone, ConsumerStep;
    FreeHasRoom(s);
    ConsumerAloneNone(s);
    ConsumerAloneStep(s, 0, s);
    BackLoads(s);
    ConsumerAloneStep(s, 1, ConsumerAlone(s, 1));
    var s2 := ConsumerAlone(s, 2);
    ConsumerAloneStep(s, 2, s2);
    BackStores(s2, s.consumer.idx, s.free.tail);
    ConsumerAloneStep(s, 3, ConsumerAlone(s, 3));
  }

  /** The oldest frame published is decoded, tracked, and its slot is free again. */
  function Decoded(s: State, idx: nat, f: Frame): State
    requires |s.free.buffer| > 0 && Parse(f).Some?
  {
    s.(ready := s.ready.(head := Inc(s.ready.head)),
       readyHistory := s.readyHistory.(popped := s.readyHistory.popped + 1),
       free := RingWith(s.free, idx), freeHistory := s.freeHistory.(pushed := s.freeHistory.pushed + [idx]),
       tracker := Step(s.tracker, Parse(f).value.seqNum), decoded := s.decoded + [f], consumer := CheckRunning)
  }

  lemma DecodedFrom(s: State, s1: State, f: Frame)
    requires s1 == s.(consumer := s1.consumer) && |s.free.buffer| > 0 && Parse(f).Some?
    requires s.readyHistory.popped < |s.readyHistory.pushed|
    ensures Decoded(s1, FirstReady(s1), f) == Decoded(s, FirstReady(s), f)
  {
  }

  lemma TakeTurn(s: State)
    requires Invariant(s) && s.consumer.TakeReady? && s.consumer.pop.PopLoadHead?
    requires s.readyHistory.popped < |s.readyHistory.pushed|
    ensures s.readyHistory.popped < |s.accepted| && |s.free.buffer| > 0
    ensures var f := s.accepted[s.readyHistory.popped];
            Parse(f).Some? && ConsumerAlone(s, 52) == Decoded(s, FirstReady(s), f)
  {
    hide Invariant, ConsumerAlone, Parse, Step;
    TakePhase(s);
    var s4 := ConsumerAlone(s, 4);
    ReadsAccepted(s4);
    DecodeAll(s4, s.accepted[s.readyHistory.popped]);
    ConsumerAloneAdds(s, 4, WIRE_SIZE);
    var s48 := ConsumerAlone(s, 48);
    BackPhase(s48);
    ConsumerAloneAdds(s, 48, 4);
  }

  lemma ChecksRunning(s: State)
    requires Invariant(s) && s.consumer.CheckRunning?
    ensures if s.running then ConsumerAlone(s, 1) == s.(consumer := TakeReady(PopLoadHead))
            else ConsumerAlone(s, 3) == s.(consumer := if s.readyHistory.popped == |s.readyHistory.pushed| then Exited
                                                       else TakeReady(PopLoadHead))
  {
    hide Invariant, ConsumerAlone, BitAnd;
    ConsumerAloneNone(s);
    ConsumerAloneStep(s, 0, s);
    if !s.running {
      IoFacts(s);
      Occupancy(s.ready, s.readyHistory);
      hide Represents;
      ConsumerAloneStep(s, 1, s.(consumer := CheckEmptyHead));
      ConsumerAloneStep(s, 2, s.(consumer := CheckEmptyTail(s.ready.head)));
    }
  }

  /**
   The consumer's turn. From every reachable state at the head of its loop: the oldest frame that
   is ready is decoded, given to the tracker, and its slot given back, whether the engine is
   running or not; with nothing ready it tries again while the engine runs, and leaves otherwise.
   */
  lemma ConsumerTurn(s: State)
    requires Invariant(s) && s.consumer.CheckRunning?
    ensures if s.readyHistory.popped == |s.readyHistory.pushed| then
              ConsumerAlone(s, 3) == if s.running then s else s.(consumer := Exited)
            else
              && s.readyHistory.popped < |s.readyHistory.pushed| == |s.accepted| && |s.free.buffer| > 0
              && var f := s.accepted[s.readyHistory.popped];
                 Parse(f).Some? && ConsumerAlone(s, if s.running then 53 else 55) == Decoded(s, FirstReady(s), f)
  {
    hide ConsumerAlone, Invariant, Decoded, Parse;
    ChecksRunning(s);
    AllPublished(s);
    ConsumerAloneInvariant(s, if s.running then 1 else 3);
    var first := if s.running then 1 else 3;
    var s1 := s.(consumer := TakeReady(PopLoadHead));
    if s.readyHistory.popped == |s.readyHistory.pushed| {
      if s.running {
        NothingReadyPhase(s1);
        ConsumerAloneAdds(s, 1, 2);
      }
    } else {
      TakeTurn(s1);
      ConsumerAloneAdds(s, first, 52);
      DecodedFrom(s, s1, s.accepted[s.readyHistory.popped]);
    }
  }

  lemma ConsumerAloneInvariant(s: State, k: nat)
    requires Invariant(s)
    ensures Invariant(ConsumerAlone(s, k))
  {
  }

  lemma AllPublished(s: State)
    requires Invariant(s)
    ensures s.readyHistory.popped <= |s.readyHistory.pushed| == |s.accepted|
  {
  }
}
