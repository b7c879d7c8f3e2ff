/**
 The second engine: the IO thread reserves a batch of slots, lets the kernel fill some of them,
 publishes those and releases the rest; the consumer drains `ready` in batches. Both threads push
 to `free`, so here every `push` and `pop` is taken as one atomic step on a bounded FIFO.
 */
module PipelineV2 {
  import opened FramePools

  const BATCH: nat := 32

  /** What the IO thread does once it has released what it holds. */
  datatype Then =
    | ReserveAgain      // end of publish_batch: back to reserving, inside the draining loop
    | NextTurn          // nothing received: back to the head of the outer loop
    | StopEngine        // epoll_receive failed: stop and leave
    | StopIfRunning     // receive_batch failed while draining

  /** `hand[i..]` is what the IO thread holds while it works through a batch from position `i`. */
  datatype IoPc =
    | LoopHead(left: seq<nat>)
    | Reserve(hand: seq<nat>, draining: bool)
    | Receive(hand: seq<nat>, draining: bool)
    | CheckRunning(hand: seq<nat>, n: nat)
    | Publish(hand: seq<nat>, n: nat, i: nat)
    | Fallback(hand: seq<nat>, n: nat, i: nat)
    | Release(hand: seq<nat>, i: nat, next: Then)
    | ErrorCheck
    | IoDone(left: seq<nat>)

  datatype ConsumerPc =
    | WhileRunning
    | WhileReady
    | Drain(hand: seq<nat>)
    | Process(hand: seq<nat>, i: nat)
    | GiveBack(hand: seq<nat>, i: nat)
    | ConsumerDone

  datatype State = State(
    capacity: nat, free: seq<nat>, ready: seq<nat>, running: bool, io: IoPc, consumer: ConsumerPc,
    drops: nat, processed: nat)

  /** `push`: refused, and the index forgotten, when the ring is full. */
  function Push(capacity: nat, q: seq<nat>, x: nat): seq<nat> {
    if |q| < capacity then q + [x] else q
  }

  /** What the environment decides in a step: the receiver's answer, and whether a frame is bad. */
  datatype Oracle = Oracle(received: int, bad: bool)

  /** The indices the IO thread holds. */
  function IoHand(s: State): seq<nat>
    requires PcsInRange(s)
  {
    match s.io
    case LoopHead(left) => left
    case Reserve(hand, _) => hand
    case Receive(hand, _) => hand
    case CheckRunning(hand, _) => hand
    case Publish(hand, _, i) => hand[i..]
    case Fallback(hand, _, i) => hand[i..]
    case Release(hand, i, _) => hand[i..]
    case ErrorCheck => []
    case IoDone(left) => left
  }

  function ConsumerHand(s: State): seq<nat>
    requires PcsInRange(s)
  {
    match s.consumer
    case Drain(hand) => hand
    case Process(hand, _) => hand
    case GiveBack(hand, i) => hand[i..]
    case _ => []
  }

  predicate PcsInRange(s: State) {
    && (s.io.Publish? || s.io.Fallback? ==> s.io.i <= s.io.n <= |s.io.hand|)
    && (s.io.Fallback? ==> s.io.i < s.io.n)
    && (s.io.CheckRunning? ==> 0 < s.io.n <= |s.io.hand|)
    && (s.io.Release? ==> s.io.i <= |s.io.hand|)
    && (s.consumer.Process? || s.consumer.GiveBack? ==> s.consumer.i <= |s.consumer.hand|)
  }

  function IoStep(s: State, o: Oracle): State
    requires PcsInRange(s)
  {
    match s.io
    case LoopHead(left) => s.(io := if s.running then Reserve([], false) else IoDone(left))
    case Reserve(hand, draining) =>
      if |hand| < BATCH && s.free != [] then
        s.(free := s.free[1..], io := Reserve(hand + [s.free[0]], draining))
      else if hand != [] then
        s.(io := Receive(hand, draining))
      else
        s.(io := LoopHead([]))
    case Receive(hand, draining) =>
      if o.received > 0 then
        s.(io := CheckRunning(hand, if o.received <= |hand| then o.received else |hand|))
      else if o.received == 0 then
        s.(io := Release(hand, 0, NextTurn))
      else
        s.(io := Release(hand, 0, if draining then StopIfRunning else StopEngine))
    case CheckRunning(hand, n) => s.(io := if s.running then Publish(hand, n, 0) else LoopHead(hand))
    case Publish(hand, n, i) =>
      if i == n then
        s.(io := Release(hand, n, ReserveAgain))
      else if o.bad then
        s.(drops := s.drops + 1, free := Push(s.capacity, s.free, hand[i]), io := Publish(hand, n, i + 1))
      else if |s.ready| < s.capacity then
        s.(ready := s.ready + [hand[i]], io := Publish(hand, n, i + 1))
      else
        s.(drops := s.drops + 1, io := Fallback(hand, n, i))
    case Fallback(hand, n, i) =>
      s.(free := Push(s.capacity, s.free, hand[i]), io := Publish(hand, n, i + 1))
    case Release(hand, i, next) =>
      if i < |hand| then
        s.(free := Push(s.capacity, s.free, hand[i]), io := Release(hand, i + 1, next))
      else
        (match next
         case ReserveAgain => s.(io := Reserve([], true))
         case NextTurn => s.(io := LoopHead([]))
         case StopEngine => s.(running := false, io := IoDone([]))
         case StopIfRunning => s.(io := ErrorCheck))
    case ErrorCheck => s.(running := false, io := if s.running then IoDone([]) else LoopHead([]))
    case IoDone(_) => s
  }

  function ConsumerStep(s: State): State
    requires PcsInRange(s)
  {
    match s.consumer
    case WhileRunning => s.(consumer := if s.running then Drain([]) else WhileReady)
    case WhileReady => s.(consumer := if s.ready == [] then ConsumerDone else Drain([]))
    case Drain(hand) =>
      if |hand| < BATCH && s.ready != [] then
        s.(ready := s.ready[1..], consumer := Drain(hand + [s.ready[0]]))
      else
        s.(consumer := if hand == [] then WhileRunning else Process(hand, 0))
    case Process(hand, i) =>
      if i < |hand| then
        s.(processed := s.processed + 1, consumer := Process(hand, i + 1))
      else
        s.(consumer := GiveBack(hand, 0))
    case GiveBack(hand, i) =>
      if i < |hand| then
        s.(free := Push(s.capacity, s.free, hand[i]), consumer := GiveBack(hand, i + 1))
      else
        s.(consumer := WhileRunning)
    case ConsumerDone => s
  }

  ghost predicate Init(s: State) {
    && s.free == Indices(s.capacity) && s.ready == [] && s.running
    && s.io == LoopHead([]) && s.consumer == WhileRunning && s.drops == 0 && s.processed == 0
  }

  ghost predicate Next(s: State, s': State) {
    && PcsInRange(s)
    && (|| (exists o :: s' == IoStep(s, o))
        || s' == ConsumerStep(s)
        || s' == s.(running := false))
  }

  ghost predicate Run(run: seq<State>) {
    && run != [] && Init(run[0])
    && forall i :: 0 <= i && i + 1 < |run| ==> Next(run[i], run[i + 1])
  }

  // The invariant

  ghost function Held(s: State, i: nat): nat
    requires PcsInRange(s)
  {
    Occurs(s.free, i) + Occurs(IoHand(s), i) + Occurs(s.ready, i) + Occurs(ConsumerHand(s), i)
  }

  ghost function TotalHeld(s: State): nat
    requires PcsInRange(s)
  {
    |s.free| + |IoHand(s)| + |s.ready| + |ConsumerHand(s)|
  }

  /** Every index is held exactly once, and nothing else is held. */
  ghost predicate Owned(s: State) {
    && PcsInRange(s) && TotalHeld(s) == s.capacity
    && forall i: nat :: Held(s, i) == if i < s.capacity then 1 else 0
  }

  /** No fallback is reached, batches are bounded, and indices stay behind only after a stop. */
  ghost predicate ShapeOk(s: State) {
    && PcsInRange(s) && !s.io.Fallback? && (s.io.Receive? ==> s.io.hand != [])
    && |IoHand(s)| <= BATCH && |ConsumerHand(s)| <= BATCH
    && ((s.io.LoopHead? || s.io.IoDone?) && s.running ==> s.io.left == [])
    && (s.io.IoDone? ==> !s.running)
  }

  ghost predicate Invariant(s: State) {
    Owned(s) && ShapeOk(s)
  }

  /** Moving the next index of a batch to the end of a ring. */
  lemma Transfer(hand: seq<nat>, k: nat, q: seq<nat>, i: nat)
    requires k < |hand|
    ensures Occurs(hand[k..], i) + Occurs(q, i) == Occurs(hand[k + 1..], i) + Occurs(q + [hand[k]], i)
  {
    OccursHead(hand[k..], i);
    assert hand[k..][1..] == hand[k + 1..];
    OccursSnoc(q, hand[k], i);
  }

  /** Moving the oldest index of a ring into a batch. */
  lemma TransferIn(q: seq<nat>, hand: seq<nat>, i: nat)
    requires q != []
    ensures Occurs(q, i) + Occurs(hand, i) == Occurs(q[1..], i) + Occurs(hand + [q[0]], i)
  {
    OccursHead(q, i);
    OccursSnoc(hand, q[0], i);
  }

  ghost predicate HoldsSame(s: State, s': State, i: nat) {
    && PcsInRange(s) && PcsInRange(s') && s'.capacity == s.capacity
    && Held(s', i) == Held(s, i) && TotalHeld(s') == TotalHeld(s)
  }

  // Where each step that moves an index takes it

  function Reserved(s: State): State
    requires s.io.Reserve? && s.free != []
  {
    s.(free := s.free[1..], io := Reserve(s.io.hand + [s.free[0]], s.io.draining))
  }

  function Published(s: State): State
    requires s.io.Publish? && s.io.i < |s.io.hand|
  {
    s.(ready := s.ready + [s.io.hand[s.io.i]], io := Publish(s.io.hand, s.io.n, s.io.i + 1))
  }

  function Rejected(s: State): State
    requires s.io.Publish? && s.io.i < |s.io.hand|
  {
    s.(drops := s.drops + 1, free := s.free + [s.io.hand[s.io.i]], io := Publish(s.io.hand, s.io.n, s.io.i + 1))
  }

  function Released(s: State): State
    requires s.io.Release? && s.io.i < |s.io.hand|
  {
    s.(free := s.free + [s.io.hand[s.io.i]], io := Release(s.io.hand, s.io.i + 1, s.io.next))
  }

  lemma ReserveMoves(s: State, i: nat)
    requires PcsInRange(s) && s.io.Reserve? && s.free != []
    ensures HoldsSame(s, Reserved(s), i)
  {
    hide Occurs;
    TransferIn(s.free, s.io.hand, i);
  }

  lemma PublishMoves(s: State, i: nat)
    requires PcsInRange(s) && s.io.Publish? && s.io.i < s.io.n
    ensures HoldsSame(s, Published(s), i)
  {
    hide Occurs;
    Transfer(s.io.hand, s.io.i, s.ready, i);
  }

  lemma RejectMoves(s: State, i: nat)
    requires PcsInRange(s) && s.io.Publish? && s.io.i < s.io.n
    ensures HoldsSame(s, Rejected(s), i)
  {
    hide Occurs;
    Transfer(s.io.hand, s.io.i, s.free, i);
  }

  lemma ReleaseMoves(s: State, i: nat)
    requires PcsInRange(s) && s.io.Release? && s.io.i < |s.io.hand|
    ensures HoldsSame(s, Released(s), i)
  {
    hide Occurs;
    Transfer(s.io.hand, s.io.i, s.free, i);
  }

  /** Does the IO thread's next step move an index? */
  predicate IoTransfers(s: State) {
    || (s.io.Reserve? && |s.io.hand| < BATCH && s.free != [])
    || (s.io.Publish? && s.io.i < s.io.n)
    || (s.io.Release? && s.io.i < |s.io.hand|)
  }

  lemma IoKeepsHand(s: State, o: Oracle)
    requires ShapeOk(s) && !IoTransfers(s)
    ensures var s' := IoStep(s, o);
            && s' == s.(io := s'.io, running := s'.running)
            && ShapeOk(s') && IoHand(s') == IoHand(s)
  {
  }

  /** Since somebody holds the index, the ring it goes to has room. */
  lemma IoTransferStep(s: State, o: Oracle)
    requires ShapeOk(s) && TotalHeld(s) == s.capacity && IoTransfers(s)
    ensures IoStep(s, o) == if s.io.Reserve? then Reserved(s)
                            else if s.io.Release? then Released(s)
                            else if o.bad then Rejected(s)
                            else Published(s)
    ensures ShapeOk(IoStep(s, o))
  {
  }

  lemma IoMoves(s: State, o: Oracle, i: nat)
    requires ShapeOk(s) && TotalHeld(s) == s.capacity
    ensures HoldsSame(s, IoStep(s, o), i) && ShapeOk(IoStep(s, o))
  {
    if !IoTransfers(s) {
      IoKeepsHand(s, o);
      return;
    }
    IoTransferStep(s, o);
    if s.io.Reserve? {
      ReserveMoves(s, i);
    } else if s.io.Release? {
      ReleaseMoves(s, i);
    } else if o.bad {
      RejectMoves(s, i);
    } else {
      PublishMoves(s, i);
    }
  }

  lemma IoKeeps(s: State, o: Oracle)
    requires Invariant(s)
    ensures Invariant(IoStep(s, o))
  {
    var s' := IoStep(s, o);
    IoMoves(s, o, 0);
    forall i: nat
      ensures Held(s', i) == Held(s, i)
    {
      IoMoves(s, o, i);
    }
  }

  function Drained(s: State): State
    requires s.consumer.Drain? && s.ready != []
  {
    s.(ready := s.ready[1..], consumer := Drain(s.consumer.hand + [s.ready[0]]))
  }

  function GivenBack(s: State): State
    requires s.consumer.GiveBack? && s.consumer.i < |s.consumer.hand|
  {
    s.(free := s.free + [s.consumer.hand[s.consumer.i]], consumer := GiveBack(s.consumer.hand, s.consumer.i + 1))
  }

  lemma DrainMoves(s: State, i: nat)
    requires PcsInRange(s) && s.consumer.Drain? && s.ready != []
    ensures HoldsSame(s, Drained(s), i)
  {
    hide Occurs;
    TransferIn(s.ready, s.consumer.hand, i);
  }

  lemma GiveBackMoves(s: State, i: nat)
    requires PcsInRange(s) && s.consumer.GiveBack? && s.consumer.i < |s.consumer.hand|
    ensures HoldsSame(s, GivenBack(s), i)
  {
    hide Occurs;
    Transfer(s.consumer.hand, s.consumer.i, s.free, i);
  }

  predicate ConsumerTransfers(s: State) {
    || (s.consumer.Drain? && |s.consumer.hand| < BATCH && s.ready != [])
    || (s.consumer.GiveBack? && s.consumer.i < |s.consumer.hand|)
  }

  lemma ConsumerKeepsHand(s: State)
    requires ShapeOk(s) && !ConsumerTransfers(s)
    ensures var s' := ConsumerStep(s);
            && s' == s.(consumer := s'.consumer, processed := s'.processed)
            && ShapeOk(s') && ConsumerHand(s') == ConsumerHand(s)
  {
  }

  lemma ConsumerTransferStep(s: State)
    requires ShapeOk(s) && TotalHeld(s) == s.capacity && ConsumerTransfers(s)
    ensures ConsumerStep(s) == if s.consumer.Drain? then Drained(s) else GivenBack(s)
    ensures ShapeOk(ConsumerStep(s))
  {
  }

  lemma ConsumerMoves(s: State, i: nat)
    requires ShapeOk(s) && TotalHeld(s) == s.capacity
    ensures HoldsSame(s, ConsumerStep(s), i) && ShapeOk(ConsumerStep(s))
  {
    if !ConsumerTransfers(s) {
      ConsumerKeepsHand(s);
      return;
    }
    ConsumerTransferStep(s);
    if s.consumer.Drain? {
      DrainMoves(s, i);
    } else {
      GiveBackMoves(s, i);
    }
  }

  lemma ConsumerKeeps(s: State)
    requires Invariant(s)
    ensures Invariant(ConsumerStep(s))
  {
    var s' := ConsumerStep(s);
    ConsumerMoves(s, 0);
    forall i: nat
      ensures Held(s', i) == Held(s, i)
    {
      ConsumerMoves(s, i);
    }
  }

  lemma InitInvariant(s: State)
    requires Init(s)
    ensures Invariant(s)
  {
    forall i: nat
      ensures Held(s, i) == if i < s.capacity then 1 else 0
    {
      IndicesOnce(s.capacity, i);
    }
  }

  lemma StopKeeps(s: State)
    requires Invariant(s)
    ensures Invariant(s.(running := false))
  {
    assert forall i: nat :: Held(s.(running := false), i) == Held(s, i);
  }

  lemma {:induction false} RunKeeps(run: seq<State>, i: nat)
    requires Run(run) && i < |run|
    ensures Invariant(run[i])
  {
    if i == 0 {
      InitInvariant(run[0]);
    } else {
      RunKeeps(run, i - 1);
      var s, s' := run[i - 1], run[i];
      assert Next(s, run[i - 1 + 1]);
      if s' == ConsumerStep(s) {
        ConsumerKeeps(s);
      } else if s' == s.(running := false) {
        StopKeeps(s);
      } else {
        var o :| s' == IoStep(s, o);
        IoKeeps(s, o);
      }
    }
  }

  /** Conservation: no index is ever lost or duplicated, on any exit path of either loop. */
  lemma EveryIndexHasOneHolder(run: seq<State>, i: nat, k: nat)
    requires Run(run) && i < |run| && k < run[i].capacity
    ensures Owned(run[i]) && Held(run[i], k) == 1
  {
    RunKeeps(run, i);
  }

  /** Whenever a thread is about to push an index, the ring it pushes to has room. */
  lemma NoPushFails(run: seq<State>, i: nat)
    requires Run(run) && i < |run|
    ensures var s := run[i];
            && PcsInRange(s) && !s.io.Fallback?
            && (s.io.Publish? && s.io.i < s.io.n ==> |s.ready| < s.capacity && |s.free| < s.capacity)
            && (s.io.Release? && s.io.i < |s.io.hand| ==> |s.free| < s.capacity)
            && (s.consumer.GiveBack? && s.consumer.i < |s.consumer.hand| ==> |s.free| < s.capacity)
  {
    RunKeeps(run, i);
  }

  /**
   At the head of the outer loop the IO thread holds nothing while the engine is running; when it
   has left, at most one batch stays behind, and everything else is free, ready or the consumer's.
   */
  lemma AtMostOneBatchLeftBehind(run: seq<State>, i: nat)
    requires Run(run) && i < |run|
    ensures var s := run[i];
            && PcsInRange(s)
            && (s.io.LoopHead? && s.running ==> IoHand(s) == [])
            && (s.io.IoDone? ==>
                  && !s.running && |s.io.left| <= BATCH
                  && |s.free| + |s.ready| + |ConsumerHand(s)| == s.capacity - |s.io.left|)
  {
    RunKeeps(run, i);
  }

  /** A batch is left behind exactly by the check between a receive and its publication, after a stop. */
  lemma LeftBehindIff(s: State, o: Oracle)
    requires Invariant(s) && !s.io.LoopHead? && !s.io.IoDone?
    ensures var s' := IoStep(s, o);
            && ((s'.io.LoopHead? || s'.io.IoDone?) && s'.io.left != [] <==> s.io.CheckRunning? && !s.running)
            && (s.io.CheckRunning? && !s.running ==> s'.io.left == s.io.hand)
  {
  }

  // After the consumer has left

  /** Once the consumer has left, the IO thread finishes the batch it is publishing, and no other. */
  ghost predicate EndOk(s: State) {
    && (s.io.Publish? ==> |s.io.hand| <= BATCH)
    && (s.consumer.WhileReady? || s.consumer.ConsumerDone? ==> !s.running)
    && (s.consumer.ConsumerDone? ==> |s.ready| <= if s.io.Publish? then s.io.i else BATCH)
  }

  lemma IoKeepsEnd(s: State, o: Oracle)
    requires ShapeOk(s) && EndOk(s)
    ensures EndOk(IoStep(s, o))
  {
  }

  lemma ConsumerKeepsEnd(s: State)
    requires ShapeOk(s) && EndOk(s)
    ensures EndOk(ConsumerStep(s))
  {
  }

  lemma {:induction false} RunKeepsEnd(run: seq<State>, i: nat)
    requires Run(run) && i < |run|
    ensures EndOk(run[i])
  {
    RunKeeps(run, i);
    if i > 0 {
      RunKeeps(run, i - 1);
      RunKeepsEnd(run, i - 1);
      var s, s' := run[i - 1], run[i];
      assert Next(s, run[i - 1 + 1]);
      if s' == ConsumerStep(s) {
        ConsumerKeepsEnd(s);
      } else if s' != s.(running := false) {
        var o :| s' == IoStep(s, o);
        IoKeepsEnd(s, o);
      }
    }
  }

  /** At any time after the consumer has left, at most one batch has been published that nobody will take. */
  lemma AtMostOneBatchStranded(run: seq<State>, i: nat)
    requires Run(run) && i < |run| && run[i].consumer.ConsumerDone?
    ensures !run[i].running && |run[i].ready| <= BATCH
  {
    RunKeeps(run, i);
    RunKeepsEnd(run, i);
  }
}
