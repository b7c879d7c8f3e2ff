/**
 The second engine with every `push`, `pop` and `empty` taken apart into its loads and stores. As
 long as the two threads that push to `free` neither overlap nor meet a stale head, each step is a
 step of the index machine of `PipelineV2` or none at all, so that its results carry over.
 */
module PipelineV2Steps {
  import opened Words
  import opened Wrappers
  import opened RingBuffers
  import opened FramePools
  import Core = PipelineV2
  import TwoPushers
  import PipelineV1

  /**
   Program counters as in the index machine, the ring `free` with the calls of both threads on it,
   the ring `ready` with its one pusher and one popper, and the consumer's `empty` after it has
   loaded the head.
   */
  datatype State = State(
    io: Core.IoPc, consumer: Core.ConsumerPc, running: bool, drops: nat, processed: nat,
    free: TwoPushers.Race, ready: Ring<nat>, readyHistory: History<nat>,
    readyPush: Option<PushPc<nat>>, readyPop: Option<PopPc<nat>>, emptyHead: Option<Word>)

  /** A bad frame is counted before its index is pushed back. */
  function PendingDrop(s: State): nat {
    if s.io.Publish? && s.free.io.Pushing? && s.drops > 0 then 1 else 0
  }

  /** The index machine's view: what the histories of both rings hold. */
  ghost function View(s: State): Core.State
    requires s.free.history.Valid() && s.readyHistory.Valid()
  {
    Core.State(|s.ready.buffer|, s.free.history.Contents(), s.readyHistory.Contents(), s.running, s.io, s.consumer,
               s.drops - PendingDrop(s), s.processed)
  }

  /** Every memory access the next step makes is inside its array. */
  ghost predicate Safe(s: State) {
    && |s.free.ring.buffer| > 0 && |s.ready.buffer| > 0
    && (s.io.Publish? || s.io.Fallback? ==> s.io.i <= s.io.n <= |s.io.hand|)
    && (s.io.Fallback? ==> s.io.i < s.io.n)
    && (s.io.CheckRunning? ==> 0 < s.io.n <= |s.io.hand|)
    && (s.io.Release? ==> s.io.i <= |s.io.hand|)
    && (s.consumer.Process? || s.consumer.GiveBack? ==> s.consumer.i <= |s.consumer.hand|)
  }

  // Calls on `free`

  function BeginIoPush(s: State, x: nat): State {
    s.(free := s.free.(io := TwoPushers.Pushing(PushLoadHead(x)), bag := s.free.bag - multiset{x}))
  }

  /** One access of the IO thread's push; when it returns, whatever it returns, `next` follows. */
  function IoPushes(s: State, next: Core.IoPc): State
    requires |s.free.ring.buffer| > 0
  {
    var free' := TwoPushers.Do(s.free, TwoPushers.IoGo);
    s.(free := free', io := if free'.io.Between? then next else s.io)
  }

  /** Pushing `x` to `free`, from the IO thread. */
  function IoPushStep(s: State, x: nat, next: Core.IoPc): State
    requires |s.free.ring.buffer| > 0
  {
    if s.free.io.Between? then BeginIoPush(s, x) else IoPushes(s, next)
  }

  /** After `reserve_frames`: receive if anything was reserved. */
  function AfterReserve(hand: seq<nat>, draining: bool): Core.IoPc {
    if hand != [] then Core.Receive(hand, draining) else Core.LoopHead([])
  }

  function ReserveStep(s: State, hand: seq<nat>, draining: bool): State
    requires |s.free.ring.buffer| > 0
  {
    match s.free.io
    case Popping(q) =>
      var free' := TwoPushers.Do(s.free, TwoPushers.IoGo);
      s.(free := free',
         io := if !free'.io.Between? then s.io
               else if q.PopStoreHead? then Core.Reserve(hand + [q.x], draining)
               else AfterReserve(hand, draining))
    case _ => s.(free := TwoPushers.Do(s.free, TwoPushers.IoPop))
  }

  /** One access of the push to `ready`; if it is refused, the index goes back to `free`. */
  function ReadyPushStep(s: State, p: PushPc<nat>, hand: seq<nat>, n: nat, i: nat): State
    requires |s.ready.buffer| > 0
  {
    var (ready', p') := PushStep(s.ready, p);
    var s' := s.(ready := ready', readyHistory := AfterPush(s.readyHistory, p),
                 readyPush := if p'.PushDone? then None else Some(p'));
    match p'
    case PushDone(true) => s'.(io := Core.Publish(hand, n, i + 1))
    case PushDone(false) => s'.(drops := s.drops + 1, io := Core.Fallback(hand, n, i))
    case _ => s'
  }

  function PublishStep(s: State, hand: seq<nat>, n: nat, i: nat, bad: bool): State
    requires |s.free.ring.buffer| > 0 && |s.ready.buffer| > 0 && i < n <= |hand|
  {
    if !s.free.io.Between? then IoPushes(s, Core.Publish(hand, n, i + 1))
    else if s.readyPush.Some? then ReadyPushStep(s, s.readyPush.value, hand, n, i)
    else if bad then BeginIoPush(s, hand[i]).(drops := s.drops + 1)
    else s.(readyPush := Some(PushLoadHead(hand[i])))
  }

  /** The steps that make no access to a ring. */
  function LocalIoStep(s: State, o: Core.Oracle): State
    requires Safe(s)
  {
    var c := Core.State(|s.ready.buffer|, [], [], s.running, s.io, s.consumer, s.drops, s.processed);
    var c' := Core.IoStep(c, o);
    s.(io := c'.io, running := c'.running)
  }

  function IoStep(s: State, o: Core.Oracle): State
    requires Safe(s)
  {
    match s.io
    case Reserve(hand, draining) => if |hand| < Core.BATCH then ReserveStep(s, hand, draining) else LocalIoStep(s, o)
    case Publish(hand, n, i) => if i < n then PublishStep(s, hand, n, i, o.bad) else LocalIoStep(s, o)
    case Fallback(hand, n, i) => IoPushStep(s, hand[i], Core.Publish(hand, n, i + 1))
    case Release(hand, i, next) =>
      if i < |hand| then IoPushStep(s, hand[i], Core.Release(hand, i + 1, next)) else LocalIoStep(s, o)
    case _ => LocalIoStep(s, o)
  }

  // The consumer

  function DrainStep(s: State, hand: seq<nat>): State
    requires |s.ready.buffer| > 0
  {
    match s.readyPop
    case None => s.(readyPop := Some(PopLoadHead))
    case Some(q) =>
      var (ready', q') := PopStep(s.ready, q);
      var s' := s.(ready := ready', readyHistory := AfterPop(s.readyHistory, q),
                   readyPop := if q'.PopDone? then None else Some(q'));
      match q'
      case PopDone(Some(v)) => s'.(consumer := Core.Drain(hand + [v]))
      case PopDone(None) => s'.(consumer := AfterDrain(hand))
      case _ => s'
  }

  function AfterDrain(hand: seq<nat>): Core.ConsumerPc {
    if hand == [] then Core.WhileRunning else Core.Process(hand, 0)
  }

  function GiveBackStep(s: State, hand: seq<nat>, i: nat): State
    requires |s.free.ring.buffer| > 0 && i < |hand|
  {
    if s.free.other.None? then
      s.(free := s.free.(other := Some(PushLoadHead(hand[i])), bag := s.free.bag - multiset{hand[i]}))
    else
      var free' := TwoPushers.Do(s.free, TwoPushers.OtherGo);
      s.(free := free', consumer := if free'.other.None? then Core.GiveBack(hand, i + 1) else s.consumer)
  }

  function EmptyStep(s: State): State {
    match s.emptyHead
    case None => s.(emptyHead := Some(s.ready.head))
    case Some(h) =>
      s.(emptyHead := None, consumer := if h == s.ready.tail then Core.ConsumerDone else Core.Drain([]))
  }

  function ConsumerStep(s: State): State
    requires Safe(s)
  {
    match s.consumer
    case WhileRunning => s.(consumer := if s.running then Core.Drain([]) else Core.WhileReady)
    case WhileReady => EmptyStep(s)
    case Drain(hand) => if |hand| < Core.BATCH then DrainStep(s, hand) else s.(consumer := AfterDrain(hand))
    case Process(hand, i) =>
      if i < |hand| then s.(processed := s.processed + 1, consumer := Core.Process(hand, i + 1))
      else s.(consumer := Core.GiveBack(hand, 0))
    case GiveBack(hand, i) => if i < |hand| then GiveBackStep(s, hand, i) else s.(consumer := Core.WhileRunning)
    case ConsumerDone => s
  }

  ghost predicate Init(s: State) {
    && s.io == Core.LoopHead([]) && s.consumer == Core.WhileRunning && s.running && s.drops == 0 && s.processed == 0
    && TwoPushers.Start(s.free) && s.free.history == History(Indices(|s.ready.buffer|), 0) && s.free.bag == multiset{}
    && Represents(s.ready, s.readyHistory) && s.readyHistory == History([], 0)
    && s.readyPush == None && s.readyPop == None && s.emptyHead == None
  }

  ghost predicate Next(s: State, s': State) {
    && Safe(s)
    && (|| (exists o :: s' == IoStep(s, o))
        || s' == ConsumerStep(s)
        || s' == s.(running := false))
  }

  ghost predicate Run(run: seq<State>) {
    && run != [] && Init(run[0])
    && forall i :: 0 <= i && i + 1 < |run| ==> Next(run[i], run[i + 1])
  }

  /** So far the two pushers have taken turns, and neither was refused on a stale head. */
  predicate Clean(s: State) {
    !s.free.overlapped && !s.free.stale
  }

  // The invariant of clean runs

  /** The IO thread's calls fit its program counter. */
  ghost predicate IoCallOk(s: State) {
    && (s.free.io.Popping? ==> s.io.Reserve? && |s.io.hand| < Core.BATCH)
    && (s.free.io.Pushing? ==>
          && !s.free.io.push.PushDone? && s.readyPush.None?
          && (|| (s.io.Publish? && s.io.i < s.io.n <= |s.io.hand| && s.drops > 0)
              || (s.io.Release? && s.io.i < |s.io.hand|))
          && s.free.io.push.x == s.io.hand[s.io.i])
    && (s.readyPush.Some? ==>
          && s.io.Publish? && s.io.i < s.io.n <= |s.io.hand|
          && PipelineV1.PushHasRoom(s.ready, s.io.hand[s.io.i], s.readyPush.value))
  }

  /** The consumer's calls fit its program counter. */
  ghost predicate ConsumerCallOk(s: State) {
    && (s.free.other.Some? ==>
          && !s.free.other.value.PushDone? && s.consumer.GiveBack? && s.consumer.i < |s.consumer.hand|
          && s.free.other.value.x == s.consumer.hand[s.consumer.i])
    && (s.readyPop.Some? ==> !s.readyPop.value.PopDone? && s.consumer.Drain? && |s.consumer.hand| < Core.BATCH)
    && (s.emptyHead.Some? ==> s.consumer.WhileReady? && s.emptyHead.value == s.ready.head)
  }

  function ReadyPusher(s: State): PushPc<nat> {
    if s.readyPush.Some? then s.readyPush.value else PushDone(true)
  }

  function ReadyPopper(s: State): PopPc<nat> {
    if s.readyPop.Some? then s.readyPop.value else PopDone(None)
  }

  /** `free` is right, and every index occurs once in and around it. */
  ghost predicate FreeOk(s: State) {
    && TwoPushers.WordsOk(s.free) && TwoPushers.CountsOk(s.free) && TwoPushers.TurnsOk(s.free) && s.free.refused == []
    && |s.free.ring.buffer| == |s.ready.buffer|
    && forall i: nat :: TwoPushers.Held(s.free, i) == if i < |s.ready.buffer| then 1 else 0
  }

  ghost predicate ReadyOk(s: State) {
    RingOk(s.ready, s.readyHistory, ReadyPusher(s), ReadyPopper(s))
  }

  ghost predicate Invariant(s: State) {
    && Clean(s) && FreeOk(s) && ReadyOk(s) && IoCallOk(s) && ConsumerCallOk(s)
    && Core.Invariant(View(s))
  }

  lemma InvariantIsSafe(s: State)
    requires Invariant(s)
    ensures Safe(s)
  {
  }

  /** The machine does nothing, or a step of the index machine. */
  ghost predicate Simulates(s: State, s': State) {
    && s.free.history.Valid() && s.readyHistory.Valid() && s'.free.history.Valid() && s'.readyHistory.Valid()
    && (View(s') == View(s) || Core.Next(View(s), View(s')))
  }

  // Facts used by every step

  /** The index at the front of the IO thread's batch is outside `free`, and not on its way there. */
  lemma IoHandInBag(s: State, x: nat)
    requires FreeOk(s) && IoCallOk(s) && ConsumerCallOk(s) && s.readyHistory.Valid() && Core.Owned(View(s))
    requires s.free.io.Between? && x in Core.IoHand(View(s))
    ensures x in s.free.bag
  {
    hide Occurs;
    var c := View(s);
    assert s.free.other.Some? ==> Core.ConsumerHand(c)[0] == s.free.other.value.x;
    OccursIn(Core.IoHand(c), x);
    OccursIn(Core.ConsumerHand(c), x);
    OccursNone(x);
    assert Core.Held(c, x) <= 1 && TwoPushers.Held(s.free, x) == Core.Held(c, x);
  }

  lemma ConsumerHandInBag(s: State, x: nat)
    requires FreeOk(s) && IoCallOk(s) && ConsumerCallOk(s) && s.readyHistory.Valid() && Core.Owned(View(s))
    requires s.free.other.None? && x in Core.ConsumerHand(View(s))
    ensures x in s.free.bag
  {
    hide Occurs;
    var c := View(s);
    assert s.free.io.Pushing? ==> Core.IoHand(c)[0] == s.free.io.push.x;
    OccursIn(Core.IoHand(c), x);
    OccursIn(Core.ConsumerHand(c), x);
    OccursNone(x);
    assert Core.Held(c, x) <= 1 && TwoPushers.Held(s.free, x) == Core.Held(c, x);
  }

  lemma OccursNone(i: nat)
    ensures Occurs([], i) == 0
  {
  }

  /** An action on `free` that is no overlap keeps it right. */
  lemma FreeKeeps(s: State, a: TwoPushers.Action)
    requires FreeOk(s) && var free' := TwoPushers.Do(s.free, a); !free'.overlapped && !free'.stale && !s.free.overlapped
    ensures FreeOk(s.(free := TwoPushers.Do(s.free, a)))
  {
    var free' := TwoPushers.Do(s.free, a);
    TwoPushers.DoKeepsWords(s.free, a);
    TwoPushers.DoKeepsCounts(s.free, a);
    TwoPushers.DoKeepsTurns(s.free, a);
    hide TwoPushers.Do, TwoPushers.WordsOk, TwoPushers.CountsOk, TwoPushers.Held;
    forall i: nat
      ensures TwoPushers.Held(free', i) == TwoPushers.Held(s.free, i)
    {
      TwoPushers.DoKeepsHeld(s.free, a, i);
    }
    assert |free'.ring.buffer| == |s.free.ring.buffer|;
  }

  /** The IO thread's push to `free`, one access on: it succeeds when it stores the tail. */
  lemma IoPushAccess(f: TwoPushers.Race)
    requires TwoPushers.WordsOk(f) && TwoPushers.CountsOk(f) && TwoPushers.TurnsOk(f) && f.io.Pushing?
    ensures var p, f' := f.io.push, TwoPushers.Do(f, TwoPushers.IoGo);
            && f'.other == f.other && f'.history == AfterPush(f.history, p)
            && (if p.PushStoreTail? then f'.io.Between?
                else f'.io.Pushing? && !f'.io.push.PushDone? && f'.io.push.x == p.x)
  {
    TwoPushers.HasPlace(f);
  }

  /** The consumer's push to `free`, one access on, unless it is refused on a stale head. */
  lemma OtherPushAccess(f: TwoPushers.Race)
    requires TwoPushers.WordsOk(f) && TwoPushers.CountsOk(f) && TwoPushers.TurnsOk(f) && f.other.Some?
    requires !TwoPushers.Do(f, TwoPushers.OtherGo).stale
    ensures var p, f' := f.other.value, TwoPushers.Do(f, TwoPushers.OtherGo);
            && f'.io == f.io && f'.history == AfterPush(f.history, p)
            && (if p.PushStoreTail? then f'.other.None?
                else f'.other.Some? && !f'.other.value.PushDone? && f'.other.value.x == p.x)
  {
    TwoPushers.HasPlace(f);
  }

  lemma PopAccess(f: TwoPushers.Race)
    requires TwoPushers.WordsOk(f) && TwoPushers.TurnsOk(f) && f.io.Popping?
    ensures var q, f' := f.io.pop, TwoPushers.Do(f, TwoPushers.IoGo);
            && f'.other == f.other && f'.history == AfterPop(f.history, q)
            && (q.PopStoreHead? ==>
                  f'.io.Between? && f.history.popped < |f.history.pushed| && q.x == f.history.pushed[f.history.popped])
            && (!q.PopStoreHead? ==> f'.io.Popping? || (f'.io.Between? && f.history.popped == |f.history.pushed|))
            && !f'.io.Pushing?
  {
    Occupancy(f.ring, f.history);
  }

  // IO steps

  lemma LocalIoSimulates(s: State, o: Core.Oracle)
    requires Invariant(s) && Safe(s) && s.free.io.Between? && s.readyPush.None? && !Core.IoTransfers(View(s))
    requires !(s.io.Reserve? && |s.io.hand| < Core.BATCH)
    ensures Invariant(LocalIoStep(s, o)) && Simulates(s, LocalIoStep(s, o))
    ensures View(LocalIoStep(s, o)) == Core.IoStep(View(s), o)
  {
    var s' := LocalIoStep(s, o);
    assert s' == s.(io := s'.io, running := s'.running);
    assert View(s') == Core.IoStep(View(s), o);
    Core.IoKeeps(View(s), o);
  }

  lemma FrontOfHand(c: Core.State)
    requires Core.PcsInRange(c) && ((c.io.Publish? && c.io.i < c.io.n) || (c.io.Release? && c.io.i < |c.io.hand|))
    ensures c.io.hand[c.io.i] in Core.IoHand(c)
  {
    assert Core.IoHand(c)[0] == c.io.hand[c.io.i];
  }

  /** Beginning a push to `free` changes nothing for the index machine. */
  lemma BeginIoPushKeeps(s: State, x: nat)
    requires Invariant(s) && s.free.io.Between? && s.readyPush.None? && x in Core.IoHand(View(s))
    ensures FreeOk(BeginIoPush(s, x)) && Clean(BeginIoPush(s, x))
  {
    IoHandInBag(s, x);
    var s' := BeginIoPush(s, x);
    assert s'.free == TwoPushers.Do(s.free, TwoPushers.IoPush(x));
    FreeKeeps(s, TwoPushers.IoPush(x));
  }

  lemma ReserveSimulates(s: State, o: Core.Oracle)
    requires Invariant(s) && Safe(s) && s.io.Reserve? && |s.io.hand| < Core.BATCH && Clean(IoStep(s, o))
    ensures Invariant(IoStep(s, o)) && Simulates(s, IoStep(s, o))
  {
    var s' := IoStep(s, o);
    if s.free.io.Between? {
      FreeKeeps(s, TwoPushers.IoPop);
      assert View(s') == View(s);
    } else {
      FreeKeeps(s, TwoPushers.IoGo);
      PopAccess(s.free);
      ReserveAccess(s, o);
    }
  }

  lemma ReserveAccess(s: State, o: Core.Oracle)
    requires Invariant(s) && Safe(s) && s.io.Reserve? && |s.io.hand| < Core.BATCH && s.free.io.Popping?
    requires FreeOk(IoStep(s, o)) && Clean(IoStep(s, o))
    ensures Invariant(IoStep(s, o)) && Simulates(s, IoStep(s, o))
    ensures View(IoStep(s, o)) == if IoStep(s, o).free.io.Between? then Core.IoStep(View(s), o) else View(s)
  {
    var s', c := IoStep(s, o), View(s);
    PopAccess(s.free);
    hide TwoPushers.Do, FreeOk, ReadyOk;
    assert s' == s.(free := s'.free, io := s'.io);
    if s'.free.io.Between? {
      assert View(s') == Core.IoStep(c, o);
      Core.IoKeeps(c, o);
    } else {
      assert View(s') == c;
    }
  }

  /** The index machine, where the IO thread pushes the front of its batch to `free`. */
  lemma CorePushesFree(c: Core.State)
    requires Core.Invariant(c)
    ensures c.io.Publish? && c.io.i < c.io.n ==> Core.IoStep(c, Core.Oracle(0, true)) == Core.Rejected(c)
    ensures c.io.Publish? && c.io.i < c.io.n ==> Core.IoStep(c, Core.Oracle(0, false)) == Core.Published(c)
    ensures c.io.Release? && c.io.i < |c.io.hand| ==> Core.IoStep(c, Core.Oracle(0, true)) == Core.Released(c)
    ensures c.io.Publish? && c.io.i < c.io.n ==> |c.ready| < c.capacity
  {
    if Core.IoTransfers(c) {
      Core.IoTransferStep(c, Core.Oracle(0, true));
      Core.IoTransferStep(c, Core.Oracle(0, false));
    }
  }

  /** An access of the IO thread's push to `free`: a step of the index machine when it stores the tail. */
  lemma IoPushSimulates(s: State, o: Core.Oracle)
    requires Invariant(s) && Safe(s) && s.free.io.Pushing? && Clean(IoStep(s, o))
    ensures Invariant(IoStep(s, o)) && Simulates(s, IoStep(s, o))
  {
    FreeKeeps(s, TwoPushers.IoGo);
    IoPushAccess(s.free);
    CorePushesFree(View(s));
    IoPushView(s, o);
    Core.IoKeeps(View(s), Core.Oracle(0, true));
    hide TwoPushers.Do, FreeOk, ReadyOk, View, Core.Invariant;
  }

  lemma IoPushMovesOn(s: State, o: Core.Oracle)
    requires Safe(s) && IoCallOk(s) && s.free.io.Pushing?
    ensures var s', free' := IoStep(s, o), TwoPushers.Do(s.free, TwoPushers.IoGo);
            s' == s.(free := free', io := if !free'.io.Between? then s.io
                                          else if s.io.Publish? then Core.Publish(s.io.hand, s.io.n, s.io.i + 1)
                                          else Core.Release(s.io.hand, s.io.i + 1, s.io.next))
  {
    hide TwoPushers.Do;
  }

  lemma IoPushView(s: State, o: Core.Oracle)
    requires Invariant(s) && Safe(s) && s.free.io.Pushing? && FreeOk(s.(free := TwoPushers.Do(s.free, TwoPushers.IoGo)))
    ensures var s' := IoStep(s, o);
            && FreeOk(s') && ReadyOk(s') && IoCallOk(s') && ConsumerCallOk(s')
            && s'.free.history.Valid() && s'.readyHistory.Valid()
            && View(s') == (if s.free.io.push.PushStoreTail? then Core.IoStep(View(s), Core.Oracle(0, true))
                           else View(s))
  {
    hide TwoPushers.Do, IoStep, Core.IoStep;
    var s', c, p := IoStep(s, o), View(s), s.free.io.push;
    IoPushAccess(s.free);
    CorePushesFree(c);
    IoPushMovesOn(s, o);
    hide Represents, PusherKnows, PopperKnows, Core.Invariant, TwoPushers.TurnsOk;
    assert FreeOk(s');
    hide FreeOk;
    if p.PushStoreTail? {
      var h, x := s.free.history, p.x;
      assert h.(pushed := h.pushed + [x]).Contents() == h.Contents() + [x];
      assert View(s') == if s.io.Publish? then Core.Rejected(c) else Core.Released(c);
    } else {
      assert View(s') == c;
    }
  }

  lemma BeginFreeSimulates(s: State, o: Core.Oracle)
    requires Invariant(s) && Safe(s) && s.free.io.Between? && s.readyPush.None?
    requires (s.io.Publish? && s.io.i < s.io.n && o.bad) || (s.io.Release? && s.io.i < |s.io.hand|)
    ensures Invariant(IoStep(s, o)) && Simulates(s, IoStep(s, o))
  {
    var s', x := IoStep(s, o), s.io.hand[s.io.i];
    FrontOfHand(View(s));
    BeginIoPushKeeps(s, x);
    assert View(s') == View(s);
  }

  lemma BeginReadySimulates(s: State, o: Core.Oracle)
    requires Invariant(s) && Safe(s) && s.free.io.Between? && s.readyPush.None?
    requires s.io.Publish? && s.io.i < s.io.n && !o.bad
    ensures Invariant(IoStep(s, o)) && Simulates(s, IoStep(s, o))
  {
    var s' := IoStep(s, o);
    assert s' == s.(readyPush := Some(PushLoadHead(s.io.hand[s.io.i])));
    assert View(s') == View(s);
    hide FreeOk, Core.Invariant;
  }

  lemma ReadyPushSimulates(s: State, o: Core.Oracle)
    requires Invariant(s) && Safe(s) && s.readyPush.Some?
    ensures Invariant(IoStep(s, o)) && Simulates(s, IoStep(s, o))
  {
    var s', c, p := IoStep(s, o), View(s), s.readyPush.value;
    CorePushesFree(c);
    PushStepKeeps(s.ready, s.readyHistory, p, ReadyPopper(s));
    PipelineV1.PushKeepsRoom(s.ready, s.readyHistory, p.x, p);
    ReadyPushView(s, o);
    Core.IoKeeps(c, Core.Oracle(0, false));
    hide FreeOk, ReadyOk, View, Core.Invariant, PushStep;
  }

  lemma ReadyPushView(s: State, o: Core.Oracle)
    requires Invariant(s) && Safe(s) && s.readyPush.Some?
    requires var p := s.readyPush.value; var (r', p') := PushStep(s.ready, p);
             && RingOk(r', AfterPush(s.readyHistory, p), p', ReadyPopper(s)) && |r'.buffer| == |s.ready.buffer|
             && (p' == PushDone(true) || PipelineV1.PushHasRoom(r', p.x, p')) && (p'.PushDone? <==> p.PushStoreTail?)
    requires Core.IoStep(View(s), Core.Oracle(0, false)) == Core.Published(View(s))
    ensures var s' := IoStep(s, o);
            && FreeOk(s') && ReadyOk(s') && IoCallOk(s') && ConsumerCallOk(s')
            && s'.free.history.Valid() && s'.readyHistory.Valid()
            && View(s') == (if s.readyPush.value.PushStoreTail? then Core.IoStep(View(s), Core.Oracle(0, false))
                           else View(s))
  {
    var s', c, p := IoStep(s, o), View(s), s.readyPush.value;
    assert FreeOk(s');
    hide FreeOk, Core.Invariant, Core.IoStep;
    if p.PushStoreTail? {
      var h, x := s.readyHistory, p.x;
      assert h.(pushed := h.pushed + [x]).Contents() == h.Contents() + [x];
      assert View(s') == Core.Published(c);
    } else {
      assert View(s') == c;
    }
  }

  lemma IoSimulates(s: State, o: Core.Oracle)
    requires Invariant(s) && Safe(s) && Clean(IoStep(s, o))
    ensures Invariant(IoStep(s, o)) && Simulates(s, IoStep(s, o))
  {
    assert !s.io.Fallback?;
    if s.free.io.Pushing? {
      IoPushSimulates(s, o);
    } else if s.readyPush.Some? {
      ReadyPushSimulates(s, o);
    } else if s.io.Reserve? && |s.io.hand| < Core.BATCH {
      ReserveSimulates(s, o);
    } else if s.io.Publish? && s.io.i < s.io.n && !o.bad {
      BeginReadySimulates(s, o);
    } else if (s.io.Publish? && s.io.i < s.io.n) || (s.io.Release? && s.io.i < |s.io.hand|) {
      BeginFreeSimulates(s, o);
    } else {
      LocalIoSimulates(s, o);
    }
  }

  // Consumer steps

  lemma LocalConsumerSimulates(s: State)
    requires Invariant(s) && Safe(s) && s.free.other.None? && s.readyPop.None? && s.emptyHead.None?
    requires !s.consumer.WhileReady? && !(s.consumer.Drain? && |s.consumer.hand| < Core.BATCH)
    requires !(s.consumer.GiveBack? && s.consumer.i < |s.consumer.hand|)
    ensures Invariant(ConsumerStep(s)) && Simulates(s, ConsumerStep(s))
    ensures View(ConsumerStep(s)) == Core.ConsumerStep(View(s))
  {
    var s' := ConsumerStep(s);
    assert s' == s.(consumer := s'.consumer, processed := s'.processed);
    assert View(s') == Core.ConsumerStep(View(s));
    Core.ConsumerKeeps(View(s));
  }

  lemma EmptySimulates(s: State)
    requires Invariant(s) && Safe(s) && s.consumer.WhileReady?
    ensures Invariant(ConsumerStep(s)) && Simulates(s, ConsumerStep(s))
    ensures View(ConsumerStep(s)) == if s.emptyHead.Some? then Core.ConsumerStep(View(s)) else View(s)
  {
    var s' := ConsumerStep(s);
    assert s' == s.(consumer := s'.consumer, emptyHead := s'.emptyHead);
    Occupancy(s.ready, s.readyHistory);
    if s.emptyHead.Some? {
      assert View(s') == Core.ConsumerStep(View(s));
      Core.ConsumerKeeps(View(s));
    } else {
      assert View(s') == View(s);
    }
  }

  lemma DrainSimulates(s: State)
    requires Invariant(s) && Safe(s) && s.consumer.Drain? && |s.consumer.hand| < Core.BATCH
    ensures Invariant(ConsumerStep(s)) && Simulates(s, ConsumerStep(s))
  {
    var s' := ConsumerStep(s);
    if s.readyPop.None? {
      assert s' == s.(readyPop := Some(PopLoadHead)) && View(s') == View(s);
      hide FreeOk, Core.Invariant;
    } else {
      PopStepKeeps(s.ready, s.readyHistory, ReadyPusher(s), s.readyPop.value);
      DrainView(s);
      Core.ConsumerKeeps(View(s));
      hide FreeOk, ReadyOk, View, Core.Invariant, PopStep;
    }
  }

  lemma DrainView(s: State)
    requires Invariant(s) && Safe(s) && s.readyPop.Some?
    requires var q := s.readyPop.value; var (r', q') := PopStep(s.ready, q);
             RingOk(r', AfterPop(s.readyHistory, q), ReadyPusher(s), q')
    ensures var s' := ConsumerStep(s);
            && FreeOk(s') && ReadyOk(s') && IoCallOk(s') && ConsumerCallOk(s')
            && s'.free.history.Valid() && s'.readyHistory.Valid()
            && View(s') == (if s'.readyPop.None? then Core.ConsumerStep(View(s)) else View(s))
  {
    var s', c, q := ConsumerStep(s), View(s), s.readyPop.value;
    Occupancy(s.ready, s.readyHistory);
    assert |s'.ready.buffer| == |s.ready.buffer|;
    assert FreeOk(s');
    hide FreeOk, Core.Invariant;
    if q.PopStoreHead? || (q.PopLoadTail? && s.ready.head == s.ready.tail) {
      assert View(s') == Core.ConsumerStep(c);
    } else {
      assert View(s') == c;
    }
  }

  lemma BeginGiveBackSimulates(s: State)
    requires Invariant(s) && Safe(s) && s.consumer.GiveBack? && s.consumer.i < |s.consumer.hand| && s.free.other.None?
    ensures Invariant(ConsumerStep(s)) && Simulates(s, ConsumerStep(s))
  {
    var s', x := ConsumerStep(s), s.consumer.hand[s.consumer.i];
    assert Core.ConsumerHand(View(s))[0] == x;
    ConsumerHandInBag(s, x);
    assert s' == s.(free := TwoPushers.Do(s.free, TwoPushers.OtherPush(x)));
    FreeKeeps(s, TwoPushers.OtherPush(x));
    assert View(s') == View(s);
  }

  lemma GiveBackSimulates(s: State)
    requires Invariant(s) && Safe(s) && s.free.other.Some? && Clean(ConsumerStep(s))
    ensures Invariant(ConsumerStep(s)) && Simulates(s, ConsumerStep(s))
  {
    FreeKeeps(s, TwoPushers.OtherGo);
    OtherPushAccess(s.free);
    Core.ConsumerTransferStep(View(s));
    GiveBackView(s);
    Core.ConsumerKeeps(View(s));
    hide TwoPushers.Do, FreeOk, ReadyOk, View, Core.Invariant;
  }

  lemma GiveBackMovesOn(s: State)
    requires Safe(s) && ConsumerCallOk(s) && s.free.other.Some?
    ensures var s', free' := ConsumerStep(s), TwoPushers.Do(s.free, TwoPushers.OtherGo);
            s' == s.(free := free', consumer := if free'.other.Some? then s.consumer
                                                else Core.GiveBack(s.consumer.hand, s.consumer.i + 1))
  {
    hide TwoPushers.Do;
  }

  lemma GiveBackView(s: State)
    requires Invariant(s) && Safe(s) && s.free.other.Some? && Clean(ConsumerStep(s))
    requires FreeOk(s.(free := TwoPushers.Do(s.free, TwoPushers.OtherGo)))
    ensures var s' := ConsumerStep(s);
            && FreeOk(s') && ReadyOk(s') && IoCallOk(s') && ConsumerCallOk(s')
            && s'.free.history.Valid() && s'.readyHistory.Valid()
            && View(s') == (if s.free.other.value.PushStoreTail? then Core.ConsumerStep(View(s)) else View(s))
  {
    hide TwoPushers.Do, ConsumerStep, Core.ConsumerStep;
    var s', c, p := ConsumerStep(s), View(s), s.free.other.value;
    GiveBackMovesOn(s);
    OtherPushAccess(s.free);
    Core.ConsumerTransferStep(c);
    hide Represents, PusherKnows, PopperKnows, Core.Invariant, TwoPushers.TurnsOk;
    assert FreeOk(s');
    hide FreeOk;
    if p.PushStoreTail? {
      var h, x := s.free.history, p.x;
      assert h.(pushed := h.pushed + [x]).Contents() == h.Contents() + [x];
      assert View(s') == Core.GivenBack(c);
    } else {
      assert View(s') == c;
    }
  }

  lemma ConsumerSimulates(s: State)
    requires Invariant(s) && Safe(s) && Clean(ConsumerStep(s))
    ensures Invariant(ConsumerStep(s)) && Simulates(s, ConsumerStep(s))
  {
    if s.consumer.WhileReady? {
      EmptySimulates(s);
    } else if s.consumer.Drain? && |s.consumer.hand| < Core.BATCH {
      DrainSimulates(s);
    } else if s.free.other.Some? {
      GiveBackSimulates(s);
    } else if s.consumer.GiveBack? && s.consumer.i < |s.consumer.hand| {
      BeginGiveBackSimulates(s);
    } else {
      LocalConsumerSimulates(s);
    }
  }

  lemma StopSimulates(s: State)
    requires Invariant(s)
    ensures Invariant(s.(running := false)) && Simulates(s, s.(running := false))
  {
    Core.StopKeeps(View(s));
    assert View(s.(running := false)) == View(s).(running := false);
  }

  lemma StepSimulates(s: State, s': State)
    requires Invariant(s) && Next(s, s') && Clean(s')
    ensures Invariant(s') && Simulates(s, s')
  {
    if s' == ConsumerStep(s) {
      ConsumerSimulates(s);
    } else if s' == s.(running := false) {
      StopSimulates(s);
    } else {
      var o :| s' == IoStep(s, o);
      IoSimulates(s, o);
    }
  }

  // Whole runs

  lemma InitInvariant(s: State)
    requires Init(s)
    ensures Invariant(s) && Core.Init(View(s))
  {
    var n := |s.ready.buffer|;
    forall i: nat
      ensures TwoPushers.Held(s.free, i) == if i < n then 1 else 0
    {
      IndicesOnce(n, i);
      OccursNone(i);
    }
    assert s.free.history.Contents() == Indices(n) && s.readyHistory.Contents() == [];
    Core.InitInvariant(View(s));
  }

  lemma CleanBefore(s: State, s': State)
    requires Next(s, s') && Clean(s')
    ensures Clean(s)
  {
    hide BitAnd, Core.IoStep;
  }

  lemma RunStarts(run: seq<State>)
    requires Run(run)
    ensures Init(run[0])
  {
  }

  lemma RunSteps(run: seq<State>, i: nat)
    requires Run(run) && i + 1 < |run|
    ensures Next(run[i], run[i + 1])
  {
  }

  lemma {:induction false} CleanRunKeeps(run: seq<State>, i: nat)
    requires Run(run) && i < |run| && Clean(run[i])
    ensures Invariant(run[i])
  {
    hide Invariant, Init, Next;
    RunStarts(run);
    if i == 0 {
      InitInvariant(run[0]);
    } else {
      RunSteps(run, i - 1);
      CleanBefore(run[i - 1], run[i]);
      CleanRunKeeps(run, i - 1);
      StepSimulates(run[i - 1], run[i]);
    }
  }

  /**
   Atomicity: every run at the level of loads and stores, as far as no pusher of `free` loaded the
   tail while the other held it and none was refused on a stale head, is a run of the index machine
   in which some steps take several accesses.
   */
  lemma {:induction false} CleanRunsAreAtomic(run: seq<State>, i: nat) returns (atomic: seq<Core.State>)
    requires Run(run) && i < |run| && Clean(run[i])
    ensures Invariant(run[i])
    ensures Core.Run(atomic) && |atomic| <= i + 1 && atomic[|atomic| - 1] == View(run[i])
  {
    CleanRunKeeps(run, i);
    RunStarts(run);
    hide Init, Next, Core.Next, Core.Init, Core.Invariant;
    if i == 0 {
      InitInvariant(run[0]);
      atomic := [View(run[0])];
    } else {
      RunSteps(run, i - 1);
      CleanBefore(run[i - 1], run[i]);
      atomic := CleanRunsAreAtomic(run, i - 1);
      StepSimulates(run[i - 1], run[i]);
      if View(run[i]) != View(run[i - 1]) {
        ExtendAtomic(atomic, View(run[i]));
        atomic := atomic + [View(run[i])];
      }
    }
  }

  lemma ExtendAtomic(atomic: seq<Core.State>, c: Core.State)
    requires Core.Run(atomic) && Core.Next(atomic[|atomic| - 1], c)
    ensures Core.Run(atomic + [c])
  {
    var longer := atomic + [c];
    forall i | 0 <= i && i + 1 < |longer|
      ensures Core.Next(longer[i], longer[i + 1])
    {
      assert i + 1 < |atomic| ==> Core.Next(atomic[i], atomic[i + 1]);
    }
  }

  /** In particular every index has one holder, down to the individual access. */
  lemma CleanRunsLoseNothing(run: seq<State>, i: nat, k: nat)
    requires Run(run) && i < |run| && Clean(run[i]) && k < |run[i].ready.buffer|
    ensures Invariant(run[i]) && Core.Held(View(run[i]), k) == 1
  {
    CleanRunKeeps(run, i);
  }

  // Every call returns

  function PushLeft(p: PushPc<nat>): nat {
    match p
    case PushLoadHead(_) => 4
    case PushLoadTail(_, _) => 3
    case PushWriteSlot(_, _) => 2
    case PushStoreTail(_, _) => 1
    case PushDone(_) => 0
  }

  function PopLeft(q: PopPc<nat>): nat {
    match q
    case PopLoadHead => 4
    case PopLoadTail(_) => 3
    case PopReadSlot(_) => 2
    case PopStoreHead(_, _) => 1
    case PopDone(_) => 0
  }

  /** At most how many accesses the IO thread still makes before its next step in the index machine. */
  function IoLeft(s: State): nat {
    match s.free.io
    case Pushing(p) => PushLeft(p)
    case Popping(q) => PopLeft(q)
    case Between => if s.readyPush.Some? then PushLeft(s.readyPush.value) else 5
  }

  function ConsumerLeft(s: State): nat {
    if s.free.other.Some? then PushLeft(s.free.other.value)
    else if s.readyPop.Some? then PopLeft(s.readyPop.value)
    else if s.emptyHead.Some? then 1
    else 5
  }

  ghost predicate IoMoves(s: State, s': State)
    requires s.free.history.Valid() && s.readyHistory.Valid() && s'.free.history.Valid() && s'.readyHistory.Valid()
    requires Core.PcsInRange(View(s))
  {
    exists o :: View(s') == Core.IoStep(View(s), o)
  }

  lemma IoPushProgress(s: State, o: Core.Oracle)
    requires Invariant(s) && Safe(s) && s.free.io.Pushing? && Clean(IoStep(s, o))
    ensures Invariant(IoStep(s, o)) && (IoLeft(IoStep(s, o)) < IoLeft(s) || IoMoves(s, IoStep(s, o)))
  {
    IoPushSimulates(s, o);
    FreeKeeps(s, TwoPushers.IoGo);
    IoPushView(s, o);
    if s.free.io.push.PushStoreTail? {
      assert View(IoStep(s, o)) == Core.IoStep(View(s), Core.Oracle(0, true));
    } else {
      IoPushMovesOn(s, o);
      IoPushAccess(s.free);
      PushStepLeft(s.free.ring, s.free.io.push);
      assert TwoPushers.Do(s.free, TwoPushers.IoGo).io == TwoPushers.Pushing(PushStep(s.free.ring, s.free.io.push).1);
    }
  }

  lemma PushStepLeft(r: Ring<nat>, p: PushPc<nat>)
    requires |r.buffer| > 0 && !p.PushDone?
    ensures PushLeft(PushStep(r, p).1) < PushLeft(p)
  {
  }

  lemma PopStepLeft(r: Ring<nat>, q: PopPc<nat>)
    requires |r.buffer| > 0 && !q.PopDone?
    ensures PopLeft(PopStep(r, q).1) < PopLeft(q)
  {
  }

  lemma ReadyPushProgress(s: State, o: Core.Oracle)
    requires Invariant(s) && Safe(s) && s.readyPush.Some?
    ensures Invariant(IoStep(s, o)) && (IoLeft(IoStep(s, o)) < IoLeft(s) || IoMoves(s, IoStep(s, o)))
  {
    var s', p := IoStep(s, o), s.readyPush.value;
    ReadyPushSimulates(s, o);
    CorePushesFree(View(s));
    PushStepKeeps(s.ready, s.readyHistory, p, ReadyPopper(s));
    PipelineV1.PushKeepsRoom(s.ready, s.readyHistory, p.x, p);
    ReadyPushView(s, o);
    hide Invariant, Core.IoStep;
    if p.PushStoreTail? {
      assert View(s') == Core.IoStep(View(s), Core.Oracle(0, false));
    } else {
      PushStepLeft(s.ready, p);
      assert s'.readyPush == Some(PushStep(s.ready, p).1) && s'.free == s.free;
    }
  }

  lemma ReserveProgress(s: State, o: Core.Oracle)
    requires Invariant(s) && Safe(s) && s.io.Reserve? && |s.io.hand| < Core.BATCH && Clean(IoStep(s, o))
    ensures Invariant(IoStep(s, o)) && (IoLeft(IoStep(s, o)) < IoLeft(s) || IoMoves(s, IoStep(s, o)))
  {
    var s' := IoStep(s, o);
    ReserveSimulates(s, o);
    if s.free.io.Popping? {
      FreeKeeps(s, TwoPushers.IoGo);
      PopAccess(s.free);
      ReserveAccess(s, o);
      if s'.free.io.Between? {
        assert View(s') == Core.IoStep(View(s), o);
      } else {
        PopStepLeft(s.free.ring, s.free.io.pop);
        assert s'.free.io == TwoPushers.Popping(PopStep(s.free.ring, s.free.io.pop).1);
      }
    }
  }

  /**
   Nobody waits for anybody: in clean runs every access of the IO thread completes a step of the index
   machine or brings it nearer, and five accesses always suffice.
   */
  lemma IoProgress(s: State, o: Core.Oracle)
    requires Invariant(s) && Safe(s) && Clean(IoStep(s, o))
    ensures IoLeft(s) <= 5 && Invariant(IoStep(s, o)) && (IoLeft(IoStep(s, o)) < IoLeft(s) || IoMoves(s, IoStep(s, o)))
  {
    hide Invariant, View, Core.IoStep;
    IoCalls(s);
    if s.free.io.Pushing? {
      IoPushProgress(s, o);
    } else if s.readyPush.Some? {
      ReadyPushProgress(s, o);
    } else if s.io.Reserve? && |s.io.hand| < Core.BATCH {
      ReserveProgress(s, o);
    } else if s.io.Publish? && s.io.i < s.io.n && !o.bad {
      BeginReadySimulates(s, o);
    } else if (s.io.Publish? && s.io.i < s.io.n) || (s.io.Release? && s.io.i < |s.io.hand|) {
      BeginFreeSimulates(s, o);
    } else {
      LocalIoSimulates(s, o);
      assert IoStep(s, o) == LocalIoStep(s, o);
      assert View(IoStep(s, o)) == Core.IoStep(View(s), o);
    }
  }

  lemma IoCalls(s: State)
    requires Invariant(s)
    ensures s.free.history.Valid() && s.readyHistory.Valid() && Core.PcsInRange(View(s)) && !s.io.Fallback?
    ensures s.free.io.Popping? ==> s.io.Reserve? && |s.io.hand| < Core.BATCH
    ensures Core.IoTransfers(View(s)) ==>
              || (s.io.Publish? && s.io.i < s.io.n) || (s.io.Release? && s.io.i < |s.io.hand|)
              || (s.io.Reserve? && |s.io.hand| < Core.BATCH)
  {
  }

  lemma GiveBackProgress(s: State)
    requires Invariant(s) && Safe(s) && s.free.other.Some? && Clean(ConsumerStep(s))
    ensures Invariant(ConsumerStep(s))
    ensures ConsumerLeft(ConsumerStep(s)) < ConsumerLeft(s) || View(ConsumerStep(s)) == Core.ConsumerStep(View(s))
  {
    GiveBackSimulates(s);
    FreeKeeps(s, TwoPushers.OtherGo);
    GiveBackView(s);
    if !s.free.other.value.PushStoreTail? {
      OtherPushAccess(s.free);
      PushStepLeft(s.free.ring, s.free.other.value);
      assert TwoPushers.Do(s.free, TwoPushers.OtherGo).other == Some(PushStep(s.free.ring, s.free.other.value).1);
    }
  }

  /** At most one call of the consumer is in progress, the one its program counter is at. */
  lemma ConsumerCalls(s: State)
    requires Invariant(s)
    ensures s.free.history.Valid() && s.readyHistory.Valid() && Core.PcsInRange(View(s))
    ensures !(s.consumer.GiveBack? && s.consumer.i < |s.consumer.hand|) ==> s.free.other.None?
    ensures !(s.consumer.Drain? && |s.consumer.hand| < Core.BATCH) ==> s.readyPop.None?
    ensures !s.consumer.WhileReady? ==> s.emptyHead.None?
    ensures s.readyPop.Some? ==> !s.readyPop.value.PopDone?
    ensures s.readyPop.Some? ==> RingOk(s.ready, s.readyHistory, ReadyPusher(s), s.readyPop.value)
  {
  }

  lemma DrainAccess(s: State)
    requires Safe(s) && s.consumer.Drain? && |s.consumer.hand| < Core.BATCH && s.readyPop.Some?
    ensures var s', q' := ConsumerStep(s), PopStep(s.ready, s.readyPop.value).1;
            s'.free == s.free && s'.readyPop == (if q'.PopDone? then None else Some(q')) && s'.emptyHead == s.emptyHead
  {
  }

  lemma DrainProgress(s: State)
    requires Invariant(s) && Safe(s) && s.consumer.Drain? && |s.consumer.hand| < Core.BATCH
    ensures Invariant(ConsumerStep(s)) && s.free.history.Valid() && s.readyHistory.Valid() && Core.PcsInRange(View(s))
    ensures ConsumerLeft(ConsumerStep(s)) < ConsumerLeft(s) || View(ConsumerStep(s)) == Core.ConsumerStep(View(s))
  {
    hide Invariant, Core.ConsumerStep;
    var s' := ConsumerStep(s);
    DrainSimulates(s);
    ConsumerCalls(s);
    if s.readyPop.Some? {
      PopStepKeeps(s.ready, s.readyHistory, ReadyPusher(s), s.readyPop.value);
      DrainView(s);
      DrainAccess(s);
      PopStepLeft(s.ready, s.readyPop.value);
      hide PopStep, ConsumerStep, RingOk;
    } else {
      hide View;
    }
  }

  lemma EmptyProgress(s: State)
    requires Invariant(s) && Safe(s) && s.consumer.WhileReady?
    ensures Invariant(ConsumerStep(s)) && s.free.history.Valid() && s.readyHistory.Valid() && Core.PcsInRange(View(s))
    ensures ConsumerLeft(ConsumerStep(s)) < ConsumerLeft(s) || View(ConsumerStep(s)) == Core.ConsumerStep(View(s))
  {
    hide Invariant, Core.ConsumerStep, View;
    EmptySimulates(s);
    ConsumerCalls(s);
  }

  lemma BeginGiveBackProgress(s: State)
    requires Invariant(s) && Safe(s) && s.consumer.GiveBack? && s.consumer.i < |s.consumer.hand| && s.free.other.None?
    ensures Invariant(ConsumerStep(s)) && ConsumerLeft(ConsumerStep(s)) < ConsumerLeft(s)
  {
    hide Invariant, View;
    BeginGiveBackSimulates(s);
    ConsumerCalls(s);
  }

  /** The same for the consumer. */
  lemma ConsumerProgress(s: State)
    requires Invariant(s) && Safe(s) && Clean(ConsumerStep(s))
    ensures ConsumerLeft(s) <= 5 && Invariant(ConsumerStep(s))
    ensures s.free.history.Valid() && s.readyHistory.Valid() && Core.PcsInRange(View(s))
    ensures ConsumerLeft(ConsumerStep(s)) < ConsumerLeft(s) || View(ConsumerStep(s)) == Core.ConsumerStep(View(s))
  {
    hide Invariant, View, Core.ConsumerStep, ConsumerStep;
    ConsumerCalls(s);
    if s.consumer.WhileReady? {
      EmptyProgress(s);
    } else if s.consumer.Drain? && |s.consumer.hand| < Core.BATCH {
      DrainProgress(s);
    } else if s.free.other.Some? {
      GiveBackProgress(s);
    } else if s.consumer.GiveBack? && s.consumer.i < |s.consumer.hand| {
      BeginGiveBackProgress(s);
    } else {
      LocalConsumerSimulates(s);
    }
  }

  /** Between calls, the next frame of a batch goes to `ready` exactly if it is good, and back to `free` otherwise. */
  lemma PublishBegins(s: State, o: Core.Oracle)
    requires Safe(s) && s.io.Publish? && s.io.i < s.io.n && s.free.io.Between? && s.readyPush.None?
    ensures var s', x := IoStep(s, o), s.io.hand[s.io.i];
            if o.bad then s'.free.io == TwoPushers.Pushing(PushLoadHead(x))
              && s'.readyPush.None? && s'.drops == s.drops + 1
            else s'.readyPush == Some(PushLoadHead(x)) && s'.free == s.free && s'.drops == s.drops
  {
  }
}
