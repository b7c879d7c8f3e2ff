/**
 One pusher thread and one popper thread, interleaved at every single load and store of the ring.
 Each run is linearizable to a bounded FIFO of exactly `Capacity` elements, for runs of any
 length, past every wrap-around of the 64-bit counters.
 */
module RingLinearizable {
  import opened Words
  import opened Wrappers
  import opened RingBuffers

  /** A completed operation of the sequential bounded FIFO. */
  datatype Event<T> = Push(x: T, ok: bool) | Pop(result: Option<T>)

  /** The bounded FIFO: `None` when the event is not allowed in state `q`. */
  function FifoStep<T(==)>(capacity: nat, q: seq<T>, e: Event<T>): Option<seq<T>> {
    match e
    case Push(x, true) => if |q| < capacity then Some(q + [x]) else None
    case Push(x, false) => if |q| == capacity then Some(q) else None
    case Pop(None) => if q == [] then Some(q) else None
    case Pop(Some(x)) => if q != [] && q[0] == x then Some(q[1..]) else None
  }

  /** The FIFO reached from the empty one by the events in order, if all of them are allowed. */
  function Replay<T(==)>(capacity: nat, events: seq<Event<T>>): Option<seq<T>> {
    if events == [] then
      Some([])
    else
      var n := |events| - 1;
      match Replay(capacity, events[..n])
      case None => None
      case Some(q) => FifoStep(capacity, q, events[n])
  }

  function Pushes<T>(events: seq<Event<T>>): seq<Event<T>> {
    if events == [] then
      []
    else
      var n := |events| - 1;
      Pushes(events[..n]) + if events[n].Push? then [events[n]] else []
  }

  function Pops<T>(events: seq<Event<T>>): seq<Event<T>> {
    if events == [] then
      []
    else
      var n := |events| - 1;
      Pops(events[..n]) + if events[n].Pop? then [events[n]] else []
  }

  /**
   `pusher` and `popper` are `None` between calls. `pushLog` and `popLog` are the results the two
   threads have seen; `order` collects the events at their linearization points.
   */
  datatype System<T> = System(
    ring: Ring<T>,
    pusher: Option<PushPc<T>>,
    popper: Option<PopPc<T>>,
    pushLog: seq<Event<T>>,
    popLog: seq<Event<T>>,
    order: seq<Event<T>>,
    history: History<T>)

  ghost predicate Init<T>(s: System<T>) {
    && s.ring.Valid() && s.ring.head == 0 && s.ring.tail == 0
    && s.pusher == None && s.popper == None
    && s.pushLog == [] && s.popLog == [] && s.order == []
    && s.history == History([], 0)
  }

  /** A failing push takes effect when it loads the head, a succeeding one when it stores the tail. */
  function PushPoint<T>(r: Ring<T>, p: PushPc<T>): seq<Event<T>> {
    match p
    case PushLoadHead(x) => if Sub(r.tail, r.head) == |r.buffer| then [Push(x, false)] else []
    case PushStoreTail(x, _) => [Push(x, true)]
    case _ => []
  }

  /** A failing pop takes effect when it loads the tail, a succeeding one when it stores the head. */
  function PopPoint<T>(r: Ring<T>, p: PopPc<T>): seq<Event<T>> {
    match p
    case PopLoadTail(h) => if h == r.tail then [Pop(None)] else []
    case PopStoreHead(_, x) => [Pop(Some(x))]
    case _ => []
  }

  ghost predicate PusherMoves<T(!new)>(s: System<T>, s': System<T>) {
    match s.pusher
    case None => exists x :: s' == s.(pusher := Some(PushLoadHead(x)))
    case Some(p) =>
      && !p.PushDone? && |s.ring.buffer| > 0
      && var (ring', p') := PushStep(s.ring, p);
      s' == s.(
        ring := ring',
        pusher := if p'.PushDone? then None else Some(p'),
        pushLog := s.pushLog + if p'.PushDone? then [Push(p.x, p'.ok)] else [],
        order := s.order + PushPoint(s.ring, p),
        history := AfterPush(s.history, p))
  }

  ghost predicate PopperMoves<T>(s: System<T>, s': System<T>) {
    match s.popper
    case None => s' == s.(popper := Some(PopLoadHead))
    case Some(p) =>
      && !p.PopDone? && |s.ring.buffer| > 0
      && var (ring', p') := PopStep(s.ring, p);
      s' == s.(
        ring := ring',
        popper := if p'.PopDone? then None else Some(p'),
        popLog := s.popLog + if p'.PopDone? then [Pop(p'.result)] else [],
        order := s.order + PopPoint(s.ring, p),
        history := AfterPop(s.history, p))
  }

  ghost predicate Next<T(!new)>(s: System<T>, s': System<T>) {
    PusherMoves(s, s') || PopperMoves(s, s')
  }

  ghost predicate Run<T(!new)>(run: seq<System<T>>) {
    && run != [] && Init(run[0])
    && forall i :: 0 <= i && i + 1 < |run| ==> Next(run[i], run[i + 1])
  }

  /** A push that found the ring full when it loaded the head, and has not returned yet. */
  function PendingPush<T>(s: System<T>): seq<Event<T>> {
    match s.pusher
    case Some(PushLoadTail(x, h)) =>
      if Sub(s.ring.tail, h) == |s.ring.buffer| then [Push(x, false)] else []
    case _ => []
  }

  function PushPcOf<T>(s: System<T>): PushPc<T> {
    if s.pusher.Some? then s.pusher.value else PushDone(true)
  }

  function PopPcOf<T>(s: System<T>): PopPc<T> {
    if s.popper.Some? then s.popper.value else PopDone(None)
  }

  ghost predicate RingInvariant<T>(s: System<T>) {
    RingOk(s.ring, s.history, PushPcOf(s), PopPcOf(s))
  }

  /** The events, in linearization order, are a legal FIFO run that both threads' results agree with. */
  ghost predicate Linearized<T>(s: System<T>) {
    && s.history.Valid()
    && Replay(|s.ring.buffer|, s.order) == Some(s.history.Contents())
    && Pushes(s.order) == s.pushLog + PendingPush(s)
    && Pops(s.order) == s.popLog
  }

  lemma AppendEvent<T>(capacity: nat, events: seq<Event<T>>, e: Event<T>, q: seq<T>)
    requires Replay(capacity, events) == Some(q)
    ensures Replay(capacity, events + [e]) == FifoStep(capacity, q, e)
    ensures Pushes(events + [e]) == Pushes(events) + if e.Push? then [e] else []
    ensures Pops(events + [e]) == Pops(events) + if e.Pop? then [e] else []
  {
    assert (events + [e])[..|events|] == events;
  }

  lemma PusherKeepsRing<T(!new)>(s: System<T>, s': System<T>)
    requires RingInvariant(s) && PusherMoves(s, s')
    ensures RingInvariant(s') && |s'.ring.buffer| == |s.ring.buffer|
  {
    if s.pusher.Some? {
      PushStepKeeps(s.ring, s.history, s.pusher.value, PopPcOf(s));
    }
  }

  /** The pusher's log and pending result grow by exactly the pushes at its linearization point. */
  lemma PushLogGrows<T(!new)>(s: System<T>, s': System<T>)
    requires PusherMoves(s, s') && s.pusher.Some?
    ensures var point := PushPoint(s.ring, s.pusher.value);
            Pops(point) == [] && s'.pushLog + PendingPush(s') == s.pushLog + PendingPush(s) + Pushes(point)
  {
    var p := s.pusher.value;
    if PushPoint(s.ring, p) != [] {
      assert PushPoint(s.ring, p)[..0] == [];
    }
  }

  lemma PusherKeeps<T(!new)>(s: System<T>, s': System<T>)
    requires RingInvariant(s) && Linearized(s) && PusherMoves(s, s')
    ensures RingInvariant(s') && Linearized(s') && s.order <= s'.order
  {
    hide Replay, FifoStep, Pushes, Pops, PushPoint;
    PusherKeepsRing(s, s');
    if s.pusher.Some? {
      var p := s.pusher.value;
      PushPointAllowed(s.ring, s.history, p);
      PushLogGrows(s, s');
      PointsAreSingle(s.ring, p);
      ExtendOrder(|s.ring.buffer|, s.order, PushPoint(s.ring, p), s.history.Contents(), s'.history.Contents());
    }
  }

  lemma PointsAreSingle<T>(r: Ring<T>, p: PushPc<T>)
    ensures |PushPoint(r, p)| <= 1
  {
  }

  /** At its linearization point a push is a step that the FIFO allows. */
  lemma PushPointAllowed<T>(r: Ring<T>, h: History<T>, p: PushPc<T>)
    requires Represents(r, h) && PusherKnows(r, h, p)
    ensures var point := PushPoint(r, p);
            if point == [] then AfterPush(h, p) == h
            else FifoStep(|r.buffer|, h.Contents(), point[0]) == Some(AfterPush(h, p).Contents())
  {
    match p
    case PushLoadHead(x) => Occupancy(r, h);
    case PushStoreTail(x, _) => assert (h.pushed + [x])[h.popped..] == h.Contents() + [x];
    case _ =>
  }

  /** At its linearization point a pop is a step that the FIFO allows. */
  lemma PopPointAllowed<T>(r: Ring<T>, h: History<T>, p: PopPc<T>)
    requires Represents(r, h) && PopperKnows(r, h, p)
    ensures var point := PopPoint(r, p);
            if point == [] then AfterPop(h, p) == h
            else FifoStep(|r.buffer|, h.Contents(), point[0]) == Some(AfterPop(h, p).Contents())
  {
    match p
    case PopLoadTail(_) => Occupancy(r, h);
    case PopStoreHead(_, x) => assert h.pushed[h.popped + 1..] == h.Contents()[1..];
    case _ =>
  }

  lemma ExtendOrder<T>(capacity: nat, order: seq<Event<T>>, point: seq<Event<T>>, q: seq<T>, q': seq<T>)
    requires |point| <= 1 && Replay(capacity, order) == Some(q)
    requires if point == [] then q' == q else FifoStep(capacity, q, point[0]) == Some(q')
    ensures Replay(capacity, order + point) == Some(q')
    ensures Pushes(order + point) == Pushes(order) + Pushes(point)
    ensures Pops(order + point) == Pops(order) + Pops(point)
  {
    if point == [] {
      assert order + [] == order;
    } else {
      assert point == [point[0]] && point[..0] == [];
      AppendEvent(capacity, order, point[0], q);
    }
  }

  /** The popper's log grows by exactly the pops at its linearization point. */
  lemma PopLogGrows<T>(s: System<T>, s': System<T>)
    requires PopperMoves(s, s') && s.popper.Some?
    ensures var point := PopPoint(s.ring, s.popper.value);
            |point| <= 1 && Pushes(point) == [] && s'.popLog == s.popLog + Pops(point)
  {
    var p := s.popper.value;
    if PopPoint(s.ring, p) != [] {
      assert PopPoint(s.ring, p)[..0] == [];
    }
  }

  lemma PopperKeeps<T>(s: System<T>, s': System<T>)
    requires RingInvariant(s) && Linearized(s) && PopperMoves(s, s')
    ensures RingInvariant(s') && Linearized(s') && s.order <= s'.order
  {
    hide Replay, FifoStep, Pushes, Pops, PopPoint;
    if s.popper.Some? {
      var p := s.popper.value;
      PopStepKeeps(s.ring, s.history, PushPcOf(s), p);
      PopPointAllowed(s.ring, s.history, p);
      PopLogGrows(s, s');
      ExtendOrder(|s.ring.buffer|, s.order, PopPoint(s.ring, p), s.history.Contents(), s'.history.Contents());
      assert PendingPush(s') == PendingPush(s);
    }
  }

  lemma StepLinearizes<T(!new)>(s: System<T>, s': System<T>)
    requires RingInvariant(s) && Linearized(s) && Next(s, s')
    ensures RingInvariant(s') && Linearized(s') && s.order <= s'.order
  {
    if PusherMoves(s, s') {
      PusherKeeps(s, s');
    } else {
      PopperKeeps(s, s');
    }
  }

  /**
   Linearizability: at every moment of every run the events form a legal run of a FIFO of
   exactly `Capacity` elements, the pusher has seen precisely the pushes in that order (all but
   one that is still to return), the popper precisely the pops, and the order only ever grows,
   so operations that do not overlap in time keep their order.
   */
  lemma {:induction false} RunLinearizes<T(!new)>(run: seq<System<T>>, i: nat, j: nat)
    requires Run(run) && i <= j < |run|
    ensures RingInvariant(run[j]) && Linearized(run[j])
    ensures run[i].order <= run[j].order
    decreases j
  {
    if j > 0 {
      RunLinearizes(run, if i < j then i else 0, j - 1);
      assert Next(run[j - 1], run[j - 1 + 1]);
      StepLinearizes(run[j - 1], run[j]);
    }
  }
}
