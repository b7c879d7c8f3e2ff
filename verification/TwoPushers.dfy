/**
 The `free` ring of the second engine, at the level of loads and stores. The ring is written for
 one pusher and one popper, but here the IO thread pops and pushes while the consumer pushes too.
 For every schedule of any calls of the two this decides whether an index is lost, and how many.
 */
module TwoPushers {
  import opened Words
  import opened Wrappers
  import opened RingBuffers
  import opened FramePools

  /** What the IO thread is doing with the ring. */
  datatype IoCall = Between | Pushing(push: PushPc<nat>) | Popping(pop: PopPc<nat>)

  /**
   The ring and both threads' calls. `bag` holds the indices outside the ring that nobody is
   pushing. The other fields record the run: pushes that stored the tail and pops; the position of
   the tail, and the positions that each pusher loaded, without wrap-around; what the consumer's
   push saw when it loaded the head; the indices refused; and whether a pusher loaded the tail
   while the other held it, or was refused on a head that was no longer current.
   */
  datatype Race = Race(
    ring: Ring<nat>, io: IoCall, other: Option<PushPc<nat>>, bag: multiset<nat>,
    history: History<nat>, tail: nat, ioTail: nat, otherTail: nat, otherSaw: History<nat>,
    refused: seq<nat>, overlapped: bool, stale: bool)

  /** Has loaded the tail and not yet stored it. */
  predicate HoldsTail(p: PushPc<nat>) {
    p.PushWriteSlot? || p.PushStoreTail?
  }

  predicate IoHolds(s: Race) {
    s.io.Pushing? && HoldsTail(s.io.push)
  }

  predicate OtherHolds(s: Race) {
    s.other.Some? && HoldsTail(s.other.value)
  }

  /** This access refuses the push, although the ring is not full at that moment. */
  predicate RefusedStale(r: Ring<nat>, p: PushPc<nat>) {
    p.PushLoadTail? && Sub(r.tail, p.h) == |r.buffer| && Sub(r.tail, r.head) != |r.buffer|
  }

  function Refused(r: Ring<nat>, p: PushPc<nat>): seq<nat> {
    if p.PushLoadTail? && Sub(r.tail, p.h) == |r.buffer| then [p.x] else []
  }

  function IoPushes(s: Race, p: PushPc<nat>): Race
    requires |s.ring.buffer| > 0
  {
    var (ring', p') := PushStep(s.ring, p);
    s.(ring := ring', io := if p'.PushDone? then Between else Pushing(p'),
       history := AfterPush(s.history, p), tail := if p.PushStoreTail? then s.ioTail + 1 else s.tail,
       ioTail := if p.PushLoadTail? then s.tail else s.ioTail,
       refused := s.refused + Refused(s.ring, p),
       overlapped := s.overlapped || (p.PushLoadTail? && HoldsTail(p') && OtherHolds(s)),
       stale := s.stale || RefusedStale(s.ring, p))
  }

  function OtherPushes(s: Race, p: PushPc<nat>): Race
    requires |s.ring.buffer| > 0
  {
    var (ring', p') := PushStep(s.ring, p);
    s.(ring := ring', other := if p'.PushDone? then None else Some(p'),
       history := AfterPush(s.history, p), tail := if p.PushStoreTail? then s.otherTail + 1 else s.tail,
       otherTail := if p.PushLoadTail? then s.tail else s.otherTail,
       otherSaw := if p.PushLoadHead? then s.history else s.otherSaw,
       refused := s.refused + Refused(s.ring, p),
       overlapped := s.overlapped || (p.PushLoadTail? && HoldsTail(p') && IoHolds(s)),
       stale := s.stale || RefusedStale(s.ring, p))
  }

  function IoPops(s: Race, q: PopPc<nat>): Race
    requires |s.ring.buffer| > 0
  {
    var (ring', q') := PopStep(s.ring, q);
    s.(ring := ring', io := if q'.PopDone? then Between else Popping(q'), history := AfterPop(s.history, q),
       bag := if q.PopStoreHead? then s.bag + multiset{q.x} else s.bag)
  }

  /** A thread begins a call, or makes the next access of the one it is in. */
  datatype Action = IoPush(x: nat) | IoPop | IoGo | OtherPush(x: nat) | OtherGo

  /** Actions that are not possible change nothing. */
  function Do(s: Race, a: Action): (s': Race)
    requires |s.ring.buffer| > 0
    ensures |s'.ring.buffer| == |s.ring.buffer|
  {
    match a
    case IoPush(x) =>
      if s.io.Between? && x in s.bag then s.(io := Pushing(PushLoadHead(x)), bag := s.bag - multiset{x}) else s
    case IoPop => if s.io.Between? then s.(io := Popping(PopLoadHead)) else s
    case IoGo =>
      (match s.io
       case Between => s
       case Pushing(p) => IoPushes(s, p)
       case Popping(q) => IoPops(s, q))
    case OtherPush(x) =>
      if s.other.None? && x in s.bag then s.(other := Some(PushLoadHead(x)), bag := s.bag - multiset{x}) else s
    case OtherGo => if s.other.Some? then OtherPushes(s, s.other.value) else s
  }

  function Exec(s: Race, actions: seq<Action>): (s': Race)
    requires |s.ring.buffer| > 0
    ensures |s'.ring.buffer| == |s.ring.buffer|
  {
    if actions == [] then s else Do(Exec(s, actions[..|actions| - 1]), actions[|actions| - 1])
  }

  /** Nobody is inside a call, and as many indices circulate as the ring has places. */
  ghost predicate Start(s: Race) {
    && s.io.Between? && s.other.None? && !s.overlapped && !s.stale && s.refused == []
    && Represents(s.ring, s.history) && s.tail == |s.history.pushed|
    && |s.bag| + |s.history.Contents()| == |s.ring.buffer|
  }

  // What holds of every state

  /** How often a push in progress carries index `i`. */
  function Carried(p: PushPc<nat>, i: nat): nat {
    if !p.PushDone? && p.x == i then 1 else 0
  }

  /** The words in memory and in the threads' hands are the positions without wrap-around. */
  ghost predicate WordsOk(s: Race) {
    && s.ring.Valid() && s.ring.head == s.history.popped % TWO_64 && s.ring.tail == s.tail % TWO_64
    && (s.io.Pushing? ==> !s.io.push.PushDone?) && (s.other.Some? ==> !s.other.value.PushDone?)
    && (IoHolds(s) ==> s.io.push.t == s.ioTail % TWO_64) && (OtherHolds(s) ==> s.other.value.t == s.otherTail % TWO_64)
    && (s.io.Popping? ==> !s.io.pop.PopDone? && (!s.io.pop.PopLoadHead? ==> s.io.pop.h == s.ring.head))
  }

  function Pushers(s: Race): nat {
    (if s.io.Pushing? then 1 else 0) + (if s.other.Some? then 1 else 0)
  }

  /** Every index is outside, being pushed, was pushed and not popped, or was refused. */
  ghost predicate CountsOk(s: Race) {
    |s.bag| + Pushers(s) + |s.history.pushed| - s.history.popped + |s.refused| == |s.ring.buffer|
  }

  // While the pushers take turns

  ghost predicate HolderKnows(r: Ring<nat>, h: History<nat>, p: PushPc<nat>, position: nat) {
    HoldsTail(p) ==> PusherKnows(r, h, p) && position == |h.pushed|
  }

  function Popper(s: Race): PopPc<nat> {
    if s.io.Popping? then s.io.pop else PopDone(None)
  }

  function IoPusher(s: Race): PushPc<nat> {
    if s.io.Pushing? then s.io.push else PushDone(true)
  }

  function OtherPusher(s: Race): PushPc<nat> {
    if s.other.Some? then s.other.value else PushDone(true)
  }

  /** What the consumer saw when it loaded the head: then, too, there was a place for its index. */
  ghost predicate SawOk(s: Race) {
    s.other.Some? && s.other.value.PushLoadTail? ==>
      && s.otherSaw.Valid() && s.otherSaw.pushed <= s.history.pushed && s.otherSaw.popped <= s.history.popped
      && |s.otherSaw.Contents()| < |s.ring.buffer| && s.other.value.h == s.otherSaw.popped % TWO_64
  }

  /** The ring is right: it represents its history, and each thread knows what it must. */
  ghost predicate TurnsOk(s: Race) {
    && Represents(s.ring, s.history) && s.tail == |s.history.pushed|
    && PopperKnows(s.ring, s.history, Popper(s))
    && HolderKnows(s.ring, s.history, IoPusher(s), s.ioTail)
    && HolderKnows(s.ring, s.history, OtherPusher(s), s.otherTail)
    && !(IoHolds(s) && OtherHolds(s))
    && (s.io.Pushing? && s.io.push.PushLoadTail? ==> s.io.push.h == s.ring.head)
    && SawOk(s)
    && (s.stale <==> s.refused != [])
  }

  /** How often index `i` is outside, being pushed, in the ring, or refused. */
  ghost function Held(s: Race, i: nat): nat
    requires s.history.Valid()
  {
    s.bag[i] + Carried(IoPusher(s), i) + Carried(OtherPusher(s), i)
    + Occurs(s.history.Contents(), i) + Occurs(s.refused, i)
  }

  /** No index is held more or less often than in `s`. */
  ghost predicate HoldsAs(e: Race, s: Race) {
    e.history.Valid() && s.history.Valid() && forall i: nat :: Held(e, i) == Held(s, i)
  }

  // After an overlap

  /** No position is beyond the pushes that have stored a tail. */
  ghost predicate NeverAhead(s: Race) {
    var n := |s.history.pushed|;
    s.tail <= n && (IoHolds(s) ==> s.ioTail <= n) && (OtherHolds(s) ==> s.otherTail <= n)
  }

  /**
   More pushes have stored a tail than there are positions, or will have when the thread that
   holds an old position stores it.
   */
  ghost predicate Indebted(s: Race) {
    var n := |s.history.pushed|;
    && NeverAhead(s)
    && (|| (s.tail < n && (IoHolds(s) ==> s.ioTail < n) && (OtherHolds(s) ==> s.otherTail < n))
        || (IoHolds(s) && OtherHolds(s))
        || (IoHolds(s) && s.ioTail < n)
        || (OtherHolds(s) && s.otherTail < n))
  }

  /** What a run from `start` keeps. */
  ghost predicate Invariant(s: Race, start: Race) {
    && WordsOk(s) && CountsOk(s)
    && if s.overlapped then Indebted(s) else TurnsOk(s) && HoldsAs(s, start)
  }

  // Every action keeps it

  lemma IoPushKeepsWords(s: Race)
    requires WordsOk(s) && s.io.Pushing?
    ensures WordsOk(IoPushes(s, s.io.push))
  {
    IncWraps(s.ioTail);
  }

  lemma OtherPushKeepsWords(s: Race)
    requires WordsOk(s) && s.other.Some?
    ensures WordsOk(OtherPushes(s, s.other.value))
  {
    IncWraps(s.otherTail);
  }

  lemma IoPopKeepsWords(s: Race)
    requires WordsOk(s) && s.io.Popping?
    ensures WordsOk(IoPops(s, s.io.pop))
  {
    IncWraps(s.history.popped);
  }

  lemma DoKeepsWords(s: Race, a: Action)
    requires WordsOk(s)
    ensures WordsOk(Do(s, a))
  {
    if a.IoGo? && s.io.Pushing? {
      IoPushKeepsWords(s);
    } else if a.IoGo? && s.io.Popping? {
      IoPopKeepsWords(s);
    } else if a.OtherGo? && s.other.Some? {
      OtherPushKeepsWords(s);
    }
  }

  lemma IoPushKeepsCounts(s: Race)
    requires WordsOk(s) && CountsOk(s) && s.io.Pushing?
    ensures CountsOk(IoPushes(s, s.io.push))
  {
    hide BitAnd;
  }

  lemma OtherPushKeepsCounts(s: Race)
    requires WordsOk(s) && CountsOk(s) && s.other.Some?
    ensures CountsOk(OtherPushes(s, s.other.value))
  {
    hide BitAnd;
  }

  lemma DoKeepsCounts(s: Race, a: Action)
    requires WordsOk(s) && CountsOk(s)
    ensures CountsOk(Do(s, a))
  {
    if a.IoGo? && s.io.Pushing? {
      IoPushKeepsCounts(s);
    } else if a.OtherGo? && s.other.Some? {
      OtherPushKeepsCounts(s);
    }
  }

  lemma OtherPushKeepsDebt(s: Race)
    requires WordsOk(s) && s.other.Some? && Indebted(s)
    ensures Indebted(OtherPushes(s, s.other.value))
  {
  }

  lemma IoPushKeepsDebt(s: Race)
    requires WordsOk(s) && s.io.Pushing? && Indebted(s)
    ensures Indebted(IoPushes(s, s.io.push))
  {
  }

  lemma DoKeepsDebt(s: Race, a: Action)
    requires WordsOk(s) && Indebted(s)
    ensures Indebted(Do(s, a))
  {
    if a.IoGo? && s.io.Pushing? {
      IoPushKeepsDebt(s);
    } else if a.OtherGo? && s.other.Some? {
      OtherPushKeepsDebt(s);
    }
  }

  lemma DoNeverAhead(s: Race, a: Action)
    requires WordsOk(s) && NeverAhead(s)
    ensures NeverAhead(Do(s, a))
  {
    hide BitAnd;
  }

  /** An overlap puts the ring in debt at once: both threads will store the tail that one of them has taken. */
  lemma OverlapIsDebt(s: Race, a: Action)
    requires WordsOk(s) && NeverAhead(s) && !s.overlapped && Do(s, a).overlapped
    ensures Indebted(Do(s, a))
  {
    DoNeverAhead(s, a);
  }

  /** What is never made good again. */
  ghost predicate Scars(s: Race) {
    NeverAhead(s) && (s.overlapped ==> Indebted(s)) && (s.stale ==> s.refused != [])
  }

  lemma DoKeepsScars(s: Race, a: Action)
    requires WordsOk(s) && Scars(s)
    ensures Scars(Do(s, a))
  {
    DoNeverAhead(s, a);
    DoOnlyRefusesMore(s, a);
    hide Do;
    if s.overlapped {
      DoKeepsDebt(s, a);
    } else if Do(s, a).overlapped {
      OverlapIsDebt(s, a);
    }
  }

  lemma DoOnlyRefusesMore(s: Race, a: Action)
    requires |s.ring.buffer| > 0
    ensures s.refused <= Do(s, a).refused && (Do(s, a).stale && !s.stale ==> Do(s, a).refused != [])
  {
    hide BitAnd;
  }

  /** While somebody carries an index, the ring has a place for it. */
  lemma HasPlace(s: Race)
    requires CountsOk(s) && Represents(s.ring, s.history) && Pushers(s) > 0
    ensures |s.history.pushed| + Pushers(s) <= s.history.popped + |s.ring.buffer|
    ensures Sub(s.ring.tail, s.ring.head) == |s.history.pushed| - s.history.popped < |s.ring.buffer|
  {
    Occupancy(s.ring, s.history);
  }

  lemma IoPushKeepsTurns(s: Race)
    requires WordsOk(s) && CountsOk(s) && TurnsOk(s) && s.io.Pushing? && !IoPushes(s, s.io.push).overlapped
    ensures TurnsOk(IoPushes(s, s.io.push))
  {
    var p := s.io.push;
    HasPlace(s);
    if HoldsTail(p) {
      PushStepKeeps(s.ring, s.history, p, Popper(s));
    }
  }

  lemma OtherPushKeepsTurns(s: Race)
    requires WordsOk(s) && CountsOk(s) && TurnsOk(s) && s.other.Some? && !OtherPushes(s, s.other.value).overlapped
    ensures TurnsOk(OtherPushes(s, s.other.value))
  {
    var p := s.other.value;
    HasPlace(s);
    if HoldsTail(p) {
      PushStepKeeps(s.ring, s.history, p, Popper(s));
    }
  }

  lemma IoPopKeepsTurns(s: Race)
    requires WordsOk(s) && TurnsOk(s) && s.io.Popping?
    ensures TurnsOk(IoPops(s, s.io.pop))
  {
    var holder := if OtherHolds(s) then s.other.value else PushDone(true);
    PopStepKeeps(s.ring, s.history, holder, s.io.pop);
  }

  lemma DoKeepsTurns(s: Race, a: Action)
    requires WordsOk(s) && CountsOk(s) && TurnsOk(s) && !Do(s, a).overlapped
    ensures TurnsOk(Do(s, a))
  {
    if a.IoGo? && s.io.Pushing? {
      IoPushKeepsTurns(s);
    } else if a.IoGo? && s.io.Popping? {
      IoPopKeepsTurns(s);
    } else if a.OtherGo? && s.other.Some? {
      OtherPushKeepsTurns(s);
    }
  }

  // Where the indices go

  lemma RefusedMore(r: Ring<nat>, p: PushPc<nat>, refused: seq<nat>, i: nat)
    ensures Occurs(refused + Refused(r, p), i) ==
            Occurs(refused, i) + if Refused(r, p) != [] then Carried(p, i) else 0
  {
    if Refused(r, p) == [] {
      assert refused + [] == refused;
    } else {
      OccursSnoc(refused, p.x, i);
    }
  }

  lemma PushedMore(h: History<nat>, p: PushPc<nat>, i: nat)
    requires h.Valid()
    ensures AfterPush(h, p).Valid()
    ensures Occurs(AfterPush(h, p).Contents(), i) ==
            Occurs(h.Contents(), i) + if p.PushStoreTail? then Carried(p, i) else 0
  {
    if p.PushStoreTail? {
      PushGives(h, p.x, i);
    }
  }

  /** Where the index of a push goes with one access: it stays in hand, or into the ring, or is refused. */
  lemma PushStepCarries(r: Ring<nat>, p: PushPc<nat>, i: nat)
    requires |r.buffer| > 0 && !p.PushDone?
    ensures var p' := PushStep(r, p).1;
            Carried(p, i) == Carried(p', i) + (if p.PushStoreTail? then Carried(p, i) else 0)
                             + (if Refused(r, p) != [] then Carried(p, i) else 0)
  {
  }

  lemma IoPushKeepsHeld(s: Race, i: nat)
    requires |s.ring.buffer| > 0 && s.history.Valid() && s.io.Pushing? && !s.io.push.PushDone?
    ensures IoPushes(s, s.io.push).history.Valid() && Held(IoPushes(s, s.io.push), i) == Held(s, i)
  {
    hide Occurs, PushStep, AfterPush, Refused;
    RefusedMore(s.ring, s.io.push, s.refused, i);
    PushedMore(s.history, s.io.push, i);
    PushStepCarries(s.ring, s.io.push, i);
  }

  lemma OtherPushKeepsHeld(s: Race, i: nat)
    requires |s.ring.buffer| > 0 && s.history.Valid() && s.other.Some? && !s.other.value.PushDone?
    ensures OtherPushes(s, s.other.value).history.Valid() && Held(OtherPushes(s, s.other.value), i) == Held(s, i)
  {
    hide Occurs, PushStep, AfterPush, Refused;
    RefusedMore(s.ring, s.other.value, s.refused, i);
    PushedMore(s.history, s.other.value, i);
    PushStepCarries(s.ring, s.other.value, i);
  }

  lemma IoPopKeepsHeld(s: Race, i: nat)
    requires TurnsOk(s) && s.io.Popping?
    ensures IoPops(s, s.io.pop).history.Valid() && Held(IoPops(s, s.io.pop), i) == Held(s, i)
  {
    hide Occurs;
    if s.io.pop.PopStoreHead? {
      PopTakes(s.history, i);
    }
  }

  lemma DoKeepsHeld(s: Race, a: Action, i: nat)
    requires WordsOk(s) && TurnsOk(s)
    ensures Do(s, a).history.Valid() && Held(Do(s, a), i) == Held(s, i)
  {
    hide Occurs, IoPushes, OtherPushes, IoPops;
    if a.IoGo? && s.io.Pushing? {
      IoPushKeepsHeld(s, i);
    } else if a.IoGo? && s.io.Popping? {
      IoPopKeepsHeld(s, i);
    } else if a.OtherGo? && s.other.Some? {
      OtherPushKeepsHeld(s, i);
    } else {
      hide TurnsOk, WordsOk;
      BeginKeepsHeld(s, a, i);
    }
  }

  lemma BeginKeepsHeld(s: Race, a: Action, i: nat)
    requires |s.ring.buffer| > 0 && s.history.Valid()
    requires !(a.IoGo? && !s.io.Between?) && !(a.OtherGo? && s.other.Some?)
    ensures Do(s, a).history.Valid() && Held(Do(s, a), i) == Held(s, i)
  {
    hide Occurs;
  }

  lemma DoKeeps(s: Race, a: Action, start: Race)
    requires Invariant(s, start)
    ensures Invariant(Do(s, a), start)
  {
    DoKeepsWords(s, a);
    DoKeepsCounts(s, a);
    OverlapStays(s, a);
    hide WordsOk, CountsOk, Indebted, TurnsOk, Held, Do;
    if s.overlapped {
      DoKeepsDebt(s, a);
    } else if Do(s, a).overlapped {
      OverlapIsDebt(s, a);
    } else {
      DoKeepsTurns(s, a);
      DoKeepsHeld(s, a, 0);
      forall i: nat
        ensures Held(Do(s, a), i) == Held(start, i)
      {
        DoKeepsHeld(s, a, i);
      }
    }
  }

  lemma OverlapStays(s: Race, a: Action)
    requires |s.ring.buffer| > 0
    ensures s.overlapped ==> Do(s, a).overlapped
  {
  }

  lemma {:induction false} RunKeeps(s: Race, actions: seq<Action>)
    requires Start(s)
    ensures Invariant(Exec(s, actions), s)
  {
    if actions != [] {
      var n := |actions| - 1;
      RunKeeps(s, actions[..n]);
      DoKeeps(Exec(s, actions[..n]), actions[n], s);
    }
  }

  // What every run shows

  /** Pushes that stored a tail but have no position in the ring, and pushes refused. */
  function Lost(s: Race): int {
    |s.history.pushed| - s.tail + |s.refused|
  }

  /**
   For every schedule, at every moment at which no thread holds the tail: of the indices, `Lost`
   are missing, counting those outside, those being pushed and the positions between head and tail;
   none is missing if and only if no pusher ever loaded the tail while the other held it and no
   push was ever refused on a head that was no longer current; and then the ring is right and every
   single index is where it should be.
   */
  lemma NothingLostIff(s: Race, actions: seq<Action>)
    requires Start(s)
    ensures var e := Exec(s, actions);
            !IoHolds(e) && !OtherHolds(e) ==>
              && |e.bag| + Pushers(e) + (e.tail - e.history.popped) + Lost(e) == |e.ring.buffer|
              && e.ring.tail == e.tail % TWO_64 && e.ring.head == e.history.popped % TWO_64
              && Lost(e) >= 0 && (Lost(e) == 0 <==> !e.overlapped && !e.stale)
              && (Lost(e) == 0 ==> Represents(e.ring, e.history) && e.refused == [] && HoldsAs(e, s))
  {
    RunKeeps(s, actions);
    var e := Exec(s, actions);
    if !e.overlapped && !e.stale {
      assert e.refused == [];
    }
  }

  /**
   In the code's own words: between calls, and as long as fewer than 2^64 indices are lost, head,
   tail and the indices outside account for all indices exactly under the same condition.
   */
  lemma CountersShowLoss(s: Race, actions: seq<Action>)
    requires Start(s)
    ensures var e := Exec(s, actions);
            e.io.Between? && e.other.None? && Lost(e) < TWO_64 ==>
              (Sub(e.ring.tail, e.ring.head) + |e.bag| == |e.ring.buffer| <==> !e.overlapped && !e.stale)
  {
    var e := Exec(s, actions);
    NothingLostIff(s, actions);
    RunKeeps(s, actions);
    if e.io.Between? && e.other.None? && Lost(e) < TWO_64 {
      WordsDiffer(e.tail, e.history.popped, |e.ring.buffer| - |e.bag|, Lost(e));
    }
  }

  lemma WordsDiffer(tail: nat, head: nat, d: int, lost: int)
    requires tail - head + lost == d < TWO_64 && 0 <= lost < TWO_64
    ensures Sub(tail % TWO_64, head % TWO_64) == d <==> lost == 0 && 0 <= d
  {
    if lost == 0 && 0 <= d {
      SubWraps(tail, head);
    }
  }

  // When a push is refused

  lemma SubModulo(n: nat, m: nat)
    ensures Sub(n % TWO_64, m % TWO_64) == (n - m) % TWO_64
  {
  }

  lemma OffByMultiple(c: nat, d: int)
    requires c < TWO_64
    ensures (c + d) % TWO_64 == c <==> d % TWO_64 == 0
  {
  }

  lemma FullIff(n: nat, saw: nat, c: nat)
    requires c < TWO_64
    ensures Sub(n % TWO_64, saw % TWO_64) == c <==> (n - saw - c) % TWO_64 == 0
  {
    SubModulo(n, saw);
    OffByMultiple(c, n - saw - c);
  }

  /**
   The consumer's push, at its load of the tail, is refused exactly when as many indices were
   pushed since it loaded the head as there were places then (up to a multiple of 2^64).
   */
  ghost predicate RefusalIsExact(e: Race)
    requires |e.ring.buffer| > 0
  {
    && e.otherSaw.Valid() && e.otherSaw.pushed <= e.history.pushed
    && var places := |e.ring.buffer| - |e.otherSaw.Contents()|;
       var since := |e.history.pushed| - |e.otherSaw.pushed|;
       places > 0 && (Do(e, OtherGo).refused != e.refused <==> (since - places) % TWO_64 == 0)
  }

  lemma RefusedStep(e: Race)
    requires TurnsOk(e) && e.other.Some? && e.other.value.PushLoadTail?
    ensures RefusalIsExact(e)
  {
    FullIff(|e.history.pushed|, e.otherSaw.popped, |e.ring.buffer|);
    hide Sub, PusherKnows, PopperKnows;
    assert Do(e, OtherGo).refused == e.refused + Refused(e.ring, e.other.value);
  }

  /** So it is in every run without an overlap. */
  lemma RefusedIff(s: Race, actions: seq<Action>)
    requires Start(s)
    ensures var e := Exec(s, actions);
            !e.overlapped && e.other.Some? && e.other.value.PushLoadTail? ==> RefusalIsExact(e)
  {
    RunKeeps(s, actions);
    hide Exec, RefusalIsExact, TurnsOk;
    var e := Exec(s, actions);
    if !e.overlapped && e.other.Some? && e.other.value.PushLoadTail? {
      RefusedStep(e);
    }
  }

  /** Without an overlap the IO thread, whose head is always current, is never refused. */
  lemma IoNeverRefused(s: Race, actions: seq<Action>)
    requires Start(s)
    ensures var e := Exec(s, actions); !e.overlapped ==> Do(e, IoGo).refused == e.refused
  {
    RunKeeps(s, actions);
    var e := Exec(s, actions);
    if !e.overlapped && e.io.Pushing? {
      HasPlace(e);
    }
  }

  // The losses are real

  lemma {:induction false} ExecConcat(s: Race, a: seq<Action>, b: seq<Action>)
    requires |s.ring.buffer| > 0
    ensures Exec(s, a + b) == Exec(Exec(s, a), b)
    decreases |b|
  {
    hide Do;
    if b == [] {
      assert a + b == a;
    } else {
      var n := |b| - 1;
      ExecConcat(s, a, b[..n]);
      assert (a + b)[..|a + b| - 1] == a + b[..n];
    }
  }

  lemma ExecThen(s: Race, a: seq<Action>, b: Action)
    requires |s.ring.buffer| > 0
    ensures Exec(s, a + [b]) == Do(Exec(s, a), b)
  {
    assert (a + [b])[..|a|] == a;
  }

  /** A whole call of the IO thread. */
  function WholeCall(begin: Action): seq<Action> {
    [] + [begin] + [IoGo] + [IoGo] + [IoGo] + [IoGo]
  }

  lemma WholeCallRuns(s: Race, begin: Action)
    requires |s.ring.buffer| > 0
    ensures Exec(s, WholeCall(begin)) == Do(Do(Do(Do(Do(s, begin), IoGo), IoGo), IoGo), IoGo)
  {
    ExecThen(s, [], begin);
    ExecThen(s, [] + [begin], IoGo);
    ExecThen(s, [] + [begin] + [IoGo], IoGo);
    ExecThen(s, [] + [begin] + [IoGo] + [IoGo], IoGo);
    ExecThen(s, [] + [begin] + [IoGo] + [IoGo] + [IoGo], IoGo);
  }

  /** The IO thread pushes `y` while the other thread does nothing. */
  function AfterIoPush(s: Race, y: nat): Race
    requires |s.ring.buffer| > 0
  {
    s.(ring := PushAlone(s.ring, y).0, bag := s.bag - multiset{y},
       history := s.history.(pushed := s.history.pushed + [y]),
       tail := s.tail + 1, ioTail := s.tail, overlapped := s.overlapped || OtherHolds(s))
  }

  lemma IoPushRuns(s: Race, y: nat)
    requires |s.ring.buffer| > 0 && s.io.Between? && y in s.bag && Sub(s.ring.tail, s.ring.head) != |s.ring.buffer|
    ensures Exec(s, WholeCall(IoPush(y))) == AfterIoPush(s, y)
  {
    WholeCallRuns(s, IoPush(y));
    hide Exec, WholeCall;
    var s2 := Do(Do(s, IoPush(y)), IoGo);
    assert s2 == s.(bag := s.bag - multiset{y}, io := Pushing(PushLoadTail(y, s.ring.head)));
    var s3 := Do(s2, IoGo);
    assert s3 == s2.(io := Pushing(PushWriteSlot(y, s.ring.tail)), ioTail := s.tail,
                    overlapped := s.overlapped || OtherHolds(s));
    var s4 := Do(s3, IoGo);
    assert s4 == s3.(io := Pushing(PushStoreTail(y, s.ring.tail)), ring := s4.ring);
  }

  lemma PopAloneIs(r: Ring<nat>)
    requires |r.buffer| > 0 && r.head != r.tail
    ensures PopAlone(r).0 == r.(head := Inc(r.head))
  {
    hide BitAnd;
  }

  lemma PopAccesses(s: Race, v: nat)
    requires |s.ring.buffer| > 0 && s.io.Between? && s.ring.head != s.ring.tail
    requires v == s.ring.buffer[s.ring.Slot(s.ring.head)]
    ensures Do(Do(Do(Do(s, IoPop), IoGo), IoGo), IoGo) == s.(io := Popping(PopStoreHead(s.ring.head, v)))
  {
    hide BitAnd;
    var s2 := Do(Do(s, IoPop), IoGo);
    assert s2 == s.(io := Popping(PopLoadTail(s.ring.head)));
    assert Do(s2, IoGo) == s.(io := Popping(PopReadSlot(s.ring.head)));
  }

  lemma IoPopRuns(s: Race)
    requires |s.ring.buffer| > 0 && s.io.Between? && s.ring.head != s.ring.tail
    ensures var v := s.ring.buffer[s.ring.Slot(s.ring.head)];
            Exec(s, WholeCall(IoPop)) ==
            s.(ring := PopAlone(s.ring).0, bag := s.bag + multiset{v},
               history := s.history.(popped := s.history.popped + 1))
  {
    hide Exec, WholeCall, BitAnd, PopAlone;
    var v := s.ring.buffer[s.ring.Slot(s.ring.head)];
    WholeCallRuns(s, IoPop);
    PopAccesses(s, v);
    PopAloneIs(s.ring);
    assert Do(s.(io := Popping(PopStoreHead(s.ring.head, v))), IoGo) ==
           s.(ring := s.ring.(head := Inc(s.ring.head)), bag := s.bag + multiset{v},
              history := s.history.(popped := s.history.popped + 1));
  }

  /** The IO thread pushes all of `ys`, one whole call after the other. */
  function PushAll(ys: seq<nat>): seq<Action> {
    if ys == [] then [] else PushAll(ys[..|ys| - 1]) + WholeCall(IoPush(ys[|ys| - 1]))
  }

  /** What `PushAll` leaves behind: everything of `ys` is in the ring, and the other thread has not moved. */
  ghost predicate AllPushed(e: Race, s: Race, ys: seq<nat>) {
    && Represents(e.ring, s.history.(pushed := s.history.pushed + ys)) && e.ring.head == s.ring.head
    && e == s.(ring := e.ring, bag := s.bag - multiset(ys), history := s.history.(pushed := s.history.pushed + ys),
               tail := s.tail + |ys|, ioTail := e.ioTail, overlapped := s.overlapped || (ys != [] && OtherHolds(s)))
  }

  lemma {:induction false} PushAllRuns(s: Race, ys: seq<nat>)
    requires s.io.Between? && Represents(s.ring, s.history) && multiset(ys) <= s.bag
    requires |s.history.pushed| + |ys| <= s.history.popped + |s.ring.buffer|
    ensures AllPushed(Exec(s, PushAll(ys)), s, ys)
  {
    if ys == [] {
      assert s.history.pushed + ys == s.history.pushed;
    } else {
      var n := |ys| - 1;
      assert ys == ys[..n] + [ys[n]];
      PushAllRuns(s, ys[..n]);
      var m := Exec(s, PushAll(ys[..n]));
      ExecConcat(s, PushAll(ys[..n]), WholeCall(IoPush(ys[n])));
      Occupancy(m.ring, m.history);
      IoPushRuns(m, ys[n]);
      PushAloneAppends(m.ring, m.history, ys[n]);
      OneMorePushed(m, s, ys, n);
    }
  }

  lemma OneMorePushed(m: Race, s: Race, ys: seq<nat>, n: nat)
    requires |ys| == n + 1 && AllPushed(m, s, ys[..n]) && |m.ring.buffer| > 0
    requires Represents(PushAlone(m.ring, ys[n]).0, m.history.(pushed := m.history.pushed + [ys[n]]))
    ensures AllPushed(AfterIoPush(m, ys[n]), s, ys)
  {
    assert ys == ys[..n] + [ys[n]];
    assert s.history.pushed + ys == s.history.pushed + ys[..n] + [ys[n]];
    assert s.bag - multiset(ys) == s.bag - multiset(ys[..n]) - multiset{ys[n]};
  }

  /** The other thread begins to push `x` and loads the head. */
  function OtherLoads1(x: nat): seq<Action> {
    [] + [OtherPush(x)] + [OtherGo]
  }

  /** And then the tail. */
  function OtherLoads2(x: nat): seq<Action> {
    OtherLoads1(x) + [OtherGo]
  }

  lemma FirstAccess(s: Race, x: nat)
    requires |s.ring.buffer| > 0 && s.other.None? && x in s.bag
    ensures Do(Do(s, OtherPush(x)), OtherGo) ==
            s.(other := Some(PushLoadTail(x, s.ring.head)), bag := s.bag - multiset{x}, otherSaw := s.history)
  {
    var s1 := s.(other := Some(PushLoadHead(x)), bag := s.bag - multiset{x});
    assert Do(s, OtherPush(x)) == s1;
    assert PushStep(s.ring, PushLoadHead(x)) == (s.ring, PushLoadTail(x, s.ring.head));
    assert s1.refused + [] == s1.refused;
  }

  lemma SecondAccess(s: Race, x: nat)
    requires |s.ring.buffer| > 0 && s.other == Some(PushLoadTail(x, s.ring.head)) && s.io.Between?
    requires Sub(s.ring.tail, s.ring.head) != |s.ring.buffer|
    ensures Do(s, OtherGo) == s.(other := Some(PushWriteSlot(x, s.ring.tail)), otherTail := s.tail)
  {
    assert s.refused + [] == s.refused;
  }

  lemma OtherLoadsHead(s: Race, x: nat)
    requires |s.ring.buffer| > 0 && s.other.None? && x in s.bag
    ensures Exec(s, OtherLoads1(x)) ==
            s.(other := Some(PushLoadTail(x, s.ring.head)), bag := s.bag - multiset{x}, otherSaw := s.history)
  {
    assert Exec(s, []) == s;
    hide Exec, Do;
    ExecThen(s, [], OtherPush(x));
    ExecThen(s, [] + [OtherPush(x)], OtherGo);
    FirstAccess(s, x);
  }

  lemma OtherLoadsTail(s: Race, x: nat)
    requires |s.ring.buffer| > 0 && s.other.None? && s.io.Between? && x in s.bag
    requires Sub(s.ring.tail, s.ring.head) != |s.ring.buffer|
    ensures Exec(s, OtherLoads2(x)) ==
            s.(other := Some(PushWriteSlot(x, s.ring.tail)), bag := s.bag - multiset{x},
               otherSaw := s.history, otherTail := s.tail)
  {
    hide Exec, Do, OtherLoads1;
    OtherLoadsHead(s, x);
    ExecThen(s, OtherLoads1(x), OtherGo);
    SecondAccess(Exec(s, OtherLoads1(x)), x);
  }

  lemma OtherFinishes(e: Race, x: nat, t: Word)
    requires |e.ring.buffer| > 0 && e.other == Some(PushWriteSlot(x, t))
    ensures Do(Do(e, OtherGo), OtherGo) ==
            e.(ring := Ring(e.ring.head, Inc(t), e.ring.buffer[e.ring.Slot(t) := x]), other := None,
               history := e.history.(pushed := e.history.pushed + [x]), tail := e.otherTail + 1)
  {
    var e1 := Do(e, OtherGo);
    assert e1 == e.(ring := e.ring.(buffer := e.ring.buffer[e.ring.Slot(t) := x]), other := Some(PushStoreTail(x, t)));
  }

  /** Storing an old tail: `x` lands on the first of `ys`, and the rest is cut off. */
  lemma CutBack(r: Ring<nat>, r': Ring<nat>, h: History<nat>, x: nat, ys: seq<nat>)
    requires Represents(r, h) && |h.pushed| < h.popped + |r.buffer|
    requires Represents(r', h.(pushed := h.pushed + ys)) && r'.head == r.head && |r'.buffer| == |r.buffer|
    ensures Represents(Ring(r'.head, Inc(r.tail), r'.buffer[r'.Slot(r.tail) := x]), h.(pushed := h.pushed + [x]))
  {
    var c, n := |r.buffer|, |h.pushed|;
    MaskPicksSlot(n, c);
    IncWraps(n);
    forall i | h.popped <= i < n
      ensures i % c != n % c && r'.buffer[i % c] == h.pushed[i]
    {
      SlotsDistinct(i, n, c);
      assert (h.pushed + ys)[i] == h.pushed[i];
    }
  }

  /** The IO thread pushes `ys` while the consumer holds the tail for `x`. */
  lemma PushedUnderHeldTail(s: Race, x: nat, ys: seq<nat>)
    requires Start(s) && multiset{x} + multiset(ys) <= s.bag
    ensures var e := Exec(s, OtherLoads2(x) + PushAll(ys));
            && |s.history.pushed| < s.history.popped + |s.ring.buffer|
            && e.io.Between? && e.other == Some(PushWriteSlot(x, s.ring.tail)) && e.otherTail == s.tail
            && e.overlapped == (ys != []) && !e.stale && e.refused == [] && e.ring.head == s.ring.head
            && e.history == s.history.(pushed := s.history.pushed + ys) && Represents(e.ring, e.history)
  {
    hide Exec, OtherLoads2, PushAll;
    BagHolds(s.bag, x, ys);
    Occupancy(s.ring, s.history);
    OtherLoadsTail(s, x);
    PushAllRuns(Exec(s, OtherLoads2(x)), ys);
    ExecConcat(s, OtherLoads2(x), PushAll(ys));
  }

  /**
   One held tail loses any number of indices: from every start, while the consumer holds the tail
   for `x`, the IO thread pushes any indices `ys` with success; then the consumer stores its tail,
   and the ring is as if only `x` had been pushed.
   */
  lemma HeldTailLoses(s: Race, x: nat, ys: seq<nat>)
    requires Start(s) && multiset{x} + multiset(ys) <= s.bag
    ensures var e := Exec(s, OtherLoads2(x) + PushAll(ys) + [OtherGo] + [OtherGo]);
            && e.io.Between? && e.other.None? && e.overlapped == (ys != []) && !e.stale && e.refused == []
            && e.history.pushed == s.history.pushed + ys + [x]
            && Represents(e.ring, s.history.(pushed := s.history.pushed + [x])) && Lost(e) == |ys|
  {
    hide Exec, OtherLoads2, PushAll, Do, Represents;
    PushedUnderHeldTail(s, x, ys);
    var e := Exec(s, OtherLoads2(x) + PushAll(ys));
    ExecThen(s, OtherLoads2(x) + PushAll(ys), OtherGo);
    ExecThen(s, OtherLoads2(x) + PushAll(ys) + [OtherGo], OtherGo);
    OtherFinishes(e, x, s.ring.tail);
    CutBack(s.ring, e.ring, s.history, x, ys);
  }

  lemma BagHolds(bag: multiset<nat>, x: nat, ys: seq<nat>)
    requires multiset{x} + multiset(ys) <= bag
    ensures x in bag && multiset(ys) <= bag - multiset{x} && |ys| + 1 <= |bag|
  {
    assert bag == (multiset{x} + multiset(ys)) + (bag - (multiset{x} + multiset(ys)));
  }

  /** The IO thread pops `v`, and pushes it back with all other indices that are outside. */
  lemma PushedBack(s: Race, x: nat, ys: seq<nat>, v: nat)
    requires Start(s) && s.history.popped < |s.history.pushed| && v == s.history.pushed[s.history.popped]
    requires s.bag == multiset{x} + multiset(ys)
    ensures var e := Exec(s, OtherLoads1(x) + WholeCall(IoPop) + PushAll([v] + ys));
            && e.io.Between? && e.other == Some(PushLoadTail(x, s.ring.head)) && |e.ring.buffer| == |s.ring.buffer|
            && !e.overlapped && !e.stale && e.refused == [] && e.tail == |e.history.pushed|
            && e.history == History(s.history.pushed + ([v] + ys), s.history.popped + 1)
            && Represents(e.ring, e.history)
  {
    hide Exec, OtherLoads1, WholeCall, PushAll;
    var a := OtherLoads1(x);
    OtherLoadsHead(s, x);
    ExecConcat(s, a, WholeCall(IoPop));
    var m := PopsOne(Exec(s, a), v);
    BackInBag(s.bag, x, ys, v);
    assert |multiset(ys)| == |ys|;
    PushAllRuns(m, [v] + ys);
    ExecConcat(s, a + WholeCall(IoPop), PushAll([v] + ys));
  }

  lemma BackInBag(bag: multiset<nat>, x: nat, ys: seq<nat>, v: nat)
    requires bag == multiset{x} + multiset(ys)
    ensures x in bag && bag - multiset{x} + multiset{v} == multiset([v] + ys) && |bag| == |ys| + 1
  {
  }

  /**
   A current tail against an old head loses an index without any overlap: from every start with an
   index in the ring, the consumer loads the head, the IO thread pops one index and pushes it back
   with all others that are outside, and the consumer is refused although there is a place for `x`.
   */
  lemma StaleHeadRefuses(s: Race, x: nat, ys: seq<nat>)
    requires Start(s) && s.history.popped < |s.history.pushed| && s.bag == multiset{x} + multiset(ys)
    ensures var v := s.history.pushed[s.history.popped];
            var e := Exec(s, OtherLoads1(x) + WholeCall(IoPop) + PushAll([v] + ys) + [OtherGo]);
            && e.io.Between? && e.other.None? && !e.overlapped && e.stale && e.refused == [x] && Lost(e) == 1
            && Represents(e.ring, e.history) && e.history.popped == s.history.popped + 1
            && e.history.pushed == s.history.pushed + ([v] + ys)
            && |e.history.pushed| - e.history.popped < |e.ring.buffer|
  {
    hide Exec, OtherLoads1, WholeCall, PushAll;
    var v := s.history.pushed[s.history.popped];
    var a := OtherLoads1(x) + WholeCall(IoPop) + PushAll([v] + ys);
    PushedBack(s, x, ys, v);
    BackInBag(s.bag, x, ys, v);
    ExecThen(s, a, OtherGo);
    LooksFull(Exec(s, a), x, s.history.popped);
  }

  lemma LooksFull(e: Race, x: nat, saw: nat)
    requires Represents(e.ring, e.history) && e.other == Some(PushLoadTail(x, saw % TWO_64)) && !e.overlapped
    requires saw + 1 == e.history.popped && |e.history.pushed| == saw + |e.ring.buffer|
    ensures Do(e, OtherGo) == e.(other := None, refused := e.refused + [x], stale := true, otherTail := e.tail)
  {
    Occupancy(e.ring, e.history);
    SubWraps(|e.history.pushed|, saw);
  }

  lemma PopsOne(m: Race, v: nat) returns (m': Race)
    requires m.io.Between? && Represents(m.ring, m.history) && m.history.popped < |m.history.pushed|
    requires v == m.history.pushed[m.history.popped]
    ensures m' == Exec(m, WholeCall(IoPop)) && Represents(m'.ring, m'.history) && |m'.ring.buffer| == |m.ring.buffer|
    ensures m' == m.(ring := m'.ring, bag := m.bag + multiset{v}, history := m.history.(popped := m.history.popped + 1))
  {
    Occupancy(m.ring, m.history);
    IoPopRuns(m);
    PopAloneRemoves(m.ring, m.history);
    MaskPicksSlot(m.history.popped, |m.ring.buffer|);
    m' := Exec(m, WholeCall(IoPop));
  }
}
