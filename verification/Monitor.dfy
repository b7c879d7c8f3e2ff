/**
 The blocking queue as a monitor. Threads contend for the mutex one step at a time; notifications
 are sent after the mutex is released, exactly where the code sends them; waits may end
 spuriously. What can leave a sleeper uncovered is `clear`, and exactly when it does is decided here.
 */
module Monitors {
  import opened Wrappers

  /** Where a thread stands: between calls, or at its next step inside a call. */
  datatype Pc<T> =
    | Idle
    | EnqLock(x: T) | EnqTest(x: T) | EnqToSleep(x: T) | EnqAsleep(x: T) | EnqBody(x: T) | EnqNotify
    | DeqLock | DeqTest | DeqToSleep | DeqAsleep | DeqBody | DeqNotify
    | CloseLock | CloseBody | CloseNotifyFull | CloseNotifyEmpty
    | ClearLock | ClearBody

  /** What a thread means for the others' wakeups. */
  datatype Role =
    | Neutral
    | EnqActive      // an enqueuer that is awake and will test or act
    | EnqSleeper     // waiting on cv_not_full_
    | DeqActive
    | DeqSleeper     // waiting on cv_not_empty_
    | OwesNotEmpty   // has enqueued and will call cv_not_empty_.notify_one()
    | OwesNotFull    // has dequeued and will call cv_not_full_.notify_one()
    | OwesAllFull    // has closed and will notify both condition variables
    | OwesAllEmpty   // has closed and will notify cv_not_empty_

  function RoleOf<T>(pc: Pc<T>): Role {
    match pc
    case EnqLock(_) => EnqActive
    case EnqTest(_) => EnqActive
    case EnqBody(_) => EnqActive
    case EnqAsleep(_) => EnqSleeper
    case EnqNotify => OwesNotEmpty
    case DeqLock => DeqActive
    case DeqTest => DeqActive
    case DeqBody => DeqActive
    case DeqAsleep => DeqSleeper
    case DeqNotify => OwesNotFull
    case CloseNotifyFull => OwesAllFull
    case CloseNotifyEmpty => OwesAllEmpty
    case _ => Neutral
  }

  predicate Holding<T>(pc: Pc<T>) {
    || pc.EnqTest? || pc.EnqToSleep? || pc.EnqBody?
    || pc.DeqTest? || pc.DeqToSleep? || pc.DeqBody?
    || pc.CloseBody? || pc.ClearBody?
  }

  /** The monitor, with everything ever enqueued, dequeued, and removed by `dequeue` or `clear`. */
  datatype State<T> = State(
    capacity: nat, items: seq<T>, closed: bool, lock: Option<nat>, threads: seq<Pc<T>>,
    enqueued: seq<T>, dequeued: seq<T>, removed: seq<T>)

  /** `Go(t, u)`: thread `t` takes its next step; a `notify_one` wakes thread `u` if anyone sleeps. */
  datatype Action<T> =
    | CallEnqueue(t: nat, x: T) | CallDequeue(t: nat) | CallClose(t: nat) | CallClear(t: nat)
    | Go(t: nat, u: nat) | Spurious(t: nat)

  function At<T>(s: State<T>, t: nat, pc: Pc<T>): State<T>
    requires t < |s.threads|
  {
    s.(threads := s.threads[t := pc])
  }

  function Acquire<T>(s: State<T>, t: nat, pc: Pc<T>): Option<State<T>>
    requires t < |s.threads|
  {
    if s.lock == None then Some(At(s, t, pc).(lock := Some(t))) else None
  }

  function Release<T>(s: State<T>, t: nat, pc: Pc<T>): State<T>
    requires t < |s.threads|
  {
    At(s, t, pc).(lock := None)
  }

  predicate SomeoneIs<T>(s: State<T>, r: Role) {
    exists v :: 0 <= v < |s.threads| && RoleOf(s.threads[v]) == r
  }

  /** A sleeper that is woken goes back for the mutex and tests again. */
  function Awake<T>(pc: Pc<T>): Pc<T> {
    match pc
    case EnqAsleep(x) => EnqLock(x)
    case DeqAsleep => DeqLock
    case _ => pc
  }

  /** `notify_one` by `t`: wakes `u`, which must be a sleeper if there is any. */
  function NotifyOne<T>(s: State<T>, t: nat, u: nat, r: Role): Option<State<T>>
    requires t < |s.threads|
  {
    if !SomeoneIs(s, r) then
      Some(At(s, t, Idle))
    else if u < |s.threads| && RoleOf(s.threads[u]) == r then
      Some(At(At(s, u, Awake(s.threads[u])), t, Idle))
    else
      None
  }

  /** `notify_all`: wakes every sleeper of this kind. */
  function WakeAll<T>(ts: seq<Pc<T>>, r: Role): (ws: seq<Pc<T>>)
    ensures |ws| == |ts|
  {
    seq(|ts|, i requires 0 <= i < |ts| => if RoleOf(ts[i]) == r then Awake(ts[i]) else ts[i])
  }

  function Step<T>(s: State<T>, t: nat, u: nat): Option<State<T>>
    requires t < |s.threads|
  {
    match s.threads[t]
    case Idle => None
    case EnqLock(x) => Acquire(s, t, EnqTest(x))
    case EnqTest(x) => Some(At(s, t, if |s.items| < s.capacity || s.closed then EnqBody(x) else EnqToSleep(x)))
    case EnqToSleep(x) => Some(Release(s, t, EnqAsleep(x)))
    case EnqAsleep(_) => None
    case EnqBody(x) =>
      Some(if s.closed then Release(s, t, Idle)
           else Release(s, t, EnqNotify).(items := s.items + [x], enqueued := s.enqueued + [x]))
    case EnqNotify => NotifyOne(s, t, u, DeqSleeper)
    case DeqLock => Acquire(s, t, DeqTest)
    case DeqTest => Some(At(s, t, if |s.items| > 0 || s.closed then DeqBody else DeqToSleep))
    case DeqToSleep => Some(Release(s, t, DeqAsleep))
    case DeqAsleep => None
    case DeqBody =>
      Some(if s.items == [] then Release(s, t, Idle)
           else Release(s, t, DeqNotify).(items := s.items[1..], dequeued := s.dequeued + [s.items[0]],
                                          removed := s.removed + [s.items[0]]))
    case DeqNotify => NotifyOne(s, t, u, EnqSleeper)
    case CloseLock => Acquire(s, t, CloseBody)
    case CloseBody => Some(Release(s, t, CloseNotifyFull).(closed := true))
    case CloseNotifyFull => Some(At(s.(threads := WakeAll(s.threads, EnqSleeper)), t, CloseNotifyEmpty))
    case CloseNotifyEmpty => Some(At(s.(threads := WakeAll(s.threads, DeqSleeper)), t, Idle))
    case ClearLock => Acquire(s, t, ClearBody)
    case ClearBody => Some(Release(s, t, Idle).(items := [], removed := s.removed + s.items))
  }

  function Do<T>(s: State<T>, a: Action<T>): Option<State<T>> {
    if a.t >= |s.threads| then
      None
    else
      match a
      case CallEnqueue(t, x) => if s.threads[t].Idle? then Some(At(s, t, EnqLock(x))) else None
      case CallDequeue(t) => if s.threads[t].Idle? then Some(At(s, t, DeqLock)) else None
      case CallClose(t) => if s.threads[t].Idle? then Some(At(s, t, CloseLock)) else None
      case CallClear(t) => if s.threads[t].Idle? then Some(At(s, t, ClearLock)) else None
      case Go(t, u) => Step(s, t, u)
      case Spurious(t) =>
        if s.threads[t].EnqAsleep? || s.threads[t].DeqAsleep? then Some(At(s, t, Awake(s.threads[t]))) else None
  }

  function Init<T>(capacity: nat, threads: nat): State<T> {
    State(capacity, [], false, None, seq(threads, _ => Idle), [], [], [])
  }

  /** The state after the actions, or `None` if one of them was not possible. */
  function Exec<T>(s: State<T>, actions: seq<Action<T>>): Option<State<T>> {
    if actions == [] then
      Some(s)
    else
      match Exec(s, actions[..|actions| - 1])
      case None => None
      case Some(m) => Do(m, actions[|actions| - 1])
  }

  // Counting threads by role

  function Count<T>(ts: seq<Pc<T>>, r: Role): nat {
    if ts == [] then 0 else Count(ts[..|ts| - 1], r) + if RoleOf(ts[|ts| - 1]) == r then 1 else 0
  }

  function One(b: bool): nat {
    if b then 1 else 0
  }

  lemma {:induction false} CountUpdate<T>(ts: seq<Pc<T>>, t: nat, pc: Pc<T>, r: Role)
    requires t < |ts|
    ensures Count(ts[t := pc], r) + One(RoleOf(ts[t]) == r) == Count(ts, r) + One(RoleOf(pc) == r)
  {
    var n := |ts| - 1;
    if t < n {
      CountUpdate(ts[..n], t, pc, r);
      assert ts[t := pc][..n] == ts[..n][t := pc];
    } else {
      assert ts[t := pc][..n] == ts[..n];
    }
  }

  lemma {:induction false} CountZero<T>(ts: seq<Pc<T>>, r: Role)
    ensures Count(ts, r) == 0 <==> forall i :: 0 <= i < |ts| ==> RoleOf(ts[i]) != r
  {
    if ts != [] {
      CountZero(ts[..|ts| - 1], r);
    }
  }

  lemma {:induction false} CountWakeAll<T>(ts: seq<Pc<T>>, woken: Role, r: Role)
    requires woken == EnqSleeper || woken == DeqSleeper
    requires r != EnqActive && r != DeqActive
    ensures Count(WakeAll(ts, woken), r) == if r == woken then 0 else Count(ts, r)
  {
    if ts != [] {
      var n := |ts| - 1;
      CountWakeAll(ts[..n], woken, r);
      assert WakeAll(ts, woken)[..n] == WakeAll(ts[..n], woken);
    }
  }

  // The invariant

  /** The mutex is held by the one thread that stands inside it, if any. */
  ghost predicate LockOk<T>(s: State<T>) {
    && (s.lock.Some? ==> s.lock.value < |s.threads|)
    && forall t :: 0 <= t < |s.threads| ==> (Holding(s.threads[t]) <==> s.lock == Some(t))
  }

  /** What a thread inside the mutex has just tested still holds. */
  ghost predicate PcOk<T>(s: State<T>, pc: Pc<T>) {
    && (pc.EnqToSleep? ==> |s.items| == s.capacity && !s.closed)
    && (pc.EnqBody? ==> |s.items| < s.capacity || s.closed)
    && (pc.DeqToSleep? ==> s.items == [] && !s.closed)
    && (pc.DeqBody? ==> s.items != [] || s.closed)
    && (pc.CloseNotifyFull? || pc.CloseNotifyEmpty? ==> s.closed)
  }

  ghost predicate QueueOk<T>(s: State<T>) {
    && 0 < s.capacity && |s.items| <= s.capacity
    && s.enqueued == s.removed + s.items
    && forall t :: 0 <= t < |s.threads| ==> PcOk(s, s.threads[t])
  }

  /** How many threads there are of each role that matters. */
  datatype Tally = Tally(
    enqSleep: int, deqSleep: int, enqActive: int, deqActive: int,
    notEmpty: int, notFull: int, allFull: int, allEmpty: int)

  function TallyOf<T>(ts: seq<Pc<T>>): Tally {
    Tally(Count(ts, EnqSleeper), Count(ts, DeqSleeper), Count(ts, EnqActive), Count(ts, DeqActive),
          Count(ts, OwesNotEmpty), Count(ts, OwesNotFull), Count(ts, OwesAllFull), Count(ts, OwesAllEmpty))
  }

  /** The tally after one thread has changed its role. */
  function Shift(k: Tally, out: Role, into: Role): Tally {
    Tally(
      k.enqSleep - One(out == EnqSleeper) + One(into == EnqSleeper),
      k.deqSleep - One(out == DeqSleeper) + One(into == DeqSleeper),
      k.enqActive - One(out == EnqActive) + One(into == EnqActive),
      k.deqActive - One(out == DeqActive) + One(into == DeqActive),
      k.notEmpty - One(out == OwesNotEmpty) + One(into == OwesNotEmpty),
      k.notFull - One(out == OwesNotFull) + One(into == OwesNotFull),
      k.allFull - One(out == OwesAllFull) + One(into == OwesAllFull),
      k.allEmpty - One(out == OwesAllEmpty) + One(into == OwesAllEmpty))
  }

  /**
   Nobody sleeps uncovered. While the queue is open, either the notifications still owed suffice
   to wake every sleeper, or what there is to wake them for, items or places, is no more than the
   notifications owed and the active threads can take. Once it is closed, every sleeper has a
   `notify_all` coming.
   */
  predicate CoveredBy(closed: bool, items: nat, capacity: nat, k: Tally) {
    if closed then
      && (k.enqSleep > 0 ==> k.allFull > 0)
      && (k.deqSleep > 0 ==> k.allFull + k.allEmpty > 0)
    else
      && (k.deqSleep > k.notEmpty ==> items <= k.notEmpty + k.deqActive)
      && (k.enqSleep > k.notFull ==> capacity - items <= k.notFull + k.enqActive)
  }

  ghost predicate Covered<T>(s: State<T>) {
    CoveredBy(s.closed, |s.items|, s.capacity, TallyOf(s.threads))
  }

  ghost predicate Invariant<T>(s: State<T>) {
    LockOk(s) && QueueOk(s) && Covered(s)
  }

  // Every action keeps it

  predicate Clears<T>(a: Action<T>) {
    a.CallClear?
  }

  /** Is this the step of a `clear` that empties the queue? */
  predicate IsClear<T>(s: State<T>, a: Action<T>) {
    a.Go? && a.t < |s.threads| && s.threads[a.t].ClearBody?
  }

  lemma DoKeepsLock<T>(s: State<T>, a: Action<T>)
    requires LockOk(s) && Do(s, a).Some?
    ensures LockOk(Do(s, a).value)
  {
    if a.Go? {
      StepKeepsLock(s, a.t, a.u);
    }
  }

  predicate Notifies<T>(pc: Pc<T>) {
    pc.EnqNotify? || pc.DeqNotify? || pc.CloseNotifyFull? || pc.CloseNotifyEmpty?
  }

  /** A step that does not notify moves one thread, inside the mutex or into it. */
  lemma PlainStep<T>(s: State<T>, t: nat, u: nat)
    requires LockOk(s) && t < |s.threads| && Step(s, t, u).Some? && !Notifies(s.threads[t])
    ensures var s' := Step(s, t, u).value; var pc' := s'.threads[t];
            && s'.threads == s.threads[t := pc']
            && (s.lock == None || s.lock == Some(t))
            && s'.lock == if Holding(pc') then Some(t) else None
  {
    assert Holding(s.threads[t]) <==> s.lock == Some(t);
  }

  /** A step that notifies leaves the mutex and the queue alone and only wakes sleepers. */
  lemma NotifyingStep<T>(s: State<T>, t: nat, u: nat)
    requires t < |s.threads| && Step(s, t, u).Some? && Notifies(s.threads[t])
    ensures var s' := Step(s, t, u).value;
            && s' == s.(threads := s'.threads) && |s'.threads| == |s.threads|
            && (s'.threads[t] == Idle || (s.threads[t].CloseNotifyFull? && s'.threads[t] == CloseNotifyEmpty))
            && forall v :: 0 <= v < |s.threads| && v != t ==>
                 s'.threads[v] == s.threads[v] || s'.threads[v] == Awake(s.threads[v])
  {
  }

  lemma StepKeepsLock<T>(s: State<T>, t: nat, u: nat)
    requires LockOk(s) && t < |s.threads| && Step(s, t, u).Some?
    ensures LockOk(Step(s, t, u).value)
  {
    if Notifies(s.threads[t]) {
      NotifyingStep(s, t, u);
    } else {
      PlainStep(s, t, u);
    }
  }

  /** Only the holder of the mutex changes the queue, so what others have tested stays true. */
  lemma PlainStepKeepsQueue<T>(s: State<T>, t: nat, u: nat)
    requires LockOk(s) && QueueOk(s) && t < |s.threads| && Step(s, t, u).Some? && !Notifies(s.threads[t])
    ensures QueueOk(Step(s, t, u).value)
  {
    var s' := Step(s, t, u).value;
    var pc := s.threads[t];
    assert PcOk(s, pc);
    PlainStep(s, t, u);
    assert s'.enqueued == s'.removed + s'.items;
    assert |s'.items| <= s'.capacity;
    assert PcOk(s', s'.threads[t]);
    forall v | 0 <= v < |s.threads| && v != t
      ensures PcOk(s', s'.threads[v])
    {
      assert PcOk(s, s.threads[v]) && !Holding(s.threads[v]);
    }
  }

  lemma StepKeepsQueue<T>(s: State<T>, t: nat, u: nat)
    requires LockOk(s) && QueueOk(s) && t < |s.threads| && Step(s, t, u).Some?
    ensures QueueOk(Step(s, t, u).value)
  {
    if Notifies(s.threads[t]) {
      NotifyingStep(s, t, u);
      assert PcOk(s, s.threads[t]);
      assert forall v :: 0 <= v < |s.threads| ==> PcOk(s, s.threads[v]);
    } else {
      PlainStepKeepsQueue(s, t, u);
    }
  }

  lemma DoKeepsQueue<T>(s: State<T>, a: Action<T>)
    requires LockOk(s) && QueueOk(s) && Do(s, a).Some?
    ensures QueueOk(Do(s, a).value)
  {
    if a.Go? {
      StepKeepsQueue(s, a.t, a.u);
    } else {
      var s' := Do(s, a).value;
      assert forall v :: 0 <= v < |s.threads| ==> PcOk(s, s.threads[v]);
    }
  }

  /** Changing one thread's program counter shifts the tally between its two roles. */
  lemma Retally<T>(ts: seq<Pc<T>>, t: nat, pc: Pc<T>)
    requires t < |ts|
    ensures TallyOf(ts[t := pc]) == Shift(TallyOf(ts), RoleOf(ts[t]), RoleOf(pc))
  {
    CountUpdate(ts, t, pc, EnqSleeper);
    CountUpdate(ts, t, pc, DeqSleeper);
    CountUpdate(ts, t, pc, EnqActive);
    CountUpdate(ts, t, pc, DeqActive);
    CountUpdate(ts, t, pc, OwesNotEmpty);
    CountUpdate(ts, t, pc, OwesNotFull);
    CountUpdate(ts, t, pc, OwesAllFull);
    CountUpdate(ts, t, pc, OwesAllEmpty);
  }

  /** The moves of one thread that do not notify, and what they do to the queue. */
  predicate Allowed(closed: bool, items: nat, capacity: nat, out: Role, into: Role, items': nat) {
    || (items' == items && (out == into || (out == Neutral && (into == EnqActive || into == DeqActive))))
    || (out == EnqActive && into == OwesNotEmpty && items' == items + 1)
    || (out == EnqActive && into == Neutral && items' == items && (closed || items == capacity))
    || (out == Neutral && into == EnqSleeper && items' == items == capacity && !closed)
    || (out == DeqActive && into == OwesNotFull && items' + 1 == items)
    || (out == DeqActive && into == Neutral && items' == items && (closed || items == 0))
    || (out == Neutral && into == DeqSleeper && items' == items == 0 && !closed)
    || (out == EnqSleeper && into == EnqActive && items' == items)
    || (out == DeqSleeper && into == DeqActive && items' == items)
  }

  lemma AllowedKeepsCover(closed: bool, items: nat, capacity: nat, k: Tally, out: Role, into: Role, items': nat)
    requires CoveredBy(closed, items, capacity, k) && Allowed(closed, items, capacity, out, into, items')
    requires k.notEmpty >= 0 && k.notFull >= 0 && k.enqActive >= 0 && k.deqActive >= 0
      && k.allFull >= 0 && k.allEmpty >= 0
    requires Shift(k, out, into).enqActive >= 0 && Shift(k, out, into).deqActive >= 0
    ensures CoveredBy(closed, items', capacity, Shift(k, out, into))
  {
  }

  /** Sending one notification, to a sleeper or, if there is none, to nobody. */
  lemma NotifyKeepsCover(closed: bool, items: nat, capacity: nat, k: Tally, owed: Role, asleep: Role, active: Role)
    requires CoveredBy(closed, items, capacity, k)
    requires if asleep == DeqSleeper then k.notEmpty > 0 else k.notFull > 0
    requires (owed == OwesNotEmpty && asleep == DeqSleeper && active == DeqActive)
          || (owed == OwesNotFull && asleep == EnqSleeper && active == EnqActive)
    ensures CoveredBy(closed, items, capacity, Shift(Shift(k, asleep, active), owed, Neutral))
    ensures (if asleep == DeqSleeper then k.deqSleep else k.enqSleep) == 0 ==>
              CoveredBy(closed, items, capacity, Shift(k, owed, Neutral))
  {
  }

  lemma OwedIsCounted<T>(s: State<T>, t: nat)
    requires t < |s.threads|
    ensures s.threads[t].EnqNotify? ==> TallyOf(s.threads).notEmpty > 0
    ensures s.threads[t].DeqNotify? ==> TallyOf(s.threads).notFull > 0
  {
    CountPositive(s.threads, t);
  }

  lemma NotifyKeepsCovered<T>(s: State<T>, t: nat, u: nat, r: Role)
    requires Covered(s) && t < |s.threads|
    requires (s.threads[t].EnqNotify? && r == DeqSleeper) || (s.threads[t].DeqNotify? && r == EnqSleeper)
    requires NotifyOne(s, t, u, r).Some?
    ensures Covered(NotifyOne(s, t, u, r).value)
  {
    hide Count, CoveredBy, Shift, TallyOf;
    var active := if r == DeqSleeper then DeqActive else EnqActive;
    OwedIsCounted(s, t);
    NotifyKeepsCover(s.closed, |s.items|, s.capacity, TallyOf(s.threads), RoleOf(s.threads[t]), r, active);
    if SomeoneIs(s, r) {
      RetallyTwice(s.threads, t, u);
    } else {
      NobodySleeps(s, r);
      Retally(s.threads, t, Idle);
    }
  }

  lemma NobodySleeps<T>(s: State<T>, r: Role)
    requires !SomeoneIs(s, r)
    ensures r == DeqSleeper ==> TallyOf(s.threads).deqSleep == 0
    ensures r == EnqSleeper ==> TallyOf(s.threads).enqSleep == 0
  {
    CountZero(s.threads, r);
  }

  lemma RetallyTwice<T>(ts: seq<Pc<T>>, t: nat, u: nat)
    requires t < |ts| && u < |ts| && t != u
    ensures TallyOf(ts[u := Awake(ts[u])][t := Idle]) ==
            Shift(Shift(TallyOf(ts), RoleOf(ts[u]), RoleOf(Awake(ts[u]))), RoleOf(ts[t]), Neutral)
  {
    Retally(ts, u, Awake(ts[u]));
    Retally(ts[u := Awake(ts[u])], t, Idle);
  }

  lemma CountPositive<T>(ts: seq<Pc<T>>, t: nat)
    requires t < |ts|
    ensures Count(ts, RoleOf(ts[t])) > 0
  {
    CountZero(ts, RoleOf(ts[t]));
  }

  lemma NotifyAllFullKeepsCovered<T>(s: State<T>, t: nat, u: nat)
    requires s.closed && Covered(s) && t < |s.threads| && s.threads[t].CloseNotifyFull?
    ensures Covered(Step(s, t, u).value)
  {
    hide Count, WakeAll;
    var ts := WakeAll(s.threads, EnqSleeper);
    CountWakeAll(s.threads, EnqSleeper, EnqSleeper);
    Retally(ts, t, CloseNotifyEmpty);
    CountPositive(ts[t := CloseNotifyEmpty], t);
  }

  lemma NotifyAllEmptyKeepsCovered<T>(s: State<T>, t: nat, u: nat)
    requires s.closed && Covered(s) && t < |s.threads| && s.threads[t].CloseNotifyEmpty?
    ensures Covered(Step(s, t, u).value)
  {
    hide Count;
    var ts := WakeAll(s.threads, DeqSleeper);
    CountWakeAll(s.threads, DeqSleeper, EnqSleeper);
    CountWakeAll(s.threads, DeqSleeper, DeqSleeper);
    CountWakeAll(s.threads, DeqSleeper, OwesAllFull);
    Retally(ts, t, Idle);
  }

  lemma CloseKeepsCovered<T>(s: State<T>, t: nat, u: nat)
    requires t < |s.threads| && s.threads[t].CloseBody?
    ensures Covered(Step(s, t, u).value)
  {
    CountPositive(s.threads[t := CloseNotifyFull], t);
  }

  lemma PlainStepAllowed<T>(s: State<T>, t: nat, u: nat)
    requires QueueOk(s) && t < |s.threads| && Step(s, t, u).Some?
    requires !Notifies(s.threads[t]) && !s.threads[t].CloseBody? && !s.threads[t].ClearBody?
    ensures var s' := Step(s, t, u).value;
            && s'.closed == s.closed && s'.capacity == s.capacity
            && s'.threads == s.threads[t := s'.threads[t]]
            && Allowed(s.closed, |s.items|, s.capacity, RoleOf(s.threads[t]), RoleOf(s'.threads[t]), |s'.items|)
  {
    assert PcOk(s, s.threads[t]);
  }

  lemma MoveKeepsCovered<T>(s: State<T>, s': State<T>, t: nat)
    requires Covered(s) && t < |s.threads| && s'.closed == s.closed && s'.capacity == s.capacity
    requires |s'.threads| == |s.threads| && s'.threads == s.threads[t := s'.threads[t]]
    requires Allowed(s.closed, |s.items|, s.capacity, RoleOf(s.threads[t]), RoleOf(s'.threads[t]), |s'.items|)
    ensures Covered(s')
  {
    Retally(s.threads, t, s'.threads[t]);
    AllowedKeepsCover(s.closed, |s.items|, s.capacity, TallyOf(s.threads),
                      RoleOf(s.threads[t]), RoleOf(s'.threads[t]), |s'.items|);
  }

  lemma StepKeepsCovered<T>(s: State<T>, t: nat, u: nat)
    requires Invariant(s) && t < |s.threads| && Step(s, t, u).Some? && !s.threads[t].ClearBody?
    ensures Covered(Step(s, t, u).value)
  {
    var pc := s.threads[t];
    assert PcOk(s, pc);
    if pc.EnqNotify? {
      NotifyKeepsCovered(s, t, u, DeqSleeper);
    } else if pc.DeqNotify? {
      NotifyKeepsCovered(s, t, u, EnqSleeper);
    } else if pc.CloseNotifyFull? {
      NotifyAllFullKeepsCovered(s, t, u);
    } else if pc.CloseNotifyEmpty? {
      NotifyAllEmptyKeepsCovered(s, t, u);
    } else if pc.CloseBody? {
      CloseKeepsCovered(s, t, u);
    } else {
      PlainStepAllowed(s, t, u);
      MoveKeepsCovered(s, Step(s, t, u).value, t);
    }
  }

  /** `clear` leaves the sleepers covered exactly under this condition, which is known before it. */
  ghost predicate ClearIsSafe<T>(s: State<T>) {
    || s.closed
    || Count(s.threads, EnqSleeper) <= Count(s.threads, OwesNotFull)
    || s.capacity <= Count(s.threads, OwesNotFull) + Count(s.threads, EnqActive)
  }

  lemma ClearKeepsCoverIff<T>(s: State<T>, t: nat, u: nat)
    requires Covered(s) && t < |s.threads| && s.threads[t].ClearBody?
    ensures Covered(Step(s, t, u).value) <==> ClearIsSafe(s)
  {
    Retally(s.threads, t, Idle);
  }

  /** Every action keeps the mutex and the queue, and keeps the cover unless it is a `clear` that does not. */
  lemma DoKeeps<T>(s: State<T>, a: Action<T>)
    requires Invariant(s) && Do(s, a).Some?
    ensures LockOk(Do(s, a).value) && QueueOk(Do(s, a).value)
    ensures Covered(Do(s, a).value) <==> (IsClear(s, a) ==> ClearIsSafe(s))
  {
    DoKeepsLock(s, a);
    DoKeepsQueue(s, a);
    if IsClear(s, a) {
      ClearKeepsCoverIff(s, a.t, a.u);
    } else if a.Go? {
      StepKeepsCovered(s, a.t, a.u);
    } else {
      MoveKeepsCovered(s, Do(s, a).value, a.t);
    }
  }

  // Whole runs

  ghost predicate NeverClears<T>(actions: seq<Action<T>>) {
    forall i :: 0 <= i < |actions| ==> !Clears(actions[i])
  }

  lemma {:induction false} AllIdle<T>(n: nat, r: Role)
    requires r != Neutral
    ensures Count(seq(n, _ => Pc<T>.Idle), r) == 0
  {
    CountZero(seq(n, _ => Pc<T>.Idle), r);
  }

  lemma InitInvariant<T>(capacity: nat, threads: nat)
    requires capacity > 0
    ensures Invariant(Init<T>(capacity, threads))
  {
    AllIdle<T>(threads, EnqSleeper);
    AllIdle<T>(threads, DeqSleeper);
  }

  lemma {:induction false} ExecPrefix<T>(s: State<T>, actions: seq<Action<T>>, n: nat)
    requires n <= |actions| && Exec(s, actions).Some?
    ensures Exec(s, actions[..n]).Some?
  {
    if n < |actions| {
      ExecPrefix(s, actions[..|actions| - 1], n);
      assert actions[..|actions| - 1][..n] == actions[..n];
    } else {
      assert actions[..n] == actions;
    }
  }

  /** The state after the first `n` actions. */
  ghost function StateAt<T>(capacity: nat, threads: nat, actions: seq<Action<T>>, n: nat): State<T>
    requires n <= |actions| && Exec(Init(capacity, threads), actions).Some?
  {
    ExecPrefix(Init(capacity, threads), actions, n);
    Exec(Init(capacity, threads), actions[..n]).value
  }

  lemma StateAtNext<T>(capacity: nat, threads: nat, actions: seq<Action<T>>, n: nat)
    requires n < |actions| && Exec(Init(capacity, threads), actions).Some?
    ensures var s := StateAt(capacity, threads, actions, n);
            Do(s, actions[n]) == Some(StateAt(capacity, threads, actions, n + 1))
  {
    ExecPrefix(Init(capacity, threads), actions, n + 1);
    assert actions[..n + 1][..n] == actions[..n];
  }

  /** Conservation: in every run, what was enqueued is what was removed followed by what is queued. */
  lemma {:induction false} RunsKeepQueue<T>(capacity: nat, threads: nat, actions: seq<Action<T>>, n: nat)
    requires capacity > 0 && Exec(Init(capacity, threads), actions).Some? && n <= |actions|
    ensures LockOk(StateAt(capacity, threads, actions, n)) && QueueOk(StateAt(capacity, threads, actions, n))
  {
    if n == 0 {
      InitInvariant<T>(capacity, threads);
    } else {
      RunsKeepQueue(capacity, threads, actions, n - 1);
      StateAtNext(capacity, threads, actions, n - 1);
      var s := StateAt(capacity, threads, actions, n - 1);
      DoKeepsLock(s, actions[n - 1]);
      DoKeepsQueue(s, actions[n - 1]);
    }
  }

  /** Every `clear` among the first `n` actions meets the condition. */
  ghost predicate SafeClears<T>(capacity: nat, threads: nat, actions: seq<Action<T>>, n: nat)
    requires n <= |actions| && Exec(Init(capacity, threads), actions).Some?
  {
    forall i :: 0 <= i < n && IsClear(StateAt(capacity, threads, actions, i), actions[i]) ==>
      ClearIsSafe(StateAt(capacity, threads, actions, i))
  }

  ghost predicate CoveredUpTo<T>(capacity: nat, threads: nat, actions: seq<Action<T>>, n: nat)
    requires n <= |actions| && Exec(Init(capacity, threads), actions).Some?
  {
    forall i :: 0 <= i <= n ==> Covered(StateAt(capacity, threads, actions, i))
  }

  /**
   Wakeups over every run from the start, of any number of threads, with spurious wakeups and with
   `clear`: every sleeper is covered at every moment if and only if every `clear` so far found the
   queue closed, no more sleeping enqueuers than notifications owed to them, or notifications and
   active enqueuers enough for the whole emptied queue.
   */
  lemma {:induction false} CoveredIffSafeClears<T>(capacity: nat, threads: nat, actions: seq<Action<T>>, n: nat)
    requires capacity > 0 && Exec(Init(capacity, threads), actions).Some? && n <= |actions|
    ensures CoveredUpTo(capacity, threads, actions, n) <==> SafeClears(capacity, threads, actions, n)
  {
    if n == 0 {
      InitInvariant<T>(capacity, threads);
    } else {
      CoveredIffSafeClears(capacity, threads, actions, n - 1);
      CoverStep(capacity, threads, actions, n - 1);
      OneMoreCovered(capacity, threads, actions, n - 1);
      OneMoreSafe(capacity, threads, actions, n - 1);
      hide Covered, ClearIsSafe, StateAt, CoveredUpTo, SafeClears, IsClear;
    }
  }

  lemma OneMoreCovered<T>(capacity: nat, threads: nat, actions: seq<Action<T>>, n: nat)
    requires n < |actions| && Exec(Init(capacity, threads), actions).Some?
    ensures CoveredUpTo(capacity, threads, actions, n + 1) <==>
            CoveredUpTo(capacity, threads, actions, n) && Covered(StateAt(capacity, threads, actions, n + 1))
    ensures CoveredUpTo(capacity, threads, actions, n) ==> Covered(StateAt(capacity, threads, actions, n))
  {
    hide Covered, StateAt;
  }

  lemma OneMoreSafe<T>(capacity: nat, threads: nat, actions: seq<Action<T>>, n: nat)
    requires n < |actions| && Exec(Init(capacity, threads), actions).Some?
    ensures SafeClears(capacity, threads, actions, n + 1) <==>
            && SafeClears(capacity, threads, actions, n)
            && (IsClear(StateAt(capacity, threads, actions, n), actions[n]) ==>
                  ClearIsSafe(StateAt(capacity, threads, actions, n)))
  {
    hide ClearIsSafe, StateAt, IsClear;
  }

  lemma CoverStep<T>(capacity: nat, threads: nat, actions: seq<Action<T>>, n: nat)
    requires capacity > 0 && Exec(Init(capacity, threads), actions).Some? && n < |actions|
    ensures var s := StateAt(capacity, threads, actions, n);
            Covered(s) ==>
              (Covered(StateAt(capacity, threads, actions, n + 1)) <==> (IsClear(s, actions[n]) ==> ClearIsSafe(s)))
  {
    var s := StateAt(capacity, threads, actions, n);
    RunsKeepQueue(capacity, threads, actions, n);
    StateAtNext(capacity, threads, actions, n);
    if Covered(s) {
      DoKeeps(s, actions[n]);
    }
  }

  ghost predicate NoClearBegun<T>(s: State<T>) {
    && s.removed == s.dequeued
    && forall t :: 0 <= t < |s.threads| ==> !s.threads[t].ClearLock? && !s.threads[t].ClearBody?
  }

  lemma StepBeginsNoClear<T>(s: State<T>, a: Action<T>)
    requires NoClearBegun(s) && Do(s, a).Some? && !Clears(a)
    ensures NoClearBegun(Do(s, a).value) && !IsClear(s, a)
  {
    if a.Go? && Notifies(s.threads[a.t]) {
      NotifyingStep(s, a.t, a.u);
    }
  }

  /**
   No lost wakeup: after any actions without `clear` every sleeper is covered, and what was
   enqueued is what was dequeued followed by what is queued.
   */
  lemma {:induction false} RunsKeepInvariant<T>(capacity: nat, threads: nat, actions: seq<Action<T>>)
    requires capacity > 0 && NeverClears(actions) && Exec(Init(capacity, threads), actions).Some?
    ensures var s := Exec(Init(capacity, threads), actions).value;
            Invariant(s) && NoClearBegun(s) && s.enqueued == s.dequeued + s.items
  {
    if actions == [] {
      InitInvariant<T>(capacity, threads);
    } else {
      var n := |actions| - 1;
      RunsKeepInvariant(capacity, threads, actions[..n]);
      var s := Exec(Init(capacity, threads), actions[..n]).value;
      StepBeginsNoClear(s, actions[n]);
      DoKeeps(s, actions[n]);
    }
  }

  /** No thread has anything left to do on its own: all are between calls or asleep. */
  ghost predicate Quiet<T>(s: State<T>) {
    forall t :: 0 <= t < |s.threads| ==> s.threads[t].Idle? || s.threads[t].EnqAsleep? || s.threads[t].DeqAsleep?
  }

  lemma QuietCounts<T>(s: State<T>, r: Role)
    requires Quiet(s) && r != Neutral && r != EnqSleeper && r != DeqSleeper
    ensures Count(s.threads, r) == 0
  {
    CountZero(s.threads, r);
  }

  /**
   When all activity has died down, whoever sleeps has a reason to: dequeuers only on an empty
   queue, enqueuers only on a full one, never both at once, and nobody once the queue is closed.
   */
  lemma SleepersHaveAReason<T>(s: State<T>, t: nat)
    requires Invariant(s) && Quiet(s) && t < |s.threads|
    ensures s.threads[t].DeqAsleep? ==> s.items == [] && !s.closed && !SomeoneIs(s, EnqSleeper)
    ensures s.threads[t].EnqAsleep? ==> |s.items| == s.capacity && !s.closed && !SomeoneIs(s, DeqSleeper)
  {
    QuietCounts(s, OwesNotEmpty);
    QuietCounts(s, OwesNotFull);
    QuietCounts(s, OwesAllFull);
    QuietCounts(s, OwesAllEmpty);
    QuietCounts(s, EnqActive);
    QuietCounts(s, DeqActive);
    CountZero(s.threads, EnqSleeper);
    CountZero(s.threads, DeqSleeper);
  }

  /** Unless all is quiet, some thread can take its next step. */
  lemma SomeoneCanStep<T>(s: State<T>)
    requires LockOk(s) && !Quiet(s)
    ensures exists t, u :: 0 <= t < |s.threads| && 0 <= u && Step(s, t, u).Some?
  {
    if s.lock.Some? {
      var h := s.lock.value;
      assert Holding(s.threads[h]);
      assert Step(s, h, 0).Some?;
    } else {
      var t :| 0 <= t < |s.threads| && !s.threads[t].Idle? && !s.threads[t].EnqAsleep? && !s.threads[t].DeqAsleep?;
      assert !Holding(s.threads[t]);
      var r := if s.threads[t].EnqNotify? then DeqSleeper else EnqSleeper;
      if SomeoneIs(s, r) {
        var u :| 0 <= u < |s.threads| && RoleOf(s.threads[u]) == r;
        assert Step(s, t, u).Some?;
      } else {
        assert Step(s, t, 0).Some?;
      }
    }
  }

  lemma {:induction false} RunsKeepLock<T>(capacity: nat, threads: nat, actions: seq<Action<T>>)
    requires Exec(Init(capacity, threads), actions).Some?
    ensures LockOk(Exec(Init(capacity, threads), actions).value)
  {
    if actions != [] {
      var n := |actions| - 1;
      RunsKeepLock(capacity, threads, actions[..n]);
      DoKeepsLock(Exec(Init(capacity, threads), actions[..n]).value, actions[n]);
    }
  }

  /**
   No deadlock: after any actions of any number of threads, `clear` included, either every thread
   is between calls or asleep, or one more action of some thread inside a call is possible.
   */
  lemma NoDeadlock<T>(capacity: nat, threads: nat, actions: seq<Action<T>>)
    requires Exec(Init(capacity, threads), actions).Some?
    ensures var s := Exec(Init(capacity, threads), actions).value;
            Quiet(s) || exists t, u :: Exec(Init(capacity, threads), actions + [Go(t, u)]).Some?
  {
    var s := Exec(Init(capacity, threads), actions).value;
    RunsKeepLock(capacity, threads, actions);
    if !Quiet(s) {
      SomeoneCanStep(s);
      var t, u :| 0 <= t < |s.threads| && 0 <= u && Step(s, t, u).Some?;
      ExecThen(Init(capacity, threads), actions, Go(t, u));
      assert Exec(Init(capacity, threads), actions + [Go(t, u)]).Some?;
    }
  }

  // What `clear` does to this

  /** Actions one after the other: `Exec` splits at any point. */
  lemma {:induction false} ExecConcat<T>(s: State<T>, a: seq<Action<T>>, b: seq<Action<T>>)
    requires Exec(s, a).Some?
    ensures Exec(s, a + b) == Exec(Exec(s, a).value, b)
    decreases |b|
  {
    if b == [] {
      assert a + b == a;
    } else {
      var n := |b| - 1;
      ExecConcat(s, a, b[..n]);
      assert (a + b)[..|a + b| - 1] == a + b[..n];
    }
  }

  lemma Exec1<T>(s: State<T>, a: Action<T>)
    ensures Exec(s, [a]) == Do(s, a)
  {
    assert [a][..0] == [];
  }

  lemma ExecThen<T>(s: State<T>, a: seq<Action<T>>, b: Action<T>)
    requires Exec(s, a).Some?
    ensures Exec(s, a + [b]) == Do(Exec(s, a).value, b)
  {
    ExecConcat(s, a, [b]);
    Exec1(Exec(s, a).value, b);
  }

  /** An `enqueue` by `t` that finds the queue full, and goes to sleep. */
  function EnqueueToSleep<T>(t: nat, x: T): seq<Action<T>> {
    [CallEnqueue(t, x)] + [Go(t, 0)] + [Go(t, 0)] + [Go(t, 0)]
  }

  /** A whole `clear` by `t`. */
  function WholeClear<T>(t: nat): seq<Action<T>> {
    [CallClear(t)] + [Go(t, 0)] + [Go(t, 0)]
  }

  lemma FullQueuePutsToSleep<T>(s: State<T>, t: nat, x: T)
    requires t < |s.threads| && s.threads[t].Idle? && s.lock == None && |s.items| == s.capacity && !s.closed
    ensures Exec(s, EnqueueToSleep(t, x)) == Some(At(s, t, EnqAsleep(x)))
  {
    var a: seq<Action<T>> := [CallEnqueue(t, x)];
    Exec1(s, CallEnqueue(t, x));
    ExecThen(s, a, Go(t, 0));
    ExecThen(s, a + [Go(t, 0)], Go(t, 0));
    ExecThen(s, a + [Go(t, 0)] + [Go(t, 0)], Go(t, 0));
    assert s.threads[t := EnqLock(x)][t := EnqTest(x)][t := EnqToSleep(x)][t := EnqAsleep(x)] ==
           s.threads[t := EnqAsleep(x)];
  }

  lemma ClearSteps<T>(s: State<T>, t: nat)
    requires t < |s.threads| && s.threads[t].Idle? && s.lock == None
    ensures var locking, inside := At(s, t, ClearLock), At(s, t, ClearBody).(lock := Some(t));
            && Do(s, CallClear(t)) == Some(locking) && Do(locking, Go(t, 0)) == Some(inside)
            && Do(inside, Go(t, 0)) == Some(At(s, t, Idle).(items := [], removed := s.removed + s.items))
  {
    assert s.threads[t := ClearLock][t := ClearBody] == s.threads[t := ClearBody];
    assert s.threads[t := ClearBody][t := Idle] == s.threads[t := Idle];
  }

  lemma WholeClearEmpties<T>(s: State<T>, t: nat)
    requires t < |s.threads| && s.threads[t].Idle? && s.lock == None
    ensures Exec(s, WholeClear(t)) == Some(At(s, t, Idle).(items := [], removed := s.removed + s.items))
  {
    hide Exec, Do, At;
    var a: seq<Action<T>> := [CallClear(t)];
    ClearSteps(s, t);
    Exec1(s, CallClear(t));
    ExecThen(s, a, Go(t, 0));
    ExecThen(s, a + [Go(t, 0)], Go(t, 0));
  }

  /**
   With `clear`, wakeups are lost, at every capacity: from any quiet, open and full queue, an
   enqueuer that falls asleep before a `clear` sleeps on although the queue is empty and all is
   quiet.
   */
  lemma ClearLosesWakeup<T>(s: State<T>, sleeper: nat, clearer: nat, x: T)
    requires Quiet(s) && s.lock == None && 0 < |s.items| == s.capacity && !s.closed
    requires sleeper < |s.threads| && clearer < |s.threads| && sleeper != clearer
    requires s.threads[sleeper].Idle? && s.threads[clearer].Idle?
    ensures var end := Exec(s, EnqueueToSleep(sleeper, x) + WholeClear(clearer));
            && end == Some(At(s, sleeper, EnqAsleep(x)).(items := [], removed := s.removed + s.items))
            && Quiet(end.value) && !Covered(end.value)
  {
    FullQueuePutsToSleep(s, sleeper, x);
    var asleep := At(s, sleeper, EnqAsleep(x));
    ExecConcat(s, EnqueueToSleep(sleeper, x), WholeClear(clearer));
    WholeClearEmpties(asleep, clearer);
    assert asleep.threads[clearer := Idle] == asleep.threads;
    var end := asleep.(items := [], removed := s.removed + s.items);
    SleeperUncovered(end, sleeper);
  }

  // The lost wakeup is reachable

  /** An `enqueue` by `t` that finds room. */
  function WholeEnqueue<T>(t: nat, x: T): seq<Action<T>> {
    [CallEnqueue(t, x)] + [Go(t, 0)] + [Go(t, 0)] + [Go(t, 0)] + [Go(t, 0)]
  }

  lemma EnqueueUntilNotify<T>(s: State<T>, t: nat, x: T)
    requires t < |s.threads| && s.threads[t].Idle? && s.lock == None && |s.items| < s.capacity && !s.closed
    ensures Exec(s, [CallEnqueue(t, x)] + [Go(t, 0)] + [Go(t, 0)] + [Go(t, 0)]) ==
            Some(At(s, t, EnqNotify).(items := s.items + [x], enqueued := s.enqueued + [x]))
  {
    var a: seq<Action<T>> := [CallEnqueue(t, x)];
    Exec1(s, CallEnqueue(t, x));
    ExecThen(s, a, Go(t, 0));
    ExecThen(s, a + [Go(t, 0)], Go(t, 0));
    ExecThen(s, a + [Go(t, 0)] + [Go(t, 0)], Go(t, 0));
    hide Exec;
    assert s.threads[t := EnqLock(x)][t := EnqTest(x)][t := EnqBody(x)][t := EnqNotify] == s.threads[t := EnqNotify];
  }

  lemma NotifyNobody<T>(s: State<T>, t: nat)
    requires t < |s.threads| && s.threads[t].EnqNotify? && !SomeoneIs(s, DeqSleeper)
    ensures Do(s, Go(t, 0)) == Some(At(s, t, Idle))
  {
  }

  lemma WholeEnqueueAppends<T>(s: State<T>, t: nat, x: T)
    requires t < |s.threads| && s.threads[t].Idle? && s.lock == None && |s.items| < s.capacity && !s.closed
    requires !SomeoneIs(s, DeqSleeper)
    ensures Exec(s, WholeEnqueue(t, x)) == Some(s.(items := s.items + [x], enqueued := s.enqueued + [x]))
  {
    hide Exec, Step, Do;
    EnqueueUntilNotify(s, t, x);
    var owing := At(s, t, EnqNotify).(items := s.items + [x], enqueued := s.enqueued + [x]);
    ExecThen(s, [CallEnqueue(t, x)] + [Go(t, 0)] + [Go(t, 0)] + [Go(t, 0)], Go(t, 0));
    assert !SomeoneIs(owing, DeqSleeper);
    NotifyNobody(owing, t);
    assert s.threads[t := EnqNotify][t := Idle] == s.threads;
  }

  /** Thread 0 enqueues all of `xs`. */
  function EnqueueAll<T>(xs: seq<T>): seq<Action<T>> {
    if xs == [] then [] else EnqueueAll(xs[..|xs| - 1]) + WholeEnqueue(0, xs[|xs| - 1])
  }

  lemma {:induction false} EnqueueAllFills<T>(capacity: nat, threads: nat, xs: seq<T>)
    requires threads > 0 && |xs| <= capacity
    ensures Exec(Init(capacity, threads), EnqueueAll(xs)) ==
            Some(Init<T>(capacity, threads).(items := xs, enqueued := xs))
  {
    hide Exec, WholeEnqueue, Init;
    if xs == [] {
      EnqueueNone<T>(capacity, threads);
    } else {
      var n := |xs| - 1;
      EnqueueAllFills(capacity, threads, xs[..n]);
      EnqueueOneMore<T>(capacity, threads, xs[..n], xs[n]);
      ExecConcat(Init(capacity, threads), EnqueueAll(xs[..n]), WholeEnqueue(0, xs[n]));
      assert xs[..n] + [xs[n]] == xs;
    }
  }

  lemma EnqueueNone<T>(capacity: nat, threads: nat)
    ensures Exec(Init<T>(capacity, threads), []) == Some(Init<T>(capacity, threads).(items := [], enqueued := []))
  {
  }

  lemma EnqueueOneMore<T>(capacity: nat, threads: nat, xs: seq<T>, x: T)
    requires threads > 0 && |xs| < capacity
    ensures Exec(Init<T>(capacity, threads).(items := xs, enqueued := xs), WholeEnqueue(0, x)) ==
            Some(Init<T>(capacity, threads).(items := xs + [x], enqueued := xs + [x]))
  {
    hide Exec, WholeEnqueue;
    WholeEnqueueAppends(Init<T>(capacity, threads).(items := xs, enqueued := xs), 0, x);
  }

  /**
   At every capacity and with any two threads or more, a run from the start ends that way: fill
   the queue, fall asleep in one more `enqueue`, `clear`. All is quiet, the queue is empty and
   open, and thread 0 sleeps in `enqueue`.
   */
  lemma LostWakeupIsReachable<T>(capacity: nat, threads: nat, xs: seq<T>, x: T)
    requires 0 < capacity == |xs| && threads >= 2
    ensures var end := Exec(Init(capacity, threads), EnqueueAll(xs) + (EnqueueToSleep(0, x) + WholeClear(1)));
            && end.Some? && end.value.items == [] && !end.value.closed
            && Quiet(end.value) && end.value.threads == seq(threads, _ => Idle)[0 := EnqAsleep(x)]
            && !Covered(end.value)
  {
    EnqueueAllFills(capacity, threads, xs);
    var full := Init<T>(capacity, threads).(items := xs, enqueued := xs);
    ClearLosesWakeup(full, 0, 1, x);
    ExecConcat(Init(capacity, threads), EnqueueAll(xs), EnqueueToSleep(0, x) + WholeClear(1));
  }

  lemma SleeperUncovered<T>(s: State<T>, t: nat)
    requires Quiet(s) && |s.items| < s.capacity && !s.closed && t < |s.threads| && s.threads[t].EnqAsleep?
    ensures !Covered(s)
  {
    CountPositive(s.threads, t);
    QuietCounts(s, OwesNotFull);
    QuietCounts(s, EnqActive);
  }
}
