/**
 What the calls of the blocking queue return: the steps inside the mutex are those of the circular
 buffer, and whole calls, made while nobody else is inside, fill, drain and close the queue.
 */
module MonitorCalls {
  import opened Wrappers
  import opened Monitors
  import BlockingQueues

  /**
   Inside the mutex, in every reachable state: `enqueue` appends its item exactly if the queue is not
   closed and refuses otherwise; `dequeue` refuses exactly if the queue is empty and closed, and
   otherwise takes the oldest item. That is what the circular buffer is proved to do.
   */
  lemma BodiesAgree<T>(s: State<T>, t: nat, u: nat)
    requires QueueOk(s) && t < |s.threads|
    ensures s.threads[t].EnqBody? ==>
              && Step(s, t, u).Some? && var s', x := Step(s, t, u).value, s.threads[t].x;
              && s'.items == BlockingQueues.AfterEnqueue(s.items, s.closed, x) && s'.dequeued == s.dequeued
              && (s'.enqueued == s.enqueued <==> s.closed) && (!s.closed ==> s'.enqueued == s.enqueued + [x])
    ensures s.threads[t].DeqBody? ==>
              && Step(s, t, u).Some? && var s' := Step(s, t, u).value;
              && s'.items == BlockingQueues.AfterDequeue(s.items).1 && s'.enqueued == s.enqueued
              && (s'.dequeued == s.dequeued <==> s.items == [] && s.closed)
              && (s'.dequeued != s.dequeued ==>
                    s.items != [] && BlockingQueues.AfterDequeue(s.items).0 == Some(s.items[0])
                    && s'.dequeued == s.dequeued + [s.items[0]])
  {
    assert PcOk(s, s.threads[t]);
  }

  /** A thread that sleeps may wake at any time, whether it was notified or not. */
  lemma SleeperMayWake<T>(s: State<T>, t: nat)
    requires t < |s.threads| && (s.threads[t].EnqAsleep? || s.threads[t].DeqAsleep?)
    ensures Do(s, Spurious(t)).Some? && var pc := Do(s, Spurious(t)).value.threads[t];
            pc == if s.threads[t].EnqAsleep? then EnqLock(s.threads[t].x) else DeqLock
  {
  }

  // Whole calls

  lemma ExecTwo<T>(s: State<T>, actions: seq<Action<T>>, m: State<T>,
                   a: Action<T>, b: Action<T>, m': State<T>, m'': State<T>)
    requires Exec(s, actions) == Some(m) && Do(m, a) == Some(m') && Do(m', b) == Some(m'')
    ensures Exec(s, actions + [a] + [b]) == Some(m'')
  {
    hide Do, Exec;
    ExecThen(s, actions, a);
    ExecThen(s, actions + [a], b);
  }

  /** A call of `t` up to and including its body. */
  function UpToBody<T>(call: Action<T>, t: nat): seq<Action<T>> {
    [] + [call] + [Go(t, 0)] + [Go(t, 0)] + [Go(t, 0)]
  }

  lemma UpToBodyRuns<T>(s: State<T>, call: Action<T>, t: nat, s1: State<T>, s2: State<T>, s3: State<T>, s4: State<T>)
    requires Do(s, call) == Some(s1) && Do(s1, Go(t, 0)) == Some(s2)
    requires Do(s2, Go(t, 0)) == Some(s3) && Do(s3, Go(t, 0)) == Some(s4)
    ensures Exec(s, UpToBody(call, t)) == Some(s4)
  {
    assert Exec(s, []) == Some(s);
    hide Do, Exec;
    ExecTwo(s, [], s, call, Go(t, 0), s1, s2);
    ExecTwo(s, [] + [call] + [Go(t, 0)], s2, Go(t, 0), Go(t, 0), s3, s4);
  }

  /** What the body of a `dequeue` by `t` leaves: what it takes, if there is anything. */
  function AfterBody<T>(s: State<T>, t: nat): State<T>
    requires t < |s.threads|
  {
    if s.items == [] then s
    else At(s, t, DeqNotify).(items := s.items[1..], dequeued := s.dequeued + [s.items[0]],
                              removed := s.removed + [s.items[0]])
  }

  lemma DequeueSteps<T>(s: State<T>, t: nat)
    requires t < |s.threads| && s.threads[t].Idle? && s.lock == None && (s.items != [] || s.closed)
    ensures var s1, s2 := At(s, t, DeqLock), At(s, t, DeqTest).(lock := Some(t));
            var s3 := At(s, t, DeqBody).(lock := Some(t));
            && Do(s, CallDequeue(t)) == Some(s1) && Do(s1, Go(t, 0)) == Some(s2) && Do(s2, Go(t, 0)) == Some(s3)
  {
    assert s.threads[t := DeqLock][t := DeqTest] == s.threads[t := DeqTest];
    assert s.threads[t := DeqTest][t := DeqBody] == s.threads[t := DeqBody];
  }

  lemma DequeueBodyStep<T>(s: State<T>, t: nat)
    requires t < |s.threads| && s.threads[t].Idle? && s.lock == None && (s.items != [] || s.closed)
    ensures Do(At(s, t, DeqBody).(lock := Some(t)), Go(t, 0)) == Some(AfterBody(s, t))
  {
    assert s.threads[t := DeqBody][t := Idle] == s.threads;
    assert s.threads[t := DeqBody][t := DeqNotify] == s.threads[t := DeqNotify];
  }

  lemma DequeueBodyRuns<T>(s: State<T>, t: nat)
    requires t < |s.threads| && s.threads[t].Idle? && s.lock == None && (s.items != [] || s.closed)
    ensures Exec(s, UpToBody(CallDequeue(t), t)) == Some(AfterBody(s, t))
  {
    hide Exec, Do, UpToBody;
    DequeueSteps(s, t);
    DequeueBodyStep(s, t);
    UpToBodyRuns(s, CallDequeue(t), t, At(s, t, DeqLock), At(s, t, DeqTest).(lock := Some(t)),
                 At(s, t, DeqBody).(lock := Some(t)), AfterBody(s, t));
  }

  lemma EnqueueRefused<T>(s: State<T>, t: nat, x: T)
    requires t < |s.threads| && s.threads[t].Idle? && s.lock == None && s.closed
    ensures Exec(s, UpToBody(CallEnqueue(t, x), t)) == Some(s)
  {
    var s1 := At(s, t, EnqLock(x));
    var s2 := At(s, t, EnqTest(x)).(lock := Some(t));
    var s3 := At(s, t, EnqBody(x)).(lock := Some(t));
    assert s.threads[t := EnqLock(x)][t := EnqTest(x)] == s.threads[t := EnqTest(x)];
    assert s.threads[t := EnqTest(x)][t := EnqBody(x)] == s.threads[t := EnqBody(x)];
    assert s.threads[t := EnqBody(x)][t := Idle] == s.threads;
    hide Exec;
    UpToBodyRuns(s, CallEnqueue(t, x), t, s1, s2, s3, s);
  }

  function WholeDequeue<T>(t: nat): seq<Action<T>> {
    UpToBody(CallDequeue(t), t) + [Go(t, 0)]
  }

  lemma NotifiesNobody<T>(s: State<T>, t: nat)
    requires t < |s.threads| && s.threads[t].DeqNotify? && !SomeoneIs(s, EnqSleeper)
    ensures Do(s, Go(t, 0)) == Some(At(s, t, Idle))
  {
  }

  /** What is left of `s` when its first `k` items have been dequeued. */
  function Drained<T>(s: State<T>, k: nat): State<T>
    requires k <= |s.items|
  {
    s.(items := s.items[k..], dequeued := s.dequeued + s.items[..k], removed := s.removed + s.items[..k])
  }

  lemma WholeDequeueTakes<T>(s: State<T>, t: nat)
    requires t < |s.threads| && s.threads[t].Idle? && s.lock == None && s.items != [] && !SomeoneIs(s, EnqSleeper)
    ensures Exec(s, WholeDequeue(t)) == Some(Drained(s, 1))
  {
    hide Exec, Do, UpToBody;
    DequeueBodyRuns(s, t);
    var owing := AfterBody(s, t);
    assert !SomeoneIs(owing, EnqSleeper);
    NotifiesNobody(owing, t);
    ExecThen(s, UpToBody(CallDequeue(t), t), Go(t, 0));
    assert s.threads[t := DeqNotify][t := Idle] == s.threads && s.items[..1] == [s.items[0]];
  }

  function Dequeues<T>(t: nat, k: nat): seq<Action<T>> {
    if k == 0 then [] else Dequeues(t, k - 1) + WholeDequeue(t)
  }

  lemma {:induction false} DequeueSome<T>(s: State<T>, t: nat, k: nat)
    requires t < |s.threads| && s.threads[t].Idle? && s.lock == None && k <= |s.items| && !SomeoneIs(s, EnqSleeper)
    ensures Exec(s, Dequeues(t, k)) == Some(Drained(s, k))
  {
    hide Exec, WholeDequeue, Drained, SomeoneIs;
    if k == 0 {
      DrainedNone(s);
    } else {
      DequeueSome(s, t, k - 1);
      DrainedMore(s, k - 1);
      WholeDequeueTakes(Drained(s, k - 1), t);
      ExecConcat(s, Dequeues(t, k - 1), WholeDequeue(t));
    }
  }

  lemma DrainedNone<T>(s: State<T>)
    ensures Exec(s, []) == Some(Drained(s, 0))
  {
    assert s.dequeued + [] == s.dequeued && s.removed + [] == s.removed;
  }

  lemma DrainedMore<T>(s: State<T>, k: nat)
    requires k < |s.items|
    ensures var m := Drained(s, k);
            && m.items != [] && Drained(m, 1) == Drained(s, k + 1) && m.threads == s.threads && m.lock == s.lock
            && (!SomeoneIs(s, EnqSleeper) ==> !SomeoneIs(m, EnqSleeper))
  {
    var m := Drained(s, k);
    assert m.items[..1] == [s.items[k]] && m.items[1..] == s.items[k + 1..];
    assert s.items[..k] + [s.items[k]] == s.items[..k + 1];
    assert s.dequeued + s.items[..k] + [s.items[k]] == s.dequeued + s.items[..k + 1];
    assert s.removed + s.items[..k] + [s.items[k]] == s.removed + s.items[..k + 1];
  }

  /**
   Draining a closed queue: with nobody waiting for room, as many calls of `dequeue` as there are
   items return exactly these, oldest first; the next one returns nothing, and so does `enqueue`.
   */
  lemma ClosedQueueDrains<T>(s: State<T>, t: nat, x: T)
    requires t < |s.threads| && s.threads[t].Idle? && s.lock == None && s.closed && !SomeoneIs(s, EnqSleeper)
    ensures var e := Exec(s, Dequeues(t, |s.items|));
            && e.Some? && e.value.items == [] && e.value.dequeued == s.dequeued + s.items
            && e.value.threads == s.threads && e.value.closed && e.value.enqueued == s.enqueued
            && Exec(e.value, UpToBody(CallDequeue(t), t)) == e
            && Exec(e.value, UpToBody(CallEnqueue(t, x), t)) == e
  {
    DequeueSome(s, t, |s.items|);
    hide Exec, UpToBody, Dequeues;
    assert s.items[..|s.items|] == s.items;
    var e := Drained(s, |s.items|);
    DequeueBodyRuns(e, t);
    EnqueueRefused(e, t, x);
  }

  /**
   A whole call of `close`: the queue is closed and keeps its items, and every thread that slept, in
   either wait, is awake and on its way back to the mutex.
   */
  lemma WholeCloseWakes<T>(s: State<T>, t: nat)
    requires t < |s.threads| && s.threads[t].Idle? && s.lock == None
    ensures var e := Exec(s, UpToBody(CallClose(t), t) + [Go(t, 0)]);
            && e.Some? && e.value == s.(closed := true, threads := e.value.threads)
            && |e.value.threads| == |s.threads| && e.value.threads[t] == Idle
            && forall v :: 0 <= v < |s.threads| ==> e.value.threads[v] == Awake(s.threads[v])
  {
    hide Exec, UpToBody, Do, WakeAll;
    var s4, s5 := AllFullWoken(s, t), AllWoken(s, t);
    CloseSteps(s, t);
    UpToBodyRuns(s, CallClose(t), t, At(s, t, CloseLock), At(s, t, CloseBody).(lock := Some(t)),
                 At(s, t, CloseNotifyFull).(closed := true), s4);
    ExecThen(s, UpToBody(CallClose(t), t), Go(t, 0));
    AllAreAwake(s, t);
  }

  /** After the first `notify_all` of a `close` by `t`. */
  function AllFullWoken<T>(s: State<T>, t: nat): State<T>
    requires t < |s.threads|
  {
    s.(closed := true, threads := WakeAll(s.threads[t := CloseNotifyFull], EnqSleeper)[t := CloseNotifyEmpty])
  }

  /** After the second. */
  function AllWoken<T>(s: State<T>, t: nat): State<T>
    requires t < |s.threads|
  {
    s.(closed := true, threads := WakeAll(AllFullWoken(s, t).threads, DeqSleeper)[t := Idle])
  }

  lemma CloseSteps<T>(s: State<T>, t: nat)
    requires t < |s.threads| && s.threads[t].Idle? && s.lock == None
    ensures var s1, s2 := At(s, t, CloseLock), At(s, t, CloseBody).(lock := Some(t));
            var s3 := At(s, t, CloseNotifyFull).(closed := true);
            && Do(s, CallClose(t)) == Some(s1) && Do(s1, Go(t, 0)) == Some(s2) && Do(s2, Go(t, 0)) == Some(s3)
            && Do(s3, Go(t, 0)) == Some(AllFullWoken(s, t)) && Do(AllFullWoken(s, t), Go(t, 0)) == Some(AllWoken(s, t))
  {
    hide WakeAll;
    assert s.threads[t := CloseLock][t := CloseBody] == s.threads[t := CloseBody];
    assert s.threads[t := CloseBody][t := CloseNotifyFull] == s.threads[t := CloseNotifyFull];
  }

  lemma AllAreAwake<T>(s: State<T>, t: nat)
    requires t < |s.threads| && s.threads[t].Idle?
    ensures var e := AllWoken(s, t);
            && |e.threads| == |s.threads| && e.threads[t] == Idle
            && forall v :: 0 <= v < |s.threads| ==> e.threads[v] == Awake(s.threads[v])
  {
  }
}
