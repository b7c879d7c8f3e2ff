/**
 What happens to the indices of the second engine in every run at the level of loads and stores,
 whether its two pushers respect each other or not: how many are missing, and when none is.
 */
module PipelineV2Loss {
  import opened Words
  import opened Wrappers
  import opened RingBuffers
  import opened PipelineV2Steps
  import Core = PipelineV2
  import TwoPushers

  /** The program counters alone, as the index machine has them. */
  ghost function Pcs(s: State): Core.State {
    Core.State(|s.ready.buffer|, [], [], s.running, s.io, s.consumer, 0, 0)
  }

  /**
   The indices accounted for: in the threads' hands, in `ready`, pushed to `free` and not popped,
   or refused there.
   */
  ghost function Total(s: State): int
    requires Core.PcsInRange(Pcs(s))
  {
    |Core.IoHand(Pcs(s))| + |Core.ConsumerHand(Pcs(s))| + (|s.readyHistory.pushed| - s.readyHistory.popped)
    + (|s.free.history.pushed| - s.free.history.popped) + |s.free.refused|
  }

  ghost predicate CallsFit(s: State) {
    && (s.free.io.Popping? ==> s.io.Reserve? && |s.io.hand| < Core.BATCH)
    && (s.free.io.Pushing? ==>
          && s.readyPush.None?
          && (|| (s.io.Publish? && s.io.i < s.io.n) || s.io.Fallback? || (s.io.Release? && s.io.i < |s.io.hand|)))
    && (s.readyPush.Some? ==>
          s.free.io.Between? && s.io.Publish? && s.io.i < s.io.n && !s.readyPush.value.PushDone?)
    && (s.free.other.Some? ==> s.consumer.GiveBack? && s.consumer.i < |s.consumer.hand|)
    && (s.readyPop.Some? ==> s.consumer.Drain? && |s.consumer.hand| < Core.BATCH && !s.readyPop.value.PopDone?)
  }

  ghost predicate RingsFit(s: State) {
    && TwoPushers.WordsOk(s.free) && TwoPushers.Scars(s.free) && |s.free.ring.buffer| == |s.ready.buffer|
    && ReadyOk(s)
  }

  /** What every run keeps, clean or not. */
  ghost predicate Accounted(s: State) {
    && RingsFit(s) && Core.PcsInRange(Pcs(s)) && CallsFit(s)
    && (s.io.LoopHead? && s.running ==> s.io.left == []) && (s.io.Receive? ==> s.io.hand != [])
    && Total(s) == |s.ready.buffer|
  }

  lemma AccountedIsSafe(s: State)
    requires Accounted(s)
    ensures Safe(s)
  {
  }

  // Accesses to `free`

  lemma FreeFits(s: State, a: TwoPushers.Action)
    requires RingsFit(s)
    ensures RingsFit(s.(free := TwoPushers.Do(s.free, a)))
  {
    TwoPushers.DoKeepsWords(s.free, a);
    TwoPushers.DoKeepsScars(s.free, a);
    hide TwoPushers.Do, TwoPushers.WordsOk, TwoPushers.Scars;
    assert |TwoPushers.Do(s.free, a).ring.buffer| == |s.free.ring.buffer|;
  }

  /** A push to `free` returns by storing the tail or by being refused, and the count of both goes up by one. */
  lemma IoPushCounts(f: TwoPushers.Race)
    requires TwoPushers.WordsOk(f) && f.io.Pushing?
    ensures var f' := TwoPushers.Do(f, TwoPushers.IoGo);
            && f'.other == f.other && !f'.io.Popping? && f'.history.popped == f.history.popped
            && |f'.history.pushed| + |f'.refused| == |f.history.pushed| + |f.refused|
               + (if f'.io.Between? then 1 else 0)
  {
    hide BitAnd;
  }

  lemma OtherPushCounts(f: TwoPushers.Race)
    requires TwoPushers.WordsOk(f) && f.other.Some?
    ensures var f' := TwoPushers.Do(f, TwoPushers.OtherGo);
            && f'.io == f.io && f'.history.popped == f.history.popped
            && |f'.history.pushed| + |f'.refused| == |f.history.pushed| + |f.refused|
               + (if f'.other.None? then 1 else 0)
  {
    hide BitAnd;
  }

  lemma PopCounts(f: TwoPushers.Race)
    requires TwoPushers.WordsOk(f) && f.io.Popping?
    ensures var q, f' := f.io.pop, TwoPushers.Do(f, TwoPushers.IoGo);
            && f'.other == f.other && !f'.io.Pushing?
            && f'.history.pushed == f.history.pushed && f'.refused == f.refused
            && f'.history.popped == f.history.popped + (if q.PopStoreHead? then 1 else 0)
            && (q.PopStoreHead? ==> f'.io.Between?)
  {
    hide BitAnd;
  }

  lemma BeginFits(f: TwoPushers.Race, f': TwoPushers.Race, x: nat)
    requires TwoPushers.WordsOk(f) && TwoPushers.Scars(f)
    requires (f.io.Between? && f' == f.(io := TwoPushers.Pushing(PushLoadHead(x)), bag := f'.bag))
          || (f.other.None? && f' == f.(other := Some(PushLoadHead(x)), bag := f'.bag))
    ensures TwoPushers.WordsOk(f') && TwoPushers.Scars(f')
  {
  }

  // IO steps

  lemma IoPushKeeps(s: State, o: Core.Oracle)
    requires Accounted(s) && Safe(s) && s.free.io.Pushing?
    ensures Accounted(IoStep(s, o))
  {
    var s' := IoStep(s, o);
    FreeFits(s, TwoPushers.IoGo);
    IoPushCounts(s.free);
    assert s' == s.(free := TwoPushers.Do(s.free, TwoPushers.IoGo), io := s'.io);
    hide TwoPushers.Do, TwoPushers.WordsOk, TwoPushers.Scars, ReadyOk;
  }

  lemma ReserveKeeps(s: State, o: Core.Oracle)
    requires Accounted(s) && Safe(s) && s.io.Reserve? && |s.io.hand| < Core.BATCH
    ensures Accounted(IoStep(s, o))
  {
    var s' := IoStep(s, o);
    FreeFits(s, if s.free.io.Popping? then TwoPushers.IoGo else TwoPushers.IoPop);
    if s.free.io.Popping? {
      PopCounts(s.free);
      assert s' == s.(free := TwoPushers.Do(s.free, TwoPushers.IoGo), io := s'.io);
      hide TwoPushers.Do, TwoPushers.WordsOk, TwoPushers.Scars, ReadyOk;
    } else {
      hide TwoPushers.WordsOk, TwoPushers.Scars, ReadyOk;
    }
  }

  lemma BeginKeeps(s: State, o: Core.Oracle)
    requires Accounted(s) && Safe(s) && s.free.io.Between? && s.readyPush.None?
    requires (s.io.Publish? && s.io.i < s.io.n) || s.io.Fallback? || (s.io.Release? && s.io.i < |s.io.hand|)
    ensures Accounted(IoStep(s, o))
  {
    var s', x := IoStep(s, o), s.io.hand[s.io.i];
    BeginFits(s.free, BeginIoPush(s, x).free, x);
  }

  lemma ReadyPushKeeps(s: State, o: Core.Oracle)
    requires Accounted(s) && Safe(s) && s.readyPush.Some?
    ensures Accounted(IoStep(s, o))
  {
    var s', p := IoStep(s, o), s.readyPush.value;
    PushStepKeeps(s.ready, s.readyHistory, p, ReadyPopper(s));
    assert |s'.ready.buffer| == |s.ready.buffer| && s'.free == s.free;
    hide TwoPushers.WordsOk, TwoPushers.Scars, BitAnd;
  }

  lemma LocalKeeps(s: State, o: Core.Oracle)
    requires Accounted(s) && Safe(s) && s.free.io.Between? && s.readyPush.None? && !s.io.Fallback?
    requires !(s.io.Reserve? && |s.io.hand| < Core.BATCH)
    requires !(s.io.Publish? && s.io.i < s.io.n) && !(s.io.Release? && s.io.i < |s.io.hand|)
    ensures Accounted(IoStep(s, o))
  {
    var s' := IoStep(s, o);
    assert s' == s.(io := s'.io, running := s'.running);
    hide TwoPushers.WordsOk, TwoPushers.Scars, Represents, PusherKnows, PopperKnows;
  }

  lemma IoKeeps(s: State, o: Core.Oracle)
    requires Accounted(s) && Safe(s)
    ensures Accounted(IoStep(s, o))
  {
    if s.free.io.Pushing? {
      IoPushKeeps(s, o);
    } else if s.readyPush.Some? {
      ReadyPushKeeps(s, o);
    } else if s.io.Reserve? && |s.io.hand| < Core.BATCH {
      ReserveKeeps(s, o);
    } else if (s.io.Publish? && s.io.i < s.io.n) || s.io.Fallback? || (s.io.Release? && s.io.i < |s.io.hand|) {
      BeginKeeps(s, o);
    } else {
      LocalKeeps(s, o);
    }
  }

  // Consumer steps

  lemma GiveBackKeeps(s: State)
    requires Accounted(s) && Safe(s) && s.consumer.GiveBack? && s.consumer.i < |s.consumer.hand|
    ensures Accounted(ConsumerStep(s))
  {
    var s' := ConsumerStep(s);
    if s.free.other.None? {
      BeginFits(s.free, s'.free, s.consumer.hand[s.consumer.i]);
    } else {
      FreeFits(s, TwoPushers.OtherGo);
      OtherPushCounts(s.free);
      assert s' == s.(free := TwoPushers.Do(s.free, TwoPushers.OtherGo), consumer := s'.consumer);
      hide TwoPushers.Do, TwoPushers.WordsOk, TwoPushers.Scars, ReadyOk;
    }
  }

  lemma DrainKeeps(s: State)
    requires Accounted(s) && Safe(s) && s.consumer.Drain? && |s.consumer.hand| < Core.BATCH
    ensures Accounted(ConsumerStep(s))
  {
    var s' := ConsumerStep(s);
    hide TwoPushers.WordsOk, TwoPushers.Scars, BitAnd, PusherKnows;
    if s.readyPop.Some? {
      PopStepKeeps(s.ready, s.readyHistory, ReadyPusher(s), s.readyPop.value);
      hide Represents;
      assert s' == s.(ready := s'.ready, readyHistory := s'.readyHistory,
                      readyPop := s'.readyPop, consumer := s'.consumer);
      assert |s'.ready.buffer| == |s.ready.buffer|;
    } else {
      hide Represents;
    }
  }

  lemma OtherConsumerKeeps(s: State)
    requires Accounted(s) && Safe(s) && !(s.consumer.GiveBack? && s.consumer.i < |s.consumer.hand|)
    requires !(s.consumer.Drain? && |s.consumer.hand| < Core.BATCH)
    ensures Accounted(ConsumerStep(s))
  {
    var s' := ConsumerStep(s);
    assert s' == s.(consumer := s'.consumer, processed := s'.processed, emptyHead := s'.emptyHead);
    hide TwoPushers.WordsOk, TwoPushers.Scars, Represents, PusherKnows, PopperKnows;
  }

  lemma ConsumerKeeps(s: State)
    requires Accounted(s) && Safe(s)
    ensures Accounted(ConsumerStep(s))
  {
    if s.consumer.GiveBack? && s.consumer.i < |s.consumer.hand| {
      GiveBackKeeps(s);
    } else if s.consumer.Drain? && |s.consumer.hand| < Core.BATCH {
      DrainKeeps(s);
    } else {
      OtherConsumerKeeps(s);
    }
  }

  lemma StepKeeps(s: State, s': State)
    requires Accounted(s) && Next(s, s')
    ensures Accounted(s')
  {
    if s' == ConsumerStep(s) {
      ConsumerKeeps(s);
    } else if s' == s.(running := false) {
      hide TwoPushers.WordsOk, TwoPushers.Scars, Represents;
    } else {
      var o :| s' == IoStep(s, o);
      IoKeeps(s, o);
    }
  }

  lemma InitAccounted(s: State)
    requires Init(s)
    ensures Accounted(s)
  {
  }

  lemma {:induction false} RunKeeps(run: seq<State>, i: nat)
    requires Run(run) && i < |run|
    ensures Accounted(run[i])
  {
    RunStarts(run);
    if i == 0 {
      InitAccounted(run[0]);
    } else {
      RunKeeps(run, i - 1);
      RunSteps(run, i - 1);
      StepKeeps(run[i - 1], run[i]);
    }
  }

  /**
   For every run of the second engine at the level of loads and stores, at every moment at which no
   thread holds the tail of `free`: counting what both threads hold, what is ready, and the
   positions of `free` from head to tail, exactly `Lost` indices are missing; and none is missing
   if and only if no pusher ever loaded the tail while the other held it and no push was ever
   refused on a stale head. Then every single index has one holder.
   */
  lemma NothingLostIff(run: seq<State>, i: nat)
    requires Run(run) && i < |run|
    ensures var s := run[i]; var f := s.free;
            && Core.PcsInRange(Pcs(s))
            && (!TwoPushers.IoHolds(f) && !TwoPushers.OtherHolds(f) ==>
                  && |Core.IoHand(Pcs(s))| + |Core.ConsumerHand(Pcs(s))|
                     + (|s.readyHistory.pushed| - s.readyHistory.popped)
                     + (f.tail - f.history.popped) + TwoPushers.Lost(f) == |s.ready.buffer|
                  && f.ring.tail == f.tail % TWO_64 && f.ring.head == f.history.popped % TWO_64
                  && TwoPushers.Lost(f) >= 0 && (TwoPushers.Lost(f) == 0 <==> Clean(s)))
            && (Clean(s) ==> f.history.Valid() && s.readyHistory.Valid() && Core.Owned(View(s)))
  {
    RunKeeps(run, i);
    if Clean(run[i]) {
      CleanRunKeeps(run, i);
    }
  }
}
