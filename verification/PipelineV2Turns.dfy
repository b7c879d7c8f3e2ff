/**
 What each thread of the second engine does in one turn when the other does not move, and why the
 engine stops: the control flow of `io_loop` and `process`, batch by batch.
 */
module PipelineV2Turns {
  import opened PipelineV2

  function Min(a: nat, b: nat): nat {
    if a < b then a else b
  }

  // The IO thread alone

  /** After one step of the IO thread for each answer of the environment. */
  ghost function IoAlone(s: State, os: seq<Oracle>): (r: State)
    requires Invariant(s)
    ensures Invariant(r)
  {
    if os == [] then s
    else
      var n := |os| - 1;
      var m := IoAlone(s, os[..n]);
      IoKeeps(m, os[n]);
      IoStep(m, os[n])
  }

  lemma {:induction false} IoAloneAdds(s: State, a: seq<Oracle>, b: seq<Oracle>)
    requires Invariant(s)
    ensures IoAlone(IoAlone(s, a), b) == IoAlone(s, a + b)
    decreases |b|
  {
    hide Invariant, IoStep;
    if b == [] {
      assert a + b == a;
    } else {
      var n := |b| - 1;
      IoAloneAdds(s, a, b[..n]);
      assert (a + b)[..|a + b| - 1] == a + b[..n];
    }
  }

  lemma IoAloneOne(s: State, o: Oracle)
    requires Invariant(s)
    ensures PcsInRange(s) && Invariant(IoStep(s, o)) && IoAlone(s, [o]) == IoStep(s, o)
  {
    IoKeeps(s, o);
    assert [o][..0] == [];
    assert IoAlone(s, []) == s;
  }

  lemma IoAloneThen(s: State, os: seq<Oracle>, o: Oracle, m: State)
    requires Invariant(s) && IoAlone(s, os) == m
    ensures Invariant(m) && PcsInRange(m) && IoAlone(s, os + [o]) == IoStep(m, o)
  {
    IoAloneOne(m, o);
    IoAloneAdds(s, os, [o]);
  }

  lemma IoAloneNone(s: State)
    requires Invariant(s)
    ensures IoAlone(s, []) == s && PcsInRange(s)
  {
  }

  /** A step that moves an index. */
  lemma MovesIndex(s: State, o: Oracle)
    requires Invariant(s) && IoTransfers(s)
    ensures PcsInRange(s)
    ensures IoStep(s, o) == if s.io.Reserve? then Reserved(s) else if s.io.Release? then Released(s)
                            else if o.bad then Rejected(s) else Published(s)
  {
    IoTransferStep(s, o);
  }

  /** An answer where none is asked for. */
  const ANY := Oracle(0, false)

  function Anys(n: nat): (os: seq<Oracle>)
    ensures |os| == n
  {
    seq(n, _ => ANY)
  }

  lemma AnysMore(n: nat)
    ensures Anys(n + 1) == Anys(n) + [ANY]
  {
  }

  /** Reserving: the oldest free indices, up to a full batch of 32. */
  lemma {:induction false} ReserveSome(s: State, n: nat)
    requires Invariant(s) && s.io.Reserve? && |s.io.hand| + n <= 32 && n <= |s.free|
    ensures IoAlone(s, Anys(n)) == s.(free := s.free[n..], io := Reserve(s.io.hand + s.free[..n], s.io.draining))
  {
    hide IoAlone, Invariant, IoStep;
    if n == 0 {
      IoAloneNone(s);
      assert Anys(0) == [] && s.io.hand + s.free[..0] == s.io.hand;
    } else {
      ReserveSome(s, n - 1);
      AnysMore(n - 1);
      var m := IoAlone(s, Anys(n - 1));
      IoAloneThen(s, Anys(n - 1), ANY, m);
      MovesIndex(m, ANY);
      assert s.free[n - 1..][0] == s.free[n - 1] && s.free[n - 1..][1..] == s.free[n..];
      assert s.io.hand + s.free[..n - 1] + [s.free[n - 1]] == s.io.hand + s.free[..n];
    }
  }

  /** Reserving from the start: a batch to receive into, or back to the head of the loop. */
  lemma ReserveBatch(s: State)
    requires Invariant(s) && s.io.Reserve? && s.io.hand == []
    ensures var n := Min(32, |s.free|);
            IoAlone(s, Anys(n) + [ANY]) ==
            if n == 0 then s.(io := LoopHead([]))
            else s.(free := s.free[n..], io := Receive(s.free[..n], s.io.draining))
  {
    hide IoAlone, Invariant;
    var n := Min(32, |s.free|);
    ReserveSome(s, n);
    var m := IoAlone(s, Anys(n));
    assert [] + s.free[..n] == s.free[..n];
    IoAloneThen(s, Anys(n), ANY, m);
    ReserveEnds(m);
    assert n == 0 ==> s.free[..n] == [] && s.free[n..] == s.free;
  }

  /**
   A turn at the head of the loop while the engine runs: the IO thread asks the kernel for frames
   with as many of the oldest free indices as there are, at most 32; with none it starts over. Once
   the engine is stopped, it leaves with what it holds.
   */
  lemma ReserveTurn(s: State)
    requires Invariant(s) && s.io.LoopHead?
    ensures var n := Min(32, |s.free|);
            if !s.running then IoAlone(s, [ANY]) == s.(io := IoDone(s.io.left))
            else if n == 0 then IoAlone(s, [ANY] + (Anys(0) + [ANY])) == s
            else IoAlone(s, [ANY] + (Anys(n) + [ANY])) == s.(free := s.free[n..], io := Receive(s.free[..n], false))
  {
    hide IoAlone, Invariant;
    IoAloneOne(s, ANY);
    if s.running {
      LeavesNothing(s);
      var s1 := s.(io := Reserve([], false));
      assert IoStep(s, ANY) == s1;
      ReserveBatch(s1);
      IoAloneAdds(s, [ANY], Anys(Min(32, |s.free|)) + [ANY]);
    }
  }

  lemma LeavesNothing(s: State)
    requires Invariant(s) && s.io.LoopHead? && s.running
    ensures s.io == LoopHead([])
  {
  }

  lemma ReserveEnds(s: State)
    requires PcsInRange(s) && s.io.Reserve? && (|s.io.hand| == 32 || s.free == [])
    ensures IoStep(s, ANY) == s.(io := if s.io.hand != [] then Receive(s.io.hand, s.io.draining) else LoopHead([]))
  {
  }

  /** Where the checked frames of a batch go: the indices of the good ones, and of the bad ones. */
  function Good(xs: seq<nat>, bads: seq<bool>): seq<nat>
    requires |bads| <= |xs|
  {
    if bads == [] then []
    else
      var n := |bads| - 1;
      Good(xs, bads[..n]) + if bads[n] then [] else [xs[n]]
  }

  function Bad(xs: seq<nat>, bads: seq<bool>): seq<nat>
    requires |bads| <= |xs|
  {
    if bads == [] then []
    else
      var n := |bads| - 1;
      Bad(xs, bads[..n]) + if bads[n] then [xs[n]] else []
  }

  function Verdicts(bads: seq<bool>): (os: seq<Oracle>)
    ensures |os| == |bads|
  {
    seq(|bads|, i requires 0 <= i < |bads| => Oracle(0, bads[i]))
  }

  lemma {:induction false} PublishSome(s: State, bads: seq<bool>)
    requires Invariant(s) && s.io.Publish? && s.io.i == 0 && |bads| <= s.io.n
    ensures IoAlone(s, Verdicts(bads)) ==
            s.(ready := s.ready + Good(s.io.hand, bads), free := s.free + Bad(s.io.hand, bads),
               drops := s.drops + |Bad(s.io.hand, bads)|, io := Publish(s.io.hand, s.io.n, |bads|))
  {
    hide IoAlone, Invariant, IoStep;
    if bads == [] {
      IoAloneNone(s);
      assert Verdicts(bads) == [] && s.ready + [] == s.ready && s.free + [] == s.free;
    } else {
      var n := |bads| - 1;
      PublishSome(s, bads[..n]);
      assert Verdicts(bads) == Verdicts(bads[..n]) + [Oracle(0, bads[n])];
      var m := IoAlone(s, Verdicts(bads[..n]));
      IoAloneThen(s, Verdicts(bads[..n]), Oracle(0, bads[n]), m);
      MovesIndex(m, Oracle(0, bads[n]));
      var x := s.io.hand[n];
      assert s.ready + Good(s.io.hand, bads[..n]) + [x] == s.ready + (Good(s.io.hand, bads[..n]) + [x]);
      assert s.free + Bad(s.io.hand, bads[..n]) + [x] == s.free + (Bad(s.io.hand, bads[..n]) + [x]);
    }
  }

  lemma {:induction false} ReleaseSome(s: State, n: nat)
    requires Invariant(s) && s.io.Release? && s.io.i + n <= |s.io.hand|
    ensures IoAlone(s, Anys(n)) ==
            s.(free := s.free + s.io.hand[s.io.i..s.io.i + n], io := Release(s.io.hand, s.io.i + n, s.io.next))
  {
    hide IoAlone, Invariant, IoStep;
    if n == 0 {
      IoAloneNone(s);
      assert Anys(0) == [] && s.io.hand[s.io.i..s.io.i] == [] && s.free + [] == s.free;
    } else {
      ReleaseSome(s, n - 1);
      AnysMore(n - 1);
      var m := IoAlone(s, Anys(n - 1));
      IoAloneThen(s, Anys(n - 1), ANY, m);
      MovesIndex(m, ANY);
      var k := s.io.i + n - 1;
      assert s.io.hand[s.io.i..k] + [s.io.hand[k]] == s.io.hand[s.io.i..k + 1];
    }
  }

  lemma ReleaseAll(s: State)
    requires Invariant(s) && s.io.Release? && s.io.i <= |s.io.hand|
    ensures IoAlone(s, Anys(|s.io.hand| - s.io.i)) ==
            s.(free := s.free + s.io.hand[s.io.i..], io := Release(s.io.hand, |s.io.hand|, s.io.next))
  {
    hide IoAlone, Invariant;
    ReleaseSome(s, |s.io.hand| - s.io.i);
  }

  // From the receive on

  /** What is left of `s` when the IO thread has given back all of `hand`. */
  function HandedBack(s: State, hand: seq<nat>): State {
    s.(free := s.free + hand)
  }

  lemma InRange(s: State)
    requires Invariant(s)
    ensures PcsInRange(s) && (s.io.Release? ==> s.io.i <= |s.io.hand|) && (s.io.Receive? ==> s.io.hand != [])
  {
  }

  /**
   A receive that got frames, while the engine runs: the good ones of the batch are published in
   order, the bad ones and the unused indices given back, and the IO thread reserves again to
   drain the socket.
   */
  lemma BatchTurn(s: State, received: int, bads: seq<bool>)
    requires Invariant(s) && s.io.Receive? && s.running && received > 0 && |bads| == Min(received, |s.io.hand|)
    ensures var hand, n := s.io.hand, |bads|;
            IoAlone(s, [Oracle(received, false)] + [ANY] + Verdicts(bads) + [ANY] + Anys(|hand| - n) + [ANY]) ==
            s.(ready := s.ready + Good(hand, bads), free := s.free + Bad(hand, bads) + hand[n..],
               drops := s.drops + |Bad(hand, bads)|, io := Reserve([], true))
  {
    hide IoAlone, Invariant;
    var hand, n := s.io.hand, |bads|;
    var a := [Oracle(received, false)];
    IoAloneOne(s, Oracle(received, false));
    IoAloneThen(s, a, ANY, s.(io := CheckRunning(hand, n)));
    var s2 := s.(io := Publish(hand, n, 0));
    InRange(s);
    assert IoAlone(s, a + [ANY]) == s2;
    PublishSome(s2, bads);
    IoAloneAdds(s, a + [ANY], Verdicts(bads));
    var b := a + [ANY] + Verdicts(bads);
    IoAloneThen(s, b, ANY, IoAlone(s2, Verdicts(bads)));
    var s4 := IoAlone(s, b + [ANY]);
    assert s4.io == Release(hand, n, ReserveAgain);
    ReleaseAll(s4);
    IoAloneAdds(s, b + [ANY], Anys(|hand| - n));
    IoAloneThen(s, b + [ANY] + Anys(|hand| - n), ANY, IoAlone(s4, Anys(|hand| - n)));
  }

  /** A receive that got nothing: everything is given back, and the loop starts over. */
  lemma NothingTurn(s: State)
    requires Invariant(s) && s.io.Receive?
    ensures IoAlone(s, [ANY] + Anys(|s.io.hand|) + [ANY]) == HandedBack(s, s.io.hand).(io := LoopHead([]))
  {
    hide IoAlone, Invariant;
    InRange(s);
    IoAloneOne(s, ANY);
    var s1 := s.(io := Release(s.io.hand, 0, NextTurn));
    assert IoStep(s, ANY) == s1 && s.io.hand[0..] == s.io.hand;
    ReleaseAll(s1);
    IoAloneAdds(s, [ANY], Anys(|s.io.hand|));
    IoAloneThen(s, [ANY] + Anys(|s.io.hand|), ANY, IoAlone(s1, Anys(|s.io.hand|)));
  }

  /** A receive that failed, at the head of the loop or while draining:
      everything is given back, and the engine stops. */
  lemma FailedTurn(s: State, received: int)
    requires Invariant(s) && s.io.Receive? && s.running && received < 0
    ensures IoAlone(s, [Oracle(received, false)] + Anys(|s.io.hand|) + [ANY] + (if s.io.draining then [ANY] else [])) ==
            HandedBack(s, s.io.hand).(running := false, io := IoDone([]))
  {
    hide IoAlone, Invariant;
    InRange(s);
    var a, n := [Oracle(received, false)], |s.io.hand|;
    IoAloneOne(s, Oracle(received, false));
    var s1 := s.(io := Release(s.io.hand, 0, if s.io.draining then StopIfRunning else StopEngine));
    assert IoStep(s, Oracle(received, false)) == s1 && s.io.hand[0..] == s.io.hand;
    ReleaseAll(s1);
    IoAloneAdds(s, a, Anys(n));
    IoAloneThen(s, a + Anys(n), ANY, IoAlone(s1, Anys(n)));
    var b := a + Anys(n) + [ANY];
    if s.io.draining {
      IoAloneThen(s, b, ANY, IoAlone(s, b));
    } else {
      assert b + [] == b;
    }
  }

  // Why the engine stops

  /** The IO thread is on its way to stop the engine. */
  predicate Stopping(io: IoPc) {
    io.ErrorCheck? || (io.Release? && (io.next.StopEngine? || io.next.StopIfRunning?))
  }

  /** Steps that clear `running`, and what leads there. */
  lemma IoStopsIff(s: State, o: Oracle)
    requires ShapeOk(s)
    ensures s.running && !IoStep(s, o).running <==>
            s.running && (s.io.ErrorCheck? || (s.io.Release? && s.io.i == |s.io.hand| && s.io.next.StopEngine?))
    ensures Stopping(IoStep(s, o).io) ==> Stopping(s.io) || (s.io.Receive? && o.received < 0)
  {
  }

  /** This step was a receive that failed. */
  ghost predicate FailedReceive(s: State, s': State) {
    && PcsInRange(s) && s.io.Receive?
    && (exists o :: s' == IoStep(s, o)) && forall o :: s' == IoStep(s, o) ==> o.received < 0
  }

  lemma ReceiveFailed(s: State, s': State, o: Oracle)
    requires ShapeOk(s) && s.io.Receive? && s' == IoStep(s, o) && Stopping(s'.io)
    ensures FailedReceive(s, s')
  {
    forall p | s' == IoStep(s, p)
      ensures p.received < 0
    {
      IoStopsIff(s, p);
    }
  }

  lemma {:induction false} StoppingHasCause(run: seq<State>, i: nat) returns (j: nat)
    requires Run(run) && i < |run| && Stopping(run[i].io)
    ensures j < i && FailedReceive(run[j], run[j + 1])
  {
    hide Invariant, Next, FailedReceive;
    StartsIdle(run);
    InvariantAt(run, i - 1);
    StepAt(run, i - 1);
    if Stopping(run[i - 1].io) {
      j := StoppingHasCause(run, i - 1);
    } else {
      StepCause(run[i - 1], run[i]);
      j := i - 1;
    }
  }

  lemma StartsIdle(run: seq<State>)
    requires Run(run)
    ensures !Stopping(run[0].io)
  {
  }

  lemma StepAt(run: seq<State>, i: nat)
    requires Run(run) && i + 1 < |run|
    ensures Next(run[i], run[i + 1])
  {
  }

  lemma StepCause(s: State, s': State)
    requires ShapeOk(s) && Next(s, s') && Stopping(s'.io) && !Stopping(s.io)
    ensures FailedReceive(s, s')
  {
    ConsumerLeavesIo(s);
    var o :| s' == IoStep(s, o);
    IoStopsIff(s, o);
    ReceiveFailed(s, s', o);
  }

  lemma ConsumerLeavesIo(s: State)
    requires PcsInRange(s)
    ensures ConsumerStep(s).io == s.io && ConsumerStep(s).running == s.running
  {
  }

  lemma InvariantAt(run: seq<State>, i: nat)
    requires Run(run) && i < |run|
    ensures Invariant(run[i]) && ShapeOk(run[i])
  {
    RunKeeps(run, i);
  }

  /**
   In every run the engine stops for two reasons only: somebody stops it from outside, or a receive
   failed earlier and the IO thread, having given everything back, stops it.
   */
  lemma StopsOnlyOnError(run: seq<State>, i: nat) returns (j: nat)
    requires Run(run) && i + 1 < |run| && run[i].running && !run[i + 1].running
    requires run[i + 1] != run[i].(running := false)
    ensures j < i && FailedReceive(run[j], run[j + 1])
    ensures run[i].io.ErrorCheck?
            || (run[i].io.Release? && run[i].io.i == |run[i].io.hand| && run[i].io.next.StopEngine?)
  {
    hide Invariant;
    var s, s' := run[i], run[i + 1];
    InvariantAt(run, i);
    assert Next(s, run[i + 1]);
    ConsumerLeavesIo(s);
    var o :| s' == IoStep(s, o);
    IoStopsIff(s, o);
    j := StoppingHasCause(run, i);
  }

  // The consumer alone

  ghost function ConsumerAlone(s: State, n: nat): (r: State)
    requires Invariant(s)
    ensures Invariant(r)
  {
    if n == 0 then s
    else
      var m := ConsumerAlone(s, n - 1);
      ConsumerKeeps(m);
      ConsumerStep(m)
  }

  lemma {:induction false} ConsumerAloneAdds(s: State, m: nat, n: nat)
    requires Invariant(s)
    ensures ConsumerAlone(ConsumerAlone(s, m), n) == ConsumerAlone(s, m + n)
  {
    hide Invariant, ConsumerStep;
    if n > 0 {
      ConsumerAloneAdds(s, m, n - 1);
    }
  }

  lemma ConsumerAloneNone(s: State)
    requires Invariant(s)
    ensures ConsumerAlone(s, 0) == s
  {
  }

  lemma ConsumerAloneThen(s: State, k: nat, m: State)
    requires Invariant(s) && ConsumerAlone(s, k) == m
    ensures Invariant(m) && PcsInRange(m) && ConsumerAlone(s, k + 1) == ConsumerStep(m)
  {
  }

  lemma {:induction false} DrainSome(s: State, n: nat)
    requires Invariant(s) && s.consumer.Drain? && |s.consumer.hand| + n <= 32 && n <= |s.ready|
    ensures ConsumerAlone(s, n) == s.(ready := s.ready[n..], consumer := Drain(s.consumer.hand + s.ready[..n]))
  {
    hide ConsumerAlone, Invariant;
    if n == 0 {
      ConsumerAloneNone(s);
      assert s.consumer.hand + s.ready[..0] == s.consumer.hand;
    } else {
      DrainSome(s, n - 1);
      ConsumerAloneThen(s, n - 1, ConsumerAlone(s, n - 1));
      assert s.ready[n - 1..][0] == s.ready[n - 1] && s.ready[n - 1..][1..] == s.ready[n..];
      assert s.consumer.hand + s.ready[..n - 1] + [s.ready[n - 1]] == s.consumer.hand + s.ready[..n];
    }
  }

  lemma {:induction false} ProcessSome(s: State, n: nat)
    requires Invariant(s) && s.consumer.Process? && s.consumer.i == 0 && n <= |s.consumer.hand|
    ensures ConsumerAlone(s, n) == s.(processed := s.processed + n, consumer := Process(s.consumer.hand, n))
  {
    hide ConsumerAlone, Invariant;
    if n == 0 {
      ConsumerAloneNone(s);
    } else {
      ProcessSome(s, n - 1);
      ConsumerAloneThen(s, n - 1, ConsumerAlone(s, n - 1));
    }
  }

  lemma GivesBack(s: State)
    requires Invariant(s) && s.consumer.GiveBack? && s.consumer.i < |s.consumer.hand|
    ensures PcsInRange(s) && ConsumerStep(s) == GivenBack(s)
  {
    ConsumerTransferStep(s);
  }

  lemma {:induction false} GiveBackSome(s: State, n: nat)
    requires Invariant(s) && s.consumer.GiveBack? && s.consumer.i == 0 && n <= |s.consumer.hand|
    ensures ConsumerAlone(s, n) == s.(free := s.free + s.consumer.hand[..n], consumer := GiveBack(s.consumer.hand, n))
  {
    hide ConsumerAlone, Invariant, ConsumerStep;
    if n == 0 {
      ConsumerAloneNone(s);
      assert s.free + s.consumer.hand[..0] == s.free;
    } else {
      GiveBackSome(s, n - 1);
      var m := ConsumerAlone(s, n - 1);
      ConsumerAloneThen(s, n - 1, m);
      GivesBack(m);
      assert s.consumer.hand[..n - 1] + [s.consumer.hand[n - 1]] == s.consumer.hand[..n];
    }
  }

  lemma ProcessTurn(s: State, hand: seq<nat>)
    requires Invariant(s) && s.consumer == Drain(hand) && hand != [] && (|hand| == 32 || s.ready == [])
    ensures ConsumerAlone(s, |hand| + 2) == s.(processed := s.processed + |hand|, consumer := GiveBack(hand, 0))
  {
    hide ConsumerAlone, Invariant;
    var n := |hand|;
    ConsumerAloneNone(s);
    ConsumerAloneThen(s, 0, s);
    var s1 := s.(consumer := Process(hand, 0));
    assert ConsumerStep(s) == s1;
    ConsumerAloneInvariant(s, 1);
    ProcessSome(s1, n);
    ConsumerAloneAdds(s, 1, n);
    ConsumerAloneThen(s, 1 + n, ConsumerAlone(s1, n));
  }

  lemma GiveBackTurn(s: State, hand: seq<nat>)
    requires Invariant(s) && s.consumer == GiveBack(hand, 0)
    ensures ConsumerAlone(s, |hand| + 1) == s.(free := s.free + hand, consumer := WhileRunning)
  {
    hide ConsumerAlone, Invariant;
    GiveBackSome(s, |hand|);
    assert hand[..|hand|] == hand;
    ConsumerAloneThen(s, |hand|, ConsumerAlone(s, |hand|));
  }

  lemma HandTurn(s: State, hand: seq<nat>)
    requires Invariant(s) && s.consumer == Drain(hand) && hand != [] && (|hand| == 32 || s.ready == [])
    ensures ConsumerAlone(s, 2 * |hand| + 3) ==
            s.(processed := s.processed + |hand|, free := s.free + hand, consumer := WhileRunning)
  {
    hide ConsumerAlone, Invariant;
    ProcessTurn(s, hand);
    ConsumerAloneInvariant(s, |hand| + 2);
    GiveBackTurn(ConsumerAlone(s, |hand| + 2), hand);
    ConsumerAloneAdds(s, |hand| + 2, |hand| + 1);
  }

  lemma ConsumerAloneInvariant(s: State, n: nat)
    requires Invariant(s)
    ensures Invariant(ConsumerAlone(s, n))
  {
  }

  /**
   The consumer's turn at the head of its loop: as many of the oldest ready indices as there are, at
   most 32, are processed and given back in order, running or not; with none ready it starts over
   while the engine runs, and leaves otherwise.
   */
  lemma ConsumerTurn(s: State)
    requires Invariant(s) && s.consumer.WhileRunning?
    ensures var n, first := Min(32, |s.ready|), if s.running then 1 else 2;
            if n > 0 then
              ConsumerAlone(s, first + n + (2 * n + 3)) ==
              s.(ready := s.ready[n..], processed := s.processed + n, free := s.free + s.ready[..n])
            else ConsumerAlone(s, 2) == if s.running then s else s.(consumer := ConsumerDone)
  {
    hide ConsumerAlone, Invariant;
    var n, first := Min(32, |s.ready|), if s.running then 1 else 2;
    ConsumerAloneNone(s);
    ConsumerAloneThen(s, 0, s);
    ConsumerAloneThen(s, 1, ConsumerAlone(s, 1));
    if n > 0 {
      var s1 := s.(consumer := Drain([]));
      assert ConsumerAlone(s, first) == s1;
      ConsumerAloneInvariant(s, first);
      DrainSome(s1, n);
      assert [] + s.ready[..n] == s.ready[..n];
      ConsumerAloneAdds(s, first, n);
      var s2 := ConsumerAlone(s, first + n);
      ConsumerAloneInvariant(s, first + n);
      HandTurn(s2, s.ready[..n]);
      ConsumerAloneAdds(s, first + n, 2 * n + 3);
    }
  }
}
