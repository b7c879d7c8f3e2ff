/**
 What a whole call of `consume_frames` does in the stream server when the consumer does not move: by
 its individual accesses it computes exactly what the in-place code is proved to compute.
 */
module StreamServerTurns {
  import opened Wrappers
  import opened RingBuffers
  import opened Codec
  import opened LossyFifos
  import opened StreamServers
  import Pipeline = PipelineV1
  import PipelineV1Turns
  import FramePools
  import Reassembly

  /** After `k` steps of the IO thread alone; `e` is what it finds when it is between calls. */
  ghost function Alone(s: State, e: Event, k: nat): (r: State)
    requires Invariant(s)
    ensures Invariant(r)
  {
    if k == 0 then s
    else
      var m := Alone(s, e, k - 1);
      InvariantIsSafe(m);
      IoKeeps(m, e);
      IoStep(m, e)
  }

  lemma {:induction false} AloneAdds(s: State, e: Event, m: nat, n: nat)
    requires Invariant(s)
    ensures Alone(Alone(s, e, m), e, n) == Alone(s, e, m + n)
  {
    hide Invariant, Safe, IoStep;
    if n > 0 {
      AloneAdds(s, e, m, n - 1);
    }
  }

  lemma AloneOne(s: State, e: Event)
    requires Invariant(s)
    ensures Safe(s) && Alone(s, e, 1) == IoStep(s, e) && Invariant(IoStep(s, e))
  {
    hide Invariant, Safe, IoStep;
    InvariantIsSafe(s);
    IoKeeps(s, e);
    assert Alone(s, e, 0) == s;
  }

  lemma AloneStep(s: State, e: Event, k: nat)
    requires Invariant(s)
    ensures Safe(Alone(s, e, k)) && Alone(s, e, k + 1) == IoStep(Alone(s, e, k), e)
  {
    hide Invariant, Safe, IoStep;
    InvariantIsSafe(Alone(s, e, k));
  }

  // The engine alone

  /** The datagram matters only to an idle IO thread. */
  lemma BusyIgnores(e: Pipeline.State, d: Datagram, d': Datagram)
    requires Pipeline.Safe(e) && !e.io.IoIdle?
    ensures Pipeline.IoStep(e, d) == Pipeline.IoStep(e, d')
  {
  }

  lemma {:induction false} OfferedGrows(e: Pipeline.State, d: Datagram, j: nat, k: nat)
    requires Pipeline.Invariant(e) && j <= k
    ensures |PipelineV1Turns.IoAlone(e, d, j).offered| <= |PipelineV1Turns.IoAlone(e, d, k).offered|
    decreases k
  {
    hide Pipeline.Invariant, Pipeline.IoStep, Pipeline.Safe;
    if j < k {
      OfferedGrows(e, d, j, k - 1);
      var m := PipelineV1Turns.IoAlone(e, d, k - 1);
      PipelineV1Turns.IoAloneStep(e, d, k - 1, m);
      Pipeline.IoTakesUp(m, d);
    }
  }

  /** Until its turn with `d` is over, the IO thread is not idle. */
  lemma BusyUntilDone(e: Pipeline.State, d: Datagram, j: nat, k: nat)
    requires Pipeline.Invariant(e) && e.io.IoIdle? && 0 < j < k
    requires |PipelineV1Turns.IoAlone(e, d, k).offered| == |e.offered| + 1
    ensures !PipelineV1Turns.IoAlone(e, d, j).io.IoIdle?
  {
    hide Pipeline.Invariant, Pipeline.IoStep, Pipeline.Safe, PipelineV1Turns.IoAlone;
    PipelineV1Turns.IoAloneNone(e, d);
    PipelineV1Turns.IoAloneStep(e, d, 0, e);
    Pipeline.IoTakesUp(e, d);
    OfferedGrows(e, d, 1, j);
    var m := PipelineV1Turns.IoAlone(e, d, j);
    PipelineV1Turns.IoAloneStep(e, d, j, m);
    Pipeline.IoTakesUp(m, d);
    OfferedGrows(e, d, j + 1, k);
  }

  /** How many accesses the turn with a complete frame takes, and where it ends. */
  lemma FrameTurn(e: Pipeline.State, f: Frame) returns (k: nat)
    requires Pipeline.Invariant(e) && e.io.IoIdle?
    ensures k > 1 && var r := PipelineV1Turns.IoAlone(e, Datagram(f, false), k);
            && r.io.IoIdle? && |r.offered| == |e.offered| + 1
            && r.freeHistory.Valid() && r.readyHistory.Valid() && e.freeHistory.Valid() && e.readyHistory.Valid()
            && PoolOf(r, []) == Completed(PoolOf(e, []), f) && r.consumer == e.consumer && r.decoded == e.decoded
  {
    hide PipelineV1Turns.IoAlone, Pipeline.Invariant;
    var d := Datagram(f, false);
    PipelineV1Turns.IoTurn(e, d);
    PoolInRange(e);
    if e.freeHistory.popped == |e.freeHistory.pushed| {
      k := 3;
    } else {
      k := 53;
      var idx := PipelineV1Turns.FirstFree(e);
      assert PipelineV1Turns.IoAlone(e, d, k) == PipelineV1Turns.Published(e, d, idx);
      TakesFirst(e.freeHistory, idx);
      PushesLast(e.readyHistory, idx);
    }
  }

  lemma TakesFirst(h: History<nat>, idx: nat)
    requires h.popped < |h.pushed| && idx == h.pushed[h.popped]
    ensures h.Contents() != [] && h.Contents()[0] == idx && h.(popped := h.popped + 1).Contents() == h.Contents()[1..]
  {
  }

  lemma PushesLast(h: History<nat>, idx: nat)
    requires h.Valid()
    ensures h.(pushed := h.pushed + [idx]).Contents() == h.Contents() + [idx]
  {
  }

  // The pool as the in-place code sees it

  ghost function PoolOf(e: Pipeline.State, partial: seq<Byte>): Reassembly.Intake
    requires e.freeHistory.Valid() && e.readyHistory.Valid()
  {
    Reassembly.Intake(partial, e.freeHistory.Contents(), e.readyHistory.Contents(), e.slots, e.ioDrops)
  }

  /** Completing a frame where `ready` has room. */
  ghost function Completed(p: Reassembly.Intake, f: Frame): Reassembly.Intake
  {
    if p.free == [] then p.(partial := [], drops := p.drops + 1)
    else if p.free[0] >= |p.slots| then p
    else p.(partial := [], slots := p.slots[p.free[0] := f], free := p.free[1..], ready := p.ready + [p.free[0]])
  }

  lemma PoolInRange(e: Pipeline.State)
    requires Pipeline.Invariant(e)
    ensures e.freeHistory.Valid() && e.readyHistory.Valid()
    ensures forall j :: 0 <= j < |e.freeHistory.Contents()| ==> e.freeHistory.Contents()[j] < |e.slots|
    ensures e.freeHistory.Contents() != [] ==> |e.readyHistory.Contents()| < |e.slots|
  {
    forall j | 0 <= j < |e.freeHistory.Contents()|
      ensures e.freeHistory.Contents()[j] < |e.slots|
    {
      FreeInRange(e, e.freeHistory.Contents()[j]);
    }
  }

  lemma FreeInRange(e: Pipeline.State, x: nat)
    requires Pipeline.Owned(e) && x in e.freeHistory.Contents()
    ensures x < |e.slots|
  {
    FramePools.OccursIn(e.freeHistory.Contents(), x);
    assert Pipeline.Held(e, x) >= 1;
  }


  // One turn of the loop

  /** The IO thread is inside a call and about to copy. */
  ghost predicate Copying(s: State) {
    && s.call.Some? && s.engine.io.IoIdle?
    && s.call.value.c < |s.conns| && s.call.value.off < |s.call.value.data| && s.conns[s.call.value.c].have < WIRE_SIZE
  }

  function Taken(k: Call, have: nat): nat
    requires k.off <= |k.data| && have <= WIRE_SIZE
  {
    Reassembly.Min(|k.data| - k.off, WIRE_SIZE - have)
  }

  /** What copying makes of the connection. */
  ghost function Copied(s: State): Conn
    requires Copying(s)
  {
    var k := s.call.value;
    CopyIn(s.conns[k.c], k.data[k.off..k.off + Taken(k, s.conns[k.c].have)])
  }

  lemma CopyStep(s: State, e: Event)
    requires Copying(s) && Safe(s)
    ensures var k := s.call.value; var s' := IoStep(s, e);
            && s'.call == Some(k.(off := k.off + Taken(k, s.conns[k.c].have)))
            && (Copied(s).have < WIRE_SIZE ==> s' == s.(call := s'.call, conns := s.conns[k.c := Copied(s)]))
            && (Copied(s).have == WIRE_SIZE ==>
                  && s'.engine == Pipeline.IoStep(s.engine, Datagram(Copied(s).frame, false))
                  && s'.conns == s.conns[k.c := s'.conns[k.c]]
                  && s'.conns[k.c] == Copied(s).(begun := s'.conns[k.c].begun))
  {
    hide Pipeline.IoStep, Pipeline.Safe;
  }

  lemma PassOnStep(s: State, e: Event)
    requires Safe(s) && s.call.Some? && !s.engine.io.IoIdle?
    ensures IoStep(s, e) == PassOn(s, s.call.value)
  {
    hide Pipeline.IoStep, Pipeline.Safe;
  }

  /** While a completed frame is passed on, the server does what the engine does alone. */
  lemma {:induction false} PassOnFollows(s: State, e: Event, j: nat, n: nat)
    requires Invariant(s) && Copying(s) && Copied(s).have == WIRE_SIZE && Pipeline.Invariant(s.engine) && 0 < j <= n
    requires n > 1 && PipelineV1Turns.IoAlone(s.engine, Datagram(Copied(s).frame, false), n).io.IoIdle?
    requires |PipelineV1Turns.IoAlone(s.engine, Datagram(Copied(s).frame, false), n).offered| == |s.engine.offered| + 1
    ensures var s1, c := Alone(s, e, 1), s.call.value.c;
            && c < |s1.conns|
            && Alone(s, e, j) ==
               s1.(engine := PipelineV1Turns.IoAlone(s.engine, Datagram(Copied(s).frame, false), j),
                   conns := if j < n then s1.conns else s1.conns[c := s1.conns[c].(have := 0)])
  {
    hide Invariant, Alone, PipelineV1Turns.IoAlone, Pipeline.Invariant, Pipeline.IoStep, Pipeline.Safe;
    var d := Datagram(Copied(s).frame, false);
    AloneOne(s, e);
    CopyStep(s, e);
    if j == 1 {
      PipelineV1Turns.IoAloneNone(s.engine, d);
      PipelineV1Turns.IoAloneStep(s.engine, d, 0, s.engine);
    } else {
      PassOnFollows(s, e, j - 1, n);
      BusyUntilDone(s.engine, d, j - 1, n);
      var m := Alone(s, e, j - 1);
      AloneStep(s, e, j - 1);
      PassOnStep(m, e);
      PipelineV1Turns.IoAloneStep(s.engine, d, j - 1, m.engine);
      SafeEngine(m);
      BusyIgnores(m.engine, d, Datagram([], false));
      if j < n {
        BusyUntilDone(s.engine, d, j, n);
      }
    }
  }

  lemma SafeEngine(s: State)
    requires Safe(s)
    ensures Pipeline.Safe(s.engine)
  {
  }

  // The whole call

  /** The connection and the pool as the in-place code sees them. */
  ghost function View(s: State, c: nat): Reassembly.Intake
    requires s.engine.freeHistory.Valid() && s.engine.readyHistory.Valid()
             && c < |s.conns| && s.conns[c].have <= WIRE_SIZE
  {
    PoolOf(s.engine, s.conns[c].frame[..s.conns[c].have])
  }

  /** `r` is `s` after `chunk` has been taken in on connection `c`, and nothing else has happened. */
  ghost predicate TakenIn(s: State, r: State, c: nat, chunk: seq<Byte>) {
    && c < |s.conns| && |r.conns| == |s.conns| && s.conns[c].have < WIRE_SIZE && r.conns[c].have < WIRE_SIZE
    && s.engine.freeHistory.Valid() && s.engine.readyHistory.Valid()
    && r.engine.freeHistory.Valid() && r.engine.readyHistory.Valid()
    && View(s, c).InRange() && View(r, c) == Reassembly.TakeBytes(View(s, c), chunk)
    && r.engine.io.IoIdle? && r.engine.consumer == s.engine.consumer && r.engine.decoded == s.engine.decoded
    && r.conns[c].stream == s.conns[c].stream + chunk && r.conns[c].received == s.conns[c].received
    && forall b :: 0 <= b < |s.conns| && b != c ==> r.conns[b] == s.conns[b]
  }

  lemma ViewInRange(s: State, c: nat)
    requires Invariant(s) && c < |s.conns| && s.engine.io.IoIdle?
    ensures Pipeline.Invariant(s.engine) && s.engine.freeHistory.Valid() && s.engine.readyHistory.Valid()
    ensures s.conns[c].have < WIRE_SIZE && View(s, c).InRange()
    ensures View(s, c).free != [] ==> |View(s, c).ready| < |View(s, c).slots|
  {
    assert ConnOk(s.conns[c], Busy(s, c));
    PoolInRange(s.engine);
  }

  lemma CopiedFrame(s: State)
    requires Copying(s)
    ensures var k, conn := s.call.value, s.conns[s.call.value.c];
            var take := Taken(k, conn.have);
            && 0 < take && k.off + take <= |k.data| && Copied(s).have == conn.have + take <= WIRE_SIZE
            && Copied(s).frame[..Copied(s).have] == conn.frame[..conn.have] + k.data[k.off..k.off + take]
            && Copied(s).stream == conn.stream + k.data[k.off..k.off + take] && Copied(s).received == conn.received
  {
  }

  lemma CompleteIs(p: Reassembly.Intake, f: Frame)
    requires p.InRange() && (p.free != [] ==> |p.ready| < |p.slots|)
    ensures Reassembly.Complete(p, f) == Completed(p.(partial := []), f)
  {
  }

  lemma PartTurn(s: State, e: Event)
    requires Invariant(s) && Copying(s) && Copied(s).have < WIRE_SIZE
    ensures var k := s.call.value; var take := Taken(k, s.conns[k.c].have);
            && Alone(s, e, 1).call == Some(k.(off := k.off + take))
            && TakenIn(s, Alone(s, e, 1), k.c, k.data[k.off..k.off + take])
  {
    hide Invariant, Alone, Pipeline.Invariant, Reassembly.TakeBytes;
    var k := s.call.value;
    ViewInRange(s, k.c);
    AloneOne(s, e);
    CopyStep(s, e);
    CopiedFrame(s);
    Reassembly.TakeFitting(View(s, k.c), k.data[k.off..k.off + Taken(k, s.conns[k.c].have)]);
  }

  lemma FullTurn(s: State, e: Event) returns (n: nat)
    requires Invariant(s) && Copying(s) && Copied(s).have == WIRE_SIZE
    ensures var k := s.call.value; var take := Taken(k, s.conns[k.c].have);
            && n > 0 && Alone(s, e, n).call == Some(k.(off := k.off + take))
            && TakenIn(s, Alone(s, e, n), k.c, k.data[k.off..k.off + take])
  {
    hide Invariant, Alone, Pipeline.Invariant, Reassembly.TakeBytes, Reassembly.Complete, Completed,
         PipelineV1Turns.IoAlone, Pipeline.IoStep;
    var k := s.call.value;
    var f := Copied(s).frame;
    ViewInRange(s, k.c);
    AloneOne(s, e);
    CopyStep(s, e);
    CopiedFrame(s);
    n := FrameTurn(s.engine, f);
    PassOnFollows(s, e, n, n);
    Reassembly.TakeFitting(View(s, k.c), k.data[k.off..k.off + Taken(k, s.conns[k.c].have)]);
    assert f == f[..WIRE_SIZE];
    CompleteIs(View(s, k.c), f);
    assert View(s, k.c).(partial := []) == PoolOf(s.engine, []);
    var r := Alone(s, e, n);
    assert r.conns[k.c].frame[..0] == [];
  }

  lemma NothingTaken(s: State, r: State, c: nat)
    requires Invariant(s) && s.call.Some? && s.engine.io.IoIdle? && c < |s.conns| && r == s.(call := None)
    ensures TakenIn(s, r, c, [])
  {
    ViewInRange(s, c);
    hide Invariant;
    Reassembly.TakeNothing(View(s, c));
  }

  lemma TakenTwice(s: State, m: State, r: State, c: nat, a: seq<Byte>, b: seq<Byte>)
    requires TakenIn(s, m, c, a) && TakenIn(m, r, c, b)
    ensures TakenIn(s, r, c, a + b)
  {
    hide Reassembly.TakeBytes;
    Reassembly.ChunksConcat(View(s, c), a, b);
    assert s.conns[c].stream + a + b == s.conns[c].stream + (a + b);
  }

  lemma CopyingOrDone(s: State)
    requires Invariant(s) && s.call.Some? && s.engine.io.IoIdle?
    ensures s.call.value.c < |s.conns| && s.call.value.off <= |s.call.value.data|
    ensures s.call.value.off < |s.call.value.data| ==> Copying(s)
  {
    assert ConnOk(s.conns[s.call.value.c], Busy(s, s.call.value.c));
  }

  lemma ChunkTurn(s: State, e: Event) returns (n: nat)
    requires Invariant(s) && Copying(s)
    ensures var k := s.call.value; var take := Taken(k, s.conns[k.c].have);
            && n > 0 && 0 < take <= |k.data| - k.off && Alone(s, e, n).call == Some(k.(off := k.off + take))
            && TakenIn(s, Alone(s, e, n), k.c, k.data[k.off..k.off + take])
  {
    hide Invariant, Alone, TakenIn;
    CopiedFrame(s);
    if Copied(s).have < WIRE_SIZE {
      n := 1;
      PartTurn(s, e);
    } else {
      n := FullTurn(s, e);
    }
  }

  lemma AloneInvariant(s: State, e: Event, k: nat)
    requires Invariant(s)
    ensures Invariant(Alone(s, e, k))
  {
  }

  /** From anywhere in a call where the IO thread is about to copy, or done copying, to its return. */
  lemma {:induction false} RestTurn(s: State, e: Event, k: Call) returns (n: nat)
    requires Invariant(s) && s.call == Some(k) && s.engine.io.IoIdle?
    ensures k.off <= |k.data| && Alone(s, e, n).call == None && TakenIn(s, Alone(s, e, n), k.c, k.data[k.off..])
    decreases |k.data| - k.off
  {
    hide Invariant, Alone, TakenIn, Safe, IoStep;
    CopyingOrDone(s);
    if k.off == |k.data| {
      n := 1;
      AloneOne(s, e);
      ReturnStep(s, e, k);
      NothingTaken(s, s.(call := None), k.c);
      assert k.data[k.off..] == [];
    } else {
      var a := ChunkTurn(s, e);
      var m, off' := Alone(s, e, a), k.off + Taken(k, s.conns[k.c].have);
      IdleAfter(s, m, k.c, k.data[k.off..off']);
      AloneInvariant(s, e, a);
      var b := RestTurn(m, e, k.(off := off'));
      n := a + b;
      AloneAdds(s, e, a, b);
      TakenTwice(s, m, Alone(s, e, n), k.c, k.data[k.off..off'], k.data[off'..]);
      assert k.data[k.off..off'] + k.data[off'..] == k.data[k.off..];
    }
  }

  lemma IdleAfter(s: State, m: State, c: nat, chunk: seq<Byte>)
    requires TakenIn(s, m, c, chunk)
    ensures m.engine.io.IoIdle?
  {
  }

  lemma ReturnStep(s: State, e: Event, k: Call)
    requires Safe(s) && s.call == Some(k) && s.engine.io.IoIdle? && k.off == |k.data|
    ensures IoStep(s, e) == s.(call := None)
  {
  }

  /**
   The whole call: from every reachable state between calls, the steps of the IO thread alone take
   in all of `data` and return, and leave the connection, the pool and the drop counter exactly as
   the byte-at-a-time description says, which is what the in-place code is proved against.
   */
  lemma CallTurn(s: State, c: nat, data: seq<Byte>) returns (n: nat)
    requires Invariant(s) && s.call == None && c < |s.conns|
    ensures var r := Alone(s, Receive(c, data), n);
            && r.call == None && |r.conns| == |s.conns| && TakenIn(Enter(s, c, data), r, c, data)
            && s.engine.freeHistory.Valid() && s.engine.readyHistory.Valid() && s.conns[c].have < WIRE_SIZE
            && View(s, c).InRange() && View(r, c) == Reassembly.TakeBytes(View(s, c), data)
            && r.conns[c].received == s.conns[c].received + data && r.conns[c].stream == s.conns[c].stream + data
  {
    hide Invariant, Alone, TakenIn, Safe, IoStep, Enter, Reassembly.TakeBytes;
    var e := Receive(c, data);
    EngineIdle(s);
    ViewInRange(s, c);
    AloneOne(s, e);
    var m := Enter(s, c, data);
    EnterStep(s, c, data);
    var b := RestTurn(m, e, Call(c, data, 0));
    n := 1 + b;
    AloneAdds(s, e, 1, b);
    assert data[0..] == data;
    EnteredView(s, c, data, Alone(s, e, n));
  }

  lemma EnteredView(s: State, c: nat, data: seq<Byte>, r: State)
    requires c < |s.conns| && s.conns[c].have < WIRE_SIZE && TakenIn(Enter(s, c, data), r, c, data)
    requires s.engine.freeHistory.Valid() && s.engine.readyHistory.Valid() && View(s, c).InRange()
    ensures |r.conns| == |s.conns| && r.conns[c].have < WIRE_SIZE
    ensures r.engine.freeHistory.Valid() && r.engine.readyHistory.Valid()
    ensures View(r, c) == Reassembly.TakeBytes(View(s, c), data)
    ensures r.conns[c].received == s.conns[c].received + data && r.conns[c].stream == s.conns[c].stream + data
  {
    hide Reassembly.TakeBytes;
    assert View(Enter(s, c, data), c) == View(s, c);
  }

  lemma EngineIdle(s: State)
    requires Invariant(s) && s.call == None
    ensures s.engine.io.IoIdle?
  {
  }

  lemma EnterStep(s: State, c: nat, data: seq<Byte>)
    requires Safe(s) && s.call == None && c < |s.conns|
    ensures IoStep(s, Receive(c, data)) == Enter(s, c, data)
    ensures Enter(s, c, data).call == Some(Call(c, data, 0)) && Enter(s, c, data).engine == s.engine
  {
  }

  /** A connection that is accepted starts with nothing received, and leaves the others alone. */
  lemma AcceptTurn(s: State)
    requires Invariant(s) && s.call == None
    ensures var r := Alone(s, Accept, 1);
            && r == s.(conns := r.conns) && |r.conns| == |s.conns| + 1 && r.conns[..|s.conns|] == s.conns
            && var c := r.conns[|s.conns|]; c.have == 0 && c.received == c.stream == [] && c.begun == []
  {
    AloneOne(s, Accept);
    hide Alone, Invariant;
  }
}
