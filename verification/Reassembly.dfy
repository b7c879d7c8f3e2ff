/**
 Reassembly of fixed-size frames from a TCP byte stream into pool slots. What the bytes do is
 described one byte at a time; `consume_frames`, which copies as much as fits at once, is proved
 against that description on the real pool, so how the stream is cut into chunks cannot matter.
 */
module Reassembly {
  import opened RingBuffers
  import opened Codec
  import opened FramePools

  /** The partial frame of a connection, the pool it feeds, and the drops counted. */
  datatype Intake = Intake(partial: seq<Byte>, free: seq<nat>, ready: seq<nat>, slots: seq<Frame>, drops: nat) {
    /** Free indices name slots. */
    ghost predicate InRange() {
      |partial| < WIRE_SIZE && forall j :: 0 <= j < |free| ==> free[j] < |slots|
    }

    /** No free index is also ready, or twice free, and both rings together fit the pool. */
    ghost predicate Owned() {
      && InRange() && |free| + |ready| <= |slots|
      && (forall i, j :: 0 <= i < j < |free| ==> free[i] != free[j])
      && (forall j :: 0 <= j < |free| ==> free[j] !in ready)
    }
  }

  /** A frame is complete: take a slot, copy, and pass the slot on, or drop the frame. */
  function Complete(s: Intake, f: Frame): Intake
    requires forall j :: 0 <= j < |s.free| ==> s.free[j] < |s.slots|
  {
    if s.free == [] then
      s.(partial := [], drops := s.drops + 1)
    else
      var idx := s.free[0];
      var copied := s.(partial := [], slots := s.slots[idx := f]);
      if |s.ready| < |s.slots| then
        copied.(free := s.free[1..], ready := s.ready + [idx])
      else
        copied.(free := s.free[1..] + [idx], drops := s.drops + 1)
  }

  function TakeByte(s: Intake, b: Byte): (r: Intake)
    requires s.InRange()
    ensures r.InRange() && |r.slots| == |s.slots|
  {
    if |s.partial| + 1 < WIRE_SIZE then s.(partial := s.partial + [b]) else Complete(s, s.partial + [b])
  }

  function TakeBytes(s: Intake, data: seq<Byte>): (r: Intake)
    requires s.InRange()
    ensures r.InRange() && |r.slots| == |s.slots|
  {
    if data == [] then s else TakeByte(TakeBytes(s, data[..|data| - 1]), data[|data| - 1])
  }

  /** Consuming `a` and then `b` is consuming `a + b`, drops included. */
  lemma {:induction false} ChunksConcat(s: Intake, a: seq<Byte>, b: seq<Byte>)
    requires s.InRange()
    ensures TakeBytes(TakeBytes(s, a), b) == TakeBytes(s, a + b)
    decreases |b|
  {
    if b == [] {
      assert a + b == a;
    } else {
      var n := |b| - 1;
      ChunksConcat(s, a, b[..n]);
      assert (a + b)[..|a + b| - 1] == a + b[..n];
    }
  }

  function FrameAt(stream: seq<Byte>, i: nat): Frame
    requires WIRE_SIZE * (i + 1) <= |stream|
  {
    stream[WIRE_SIZE * i..WIRE_SIZE * (i + 1)]
  }

  // What a chunk does to the pool, in closed form

  function Min(a: nat, b: nat): nat {
    if a < b then a else b
  }

  /**
   `all` is the partial frame followed by new bytes: its complete frames went, one by one, to the
   oldest free slots while there were any, the rest of them were dropped, and no other slot changed.
   */
  ghost predicate Framed(s: Intake, all: seq<Byte>, r: Intake) {
    var k := |all| / WIRE_SIZE;
    var n := Min(k, |s.free|);
    && |r.slots| == |s.slots| && r.partial == all[WIRE_SIZE * k..]
    && r.free == s.free[n..] && r.ready == s.ready + s.free[..n]
    && r.drops == s.drops + (k - n)
    && (forall j :: 0 <= j < n ==> s.free[j] < |r.slots| && r.slots[s.free[j]] == FrameAt(all, j))
    && (forall x :: 0 <= x < |s.slots| && x !in s.free[..n] ==> r.slots[x] == s.slots[x])
  }

  /** Complete frames are not affected by a byte that follows. */
  lemma FramesStay(all: seq<Byte>, b: Byte)
    ensures forall j :: 0 <= j < |all| / WIRE_SIZE ==> FrameAt(all + [b], j) == FrameAt(all, j)
  {
    forall j | 0 <= j < |all| / WIRE_SIZE
      ensures FrameAt(all + [b], j) == FrameAt(all, j)
    {
    }
  }

  lemma TakeBytesStep(s: Intake, data: seq<Byte>)
    requires s.InRange() && data != []
    ensures TakeBytes(s, data) == TakeByte(TakeBytes(s, data[..|data| - 1]), data[|data| - 1])
  {
  }

  lemma GrowsPartial(s: Intake, all: seq<Byte>, r: Intake, b: Byte)
    requires s.Owned() && Framed(s, all, r) && |all| % WIRE_SIZE + 1 < WIRE_SIZE
    ensures Framed(s, all + [b], r.(partial := r.partial + [b]))
  {
    assert |all + [b]| / WIRE_SIZE == |all| / WIRE_SIZE;
    FramesStay(all, b);
  }

  lemma DropsFrame(s: Intake, all: seq<Byte>, r: Intake, b: Byte)
    requires s.Owned() && Framed(s, all, r) && |all| % WIRE_SIZE + 1 == WIRE_SIZE && r.free == []
    ensures Framed(s, all + [b], r.(partial := [], drops := r.drops + 1))
  {
    assert |all + [b]| == WIRE_SIZE * (|all| / WIRE_SIZE + 1);
    FramesStay(all, b);
  }

  /** With a free slot left, the completed frame goes to the next one. */
  lemma CompleteStores(s: Intake, all: seq<Byte>, r: Intake, b: Byte)
    requires s.Owned() && r.InRange() && Framed(s, all, r) && |all| % WIRE_SIZE + 1 == WIRE_SIZE && r.free != []
    ensures var k := |all| / WIRE_SIZE;
            && k < |s.free| && |r.partial| + 1 == WIRE_SIZE && |all + [b]| == WIRE_SIZE * (k + 1)
            && Complete(r, r.partial + [b]) ==
               r.(partial := [], slots := r.slots[s.free[k] := FrameAt(all + [b], k)],
                  free := s.free[k + 1..], ready := s.ready + s.free[..k + 1])
  {
    var k := |all| / WIRE_SIZE;
    assert r.free[0] == s.free[k] && s.free[..k + 1] == s.free[..k] + [s.free[k]];
    assert r.partial + [b] == FrameAt(all + [b], k);
  }

  lemma StoresFrame(s: Intake, all: seq<Byte>, r: Intake, b: Byte)
    requires s.Owned() && r.InRange() && Framed(s, all, r) && |all| % WIRE_SIZE + 1 == WIRE_SIZE && r.free != []
    ensures |r.partial| + 1 == WIRE_SIZE && Framed(s, all + [b], Complete(r, r.partial + [b]))
  {
    CompleteStores(s, all, r, b);
    FramesStay(all, b);
    hide Complete, FrameAt;
    var k := |all| / WIRE_SIZE;
    assert s.free[..k + 1] == s.free[..k] + [s.free[k]];
  }

  /**
   After any chunk: exactly the complete frames are gone from the partial one, in order, each to
   its own slot until none is free; `ready` always has room, so nothing is ever given back.
   */
  lemma {:induction false} ChunkIsFramed(s: Intake, data: seq<Byte>)
    requires s.Owned()
    ensures Framed(s, s.partial + data, TakeBytes(s, data))
  {
    if data == [] {
      assert s.partial + data == s.partial;
    } else {
      var n := |data| - 1;
      ChunkIsFramed(s, data[..n]);
      var all, r, b := s.partial + data[..n], TakeBytes(s, data[..n]), data[n];
      TakeBytesStep(s, data);
      hide TakeBytes;
      assert s.partial + data == all + [b];
      if |all| % WIRE_SIZE + 1 < WIRE_SIZE {
        GrowsPartial(s, all, r, b);
      } else if r.free == [] {
        DropsFrame(s, all, r, b);
      } else {
        StoresFrame(s, all, r, b);
      }
    }
  }

  // The code

  /** Bytes that fit into the current frame, all at once. */
  lemma {:induction false} TakeFitting(s: Intake, chunk: seq<Byte>)
    requires s.InRange() && chunk != [] && |s.partial| + |chunk| <= WIRE_SIZE
    ensures TakeBytes(s, chunk) ==
            if |s.partial| + |chunk| < WIRE_SIZE then s.(partial := s.partial + chunk)
            else Complete(s, s.partial + chunk)
  {
    var n := |chunk| - 1;
    if n == 0 {
      assert chunk == [chunk[0]] && chunk[..0] == [];
    } else {
      TakeFitting(s, chunk[..n]);
      assert s.partial + chunk == s.partial + chunk[..n] + [chunk[n]];
    }
  }

  class Connection {
    var have: nat
    const frame: array<Byte>
    var drops: nat

    ghost predicate Valid(pool: FramePool)
      reads this, pool, pool.free, pool.free.buffer, pool.ready, pool.ready.buffer, pool.slots
    {
      && pool.Valid() && frame.Length == WIRE_SIZE && have < WIRE_SIZE
      && (forall j :: 0 <= j < |pool.free.Contents()| ==> pool.free.Contents()[j] < pool.slots.Length)
    }

    ghost function View(pool: FramePool): (s: Intake)
      requires Valid(pool)
      reads this, frame, pool, pool.free, pool.free.buffer, pool.ready, pool.ready.buffer, pool.slots
      ensures s.InRange()
    {
      Intake(frame[..have], pool.free.Contents(), pool.ready.Contents(), pool.slots[..], drops)
    }

    constructor (pool: FramePool)
      requires pool.Valid()
      requires forall j :: 0 <= j < |pool.free.Contents()| ==> pool.free.Contents()[j] < pool.slots.Length
      ensures Valid(pool) && fresh(frame)
      ensures View(pool) == Intake([], pool.free.Contents(), pool.ready.Contents(), pool.slots[..], 0)
    {
      have, drops := 0, 0;
      frame := new Byte[WIRE_SIZE];
    }

    /** `memcpy` into the partial frame. */
    method CopyIn(bytes: seq<Byte>)
      requires frame.Length == WIRE_SIZE && have + |bytes| <= WIRE_SIZE
      modifies frame
      ensures frame[..have + |bytes|] == old(frame[..have]) + bytes
    {
      for i := 0 to |bytes|
        invariant frame[..have] == old(frame[..have])
        invariant forall j :: 0 <= j < i ==> frame[have + j] == bytes[j]
      {
        frame[have + i] := bytes[i];
      }
      assert frame[..have + |bytes|] == frame[..have] + frame[have..have + |bytes|];
      assert frame[have..have + |bytes|] == bytes;
    }

    /** The frame is complete: slot, copy, `ready`, and `free` again if that was full. */
    method Finish(pool: FramePool)
      requires pool.Valid() && frame.Length == have == WIRE_SIZE
      requires forall j :: 0 <= j < |pool.free.Contents()| ==> pool.free.Contents()[j] < pool.slots.Length
      modifies this`have, this`drops, pool.free, pool.free.buffer, pool.ready, pool.ready.buffer, pool.slots
      ensures Valid(pool) && have == 0
      ensures View(pool) ==
              old(Complete(Intake([], pool.free.Contents(), pool.ready.Contents(), pool.slots[..], drops), frame[..]))
    {
      hide Represents, PushAlone, PopAlone, Complete;
      ghost var free, ready, slots, f := pool.free.Contents(), pool.ready.Contents(), pool.slots[..], frame[..];
      CompleteCases(free, ready, slots, drops, f);
      have := 0;
      var idx := pool.free.Pop();
      if idx.None? {
        drops := drops + 1;
        return;
      }
      pool.slots[idx.value] := frame[..];
      assert pool.slots[..] == slots[idx.value := f];
      PassOn(idx.value, pool);
    }

    /** Push the index to `ready`, or back to `free` if that was full. */
    method PassOn(idx: nat, pool: FramePool)
      requires pool.Valid() && |pool.free.Contents()| < pool.free.buffer.Length
      modifies this`drops, pool.free, pool.free.buffer, pool.ready, pool.ready.buffer
      ensures pool.Valid()
      ensures |old(pool.ready.Contents())| < pool.slots.Length ==>
                && pool.ready.Contents() == old(pool.ready.Contents()) + [idx]
                && pool.free.Contents() == old(pool.free.Contents()) && drops == old(drops)
      ensures |old(pool.ready.Contents())| >= pool.slots.Length ==>
                && pool.ready.Contents() == old(pool.ready.Contents())
                && pool.free.Contents() == old(pool.free.Contents()) + [idx] && drops == old(drops) + 1
    {
      hide Represents, PushAlone;
      var ok := pool.ready.Push(idx);
      if !ok {
        drops := drops + 1;
        var _ := pool.free.Push(idx);
      }
    }

    /**
     `consume_frames`: whatever the length of `data` and however full the pool, the connection and
     the pool end up as if the bytes had come one by one.
     */
    method ConsumeFrames(data: seq<Byte>, pool: FramePool)
      requires Valid(pool)
      modifies this, frame, pool.free, pool.free.buffer, pool.ready, pool.ready.buffer, pool.slots
      ensures Valid(pool) && View(pool) == TakeBytes(old(View(pool)), data)
    {
      hide TakeBytes, Complete, Represents;
      ghost var before := View(pool);
      TakeNothing(before);
      var off := 0;
      while off < |data|
        invariant 0 <= off <= |data| && Valid(pool)
        invariant View(pool) == TakeBytes(before, data[..off])
      {
        ghost var s := View(pool);
        var need := WIRE_SIZE - have;
        var take := if |data| - off < need then |data| - off else need;
        CopyIn(data[off..off + take]);
        have := have + take;
        TakeFitting(s, data[off..off + take]);
        ChunksConcat(before, data[..off], data[off..off + take]);
        assert data[..off + take] == data[..off] + data[off..off + take];
        off := off + take;
        if have == WIRE_SIZE {
          assert frame[..] == frame[..have] == s.partial + data[off - take..off];
          CompleteForgets(s, frame[..]);
          Finish(pool);
        }
      }
      assert data[..off] == data;
    }
  }

  lemma CompleteCases(free: seq<nat>, ready: seq<nat>, slots: seq<Frame>, drops: nat, f: Frame)
    requires forall j :: 0 <= j < |free| ==> free[j] < |slots|
    ensures Complete(Intake([], free, ready, slots, drops), f) ==
            if free == [] then Intake([], free, ready, slots, drops + 1)
            else if |ready| < |slots| then Intake([], free[1..], ready + [free[0]], slots[free[0] := f], drops)
            else Intake([], free[1..] + [free[0]], ready, slots[free[0] := f], drops + 1)
  {
  }

  lemma CompleteForgets(s: Intake, f: Frame)
    requires s.InRange()
    ensures Complete(s.(partial := []), f) == Complete(s, f)
  {
  }

  lemma TakeNothing(s: Intake)
    requires s.InRange()
    ensures TakeBytes(s, []) == s
  {
  }
}
