/** The frame pool: slots for received frames and two rings of slot indices. */
module FramePools {
  import opened Words
  import opened RingBuffers
  import opened Codec

  /** `0, 1, ..., n - 1` */
  function Indices(n: nat): (s: seq<nat>)
    ensures |s| == n
  {
    if n == 0 then [] else Indices(n - 1) + [n - 1]
  }

  /** How often `i` occurs in `q`. */
  function Occurs(q: seq<nat>, i: nat): nat {
    if q == [] then 0 else Occurs(q[..|q| - 1], i) + if q[|q| - 1] == i then 1 else 0
  }

  lemma OccursSnoc(q: seq<nat>, x: nat, i: nat)
    ensures Occurs(q + [x], i) == Occurs(q, i) + if x == i then 1 else 0
  {
    assert (q + [x])[..|q|] == q;
  }

  lemma {:induction false} OccursHead(q: seq<nat>, i: nat)
    requires q != []
    ensures Occurs(q, i) == Occurs(q[1..], i) + if q[0] == i then 1 else 0
  {
    var n := |q| - 1;
    if n == 0 {
      assert q[1..] == q[..0] == [];
    } else {
      OccursHead(q[..n], i);
      assert q[1..][..n - 1] == q[..n][1..];
    }
  }

  lemma {:induction false} OccursIn(q: seq<nat>, i: nat)
    ensures i in q <==> Occurs(q, i) > 0
  {
    if q != [] {
      OccursIn(q[..|q| - 1], i);
      assert q == q[..|q| - 1] + [q[|q| - 1]];
    }
  }

  lemma {:induction false} OccursTwice(q: seq<nat>, j: nat, k: nat)
    requires j < k < |q| && q[j] == q[k]
    ensures Occurs(q, q[j]) >= 2
  {
    var n := |q| - 1;
    if k < n {
      OccursTwice(q[..n], j, k);
    } else {
      assert q[j] in q[..n];
      OccursIn(q[..n], q[j]);
    }
  }

  /** Initially every index occurs once, and nothing else does. */
  lemma {:induction false} IndicesOnce(n: nat, i: nat)
    ensures Occurs(Indices(n), i) == if i < n then 1 else 0
  {
    if n > 0 {
      IndicesOnce(n - 1, i);
      OccursSnoc(Indices(n - 1), n - 1, i);
    }
  }

  lemma PopTakes(h: History<nat>, i: nat)
    requires h.popped < |h.pushed|
    ensures Occurs(h.Contents(), i) ==
            Occurs(h.(popped := h.popped + 1).Contents(), i) + if h.pushed[h.popped] == i then 1 else 0
  {
    OccursHead(h.Contents(), i);
    assert h.Contents()[1..] == h.(popped := h.popped + 1).Contents();
  }

  lemma PushGives(h: History<nat>, x: nat, i: nat)
    requires h.Valid()
    ensures Occurs(h.(pushed := h.pushed + [x]).Contents(), i) ==
            Occurs(h.Contents(), i) + if x == i then 1 else 0
  {
    OccursSnoc(h.Contents(), x, i);
    assert h.(pushed := h.pushed + [x]).Contents() == h.Contents() + [x];
  }

  class FramePool {
    const slots: array<Frame>
    const free: RingBuffer<nat>
    const ready: RingBuffer<nat>

    ghost predicate Separate()
      reads this
    {
      free != ready && free.buffer != ready.buffer
    }

    ghost predicate Valid()
      reads this, free, free.buffer, ready, ready.buffer
    {
      && Separate() && free.Valid() && ready.Valid()
      && slots.Length == free.buffer.Length == ready.buffer.Length
    }

    constructor (capacity: nat)
      requires ValidCapacity(capacity)
      ensures Valid() && slots.Length == capacity
      ensures fresh(free) && fresh(free.buffer) && fresh(ready) && fresh(ready.buffer) && fresh(slots)
    {
      slots := new Frame[capacity](_ => seq(WIRE_SIZE, _ => 0));
      free := new RingBuffer<nat>(capacity);
      ready := new RingBuffer<nat>(capacity);
    }

    /** `init`: whatever the rings held before, every index is now free, in ascending order. */
    method Init()
      requires Valid()
      modifies free, free.buffer, ready, ready.buffer
      ensures Valid()
      ensures free.Contents() == Indices(slots.Length) && free.history.popped == 0
      ensures ready.Contents() == [] && ready.history == History([], 0)
    {
      free.Reset();
      ready.Reset();
      for i := 0 to slots.Length
        invariant Valid() && free.Contents() == Indices(i) && free.history.popped == 0
        invariant ready.Contents() == [] && ready.history == History([], 0)
      {
        var _ := free.Push(i);
      }
    }
  }
}
