/**
 The single-producer / single-consumer ring buffer: its memory, the individual loads and stores
 of `push` and `pop`, and the class that runs them one call at a time.
 */
module RingBuffers {
  import opened Words
  import opened Wrappers

  /** The shared memory of a ring: two wrapping counters and the slots. */
  datatype Ring<T> = Ring(head: Word, tail: Word, buffer: seq<T>) {
    ghost predicate Valid() {
      ValidCapacity(|buffer|)
    }

    /** `i & mask_` */
    function Slot(i: Word): (slot: nat)
      requires |buffer| > 0
      ensures slot < |buffer|
    {
      BitAnd(i, |buffer| - 1)
    }
  }

  /** Everything ever pushed, and how many of those have been popped: counters that never wrap. */
  datatype History<T> = History(pushed: seq<T>, popped: nat) {
    ghost predicate Valid() {
      popped <= |pushed|
    }

    ghost function Contents(): seq<T>
      requires Valid()
    {
      pushed[popped..]
    }
  }

  /** Where a thread stands inside `push(x)`: each constructor is the next shared access. */
  datatype PushPc<T> =
    | PushLoadHead(x: T)
    | PushLoadTail(x: T, h: Word)
    | PushWriteSlot(x: T, t: Word)
    | PushStoreTail(x: T, t: Word)
    | PushDone(ok: bool)

  /** Where a thread stands inside `pop`. */
  datatype PopPc<T> =
    | PopLoadHead
    | PopLoadTail(h: Word)
    | PopReadSlot(h: Word)
    | PopStoreHead(h: Word, x: T)
    | PopDone(result: Option<T>)

  /** One shared access of `push`, together with the local computation that follows it. */
  function PushStep<T>(r: Ring<T>, p: PushPc<T>): (Ring<T>, PushPc<T>)
    requires |r.buffer| > 0
  {
    match p
    case PushLoadHead(x) => (r, PushLoadTail(x, r.head))
    case PushLoadTail(x, h) =>
      if Sub(r.tail, h) == |r.buffer| then (r, PushDone(false)) else (r, PushWriteSlot(x, r.tail))
    case PushWriteSlot(x, t) => (r.(buffer := r.buffer[r.Slot(t) := x]), PushStoreTail(x, t))
    case PushStoreTail(x, t) => (r.(tail := Inc(t)), PushDone(true))
    case PushDone(_) => (r, p)
  }

  /** One shared access of `pop`, together with the local computation that follows it. */
  function PopStep<T>(r: Ring<T>, p: PopPc<T>): (Ring<T>, PopPc<T>)
    requires |r.buffer| > 0
  {
    match p
    case PopLoadHead => (r, PopLoadTail(r.head))
    case PopLoadTail(h) => if h == r.tail then (r, PopDone(None)) else (r, PopReadSlot(h))
    case PopReadSlot(h) => (r, PopStoreHead(h, r.buffer[r.Slot(h)]))
    case PopStoreHead(h, x) => (r.(head := Inc(h)), PopDone(Some(x)))
    case PopDone(_) => (r, p)
  }

  /** The memory holds exactly the pushed elements not yet popped, in order. */
  ghost predicate Represents<T>(r: Ring<T>, h: History<T>) {
    && r.Valid() && h.Valid()
    && |h.pushed| <= h.popped + |r.buffer|
    && r.head == h.popped % TWO_64
    && r.tail == |h.pushed| % TWO_64
    && forall i :: h.popped <= i < |h.pushed| ==> r.buffer[i % |r.buffer|] == h.pushed[i]
  }

  /** What the only pusher knows at each of its accesses, whatever the popper does meanwhile. */
  ghost predicate PusherKnows<T>(r: Ring<T>, h: History<T>, p: PushPc<T>) {
    match p
    case PushLoadHead(_) => true
    case PushLoadTail(_, head) => |h.pushed| - h.popped <= Sub(r.tail, head) <= |r.buffer|
    case PushWriteSlot(_, t) => t == r.tail && |h.pushed| < h.popped + |r.buffer|
    case PushStoreTail(x, t) =>
      && t == r.tail && |h.pushed| < h.popped + |r.buffer|
      && |r.buffer| > 0 && r.buffer[|h.pushed| % |r.buffer|] == x
    case PushDone(_) => true
  }

  /** What the only popper knows at each of its accesses, whatever the pusher does meanwhile. */
  ghost predicate PopperKnows<T>(r: Ring<T>, h: History<T>, p: PopPc<T>) {
    match p
    case PopLoadHead => true
    case PopLoadTail(head) => head == r.head
    case PopReadSlot(head) => head == r.head && h.popped < |h.pushed|
    case PopStoreHead(head, x) => head == r.head && h.popped < |h.pushed| && x == h.pushed[h.popped]
    case PopDone(_) => true
  }

  /** The ring seen from both sides at once. */
  ghost predicate RingOk<T>(r: Ring<T>, h: History<T>, p: PushPc<T>, q: PopPc<T>) {
    Represents(r, h) && PusherKnows(r, h, p) && PopperKnows(r, h, q)
  }

  /** The history grows when the tail is stored, and shrinks when the head is stored. */
  function AfterPush<T>(h: History<T>, p: PushPc<T>): History<T> {
    if p.PushStoreTail? then h.(pushed := h.pushed + [p.x]) else h
  }

  function AfterPop<T>(h: History<T>, p: PopPc<T>): History<T> {
    if p.PopStoreHead? then h.(popped := h.popped + 1) else h
  }

  lemma IncWraps(n: nat)
    ensures Inc(n % TWO_64) == (n + 1) % TWO_64
  {
  }

  lemma SubWraps(n: nat, m: nat)
    requires m <= n < m + TWO_64
    ensures Sub(n % TWO_64, m % TWO_64) == n - m
  {
  }

  /** The wrapped difference of the counters is the number of elements held. */
  lemma Occupancy<T>(r: Ring<T>, h: History<T>)
    requires Represents(r, h)
    ensures Sub(r.tail, r.head) == |h.pushed| - h.popped
    ensures r.head == r.tail <==> |h.pushed| == h.popped
  {
    SubWraps(|h.pushed|, h.popped);
  }

  /** Every access of the pusher keeps the representation and both threads' knowledge. */
  lemma PushStepKeeps<T>(r: Ring<T>, h: History<T>, p: PushPc<T>, q: PopPc<T>)
    requires RingOk(r, h, p, q)
    ensures var (r', p') := PushStep(r, p); var h' := AfterPush(h, p);
            RingOk(r', h', p', q)
  {
    var c := |r.buffer|;
    match p
    case PushLoadHead(x) =>
      Occupancy(r, h);
    case PushLoadTail(x, head) =>
    case PushWriteSlot(x, t) =>
      MaskPicksSlot(|h.pushed|, c);
      forall i | h.popped <= i < |h.pushed|
        ensures i % c != |h.pushed| % c
      {
        SlotsDistinct(i, |h.pushed|, c);
      }
    case PushStoreTail(x, t) =>
      IncWraps(|h.pushed|);
    case PushDone(_) =>
  }

  /** Every access of the popper keeps the representation and both threads' knowledge. */
  lemma PopStepKeeps<T>(r: Ring<T>, h: History<T>, p: PushPc<T>, q: PopPc<T>)
    requires RingOk(r, h, p, q)
    ensures var (r', q') := PopStep(r, q); var h' := AfterPop(h, q);
            RingOk(r', h', p, q')
  {
    match q
    case PopLoadHead =>
    case PopLoadTail(head) =>
      Occupancy(r, h);
    case PopReadSlot(head) =>
      MaskPicksSlot(h.popped, |r.buffer|);
    case PopStoreHead(head, x) =>
      IncWraps(h.popped);
    case PopDone(_) =>
  }

  /** A `push` that runs without interference. */
  function PushAlone<T>(r: Ring<T>, x: T): (Ring<T>, PushPc<T>)
    requires |r.buffer| > 0
  {
    var (r1, p1) := PushStep(r, PushLoadHead(x));
    var (r2, p2) := PushStep(r1, p1);
    var (r3, p3) := PushStep(r2, p2);
    PushStep(r3, p3)
  }

  /** A `pop` that runs without interference. */
  function PopAlone<T>(r: Ring<T>): (Ring<T>, PopPc<T>)
    requires |r.buffer| > 0
  {
    var (r1, p1) := PopStep(r, PopLoadHead);
    var (r2, p2) := PopStep(r1, p1);
    var (r3, p3) := PopStep(r2, p2);
    PopStep(r3, p3)
  }

  lemma PushAloneAppends<T>(r: Ring<T>, h: History<T>, x: T)
    requires Represents(r, h)
    ensures var (r', p) := PushAlone(r, x);
            var room := |h.pushed| < h.popped + |r.buffer|;
            && p == PushDone(room)
            && Represents(r', if room then h.(pushed := h.pushed + [x]) else h)
  {
    var q: PopPc<T> := PopLoadHead;
    Occupancy(r, h);
    if |h.pushed| < h.popped + |r.buffer| {
      PushStepKeeps(r, h, PushWriteSlot(x, r.tail), q);
      var (r3, p3) := PushStep(r, PushWriteSlot(x, r.tail));
      PushStepKeeps(r3, h, p3, q);
    }
  }

  lemma PopAloneRemoves<T>(r: Ring<T>, h: History<T>)
    requires Represents(r, h)
    ensures var (r', p) := PopAlone(r);
            var some := h.popped < |h.pushed|;
            && p == PopDone(if some then Some(h.pushed[h.popped]) else None)
            && Represents(r', if some then h.(popped := h.popped + 1) else h)
  {
    var p: PushPc<T> := PushDone(true);
    Occupancy(r, h);
    if h.popped < |h.pushed| {
      PopStepKeeps(r, h, p, PopReadSlot(r.head));
      var (r3, q3) := PopStep(r, PopReadSlot(r.head));
      PopStepKeeps(r3, h, p, q3);
    }
  }

  /** The ring as an object: a bounded FIFO when calls do not overlap. */
  class RingBuffer<T(0)> {
    var head: Word
    var tail: Word
    const buffer: array<T>
    ghost var history: History<T>

    function Memory(): Ring<T>
      reads this, buffer
    {
      Ring(head, tail, buffer[..])
    }

    ghost predicate Valid()
      reads this, buffer
    {
      Represents(Memory(), history)
    }

    ghost function Contents(): (q: seq<T>)
      requires Valid()
      reads this, buffer
      ensures |q| <= buffer.Length
    {
      history.Contents()
    }

    constructor (capacity: nat)
      requires ValidCapacity(capacity)
      ensures Valid() && Contents() == [] && fresh(buffer) && buffer.Length == capacity
    {
      head, tail := 0, 0;
      buffer := new T[capacity];
      history := History([], 0);
    }

    method Empty() returns (empty: bool)
      requires Valid()
      ensures empty == (Contents() == [])
    {
      Occupancy(Memory(), history);
      empty := head == tail;
    }

    method Full() returns (full: bool)
      requires Valid()
      ensures full == (|Contents()| == buffer.Length)
    {
      Occupancy(Memory(), history);
      full := Sub(tail, head) == buffer.Length;
    }

    method Reset()
      requires ValidCapacity(buffer.Length)
      modifies this
      ensures Valid() && Contents() == [] && history == History([], 0)
    {
      head, tail := 0, 0;
      history := History([], 0);
    }

    method Push(x: T) returns (ok: bool)
      requires Valid()
      modifies this, buffer
      ensures (Memory(), PushDone(ok)) == old(PushAlone(Memory(), x))
      ensures Valid()
      ensures ok == (|old(Contents())| < buffer.Length)
      ensures Contents() == if ok then old(Contents()) + [x] else old(Contents())
      ensures history.popped == old(history.popped)
    {
      PushAloneAppends(Memory(), history, x);
      var h := head;
      var t := tail;
      if Sub(t, h) == buffer.Length {
        return false;
      }
      buffer[BitAnd(t, buffer.Length - 1)] := x;
      tail := Inc(t);
      history := history.(pushed := history.pushed + [x]);
      ok := true;
    }

    method Pop() returns (result: Option<T>)
      requires Valid()
      modifies this
      ensures (Memory(), PopDone(result)) == old(PopAlone(Memory()))
      ensures Valid()
      ensures result == if old(Contents()) == [] then None else Some(old(Contents())[0])
      ensures Contents() == if result.Some? then old(Contents())[1..] else old(Contents())
      ensures history.pushed == old(history.pushed)
    {
      PopAloneRemoves(Memory(), history);
      var h := head;
      var t := tail;
      if h == t {
        return None;
      }
      var x := buffer[BitAnd(h, buffer.Length - 1)];
      head := Inc(h);
      history := history.(popped := history.popped + 1);
      result := Some(x);
    }
  }
}
