/**
 The circular buffer of the blocking bounded queue: the parts of `enqueue`, `dequeue`, `clear` and
 `close` that run under the mutex, where they are the sequence operations of the monitor.
 */
module BlockingQueues {
  import opened Words
  import opened Wrappers

  /** What `enqueue` does to the items once its wait is over: it refuses when the queue is closed. */
  function AfterEnqueue<T>(items: seq<T>, closed: bool, x: T): seq<T> {
    if closed then items else items + [x]
  }

  /** What `dequeue` returns, and what it leaves, once its wait is over: it refuses only an empty queue. */
  function AfterDequeue<T>(items: seq<T>): (Option<T>, seq<T>) {
    if items == [] then (None, items) else (Some(items[0]), items[1..])
  }

  class BoundedQueue<T(0)> {
    const buffer: array<T>
    var head: nat
    var tail: nat
    var size: nat
    var closed: bool

    ghost predicate Valid()
      reads this
    {
      && 0 < buffer.Length && size <= buffer.Length
      && head < buffer.Length && tail == Wrapped(head, size, buffer.Length)
    }

    ghost function Contents(): (items: seq<T>)
      requires Valid()
      reads this, buffer
      ensures |items| == size
    {
      seq(size, i requires 0 <= i < size reads this, buffer requires Valid() => buffer[Wrapped(head, i, buffer.Length)])
    }

    constructor (capacity: nat)
      requires capacity > 0
      ensures Valid() && Contents() == [] && !closed && buffer.Length == capacity && fresh(buffer)
    {
      buffer := new T[capacity];
      head, tail, size, closed := 0, 0, 0, false;
    }

    /** `enqueue` once its wait is over. */
    method EnqueueBody(x: T) returns (ok: bool)
      requires Valid() && (size < buffer.Length || closed)
      modifies this`tail, this`size, buffer
      ensures Valid() && ok == !closed
      ensures Contents() == AfterEnqueue(old(Contents()), closed, x)
      ensures Contents() == if ok then old(Contents()) + [x] else old(Contents())
    {
      if closed {
        return false;
      }
      forall i | 0 <= i < size
        ensures Wrapped(head, i, buffer.Length) != tail
      {
        WrappedDistinct(head, i, size, buffer.Length);
      }
      buffer[tail] := x;
      WrappedNext(head, size, buffer.Length);
      tail := Wrapped(tail, 1, buffer.Length);
      size := size + 1;
      ok := true;
    }

    /** `dequeue` once its wait is over. */
    method DequeueBody() returns (out: Option<T>)
      requires Valid() && (size > 0 || closed)
      modifies this`head, this`size
      ensures Valid()
      ensures (out, Contents()) == AfterDequeue(old(Contents()))
      ensures out == if old(Contents()) == [] then None else Some(old(Contents())[0])
      ensures Contents() == if out.Some? then old(Contents())[1..] else old(Contents())
    {
      if size == 0 && closed {
        return None;
      }
      Reduce(head, buffer.Length);
      assert Wrapped(head, 0, buffer.Length) == head;
      out := Some(buffer[head]);
      ghost var before := Contents();
      forall i | 0 <= i < size
        ensures Wrapped(Wrapped(head, 1, buffer.Length), i, buffer.Length) == Wrapped(head, i + 1, buffer.Length)
      {
        WrappedShift(head, i, buffer.Length);
      }
      head := Wrapped(head, 1, buffer.Length);
      size := size - 1;
      assert Contents() == before[1..];
    }

    /** `clear`: forgets the items and notifies nobody. */
    method Clear()
      requires Valid()
      modifies this`head, this`tail, this`size
      ensures Valid() && Contents() == []
    {
      head, tail, size := 0, 0, 0;
    }

    method Close()
      requires Valid()
      modifies this`closed
      ensures Valid() && closed && Contents() == old(Contents())
    {
      closed := true;
    }
  }

  /** The position `i` places after `head` in a circular buffer of length `n`. */
  function Wrapped(head: nat, i: nat, n: nat): (p: nat)
    requires n > 0
    ensures p < n
  {
    (head + i) % n
  }

  lemma WrappedDistinct(head: nat, i: nat, size: nat, n: nat)
    requires head < n && i < size < n
    ensures Wrapped(head, i, n) != Wrapped(head, size, n)
  {
    Reduce(head + i, n);
    Reduce(head + size, n);
  }

  lemma WrappedNext(head: nat, size: nat, n: nat)
    requires head < n && size < n
    ensures Wrapped(Wrapped(head, size, n), 1, n) == Wrapped(head, size + 1, n)
  {
    Reduce(head + size, n);
    Reduce(Wrapped(head, size, n) + 1, n);
    Reduce(head + size + 1, n);
  }

  lemma WrappedShift(head: nat, i: nat, n: nat)
    requires head < n && i < n
    ensures Wrapped(Wrapped(head, 1, n), i, n) == Wrapped(head, i + 1, n)
  {
    Reduce(head + 1, n);
    Reduce(Wrapped(head, 1, n) + i, n);
    Reduce(head + (i + 1), n);
  }

  /** Modulo on numbers at most twice the modulus. */
  lemma Reduce(a: nat, n: nat)
    requires 0 < n && a <= 2 * n
    ensures a % n == if a < n then a else if a < 2 * n then a - n else 0
  {
    var q := if a < n then 0 else if a < 2 * n then 1 else 2;
    DivModUnique(a, n, q, a - n * q);
  }
}
