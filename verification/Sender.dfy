/**
 The batch sender: hand a batch to `sendmmsg`, retry what the kernel did not take, and account
 for every frame. The kernel is an arbitrary sequence of answers.
 */
module Senders {
  import opened Wrappers
  import opened Codec

  const MAX_SEND_RETRIES: nat := 200
  const EINTR: nat := 4
  const EAGAIN: nat := 11
  const EWOULDBLOCK: nat := 11
  const ENOBUFS: nat := 105

  /** A frame to send: `None` is a null pointer. */
  type TxFrame = Option<seq<Byte>>

  /** One return of `sendmmsg`: how many messages it took (at most those offered), or an error. */
  datatype Answer = Took(n: nat) | Error(errno: nat)

  predicate IsTransient(errno: nat) {
    errno == EAGAIN || errno == EWOULDBLOCK || errno == ENOBUFS
  }

  predicate IsValid(f: TxFrame) {
    f.Some? && f.value != []
  }

  /** The frames of a batch; a null pointer is a batch of none. */
  function FramesOf(batch: Option<seq<TxFrame>>): seq<TxFrame> {
    if batch.Some? then batch.value else []
  }

  function Payloads(frames: seq<TxFrame>): (ps: seq<seq<Byte>>)
    ensures |ps| == |frames|
  {
    seq(|frames|, i requires 0 <= i < |frames| => if frames[i].Some? then frames[i].value else [])
  }

  function TotalBytes(ps: seq<seq<Byte>>): nat {
    if ps == [] then 0 else TotalBytes(ps[..|ps| - 1]) + |ps[|ps| - 1]|
  }

  lemma TotalBytesAppend(ps: seq<seq<Byte>>, p: seq<Byte>)
    ensures TotalBytes(ps + [p]) == TotalBytes(ps) + |p|
  {
    assert (ps + [p])[..|ps|] == ps;
  }

  /** No call in the range fails, other than by being interrupted. */
  ghost predicate Obliging(kernel: nat -> Answer, from: nat, to: nat) {
    forall i :: from <= i < to ==> kernel(i) == Error(EINTR) || (kernel(i).Took? && kernel(i).n > 0)
  }

  /** Signals do not arrive forever: after every call there is one that is not interrupted. */
  ghost predicate CalmAfter(kernel: nat -> Answer, calm: nat -> nat) {
    forall i: nat :: i <= calm(i) && kernel(calm(i)) != Error(EINTR)
  }

  // When the kernel asks to try again

  /** `EAGAIN` (which is `EWOULDBLOCK`) or `ENOBUFS`. */
  predicate IsRetry(a: Answer) {
    a == Error(11) || a == Error(105)
  }

  /** How many of the answers from `from` up to `to` ask to try again. */
  ghost function Retries(kernel: nat -> Answer, from: nat, to: nat): nat
    decreases to
  {
    if to <= from then 0 else Retries(kernel, from, to - 1) + if IsRetry(kernel(to - 1)) then 1 else 0
  }

  lemma {:induction false} RetriesAdd(kernel: nat -> Answer, a: nat, b: nat, c: nat)
    requires a <= b <= c
    ensures Retries(kernel, a, c) == Retries(kernel, a, b) + Retries(kernel, b, c)
    decreases c
  {
    if b < c {
      RetriesAdd(kernel, a, b, c - 1);
    }
  }

  /**
   How a round with `offered` frames ends: after interruptions and at most 200 requests to try again,
   it takes what the kernel takes, and gives up on any other answer or on the 201st request.
   */
  ghost predicate RoundEnds(kernel: nat -> Answer, from: nat, to: nat, offered: nat, n: nat) {
    && from < to && (forall i :: from <= i < to - 1 ==> kernel(i) == Error(4) || IsRetry(kernel(i)))
    && Retries(kernel, from, to - 1) <= 200 && kernel(to - 1) != Error(4)
    && (kernel(to - 1).Took? ==> n == if kernel(to - 1).n < offered then kernel(to - 1).n else offered)
    && (kernel(to - 1).Error? ==> n == 0 && (IsRetry(kernel(to - 1)) ==> Retries(kernel, from, to - 1) == 200))
  }

  /** The calls from `from` on were a round with all frames from `sent` on, and it took none. */
  ghost predicate GaveUp(kernel: nat -> Answer, from: nat, to: nat, frames: seq<TxFrame>, sent: int) {
    0 <= sent < |frames| && RoundEnds(kernel, from, to, |frames| - sent, 0)
  }

  /** So patience pays: with interruptions and up to 200 requests to try again first,
      what the kernel then takes is sent. */
  lemma RetryPays(kernel: nat -> Answer, from: nat, at: nat, to: nat, offered: nat, n: nat)
    requires RoundEnds(kernel, from, to, offered, n) && offered > 0
    requires from <= at && (forall i :: from <= i < at ==> kernel(i) == Error(4) || IsRetry(kernel(i)))
    requires Retries(kernel, from, at) <= 200 && kernel(at).Took? && kernel(at).n > 0
    ensures to == at + 1 && n > 0
  {
    if to - 1 < at {
      RetriesAdd(kernel, from, to - 1, at);
      RetriesAdd(kernel, to - 1, to, at);
    }
  }

  /** Fill the message headers of one round, or give up at the first invalid frame. */
  method Gather(frames: seq<TxFrame>) returns (rest: Option<seq<seq<Byte>>>)
    ensures rest.Some? <==> forall i :: 0 <= i < |frames| ==> IsValid(frames[i])
    ensures rest.Some? ==> rest.value == Payloads(frames)
  {
    var ps: seq<seq<Byte>> := [];
    for i := 0 to |frames|
      invariant |ps| == i && forall j :: 0 <= j < i ==> IsValid(frames[j]) && ps[j] == frames[j].value
    {
      if !IsValid(frames[i]) {
        return None;
      }
      ps := ps + [frames[i].value];
    }
    rest := Some(ps);
  }

  /** What has gone out: how many packets and bytes the statistics claim, and what the kernel took. */
  datatype Outgoing = Outgoing(packets: nat, bytes: nat, wire: seq<seq<Byte>>)

  function AfterSending(o: Outgoing, taken: seq<seq<Byte>>): Outgoing {
    Outgoing(o.packets + |taken|, o.bytes + TotalBytes(taken), o.wire + taken)
  }

  lemma SendNothing(o: Outgoing)
    ensures AfterSending(o, []) == o
  {
  }

  lemma SendTwice(o: Outgoing, frames: seq<TxFrame>, sent: nat, n: nat)
    requires sent + n <= |frames|
    ensures AfterSending(AfterSending(o, Payloads(frames[..sent])), Payloads(frames[sent..])[..n])
            == AfterSending(o, Payloads(frames[..sent + n]))
  {
    var a, b := Payloads(frames[..sent]), Payloads(frames[sent..])[..n];
    assert Payloads(frames[..sent + n]) == a + b;
    TotalBytesConcat(a, b);
    assert o.wire + (a + b) == (o.wire + a) + b;
  }

  class Sender {
    var fd: int
    var sentPackets: nat
    var sentBytes: nat
    var sentErrors: nat
    var eagain: nat
    var calls: nat                 // calls of sendmmsg so far
    var wire: seq<seq<Byte>>       // what the kernel has accepted

    constructor (fd: int)
      ensures this.fd == fd && Sent() == Outgoing(0, 0, []) && sentErrors == 0 && eagain == 0 && calls == 0
    {
      this.fd := fd;
      sentPackets, sentBytes, sentErrors, eagain, calls := 0, 0, 0, 0, 0;
      wire := [];
    }

    function Sent(): Outgoing
      reads this
    {
      Outgoing(sentPackets, sentBytes, wire)
    }

    /** Account for the frames the kernel took. */
    method CountSent(taken: seq<seq<Byte>>)
      modifies this`sentPackets, this`sentBytes, this`wire
      ensures Sent() == AfterSending(old(Sent()), taken)
    {
      for i := 0 to |taken|
        invariant sentPackets == old(sentPackets) + i
        invariant sentBytes == old(sentBytes) + TotalBytes(taken[..i])
        invariant wire == old(wire)
      {
        assert taken[..i + 1] == taken[..i] + [taken[i]];
        TotalBytesAppend(taken[..i], taken[i]);
        sentPackets := sentPackets + 1;
        sentBytes := sentBytes + |taken[i]|;
      }
      assert taken[..|taken|] == taken;
      wire := wire + taken;
    }

    /** One round: offer `rest` until the kernel takes some of it or the attempt is given up. */
    method SendRound(rest: seq<seq<Byte>>, kernel: nat -> Answer, ghost calm: nat -> nat) returns (n: nat)
      requires rest != [] && CalmAfter(kernel, calm)
      modifies this
      ensures n <= |rest| && fd == old(fd)
      ensures Sent() == AfterSending(old(Sent()), rest[..n])
      ensures sentErrors == old(sentErrors) + if n == 0 then 1 else 0
      ensures old(eagain) <= eagain <= old(eagain) + MAX_SEND_RETRIES + if n == 0 then 1 else 0
      ensures eagain == old(eagain) + Retries(kernel, old(calls), calls)
      ensures RoundEnds(kernel, old(calls), calls, |rest|, n)
      ensures old(calls) < calls
      ensures Obliging(kernel, old(calls), calls) ==> n > 0
    {
      hide AfterSending, TotalBytes;
      SendNothing(Sent());
      assert rest[..0] == [];
      var retry := 0;
      ghost var quiet := calm(calls);
      while true
        invariant Sent() == old(Sent()) && fd == old(fd) && sentErrors == old(sentErrors)
        invariant 0 <= retry <= MAX_SEND_RETRIES && eagain == old(eagain) + retry
        invariant retry == Retries(kernel, old(calls), calls)
        invariant forall i :: old(calls) <= i < calls ==> kernel(i) == Error(4) || IsRetry(kernel(i))
        invariant old(calls) <= calls <= quiet && kernel(quiet) != Error(EINTR)
        invariant retry > 0 ==> exists i :: old(calls) <= i < calls && kernel(i).Error? && kernel(i) != Error(EINTR)
        decreases MAX_SEND_RETRIES - retry, quiet - calls
      {
        ghost var call := calls;
        var answer := kernel(calls);
        calls := calls + 1;
        match answer
        case Took(k) =>
          n := if k <= |rest| then k else |rest|;
          if n > 0 {
            CountSent(rest[..n]);
            return;
          }
          assert kernel(call) == Took(0);
          sentErrors := sentErrors + 1;
          return 0;
        case Error(errno) =>
          if errno == EINTR {
            continue;
          }
          assert kernel(call).Error? && kernel(call) != Error(EINTR);
          if IsTransient(errno) {
            eagain := eagain + 1;
            if retry < MAX_SEND_RETRIES {
              retry := retry + 1;
              quiet := calm(calls);
              continue;
            }
          }
          sentErrors := sentErrors + 1;
          return 0;
      }
    }

    /**
     `send_batch`: terminates whatever the kernel does; the kernel has then accepted exactly the
     first `sent` frames, once each and in order, the counters agree with that, and one error is
     counted exactly when something was left unsent.
     */
    method SendBatch(batch: Option<seq<TxFrame>>, count: nat, kernel: nat -> Answer, ghost calm: nat -> nat)
      returns (sent: int)
      requires CalmAfter(kernel, calm) && (batch.Some? ==> |batch.value| == count)
      modifies this
      ensures fd == old(fd)
      ensures fd < 0 || (batch.None? && count != 0) ==>
                sent == -1 && sentErrors == old(sentErrors) + 1 && Sent() == old(Sent()) && eagain == old(eagain)
      ensures fd >= 0 && (batch.Some? || count == 0) ==>
                var frames := FramesOf(batch);
                && 0 <= sent <= |frames| && (forall i :: 0 <= i < sent ==> IsValid(frames[i]))
                && Sent() == AfterSending(old(Sent()), Payloads(frames[..sent]))
                && sentErrors == old(sentErrors) + (if sent < |frames| then 1 else 0)
                && eagain <= old(eagain) + MAX_SEND_RETRIES * sent + MAX_SEND_RETRIES + 1
                && eagain == old(eagain) + Retries(kernel, old(calls), calls)
      ensures fd >= 0 && (batch.Some? || count == 0) && sent < |FramesOf(batch)| ==>
                || (exists i :: sent <= i < |FramesOf(batch)| && !IsValid(FramesOf(batch)[i]))
                || (exists from :: old(calls) <= from && GaveUp(kernel, from, calls, FramesOf(batch), sent))
      ensures old(calls) <= calls
      ensures fd >= 0 && (batch.Some? || count == 0) && Obliging(kernel, old(calls), calls) ==>
                var frames := FramesOf(batch);
                (forall i :: 0 <= i < |frames| ==> IsValid(frames[i])) ==> sent == |frames|
    {
      hide AfterSending, TotalBytes;
      SendNothing(Sent());
      if fd < 0 || (batch.None? && count != 0) {
        sentErrors := sentErrors + 1;
        return -1;
      }
      var frames := FramesOf(batch);
      sent := 0;
      assert Payloads(frames[..0]) == [];
      while sent < |frames|
        invariant fd == old(fd) && 0 <= sent <= |frames| && old(calls) <= calls
        invariant forall i :: 0 <= i < sent ==> IsValid(frames[i])
        invariant Sent() == AfterSending(old(Sent()), Payloads(frames[..sent]))
        invariant sentErrors == old(sentErrors)
        invariant eagain <= old(eagain) + MAX_SEND_RETRIES * sent
        invariant eagain == old(eagain) + Retries(kernel, old(calls), calls)
      {
        var rest := Gather(frames[sent..]);
        if rest.None? {
          sentErrors := sentErrors + 1;
          return;
        }
        ghost var before := calls;
        var n := SendRound(rest.value, kernel, calm);
        RetriesAdd(kernel, old(calls), before, calls);
        if n == 0 {
          assert GaveUp(kernel, before, calls, frames, sent);
          assert rest.value[..0] == [];
          SendNothing(AfterSending(old(Sent()), Payloads(frames[..sent])));
          return;
        }
        SendTwice(old(Sent()), frames, sent, n);
        sent := sent + n;
      }
    }
  }

  lemma {:induction false} TotalBytesConcat(a: seq<seq<Byte>>, b: seq<seq<Byte>>)
    ensures TotalBytes(a + b) == TotalBytes(a) + TotalBytes(b)
    decreases |b|
  {
    if b == [] {
      assert a + b == a;
    } else {
      var n := |b| - 1;
      TotalBytesConcat(a, b[..n]);
      assert a + b == (a + b[..n]) + [b[n]];
      TotalBytesAppend(a + b[..n], b[n]);
    }
  }
}
