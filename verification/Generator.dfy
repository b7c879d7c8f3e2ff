/**
 The feed generators. The stream of messages is described once, slot by slot; the unbatched and
 the batched `run`, each with its unpaced and its paced loop, are proved to put exactly that stream
 on the wire, or a prefix of it when a send fails, for every burst size and rate.
 */
module Generators {
  import opened Words
  import opened Wrappers
  import opened Codec
  import opened Senders
  import Lcg

  /** The gap parameters of `run`; gaps are injected only when both are positive. */
  datatype Gaps = Gaps(mod: I32, span: I32) {
    predicate Inject() {
      mod > 0 && span > 0
    }

    /** Does a draw of `r` turn the slot into a gap? */
    predicate IsGap(r: Lcg.State)
      requires Inject()
    {
      r % mod < span
    }
  }

  /** The feed after some slots: random state, next number, messages, gaps before each, gaps. */
  datatype Feed = Feed(rng: Lcg.State, seqNum: Word, msgs: seq<MarketDataMsg>, before: seq<nat>, gapSlots: nat)

  function Start(seed: I32): Feed {
    Feed(if seed <= 0 then 1 else seed, 0, [], [], 0)
  }

  /** Symbols are numbered from 1; without a symbol count there is only one. */
  function Symbol(symbols: U32, r: Lcg.State): (sym: U32)
    ensures 1 <= sym && (symbols != 0 ==> sym <= symbols)
  {
    if symbols == 0 then 1 else r % symbols + 1
  }

  function Message(symbols: U32, r: Lcg.State, n: Word): (m: MarketDataMsg)
    ensures m.seqNum == n && (n < TWO_63 ==> m.exchangeTs == n) && (n >= TWO_63 ==> m.exchangeTs < 0)
    ensures 1 <= m.symbolId && (symbols != 0 ==> m.symbolId <= symbols) && (symbols == 0 ==> m.symbolId == 1)
    ensures 10 <= m.bidPrice <= 1000 && m.askPrice == m.bidPrice + 1
    ensures 1 <= m.bidSize <= 100 && m.askSize == m.bidSize + 1
  {
    var bid, size := 10 + r % 991, 1 + r % 100;
    MarketDataMsg(n, Symbol(symbols, r), ToSigned(n, TWO_64), bid, bid + 1, size, size + 1)
  }

  /** One slot: a gap that skips `span + 1` numbers, or a message. */
  function Slot(symbols: U32, g: Gaps, f: Feed): Feed {
    var r := Lcg.NextRand(f.rng);
    if g.Inject() && g.IsGap(r) then
      GapSlot(g, f, r)
    else
      MessageSlot(symbols, f, if g.Inject() then Lcg.NextRand(r) else r)
  }

  function GapSlot(g: Gaps, f: Feed, r: Lcg.State): Feed
    requires g.Inject()
  {
    f.(rng := r, seqNum := (f.seqNum + g.span + 1) % TWO_64, gapSlots := f.gapSlots + 1)
  }

  function MessageSlot(symbols: U32, f: Feed, r: Lcg.State): Feed {
    f.(rng := r, seqNum := Inc(f.seqNum),
       msgs := f.msgs + [Message(symbols, r, f.seqNum)], before := f.before + [f.gapSlots])
  }

  function Slots(symbols: U32, g: Gaps, f: Feed, n: nat): Feed {
    if n == 0 then f else Slot(symbols, g, Slots(symbols, g, f, n - 1))
  }

  lemma SlotsNone(symbols: U32, g: Gaps, f: Feed)
    ensures Slots(symbols, g, f, 0) == f
  {
  }

  lemma {:induction false} SlotsAdd(symbols: U32, g: Gaps, f: Feed, m: nat, n: nat)
    ensures Slots(symbols, g, Slots(symbols, g, f, m), n) == Slots(symbols, g, f, m + n)
  {
    if n > 0 {
      SlotsAdd(symbols, g, f, m, n - 1);
    }
  }

  lemma {:induction false} SlotsExtend(symbols: U32, g: Gaps, f: Feed, n: nat)
    ensures f.msgs <= Slots(symbols, g, f, n).msgs
  {
    if n > 0 {
      SlotsExtend(symbols, g, f, n - 1);
    }
  }

  function Wires(msgs: seq<MarketDataMsg>): (ws: seq<seq<Byte>>)
    ensures |ws| == |msgs|
  {
    seq(|msgs|, i requires 0 <= i < |msgs| => Wire(msgs[i]))
  }

  // What the stream looks like

  /** A feed produced from the start, before any number can have wrapped. */
  ghost predicate WellNumbered(g: Gaps, f: Feed) {
    && |f.before| == |f.msgs|
    && f.seqNum == |f.msgs| + Skipped(g, f.gapSlots)
    && (forall i :: 0 <= i < |f.msgs| ==>
          && f.before[i] <= f.gapSlots
          && f.msgs[i].seqNum == i + Skipped(g, f.before[i]))
    && (forall i, j :: 0 <= i < j < |f.msgs| ==> f.before[i] <= f.before[j])
  }

  /** How many numbers `n` gap slots skip. */
  function Skipped(g: Gaps, n: nat): nat {
    if g.Inject() then n * (g.span + 1) else 0
  }

  lemma SkippedBound(g: Gaps, n: nat)
    requires n < TWO_31
    ensures n + Skipped(g, n) <= TWO_31 * TWO_31 + TWO_31
    ensures Skipped(g, n + 1) == Skipped(g, n) + if g.Inject() then g.span + 1 else 0
  {
    if g.Inject() {
      ProductBound(n, g.span + 1, TWO_31);
    }
  }

  lemma ProductBound(n: nat, s: nat, b: nat)
    requires n < b && s <= b
    ensures n + n * s <= b * b + b && (n + 1) * s == n * s + s
  {
    assert n * s <= b * s <= b * b;
  }

  lemma SkippedMonotone(g: Gaps, m: nat, n: nat)
    requires m <= n
    ensures Skipped(g, m) <= Skipped(g, n)
  {
    if g.Inject() {
      assert (n - m) * (g.span + 1) == n * (g.span + 1) - m * (g.span + 1);
    }
  }

  /**
   Every slot is a message or a gap, and within the 2^31 - 1 slots that `count` allows no number
   wraps: the next number counts the messages sent and the numbers the gaps skipped.
   */
  lemma {:induction false} SlotsAreCounted(symbols: U32, g: Gaps, seed: I32, n: nat)
    requires n < TWO_31
    ensures var f := Slots(symbols, g, Start(seed), n);
            && |f.msgs| + f.gapSlots == n
            && WellNumbered(g, f)
  {
    if n > 0 {
      SlotsAreCounted(symbols, g, seed, n - 1);
      var f := Slots(symbols, g, Start(seed), n - 1);
      SkippedBound(g, f.gapSlots);
      NumberSlot(symbols, g, f);
    }
  }

  lemma NumberMessage(symbols: U32, g: Gaps, f: Feed, r: Lcg.State)
    requires WellNumbered(g, f) && f.seqNum + 1 < TWO_64
    ensures WellNumbered(g, MessageSlot(symbols, f, r))
  {
  }

  lemma NumberGap(g: Gaps, f: Feed, r: Lcg.State)
    requires WellNumbered(g, f) && g.Inject() && f.seqNum + g.span + 1 < TWO_64
    requires Skipped(g, f.gapSlots + 1) == Skipped(g, f.gapSlots) + g.span + 1
    ensures WellNumbered(g, GapSlot(g, f, r))
  {
  }

  lemma NumberSlot(symbols: U32, g: Gaps, f: Feed)
    requires WellNumbered(g, f) && f.seqNum + TWO_31 < TWO_64
    requires Skipped(g, f.gapSlots + 1) == Skipped(g, f.gapSlots) + if g.Inject() then g.span + 1 else 0
    ensures var f' := Slot(symbols, g, f);
            && WellNumbered(g, f') && |f'.msgs| + f'.gapSlots == |f.msgs| + f.gapSlots + 1
  {
    var r := Lcg.NextRand(f.rng);
    if g.Inject() && g.IsGap(r) {
      NumberGap(g, f, r);
    } else {
      NumberMessage(symbols, g, f, if g.Inject() then Lcg.NextRand(r) else r);
    }
  }

  /** The numbers sent strictly increase. */
  lemma NumbersIncrease(g: Gaps, f: Feed, i: nat, j: nat)
    requires WellNumbered(g, f) && i < j < |f.msgs|
    ensures f.msgs[i].seqNum < f.msgs[j].seqNum
  {
    SkippedMonotone(g, f.before[i], f.before[j]);
  }

  method EncodeAll(host: ByteOrder, batch: seq<MarketDataMsg>) returns (frames: seq<TxFrame>)
    ensures |frames| == |batch|
    ensures forall j :: 0 <= j < |batch| ==> frames[j] == Some(Wire(batch[j]))
  {
    frames := [];
    for i := 0 to |batch|
      invariant |frames| == i && forall j :: 0 <= j < i ==> frames[j] == Some(Wire(batch[j]))
    {
      var encoded := Encode(host, batch[i]);
      frames := frames + [Some(encoded[..])];
    }
  }

  lemma WiresConcat(a: seq<MarketDataMsg>, b: seq<MarketDataMsg>)
    ensures Wires(a + b) == Wires(a) + Wires(b)
  {
  }

  /** `wire` is `start` followed by the first `k` messages of the feed. */
  ghost predicate SentPrefix(wire: seq<seq<Byte>>, start: seq<seq<Byte>>, f: Feed, k: nat) {
    k <= |f.msgs| && wire == start + Wires(f.msgs[..k])
  }

  ghost predicate SentAll(wire: seq<seq<Byte>>, start: seq<seq<Byte>>, f: Feed) {
    SentPrefix(wire, start, f, |f.msgs|)
  }

  ghost predicate SentPart(wire: seq<seq<Byte>>, start: seq<seq<Byte>>, f: Feed) {
    exists k: nat :: k < |f.msgs| && SentPrefix(wire, start, f, k)
  }

  /** Sending part of the next batch leaves a prefix of every longer stream on the wire. */
  lemma ExtendPrefix(symbols: U32, g: Gaps, f: Feed, slots: nat, rest: nat, batch: seq<MarketDataMsg>, sent: nat,
                     wire: seq<seq<Byte>>, start: seq<seq<Byte>>)
    requires SentAll(wire, start, f) && sent <= |batch|
    requires Slots(symbols, g, f, slots).msgs == f.msgs + batch
    ensures SentPrefix(wire + Wires(batch[..sent]), start, Slots(symbols, g, f, slots + rest), |f.msgs| + sent)
    ensures sent < |batch| ==> |f.msgs| + sent < |Slots(symbols, g, f, slots + rest).msgs|
    ensures sent == |batch| && rest == 0 ==> SentAll(wire + Wires(batch[..sent]), start, Slots(symbols, g, f, slots))
  {
    hide Slots, Wire;
    var next := Slots(symbols, g, f, slots);
    SlotsAdd(symbols, g, f, slots, rest);
    SlotsExtend(symbols, g, next, rest);
    var whole := Slots(symbols, g, f, slots + rest).msgs;
    assert f.msgs[..|f.msgs|] == f.msgs;
    assert whole[..|f.msgs| + sent] == f.msgs + batch[..sent];
    WiresConcat(f.msgs, batch[..sent]);
  }

  /** Nanoseconds per slot at a rate, rounded down as the code does. */
  function Interval(rate: nat): nat
    requires rate > 0
  {
    1_000_000_000 / rate
  }

  /** How many nanoseconds `n` slots take at a rate. */
  function TimeFor(rate: nat, n: nat): int
    requires rate > 0
  {
    Interval(rate) * n
  }

  lemma TimeAdds(rate: nat, m: nat, n: nat)
    requires rate > 0
    ensures TimeFor(rate, 0) == 0 && TimeFor(rate, m + n) == TimeFor(rate, m) + Interval(rate) * n
  {
    hide Interval;
    var interval := Interval(rate);
    assert interval * (m + n) == interval * m + interval * n;
  }

  /** That is the rate asked for, up to the rounding of one nanosecond per slot. */
  lemma TimeKeepsRate(rate: nat, n: nat)
    requires rate > 0
    ensures rate * TimeFor(rate, n) <= 1_000_000_000 * n <= rate * TimeFor(rate, n) + rate * n
  {
    var i := Interval(rate);
    assert rate * i <= 1_000_000_000 <= rate * i + rate;
    hide Interval;
    Scale(rate, i, n);
    Scale(rate, i + 1, n);
  }

  lemma Scale(rate: nat, i: nat, n: nat)
    ensures rate * (i * n) == (rate * i) * n && (i + 1) * n == i * n + n
    ensures rate * i <= 1_000_000_000 ==> (rate * i) * n <= 1_000_000_000 * n
    ensures rate * i >= 1_000_000_000 ==> (rate * i) * n >= 1_000_000_000 * n
  {
  }

  class Generator {
    var rng: Lcg.State
    var seqNum: Word
    var clock: int    // the steady clock, in nanoseconds
    const symbols: U32
    const sender: Sender

    constructor (symbols: U32, sender: Sender)
      ensures this.symbols == symbols && this.sender == sender
    {
      rng, seqNum, clock := 1, 0, 0;
      this.symbols, this.sender := symbols, sender;
    }

    ghost predicate At(f: Feed)
      reads this
    {
      rng == f.rng && seqNum == f.seqNum
    }

    /** `sleep_until`: returns at that time or `late` after it; at once if it has passed. */
    method SleepUntil(time: int, late: nat)
      modifies this`clock
      ensures time <= clock && old(clock) <= clock
    {
      if clock < time {
        clock := time;
      }
      clock := clock + late;
    }

    method NextRand() returns (r: Lcg.State)
      modifies this`rng, this`seqNum
      ensures r == rng == Lcg.NextRand(old(rng)) && seqNum == old(seqNum)
    {
      rng := (rng * 1664525 + 1013904223) % TWO_32;
      r := rng;
    }

    method MakeMessage() returns (m: MarketDataMsg)
      modifies this`rng, this`seqNum
      ensures rng == Lcg.NextRand(old(rng)) && seqNum == Inc(old(seqNum))
      ensures m == Message(symbols, rng, old(seqNum))
    {
      var r := NextRand();
      var sym := Symbol(symbols, r);
      var n := seqNum;
      seqNum := Inc(seqNum);
      var ts: int := ToSigned(n, TWO_64);
      var bid: int := 10 + r % 991;
      var ask: int := bid + 1;
      var size: int := 1 + r % 100;
      m := MarketDataMsg(n, sym, ts, bid, ask, size, size + 1);
    }

    /** The body that all four loops share: maybe a gap, otherwise a message. */
    method NextSlot(g: Gaps, ghost f: Feed) returns (m: Option<MarketDataMsg>)
      requires At(f)
      modifies this`rng, this`seqNum
      ensures At(Slot(symbols, g, f))
      ensures Slot(symbols, g, f).msgs == f.msgs + if m.Some? then [m.value] else []
    {
      if g.Inject() {
        var r := NextRand();
        if r % g.mod < g.span {
          seqNum := (seqNum + g.span + 1) % TWO_64;
          return None;
        }
      }
      var msg := MakeMessage();
      m := Some(msg);
    }

    method FillBatch(g: Gaps, slots: nat, ghost f: Feed) returns (batch: seq<MarketDataMsg>)
      requires At(f)
      modifies this`rng, this`seqNum
      ensures At(Slots(symbols, g, f, slots))
      ensures Slots(symbols, g, f, slots).msgs == f.msgs + batch
    {
      batch := [];
      for i := 0 to slots
        invariant At(Slots(symbols, g, f, i))
        invariant Slots(symbols, g, f, i).msgs == f.msgs + batch
      {
        var m := NextSlot(g, Slots(symbols, g, f, i));
        if m.Some? {
          batch := batch + [m.value];
        }
      }
    }

    /** `send_batch` and `send_or_fail`: encode every message and hand the frames to the sender. */
    method SendOrFail(host: ByteOrder, batch: seq<MarketDataMsg>, kernel: nat -> Answer, ghost calm: nat -> nat)
      returns (ok: bool, ghost sent: nat)
      requires CalmAfter(kernel, calm) && sender.fd >= 0
      modifies sender
      ensures sender.fd == old(sender.fd) && old(sender.calls) <= sender.calls
      ensures sent <= |batch| && ok == (sent == |batch|)
      ensures sender.wire == old(sender.wire) + Wires(batch[..sent])
      ensures Obliging(kernel, old(sender.calls), sender.calls) ==> ok
    {
      sent := 0;
      if batch == [] {
        return true, 0;
      }
      var frames := EncodeAll(host, batch);
      var n := sender.SendBatch(Some(frames), |frames|, kernel, calm);
      sent := n;
      assert Payloads(frames[..n]) == Wires(batch[..n]);
      if n == |batch| {
        return true, n;
      }
      var _ := batch[n].seqNum;    // logged as the first number that was not sent
      ok := false;
    }

    /** One turn of the batched loop: fill a batch and send it; `rest` slots would remain. */
    method Burst(host: ByteOrder, g: Gaps, slots: nat, kernel: nat -> Answer, ghost calm: nat -> nat,
                 ghost f: Feed, ghost rest: nat, ghost start: seq<seq<Byte>>)
      returns (ok: bool)
      requires CalmAfter(kernel, calm) && sender.fd >= 0 && At(f)
      requires SentAll(sender.wire, start, f)
      modifies this`rng, this`seqNum, sender
      ensures sender.fd == old(sender.fd) && old(sender.calls) <= sender.calls
      ensures At(Slots(symbols, g, f, slots))
      ensures ok ==> SentAll(sender.wire, start, Slots(symbols, g, f, slots))
      ensures !ok ==> SentPart(sender.wire, start, Slots(symbols, g, f, slots + rest))
      ensures Obliging(kernel, old(sender.calls), sender.calls) ==> ok
    {
      ghost var wire := sender.wire;
      var batch := FillBatch(g, slots, f);
      ghost var sent;
      ok, sent := SendOrFail(host, batch, kernel, calm);
      ExtendPrefix(symbols, g, f, slots, if ok then 0 else rest, batch, sent, wire, start);
    }

    /** The loop of the unpaced branch. */
    method Unpaced(host: ByteOrder, count: nat, g: Gaps, size: nat, kernel: nat -> Answer, ghost calm: nat -> nat,
                   ghost start: Feed)
      returns (ok: bool)
      requires CalmAfter(kernel, calm) && sender.fd >= 0 && size > 0 && At(start) && start.msgs == []
      modifies this`rng, this`seqNum, sender
      ensures sender.fd == old(sender.fd) && old(sender.calls) <= sender.calls
      ensures Outcome(ok, Slots(symbols, g, start, count), sender.wire, old(sender.wire))
      ensures Obliging(kernel, old(sender.calls), sender.calls) ==> ok
    {
      hide Slots;
      SlotsNone(symbols, g, start);
      var produced := 0;
      ghost var f := start;
      while produced < count
        invariant 0 <= produced <= count && sender.fd == old(sender.fd) && old(sender.calls) <= sender.calls
        invariant f == Slots(symbols, g, start, produced) && At(f)
        invariant SentAll(sender.wire, old(sender.wire), f)
      {
        var slots := if size < count - produced then size else count - produced;
        ghost var rest := count - produced - slots;
        var sentAll := Burst(host, g, slots, kernel, calm, f, rest, old(sender.wire));
        if !sentAll {
          SlotsAdd(symbols, g, start, produced, slots + rest);
          return false;
        }
        SlotsAdd(symbols, g, start, produced, slots);
        f := Slots(symbols, g, f, slots);
        produced := produced + slots;
      }
      ok := true;
    }

    /** The loop of the paced branch: each batch is followed by a wait for its share of the time. */
    method Paced(host: ByteOrder, count: nat, rate: I32, g: Gaps, size: nat, late: nat -> nat,
                 kernel: nat -> Answer, ghost calm: nat -> nat, ghost start: Feed)
      returns (ok: bool)
      requires CalmAfter(kernel, calm) && sender.fd >= 0 && size > 0 && rate > 0 && At(start) && start.msgs == []
      modifies this`rng, this`seqNum, this`clock, sender
      ensures sender.fd == old(sender.fd) && old(sender.calls) <= sender.calls
      ensures Outcome(ok, Slots(symbols, g, start, count), sender.wire, old(sender.wire))
      ensures Obliging(kernel, old(sender.calls), sender.calls) ==> ok
      ensures ok ==> clock - old(clock) >= TimeFor(rate, count)
    {
      hide Slots, TimeFor, Interval;
      SlotsNone(symbols, g, start);
      TimeAdds(rate, 0, 0);
      var interval := Interval(rate);
      var next := clock;
      var produced := 0;
      ghost var f := start;
      while produced < count
        invariant 0 <= produced <= count && sender.fd == old(sender.fd) && old(sender.calls) <= sender.calls
        invariant f == Slots(symbols, g, start, produced) && At(f)
        invariant SentAll(sender.wire, old(sender.wire), f)
        invariant next == old(clock) + TimeFor(rate, produced) && next <= clock
      {
        var slots := if size < count - produced then size else count - produced;
        ghost var rest := count - produced - slots;
        var sentAll := Burst(host, g, slots, kernel, calm, f, rest, old(sender.wire));
        if !sentAll {
          SlotsAdd(symbols, g, start, produced, slots + rest);
          return false;
        }
        SlotsAdd(symbols, g, start, produced, slots);
        f := Slots(symbols, g, f, slots);
        TimeAdds(rate, produced, slots);
        produced := produced + slots;
        next := next + interval * slots;
        SleepUntil(next, late(produced));
      }
      ok := true;
    }

    /**
     The batched `run`. Neither the rate nor the burst size occurs in what it puts on the wire: if
     it succeeds, the whole stream for these seed and gap parameters; if a send fails, a proper
     prefix of it. With a rate, success takes at least the time that the rate allows.
     */
    method Run(host: ByteOrder, count: I32, rate: I32, seed: I32, g: Gaps, burst: I32, late: nat -> nat,
               kernel: nat -> Answer, ghost calm: nat -> nat)
      returns (ok: bool)
      requires CalmAfter(kernel, calm)
      modifies this, sender
      ensures sender.fd < 0 ==> !ok
      ensures sender.fd < 0 || count <= 0 ==> sender.wire == old(sender.wire)
      ensures sender.fd >= 0 && count <= 0 ==> ok
      ensures sender.fd == old(sender.fd)
      ensures sender.fd >= 0 && count > 0 ==>
                Outcome(ok, Slots(symbols, g, Start(seed), count), sender.wire, old(sender.wire))
      ensures sender.fd >= 0 && count > 0 && rate > 0 && ok ==> clock - old(clock) >= TimeFor(rate, count)
      ensures sender.fd >= 0 && Obliging(kernel, old(sender.calls), sender.calls) ==> ok
    {
      if sender.fd < 0 {
        return false;
      }
      if count <= 0 {
        return true;
      }
      rng := if seed <= 0 then 1 else seed;
      seqNum := 0;
      var size := if burst <= 0 then 1 else burst;
      if rate <= 0 {
        ok := Unpaced(host, count, g, size, kernel, calm, Start(seed));
      } else {
        ok := Paced(host, count, rate, g, size, late, kernel, calm, Start(seed));
      }
    }

    /** What a call of `run` leaves behind: the whole feed, or a proper prefix of it. */
    ghost predicate Outcome(ok: bool, f: Feed, wire: seq<seq<Byte>>, start: seq<seq<Byte>>)
      reads this
    {
      if ok then At(f) && SentAll(wire, start, f) else SentPart(wire, start, f)
    }
  }

  /** The unbatched generator: one send per message, each of which may fail. */
  class UnbatchedGenerator {
    const core: Generator
    var connected: bool
    var wire: seq<seq<Byte>>

    constructor (core: Generator)
      ensures this.core == core && connected && wire == []
    {
      this.core := core;
      connected, wire := true, [];
    }

    /** One slot: nothing for a gap, otherwise one send; `rest` slots would remain. */
    method SendSlot(host: ByteOrder, g: Gaps, sends: nat -> bool, ghost f: Feed, ghost rest: nat,
                    ghost start: seq<seq<Byte>>)
      returns (ok: bool)
      requires core.At(f) && SentAll(wire, start, f)
      modifies this`wire, core`rng, core`seqNum
      ensures core.At(Slots(core.symbols, g, f, 1))
      ensures ok ==> SentAll(wire, start, Slots(core.symbols, g, f, 1))
      ensures !ok ==> SentPart(wire, start, Slots(core.symbols, g, f, 1 + rest)) && !sends(|wire|)
    {
      var m := core.NextSlot(g, f);
      assert Slots(core.symbols, g, f, 1) == Slot(core.symbols, g, Slots(core.symbols, g, f, 0));
      hide Slot, Wire;
      ghost var batch := if m.Some? then [m.value] else [];
      if m.Some? {
        if !sends(|wire|) {
          ExtendPrefix(core.symbols, g, f, 1, rest, batch, 0, wire, start);
          assert wire + Wires(batch[..0]) == wire;
          return false;
        }
        ExtendPrefix(core.symbols, g, f, 1, 0, batch, 1, wire, start);
        var encoded := Encode(host, m.value);
        wire := wire + [encoded[..]];
        assert Wires(batch[..1]) == [Wire(m.value)];
      }
      ok := true;
    }

    method Unpaced(host: ByteOrder, count: nat, g: Gaps, sends: nat -> bool, ghost start: Feed) returns (ok: bool)
      requires core.At(start) && start.msgs == []
      modifies this`wire, core`rng, core`seqNum
      ensures core.Outcome(ok, Slots(core.symbols, g, start, count), wire, old(wire))
      ensures !ok ==> !sends(|wire|)
    {
      hide Slots;
      SlotsNone(core.symbols, g, start);
      ghost var f := start;
      for i := 0 to count
        invariant f == Slots(core.symbols, g, start, i) && core.At(f)
        invariant SentAll(wire, old(wire), f)
      {
        SlotsAdd(core.symbols, g, start, i, count - i);
        SlotsAdd(core.symbols, g, start, i, 1);
        var sent := SendSlot(host, g, sends, f, count - (i + 1), old(wire));
        if !sent {
          return false;
        }
        f := Slots(core.symbols, g, f, 1);
      }
      ok := true;
    }

    method Paced(host: ByteOrder, count: nat, rate: I32, g: Gaps, late: nat -> nat, sends: nat -> bool,
                 ghost start: Feed)
      returns (ok: bool)
      requires core.At(start) && start.msgs == [] && rate > 0
      modifies this`wire, core`rng, core`seqNum, core`clock
      ensures core.Outcome(ok, Slots(core.symbols, g, start, count), wire, old(wire))
      ensures !ok ==> !sends(|wire|)
      ensures ok ==> core.clock - old(core.clock) >= TimeFor(rate, count)
    {
      hide Slots, TimeFor, Interval;
      SlotsNone(core.symbols, g, start);
      TimeAdds(rate, 0, 0);
      var interval := Interval(rate);
      var next := core.clock;
      ghost var f := start;
      for i := 0 to count
        invariant f == Slots(core.symbols, g, start, i) && core.At(f)
        invariant SentAll(wire, old(wire), f)
        invariant next == old(core.clock) + TimeFor(rate, i) && next <= core.clock
      {
        SlotsAdd(core.symbols, g, start, i, count - i);
        SlotsAdd(core.symbols, g, start, i, 1);
        var sent := SendSlot(host, g, sends, f, count - (i + 1), old(wire));
        if !sent {
          return false;
        }
        f := Slots(core.symbols, g, f, 1);
        TimeAdds(rate, i, 1);
        next := next + interval;
        core.SleepUntil(next, late(i));
      }
      ok := true;
    }

    /** The `v1` `run`: in both branches the same stream as the batched one. */
    method Run(host: ByteOrder, count: I32, rate: I32, seed: I32, g: Gaps, late: nat -> nat, sends: nat -> bool)
      returns (ok: bool)
      modifies this, core
      ensures connected == old(connected)
      ensures !connected ==> !ok
      ensures !connected || count <= 0 ==> wire == old(wire)
      ensures connected && count <= 0 ==> ok
      ensures connected && count > 0 ==>
                core.Outcome(ok, Slots(core.symbols, g, Start(seed), count), wire, old(wire))
      ensures connected && count > 0 && rate > 0 && ok ==>
                core.clock - old(core.clock) >= TimeFor(rate, count)
      ensures connected && !ok ==> !sends(|wire|)
    {
      if !connected {
        return false;
      }
      if count <= 0 {
        return true;
      }
      core.rng := if seed <= 0 then 1 else seed;
      core.seqNum := 0;
      if rate <= 0 {
        ok := Unpaced(host, count, g, sends, Start(seed));
      } else {
        ok := Paced(host, count, rate, g, late, sends, Start(seed));
      }
    }
  }
}
