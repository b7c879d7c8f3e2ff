/**
 Which slots of the feed are gaps, which draws its messages are made of, and that every value a
 message can take does occur: what the choice of seed and gap parameters means.
 */
module FeedLaws {
  import opened Words
  import opened Codec
  import opened Generators
  import Lcg

  // Gaps

  /** A feed about to draw from state `x`. */
  function FeedAt(x: Lcg.State): Feed {
    Feed(x, 0, [], [], 0)
  }

  /** Does the slot that draws from state `x` become a gap? */
  predicate MakesGap(symbols: U32, g: Gaps, x: Lcg.State) {
    Slot(symbols, g, FeedAt(x)).gapSlots == 1
  }

  /** Whether a slot is a gap depends on the state alone; otherwise it brings exactly one message. */
  lemma SlotIsGapOrMessage(symbols: U32, g: Gaps, f: Feed)
    ensures var f' := Slot(symbols, g, f);
            if MakesGap(symbols, g, f.rng) then f'.gapSlots == f.gapSlots + 1 && f'.msgs == f.msgs
            else f'.gapSlots == f.gapSlots && |f'.msgs| == |f.msgs| + 1
  {
  }

  /** Without both parameters positive there are no gaps: every slot is a message. */
  lemma {:induction false} NoGaps(symbols: U32, g: Gaps, seed: I32, n: nat)
    requires g.mod <= 0 || g.span <= 0
    ensures var f := Slots(symbols, g, Start(seed), n); f.gapSlots == 0 && |f.msgs| == n
  {
    if n > 0 {
      NoGaps(symbols, g, seed, n - 1);
    }
  }

  /** With a span of at least the modulus there is nothing else: no message is ever sent. */
  lemma {:induction false} OnlyGaps(symbols: U32, g: Gaps, seed: I32, n: nat)
    requires 0 < g.mod <= g.span
    ensures var f := Slots(symbols, g, Start(seed), n); f.gapSlots == n && f.msgs == []
  {
    if n > 0 {
      OnlyGaps(symbols, g, seed, n - 1);
    }
  }

  /** How many of the `n` states from `x` on make a gap. */
  function GapCount(symbols: U32, g: Gaps, x: Lcg.State, n: nat): nat {
    if n == 0 then 0
    else GapCount(symbols, g, x, n - 1) + if MakesGap(symbols, g, Lcg.Rand(x, n - 1)) then 1 else 0
  }

  lemma GapIffSmall(symbols: U32, g: Gaps, x: Lcg.State, k: nat)
    requires g.mod == Pow2(k) && g.span > 0
    ensures MakesGap(symbols, g, x) <==> Lcg.NextRand(x) % Pow2(k) < g.span
  {
  }

  lemma {:induction false} GapCountIsBelow(symbols: U32, g: Gaps, x: Lcg.State, n: nat, k: nat)
    requires g.mod == Pow2(k) && g.span > 0
    ensures GapCount(symbols, g, x, n) == Lcg.CountBelow(Lcg.NextRand(x), n, k, g.span)
  {
    hide MakesGap;
    if n > 0 {
      GapCountIsBelow(symbols, g, x, n - 1, k);
      GapIffSmall(symbols, g, Lcg.Rand(x, n - 1), k);
      Lcg.RandAdd(x, 1, n - 1);
      assert Lcg.Rand(x, 1) == Lcg.NextRand(x) by {
        assert Lcg.Rand(x, 0) == x;
      }
      assert Lcg.Rand(x, n) == Lcg.NextRand(Lcg.Rand(x, n - 1));
    }
  }

  /**
   The rate of gaps: when the modulus is a power of two, then of any `mod` consecutive draws exactly
   `span`, or all if `span` exceeds `mod`, make a gap, from every state.
   */
  lemma GapsPerPeriod(symbols: U32, g: Gaps, x: Lcg.State, k: nat)
    requires k <= 32 && g.mod == Pow2(k) && g.span > 0
    ensures GapCount(symbols, g, x, Pow2(k)) == if Pow2(k) < g.span then Pow2(k) else g.span
  {
    GapCountIsBelow(symbols, g, x, Pow2(k), k);
    Lcg.EvenlySpread(Lcg.NextRand(x), k, g.span);
  }

  // Draws

  /** Draws for a message: one to decide that there is no gap, if there can be any, and one to make it. */
  function DrawsPerMessage(g: Gaps): nat {
    if g.mod > 0 && g.span > 0 then 2 else 1
  }

  /** How many draws the first `msgs` messages and `gaps` gaps take. */
  function Draws(g: Gaps, msgs: nat, gaps: nat): nat {
    gaps + DrawsPerMessage(g) * msgs
  }

  /** The feed is a function of the numbered draws from the seed, and message `i` is made of the last draw before it. */
  ghost predicate DrawnFrom(symbols: U32, g: Gaps, x: Lcg.State, f: Feed) {
    && |f.before| == |f.msgs| && f.rng == Lcg.Rand(x, Draws(g, |f.msgs|, f.gapSlots))
    && forall i :: 0 <= i < |f.msgs| ==>
         f.msgs[i] == Message(symbols, Lcg.Rand(x, Draws(g, i + 1, f.before[i])), f.msgs[i].seqNum)
  }

  lemma SlotIsDrawn(symbols: U32, g: Gaps, x: Lcg.State, f: Feed)
    requires DrawnFrom(symbols, g, x, f)
    ensures DrawnFrom(symbols, g, x, Slot(symbols, g, f))
  {
    var n := Draws(g, |f.msgs|, f.gapSlots);
    assert Lcg.Rand(x, n + 1) == Lcg.NextRand(f.rng);
    assert Lcg.Rand(x, n + 2) == Lcg.NextRand(Lcg.Rand(x, n + 1));
    MoreDraws(g, |f.msgs|, f.gapSlots);
    hide Lcg.Rand, Lcg.NextRand, Message, Draws;
  }

  lemma MoreDraws(g: Gaps, msgs: nat, gaps: nat)
    ensures Draws(g, msgs + 1, gaps) == Draws(g, msgs, gaps) + DrawsPerMessage(g)
    ensures Draws(g, msgs, gaps + 1) == Draws(g, msgs, gaps) + 1
  {
  }

  /** So it is for every seed, which is itself the first state, and every number of slots. */
  lemma {:induction false} FeedIsDrawn(symbols: U32, g: Gaps, seed: I32, n: nat)
    requires seed > 0
    ensures DrawnFrom(symbols, g, seed, Slots(symbols, g, Start(seed), n))
  {
    if n == 0 {
      assert Lcg.Rand(seed, 0) == seed;
    } else {
      FeedIsDrawn(symbols, g, seed, n - 1);
      SlotIsDrawn(symbols, g, seed, Slots(symbols, g, Start(seed), n - 1));
    }
  }

  /** A seed that is not positive counts as 1. */
  lemma OtherSeeds(symbols: U32, g: Gaps, seed: I32, n: nat)
    requires seed <= 0
    ensures Slots(symbols, g, Start(seed), n) == Slots(symbols, g, Start(1), n)
  {
    assert Start(seed) == Start(1);
  }

  // Values

  lemma StateOccurs(x: Lcg.State, r: Lcg.State) returns (i: nat)
    ensures Lcg.Rand(x, i) == r
  {
    hide Lcg.Rand, Pow2;
    Pow2Words();
    Lcg.EveryValueOccurs(x, 32, r);
    i :| 0 <= i < Pow2(32) && Lcg.Rand(x, i) % Pow2(32) == r;
  }

  lemma SmallDraw(symbols: U32, n: Word, r: Lcg.State)
    ensures r < 991 ==> Message(symbols, r, n).bidPrice == 10 + r
    ensures r < 100 ==> Message(symbols, r, n).bidSize == 1 + r
    ensures r < symbols ==> Message(symbols, r, n).symbolId == 1 + r
  {
    hide ToSigned;
    if r < symbols {
      DivModUnique(r, symbols, 0, r);
      assert Symbol(symbols, r) == 1 + r;
    }
    hide Symbol;
  }

  /** From every seed each of the 991 bids, the 100 sizes and the symbols is the value of some draw. */
  lemma EveryValueOccurs(symbols: U32, x: Lcg.State, n: Word, bid: nat, size: nat, symbol: nat)
    returns (i: nat, j: nat, k: nat)
    requires 10 <= bid <= 1000 && 1 <= size <= 100 && 1 <= symbol <= symbols
    ensures Message(symbols, Lcg.Rand(x, i), n).bidPrice == bid
    ensures Message(symbols, Lcg.Rand(x, j), n).bidSize == size
    ensures Message(symbols, Lcg.Rand(x, k), n).symbolId == symbol
  {
    hide Lcg.Rand, Message;
    SmallDraw(symbols, n, bid - 10);
    SmallDraw(symbols, n, size - 1);
    SmallDraw(symbols, n, symbol - 1);
    i := StateOccurs(x, bid - 10);
    j := StateOccurs(x, size - 1);
    k := StateOccurs(x, symbol - 1);
  }

  /** The first two messages for seed 1 and five symbols, and the first with gaps: modulus 100, span 3. */
  lemma FirstMessages()
    ensures Slots(5, Gaps(0, 0), Start(1), 2).msgs ==
            [MarketDataMsg(0, 4, 0, 877, 878, 49, 50), MarketDataMsg(1, 3, 1, 158, 159, 68, 69)]
    ensures Slots(5, Gaps(100, 3), Start(1), 1).msgs == [MarketDataMsg(0, 3, 0, 158, 159, 68, 69)]
    ensures Slots(5, Gaps(100, 49), Start(1), 1) == Feed(1_015_568_748, 50, [], [], 1)
  {
    assert Lcg.NextRand(1) == 1_015_568_748 && Lcg.NextRand(1_015_568_748) == 1_586_005_467;
    var none, some, more := Gaps(0, 0), Gaps(100, 3), Gaps(100, 49);
    var f0 := Start(1);
    assert Slots(5, none, f0, 0) == Slots(5, some, f0, 0) == Slots(5, more, f0, 0) == Feed(1, 0, [], [], 0);
    var f1 := Slot(5, none, f0);
    assert f1 == Feed(1_015_568_748, 1, [MarketDataMsg(0, 4, 0, 877, 878, 49, 50)], [0], 0);
    assert Slots(5, none, f0, 1) == f1;
    assert Slots(5, some, f0, 1) == Slot(5, some, f0) && Slots(5, more, f0, 1) == Slot(5, more, f0);
    assert Slots(5, none, f0, 2) == Slot(5, none, f1);
  }
}
