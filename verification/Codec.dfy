/**
 The fixed 44-byte wire format: seven big-endian fields, written and read field by field through
 host integers of either byte order.
 */
module Codec {
  import opened Words
  import opened Wrappers

  const WIRE_SIZE: nat := 44
  const TWO_63: int := 0x8000_0000_0000_0000
  const TWO_31: int := 0x8000_0000

  type Byte = x: nat | x < 256
  type U32 = x: nat | x < TWO_32
  type I32 = x: int | -TWO_31 <= x < TWO_31
  type I64 = x: int | -TWO_63 <= x < TWO_63
  type Frame = bs: seq<Byte> | |bs| == WIRE_SIZE witness seq(WIRE_SIZE, _ => 0)

  datatype MarketDataMsg = MarketDataMsg(
    seqNum: Word, symbolId: U32, exchangeTs: I64, bidPrice: I64, askPrice: I64, bidSize: I32, askSize: I32)

  datatype ByteOrder = LittleEndian | BigEndian

  function Pow256(n: nat): (p: nat)
    ensures p > 0
  {
    if n == 0 then 1 else 256 * Pow256(n - 1)
  }

  /** The low `n` bytes of `v`, most significant first. */
  function ToBytes(v: nat, n: nat): (bs: seq<Byte>)
    ensures |bs| == n
  {
    if n == 0 then [] else ToBytes(v / 256, n - 1) + [v % 256]
  }

  function FromBytes(bs: seq<Byte>): nat {
    if bs == [] then 0 else 256 * FromBytes(bs[..|bs| - 1]) + bs[|bs| - 1]
  }

  function Reverse(bs: seq<Byte>): (r: seq<Byte>)
    ensures |r| == |bs|
    ensures forall i :: 0 <= i < |bs| ==> r[i] == bs[|bs| - 1 - i]
  {
    if bs == [] then [] else [bs[|bs| - 1]] + Reverse(bs[..|bs| - 1])
  }

  lemma {:induction false} FromToBytes(v: nat, n: nat)
    requires v < Pow256(n)
    ensures FromBytes(ToBytes(v, n)) == v
  {
    if n > 0 {
      FromToBytes(v / 256, n - 1);
      assert ToBytes(v, n)[..n - 1] == ToBytes(v / 256, n - 1);
    }
  }

  lemma {:induction false} ToFromBytes(bs: seq<Byte>)
    ensures FromBytes(bs) < Pow256(|bs|)
    ensures ToBytes(FromBytes(bs), |bs|) == bs
  {
    if bs != [] {
      ToFromBytes(bs[..|bs| - 1]);
      assert bs == bs[..|bs| - 1] + [bs[|bs| - 1]];
    }
  }

  /** Most significant first: byte `i` of `n` is the digit of weight `256^(n - 1 - i)`. */
  lemma {:induction false} ByteAt(v: nat, n: nat, i: nat)
    requires i < n
    ensures ToBytes(v, n)[i] == (v / Pow256(n - 1 - i)) % 256
  {
    if i == n - 1 {
      assert Pow256(0) == 1;
    } else {
      ByteAt(v / 256, n - 1, i);
      DivideTwice(v, 256, Pow256(n - 2 - i));
    }
  }

  lemma DivideTwice(v: nat, a: nat, b: nat)
    requires a > 0 && b > 0
    ensures (v / a) / b == v / (a * b)
  {
    var q := v / a;
    var p := q / b;
    var r := (q % b) * a + v % a;
    assert v == a * q + v % a && q == b * p + q % b;
    assert a * q == (a * b) * p + a * (q % b) by {
      assert a * (b * p) == (a * b) * p;
      assert a * (b * p + q % b) == a * (b * p) + a * (q % b);
    }
    SmallerProduct(a, q % b, b, v % a);
    DivModUnique(v, a * b, p, r);
  }

  lemma SmallerProduct(a: nat, x: nat, b: nat, y: nat)
    requires x < b && y < a
    ensures x * a + y < a * b && x * a == a * x
  {
    assert a * (x + 1) <= a * b;
  }

  /** The value of bytes is the sum of the digits by weight. */
  lemma {:induction false} ValueOf(bs: seq<Byte>)
    ensures bs != [] ==> FromBytes(bs) == bs[0] * Pow256(|bs| - 1) + FromBytes(bs[1..])
  {
    if |bs| > 1 {
      var n := |bs| - 1;
      ValueOf(bs[..n]);
      assert bs[1..][..n - 1] == bs[..n][1..];
      Weigh(bs[0], Pow256(n - 1), FromBytes(bs[..n][1..]));
    } else if bs != [] {
      assert bs[1..] == [] && bs[..0] == [] && Pow256(0) == 1;
    }
  }

  lemma Weigh(d: nat, p: nat, rest: nat)
    ensures 256 * (d * p + rest) == d * (256 * p) + 256 * rest
  {
  }

  /** The bytes that `memcpy` copies out of an `n`-byte host integer. */
  function HostBytes(host: ByteOrder, v: nat, n: nat): (bs: seq<Byte>)
    ensures |bs| == n
  {
    if host.BigEndian? then ToBytes(v, n) else Reverse(ToBytes(v, n))
  }

  /** The host integer that `memcpy` builds from bytes. */
  function FromHostBytes(host: ByteOrder, bs: seq<Byte>): nat {
    if host.BigEndian? then FromBytes(bs) else FromBytes(Reverse(bs))
  }

  /** `__builtin_bswap`: the integer with its `n` bytes in the opposite order. */
  function ByteSwap(v: nat, n: nat): nat {
    FromBytes(Reverse(ToBytes(v, n)))
  }

  /** `host_to_be` and `be_to_host`: a swap on a little-endian host, nothing on a big-endian one. */
  function SwapIfLittle(host: ByteOrder, v: nat, n: nat): nat {
    if host.LittleEndian? then ByteSwap(v, n) else v
  }

  lemma ReverseTwice(bs: seq<Byte>)
    ensures Reverse(Reverse(bs)) == bs
  {
  }

  /** Whichever byte order the host has, the bytes put on the wire are the big-endian ones. */
  lemma WireBytesAreBigEndian(host: ByteOrder, v: nat, n: nat)
    ensures HostBytes(host, SwapIfLittle(host, v, n), n) == ToBytes(v, n)
  {
    ToFromBytes(Reverse(ToBytes(v, n)));
    ReverseTwice(ToBytes(v, n));
  }

  /** Whichever byte order the host has, wire bytes are read back as a big-endian number. */
  lemma ReadIsBigEndian(host: ByteOrder, bs: seq<Byte>)
    ensures SwapIfLittle(host, FromHostBytes(host, bs), |bs|) == FromBytes(bs)
  {
    ToFromBytes(Reverse(bs));
    ReverseTwice(bs);
  }

  /** `static_cast` from a signed to an unsigned type of the same width, `w` values wide. */
  function ToUnsigned(i: int, w: int): (u: nat)
    requires w % 2 == 0 && -w <= 2 * i < w
    ensures u < w
  {
    if i < 0 then i + w else i
  }

  /** `static_cast` from an unsigned to a signed type of the same width. */
  function ToSigned(u: nat, w: int): (i: int)
    requires w % 2 == 0 && u < w
    ensures -w <= 2 * i < w
  {
    if 2 * u >= w then u - w else u
  }

  /** Two's complement: the unsigned value is the signed one modulo the number of values. */
  lemma TwosComplement(i: int, w: int)
    requires w > 0 && w % 2 == 0 && -w <= 2 * i < w
    ensures ToUnsigned(i, w) == i % w && ToSigned(ToUnsigned(i, w), w) == i
  {
    DivModUnique(i, w, if i < 0 then -1 else 0, ToUnsigned(i, w));
  }

  /** The layout: where each field of a message lies on the wire. */
  function Wire(m: MarketDataMsg): Frame {
    ToBytes(m.seqNum, 8)
    + ToBytes(m.symbolId, 4)
    + ToBytes(ToUnsigned(m.exchangeTs, TWO_64), 8)
    + ToBytes(ToUnsigned(m.bidPrice, TWO_64), 8)
    + ToBytes(ToUnsigned(m.askPrice, TWO_64), 8)
    + ToBytes(ToUnsigned(m.bidSize, TWO_32), 4)
    + ToBytes(ToUnsigned(m.askSize, TWO_32), 4)
  }

  function Field64(bs: seq<Byte>, off: nat): Word
    requires off + 8 <= |bs|
  {
    FieldFits(bs[off..off + 8]);
    FromBytes(bs[off..off + 8])
  }

  function Field32(bs: seq<Byte>, off: nat): U32
    requires off + 4 <= |bs|
  {
    FieldFits(bs[off..off + 4]);
    FromBytes(bs[off..off + 4])
  }

  lemma Pow256Words()
    ensures Pow256(4) == TWO_32 && Pow256(8) == TWO_64
  {
    assert Pow256(4) == TWO_32;
  }

  lemma FieldFits(bs: seq<Byte>)
    ensures |bs| == 4 ==> FromBytes(bs) < TWO_32
    ensures |bs| == 8 ==> FromBytes(bs) < TWO_64
  {
    ToFromBytes(bs);
    Pow256Words();
  }

  /** The message in the first 44 bytes; shorter buffers are refused, further bytes ignored. */
  function Parse(bs: seq<Byte>): Option<MarketDataMsg> {
    if |bs| < WIRE_SIZE then
      None
    else
      Some(MarketDataMsg(
             Field64(bs, 0), Field32(bs, 8),
             ToSigned(Field64(bs, 12), TWO_64),
             ToSigned(Field64(bs, 20), TWO_64),
             ToSigned(Field64(bs, 28), TWO_64),
             ToSigned(Field32(bs, 36), TWO_32),
             ToSigned(Field32(bs, 40), TWO_32)))
  }

  lemma FieldsOfWire(m: MarketDataMsg, rest: seq<Byte>)
    ensures var w := Wire(m) + rest;
            && w[0..8] == ToBytes(m.seqNum, 8)
            && w[8..12] == ToBytes(m.symbolId, 4)
            && w[12..20] == ToBytes(ToUnsigned(m.exchangeTs, TWO_64), 8)
            && w[20..28] == ToBytes(ToUnsigned(m.bidPrice, TWO_64), 8)
            && w[28..36] == ToBytes(ToUnsigned(m.askPrice, TWO_64), 8)
            && w[36..40] == ToBytes(ToUnsigned(m.bidSize, TWO_32), 4)
            && w[40..44] == ToBytes(ToUnsigned(m.askSize, TWO_32), 4)
  {
  }

  /** Decoding undoes encoding for every message, negative fields included, whatever follows it. */
  lemma ParseWire(m: MarketDataMsg, rest: seq<Byte>)
    ensures Parse(Wire(m) + rest) == Some(m)
  {
    FieldsOfWire(m, rest);
    Pow256Words();
    FromToBytes(m.seqNum, 8);
    FromToBytes(m.symbolId, 4);
    FromToBytes(ToUnsigned(m.exchangeTs, TWO_64), 8);
    FromToBytes(ToUnsigned(m.bidPrice, TWO_64), 8);
    FromToBytes(ToUnsigned(m.askPrice, TWO_64), 8);
    FromToBytes(ToUnsigned(m.bidSize, TWO_32), 4);
    FromToBytes(ToUnsigned(m.askSize, TWO_32), 4);
  }

  /** Encoding undoes decoding: every 44 bytes are the encoding of the message they decode to. */
  lemma WireParse(bs: seq<Byte>)
    ensures Parse(bs).Some? <==> |bs| >= WIRE_SIZE
    ensures Parse(bs).Some? ==> Wire(Parse(bs).value) == bs[..WIRE_SIZE]
  {
    if |bs| >= WIRE_SIZE {
      var m := Parse(bs).value;
      SignedRoundTrip(bs);
      assert ToBytes(m.seqNum, 8) == bs[0..8] by { ToFromBytes(bs[0..8]); }
      assert ToBytes(m.symbolId, 4) == bs[8..12] by { ToFromBytes(bs[8..12]); }
      JoinFields(bs);
    }
  }

  lemma SignedRoundTrip(bs: seq<Byte>)
    requires |bs| >= WIRE_SIZE
    ensures var m := Parse(bs).value;
            && ToBytes(ToUnsigned(m.exchangeTs, TWO_64), 8) == bs[12..20]
            && ToBytes(ToUnsigned(m.bidPrice, TWO_64), 8) == bs[20..28]
            && ToBytes(ToUnsigned(m.askPrice, TWO_64), 8) == bs[28..36]
            && ToBytes(ToUnsigned(m.bidSize, TWO_32), 4) == bs[36..40]
            && ToBytes(ToUnsigned(m.askSize, TWO_32), 4) == bs[40..44]
  {
    ToFromBytes(bs[12..20]);
    ToFromBytes(bs[20..28]);
    ToFromBytes(bs[28..36]);
    ToFromBytes(bs[36..40]);
    ToFromBytes(bs[40..44]);
  }

  lemma JoinFields(bs: seq<Byte>)
    requires |bs| >= WIRE_SIZE
    ensures bs[0..8] + bs[8..12] + bs[12..20] + bs[20..28] + bs[28..36] + bs[36..40] + bs[40..44] == bs[..WIRE_SIZE]
  {
  }

  /** `write_u64`, `write_u32` and `write_i64`: convert, copy the host bytes, advance the offset. */
  method WriteWord(host: ByteOrder, buff: array<Byte>, off: nat, v: nat, n: nat) returns (next: nat)
    requires off + n <= buff.Length
    modifies buff
    ensures next == off + n
    ensures buff[..] == old(buff[..off]) + ToBytes(v, n) + old(buff[off + n..])
  {
    var be := HostBytes(host, SwapIfLittle(host, v, n), n);
    for i := 0 to n
      invariant buff[..off] == old(buff[..off])
      invariant forall j :: 0 <= j < i ==> buff[off + j] == be[j]
      invariant buff[off + n..] == old(buff[off + n..])
    {
      buff[off + i] := be[i];
    }
    WireBytesAreBigEndian(host, v, n);
    assert buff[off..off + n] == be;
    assert buff[..] == buff[..off] + buff[off..off + n] + buff[off + n..];
    next := off + n;
  }

  /** `encode`: seven writes that tile the 44 bytes, starting from an uninitialised buffer. */
  method Encode(host: ByteOrder, m: MarketDataMsg) returns (out: array<Byte>)
    ensures fresh(out) && out[..] == Wire(m)
  {
    out := new Byte[WIRE_SIZE];
    var off := 0;
    off := WriteWord(host, out, off, m.seqNum, 8);
    assert out[..8] == ToBytes(m.seqNum, 8);
    off := WriteWord(host, out, off, m.symbolId, 4);
    assert out[..12] == Wire(m)[..12];
    off := WriteWord(host, out, off, ToUnsigned(m.exchangeTs, TWO_64), 8);
    assert out[..20] == Wire(m)[..20];
    off := WriteWord(host, out, off, ToUnsigned(m.bidPrice, TWO_64), 8);
    assert out[..28] == Wire(m)[..28];
    off := WriteWord(host, out, off, ToUnsigned(m.askPrice, TWO_64), 8);
    assert out[..36] == Wire(m)[..36];
    off := WriteWord(host, out, off, ToUnsigned(m.bidSize, TWO_32), 4);
    assert out[..40] == Wire(m)[..40];
    off := WriteWord(host, out, off, ToUnsigned(m.askSize, TWO_32), 4);
  }

  /** `read_u64`, `read_u32` and `read_i64`: copy host bytes, convert, advance the offset. */
  method ReadWord(host: ByteOrder, data: seq<Byte>, off: nat, n: nat) returns (v: nat, next: nat)
    requires off + n <= |data|
    ensures v == FromBytes(data[off..off + n]) && next == off + n
  {
    ReadIsBigEndian(host, data[off..off + n]);
    v := SwapIfLittle(host, FromHostBytes(host, data[off..off + n]), n);
    next := off + n;
  }

  /** `decode`: refuse a short buffer, otherwise read the seven fields in turn. */
  method Decode(host: ByteOrder, data: seq<Byte>) returns (r: Option<MarketDataMsg>)
    ensures r == Parse(data)
  {
    if |data| < WIRE_SIZE {
      return None;
    }
    var off := 0;
    var seqNum, symbolId, exchangeTs, bidPrice, askPrice, bidSize, askSize;
    seqNum, off := ReadWord(host, data, off, 8);
    symbolId, off := ReadWord(host, data, off, 4);
    exchangeTs, off := ReadWord(host, data, off, 8);
    bidPrice, off := ReadWord(host, data, off, 8);
    askPrice, off := ReadWord(host, data, off, 8);
    bidSize, off := ReadWord(host, data, off, 4);
    askSize, off := ReadWord(host, data, off, 4);
    assert seqNum == Field64(data, 0) && symbolId == Field32(data, 8);
    assert exchangeTs == Field64(data, 12) && bidPrice == Field64(data, 20) && askPrice == Field64(data, 28);
    assert bidSize == Field32(data, 36) && askSize == Field32(data, 40);
    r := Some(MarketDataMsg(
                seqNum, symbolId,
                ToSigned(exchangeTs, TWO_64), ToSigned(bidPrice, TWO_64), ToSigned(askPrice, TWO_64),
                ToSigned(bidSize, TWO_32), ToSigned(askSize, TWO_32)));
  }
}
