/**
 The third engine's path: find the UDP payload in a raw Ethernet frame, decode it, and run the
 sequence tracker. The parser is compared with a description of frames by their parts (section
 3.1 of RFC 791 and the "Fields" of RFC 768).
 */
module UdpFrames {
  import opened Words
  import opened Wrappers
  import opened Codec
  import opened SequenceTracking

  const ETHER_HEADER: nat := 14
  const IP_HEADER: nat := 20
  const UDP_HEADER: nat := 8
  const TWO_16: nat := 0x1_0000

  type U16 = x: nat | x < TWO_16

  /** A big-endian 16-bit field. */
  function Field16(bs: seq<Byte>, off: nat): U16
    requires off + 2 <= |bs|
  {
    var high: nat := bs[off];
    256 * high + bs[off + 1]
  }

  /** `extract_udp_payload`; `None` in place of the packet is a null pointer, port 0 means any. */
  function Extract(packet: Option<seq<Byte>>, port: U16): Option<seq<Byte>> {
    if packet.None? || |packet.value| < ETHER_HEADER then None
    else
      var bs := packet.value;
      if Field16(bs, 12) != 0x0800 then None
      else if |bs| < ETHER_HEADER + IP_HEADER then None
      else
        var version, ipLen := bs[14] / 16, (bs[14] % 16) * 4;
        if version != 4 || ipLen < IP_HEADER then None
        else if |bs| < ETHER_HEADER + ipLen + UDP_HEADER then None
        else if bs[23] != 17 then None
        else
          var total := Field16(bs, 16);
          if total < ipLen + UDP_HEADER then None
          else if |bs| < ETHER_HEADER + total then None
          else
            var udp := ETHER_HEADER + ipLen;
            if port != 0 && Field16(bs, udp + 2) != port then None
            else
              var udpLen := Field16(bs, udp + 4);
              if udpLen < UDP_HEADER || |bs| < udp + udpLen then None
              else Some(bs[udp + UDP_HEADER..udp + udpLen])
  }

  // Frames by their parts

  datatype Parts = Parts(
    macs: seq<Byte>,       // both Ethernet addresses
    words: nat,            // IP header length in 32-bit words
    tos: Byte,
    total: U16,            // IP total length, as the header claims it
    middle: seq<Byte>,     // identification, flags, fragment offset, time to live
    addresses: seq<Byte>,  // header checksum, source and destination address
    options: seq<Byte>,
    srcPort: U16,
    dstPort: U16,
    checksum: U16,
    payload: seq<Byte>,
    padding: seq<Byte>)    // whatever follows in the frame

  ghost predicate WellFormed(f: Parts) {
    && |f.macs| == 12 && 5 <= f.words <= 15 && |f.middle| == 5 && |f.addresses| == 10
    && |f.options| == 4 * (f.words - 5)
    && UDP_HEADER + |f.payload| < TWO_16
  }

  function Two(v: U16): (bs: seq<Byte>)
    ensures |bs| == 2
  {
    [v / 256, v % 256]
  }

  function Ethernet(f: Parts): seq<Byte> {
    f.macs + [0x08, 0x00]
  }

  function Ip(f: Parts): seq<Byte>
    requires f.words <= 15
  {
    [0x40 + f.words, f.tos] + Two(f.total) + f.middle + [17] + f.addresses + f.options
  }

  function Udp(f: Parts): seq<Byte>
    requires UDP_HEADER + |f.payload| < TWO_16
  {
    Two(f.srcPort) + Two(f.dstPort) + Two(UDP_HEADER + |f.payload|) + Two(f.checksum)
  }

  /** The frame as it is on the wire. */
  ghost function Build(f: Parts): seq<Byte>
    requires WellFormed(f)
  {
    Ethernet(f) + Ip(f) + Udp(f) + f.payload + f.padding
  }

  /** The conditions under which the parser accepts a frame with these parts. */
  ghost predicate Acceptable(f: Parts, port: U16)
    requires WellFormed(f)
  {
    && 4 * f.words + UDP_HEADER <= f.total
    && ETHER_HEADER + f.total <= |Build(f)|
    && (port == 0 || f.dstPort == port)
  }

  lemma TwoField(bs: seq<Byte>, off: nat, v: U16)
    requires off + 2 <= |bs| && bs[off..off + 2] == Two(v)
    ensures Field16(bs, off) == v
  {
    assert bs[off] == bs[off..off + 2][0] && bs[off + 1] == bs[off..off + 2][1];
  }

  lemma IpLayout(f: Parts)
    requires WellFormed(f)
    ensures var ip := Ip(f);
            && |ip| == 4 * f.words && ip[0] == 0x40 + f.words && ip[2..4] == Two(f.total) && ip[9] == 17
  {
  }

  lemma UdpLayout(f: Parts)
    requires WellFormed(f)
    ensures var udp := Udp(f);
            && |udp| == UDP_HEADER && udp[2..4] == Two(f.dstPort) && udp[4..6] == Two(UDP_HEADER + |f.payload|)
  {
  }

  /** A slice of the middle part of a concatenation. */
  lemma Inside(a: seq<Byte>, b: seq<Byte>, c: seq<Byte>, i: nat, j: nat)
    requires i <= j <= |b|
    ensures (a + b + c)[|a| + i..|a| + j] == b[i..j]
  {
  }

  /** Where the parser looks, it finds the parts. */
  lemma Layout(f: Parts)
    requires WellFormed(f)
    ensures var bs, udp := Build(f), ETHER_HEADER + 4 * f.words;
            && |bs| >= udp + UDP_HEADER + |f.payload|
            && Field16(bs, 12) == 0x0800 && bs[14] == 0x40 + f.words && bs[23] == 17
            && Field16(bs, 16) == f.total
            && Field16(bs, udp + 2) == f.dstPort && Field16(bs, udp + 4) == UDP_HEADER + |f.payload|
            && bs[udp + UDP_HEADER..udp + UDP_HEADER + |f.payload|] == f.payload
  {
    var e, ip, u := Ethernet(f), Ip(f), Udp(f);
    var bs := Build(f);
    IpLayout(f);
    UdpLayout(f);
    IpFields(f);
    UdpFields(f);
  }

  lemma IpFields(f: Parts)
    requires WellFormed(f)
    ensures var bs := Build(f);
            && |bs| >= ETHER_HEADER + IP_HEADER
            && Field16(bs, 12) == 0x0800 && bs[14] == 0x40 + f.words && bs[23] == 17
            && Field16(bs, 16) == f.total
  {
    IpLayout(f);
    var e, ip, rest := Ethernet(f), Ip(f), Udp(f) + f.payload + f.padding;
    var bs := Build(f);
    assert bs == e + ip + rest;
    Inside(e, ip, rest, 0, 20);
    assert bs[14] == ip[0] && bs[23] == ip[9];
    Inside(e, ip, rest, 2, 4);
    TwoField(bs, 16, f.total);
    assert bs[12] == 0x08 && bs[13] == 0x00;
  }

  lemma UdpFields(f: Parts)
    requires WellFormed(f)
    ensures var bs, udp := Build(f), ETHER_HEADER + 4 * f.words;
            && |bs| >= udp + UDP_HEADER + |f.payload|
            && Field16(bs, udp + 2) == f.dstPort && Field16(bs, udp + 4) == UDP_HEADER + |f.payload|
            && bs[udp + UDP_HEADER..udp + UDP_HEADER + |f.payload|] == f.payload
  {
    IpLayout(f);
    UdpLayout(f);
    var bs, udp := Build(f), ETHER_HEADER + 4 * f.words;
    var head, u, rest := Ethernet(f) + Ip(f), Udp(f), f.payload + f.padding;
    assert |head| == udp && bs == head + u + rest;
    Inside(head, u, rest, 2, 4);
    Inside(head, u, rest, 4, 6);
    TwoField(bs, udp + 2, f.dstPort);
    TwoField(bs, udp + 4, UDP_HEADER + |f.payload|);
    assert bs == (head + u) + f.payload + f.padding;
    Inside(head + u, f.payload, f.padding, 0, |f.payload|);
  }

  /** Extraction returns exactly the payload of every acceptable frame, whatever surrounds it. */
  lemma ExtractBuild(f: Parts, port: U16)
    requires WellFormed(f) && Acceptable(f, port)
    ensures Extract(Some(Build(f)), port) == Some(f.payload)
  {
    Layout(f);
  }

  /** In particular of every frame whose IP total length is right, with any options and padding. */
  lemma ConformingFrame(f: Parts, port: U16)
    requires WellFormed(f) && f.total == 4 * f.words + UDP_HEADER + |f.payload| && (port == 0 || f.dstPort == port)
    ensures Extract(Some(Build(f)), port) == Some(f.payload)
  {
    Layout(f);
    ExtractBuild(f, port);
  }

  /** The parts of a frame that the parser accepts. */
  function Dissect(bs: seq<Byte>): Parts
    requires |bs| >= ETHER_HEADER + IP_HEADER + UDP_HEADER
    requires var udp := ETHER_HEADER + (bs[14] % 16) * 4;
             && ETHER_HEADER + IP_HEADER <= udp && udp + UDP_HEADER <= |bs|
             && UDP_HEADER <= Field16(bs, udp + 4) && udp + Field16(bs, udp + 4) <= |bs|
  {
    var udp := ETHER_HEADER + (bs[14] % 16) * 4;
    var end := udp + Field16(bs, udp + 4);
    Parts(bs[..12], bs[14] % 16, bs[15], Field16(bs, 16), bs[18..23], bs[24..34], bs[34..udp],
          Field16(bs, udp), Field16(bs, udp + 2), Field16(bs, udp + 6), bs[udp + 8..end], bs[end..])
  }

  lemma FieldTwo(bs: seq<Byte>, off: nat)
    requires off + 2 <= |bs|
    ensures Two(Field16(bs, off)) == bs[off..off + 2]
  {
  }

  lemma RebuildIp(bs: seq<Byte>, f: Parts, udp: nat)
    requires ETHER_HEADER + IP_HEADER <= udp <= |bs| && f.words <= 15
    requires bs[14] == 0x40 + f.words && f.tos == bs[15] && f.total == Field16(bs, 16)
    requires f.middle == bs[18..23] && bs[23] == 17 && f.addresses == bs[24..34] && f.options == bs[34..udp]
    ensures Ip(f) == bs[14..udp]
  {
    FieldTwo(bs, 16);
    assert bs[14..udp] == [bs[14], bs[15]] + bs[16..18] + bs[18..23] + [bs[23]] + bs[24..34] + bs[34..udp];
  }

  lemma RebuildUdp(bs: seq<Byte>, f: Parts, udp: nat)
    requires udp + UDP_HEADER <= |bs| && UDP_HEADER + |f.payload| < TWO_16
    requires f.srcPort == Field16(bs, udp) && f.dstPort == Field16(bs, udp + 2)
    requires UDP_HEADER + |f.payload| == Field16(bs, udp + 4) && f.checksum == Field16(bs, udp + 6)
    ensures Udp(f) == bs[udp..udp + 8]
  {
    FieldTwo(bs, udp);
    FieldTwo(bs, udp + 2);
    FieldTwo(bs, udp + 4);
    FieldTwo(bs, udp + 6);
    assert bs[udp..udp + 8] == bs[udp..udp + 2] + bs[udp + 2..udp + 4] + bs[udp + 4..udp + 6] + bs[udp + 6..udp + 8];
  }

  /** What acceptance says about the header fields. */
  ghost predicate HeadersOk(bs: seq<Byte>, port: U16) {
    && |bs| >= ETHER_HEADER + IP_HEADER + UDP_HEADER
    && bs[12] == 0x08 && bs[13] == 0x00 && bs[23] == 17
    && var words, total := bs[14] % 16, Field16(bs, 16);
    var udp := ETHER_HEADER + words * 4;
    && bs[14] == 0x40 + words && 5 <= words
    && udp + UDP_HEADER <= |bs| && words * 4 + UDP_HEADER <= total && ETHER_HEADER + total <= |bs|
    && (port == 0 || Field16(bs, udp + 2) == port)
    && UDP_HEADER <= Field16(bs, udp + 4) && udp + Field16(bs, udp + 4) <= |bs|
  }

  lemma AcceptedHeaders(bs: seq<Byte>, port: U16)
    requires Extract(Some(bs), port).Some?
    ensures HeadersOk(bs, port)
    ensures Extract(Some(bs), port) == Some(Dissect(bs).payload)
  {
  }

  lemma FiveParts(bs: seq<Byte>, a: nat, b: nat, c: nat, d: nat)
    requires a <= b <= c <= d <= |bs|
    ensures bs == bs[..a] + bs[a..b] + bs[b..c] + bs[c..d] + bs[d..]
  {
  }

  lemma RebuildAll(bs: seq<Byte>, port: U16)
    requires HeadersOk(bs, port)
    ensures WellFormed(Dissect(bs)) && Build(Dissect(bs)) == bs
  {
    var f := Dissect(bs);
    var udp := ETHER_HEADER + f.words * 4;
    var end := udp + Field16(bs, udp + 4);
    RebuildIp(bs, f, udp);
    RebuildUdp(bs, f, udp);
    assert Ethernet(f) == bs[..14];
    hide Ethernet, Ip, Udp, Field16;
    FiveParts(bs, 14, udp, udp + 8, end);
  }

  /**
   Conversely every accepted packet is such a frame: it has well-formed parts that meet the
   acceptance conditions, and what was extracted is its payload, which lies inside the packet.
   */
  lemma AcceptedIsBuilt(bs: seq<Byte>, port: U16) returns (f: Parts)
    requires Extract(Some(bs), port).Some?
    ensures WellFormed(f) && Build(f) == bs && Acceptable(f, port)
    ensures Extract(Some(bs), port) == Some(f.payload)
  {
    AcceptedHeaders(bs, port);
    RebuildAll(bs, port);
    f := Dissect(bs);
  }

  /**
   The code does not bound the payload by the IP total length. What it extracts lies inside the
   IP datagram exactly when the UDP length field agrees to.
   */
  lemma StaysInsideDatagramIff(bs: seq<Byte>, port: U16)
    requires Extract(Some(bs), port).Some?
    ensures var ipLen, total := (bs[14] % 16) * 4, Field16(bs, 16);
            var udp := ETHER_HEADER + ipLen;
            Extract(Some(bs), port).value <= bs[udp + UDP_HEADER..ETHER_HEADER + total]
            <==> ipLen + Field16(bs, udp + 4) <= total
  {
    var ipLen, total := (bs[14] % 16) * 4, Field16(bs, 16);
    var udp := ETHER_HEADER + ipLen;
    var p, inside := Extract(Some(bs), port).value, bs[udp + UDP_HEADER..ETHER_HEADER + total];
    if |p| <= |inside| {
      assert p == inside[..|p|];
    }
  }

  /** It can indeed overrun: a datagram that claims to end with its UDP header yields its payload all the same. */
  lemma OverrunIsAccepted(f: Parts, port: U16)
    requires WellFormed(f) && f.total == 4 * f.words + UDP_HEADER && f.payload != [] && (port == 0 || f.dstPort == port)
    ensures Extract(Some(Build(f)), port) == Some(f.payload)
    ensures !(f.payload <= Build(f)[ETHER_HEADER + 4 * f.words + UDP_HEADER..ETHER_HEADER + f.total])
  {
    Layout(f);
    ExtractBuild(f, port);
  }

  // The engine

  /** The sequence number a packet brings, if it carries a message. */
  function Arrival(packet: Option<seq<Byte>>, port: U16): Option<Word> {
    match Extract(packet, port)
    case None => None
    case Some(payload) =>
      match Parse(payload)
      case None => None
      case Some(m) => Some(m.seqNum)
  }

  /** The sequence numbers that a sequence of packets brings. */
  function Arrivals(packets: seq<Option<seq<Byte>>>, port: U16): seq<Word> {
    if packets == [] then []
    else
      var n := |packets| - 1;
      Arrivals(packets[..n], port) + match Arrival(packets[n], port) case Some(s) => [s] case None => []
  }

  class Engine {
    const port: U16
    const tracker: BareTracker

    constructor (port: U16)
      ensures this.port == port && fresh(tracker) && !tracker.initialized && tracker.expected == 0
    {
      this.port := port;
      tracker := new BareTracker();
    }

    /** `process_one`: one tracker step on the number the packet brings, or no change at all. */
    method ProcessOne(host: ByteOrder, packet: Option<seq<Byte>>)
      modifies tracker
      ensures Arrival(packet, port).None? ==>
                tracker.initialized == old(tracker.initialized) && tracker.expected == old(tracker.expected)
      ensures Arrival(packet, port).Some? ==>
                forall t: Tracker ::
                  t.initialized == old(tracker.initialized) && t.expected == old(tracker.expected) ==>
                    var u := Step(t, Arrival(packet, port).value);
                    u.initialized == tracker.initialized && u.expected == tracker.expected
    {
      if packet.None? {
        return;
      }
      var payload := Extract(packet, port);
      if payload.None? {
        return;
      }
      var msg := Decode(host, payload.value);
      if msg.None? {
        return;
      }
      tracker.OnMessage(msg.value.seqNum);
    }

    /** Has the tracker seen exactly these numbers? */
    ghost predicate HasSeen(numbers: seq<Word>)
      reads tracker
    {
      tracker.initialized == Track(numbers).initialized && tracker.expected == Track(numbers).expected
    }

    /** The polling loop of `run` on the packets of any number of bursts. */
    method ProcessAll(host: ByteOrder, packets: seq<Option<seq<Byte>>>, ghost before: seq<Word>)
      requires HasSeen(before)
      modifies tracker
      ensures HasSeen(before + Arrivals(packets, port))
    {
      assert before + Arrivals(packets[..0], port) == before;
      for i := 0 to |packets|
        invariant HasSeen(before + Arrivals(packets[..i], port))
      {
        TrackArrival(before, packets, i, port);
        ProcessOne(host, packets[i]);
      }
      assert packets[..|packets|] == packets;
    }
  }

  lemma TrackArrival(before: seq<Word>, packets: seq<Option<seq<Byte>>>, i: nat, port: U16)
    requires i < |packets|
    ensures var t := Track(before + Arrivals(packets[..i], port));
            Track(before + Arrivals(packets[..i + 1], port)) ==
            match Arrival(packets[i], port) case Some(n) => Step(t, n) case None => t
  {
    assert packets[..i + 1][..i] == packets[..i];
    var seen, a := before + Arrivals(packets[..i], port), Arrival(packets[i], port);
    if a.Some? {
      assert before + Arrivals(packets[..i + 1], port) == seen + [a.value];
      assert (seen + [a.value])[..|seen|] == seen;
    } else {
      assert before + Arrivals(packets[..i + 1], port) == seen;
    }
  }

  /** A frame that carries an encoded message brings exactly that message's number. */
  lemma FrameBringsMessage(f: Parts, port: U16, m: MarketDataMsg, extra: seq<Byte>)
    requires WellFormed(f) && Acceptable(f, port) && f.payload == Wire(m) + extra
    ensures Arrival(Some(Build(f)), port) == Some(m.seqNum)
  {
    ExtractBuild(f, port);
    ParseWire(m, extra);
  }

  /** A frame whose payload is too short for a message brings nothing. */
  lemma ShortFrameBringsNothing(f: Parts, port: U16)
    requires WellFormed(f) && Acceptable(f, port) && |f.payload| < WIRE_SIZE
    ensures Arrival(Some(Build(f)), port) == None
  {
    ExtractBuild(f, port);
  }
}
