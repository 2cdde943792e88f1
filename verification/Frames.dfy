/**
  What the decoder promises about whole families of frames: VLAN tags are transparent up
  to two, and the transport header is reached behind up to eight IPv6 extension headers.
*/
module Frames {
  import opened Wrappers
  import opened Bits
  import opened Layout
  import opened Decode

  // ------------------------------------------------------------------ VLAN tags

  datatype Tag = Tag(qinq: bool, tci: u16)

  function EncodeTag(t: Tag): (b: seq<byte>)
    ensures |b| == 4
  {
    Be16(if t.qinq then 0x88A8 else 0x8100) + Be16(t.tci)
  }

  function EncodeTags(ts: seq<Tag>): (b: seq<byte>)
    ensures |b| == 4 * |ts|
  {
    if |ts| == 0 then [] else EncodeTag(ts[0]) + EncodeTags(ts[1..])
  }

  /** Peeling walks over as many tags as it may, and stops at the ethertype behind them. */
  lemma {:induction false} PeelsTags(pkt: seq<byte>, ts: seq<Tag>, off: nat, et: u16, n: nat)
    requires 2 <= off && !IsVlan(et)
    requires At(pkt, off - 2, EncodeTags(ts) + Be16(et))
    ensures PeelTags(pkt, Rd16(pkt, off - 2), off, n) ==
            if |ts| <= n then Some((et, off + 4 * |ts|))
            else Some((if ts[n].qinq then ETHERTYPE_QINQ else ETHERTYPE_VLAN, off + 4 * n))
    decreases n
  {
    hide Rd16, Be16;
    if |ts| == 0 {
      assert [] + Be16(et) == Be16(et);
      AtBe16(pkt, off - 2, et);
    } else {
      var t := ts[0];
      var tpid: u16 := if t.qinq then ETHERTYPE_QINQ else ETHERTYPE_VLAN;
      var rest := EncodeTags(ts[1..]) + Be16(et);
      assert EncodeTags(ts) + Be16(et) == Be16(tpid) + (Be16(t.tci) + rest);
      AtConcat(pkt, off - 2, Be16(tpid), Be16(t.tci) + rest);
      AtConcat(pkt, off, Be16(t.tci), rest);
      AtBe16(pkt, off - 2, tpid);
      if n > 0 {
        PeelsTags(pkt, ts[1..], off + 4, et, n - 1);
      }
    }
  }

  /** Up to two VLAN tags make no difference to what a frame decodes to; more make it undecodable. */
  lemma TagsAreTransparent(macs: seq<byte>, ts: seq<Tag>, et: u16, rest: seq<byte>)
    requires |macs| == 12 && !IsVlan(et)
    ensures var plain, tagged := macs + Be16(et) + rest, macs + EncodeTags(ts) + Be16(et) + rest;
      DecodeFrame(tagged, DLT_EN10MB) == if |ts| <= 2 then DecodeFrame(plain, DLT_EN10MB) else None
  {
    hide DecodeIp, DecodeEthernet, Be16, EncodeTags;
    NoTags();
    assert macs + [] + Be16(et) + rest == macs + Be16(et) + rest;
    BehindTags(macs, [], et, rest);
    BehindTags(macs, ts, et, rest);
  }

  lemma BehindTags(macs: seq<byte>, ts: seq<Tag>, et: u16, rest: seq<byte>)
    requires |macs| == 12 && !IsVlan(et)
    ensures DecodeEthernet(macs + EncodeTags(ts) + Be16(et) + rest) ==
            if |ts| > 2 || (et != ETHERTYPE_IP && et != ETHERTYPE_IPV6) then None else DecodeIp(rest)
  {
    hide DecodeIp, Rd16, Be16, EncodeTags, PeelTags, At;
    var pkt := macs + EncodeTags(ts) + Be16(et) + rest;
    LaidOut(macs, EncodeTags(ts), Be16(et), rest);
    PeelsTags(pkt, ts, 14, et, 2);
  }

  lemma NoTags()
    ensures EncodeTags([]) == []
  {
  }

  lemma LaidOut(a: seq<byte>, b: seq<byte>, c: seq<byte>, d: seq<byte>)
    ensures At(a + b + c + d, |a|, b + c)
    ensures (a + b + c + d)[|a| + |b| + |c|..] == d
  {
    var buf := a + b + c + d;
    assert buf[|a|..|a| + |b + c|] == b + c;
  }

  // ------------------------------------------------------------------ IPv6

  /** An extension header without its next-header byte. */
  datatype ExtensionHeader =
    | Lengthy(kind: byte, units: byte, content: seq<byte>)   // options and routing headers
    | Fragment(content: seq<byte>)
  {
    function Kind(): (r: byte) {
      if Lengthy? then kind else 44
    }

    predicate WellFormed() {
      if Lengthy? then kind in {0, 43, 60} && |content| == 6 + 8 * units else |content| == 7
    }

    function Encode(next: byte): (b: seq<byte>)
      requires WellFormed()
      ensures |b| == if Lengthy? then 8 + 8 * units as int else 8
    {
      if Lengthy? then [next, units] + content else [next] + content
    }
  }

  predicate AllWellFormed(es: seq<ExtensionHeader>) {
    forall i :: 0 <= i < |es| ==> es[i].WellFormed()
  }

  /** The kind of the first header of a chain that ends in protocol `proto`. */
  function FirstKind(es: seq<ExtensionHeader>, proto: byte): (r: byte) {
    if |es| == 0 then proto else es[0].Kind()
  }

  function EncodeChain(es: seq<ExtensionHeader>, proto: byte): (r: seq<byte>)
    requires AllWellFormed(es)
  {
    if |es| == 0 then [] else es[0].Encode(FirstKind(es[1..], proto)) + EncodeChain(es[1..], proto)
  }

  predicate IsExtension(nh: byte) {
    nh in {0, 43, 44, 60}
  }

  lemma HeaderAt(p: seq<byte>, off: nat, e: ExtensionHeader, next: byte)
    requires e.WellFormed() && At(p, off, e.Encode(next))
    ensures off + 8 <= |p| && p[off] == next && off + |e.Encode(next)| <= |p|
    ensures e.Lengthy? ==> p[off + 1] == e.units
  {
    var b := e.Encode(next);
    assert p[off..off + |b|] == b;
    assert p[off] == b[0] && p[off + 1] == b[1];
  }

  lemma WalkStep(p: seq<byte>, e: ExtensionHeader, next: byte, off: nat, n: nat)
    requires e.WellFormed() && At(p, off, e.Encode(next)) && n > 0
    ensures WalkExtensions(p, e.Kind(), off, n) == WalkExtensions(p, next, off + |e.Encode(next)|, n - 1)
  {
    HeaderAt(p, off, e, next);
  }

  lemma WalkStops(p: seq<byte>, es: seq<ExtensionHeader>, proto: byte, off: nat, n: nat)
    requires AllWellFormed(es) && !IsExtension(proto) && (|es| == 0 || n == 0)
    ensures WalkExtensions(p, FirstKind(es, proto), off, n) == Some((FirstKind(es, proto), off))
    ensures |es| == 0 ==> EncodeChain(es, proto) == []
    ensures At(p, off, EncodeChain(es, proto)) ==> off <= |p|
    ensures |es| > 0 ==> IsExtension(FirstKind(es, proto))
  {
  }

  /** The walk passes `n` headers; if that is all of them, it ends at the transport header. */
  lemma {:induction false} WalkPassesChain(p: seq<byte>, es: seq<ExtensionHeader>, proto: byte, off: nat, n: nat)
    requires AllWellFormed(es) && !IsExtension(proto)
    requires At(p, off, EncodeChain(es, proto))
    ensures |es| <= n ==>
      WalkExtensions(p, FirstKind(es, proto), off, n) == Some((proto, off + |EncodeChain(es, proto)|))
    ensures |es| > n ==>
      var r := WalkExtensions(p, FirstKind(es, proto), off, n);
      r.Some? && IsExtension(r.value.0) && r.value.1 <= |p|
    decreases n
  {
    hide WalkExtensions, At, ExtensionHeader.Encode;
    if |es| == 0 || n == 0 {
      WalkStops(p, es, proto, off, n);
    } else {
      var e, next := es[0], FirstKind(es[1..], proto);
      AtConcat(p, off, e.Encode(next), EncodeChain(es[1..], proto));
      WalkStep(p, e, next, off, n);
      WalkPassesChain(p, es[1..], proto, off + |e.Encode(next)|, n - 1);
    }
  }

  /** A fixed IPv6 header: eight bytes with the next header at offset 6, then the addresses. */
  predicate Ipv6Fixed(start: seq<byte>, nh: byte, src: Ip, dst: Ip) {
    |start| == 8 && start[0] / 16 == 6 && start[6] == nh
  }

  lemma Ipv6Parts(start: seq<byte>, nh: byte, src: Ip, dst: Ip, chain: seq<byte>, transport: seq<byte>)
    requires Ipv6Fixed(start, nh, src, dst)
    ensures var p := start + src + dst + chain + transport;
      && p[0] / 16 == 6 && p[6] == nh && p[8..24] == src && p[24..40] == dst
      && At(p, 40, chain) && p[40 + |chain|..] == transport
  {
    var p := start + src + dst + chain + transport;
    assert p[40..40 + |chain|] == chain;
    assert p[8..24] == src && p[24..40] == dst;
  }

  /**
    An IPv6 packet is decoded by its transport header exactly when at most eight extension
    headers come first; behind more, the packet has no transport protocol and no payload.
  */
  lemma Ipv6RoundTrip(start: seq<byte>, es: seq<ExtensionHeader>, proto: byte, src: Ip, dst: Ip, transport: seq<byte>)
    requires AllWellFormed(es) && !IsExtension(proto)
    requires Ipv6Fixed(start, FirstKind(es, proto), src, dst)
    ensures var p := start + src + dst + EncodeChain(es, proto) + transport;
      && (|es| <= 8 ==>
            DecodeIp(p) == DecodeL4(transport, Packet(6, proto, src, dst, 0, 0, None)))
      && (|es| > 8 ==>
            && DecodeIp(p).Some? && IsExtension(DecodeIp(p).value.l4proto)
            && DecodeIp(p).value.payload.None?)
  {
    hide DecodeL4, EncodeChain;
    var chain := EncodeChain(es, proto);
    var p := start + src + dst + chain + transport;
    Ipv6Parts(start, FirstKind(es, proto), src, dst, chain, transport);
    WalkPassesChain(p, es, proto, 40, MAX_EXTENSIONS);
    assert DecodeIp(p) == DecodeIp6(p);
    if |es| > MAX_EXTENSIONS {
      var r := WalkExtensions(p, p[6], 40, MAX_EXTENSIONS);
      NoTransport(p[r.value.1..], Packet(6, r.value.0, src, dst, 0, 0, None));
    }
  }

  /** The walk reads nothing but a chain: what it passes over are well-formed headers, as many as it may. */
  lemma {:induction false} WalkReadsChain(p: seq<byte>, nh: byte, off: nat, n: nat) returns (es: seq<ExtensionHeader>)
    requires off <= |p|
    ensures WalkExtensions(p, nh, off, n).Some? ==>
      var (proto, end) := WalkExtensions(p, nh, off, n).value;
      && AllWellFormed(es) && |es| <= n && FirstKind(es, proto) == nh
      && off <= end <= |p| && p[off..end] == EncodeChain(es, proto)
      && (|es| < n ==> !IsExtension(proto))
    decreases n
  {
    hide ExtensionHeader.Encode;
    es := [];
    var r := WalkExtensions(p, nh, off, n);
    if r.Some? && n > 0 && IsExtension(nh) {
      var len := if HasLength(nh) then (p[off + 1] as int + 1) * 8 else 8;
      var rest := WalkReadsChain(p, p[off], off + len, n - 1);
      var e := HeaderRead(p, nh, off, off + len);
      es := [e] + rest;
      assert es[1..] == rest;
      assert p[off..r.value.1] == p[off..off + len] + p[off + len..r.value.1];
    }
  }

  lemma HeaderRead(p: seq<byte>, nh: byte, off: nat, end: nat) returns (e: ExtensionHeader)
    requires off + 8 <= end <= |p| && IsExtension(nh)
    requires end - off == if HasLength(nh) then (p[off + 1] as int + 1) * 8 else 8
    ensures e.WellFormed() && e.Kind() == nh && p[off..end] == e.Encode(p[off])
  {
    e := if HasLength(nh) then Lengthy(nh, p[off + 1], p[off + 2..end]) else Fragment(p[off + 1..end]);
    assert p[off..end] == e.Encode(p[off]);
  }

  /** Nothing else of version 6 decodes: forty fixed bytes, a chain of headers, and a transport header. */
  lemma Ipv6Iff(p: seq<byte>) returns (es: seq<ExtensionHeader>, proto: byte, transport: seq<byte>)
    requires p != [] && p[0] / 16 == 6
    ensures DecodeIp(p).Some? ==>
      && |p| >= 40 && AllWellFormed(es) && |es| <= 8 && (|es| < 8 ==> !IsExtension(proto))
      && p[6] == FirstKind(es, proto) && p == p[..40] + EncodeChain(es, proto) + transport
      && DecodeIp(p) == DecodeL4(transport, Packet(6, proto, p[8..24], p[24..40], 0, 0, None))
  {
    hide DecodeL4, WalkExtensions, EncodeChain;
    es, proto, transport := [], 0, [];
    if DecodeIp(p).Some? {
      es := WalkReadsChain(p, p[6], 40, 8);
      var end := WalkExtensions(p, p[6], 40, 8).value.1;
      proto, transport := WalkExtensions(p, p[6], 40, 8).value.0, p[end..];
      assert p == p[..40] + p[40..end] + p[end..];
    }
  }

  lemma NoTransport(rest: seq<byte>, out: Packet)
    requires IsExtension(out.l4proto) && out.payload.None?
    ensures DecodeL4(rest, out) == Some(out)
  {
  }

  // ------------------------------------------------------------------ transport headers

  /** A TCP segment: twenty fixed bytes, among them the header's length in words, then options and payload. */
  ghost predicate TcpParts(p: seq<byte>, start: seq<byte>, options: seq<byte>, payload: seq<byte>) {
    p == start + options + payload && |start| == 20 && start[12] / 16 * 4 == 20 + |options|
  }

  /** A UDP datagram: eight bytes, then the payload. */
  ghost predicate UdpParts(p: seq<byte>, start: seq<byte>, payload: seq<byte>) {
    p == start + payload && |start| == 8
  }

  /** The payload of a segment begins behind its options, whatever they are. */
  lemma TcpPayload(start: seq<byte>, options: seq<byte>, payload: seq<byte>, out: Packet)
    requires TcpParts(start + options + payload, start, options, payload) && out.l4proto == 6
    ensures DecodeL4(start + options + payload, out) ==
            Some(out.(srcPort := Rd16(start, 0), dstPort := Rd16(start, 2), payload := Some(payload)))
  {
    var p := start + options + payload;
    assert p[20 + |options|..] == payload;
  }

  lemma UdpPayload(start: seq<byte>, payload: seq<byte>, out: Packet)
    requires UdpParts(start + payload, start, payload) && out.l4proto == 17
    ensures DecodeL4(start + payload, out) ==
            Some(out.(srcPort := Rd16(start, 0), dstPort := Rd16(start, 2), payload := Some(payload)))
  {
    assert (start + payload)[8..] == payload;
  }

  /** What is no whole header is refused; other protocols have no payload. */
  lemma TransportIff(p: seq<byte>, out: Packet)
    ensures out.l4proto == 6 ==>
      (DecodeL4(p, out).Some? <==> exists start, options, payload :: TcpParts(p, start, options, payload))
    ensures out.l4proto == 17 ==>
      (DecodeL4(p, out).Some? <==> exists start, payload :: UdpParts(p, start, payload))
    ensures out.l4proto != 6 && out.l4proto != 17 ==> DecodeL4(p, out) == Some(out.(payload := None))
  {
    if DecodeL4(p, out).Some? && out.l4proto == 6 {
      var hlen := p[12] / 16 * 4;
      assert p == p[..20] + p[20..hlen] + p[hlen..];
      assert TcpParts(p, p[..20], p[20..hlen], p[hlen..]);
    }
    if DecodeL4(p, out).Some? && out.l4proto == 17 {
      assert p == p[..8] + p[8..];
      assert UdpParts(p, p[..8], p[8..]);
    }
  }

  // ------------------------------------------------------------------ IPv4

  /** An IPv4 packet: twenty fixed bytes, among them version and header length, then options and the rest. */
  ghost predicate Ipv4Parts(p: seq<byte>, start: seq<byte>, options: seq<byte>, rest: seq<byte>) {
    && p == start + options + rest && |start| == 20
    && start[0] / 16 == 4 && start[0] % 16 * 4 == 20 + |options|
  }

  /** A fragment other than the first: thirteen bits of offset, in units of eight bytes. */
  predicate LaterFragment(start: seq<byte>)
    requires |start| == 20
  {
    start[6] % 32 != 0 || start[7] != 0
  }

  /**
    An IPv4 packet is decoded by the transport header behind its options; a later fragment
    has neither ports nor a payload.
  */
  lemma Ipv4RoundTrip(start: seq<byte>, options: seq<byte>, rest: seq<byte>)
    requires Ipv4Parts(start + options + rest, start, options, rest)
    ensures var out := Packet(4, start[9], Pad4(start[12..16]), Pad4(start[16..20]), 0, 0, None);
      DecodeIp(start + options + rest) == if LaterFragment(start) then Some(out) else DecodeL4(rest, out)
  {
    hide DecodeL4;
    var p := start + options + rest;
    assert p[12..16] == start[12..16] && p[16..20] == start[16..20];
    assert p[20 + |options|..] == rest;
    FragmentBits(start[6], start[7]);
    assert Rd16(p, 6) == 0x100 * start[6] as int + start[7] as int;
  }

  lemma FragmentBits(hi: byte, lo: byte)
    ensures (0x100 * hi as int + lo as int) % 0x2000 != 0 <==> hi % 32 != 0 || lo != 0
  {
    assert 0x100 * hi as int + lo as int == 0x2000 * (hi / 32) + (0x100 * (hi % 32) + lo);
  }

  /** Nothing else of version 4 decodes. */
  lemma Ipv4Iff(p: seq<byte>)
    requires p != [] && p[0] / 16 == 4
    ensures DecodeIp(p).Some? ==> exists start, options, rest :: Ipv4Parts(p, start, options, rest)
  {
    hide DecodeL4;
    if DecodeIp(p).Some? {
      var ihl := p[0] % 16 * 4;
      assert p == p[..20] + p[20..ihl] + p[ihl..];
      assert Ipv4Parts(p, p[..20], p[20..ihl], p[ihl..]);
    }
  }

  // ------------------------------------------------------------------ link headers

  /**
    Loopback frames have four bytes before the IP packet, raw ones none, Linux cooked ones
    sixteen; Ethernet frames fourteen, with the type of the packet in the last two.
  */
  lemma LinkHeaders(header: seq<byte>, p: seq<byte>)
    ensures |header| == 4 ==> DecodeFrame(header + p, 0) == DecodeIp(p)
    ensures |header| == 0 ==> DecodeFrame(header + p, 101) == DecodeIp(p)
    ensures |header| == 16 ==> DecodeFrame(header + p, 113) == DecodeIp(p)
    ensures |header| == 14 && header[12..] in {[0x08, 0x00], [0x86, 0xDD]} ==>
      DecodeFrame(header + p, 1) == DecodeIp(p)
  {
    hide DecodeIp;
    assert (header + p)[|header|..] == p;
    if |header| == 14 {
      assert header[12] == header[12..][0] && header[13] == header[12..][1];
    }
  }

  /** Shorter frames, and frames of other link types, do not decode. */
  lemma NoLinkHeader(frame: seq<byte>, linktype: nat)
    requires linktype !in {0, 1, 101, 113} || (linktype == 0 && |frame| < 4) || (linktype == 1 && |frame| < 14) ||
             (linktype == 113 && |frame| < 16) || (linktype == 101 && frame == [])
    ensures DecodeFrame(frame, linktype).None?
  {
  }
}
