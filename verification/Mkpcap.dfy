/**
  The synthetic packets of tools/mkpcap.py, and what the decoder and the TLS parser make
  of them. A field that does not fit its width is an error of `struct.pack`: None.
*/
module Mkpcap {
  import opened Wrappers
  import opened Bits
  import opened Layout
  import opened Checksum
  import opened Tls
  import opened TlsHello
  import opened Decode

  const ALPN_BODY: seq<byte> :=
    [0x00, 0x0C, 0x02, 0x68, 0x32, 0x08, 0x68, 0x74, 0x74, 0x70, 0x2F, 0x31, 0x2E, 0x31]

  /** `bytes(range(32))` */
  function RandomBytes(): (r: seq<byte>)
    ensures |r| == 32
  {
    seq(32, i requires 0 <= i < 32 => i)
  }

  function PlainList(host: seq<byte>): (l: seq<byte>)
    requires |host| < 0xFFFD
    ensures |l| == |host| + 5
  {
    var sniEntry := [0x00] + Be16(|host|) + host;
    Be16(|sniEntry|) + sniEntry
  }

  /** The server_name extension, and a second one so that a parser has to walk. */
  function PlainExtensions(host: seq<byte>): (e: seq<byte>)
    requires |host| < 0xFFFB
    ensures |e| == |host| + 27
  {
    var sniList := PlainList(host);
    var sniExt := Be16(0x0000) + Be16(|sniList|) + sniList;
    var alpnExt := Be16(0x0010) + Be16(|ALPN_BODY|) + ALPN_BODY;
    sniExt + alpnExt
  }

  function PlainBody(exts: seq<byte>): (b: seq<byte>)
    requires |exts| < 0x1_0000
    ensures |b| == |exts| + 43
  {
    [0x03, 0x03] + RandomBytes() + [0x00] + Be16(2) + [0x13, 0x01] + [0x01, 0x00] + Be16(|exts|) + exts
  }

  /**
    A minimal TLS 1.2 ClientHello that carries a server name. The record length is the
    tightest of its fields: it runs out first, at names of 65462 bytes.
  */
  function ClientHello(host: seq<byte>): (r: Option<seq<byte>>) {
    if |host| + 74 >= 0x1_0000 then None
    else
      var body := PlainBody(PlainExtensions(host));
      var hs := [0x01] + Be24(|body|) + body;
      Some([0x16, 0x03, 0x01] + Be16(|hs|) + hs)
  }

  /** The same hello as an instance of the general form. */
  function HelloFor(host: seq<byte>): (r: Hello) {
    Hello(1, [0x03, 0x03] + RandomBytes(), [], [0x13, 0x01], [0x00],
          [], [], host, [], [], EncodeExt(Ext(0x0010, ALPN_BODY)))
  }

  lemma PlainListIsNameList(host: seq<byte>)
    requires |host| + 74 < 0x1_0000
    ensures SniFits(HelloFor(host)) && SniBody(HelloFor(host)) == PlainList(host)
  {
    var h := HelloFor(host);
    var entry := EncodeName(NameEntry(SNI_TYPE_HOSTNAME, host));
    assert EncodeNames([]) == [] && NameList(h) == entry;
  }

  lemma PlainExtensionsAre(host: seq<byte>)
    requires |host| + 74 < 0x1_0000
    ensures SniFits(HelloFor(host)) && Extensions(HelloFor(host)) == PlainExtensions(host)
  {
    hide PlainList, SniBody, NameList;
    PlainListIsNameList(host);
    assert EncodeExts([]) == [];
  }

  lemma PlainBodyIs(host: seq<byte>)
    requires |host| + 74 < 0x1_0000
    ensures FieldsFit(HelloFor(host)) && HelloBody(HelloFor(host)) == PlainBody(PlainExtensions(host))
  {
    hide PlainExtensions, Extensions, SniFits;
    PlainExtensionsAre(host);
  }

  /** The printed hello is an instance of the general one. */
  lemma HelloForFits(host: seq<byte>)
    requires ClientHello(host).Some?
    ensures Fits(HelloFor(host)) && HostIsFirst(HelloFor(host))
    ensures ClientHello(host).value == Record(HelloFor(host))
  {
    hide PlainBody, PlainExtensions, HelloBody, FieldsFit;
    PlainBodyIs(host);
  }

  /** Every printed hello yields its host name, clipped to the caller's buffer. */
  lemma ClientHelloRoundTrip(host: seq<byte>, tail: seq<byte>, cap: nat)
    requires ClientHello(host).Some? && 1 <= |host| < cap && 0 !in host
    ensures Sni(ClientHello(host).value + tail, cap) == Some(host)
  {
    HelloForFits(host);
    SniRoundTrip(HelloFor(host), tail, cap);
  }

  // ------------------------------------------------------------------ the packet

  function Be32Field(n: u32): (b: seq<byte>)
    ensures |b| == 4
  {
    [n / 0x100_0000, n / 0x1_0000 % 0x100, n / 0x100 % 0x100, n % 0x100]
  }

  function TcpHeader(sport: u16, dport: u16, seqno: u32): (h: seq<byte>)
    ensures |h| == 20
  {
    Be16(sport) + Be16(dport) + Be32Field(seqno) + Be32Field(1) +
    [5 * 16, 0x18] + Be16(65535) + Be16(0) + Be16(0)
  }

  /** The IPv4 header before its checksum, and after. */
  function IpHeaderStart(totalLen: u16): (h: seq<byte>)
    ensures |h| == 10
  {
    [0x45, 0] + Be16(totalLen) + Be16(0x1234) + Be16(0x4000) + [64, 6]
  }

  function IpHeader(totalLen: u16, src: seq<byte>, dst: seq<byte>): (h: seq<byte>)
    requires |src| == 4 && |dst| == 4
    ensures |h| == 20
  {
    var noCk := IpHeaderStart(totalLen) + Be16(0) + src + dst;
    noCk[..10] + Be16(IpChecksum(noCk)) + noCk[12..]
  }

  const ETHERNET: seq<byte> := [2, 0, 0, 0, 0, 1, 2, 0, 0, 0, 0, 2, 0x08, 0x00]

  function TcpPacket(src: seq<byte>, dst: seq<byte>, sport: u16, dport: u16, seqno: u32, payload: seq<byte>)
    : (r: Option<seq<byte>>)
    requires |src| == 4 && |dst| == 4
  {
    var tcp := TcpHeader(sport, dport, seqno) + payload;
    if 20 + |tcp| >= 0x1_0000 then None
    else Some(ETHERNET + IpHeader(20 + |tcp|, src, dst) + tcp)
  }

  /** A receiver that checksums the finished IP header gets 0. */
  lemma IpHeaderVerifies(totalLen: u16, src: seq<byte>, dst: seq<byte>)
    requires |src| == 4 && |dst| == 4
    ensures IpChecksum(IpHeader(totalLen, src, dst)) == 0
  {
    var a, b := IpHeaderStart(totalLen), src + dst;
    var noCk := a + Be16(0) + src + dst;
    assert noCk == a + Be16(0) + b;
    assert noCk[..10] == a && noCk[12..] == b;
    ChecksumVerifies(a, b);
  }

  lemma DecodesTcp(p: seq<byte>, sport: u16, dport: u16, seqno: u32, payload: seq<byte>, out: Packet)
    requires p == TcpHeader(sport, dport, seqno) + payload && out.l4proto == L4_TCP
    ensures DecodeL4(p, out) ==
            Some(out.(srcPort := sport, dstPort := dport, payload := Some(payload)))
  {
    var h := TcpHeader(sport, dport, seqno);
    AtWhole(p);
    AtConcat(p, 0, h, payload);
    assert p[0] == h[0] && p[1] == h[1] && p[2] == h[2] && p[3] == h[3] && p[12] == h[12];
    assert Rd16(p, 0) == sport && Rd16(p, 2) == dport;
    assert p[20..] == payload;
  }

  /** The IPv4 header: the fields the decoder reads. */
  lemma HeaderFields(ip: seq<byte>, totalLen: u16, src: seq<byte>, dst: seq<byte>, rest: seq<byte>)
    requires |src| == 4 && |dst| == 4 && ip == IpHeader(totalLen, src, dst) + rest
    ensures ip[0] == 0x45 && ip[9] == 6 && Rd16(ip, 6) == 0x4000
    ensures ip[12..16] == src && ip[16..20] == dst && ip[20..] == rest
  {
    var h := IpHeader(totalLen, src, dst);
    var noCk := IpHeaderStart(totalLen) + Be16(0) + src + dst;
    assert noCk[12..] == src + dst;
    assert h[12..16] == src && h[16..20] == dst;
    assert forall i :: 0 <= i < 20 ==> ip[i] == h[i];
    assert h[..10] == IpHeaderStart(totalLen);
    assert forall i :: 0 <= i < 10 ==> h[i] == h[..10][i] == IpHeaderStart(totalLen)[i];
    assert ip[12..16] == h[12..16] && ip[16..20] == h[16..20];
  }

  /** Decoding gives back every field, and the payload slice. */
  lemma TcpPacketRoundTrip(src: seq<byte>, dst: seq<byte>, sport: u16, dport: u16, seqno: u32, payload: seq<byte>)
    requires |src| == 4 && |dst| == 4
    requires TcpPacket(src, dst, sport, dport, seqno, payload).Some?
    ensures DecodeFrame(TcpPacket(src, dst, sport, dport, seqno, payload).value, DLT_EN10MB) ==
            Some(Packet(4, L4_TCP, Pad4(src), Pad4(dst), sport, dport, Some(payload)))
  {
    hide TcpHeader, IpHeader;
    var tcp := TcpHeader(sport, dport, seqno) + payload;
    var ip := IpHeader(20 + |tcp|, src, dst) + tcp;
    var pkt := TcpPacket(src, dst, sport, dport, seqno, payload).value;
    assert pkt == ETHERNET + ip;
    assert pkt[12] == 0x08 && pkt[13] == 0x00 && pkt[14..] == ip;
    assert Rd16(pkt, 12) == ETHERTYPE_IP;
    HeaderFields(ip, 20 + |tcp|, src, dst, tcp);
    DecodesTcp(tcp, sport, dport, seqno, payload,
               Packet(4, L4_TCP, Pad4(src), Pad4(dst), 0, 0, None));
    assert DecodeFrame(pkt, DLT_EN10MB) == DecodeIp(ip);
    assert DecodeIp(ip) == DecodeIp4(ip);
  }

  /**
    The printed header fields that the decoder does not look at: the length of the IP packet,
    its time to live, the sequence and acknowledgement numbers, the flags and the window.
  */
  lemma PrintedHeaders(src: seq<byte>, dst: seq<byte>, sport: u16, dport: u16, seqno: u32, payload: seq<byte>)
    requires |src| == 4 && |dst| == 4
    requires TcpPacket(src, dst, sport, dport, seqno, payload).Some?
    ensures var f := TcpPacket(src, dst, sport, dport, seqno, payload).value;
      && |f| == 54 + |payload| && Rd16(f, 16) == |f| - 14 && Rd16(f, 18) == 0x1234 && f[22] == 64
      && 0x1_0000 * Rd16(f, 38) + Rd16(f, 40) == seqno && 0x1_0000 * Rd16(f, 42) + Rd16(f, 44) == 1
      && f[47] == 0x18 && Rd16(f, 48) == 65535
  {
    var h, tcp := IpHeader(40 + |payload|, src, dst), TcpHeader(sport, dport, seqno);
    var f := ETHERNET + h + (tcp + payload);
    IpFields(40 + |payload|, src, dst);
    TcpFields(sport, dport, seqno);
    hide IpHeader, TcpHeader;
    assert f[14..34] == h && f[34..54] == tcp;
    assert forall i :: 0 <= i < 20 ==> f[14 + i] == f[14..34][i] && f[34 + i] == f[34..54][i];
  }

  lemma IpFields(totalLen: u16, src: seq<byte>, dst: seq<byte>)
    requires |src| == 4 && |dst| == 4
    ensures var h := IpHeader(totalLen, src, dst);
      Rd16(h, 2) == totalLen && Rd16(h, 4) == 0x1234 && h[8] == 64
  {
    hide IpChecksum;
    var h := IpHeader(totalLen, src, dst);
    assert h[..10] == IpHeaderStart(totalLen);
    assert forall i :: 0 <= i < 10 ==> h[i] == h[..10][i];
  }

  lemma TcpFields(sport: u16, dport: u16, seqno: u32)
    ensures var h := TcpHeader(sport, dport, seqno);
      && 0x1_0000 * Rd16(h, 4) + Rd16(h, 6) == seqno && 0x1_0000 * Rd16(h, 8) + Rd16(h, 10) == 1
      && h[13] == 0x18 && Rd16(h, 14) == 65535
  {
    Be32Reads(seqno);
  }

  lemma Be32Reads(n: u32)
    ensures var b := Be32Field(n); 0x1_0000 * Rd16(b, 0) + Rd16(b, 2) == n
  {
    assert n / 0x1_0000 == n / 0x100 / 0x100 && n / 0x100_0000 == n / 0x1_0000 / 0x100;
  }

  // ------------------------------------------------------------------ the capture

  /** One line of the hosts: a name, or none for a flow without a hello, and a destination. */
  datatype Entry = Entry(host: seq<byte>, dst: seq<byte>)

  const FIRST_PORT := 40000
  /** So many entries have a source port each. */
  const MAX_ENTRIES := 25536

  /** The packet for entry `k`: every entry has a source address and a source port of its own. */
  function PrintedFrame(k: nat, e: Entry): (r: Option<seq<byte>>)
    requires |e.dst| == 4
  {
    var payload := if e.host == [] then Some([]) else ClientHello(e.host);
    if payload.None? || k >= MAX_ENTRIES then None
    else TcpPacket([10, 0, k / 250, k % 250 + 1], e.dst, FIRST_PORT + k, 443, 1000, payload.value)
  }

  /** The capture holds one frame for each entry, in order. */
  predicate Printed(entries: seq<Entry>, frames: seq<seq<byte>>)
    requires forall k :: 0 <= k < |entries| ==> |entries[k].dst| == 4
  {
    |frames| == |entries| && forall k :: 0 <= k < |entries| ==> PrintedFrame(k, entries[k]) == Some(frames[k])
  }

  /** The loop of `main`; it fails exactly if one of the packets cannot be packed. */
  method PrintCapture(entries: seq<Entry>) returns (frames: Option<seq<seq<byte>>>)
    requires forall k :: 0 <= k < |entries| ==> |entries[k].dst| == 4
    ensures frames.None? <==> exists k :: 0 <= k < |entries| && PrintedFrame(k, entries[k]).None?
    ensures frames.Some? ==> Printed(entries, frames.value)
  {
    hide ClientHello, TcpPacket;
    var out: seq<seq<byte>> := [];
    for i := 0 to |entries|
      invariant |out| == i && forall k :: 0 <= k < i ==> PrintedFrame(k, entries[k]) == Some(out[k])
    {
      var payload: seq<byte> := [];
      if entries[i].host != [] {
        var hello := ClientHello(entries[i].host);
        if hello.None? {
          return None;
        }
        payload := hello.value;
      }
      if FIRST_PORT + i >= 0x1_0000 {
        return None;
      }
      var pkt := TcpPacket([10, 0, i / 250, i % 250 + 1], entries[i].dst, FIRST_PORT + i, 443, 1000, payload);
      if pkt.None? {
        return None;
      }
      out := out + [pkt.value];
    }
    return Some(out);
  }

  /** Every printed frame decodes to the packet that was meant. */
  lemma PrintedDecodes(k: nat, e: Entry)
    requires |e.dst| == 4 && PrintedFrame(k, e).Some?
    ensures k < MAX_ENTRIES && (e.host != [] ==> ClientHello(e.host).Some?)
    ensures DecodeFrame(PrintedFrame(k, e).value, DLT_EN10MB) ==
            Some(Packet(4, L4_TCP, Pad4([10, 0, k / 250, k % 250 + 1]), Pad4(e.dst), FIRST_PORT + k, 443,
                        Some(if e.host == [] then [] else ClientHello(e.host).value)))
  {
    hide ClientHello, TcpPacket, DecodeFrame;
    TcpPacketRoundTrip([10, 0, k / 250, k % 250 + 1], e.dst, FIRST_PORT + k, 443, 1000,
                       if e.host == [] then [] else ClientHello(e.host).value);
  }
}
