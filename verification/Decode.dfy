/**
  Link, network and transport decoding (src/engine/decode.c): section 3.1 of RFC 791 for
  the IPv4 header, section 4 of RFC 8200 for the IPv6 extension headers.
*/
module Decode {
  import opened Wrappers
  import opened Bits

  const ETHERTYPE_IP := 0x0800
  const ETHERTYPE_IPV6 := 0x86DD
  const ETHERTYPE_VLAN := 0x8100
  const ETHERTYPE_QINQ := 0x88A8

  const DLT_NULL: nat := 0
  const DLT_EN10MB: nat := 1
  const DLT_RAW: nat := 101
  const DLT_LINUX_SLL: nat := 113

  const L4_TCP: byte := 6
  const L4_UDP: byte := 17

  type Ip = a: seq<byte> | |a| == 16 witness seq(16, _ => 0)

  datatype Packet = Packet(
    ipVersion: byte,
    l4proto: byte,
    srcIp: Ip,
    dstIp: Ip,
    srcPort: u16,
    dstPort: u16,
    payload: Option<seq<byte>>   // None where the C struct has a NULL pointer
  )

  /** An IPv4 address in a zeroed 16-byte field. */
  function Pad4(a: seq<byte>): (r: Ip)
    requires |a| == 4
  {
    a + [0, 0, 0, 0, 0, 0, 0, 0, 0, 0, 0, 0]
  }

  function DecodeL4(p: seq<byte>, out: Packet): (r: Option<Packet>) {
    if out.l4proto == L4_TCP then
      if |p| < 20 then None
      else
        var hlen := (p[12] / 16) * 4;
        if hlen < 20 || hlen > |p| then None
        else Some(out.(srcPort := Rd16(p, 0), dstPort := Rd16(p, 2), payload := Some(p[hlen..])))
    else if out.l4proto == L4_UDP then
      if |p| < 8 then None
      else Some(out.(srcPort := Rd16(p, 0), dstPort := Rd16(p, 2), payload := Some(p[8..])))
    else Some(out.(payload := None))
  }

  function DecodeIp4(p: seq<byte>): (r: Option<Packet>) {
    if |p| < 20 then None
    else
      var ihl := (p[0] % 16) * 4;
      if ihl < 20 || ihl > |p| then None
      else
        var out := Packet(4, p[9], Pad4(p[12..16]), Pad4(p[16..20]), 0, 0, None);
        if Rd16(p, 6) % 0x2000 != 0 then Some(out)
        else DecodeL4(p[ihl..], out)
  }

  /** Hop-by-hop options, routing, destination options: headers with a length. */
  predicate HasLength(nh: byte) {
    nh == 0 || nh == 43 || nh == 60
  }

  const FRAGMENT: byte := 44

  /** The transport protocol and header offset behind at most `n` extension headers. */
  function WalkExtensions(p: seq<byte>, nh: byte, off: nat, n: nat): (r: Option<(byte, nat)>)
    ensures r.Some? && off <= |p| ==> off <= r.value.1 <= |p|
    decreases n
  {
    if n == 0 then Some((nh, off))
    else if HasLength(nh) then
      if off + 8 > |p| then None
      else
        var off' := off + (p[off + 1] as int + 1) * 8;
        if off' > |p| then None else WalkExtensions(p, p[off], off', n - 1)
    else if nh == FRAGMENT then
      if off + 8 > |p| then None else WalkExtensions(p, p[off], off + 8, n - 1)
    else Some((nh, off))
  }

  const MAX_EXTENSIONS := 8

  function DecodeIp6(p: seq<byte>): (r: Option<Packet>) {
    if |p| < 40 then None
    else
      match WalkExtensions(p, p[6], 40, MAX_EXTENSIONS)
      case None => None
      case Some((nh, off)) =>
        DecodeL4(p[off..], Packet(6, nh, p[8..24], p[24..40], 0, 0, None))
  }

  function DecodeIp(p: seq<byte>): (r: Option<Packet>) {
    if |p| < 1 then None
    else if p[0] / 16 == 4 then DecodeIp4(p)
    else if p[0] / 16 == 6 then DecodeIp6(p)
    else None
  }

  predicate IsVlan(et: nat) {
    et == ETHERTYPE_VLAN || et == ETHERTYPE_QINQ
  }

  /** The ethertype and the offset behind at most `n` VLAN tags. */
  function PeelTags(pkt: seq<byte>, et: u16, off: nat, n: nat): (r: Option<(u16, nat)>)
    ensures r.Some? && off <= |pkt| ==> off <= r.value.1 <= |pkt|
    decreases n
  {
    if n == 0 || !IsVlan(et) then Some((et, off))
    else if |pkt| < off + 4 then None
    else PeelTags(pkt, Rd16(pkt, off + 2), off + 4, n - 1)
  }

  function DecodeEthernet(pkt: seq<byte>): (r: Option<Packet>) {
    if |pkt| < 14 then None
    else
      match PeelTags(pkt, Rd16(pkt, 12), 14, 2)
      case None => None
      case Some((et, off)) =>
        if et != ETHERTYPE_IP && et != ETHERTYPE_IPV6 then None else DecodeIp(pkt[off..])
  }

  /** What a captured frame decodes to; none if truncated or not a protocol handled. */
  function DecodeFrame(pkt: seq<byte>, linktype: nat): (r: Option<Packet>) {
    if linktype == DLT_EN10MB then DecodeEthernet(pkt)
    else if linktype == DLT_RAW then DecodeIp(pkt)
    else if linktype == DLT_NULL then if |pkt| < 4 then None else DecodeIp(pkt[4..])
    else if linktype == DLT_LINUX_SLL then if |pkt| < 16 then None else DecodeIp(pkt[16..])
    else None
  }

  // ---------------------------------------------------------------- the C functions

  /** `ngfw_packet_t`: the struct the decoder fills field by field. */
  class PacketBuffer {
    var ipVersion: byte
    var l4proto: byte
    var srcIp: Ip
    var dstIp: Ip
    var srcPort: u16
    var dstPort: u16
    var payload: Option<seq<byte>>

    constructor ()
    {
      ipVersion, l4proto, srcPort, dstPort := 0, 0, 0, 0;
      srcIp := seq(16, _ => 0);
      dstIp := seq(16, _ => 0);
      payload := None;
    }

    /** `memset(out, 0, sizeof *out)`. */
    method Clear()
      modifies this
      ensures Value() == Packet(0, 0, seq(16, _ => 0), seq(16, _ => 0), 0, 0, None)
    {
      ipVersion, l4proto, srcPort, dstPort := 0, 0, 0, 0;
      srcIp := seq(16, _ => 0);
      dstIp := seq(16, _ => 0);
      payload := None;
    }

    function Value(): (r: Packet)
      reads this
    {
      Packet(ipVersion, l4proto, srcIp, dstIp, srcPort, dstPort, payload)
    }

    method FillL4(p: seq<byte>) returns (ok: bool)
      modifies this
      ensures ok <==> DecodeL4(p, old(Value())).Some?
      ensures ok ==> Value() == DecodeL4(p, old(Value())).value
    {
      var len := |p|;
      if l4proto == L4_TCP {
        if len < 20 {
          return false;
        }
        srcPort := Rd16(p, 0);
        dstPort := Rd16(p, 2);
        var hlen := (p[12] / 16) * 4;
        if hlen < 20 || hlen > len {
          return false;
        }
        payload := Some(p[hlen..]);
        return true;
      }
      if l4proto == L4_UDP {
        if len < 8 {
          return false;
        }
        srcPort := Rd16(p, 0);
        dstPort := Rd16(p, 2);
        payload := Some(p[8..]);
        return true;
      }
      payload := None;
      return true;
    }

    method FillIp(p: seq<byte>) returns (ok: bool)
      requires Value() == Packet(0, 0, seq(16, _ => 0), seq(16, _ => 0), 0, 0, None)
      modifies this
      ensures ok <==> DecodeIp(p).Some?
      ensures ok ==> Value() == DecodeIp(p).value
    {
      var len := |p|;
      if len < 1 {
        return false;
      }
      var ver := p[0] / 16;
      if ver == 4 {
        if len < 20 {
          return false;
        }
        var ihl := (p[0] % 16) * 4;
        if ihl < 20 || ihl > len {
          return false;
        }
        ipVersion := 4;
        l4proto := p[9];
        srcIp := p[12..16] + srcIp[4..];
        dstIp := p[16..20] + dstIp[4..];
        assert srcIp == Pad4(p[12..16]) && dstIp == Pad4(p[16..20]);
        var frag := Rd16(p, 6);
        if frag % 0x2000 != 0 {
          payload := None;
          return true;
        }
        ok := FillL4(p[ihl..]);
        return;
      }
      if ver == 6 {
        if len < 40 {
          return false;
        }
        ipVersion := 6;
        srcIp := p[8..24];
        dstIp := p[24..40];
        var found, nh, off := FindTransport(p);
        if !found {
          return false;
        }
        l4proto := nh;
        ok := FillL4(p[off..]);
        return;
      }
      return false;
    }

    /** `ngfw_decode`. On failure the struct is left half filled, and callers do not read it. */
    method NgfwDecode(pkt: seq<byte>, linktype: nat) returns (ok: bool)
      modifies this
      ensures ok <==> DecodeFrame(pkt, linktype).Some?
      ensures ok ==> Value() == DecodeFrame(pkt, linktype).value
    {
      Clear();
      if linktype == DLT_EN10MB {
        if |pkt| < 14 {
          return false;
        }
        var et := Rd16(pkt, 12);
        var off := 14;
        var i := 0;
        while i < 2 && IsVlan(et)
          invariant 0 <= i <= 2 && 14 <= off <= |pkt|
          invariant PeelTags(pkt, Rd16(pkt, 12), 14, 2) == PeelTags(pkt, et, off, 2 - i)
        {
          if |pkt| < off + 4 {
            return false;
          }
          et := Rd16(pkt, off + 2);
          off := off + 4;
          i := i + 1;
        }
        if et != ETHERTYPE_IP && et != ETHERTYPE_IPV6 {
          return false;
        }
        ok := FillIp(pkt[off..]);
      } else if linktype == DLT_RAW {
        ok := FillIp(pkt);
      } else if linktype == DLT_NULL {
        if |pkt| < 4 {
          return false;
        }
        ok := FillIp(pkt[4..]);
      } else if linktype == DLT_LINUX_SLL {
        if |pkt| < 16 {
          return false;
        }
        ok := FillIp(pkt[16..]);
      } else {
        ok := false;
      }
    }
  }

  /** The walk over the extension headers in front of the transport header. */
  method FindTransport(p: seq<byte>) returns (found: bool, nh: byte, off: nat)
    requires |p| >= 40
    ensures found <==> WalkExtensions(p, p[6], 40, MAX_EXTENSIONS).Some?
    ensures found ==> WalkExtensions(p, p[6], 40, MAX_EXTENSIONS).value == (nh, off) && off <= |p|
  {
    nh := p[6];
    off := 40;
    var i := 0;
    while i < MAX_EXTENSIONS
      invariant 0 <= i <= MAX_EXTENSIONS && 40 <= off <= |p|
      invariant WalkExtensions(p, p[6], 40, MAX_EXTENSIONS) == WalkExtensions(p, nh, off, MAX_EXTENSIONS - i)
    {
      if HasLength(nh) {
        if off + 8 > |p| {
          return false, nh, off;
        }
        var elen := (p[off + 1] as int + 1) * 8;
        nh := p[off];
        off := off + elen;
        if off > |p| {
          return false, nh, off;
        }
      } else if nh == FRAGMENT {
        if off + 8 > |p| {
          return false, nh, off;
        }
        nh := p[off];
        off := off + 8;
      } else {
        break;
      }
      i := i + 1;
    }
    found := off <= |p|;
  }
}
