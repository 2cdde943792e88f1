/**
  Extracting the server name from a TLS ClientHello (src/engine/tls.c): sections 6.2.1
  and 7.4.1.2 of RFC 5246 for the record and the hello, section 3 of RFC 6066 for the
  server_name extension.

  `FindHost` says which bytes of the capture are the host name; `NgfwTlsSni` is the C
  function, with its cursor, its 16-bit casts and its output buffer.
*/
module Tls {
  import opened Wrappers
  import opened Bits

  const TLS_REC_HANDSHAKE: byte := 22
  const TLS_HS_CLIENT_HELLO: byte := 1
  const EXT_SERVER_NAME := 0
  const SNI_TYPE_HOSTNAME: byte := 0

  /** The host name in a server_name list that occupies `buf[e..eEnd]`. */
  function NameInList(buf: seq<byte>, e: nat, eEnd: nat): (r: Option<seq<byte>>)
    requires eEnd <= |buf|
    decreases eEnd - e
  {
    if eEnd < e + 3 then None
    else
      var nl := Rd16(buf, e + 1);
      if eEnd < e + 3 + nl then None
      else if buf[e] == SNI_TYPE_HOSTNAME then Some(buf[e + 3..e + 3 + nl])
      else NameInList(buf, e + 3 + nl, eEnd)
  }

  /** The host name in the body of a server_name extension, `buf[p..pEnd]`. */
  function NameInExtension(buf: seq<byte>, p: nat, pEnd: nat): (r: Option<seq<byte>>)
    requires p <= pEnd <= |buf|
  {
    if pEnd - p < 2 then None
    else
      var listLen := Rd16(buf, p);
      if pEnd - p - 2 < listLen then None
      else NameInList(buf, p + 2, p + 2 + listLen)
  }

  /** The host name in the extensions `buf[p..extEnd]`: the first server_name decides. */
  function NameInExtensions(buf: seq<byte>, p: nat, extEnd: nat): (r: Option<seq<byte>>)
    requires extEnd <= |buf|
    decreases extEnd - p
  {
    if extEnd < p + 4 then None
    else
      var elen := Rd16(buf, p + 2);
      if extEnd < p + 4 + elen then None
      else if Rd16(buf, p) == EXT_SERVER_NAME then NameInExtension(buf, p + 4, p + 4 + elen)
      else NameInExtensions(buf, p + 4 + elen, extEnd)
  }

  /** Past a vector with a one-byte length at `p`. */
  function SkipShort(buf: seq<byte>, p: nat, end: nat): (q: Option<nat>)
    requires end <= |buf|
    ensures q.Some? ==> p < q.value <= end
  {
    if end < p + 1 || end < p + 1 + buf[p] then None else Some(p + 1 + buf[p])
  }

  /** Past a vector with a two-byte length at `p`. */
  function SkipLong(buf: seq<byte>, p: nat, end: nat): (q: Option<nat>)
    requires end <= |buf|
    ensures q.Some? ==> p < q.value <= end
  {
    if end < p + 2 || end < p + 2 + Rd16(buf, p) then None else Some(p + 2 + Rd16(buf, p))
  }

  /** Where the length field of the extensions is, in a hello that ends at `end`. */
  function ExtensionsAt(buf: seq<byte>, end: nat): (q: Option<nat>)
    requires end <= |buf|
    ensures q.Some? ==> 43 < q.value && q.value + 2 <= end
  {
    if end < 43 then None
    else
      match SkipShort(buf, 43, end)                       // session id
      case None => None
      case Some(p) =>
        match SkipLong(buf, p, end)                       // cipher suites
        case None => None
        case Some(p) =>
          match SkipShort(buf, p, end)                    // compression methods
          case None => None
          case Some(p) => if end < p + 2 then None else Some(p)
  }

  /** The end of the hello in the capture: record and handshake length, or the capture's end. */
  function HelloEnd(buf: seq<byte>): (end: Option<nat>)
    ensures end.Some? ==> 9 <= end.value <= |buf|
  {
    if |buf| < 43 || buf[0] != TLS_REC_HANDSHAKE || buf[1] != 3 then None
    else
      var end := 5 + Min(Rd16(buf, 3), |buf| - 5);
      if end < 9 || buf[5] != TLS_HS_CLIENT_HELLO then None
      else Some(Min(end, 9 + Rd24(buf, 6)))
  }

  /** The bytes of the first host name in a captured ClientHello. */
  function FindHost(buf: seq<byte>): (r: Option<seq<byte>>) {
    match HelloEnd(buf)
    case None => None
    case Some(end) =>
      match ExtensionsAt(buf, end)
      case None => None
      case Some(p) => NameInExtensions(buf, p + 2, Min(p + 2 + Rd16(buf, p), end))
  }

  /** What the caller's buffer of `cap` bytes can take of a name. */
  function Clip(host: seq<byte>, cap: nat): (r: seq<byte>)
    requires cap > 0
  {
    host[..Min(|host|, cap - 1)]
  }

  /** The server name the function reports: a clipped host name, non-empty and free of NULs. */
  function Sni(buf: seq<byte>, cap: nat): (r: Option<seq<byte>>) {
    if cap == 0 then None
    else
      match FindHost(buf)
      case None => None
      case Some(host) =>
        var s := Clip(host, cap);
        if s == [] || 0 in s then None else Some(s)
  }

  // ---------------------------------------------------------------- the C function

  /** `strlen` of a buffer that holds a NUL. */
  method StrLen(s: array<byte>) returns (n: nat)
    requires 0 in s[..]
    ensures n < s.Length && s[n] == 0 && 0 !in s[..n]
  {
    n := 0;
    while s[n] != 0
      invariant n < s.Length && 0 !in s[..n]
      invariant 0 in s[n..]
      decreases s.Length - n
    {
      n := n + 1;
    }
  }

  /** Copies a host name into the buffer, terminates it, and vets it. */
  method CopyHost(buf: seq<byte>, e: nat, nl: nat, sni: array<byte>) returns (ok: bool)
    requires e + nl <= |buf| && sni.Length > 0
    modifies sni
    ensures var s := Clip(buf[e..e + nl], sni.Length);
      sni[..] == s + [0] + old(sni[..])[|s| + 1..] && (ok <==> s != [] && 0 !in s)
  {
    var n := if nl < sni.Length - 1 then nl else sni.Length - 1;
    ghost var was := sni[..];
    ghost var s := Clip(buf[e..e + nl], sni.Length);
    for i := 0 to n
      invariant forall k :: 0 <= k < i ==> sni[k] == buf[e + k]
      invariant forall k :: i <= k < sni.Length ==> sni[k] == was[k]
    {
      sni[i] := buf[e + i];
    }
    sni[n] := 0;
    assert s == sni[..n];
    assert sni[..] == s + [0] + was[n + 1..];
    assert sni[n] in sni[..];
    var len := StrLen(sni);
    FirstNul(sni[..], s, len);
    ok := !(len != n || n == 0);
  }

  /** `strlen` gives the length of the copied name exactly when the name has no NUL. */
  lemma FirstNul(now: seq<byte>, s: seq<byte>, len: nat)
    requires |s| < |now| && now[..|s|] == s && now[|s|] == 0
    requires len < |now| && now[len] == 0 && 0 !in now[..len]
    ensures len == |s| <==> 0 !in s
  {
    assert forall k :: 0 <= k < len ==> now[k] == now[..len][k];
    if len < |s| {
      assert s[len] == 0;
    } else {
      assert now[..len] == s;
    }
  }

  /** The names of a server_name list: the inner loop. */
  method ScanList(buf: seq<byte>, start: nat, eEnd: nat, sni: array<byte>) returns (ok: bool)
    requires start <= eEnd <= |buf| && eEnd - start < 0x1_0000 && sni.Length > 0
    modifies sni
    ensures Reported(NameInList(buf, start, eEnd), old(sni[..]), sni[..], ok)
  {
    hide Clip, Rd16, Reported;
    NothingReported(sni[..]);
    var e := start;
    while eEnd - e >= 3
      invariant start <= e <= eEnd
      invariant sni[..] == old(sni[..])
      invariant NameInList(buf, start, eEnd) == NameInList(buf, e, eEnd)
      decreases eEnd - e
    {
      var nt, nl := buf[e], Rd16(buf, e + 1);
      e := e + 3;
      if nl > (eEnd - e) % 0x1_0000 {
        return false;
      }
      if nt == SNI_TYPE_HOSTNAME {
        ok := CopyHost(buf, e, nl, sni);
        HostReported(buf[e..e + nl], old(sni[..]), sni[..], ok);
        return;
      }
      e := e + nl;
    }
    return false;
  }

  /** What the buffer and the result tell about a host name found, or not found. */
  ghost predicate Reported(host: Option<seq<byte>>, was: seq<byte>, now: seq<byte>, ok: bool) {
    |was| == |now| && |was| > 0 &&
    match host
    case None => now == was && !ok
    case Some(h) =>
      var s := Clip(h, |was|);
      now == s + [0] + was[|s| + 1..] && (ok <==> s != [] && 0 !in s)
  }

  lemma HostReported(h: seq<byte>, was: seq<byte>, now: seq<byte>, ok: bool)
    requires |was| == |now| > 0
    requires var s := Clip(h, |was|); now == s + [0] + was[|s| + 1..] && (ok <==> s != [] && 0 !in s)
    ensures Reported(Some(h), was, now, ok)
  {
  }

  lemma NothingReported(was: seq<byte>)
    requires |was| > 0
    ensures Reported(None, was, was, false)
  {
  }

  /** The extensions: the outer loop. */
  method ScanExtensions(buf: seq<byte>, start: nat, extEnd: nat, sni: array<byte>) returns (ok: bool)
    requires start <= extEnd <= |buf| && extEnd - start < 0x1_0000 && sni.Length > 0
    modifies sni
    ensures Reported(NameInExtensions(buf, start, extEnd), old(sni[..]), sni[..], ok)
  {
    hide Rd16, Reported;
    NothingReported(sni[..]);
    var p := start;
    while extEnd - p >= 4
      invariant start <= p <= extEnd
      invariant sni[..] == old(sni[..])
      invariant NameInExtensions(buf, start, extEnd) == NameInExtensions(buf, p, extEnd)
      decreases extEnd - p
    {
      var typ, elen := Rd16(buf, p), Rd16(buf, p + 2);
      p := p + 4;
      if elen > (extEnd - p) % 0x1_0000 {
        return false;
      }
      if typ == EXT_SERVER_NAME {
        var e, eEnd := p, p + elen;
        if eEnd - e < 2 {
          return false;
        }
        var listLen := Rd16(buf, e);
        e := e + 2;
        if listLen > (eEnd - e) % 0x1_0000 {
          return false;
        }
        ok := ScanList(buf, e, e + listLen, sni);
        return;
      }
      p := p + elen;
    }
    return false;
  }

  /** The walk from the record header to the extensions, and through them. */
  method ParseHello(buf: seq<byte>, sni: array<byte>) returns (ok: bool)
    requires sni.Length > 0
    modifies sni
    ensures Reported(FindHost(buf), old(sni[..]), sni[..], ok)
  {
    hide NameInExtensions, ExtensionsAt, Rd16, Rd24, Clip;
    var len := |buf|;
    if len < 43 {
      return false;
    }
    if buf[0] != TLS_REC_HANDSHAKE {
      return false;
    }
    if buf[1] != 3 {
      return false;
    }
    var recLen: nat := Rd16(buf, 3);
    var avail := len - 5;
    if recLen > avail {
      recLen := avail;
    }
    var p: nat := 5;
    var end: nat := p + recLen;
    if end - p < 4 || buf[p] != TLS_HS_CLIENT_HELLO {
      return false;
    }
    var hsLen := Rd24(buf, p + 1);
    p := p + 4;
    if hsLen < end - p {
      end := p + hsLen;
    }
    assert HelloEnd(buf) == Some(end);
    var at := SkipToExtensions(buf, p, end);
    if at.None? {
      return false;
    }
    p := at.value;
    var extTotal: nat := Rd16(buf, p);
    p := p + 2;
    if extTotal > (end - p) % 0x1_0000 {
      extTotal := (end - p) % 0x1_0000;
    }
    ok := ScanExtensions(buf, p, p + extTotal, sni);
  }

  /** The fixed fields and the three vectors before the extensions. */
  method SkipToExtensions(buf: seq<byte>, start: nat, end: nat) returns (at: Option<nat>)
    requires start == 9 <= end <= |buf|
    ensures at == ExtensionsAt(buf, end)
  {
    hide Rd16;
    var p: nat := start;
    if end - p < 34 {
      return None;
    }
    p := p + 2 + 32;
    if end - p < 1 {
      return None;
    }
    var sid := buf[p];
    p := p + 1;
    if end - p < sid {
      return None;
    }
    p := p + sid;
    if end - p < 2 {
      return None;
    }
    var cs := Rd16(buf, p);
    p := p + 2;
    if end - p < cs {
      return None;
    }
    p := p + cs;
    if end - p < 1 {
      return None;
    }
    var comp := buf[p];
    p := p + 1;
    if end - p < comp {
      return None;
    }
    p := p + comp;
    return if end - p < 2 then None else Some(p);
  }

  lemma ReportedIsSni(buf: seq<byte>, was: seq<byte>, now: seq<byte>, ok: bool)
    requires Reported(FindHost(buf), was, now, ok)
    ensures ok <==> Sni(buf, |now|).Some?
    ensures ok ==> var s := Sni(buf, |now|).value;
      |s| < |now| && now[..|s|] == s && now[|s|] == 0
  {
    hide FindHost;
    match FindHost(buf)
    case None =>
    case Some(host) =>
      var s := Clip(host, |was|);
      assert |s| <= |was| - 1;
      assert now[..|s|] == s;
  }

  /**
    `ngfw_tls_sni`. Its casts to 16 bits lose nothing: the specification it meets has none.
    On success the buffer holds the name as a C string.
  */
  method NgfwTlsSni(buf: seq<byte>, sni: array<byte>) returns (ok: bool)
    modifies sni
    ensures sni.Length == 0 ==> !ok
    ensures sni.Length > 0 ==> Reported(FindHost(buf), old(sni[..]), sni[..], ok)
    ensures ok <==> Sni(buf, sni.Length).Some?
    ensures ok ==> var s := Sni(buf, sni.Length).value;
      |s| < sni.Length && sni[..|s|] == s && sni[|s|] == 0
  {
    if sni.Length == 0 {
      return false;
    }
    hide FindHost, Reported;
    ok := ParseHello(buf, sni);
    ReportedIsSni(buf, old(sni[..]), sni[..], ok);
  }
}
