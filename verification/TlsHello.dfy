/**
  ClientHellos as their printer writes them, and what the parser makes of them: it finds
  the host name in every well-formed hello, and a longer capture never changes an answer.
*/
module TlsHello {
  import opened Wrappers
  import opened Bits
  import opened Layout
  import opened Tls

  datatype Ext = Ext(typ: u16, body: seq<byte>)

  datatype NameEntry = NameEntry(typ: byte, name: seq<byte>)

  /** The free parts of a hello that carries a server name; `sni...` are those of the extension. */
  datatype Hello = Hello(
    minor: byte,                 // record version 3.minor
    fixed: seq<byte>,            // client version and random
    sessionId: seq<byte>,
    ciphers: seq<byte>,
    compression: seq<byte>,
    before: seq<Ext>,            // extensions before the server name
    sniBefore: seq<NameEntry>,   // names of other types before the host name
    host: seq<byte>,
    sniAfter: seq<byte>,         // rest of the list
    sniSlack: seq<byte>,         // rest of the extension
    after: seq<byte>             // rest of the extensions
  )

  function EncodeExt(e: Ext): (r: seq<byte>)
    requires |e.body| < 0x1_0000
  {
    Be16(e.typ) + Be16(|e.body|) + e.body
  }

  predicate ExtsFit(es: seq<Ext>) {
    forall i :: 0 <= i < |es| ==> |es[i].body| < 0x1_0000
  }

  function EncodeExts(es: seq<Ext>): (r: seq<byte>)
    requires ExtsFit(es)
  {
    if |es| == 0 then [] else EncodeExt(es[0]) + EncodeExts(es[1..])
  }

  predicate NamesFit(ns: seq<NameEntry>) {
    forall i :: 0 <= i < |ns| ==> |ns[i].name| < 0x1_0000
  }

  function EncodeName(n: NameEntry): (r: seq<byte>)
    requires |n.name| < 0x1_0000
  {
    [n.typ] + Be16(|n.name|) + n.name
  }

  function EncodeNames(ns: seq<NameEntry>): (r: seq<byte>)
    requires NamesFit(ns)
  {
    if |ns| == 0 then [] else EncodeName(ns[0]) + EncodeNames(ns[1..])
  }

  function NameList(h: Hello): (r: seq<byte>)
    requires NamesFit(h.sniBefore) && |h.host| < 0x1_0000
  {
    EncodeNames(h.sniBefore) + (EncodeName(NameEntry(SNI_TYPE_HOSTNAME, h.host)) + h.sniAfter)
  }

  function SniBody(h: Hello): (r: seq<byte>)
    requires NamesFit(h.sniBefore) && |h.host| < 0x1_0000 && |NameList(h)| < 0x1_0000
  {
    Be16(|NameList(h)|) + (NameList(h) + h.sniSlack)
  }

  predicate SniFits(h: Hello) {
    && NamesFit(h.sniBefore) && |h.host| < 0x1_0000 && |NameList(h)| < 0x1_0000
    && |SniBody(h)| < 0x1_0000
  }

  function Extensions(h: Hello): (r: seq<byte>)
    requires ExtsFit(h.before) && SniFits(h)
  {
    EncodeExts(h.before) + (EncodeExt(Ext(EXT_SERVER_NAME, SniBody(h))) + h.after)
  }

  predicate FieldsFit(h: Hello) {
    && |h.fixed| == 34 && |h.sessionId| < 0x100 && |h.ciphers| < 0x1_0000 && |h.compression| < 0x100
    && ExtsFit(h.before) && SniFits(h) && |Extensions(h)| < 0x1_0000
  }

  function HelloBody(h: Hello): (r: seq<byte>)
    requires FieldsFit(h)
  {
    h.fixed + ([|h.sessionId|] + h.sessionId + (Be16(|h.ciphers|) + h.ciphers +
      ([|h.compression|] + h.compression + (Be16(|Extensions(h)|) + Extensions(h)))))
  }

  /** The handshake message fits one record. */
  predicate Fits(h: Hello) {
    FieldsFit(h) && |HelloBody(h)| + 4 < 0x1_0000
  }

  function Handshake(h: Hello): (r: seq<byte>)
    requires Fits(h)
  {
    [TLS_HS_CLIENT_HELLO] + Be24(|HelloBody(h)|) + HelloBody(h)
  }

  function Record(h: Hello): (r: seq<byte>)
    requires Fits(h)
  {
    [TLS_REC_HANDSHAKE, 3, h.minor] + Be16(|Handshake(h)|) + Handshake(h)
  }

  /** Nothing before the host name is mistaken for it. */
  predicate HostIsFirst(h: Hello) {
    && (forall i :: 0 <= i < |h.before| ==> h.before[i].typ != EXT_SERVER_NAME)
    && (forall i :: 0 <= i < |h.sniBefore| ==> h.sniBefore[i].typ != SNI_TYPE_HOSTNAME)
  }

  // ------------------------------------------------------------------ round trip

  lemma {:induction false} ListFindsHost(buf: seq<byte>, e: nat, eEnd: nat, ns: seq<NameEntry>,
                                         host: seq<byte>, rest: seq<byte>)
    requires NamesFit(ns) && |host| < 0x1_0000
    requires forall i :: 0 <= i < |ns| ==> ns[i].typ != SNI_TYPE_HOSTNAME
    requires At(buf, e, EncodeNames(ns) + (EncodeName(NameEntry(SNI_TYPE_HOSTNAME, host)) + rest))
    requires eEnd == e + |EncodeNames(ns) + (EncodeName(NameEntry(SNI_TYPE_HOSTNAME, host)) + rest)|
    ensures NameInList(buf, e, eEnd) == Some(host)
    decreases |ns|
  {
    hide Rd16, Be16;
    var last := EncodeName(NameEntry(SNI_TYPE_HOSTNAME, host)) + rest;
    if |ns| == 0 {
      assert [] + last == last;
      AtConcat(buf, e, EncodeName(NameEntry(SNI_TYPE_HOSTNAME, host)), rest);
      NameParts(buf, e, NameEntry(SNI_TYPE_HOSTNAME, host));
    } else {
      var n := ns[0];
      assert EncodeNames(ns) + last == EncodeName(n) + (EncodeNames(ns[1..]) + last);
      AtConcat(buf, e, EncodeName(n), EncodeNames(ns[1..]) + last);
      NameParts(buf, e, n);
      ListFindsHost(buf, e + |EncodeName(n)|, eEnd, ns[1..], host, rest);
    }
  }

  lemma NameParts(buf: seq<byte>, e: nat, n: NameEntry)
    requires |n.name| < 0x1_0000 && At(buf, e, EncodeName(n))
    ensures e + 3 + |n.name| <= |buf| && buf[e] == n.typ && Rd16(buf, e + 1) == |n.name|
    ensures buf[e + 3..e + 3 + |n.name|] == n.name
  {
    AtConcat(buf, e, [n.typ] + Be16(|n.name|), n.name);
    AtConcat(buf, e, [n.typ], Be16(|n.name|));
    AtByte(buf, e, n.typ);
    AtBe16(buf, e + 1, |n.name|);
  }

  lemma ExtensionFindsHost(buf: seq<byte>, p: nat, h: Hello)
    requires SniFits(h) && HostIsFirst(h) && At(buf, p, SniBody(h))
    ensures NameInExtension(buf, p, p + |SniBody(h)|) == Some(h.host)
  {
    hide EncodeNames, EncodeName;
    var list := NameList(h);
    AtConcat(buf, p, Be16(|list|), list + h.sniSlack);
    AtBe16(buf, p, |list|);
    AtConcat(buf, p + 2, list, h.sniSlack);
    ListFindsHost(buf, p + 2, p + 2 + |list|, h.sniBefore, h.host, h.sniAfter);
  }

  lemma ExtParts(buf: seq<byte>, p: nat, e: Ext)
    requires |e.body| < 0x1_0000 && At(buf, p, EncodeExt(e))
    ensures p + 4 + |e.body| <= |buf| && Rd16(buf, p) == e.typ && Rd16(buf, p + 2) == |e.body|
    ensures At(buf, p + 4, e.body) && |EncodeExt(e)| == 4 + |e.body|
  {
    AtConcat(buf, p, Be16(e.typ) + Be16(|e.body|), e.body);
    AtConcat(buf, p, Be16(e.typ), Be16(|e.body|));
    AtBe16(buf, p, e.typ);
    AtBe16(buf, p + 2, |e.body|);
  }

  lemma {:induction false} ExtensionsFindHost(buf: seq<byte>, p: nat, extEnd: nat, es: seq<Ext>, h: Hello)
    requires SniFits(h) && HostIsFirst(h)
    requires ExtsFit(es) && forall i :: 0 <= i < |es| ==> es[i].typ != EXT_SERVER_NAME
    requires At(buf, p, EncodeExts(es) + (EncodeExt(Ext(EXT_SERVER_NAME, SniBody(h))) + h.after))
    requires extEnd == p + |EncodeExts(es) + (EncodeExt(Ext(EXT_SERVER_NAME, SniBody(h))) + h.after)|
    ensures NameInExtensions(buf, p, extEnd) == Some(h.host)
    decreases |es|
  {
    hide EncodeExt, SniBody, NameList, Rd16, NameInExtension;
    var sni := Ext(EXT_SERVER_NAME, SniBody(h));
    var last := EncodeExt(sni) + h.after;
    if |es| == 0 {
      assert [] + last == last;
      AtConcat(buf, p, EncodeExt(sni), h.after);
      ExtParts(buf, p, sni);
      ExtensionFindsHost(buf, p + 4, h);
    } else {
      var e := es[0];
      assert EncodeExts(es) + last == EncodeExt(e) + (EncodeExts(es[1..]) + last);
      AtConcat(buf, p, EncodeExt(e), EncodeExts(es[1..]) + last);
      ExtParts(buf, p, e);
      ExtensionsFindHost(buf, p + |EncodeExt(e)|, extEnd, es[1..], h);
    }
  }

  lemma ShortVector(buf: seq<byte>, p: nat, v: seq<byte>, end: nat)
    requires |v| < 0x100 && At(buf, p, [|v|] + v) && p + 1 + |v| <= end <= |buf|
    ensures SkipShort(buf, p, end) == Some(p + 1 + |v|)
  {
    AtConcat(buf, p, [|v|], v);
    AtByte(buf, p, |v|);
  }

  lemma LongVector(buf: seq<byte>, p: nat, v: seq<byte>, end: nat)
    requires |v| < 0x1_0000 && At(buf, p, Be16(|v|) + v) && p + 2 + |v| <= end <= |buf|
    ensures SkipLong(buf, p, end) == Some(p + 2 + |v|)
  {
    AtConcat(buf, p, Be16(|v|), v);
    AtBe16(buf, p, |v|);
  }

  lemma BodyFindsHost(buf: seq<byte>, end: nat, h: Hello)
    requires FieldsFit(h) && HostIsFirst(h) && At(buf, 9, HelloBody(h)) && end == 9 + |HelloBody(h)|
    ensures var p := ExtensionsAt(buf, end);
      && p.Some?
      && NameInExtensions(buf, p.value + 2, Min(p.value + 2 + Rd16(buf, p.value), end)) == Some(h.host)
  {
    hide SkipShort, SkipLong, Extensions, NameInExtensions, Rd16, SniFits, ExtsFit;
    var exts := Extensions(h);
    var v4 := Be16(|exts|) + exts;
    var v3 := [|h.compression|] + h.compression;
    var v2 := Be16(|h.ciphers|) + h.ciphers;
    var v1 := [|h.sessionId|] + h.sessionId;
    AtConcat(buf, 9, h.fixed, v1 + (v2 + (v3 + v4)));
    AtConcat(buf, 43, v1, v2 + (v3 + v4));
    AtConcat(buf, 43 + |v1|, v2, v3 + v4);
    AtConcat(buf, 43 + |v1| + |v2|, v3, v4);
    ShortVector(buf, 43, h.sessionId, end);
    LongVector(buf, 43 + |v1|, h.ciphers, end);
    ShortVector(buf, 43 + |v1| + |v2|, h.compression, end);
    var p := 43 + |v1| + |v2| + |v3|;
    AtConcat(buf, p, Be16(|exts|), exts);
    AtBe16(buf, p, |exts|);
    ExtsOfHello(buf, p + 2, h);
  }

  lemma ExtsOfHello(buf: seq<byte>, p: nat, h: Hello)
    requires ExtsFit(h.before) && SniFits(h) && HostIsFirst(h) && At(buf, p, Extensions(h))
    ensures NameInExtensions(buf, p, p + |Extensions(h)|) == Some(h.host)
  {
    ExtensionsFindHost(buf, p, p + |Extensions(h)|, h.before, h);
  }

  /**
    The host name of every well-formed hello is found, whatever else the hello carries and
    whatever follows the record in the capture.
  */
  lemma HelloRoundTrip(h: Hello, tail: seq<byte>)
    requires Fits(h) && HostIsFirst(h)
    ensures FindHost(Record(h) + tail) == Some(h.host)
  {
    hide HelloBody, FieldsFit, ExtensionsAt, NameInExtensions, Rd16, Rd24, HostIsFirst;
    var buf, hs, body := Record(h) + tail, Handshake(h), HelloBody(h);
    AtWhole(buf);
    AtConcat(buf, 0, Record(h), tail);
    AtConcat(buf, 0, [TLS_REC_HANDSHAKE, 3, h.minor] + Be16(|hs|), hs);
    AtConcat(buf, 0, [TLS_REC_HANDSHAKE, 3, h.minor], Be16(|hs|));
    AtBe16(buf, 3, |hs|);
    assert buf[0] == buf[0..3][0] && buf[1] == buf[0..3][1];
    AtConcat(buf, 5, [TLS_HS_CLIENT_HELLO] + Be24(|body|), body);
    AtConcat(buf, 5, [TLS_HS_CLIENT_HELLO], Be24(|body|));
    AtByte(buf, 5, TLS_HS_CLIENT_HELLO);
    AtBe24(buf, 6, |body|);
    BodyLength(h);
    BodyFindsHost(buf, 9 + |body|, h);
  }

  lemma BodyLength(h: Hello)
    requires FieldsFit(h)
    ensures |HelloBody(h)| >= 34
  {
  }

  /** A reported name is the hello's: all of it when it fits, else its first `cap - 1` bytes. */
  lemma SniRoundTrip(h: Hello, tail: seq<byte>, cap: nat)
    requires Fits(h) && HostIsFirst(h) && cap > 0
    ensures Sni(Record(h) + tail, cap) ==
            if Clip(h.host, cap) == [] || 0 in Clip(h.host, cap) then None else Some(Clip(h.host, cap))
    ensures Sni(Record(h) + tail, cap) == Some(h.host) <==> 1 <= |h.host| < cap && 0 !in h.host
  {
    hide Record, FindHost;
    HelloRoundTrip(h, tail);
    if |h.host| < cap {
      assert Clip(h.host, cap) == h.host;
    }
  }

  // ------------------------------------------------------------------ truncation

  lemma {:induction false} ListStable(b: seq<byte>, c: seq<byte>, e: nat, eEnd: nat)
    requires b <= c && eEnd <= |b|
    ensures NameInList(b, e, eEnd) == NameInList(c, e, eEnd)
    decreases eEnd - e
  {
    if eEnd >= e + 3 {
      var nl := Rd16(b, e + 1);
      if eEnd >= e + 3 + nl {
        assert b[e + 3..e + 3 + nl] == c[e + 3..e + 3 + nl];
        ListStable(b, c, e + 3 + nl, eEnd);
      }
    }
  }

  lemma {:induction false} ExtensionsStable(b: seq<byte>, c: seq<byte>, p: nat, bEnd: nat, cEnd: nat)
    requires b <= c && bEnd <= |b| && bEnd <= cEnd <= |c|
    requires NameInExtensions(b, p, bEnd).Some?
    ensures NameInExtensions(c, p, cEnd) == NameInExtensions(b, p, bEnd)
    decreases bEnd - p
  {
    var elen := Rd16(b, p + 2);
    if Rd16(b, p) == EXT_SERVER_NAME {
      var listLen := Rd16(b, p + 4);
      ListStable(b, c, p + 6, p + 6 + listLen);
    } else {
      ExtensionsStable(b, c, p + 4 + elen, bEnd, cEnd);
    }
  }

  lemma HeaderStable(b: seq<byte>, c: seq<byte>)
    requires b <= c && HelloEnd(b).Some?
    ensures HelloEnd(c).Some? && HelloEnd(b).value <= HelloEnd(c).value
  {
  }

  lemma VectorsStable(b: seq<byte>, c: seq<byte>, bEnd: nat, cEnd: nat)
    requires b <= c && bEnd <= |b| && bEnd <= cEnd <= |c| && ExtensionsAt(b, bEnd).Some?
    ensures ExtensionsAt(c, cEnd) == ExtensionsAt(b, bEnd)
  {
  }

  /** More of the same stream never changes or loses a name that was already found. */
  lemma CaptureMonotone(b: seq<byte>, c: seq<byte>, cap: nat)
    requires b <= c
    ensures FindHost(b).Some? ==> FindHost(c) == FindHost(b)
    ensures Sni(b, cap).Some? ==> Sni(c, cap) == Sni(b, cap)
  {
    hide HelloEnd, ExtensionsAt, NameInExtensions;
    if FindHost(b).Some? {
      HeaderStable(b, c);
      var bEnd, cEnd := HelloEnd(b).value, HelloEnd(c).value;
      VectorsStable(b, c, bEnd, cEnd);
      var p := ExtensionsAt(b, bEnd).value;
      ExtensionsStable(b, c, p + 2, Min(p + 2 + Rd16(b, p), bEnd), Min(p + 2 + Rd16(c, p), cEnd));
    }
  }

  // ------------------------------------------------------------------ and in nothing else

  /** What the capture holds of a hello from its session id to the end of the host name. */
  datatype Traces = Traces(
    sessionId: seq<byte>, ciphers: seq<byte>, compression: seq<byte>, extLen: u16,
    before: seq<Ext>, sniLen: u16, listLen: u16, sniBefore: seq<NameEntry>, host: seq<byte>)

  predicate TracesFit(t: Traces) {
    && |t.sessionId| < 0x100 && |t.ciphers| < 0x1_0000 && |t.compression| < 0x100
    && ExtsFit(t.before) && NamesFit(t.sniBefore) && |t.host| < 0x1_0000
  }

  /** The names of a server_name list up to the first host name. */
  function NamesToHost(ns: seq<NameEntry>, host: seq<byte>): (r: seq<byte>)
    requires NamesFit(ns) && |host| < 0x1_0000
  {
    EncodeNames(ns) + ([0] + Be16(|host|) + host)
  }

  /** The server_name extension, up to the host name. */
  function SniToHost(t: Traces): (r: seq<byte>)
    requires TracesFit(t)
  {
    Be16(0) + Be16(t.sniLen) + (Be16(t.listLen) + NamesToHost(t.sniBefore, t.host))
  }

  /** The extensions up to the host name. */
  function ExtsToHost(t: Traces): (r: seq<byte>)
    requires TracesFit(t)
  {
    EncodeExts(t.before) + SniToHost(t)
  }

  function VectorsToHost(t: Traces): (r: seq<byte>)
    requires TracesFit(t)
  {
    ([|t.sessionId|] + t.sessionId) + ((Be16(|t.ciphers|) + t.ciphers) +
    (([|t.compression|] + t.compression) + (Be16(t.extLen) + ExtsToHost(t))))
  }

  /** No name before the host name is one, and its list and extension are long enough for it. */
  predicate HostInSni(t: Traces)
    requires TracesFit(t)
  {
    && (forall i :: 0 <= i < |t.sniBefore| ==> t.sniBefore[i].typ != 0)
    && |NamesToHost(t.sniBefore, t.host)| <= t.listLen && 2 + t.listLen <= t.sniLen
  }

  /** Besides, no extension before its own is a server_name, and the extensions are long enough. */
  predicate HostComesFirst(t: Traces)
    requires TracesFit(t)
  {
    && HostInSni(t) && (forall i :: 0 <= i < |t.before| ==> t.before[i].typ != 0)
    && |EncodeExts(t.before)| + 4 + t.sniLen <= t.extLen
  }

  lemma {:induction false} ListReads(buf: seq<byte>, e: nat, eEnd: nat) returns (ns: seq<NameEntry>)
    requires eEnd <= |buf| && NameInList(buf, e, eEnd).Some?
    ensures NamesFit(ns) && forall i :: 0 <= i < |ns| ==> ns[i].typ != 0
    ensures var host := NameInList(buf, e, eEnd).value;
      && |host| < 0x1_0000 && At(buf, e, NamesToHost(ns, host)) && e + |NamesToHost(ns, host)| <= eEnd
    decreases eEnd - e
  {
    hide Rd16, Be16, At;
    var nl := Rd16(buf, e + 1);
    var name := buf[e + 3..e + 3 + nl];
    AtByte(buf, e, buf[e]);
    Be16At(buf, e + 1);
    SliceAt(buf, e + 3, e + 3 + nl);
    AtConcat(buf, e, [buf[e]], Be16(nl));
    AtConcat(buf, e, [buf[e]] + Be16(nl), name);
    if buf[e] == SNI_TYPE_HOSTNAME {
      ns := [];
      assert [] + ([0] + Be16(nl) + name) == [0] + Be16(nl) + name;
    } else {
      var rest := ListReads(buf, e + 3 + nl, eEnd);
      var entry := NameEntry(buf[e], name);
      ns := [entry] + rest;
      assert ns[1..] == rest;
      var host := NameInList(buf, e, eEnd).value;
      AtConcat(buf, e, EncodeName(entry), NamesToHost(rest, host));
      assert EncodeName(entry) + NamesToHost(rest, host) == NamesToHost(ns, host);
    }
  }

  lemma SniRead(buf: seq<byte>, p: nat, extEnd: nat) returns (t: Traces)
    requires p + 4 <= extEnd <= |buf| && p + 4 + Rd16(buf, p + 2) <= extEnd && Rd16(buf, p) == 0
    requires NameInExtension(buf, p + 4, p + 4 + Rd16(buf, p + 2)).Some?
    ensures TracesFit(t) && HostInSni(t) && t.before == [] && p + 4 + t.sniLen <= extEnd
    ensures At(buf, p, SniToHost(t)) && NameInExtension(buf, p + 4, p + 4 + Rd16(buf, p + 2)) == Some(t.host)
  {
    hide Rd16, Be16, At, NameInList;
    var elen, listLen := Rd16(buf, p + 2), Rd16(buf, p + 4);
    var ns := ListReads(buf, p + 6, p + 6 + listLen);
    var host := NameInList(buf, p + 6, p + 6 + listLen).value;
    t := Traces([], [], [], 0, [], elen, listLen, ns, host);
    Be16At(buf, p);
    Be16At(buf, p + 2);
    Be16At(buf, p + 4);
    AtConcat(buf, p + 4, Be16(listLen), NamesToHost(ns, host));
    AtConcat(buf, p, Be16(0), Be16(elen));
    AtConcat(buf, p, Be16(0) + Be16(elen), Be16(listLen) + NamesToHost(ns, host));
  }

  lemma {:induction false} ExtsRead(buf: seq<byte>, p: nat, extEnd: nat) returns (t: Traces)
    requires p <= extEnd <= |buf| && NameInExtensions(buf, p, extEnd).Some?
    ensures TracesFit(t) && HostInSni(t) && forall i :: 0 <= i < |t.before| ==> t.before[i].typ != 0
    ensures At(buf, p, ExtsToHost(t)) && NameInExtensions(buf, p, extEnd) == Some(t.host)
    ensures p + |EncodeExts(t.before)| + 4 + t.sniLen <= extEnd
    decreases extEnd - p
  {
    hide Rd16, Be16, At, NameInExtension, NamesToHost;
    var elen := Rd16(buf, p + 2);
    if Rd16(buf, p) == EXT_SERVER_NAME {
      t := SniRead(buf, p, extEnd);
      assert [] + SniToHost(t) == SniToHost(t);
    } else {
      var rest := ExtsRead(buf, p + 4 + elen, extEnd);
      var ext := Ext(Rd16(buf, p), buf[p + 4..p + 4 + elen]);
      t := rest.(before := [ext] + rest.before);
      assert t.before[1..] == rest.before;
      Be16At(buf, p);
      Be16At(buf, p + 2);
      SliceAt(buf, p + 4, p + 4 + elen);
      AtConcat(buf, p, Be16(ext.typ), Be16(elen));
      AtConcat(buf, p, Be16(ext.typ) + Be16(elen), ext.body);
      AtConcat(buf, p, EncodeExt(ext), ExtsToHost(rest));
      assert EncodeExt(ext) + (EncodeExts(rest.before) + SniToHost(rest)) ==
             EncodeExt(ext) + EncodeExts(rest.before) + SniToHost(rest);
    }
  }

  lemma ShortRead(buf: seq<byte>, p: nat, end: nat) returns (v: seq<byte>)
    requires end <= |buf| && SkipShort(buf, p, end).Some?
    ensures |v| < 0x100 && SkipShort(buf, p, end) == Some(p + 1 + |v|) && At(buf, p, [|v|] + v)
  {
    v := buf[p + 1..p + 1 + buf[p]];
    AtByte(buf, p, buf[p]);
    SliceAt(buf, p + 1, p + 1 + buf[p]);
    AtConcat(buf, p, [buf[p]], v);
  }

  lemma LongRead(buf: seq<byte>, p: nat, end: nat) returns (v: seq<byte>)
    requires end <= |buf| && SkipLong(buf, p, end).Some?
    ensures |v| < 0x1_0000 && SkipLong(buf, p, end) == Some(p + 2 + |v|) && At(buf, p, Be16(|v|) + v)
  {
    hide Rd16, Be16;
    var n := Rd16(buf, p);
    v := buf[p + 2..p + 2 + n];
    Be16At(buf, p);
    SliceAt(buf, p + 2, p + 2 + n);
    AtConcat(buf, p, Be16(n), v);
  }

  /** Where the server_name extension ends: behind the vectors and the extensions before it. */
  function SniEnd(t: Traces): (n: nat)
    requires TracesFit(t)
  {
    43 + (1 + |t.sessionId|) + (2 + |t.ciphers|) + (1 + |t.compression|) + 2 + |EncodeExts(t.before)| + 4 + t.sniLen
  }

  /** The capture, the record and the handshake message are at least so long. */
  predicate Holds(buf: seq<byte>, n: nat)
    requires |buf| >= 9
  {
    n <= |buf| && n <= 5 + Rd16(buf, 3) && n <= 9 + Rd24(buf, 6)
  }

  /** The capture shows a ClientHello in a handshake record of TLS 1.x, up to the end of its server_name extension. */
  predicate Shows(buf: seq<byte>, t: Traces) {
    && |buf| >= 43 && buf[0] == 22 && buf[1] == 3 && buf[5] == 1
    && TracesFit(t) && HostComesFirst(t) && At(buf, 43, VectorsToHost(t)) && Holds(buf, SniEnd(t))
  }

  /** A host name is only ever found in a hello that shows it. */
  lemma OnlyHellosHaveHosts(buf: seq<byte>) returns (t: Traces)
    requires FindHost(buf).Some?
    ensures Shows(buf, t) && FindHost(buf) == Some(t.host)
  {
    hide Rd16, Rd24, Be16, At, SkipShort, SkipLong, NameInExtensions, NamesToHost, ExtsToHost, EncodeExts;
    var end := HelloEnd(buf).value;
    var sid := ShortRead(buf, 43, end);
    var p := 44 + |sid|;
    var ciphers := LongRead(buf, p, end);
    var q := p + 2 + |ciphers|;
    var comp := ShortRead(buf, q, end);
    var x := q + 1 + |comp|;
    var extLen := Rd16(buf, x);
    var e := ExtsRead(buf, x + 2, Min(x + 2 + extLen, end));
    t := e.(sessionId := sid, ciphers := ciphers, compression := comp, extLen := extLen);
    Be16At(buf, x);
    ExtsSame(e, t);
    AtConcat(buf, x, Be16(extLen), ExtsToHost(t));
    AtConcat(buf, q, [|comp|] + comp, Be16(extLen) + ExtsToHost(t));
    AtConcat(buf, p, Be16(|ciphers|) + ciphers, [|comp|] + comp + (Be16(extLen) + ExtsToHost(t)));
    AtConcat(buf, 43, [|sid|] + sid,
             Be16(|ciphers|) + ciphers + ([|comp|] + comp + (Be16(extLen) + ExtsToHost(t))));
  }

  lemma ExtsSame(e: Traces, t: Traces)
    requires TracesFit(e) && TracesFit(t)
    requires t == e.(sessionId := t.sessionId, ciphers := t.ciphers, compression := t.compression, extLen := t.extLen)
    ensures ExtsToHost(t) == ExtsToHost(e)
  {
  }

  lemma NamesFound(buf: seq<byte>, e: nat, eEnd: nat, ns: seq<NameEntry>, host: seq<byte>)
    requires NamesFit(ns) && |host| < 0x1_0000 && forall i :: 0 <= i < |ns| ==> ns[i].typ != 0
    requires At(buf, e, NamesToHost(ns, host)) && e + |NamesToHost(ns, host)| <= eEnd <= |buf|
    ensures NameInList(buf, e, eEnd) == Some(host)
  {
    hide Be16, EncodeNames, At;
    var named := [0] + Be16(|host|) + host;
    var mid := e + |NamesToHost(ns, host)|;
    var rest := buf[mid..eEnd];
    SliceAt(buf, mid, eEnd);
    AtConcat(buf, e, EncodeNames(ns), named);
    AtConcat(buf, e + |EncodeNames(ns)|, named, rest);
    AtConcat(buf, e, EncodeNames(ns), named + rest);
    ListFindsHost(buf, e, eEnd, ns, host, rest);
  }

  lemma SniFound(buf: seq<byte>, p: nat, extEnd: nat, t: Traces)
    requires TracesFit(t) && HostInSni(t) && At(buf, p, SniToHost(t)) && p + 4 + t.sniLen <= extEnd <= |buf|
    ensures NameInExtensions(buf, p, extEnd) == Some(t.host)
  {
    hide Be16, Rd16, At, NamesToHost, NameInList;
    AtConcat(buf, p, Be16(0) + Be16(t.sniLen), Be16(t.listLen) + NamesToHost(t.sniBefore, t.host));
    AtConcat(buf, p, Be16(0), Be16(t.sniLen));
    AtConcat(buf, p + 4, Be16(t.listLen), NamesToHost(t.sniBefore, t.host));
    AtBe16(buf, p, 0);
    AtBe16(buf, p + 2, t.sniLen);
    AtBe16(buf, p + 4, t.listLen);
    NamesFound(buf, p + 6, p + 6 + t.listLen, t.sniBefore, t.host);
  }

  lemma {:induction false} ExtsFound(buf: seq<byte>, p: nat, extEnd: nat, t: Traces)
    requires TracesFit(t) && HostInSni(t) && forall i :: 0 <= i < |t.before| ==> t.before[i].typ != 0
    requires At(buf, p, ExtsToHost(t)) && p + |EncodeExts(t.before)| + 4 + t.sniLen <= extEnd <= |buf|
    ensures NameInExtensions(buf, p, extEnd) == Some(t.host)
    decreases |t.before|
  {
    hide Be16, Rd16, At, NamesToHost, NameInExtension, SniToHost;
    if t.before == [] {
      assert [] + SniToHost(t) == SniToHost(t);
      SniFound(buf, p, extEnd, t);
    } else {
      var e, rest := t.before[0], t.(before := t.before[1..]);
      SniSame(t, rest);
      assert EncodeExts(t.before) + SniToHost(t) == EncodeExt(e) + (EncodeExts(rest.before) + SniToHost(t));
      AtConcat(buf, p, EncodeExt(e), ExtsToHost(rest));
      ExtParts(buf, p, e);
      ExtsFound(buf, p + |EncodeExt(e)|, extEnd, rest);
    }
  }

  lemma SniSame(t: Traces, u: Traces)
    requires TracesFit(t) && TracesFit(u)
    requires (t.sniLen, t.listLen, t.sniBefore, t.host) == (u.sniLen, u.listLen, u.sniBefore, u.host)
    ensures SniToHost(t) == SniToHost(u)
  {
  }

  /** And in every hello that shows one it is found, wherever the capture ends behind that. */
  lemma ShownHostIsFound(buf: seq<byte>, t: Traces)
    requires Shows(buf, t)
    ensures FindHost(buf) == Some(t.host)
  {
    hide Be16, Rd16, Rd24, At, SkipShort, SkipLong, NameInExtensions, ExtsToHost, NamesToHost, EncodeExts;
    var end := HelloEnd(buf).value;
    var v1, v2, v3 := [|t.sessionId|] + t.sessionId, Be16(|t.ciphers|) + t.ciphers, [|t.compression|] + t.compression;
    var v4 := Be16(t.extLen) + ExtsToHost(t);
    AtConcat(buf, 43, v1, v2 + (v3 + v4));
    AtConcat(buf, 43 + |v1|, v2, v3 + v4);
    AtConcat(buf, 43 + |v1| + |v2|, v3, v4);
    var x := 43 + |v1| + |v2| + |v3|;
    AtConcat(buf, x, Be16(t.extLen), ExtsToHost(t));
    AtBe16(buf, x, t.extLen);
    ShortVector(buf, 43, t.sessionId, end);
    LongVector(buf, 43 + |v1|, t.ciphers, end);
    ShortVector(buf, 43 + |v1| + |v2|, t.compression, end);
    ExtsFound(buf, x + 2, Min(x + 2 + t.extLen, end), t);
  }

  /** So the parser finds a host name exactly where there is one. */
  lemma HostIffShown(buf: seq<byte>, host: seq<byte>)
    ensures FindHost(buf) == Some(host) <==> exists t :: Shows(buf, t) && t.host == host
  {
    hide FindHost, Shows;
    if FindHost(buf) == Some(host) {
      var t := OnlyHellosHaveHosts(buf);
    }
    if t :| Shows(buf, t) && t.host == host {
      ShownHostIsFound(buf, t);
    }
  }
}
