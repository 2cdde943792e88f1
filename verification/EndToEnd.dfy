/**
  From a source's domain list to a verdict on the wire: a domain rule the builder accepted,
  compiled, loaded, and met again in the server name of a captured ClientHello, is a hit on
  all of its labels, and settles the flow.
*/
module EndToEnd {
  import opened Wrappers
  import opened Bits
  import opened Claims
  import opened Labels
  import opened TrieSpec
  import opened DomainTrie
  import opened NameRules
  import opened SigcText
  import opened Sigc
  import opened DbFormat
  import opened Tls
  import opened Decode
  import opened Mkpcap
  import opened Frames
  import opened TlsHello
  import opened Verdicts
  import opened FlowHistory
  import opened Serialize
  import opened SigdbLoad
  import opened DbRoundTrip
  import opened Loading
  import opened Gates
  import opened LoadedCorpus
  import opened PayloadSpec
  import opened Framing
  import Loaders
  import AddressBits

  // ------------------------------------------------------------------ rules survive

  lemma {:induction false} GatherHas<R(!new), T>(rows: seq<R>, f: R -> seq<T>, r: R, x: T)
    requires r in rows && x in f(r)
    ensures x in Gather(rows, f)
  {
    var n := |rows| - 1;
    if r in rows[..n] {
      GatherHas(rows[..n], f, r, x);
    } else {
      assert rows == rows[..n] + [rows[n]];
    }
  }

  lemma {:induction false} GatheredFrom<R(!new), T>(rows: seq<R>, f: R -> seq<T>, x: T) returns (r: R)
    requires x in Gather(rows, f)
    ensures r in rows && x in f(r)
  {
    var n := |rows| - 1;
    r := rows[n];
    if x in Gather(rows[..n], f) {
      r := GatheredFrom(rows[..n], f, x);
    }
  }

  /** The trie rule that a named rule with a usable name becomes. */
  lemma {:induction false} FiledRule(hash: Label -> nat, rules: seq<NameRule>, r: NameRule) returns (j: nat)
    requires r in rules && NamePath(r.name).Some?
    ensures j < |HashedRules(hash, rules)|
    ensures HashedRules(hash, rules)[j] == TrieSpec.Rule(HashedPath(hash, r.name).value, r.exact, r.claim)
  {
    hide HashedRules, HashedPath, NamePath;
    var n := |rules| - 1;
    var front, last := rules[..n], rules[n];
    assert rules == front + [last];
    HashedRulesOneMore(hash, front, last);
    PathsTogether(hash, r.name);
    if r in front {
      j := FiledRule(hash, front, r);
    } else {
      j := |HashedRules(hash, front)|;
    }
  }

  lemma PathsTogether(hash: Label -> nat, d: Name)
    ensures HashedPath(hash, d).Some? <==> NamePath(d).Some?
    ensures HashedPath(hash, d).Some? ==> |HashedPath(hash, d).value| == |NamePath(d).value|
  {
  }

  /** Every trie rule's claim comes from a named rule. */
  lemma {:induction false} FiledFrom(hash: Label -> nat, rules: seq<NameRule>, j: nat) returns (r: NameRule)
    requires j < |HashedRules(hash, rules)|
    ensures r in rules && HashedRules(hash, rules)[j].claim == r.claim
    ensures HashedPath(hash, r.name) == Some(HashedRules(hash, rules)[j].path)
  {
    hide HashedRules, HashedPath;
    if rules == [] {
      NothingFiled(hash, rules);
      r := NameRule([], false, UNCLAIMED);
    } else {
      var n := |rules| - 1;
      var front := rules[..n];
      assert rules == front + [rules[n]];
      HashedRulesOneMore(hash, front, rules[n]);
      r := rules[n];
      if j < |HashedRules(hash, front)| {
        r := FiledFrom(hash, front, j);
      }
    }
  }

  lemma NothingFiled(hash: Label -> nat, rules: seq<NameRule>)
    requires rules == []
    ensures HashedRules(hash, rules) == []
  {
  }

  // ------------------------------------------------------------------ the theorems

  /** A corpus as a builder leaves it, with ids that stay clear of the reserved one. */
  ghost predicate Usable(c: Corpus, nextId: nat) {
    && DenseIds(c.meta, nextId) && nextId <= NO_APP
    && forall d :: d in c.domains ==> CleanName(d.name)
  }

  /** Rules that pass both gates name real apps. */
  lemma LoadedAreNamed(c: Corpus, nextId: nat, hash: Label -> nat, built: nat, max: nat, path: seq<nat>)
    requires Usable(c, nextId)
    ensures WinnerNamed(HashedRules(hash, CorpusNames(c, built, max)), path)
  {
    var rules := HashedRules(hash, CorpusNames(c, built, max));
    forall j | 0 <= j < |rules| ensures rules[j].claim.app != NO_APP {
      hide HashedRules, CorpusNames, HashedPath;
      var r := FiledFrom(hash, CorpusNames(c, built, max), j);
      NamedRow(c, nextId, built, max, r);
    }
  }

  lemma NamedRow(c: Corpus, nextId: nat, built: nat, max: nat, r: NameRule)
    requires Usable(c, nextId) && r in CorpusNames(c, built, max)
    ensures r.claim.app < nextId
  {
    hide Gather, Filter;
    var d := GatheredFrom(Filter(KeptDomains(c, built), Limit(DomainLic, max)), NameFrom, r);
    assert Gate(c.meta, DomainApp, DomainLic, built)(d) && DomainApp(d) == d.app;
  }

  /** A clean name's path has one entry per field. */
  lemma CleanPath(d: Name)
    requires CleanName(d) && |Fields(d)| <= MAX_LABELS
    ensures NamePath(d).Some? && |NamePath(d).value| == |Fields(d)|
  {
    CleanNameSplits(d);
  }

  /** The row as a rule for names. */
  function RowRule(d: DomainRow, c: Claim): (r: NameRule) {
    NameRule(d.name, d.matchType == DOM_EXACT, c)
  }

  /** The row's rule is for this host: its own name, or, for a suffix rule, one below it. */
  ghost predicate Reaches(d: DomainRow, host: Name) {
    |Fields(d.name)| <= MAX_LABELS && NamePath(host).Some? && RuleCovers(RowRule(d, UNCLAIMED), host)
  }

  /** A clean name reaches itself, and a suffix rule everything that ends in a dot and its name, in any case. */
  lemma RowReaches(d: DomainRow, sub: Name)
    requires CleanName(d.name) && |Fields(d.name)| <= MAX_LABELS
    ensures Reaches(d, d.name) && TrimDots(d.name) == d.name
    ensures d.matchType != DOM_EXACT ==>
      forall base :: Fold(base) == d.name && NamePath(sub + [DOT] + base).Some? ==> Reaches(d, sub + [DOT] + base)
  {
    hide NamePath, Fields;
    CleanPath(d.name);
    CleanNameSplits(d.name);
    forall base | Fold(base) == d.name && d.matchType != DOM_EXACT && NamePath(sub + [DOT] + base).Some?
      ensures Reaches(d, sub + [DOT] + base)
    {
      BelowFolded(sub, base, d.name);
    }
  }

  lemma BelowFolded(sub: Name, base: Name, name: Name)
    requires CleanName(name) && Fold(base) == name && TrimDots(name) == name
    ensures AtOrBelow(sub + [DOT] + base, name)
  {
    hide CleanName;
    CleanEnds(name);
    var d := sub + [DOT] + base;
    assert Lower(base[|base| - 1]) == name[|name| - 1];
    assert TrimDots(d) == d;
    assert Fold(d) == Fold(sub) + [DOT] + Fold(base);
    assert Fold(name) == name;
  }

  lemma CleanEnds(name: Name)
    requires CleanName(name)
    ensures name != [] && name[|name| - 1] != DOT && Fold(name) == name
  {
    hide HasDoubleDot;
  }

  /**
    A domain rule that the builder accepted and that passes both license gates makes a
    lookup of every name it is for a hit on at least its labels. For a rule of the reported
    kind and depth the claim is at least as confident. This needs nothing of the label hash.
  */
  lemma CompiledRuleHits(c: Corpus, nextId: nat, built: nat, hash: Label -> nat, max: nat, d: DomainRow, host: Name)
    requires Usable(c, nextId) && d in KeptDomains(c, built) && d.lic <= max && DomainFits(d)
    requires Reaches(d, host)
    ensures NameHit(CorpusRules(c, hash, built, max), host).Some?
    ensures var h := NameHit(CorpusRules(c, hash, built, max), host).value;
      && |Fields(d.name)| <= h.labelsMatched <= |NamePath(host).value| && h.claim.app != NO_APP
      && (d.matchType == DOM_EXACT ==> h.matchedExact)
      && (h.labelsMatched == |Fields(d.name)| && h.matchedExact == (d.matchType == DOM_EXACT) ==>
            h.claim.conf >= d.conf)
  {
    hide HashedRules, HashedPath, Scan, Gather, Filter, Fields, CleanName, NamePath, DomainFits, AtOrBelow;
    hide SameName;
    var names := CorpusNames(c, built, max);
    var r := RowRule(d, RowClaim(d));
    KeptRowIsLoaded(c, built, max, d);
    KeptIsFrom(c, built, d);
    CleanPath(d.name);
    PathsTogether(hash, d.name);
    PathsTogether(hash, host);
    var rules, path := HashedRules(hash, names), HashedPath(hash, host).value;
    var j := FiledRule(hash, names, r);
    LoadedAreNamed(c, nextId, hash, built, max, path);
    HashedReach(hash, d, host);
    ScanFromRules(rules, path);
    if r.exact {
      FullDepth(rules, path, j);
    } else {
      SuffixReaches(rules, path, j);
    }
  }

  /** What a rule is for on text, it is for on hashes. */
  lemma HashedReach(hash: Label -> nat, d: DomainRow, host: Name)
    requires Reaches(d, host) && NamePath(d.name).Some?
    ensures HashedPath(hash, d.name).value <= HashedPath(hash, host).value
    ensures d.matchType == DOM_EXACT ==> HashedPath(hash, d.name) == HashedPath(hash, host)
  {
    hide NamePath, Fields, AtOrBelow, TrimDots, Fold;
    PathPrefixIsAtOrBelow(host, d.name);
    SamePathSameName(host, d.name);
    var p, q := NamePath(d.name).value, NamePath(host).value;
    assert Hashes(hash, q)[..|p|] == Hashes(hash, q[..|p|]);
  }

  function RowClaim(d: DomainRow): (r: Claim)
    requires DomainFits(d)
  {
    Claim(d.app, d.tier, d.conf, d.lic)
  }

  lemma KeptIsFrom(c: Corpus, built: nat, d: DomainRow)
    requires d in KeptDomains(c, built)
    ensures d in c.domains
  {
  }

  lemma KeptRowIsLoaded(c: Corpus, built: nat, max: nat, d: DomainRow)
    requires d in KeptDomains(c, built) && d.lic <= max && DomainFits(d)
    ensures RowRule(d, RowClaim(d)) in CorpusNames(c, built, max)
  {
    hide Gather, Filter, DomainFits;
    assert DomainLic(d) == d.lic;
    assert d in Filter(KeptDomains(c, built), Limit(DomainLic, max));
    assert NameFrom(d) == [RowRule(d, RowClaim(d))];
    GatherHas(Filter(KeptDomains(c, built), Limit(DomainLic, max)), NameFrom, d, RowRule(d, RowClaim(d)));
  }

  /** The frame that carries a ClientHello for a name. */
  function HelloFrame(src: seq<byte>, dst: seq<byte>, sport: u16, dport: u16, seqno: u32,
                      host: Name): (r: Option<seq<byte>>)
    requires |src| == 4 && |dst| == 4
  {
    match ClientHello(host)
    case None => None
    case Some(hello) => TcpPacket(src, dst, sport, dport, seqno, hello)
  }

  /** The server name that goes in comes out, for every name the buffer can hold. */
  lemma WireRoundTrip(src: seq<byte>, dst: seq<byte>, sport: u16, dport: u16, seqno: u32, host: Name)
    requires |src| == 4 && |dst| == 4 && 1 <= |host| < SNI_CAP && 0 !in host
    ensures HelloFrame(src, dst, sport, dport, seqno, host).Some?
    ensures DecodeFrame(HelloFrame(src, dst, sport, dport, seqno, host).value, DLT_EN10MB).Some?
    ensures var pk := DecodeFrame(HelloFrame(src, dst, sport, dport, seqno, host).value, DLT_EN10MB).value;
      SniOf(pk) == Some(host) && pk.srcPort == sport && pk.dstPort == dport
  {
    HelloLength(host);
    hide ClientHello, DecodeFrame, Sni, IpHeader, TcpHeader;
    var hello := ClientHello(host).value;
    TcpPacketRoundTrip(src, dst, sport, dport, seqno, hello);
    ClientHelloRoundTrip(host, [], SNI_CAP);
    assert hello + [] == hello;
  }

  /** The frame of a hello behind tags and options; the end of the capture is free. */
  function WireFrame(macs: seq<byte>, ts: seq<Tag>, ip: seq<byte>, ipOptions: seq<byte>, tcp: seq<byte>,
                     tcpOptions: seq<byte>, payload: seq<byte>): (f: seq<byte>)
  {
    macs + EncodeTags(ts) + [0x08, 0x00] + (ip + ipOptions + (tcp + tcpOptions + payload))
  }

  /**
    Whatever options the IPv4 and the TCP header have and whatever the hello has besides: the
    server name of a hello in a captured frame is found, with the addresses and the ports.
  */
  lemma HelloOnTheWire(macs: seq<byte>, ts: seq<Tag>, ip: seq<byte>, ipOptions: seq<byte>, tcp: seq<byte>,
                       tcpOptions: seq<byte>, h: Hello, tail: seq<byte>)
    requires |macs| == 12 && |ts| <= 2
    requires |ip| == 20 && ip[9] == 6 && !LaterFragment(ip)
    requires ip[0] == 0x45 + |ipOptions| / 4 && |ipOptions| % 4 == 0 && |ipOptions| <= 40
    requires |tcp| == 20 && tcp[12] / 16 == 5 + |tcpOptions| / 4 && |tcpOptions| % 4 == 0
    requires Fits(h) && HostIsFirst(h) && 1 <= |h.host| < SNI_CAP && 0 !in h.host
    ensures var pk := DecodeFrame(WireFrame(macs, ts, ip, ipOptions, tcp, tcpOptions, Record(h) + tail), DLT_EN10MB);
      && pk.Some? && SniOf(pk.value) == Some(h.host)
      && pk.value == Packet(4, 6, Pad4(ip[12..16]), Pad4(ip[16..20]), Rd16(tcp, 0), Rd16(tcp, 2),
                            Some(Record(h) + tail))
  {
    hide DecodeIp, DecodeEthernet, Record, Sni, Fits, HostIsFirst, EncodeTags, Rd16, LaterFragment;
    var payload := Record(h) + tail;
    var segment := tcp + tcpOptions + payload;
    RecordStarts(h);
    BehindTags(macs, ts, ETHERTYPE_IP, ip + ipOptions + segment);
    Ipv4RoundTrip(ip, ipOptions, segment);
    TcpPayload(tcp, tcpOptions, payload, Packet(4, 6, Pad4(ip[12..16]), Pad4(ip[16..20]), 0, 0, None));
    SniRoundTrip(h, tail, SNI_CAP);
  }

  lemma RecordStarts(h: Hello)
    requires Fits(h)
    ensures Record(h) != []
  {
    hide Handshake;
  }

  lemma HelloLength(host: Name)
    requires |host| < SNI_CAP
    ensures ClientHello(host).Some? && |ClientHello(host).value| == |host| + 79
  {
    hide PlainBody, PlainExtensions;
  }

  /** Who talks to whom, in a printed packet. */
  datatype Hosts = Hosts(src: seq<byte>, dst: seq<byte>, sport: u16, dport: u16, seqno: u32)

  /** A name the capture buffer of the engine can hold. */
  predicate Readable(host: Name) {
    1 <= |host| < 256 && 0 !in host
  }

  /**
    The whole story. For every corpus, every rule in it that the database keeps, and every
    packet that carries a name the rule is for: the database the compiler writes is accepted,
    and the engine that loads it answers for that packet with a hit on the rule's labels or more.
  */
  lemma CorpusRoundTrip(c: Corpus, nextId: nat, built: nat, at: nat, hash: Label -> nat, max: nat, d: DomainRow,
                        host: Name, x: Hosts)
    requires Usable(c, nextId)
    requires Packable(MakePlan(c, nextId, built), at) && NulFree(MakePlan(c, nextId, built))
    requires d in KeptDomains(c, built) && d.lic <= max
    requires Reaches(d, host) && Readable(host)
    requires |x.src| == 4 && |x.dst| == 4
    ensures Sound(Compiled(c, nextId, built, at))
    ensures Answers(LoadedRules(Compiled(c, nextId, built, at), hash, max), d.name, host, x)
  {
    hide *;
    KeptIsClean(c, nextId, built, at, d);
    ReachedHasPath(d, host);
    ReadableParts(host);
    LoadedIsCorpus(c, nextId, built, at, hash, max);
    CompiledRuleHits(c, nextId, built, hash, max, d, host);
    WireRoundTrip(x.src, x.dst, x.sport, x.dport, x.seqno, host);
    PacketAnswers(LoadedRules(Compiled(c, nextId, built, at), hash, max), d.name, host, x);
  }

  lemma ReadableParts(host: Name)
    requires Readable(host)
    ensures 1 <= |host| < SNI_CAP && 0 !in host
  {
  }

  lemma PacketAnswers(rs: RuleSet, base: Name, host: Name, x: Hosts)
    requires |x.src| == 4 && |x.dst| == 4 && NamePath(host).Some?
    requires var frame := HelloFrame(x.src, x.dst, x.sport, x.dport, x.seqno, host);
      frame.Some? && DecodeFrame(frame.value, DLT_EN10MB).Some? &&
      SniOf(DecodeFrame(frame.value, DLT_EN10MB).value) == Some(host)
    requires NameHit(rs, host).Some? && NameHit(rs, host).value.claim.app != NO_APP
    requires |Fields(base)| <= NameHit(rs, host).value.labelsMatched <= |NamePath(host).value|
    ensures Answers(rs, base, host, x)
  {
    hide HelloFrame, DecodeFrame, SniOf, NameHit, Fields, NamePath;
  }

  lemma ReachedHasPath(d: DomainRow, host: Name)
    requires Reaches(d, host)
    ensures NamePath(host).Some?
  {
  }

  /** A printed packet with this host name is a hit on the labels of the base name, or more. */
  ghost predicate Answers(rs: RuleSet, base: Name, host: Name, x: Hosts)
    requires |x.src| == 4 && |x.dst| == 4
  {
    var frame := HelloFrame(x.src, x.dst, x.sport, x.dport, x.seqno, host);
    && frame.Some? && DecodeFrame(frame.value, DLT_EN10MB).Some? && NamePath(host).Some?
    && var pk := DecodeFrame(frame.value, DLT_EN10MB).value;
       && SniHit(rs, pk).Some? && SniHit(rs, pk).value.claim.app != NO_APP
       && |Fields(base)| <= SniHit(rs, pk).value.labelsMatched <= |NamePath(host).value|
  }

  lemma KeptIsClean(c: Corpus, nextId: nat, built: nat, at: nat, d: DomainRow)
    requires Usable(c, nextId) && d in KeptDomains(c, built)
    requires Packable(MakePlan(c, nextId, built), at) && NulFree(MakePlan(c, nextId, built))
    ensures DomainFits(d) && CleanName(d.name) && 0 !in d.name && 1 <= |d.name|
  {
    hide InternAll, KeptApps, KeptCidrs, KeptPayloads, DomainFits, Filter;
    KeptIsFrom(c, built, d);
    assert CleanName(d.name);
  }

  /** A rule attached under a license its app was registered with is kept from that level on. */
  lemma AttachedIsKept(c: Corpus, registered: set<(nat, nat)>, built: nat, d: DomainRow)
    requires LicensesAreMinimal(c.meta, registered)
    requires d in c.domains && (d.app, d.lic) in registered && d.lic <= built
    ensures d in KeptDomains(c, built)
  {
    assert DomainApp(d) == d.app && DomainLic(d) == d.lic;
    assert Gate(c.meta, DomainApp, DomainLic, built)(d);
  }

  // ------------------------------------------------------------------ and settles the flow

  lemma PrefixTiers(c: Corpus, built: nat, max: nat, v6: bool)
    requires Loaders.Tiered(c)
    ensures var rules := CorpusPrefixes(c, built, max, v6);
      forall i :: 0 <= i < |rules| ==> rules[i].claim.tier > TIER_B
  {
    hide AddressBits.AddrBits, Gather, Filter;
    var rows := Filter(KeptCidrs(c, built), Limit(CidrLic, max));
    var rules := CorpusPrefixes(c, built, max, v6);
    forall i | 0 <= i < |rules| ensures rules[i].claim.tier > TIER_B {
      var r := GatheredFrom(rows, PrefixFrom(v6), rules[i]);
      assert r in KeptCidrs(c, built);
    }
  }

  lemma NameTiers(c: Corpus, built: nat, max: nat, hash: Label -> nat)
    requires Loaders.Tiered(c)
    ensures var rules := HashedRules(hash, CorpusNames(c, built, max));
      forall i :: 0 <= i < |rules| ==> rules[i].claim.tier == TIER_B
  {
    hide HashedRules, HashedPath, Gather, Filter;
    var rules := HashedRules(hash, CorpusNames(c, built, max));
    forall i | 0 <= i < |rules| ensures rules[i].claim.tier == TIER_B {
      var r := FiledFrom(hash, CorpusNames(c, built, max), i);
      var d := GatheredFrom(Filter(KeptDomains(c, built), Limit(DomainLic, max)), NameFrom, r);
      assert d in KeptDomains(c, built);
    }
  }

  /** What the source loaders put in, the engine gets: names strong enough to settle, prefixes not. */
  lemma CorpusIsTiered(c: Corpus, built: nat, max: nat, hash: Label -> nat)
    requires Loaders.Tiered(c)
    ensures TieredRules(CorpusRules(c, hash, built, max))
  {
    hide HashedRules, CorpusPrefixes, CorpusNames;
    PrefixTiers(c, built, max, false);
    PrefixTiers(c, built, max, true);
    NameTiers(c, built, max, hash);
  }

  /**
    Whatever comes before and after: a conversation whose first match inside the budget is
    this packet is final, with the claim the packet's name is matched to.
  */
  ghost predicate SettlesWhereFirst(rs: RuleSet, pk: Packet)
    requires SniHit(rs, pk).Some?
  {
    forall h: seq<Packet> :: FirstMatchIs(rs, h, pk) ==>
      FlowAfter(rs, h).verdict.isFinal && Carries(FlowAfter(rs, h).verdict, SniHit(rs, pk).value.claim)
  }

  predicate FirstMatchIs(rs: RuleSet, h: seq<Packet>, pk: Packet) {
    h != [] && FirstSettling(rs, h).Some? && h[FirstSettling(rs, h).value] == pk
  }

  /** A printed packet with this host name is such a hit, and settles conversations. */
  ghost predicate SettledBy(rs: RuleSet, base: Name, host: Name, x: Hosts)
    requires |x.src| == 4 && |x.dst| == 4
  {
    && Answers(rs, base, host, x)
    && var frame := HelloFrame(x.src, x.dst, x.sport, x.dport, x.seqno, host).value;
       SettlesWhereFirst(rs, DecodeFrame(frame, DLT_EN10MB).value)
  }

  /** In particular as the first packet of its conversation, or as any of the first twelve without a match before it. */
  lemma SettlesInTime(rs: RuleSet, h: seq<Packet>, k: nat)
    requires k < |h| && k < 12 && SniHit(rs, h[k]).Some? && SettlesWhereFirst(rs, h[k])
    requires forall j :: 0 <= j < k ==> SniHit(rs, h[j]).None?
    ensures FlowAfter(rs, h).verdict.isFinal && Carries(FlowAfter(rs, h).verdict, SniHit(rs, h[k]).value.claim)
  {
    hide SniHit, FlowAfter, FirstSettling, Carries;
    FirstSettlingIsFirst(rs, h);
    assert Settles(rs, h, k);
    assert FirstMatchIs(rs, h, h[k]);
  }

  /** A printed packet with a name a compiled rule is for settles every conversation in which it is the first match. */
  lemma HelloSettlesFlow(c: Corpus, nextId: nat, built: nat, at: nat, hash: Label -> nat, max: nat,
                         d: DomainRow, host: Name, x: Hosts)
    requires Usable(c, nextId) && Loaders.Tiered(c)
    requires Packable(MakePlan(c, nextId, built), at) && NulFree(MakePlan(c, nextId, built))
    requires d in KeptDomains(c, built) && d.lic <= max
    requires Reaches(d, host) && Readable(host)
    requires |x.src| == 4 && |x.dst| == 4
    ensures Sound(Compiled(c, nextId, built, at))
    ensures SettledBy(LoadedRules(Compiled(c, nextId, built, at), hash, max), d.name, host, x)
  {
    hide Usable, Packable, NulFree, MakePlan, KeptDomains, Compiled, Sound, LoadedRules, CorpusRules, Reaches;
    hide HelloFrame, DecodeFrame, SniHit, Fields, NamePath, FlowAfter, TieredRules, NamesSettle, NamesPrevail;
    hide FirstSettling, Carries, Loaders.Tiered, Readable;
    CorpusRoundTrip(c, nextId, built, at, hash, max, d, host, x);
    LoadedIsCorpus(c, nextId, built, at, hash, max);
    CorpusIsTiered(c, built, max, hash);
    var rs := LoadedRules(Compiled(c, nextId, built, at), hash, max);
    var pk := DecodeFrame(HelloFrame(x.src, x.dst, x.sport, x.dport, x.seqno, host).value, DLT_EN10MB).value;
    TieredNamesDecide(rs);
    forall h: seq<Packet> | FirstMatchIs(rs, h, pk)
      ensures FlowAfter(rs, h).verdict.isFinal && Carries(FlowAfter(rs, h).verdict, SniHit(rs, pk).value.claim)
    {
      FinalAtFirstMatch(rs, h);
    }
  }

  /**
    From the builder on: every domain rule in a loaded builder, of a real app and within the
    license limits, is met again on the wire and settles the conversation.
  */
  lemma BuilderToVerdict(b: Builder, built: nat, at: nat, hash: Label -> nat, max: nat, d: DomainRow,
                         host: Name, x: Hosts)
    requires b.Valid() && Loaders.Tiered(b.Contents()) && Attached(b.Contents(), b.registered) && b.nextId <= NO_APP
    requires d in b.domains && d.app != DROPPED && d.lic <= built && d.lic <= max
    requires Packable(MakePlan(b.Contents(), b.nextId, built), at) && NulFree(MakePlan(b.Contents(), b.nextId, built))
    requires Reaches(d, host) && Readable(host)
    requires |x.src| == 4 && |x.dst| == 4
    ensures Sound(Compiled(b.Contents(), b.nextId, built, at))
    ensures SettledBy(LoadedRules(Compiled(b.Contents(), b.nextId, built, at), hash, max), d.name, host, x)
  {
    BuilderIsUsable(b);
    hide Builder.Valid, Usable, Packable, NulFree, MakePlan, KeptDomains, Compiled, Sound;
    hide LoadedRules, SettledBy, Reaches, Readable;
    AttachedIsKept(b.Contents(), b.registered, built, d);
    HelloSettlesFlow(b.Contents(), b.nextId, built, at, hash, max, d, host, x);
  }

  lemma BuilderIsUsable(b: Builder)
    requires b.Valid() && b.nextId <= NO_APP
    ensures Usable(b.Contents(), b.nextId) && LicensesAreMinimal(b.appMeta, b.registered)
  {
  }

  /**
    How a listed text reaches hosts: without a request for an exact match, or with a dot before
    the name, its rule is for everything that ends in a dot and the name, whatever the case.
  */
  lemma SpelledReaches(d: DomainRow, app: nat, raw: Text, pre: Text, dots: Text, name: Text, tail: Text, post: Text,
                       exact: bool, sub: Name, base: Name)
    requires Spells(raw, pre, dots, name, tail, post) && |Fields(Fold(name))| <= MAX_LABELS
    requires NormalizeDomain(raw, exact).Some? && d.Key() == DomainKey(NormalizeDomain(raw, exact).value, app)
    requires Fold(base) == Fold(name) && NamePath(sub + [DOT] + base).Some?
    ensures d.name == Fold(name) && Reaches(d, d.name)
    ensures d.matchType == (if exact && dots == [] then 1 else 0)
    ensures !exact || dots != [] ==> Reaches(d, sub + [DOT] + base)
  {
    hide NormalizeDomain, Reaches, NamePath, Fields, CleanName;
    NormalizeSpelled(raw, pre, dots, name, tail, post, exact);
    RowReaches(d, sub);
  }

  /** What the file and the limits must be to carry a row to the engine. */
  ghost predicate Carried(c: Corpus, nextId: nat, built: nat, at: nat, max: nat, d: DomainRow) {
    && Packable(MakePlan(c, nextId, built), at) && NulFree(MakePlan(c, nextId, built)) && nextId <= NO_APP
    && d.lic <= built && d.lic <= max
  }

  /**
    From a source's list on: a usable name that a loader adds for an app curation has not
    dropped is in the builder, under that app, and if the license limits let its rule
    through, a conversation is settled by every name it is for, where that is the first match.
  */
  lemma ListedNameSettles(b: Builder, actions: seq<Loaders.Action>, i: nat, built: nat, at: nat,
                          hash: Label -> nat, max: nat, host: Name, x: Hosts)
    returns (d: DomainRow)
    requires forall j :: 0 <= j < |actions| ==> Loaders.NetOk(actions[j])
    requires i < |actions| && actions[i].AddDomain? && NormalizeDomain(actions[i].raw, actions[i].exact).Some?
    requires var l := Loaders.LoadAll(b.aliases, b.drops, actions[..i]);
      actions[i].owner < |l.owners| && l.owners[actions[i].owner].app != DROPPED
    requires b.Valid() && b.Contents() == Loaders.LoadAll(b.aliases, b.drops, actions).corpus
    requires Loaders.Tiered(b.Contents()) && Attached(b.Contents(), b.registered)
    requires |x.src| == 4 && |x.dst| == 4
    ensures d in b.Contents().domains
    ensures d.Key() == DomainKey(NormalizeDomain(actions[i].raw, actions[i].exact).value,
      Loaders.LoadAll(b.aliases, b.drops, actions[..i]).owners[actions[i].owner].app)
    ensures Carried(b.Contents(), b.nextId, built, at, max, d) ==>
      && Packable(MakePlan(b.Contents(), b.nextId, built), at)
      && Sound(Compiled(b.Contents(), b.nextId, built, at))
      && (Reaches(d, host) && Readable(host) ==>
            SettledBy(LoadedRules(Compiled(b.Contents(), b.nextId, built, at), hash, max), d.name, host, x))
  {
    hide Builder.Valid, Packable, NulFree, MakePlan, Compiled, Sound, LoadedRules, SettledBy, Reaches, Readable;
    hide NormalizeDomain, Loaders.Act, Loaders.LoadAll, Loaders.NetOk, Loaders.Tiered;
    Loaders.AddedIsThere(b.aliases, b.drops, actions, i);
    var k := DomainKey(NormalizeDomain(actions[i].raw, actions[i].exact).value,
                       Loaders.LoadAll(b.aliases, b.drops, actions[..i]).owners[actions[i].owner].app);
    var n :| 0 <= n < |b.domains| && b.domains[n].Key() == k;
    d := b.domains[n];
    if Carried(b.Contents(), b.nextId, built, at, max, d) {
      LoadedIsCorpus(b.Contents(), b.nextId, built, at, hash, max);
      if Reaches(d, host) && Readable(host) {
        BuilderToVerdict(b, built, at, hash, max, d, host, x);
      }
    }
  }

  // ------------------------------------------------------------------ and nobody else's

  /**
    On the wire: a packet is only ever matched by a rule of the database that covers the
    server name read from it.
  */
  lemma WireHitIsCovered(db: Db, hash: Label -> nat, max: nat, pk: Packet)
    requires Sound(db)
    requires var rs := LoadedRules(db, hash, max);
      && SniHit(rs, pk).Some?
      && HashTellsApart(hash, LabelsInPlay(LoadedNames(db, db.hdr.domainCount, max), SniOf(pk).value))
    ensures var h := SniHit(LoadedRules(db, hash, max), pk).value;
      exists r :: r in LoadedNames(db, db.hdr.domainCount, max) && r.claim == h.claim &&
                  r.exact == h.matchedExact && RuleCovers(r, SniOf(pk).value)
  {
    hide Sound, LoadedNames, LoadedPrefixes, LoadedPayloads, HashedRules, Scan, SniOf, HashTellsApart, RuleCovers;
    HitIsCovered(hash, LoadedNames(db, db.hdr.domainCount, max), SniOf(pk).value);
  }

  /**
    But the name that is read is the host's only if that fits the buffer. A host of 256
    bytes or more is clipped, and may be clipped to a name of somebody else: 255 bytes that
    end in `.netflix.com` are read as a name below it, whatever follows them in the hello.
  */
  lemma ClippedHostIsMisread(h: Hello, pre: Name, base: Name, junk: Name, tail: seq<byte>)
    requires Fits(h) && HostIsFirst(h)
    requires h.host == pre + [DOT] + base + junk && |pre| + 1 + |base| == SNI_CAP - 1
    requires 0 !in pre && 0 !in base && base != [] && base[|base| - 1] != DOT
    ensures Sni(Record(h) + tail, SNI_CAP) == Some(pre + [DOT] + base)
    ensures AtOrBelow(pre + [DOT] + base, base)
  {
    hide Fits, HostIsFirst, Record, Sni, AtOrBelow;
    SniRoundTrip(h, tail, SNI_CAP);
    assert Clip(h.host, SNI_CAP) == pre + [DOT] + base;
    DottedIsBelow(pre, base);
  }

  // ------------------------------------------------------------------ payload rules and TLS

  /** Payload rows as the builder leaves them: the compiler's guard let each of them through. */
  ghost predicate GuardedPayloads(c: Corpus) {
    forall p :: p in c.payloads ==> Accepted(p)
  }

  lemma BuilderIsGuarded(b: Builder)
    requires b.Valid()
    ensures GuardedPayloads(b.Contents())
  {
  }

  lemma PatternRow(p: PayloadRow, r: PayRule)
    requires Accepted(p) && r in PatternFrom(p)
    ensures CompiledRule(r) && r.mask == p.mask && r.value == p.value
  {
    hide AcceptPattern, AllWild;
  }

  /** What the engine's payload matcher is given went through the guard. */
  lemma CompiledPayloads(c: Corpus, built: nat, max: nat, hash: Label -> nat, j: nat)
    requires GuardedPayloads(c) && j < |CorpusRules(c, hash, built, max).payloads|
    ensures CompiledRule(CorpusRules(c, hash, built, max).payloads[j])
    ensures exists p :: p in c.payloads && p.mask == CorpusRules(c, hash, built, max).payloads[j].mask
  {
    hide Gather, Filter, CompiledRule, HashedRules;
    var rows := Filter(KeptPayloads(c, built), Limit(PayloadLic, max));
    var r := CorpusRules(c, hash, built, max).payloads[j];
    var p := GatheredFrom(rows, PatternFrom, r);
    assert p in KeptPayloads(c, built);
    PatternRow(p, r);
  }

  /**
    In any database compiled from a builder, a payload rule that can match the start of a TLS
    record leaves something of its content type or its version open; without such rules, TLS
    records get no protocol verdict from the payload stage at all.
  */
  lemma CompiledTlsMiss(b: Builder, built: nat, max: nat, hash: Label -> nat, payload: seq<byte>)
    requires b.Valid() && |payload| >= 4 && TlsStart(payload[..4])
    ensures var rules := CorpusRules(b.Contents(), hash, built, max).payloads;
      && (forall j :: 0 <= j < |rules| && OwnMatch(rules[j], Be32(payload[..4])) ==> !PinsHeader(rules[j].mask))
      && ((forall p :: p in b.payloads ==> PinsHeader(p.mask)) ==> PayScan(rules, payload).None?)
  {
    BuilderIsGuarded(b);
    hide Builder.Valid, CorpusRules, CompiledRule, GuardedPayloads, PayScan, OwnMatch, PinsHeader;
    var rules := CorpusRules(b.Contents(), hash, built, max).payloads;
    forall j | 0 <= j < |rules|
      ensures CompiledRule(rules[j]) && exists p :: p in b.payloads && p.mask == rules[j].mask
    {
      CompiledPayloads(b.Contents(), built, max, hash, j);
    }
    forall j | 0 <= j < |rules| && OwnMatch(rules[j], Be32(payload[..4])) ensures !PinsHeader(rules[j].mask) {
      TlsMatchLeavesWildcard(rules[j], payload[..4]);
    }
    if forall p :: p in b.payloads ==> PinsHeader(p.mask) {
      TlsRecordsMiss(rules, payload);
    }
  }
}
