/**
  The other two kinds of evidence, from the source on: an address prefix that a feed lists
  gives every packet inside it its owner, and a payload pattern gives every packet with its
  bytes a protocol.
*/
module Corroboration {
  import opened Wrappers
  import opened Bits
  import opened Claims
  import opened Labels
  import opened TrieSpec
  import opened AddressBits
  import Lpm
  import opened PayloadSpec
  import opened Sigc
  import opened Decode
  import opened Verdicts
  import opened FlowHistory
  import NameRules
  import opened Serialize
  import opened Gates
  import opened LoadedCorpus
  import opened EndToEnd
  import opened Evidence
  import opened SigdbLoad
  import opened DbRoundTrip
  import opened Loading
  import opened LoadHistory
  import Loaders

  // ------------------------------------------------------------------ prefixes

  /** The address has the bits of the row's prefix. */
  predicate Inside(r: CidrRow, ip: Ip) {
    |r.raw| == 16 && r.prefixLen <= 128 && AddrBits(ip, r.prefixLen) == AddrBits(r.raw, r.prefixLen)
  }

  /** The row is for packets of this version, and of a length the version has. */
  predicate OfVersion(r: CidrRow, version: byte) {
    (r.af == 6 <==> version == 6) && r.prefixLen <= (if version == 6 then 128 else 32)
  }

  function CidrClaim(r: CidrRow): (c: Claim)
    requires CidrFits(r)
  {
    Claim(r.app, r.tier, r.conf, r.lic)
  }

  lemma KeptPrefixIsLoaded(c: Corpus, built: nat, max: nat, r: CidrRow, v6: bool)
    requires r in KeptCidrs(c, built) && r.lic <= max && CidrFits(r)
    requires (r.af == 6 <==> v6) && r.prefixLen <= (if v6 then 128 else 32)
    ensures Rule(AddrBits(r.raw, r.prefixLen), false, CidrClaim(r)) in CorpusPrefixes(c, built, max, v6)
  {
    hide Gather, Filter, AddrBits;
    assert CidrLic(r) == r.lic;
    assert r in Filter(KeptCidrs(c, built), Limit(CidrLic, max));
    var rule := Rule(AddrBits(r.raw, r.prefixLen), false, CidrClaim(r));
    assert PrefixFrom(v6)(r) == [rule];
    GatherHas(Filter(KeptCidrs(c, built), Limit(CidrLic, max)), PrefixFrom(v6), r, rule);
  }

  /** Loaded prefixes are never exact, and are for real apps. */
  lemma PrefixesAreNamed(c: Corpus, nextId: nat, built: nat, max: nat, v6: bool)
    requires DenseIds(c.meta, nextId) && nextId <= NO_APP
    ensures var rules := CorpusPrefixes(c, built, max, v6);
      forall j :: 0 <= j < |rules| ==> !rules[j].exact && rules[j].claim.app != NO_APP
  {
    hide Gather, Filter, AddrBits;
    var rules := CorpusPrefixes(c, built, max, v6);
    forall j | 0 <= j < |rules| ensures !rules[j].exact && rules[j].claim.app != NO_APP {
      var rows := Filter(KeptCidrs(c, built), Limit(CidrLic, max));
      var r := GatheredFrom(rows, PrefixFrom(v6), rules[j]);
      assert Gate(c.meta, CidrApp, CidrLic, built)(r) && CidrApp(r) == r.app;
    }
  }

  lemma Covered(rules: seq<Rule<bit>>, j: nat, ip: Ip, bits: nat, raw: seq<byte>, len: nat)
    requires |raw| == 16 && len <= bits <= 128 && AddrBits(ip, len) == AddrBits(raw, len)
    requires j < |rules| && rules[j].path == AddrBits(raw, len)
    ensures Lpm.CoversAddr(rules, j, AddrBits(ip, bits)) && !Lpm.Uncovered(rules, AddrBits(ip, bits))
  {
    assert AddrBits(ip, bits)[..len] == AddrBits(ip, len);
    assert Lpm.CoversAddr(rules, j, AddrBits(ip, bits));
  }

  /**
    A prefix that passes both license gates: every packet of its version with an address
    inside it has an owner, and for a destination inside, one with a prefix at least as long.
  */
  lemma CompiledPrefixHits(c: Corpus, nextId: nat, built: nat, hash: Label -> nat, max: nat, r: CidrRow, pk: Packet)
    requires DenseIds(c.meta, nextId) && nextId <= NO_APP
    requires r in KeptCidrs(c, built) && r.lic <= max && CidrFits(r) && OfVersion(r, pk.ipVersion)
    requires Inside(r, pk.dstIp) || Inside(r, pk.srcIp)
    ensures var hit := IpHit(CorpusRules(c, hash, built, max), pk);
      && hit.Some? && hit.value.claim.app != NO_APP
      && (Inside(r, pk.dstIp) ==>
            hit.value.prefixLen >= r.prefixLen &&
            (hit.value.prefixLen == r.prefixLen ==> hit.value.claim.conf >= r.conf))
  {
    hide CorpusPrefixes, AddrBits, IpHit, Lpm.CoversAddr, Lpm.Uncovered, Lpm.OwnerNamed, NameRules.HashedRules;
    var v6 := pk.ipVersion == 6;
    var bits := if v6 then 128 else 32;
    var rs, rules := CorpusRules(c, hash, built, max), CorpusPrefixes(c, built, max, v6);
    KeptPrefixIsLoaded(c, built, max, r, v6);
    var j :| 0 <= j < |rules| && rules[j] == Rule(AddrBits(r.raw, r.prefixLen), false, CidrClaim(r));
    PrefixesAreNamed(c, nextId, built, max, v6);
    var dst, src := AddrBits(pk.dstIp, bits), AddrBits(pk.srcIp, bits);
    AllNamed(rules, dst);
    AllNamed(rules, src);
    AddressHitIsOwner(rs, pk);
    HitsAreNamed(rs, pk);
    if Inside(r, pk.dstIp) {
      Covered(rules, j, pk.dstIp, bits, r.raw, r.prefixLen);
      LongestOwner(IpHit(rs, pk), rules, j, dst, src);
    } else {
      Covered(rules, j, pk.srcIp, bits, r.raw, r.prefixLen);
    }
  }

  lemma AllNamed(rules: seq<Rule<bit>>, path: seq<bit>)
    requires forall j :: 0 <= j < |rules| ==> rules[j].claim.app != NO_APP
    ensures Lpm.OwnerNamed(rules, path)
  {
  }

  lemma LongestOwner(hit: Option<Lpm.LpmHit>, rules: seq<Rule<bit>>, j: nat, dst: seq<bit>, src: seq<bit>)
    requires Owned(hit, rules, dst, src) && Lpm.CoversAddr(rules, j, dst) && !rules[j].exact
    ensures hit.Some? && |rules[j].path| <= hit.value.prefixLen
    ensures |rules[j].path| == hit.value.prefixLen ==> rules[j].claim.conf <= hit.value.claim.conf
  {
    var w: nat :| Lpm.OwnsAddr(rules, w, dst) && hit.value == Lpm.LpmHit(rules[w].claim, |rules[w].path|);
    if |rules[j].path| == |rules[w].path| {
      assert rules[j].path == dst[..|rules[j].path|] == rules[w].path;
      assert For(rules, j, rules[w].path, false);
    }
  }

  // ------------------------------------------------------------------ networks

  /** An address of the network: as numbers, network and address agree above the host part. */
  ghost predicate InNet(net: Net, addr: seq<byte>) {
    && |addr| == |net.packed| == (if net.version == 4 then 4 else 16) && net.prefixLen <= 8 * |addr|
    && Value(addr) / Pow2(8 * |addr| - net.prefixLen) == Value(net.packed) / Pow2(8 * |addr| - net.prefixLen)
  }

  /** The 16-byte field an address is kept in. */
  function Field(addr: seq<byte>): (ip: Ip)
    requires |addr| in {4, 16}
  {
    if |addr| == 4 then Pad4(addr) else addr
  }

  /** The row that is stored for a network has exactly the addresses of the network inside it. */
  lemma NetIsRow(net: Net, addr: seq<byte>, app: nat, tier: nat, conf: nat, lic: nat)
    requires net.version in {4, 6} && |addr| == |net.packed| == (if net.version == 4 then 4 else 16)
    requires net.prefixLen <= 8 * |addr|
    ensures var r := MakeCidrRow(net, app, tier, conf, lic);
      && (Inside(r, Field(addr)) <==> InNet(net, addr))
      && OfVersion(r, if net.version == 4 then 4 else 6) && r.prefixLen == net.prefixLen
  {
    hide Value, Pow2, BitAt;
    var r := MakeCidrRow(net, app, tier, conf, lic);
    SharedPrefixIsNumeric(addr, net.packed, net.prefixLen);
    PaddedBits(addr, Field(addr), net.prefixLen);
    PaddedBits(net.packed, r.raw, net.prefixLen);
  }

  lemma PaddedBits(a: seq<byte>, b: seq<byte>, n: nat)
    requires a <= b && n <= 8 * |a|
    ensures AddrBits(a, n) == AddrBits(b, n)
  {
    forall i | 0 <= i < n ensures BitAt(a, i) == BitAt(b, i) {
      assert a[i / 8] == b[i / 8];
    }
  }

  /** What the file and the limits must be to carry a row with this license to the engine. */
  ghost predicate Ships(c: Corpus, nextId: nat, built: nat, at: nat, max: nat, lic: nat) {
    && Packable(MakePlan(c, nextId, built), at) && NulFree(MakePlan(c, nextId, built)) && nextId <= NO_APP
    && lic <= built && lic <= max
  }

  /** Rules attached under a license their app was registered with are kept from that level on. */
  lemma OthersAreKept(c: Corpus, registered: set<(nat, nat)>, built: nat)
    requires LicensesAreMinimal(c.meta, registered) && Attached(c, registered)
    ensures forall r :: r in c.cidrs && r.app != DROPPED && r.lic <= built ==> r in KeptCidrs(c, built)
    ensures forall r :: r in c.payloads && r.app != DROPPED && r.lic <= built ==> r in KeptPayloads(c, built)
  {
    forall r | r in c.cidrs && r.app != DROPPED && r.lic <= built ensures r in KeptCidrs(c, built) {
      assert CidrApp(r) == r.app && CidrLic(r) == r.lic;
      assert Gate(c.meta, CidrApp, CidrLic, built)(r);
    }
    forall r | r in c.payloads && r.app != DROPPED && r.lic <= built ensures r in KeptPayloads(c, built) {
      assert PayloadApp(r) == r.app && PayloadLic(r) == r.lic;
      assert Gate(c.meta, PayloadApp, PayloadLic, built)(r);
    }
  }

  lemma KeptRowsFit(c: Corpus, nextId: nat, built: nat, at: nat)
    requires Packable(MakePlan(c, nextId, built), at)
    ensures forall r :: r in KeptCidrs(c, built) ==> CidrFits(r)
    ensures forall r :: r in KeptPayloads(c, built) ==> PayloadFits(r)
  {
    hide InternAll, KeptApps, KeptDomains, KeptCidrs, KeptPayloads, CidrFits, PayloadFits;
  }

  /** Two rows with one key have the same addresses inside. */
  lemma SamePrefix(r: CidrRow, net: Net, app: nat, addr: seq<byte>, version: byte)
    requires net.version in {4, 6} && InNet(net, addr) && version == (if net.version == 4 then 4 else 6)
    requires r.Key() == MakeCidrRow(net, app, 0, 0, 0).Key()
    ensures Inside(r, Field(addr)) && OfVersion(r, version) && r.app == app
  {
    hide Value, Pow2, AddrBits;
    NetIsRow(net, addr, app, 0, 0, 0);
  }

  /**
    From a feed's list on: a network that a loader adds for a real app is in the builder, and if
    the license limits let it through, every packet between hosts of which one is in the network
    has an owner; without a server name, that is the provisional verdict of its conversation.
  */
  lemma ListedPrefixOwns(b: Builder, actions: seq<Loaders.Action>, i: nat, built: nat, at: nat, hash: Label -> nat,
                         max: nat, addr: seq<byte>, pk: Packet)
    returns (r: CidrRow)
    requires forall j :: 0 <= j < |actions| ==> Loaders.NetOk(actions[j])
    requires i < |actions| && actions[i].AddCidr? && actions[i].net.Some? && actions[i].net.value.version in {4, 6}
    requires var l := Loaders.LoadAll(b.aliases, b.drops, actions[..i]);
      actions[i].owner < |l.owners| && l.owners[actions[i].owner].app != DROPPED
    requires b.Valid() && b.Contents() == Loaders.LoadAll(b.aliases, b.drops, actions).corpus
    requires Attached(b.Contents(), b.registered)
    requires InNet(actions[i].net.value, addr) && Field(addr) in {pk.dstIp, pk.srcIp}
    requires pk.ipVersion == (if actions[i].net.value.version == 4 then 4 else 6)
    ensures r in b.Contents().cidrs
    ensures r.app == Loaders.LoadAll(b.aliases, b.drops, actions[..i]).owners[actions[i].owner].app
    ensures Inside(r, Field(addr)) && OfVersion(r, pk.ipVersion)
    ensures Ships(b.Contents(), b.nextId, built, at, max, r.lic) ==>
      && Packable(MakePlan(b.Contents(), b.nextId, built), at)
      && Sound(Compiled(b.Contents(), b.nextId, built, at))
      && OwnedIn(LoadedRules(Compiled(b.Contents(), b.nextId, built, at), hash, max), pk)
  {
    hide *;
    var app := Loaders.LoadAll(b.aliases, b.drops, actions[..i]).owners[actions[i].owner].app;
    r := ListedRow(b, actions, i);
    SamePrefix(r, actions[i].net.value, app, addr, pk.ipVersion);
    if Ships(b.Contents(), b.nextId, built, at, max, r.lic) {
      ShipsParts(b.Contents(), b.nextId, built, at, max, r.lic);
      LoadedIsCorpus(b.Contents(), b.nextId, built, at, hash, max);
      BuilderParts(b);
      OthersAreKept(b.Contents(), b.registered, built);
      KeptRowsFit(b.Contents(), b.nextId, built, at);
      CompiledPrefixHits(b.Contents(), b.nextId, built, hash, max, r, pk);
      HasOwnerThen(CorpusRules(b.Contents(), hash, built, max), pk);
    }
  }

  lemma ListedRow(b: Builder, actions: seq<Loaders.Action>, i: nat) returns (r: CidrRow)
    requires forall j :: 0 <= j < |actions| ==> Loaders.NetOk(actions[j])
    requires i < |actions| && actions[i].AddCidr? && actions[i].net.Some?
    requires var l := Loaders.LoadAll(b.aliases, b.drops, actions[..i]);
      actions[i].owner < |l.owners| && l.owners[actions[i].owner].app != DROPPED
    requires b.Contents() == Loaders.LoadAll(b.aliases, b.drops, actions).corpus
    ensures r in b.Contents().cidrs && |actions[i].net.value.packed| <= 16
    ensures r.Key() == MakeCidrRow(actions[i].net.value,
      Loaders.LoadAll(b.aliases, b.drops, actions[..i]).owners[actions[i].owner].app, 0, 0, 0).Key()
  {
    hide Loaders.LoadAll;
    ListedIsThere(b.aliases, b.drops, actions, i);
    var owners := Loaders.LoadAll(b.aliases, b.drops, actions[..i]).owners;
    assert Loaders.NetOk(actions[i]);
    r :| r in b.Contents().cidrs && r.Key() == ListedCidr(owners, actions[i]).value.Key();
  }

  lemma ShipsParts(c: Corpus, nextId: nat, built: nat, at: nat, max: nat, lic: nat)
    requires Ships(c, nextId, built, at, max, lic)
    ensures Packable(MakePlan(c, nextId, built), at) && NulFree(MakePlan(c, nextId, built))
    ensures nextId <= NO_APP && lic <= built && lic <= max
  {
  }

  lemma BuilderParts(b: Builder)
    requires b.Valid()
    ensures DenseIds(b.Contents().meta, b.nextId) && LicensesAreMinimal(b.Contents().meta, b.registered)
  {
  }

  /** The packet has an owner, and without a server name its conversation has the owner's app from there on. */
  ghost predicate OwnedIn(rs: RuleSet, pk: Packet) {
    && IpHit(rs, pk).Some? && IpHit(rs, pk).value.claim.app != NO_APP
    && (SniHit(rs, pk).None? ==>
          Carries(FlowAfter(rs, [pk]).verdict, IpHit(rs, pk).value.claim) && !FlowAfter(rs, [pk]).verdict.isFinal)
  }

  lemma HasOwnerThen(rs: RuleSet, pk: Packet)
    requires IpHit(rs, pk).Some? && IpHit(rs, pk).value.claim.app != NO_APP
    ensures OwnedIn(rs, pk)
  {
    hide IpHit, SniHit, FlowAfter;
    if SniHit(rs, pk).None? {
      AddressAnswersFirst(rs, pk);
    }
  }

  // ------------------------------------------------------------------ patterns

  /** The payload has the pattern's bytes where its mask pins them. */
  predicate Begins(payload: seq<byte>, value: Bytes4, mask: Bytes4) {
    |payload| >= 4 && forall i :: 0 <= i < 4 && mask[i] == 0xFF ==> payload[i] == value[i]
  }

  /** As the database format wants them: every byte of every mask all ones or all zeros. */
  ghost predicate ByteMasked(c: Corpus) {
    forall r :: r in c.payloads ==> |r.mask| == 4 && ByteMask(r.mask)
  }

  lemma KeptPatternIsLoaded(c: Corpus, built: nat, max: nat, hash: Label -> nat, r: PayloadRow)
    requires r in KeptPayloads(c, built) && r.lic <= max && PayloadFits(r) && !AllWild(r.mask)
    ensures PayRule(r.value, r.mask, Claim(r.app, r.tier, r.conf, r.lic)) in CorpusRules(c, hash, built, max).payloads
  {
    hide Gather, Filter, NameRules.HashedRules, CorpusPrefixes, CorpusNames;
    assert PayloadLic(r) == r.lic;
    assert r in Filter(KeptPayloads(c, built), Limit(PayloadLic, max));
    var rule := PayRule(r.value, r.mask, Claim(r.app, r.tier, r.conf, r.lic));
    assert PatternFrom(r) == [rule];
    GatherHas(Filter(KeptPayloads(c, built), Limit(PayloadLic, max)), PatternFrom, r, rule);
  }

  lemma PatternsAreNamed(c: Corpus, nextId: nat, built: nat, max: nat, hash: Label -> nat)
    requires DenseIds(c.meta, nextId) && nextId <= NO_APP && ByteMasked(c)
    ensures var rules := CorpusRules(c, hash, built, max).payloads;
      forall j :: 0 <= j < |rules| ==> ByteMask(rules[j].mask) && rules[j].claim.app != NO_APP
  {
    hide Gather, Filter, NameRules.HashedRules, ByteMask;
    var rules := CorpusRules(c, hash, built, max).payloads;
    forall j | 0 <= j < |rules| ensures ByteMask(rules[j].mask) && rules[j].claim.app != NO_APP {
      var rows := Filter(KeptPayloads(c, built), Limit(PayloadLic, max));
      var r := GatheredFrom(rows, PatternFrom, rules[j]);
      assert Gate(c.meta, PayloadApp, PayloadLic, built)(r) && PayloadApp(r) == r.app;
      assert r in KeptPayloads(c, built);
    }
  }

  /**
    A pattern that passes both license gates: every packet whose payload begins with its bytes
    is a hit, with as few wildcards, and of equally tight patterns with the same mask the surest.
  */
  lemma CompiledPatternHits(c: Corpus, nextId: nat, built: nat, hash: Label -> nat, max: nat, r: PayloadRow, pk: Packet)
    requires DenseIds(c.meta, nextId) && nextId <= NO_APP && ByteMasked(c)
    requires r in KeptPayloads(c, built) && r.lic <= max && PayloadFits(r) && !AllWild(r.mask)
    requires pk.payload.Some? && Begins(pk.payload.value, r.value, r.mask)
    ensures var hit := PayloadHit(CorpusRules(c, hash, built, max), pk);
      hit.Some? && hit.value.claim.app != NO_APP && hit.value.wildcards <= Wildcards(r.mask)
  {
    hide CorpusRules, PayScan, Wildcards, ByteMask, OwnMatch, Be32, AllWild;
    var rs, payload := CorpusRules(c, hash, built, max), pk.payload.value;
    KeptPatternIsLoaded(c, built, max, hash, r);
    var j: nat :| j < |rs.payloads| &&
                  rs.payloads[j] == PayRule(r.value, r.mask, Claim(r.app, r.tier, r.conf, r.lic));
    PatternsAreNamed(c, nextId, built, max, hash);
    OwnMatchByBytes(rs.payloads[j], payload[..4]);
    var k := ByteMaskScan(rs.payloads, payload);
  }

  /** What is stored of a pattern matches what the pattern as listed matches. */
  lemma StoredBegins(value: Bytes4, mask: Bytes4, payload: seq<byte>)
    requires ByteMask(mask)
    ensures Begins(payload, AndBytewise(value, mask), mask) <==> Begins(payload, value, mask)
  {
    hide And;
    forall i | 0 <= i < 4 && mask[i] == 0xFF ensures AndBytewise(value, mask)[i] == value[i] {
      MaskedByte(value[i], 0xFF);
    }
  }

  /**
    From a pattern's list on: if it is accepted for a real app and the license limits let it
    through, a payload that begins with its bytes has a protocol, and in a conversation that
    begins with the packet that is the conversation's protocol from there on.
  */
  lemma ListedPatternNames(b: Builder, actions: seq<Loaders.Action>, i: nat, built: nat, at: nat, hash: Label -> nat,
                           max: nat, pk: Packet)
    returns (r: PayloadRow)
    requires forall j :: 0 <= j < |actions| ==> Loaders.NetOk(actions[j])
    requires i < |actions| && actions[i].AddPayload? && AcceptPattern(actions[i].value, actions[i].mask).Some?
    requires var l := Loaders.LoadAll(b.aliases, b.drops, actions[..i]);
      actions[i].owner < |l.owners| && l.owners[actions[i].owner].app != DROPPED
    requires b.Valid() && b.Contents() == Loaders.LoadAll(b.aliases, b.drops, actions).corpus
    requires Attached(b.Contents(), b.registered) && ByteMasked(b.Contents())
    requires pk.payload.Some? && Begins(pk.payload.value, actions[i].value, actions[i].mask)
    ensures r in b.Contents().payloads && r.mask == actions[i].mask
    ensures r.app == Loaders.LoadAll(b.aliases, b.drops, actions[..i]).owners[actions[i].owner].app
    ensures Ships(b.Contents(), b.nextId, built, at, max, r.lic) ==>
      && Packable(MakePlan(b.Contents(), b.nextId, built), at)
      && Sound(Compiled(b.Contents(), b.nextId, built, at))
      && NamedIn(LoadedRules(Compiled(b.Contents(), b.nextId, built, at), hash, max), pk, Wildcards(r.mask))
  {
    hide *;
    r := ListedPattern(b, actions, i, pk.payload.value);
    if Ships(b.Contents(), b.nextId, built, at, max, r.lic) {
      ShipsParts(b.Contents(), b.nextId, built, at, max, r.lic);
      LoadedIsCorpus(b.Contents(), b.nextId, built, at, hash, max);
      BuilderParts(b);
      OthersAreKept(b.Contents(), b.registered, built);
      KeptRowsFit(b.Contents(), b.nextId, built, at);
      CompiledPatternHits(b.Contents(), b.nextId, built, hash, max, r, pk);
      HasProtocolThen(CorpusRules(b.Contents(), hash, built, max), pk, Wildcards(r.mask));
    }
  }

  lemma ListedPattern(b: Builder, actions: seq<Loaders.Action>, i: nat, payload: seq<byte>) returns (r: PayloadRow)
    requires forall j :: 0 <= j < |actions| ==> Loaders.NetOk(actions[j])
    requires i < |actions| && actions[i].AddPayload? && AcceptPattern(actions[i].value, actions[i].mask).Some?
    requires var l := Loaders.LoadAll(b.aliases, b.drops, actions[..i]);
      actions[i].owner < |l.owners| && l.owners[actions[i].owner].app != DROPPED
    requires b.Contents() == Loaders.LoadAll(b.aliases, b.drops, actions).corpus && ByteMasked(b.Contents())
    requires Begins(payload, actions[i].value, actions[i].mask)
    ensures r in b.Contents().payloads && r.mask == actions[i].mask
    ensures |r.value| == 4 && |r.mask| == 4 && !AllWild(r.mask)
    ensures r.app == Loaders.LoadAll(b.aliases, b.drops, actions[..i]).owners[actions[i].owner].app
    ensures r.app != DROPPED && Begins(payload, r.value, r.mask)
  {
    hide Loaders.LoadAll, Begins, PinsReservedFraming, AllWild, AndBytewise, ByteMask;
    ListedIsThere(b.aliases, b.drops, actions, i);
    var owners := Loaders.LoadAll(b.aliases, b.drops, actions[..i]).owners;
    r :| r in b.Contents().payloads && r.Key() == ListedPayload(owners, actions[i]).value.Key();
    StoredBegins(actions[i].value, actions[i].mask, payload);
  }

  /** The packet has a protocol of at most so many wildcards, and its conversation has it from there on. */
  ghost predicate NamedIn(rs: RuleSet, pk: Packet, wildcards: nat) {
    && PayloadHit(rs, pk).Some? && PayloadHit(rs, pk).value.claim.app != NO_APP
    && PayloadHit(rs, pk).value.wildcards <= wildcards
    && forall h: seq<Packet> :: h != [] && h[0] == pk ==>
         FlowAfter(rs, h).verdict.masterApp == PayloadHit(rs, pk).value.claim.app
  }

  lemma HasProtocolThen(rs: RuleSet, pk: Packet, wildcards: nat)
    requires PayloadHit(rs, pk).Some? && PayloadHit(rs, pk).value.claim.app != NO_APP
    requires PayloadHit(rs, pk).value.wildcards <= wildcards
    ensures NamedIn(rs, pk, wildcards)
  {
    hide PayloadHit, FlowAfter, FirstLooked;
    forall h: seq<Packet> | h != [] && h[0] == pk
      ensures FlowAfter(rs, h).verdict.masterApp == PayloadHit(rs, pk).value.claim.app
    {
      ProtocolIsFirst(rs, h);
      FirstLookedIsFirst(rs, h, HasPattern(rs));
      assert Inspected(FlowBefore(rs, h, 0)) && HasPattern(rs)(h[0]);
    }
  }
}
