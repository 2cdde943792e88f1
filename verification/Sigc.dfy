/**
  The signature compiler's `Builder` (tools/sigc.py): identities, rules and the licenses
  they carry.
*/
module Sigc {
  import opened Wrappers
  import opened Bits
  import opened SigcText
  import opened PayloadSpec
  import opened DbFormat

  const DROPPED: nat := 0

  datatype AppMeta = AppMeta(name: Text, category: nat, license: nat)

  datatype DomainRow = DomainRow(name: Text, app: nat, matchType: nat, conf: nat, tier: nat, lic: nat)
  {
    function Key(): (r: (Text, nat, nat)) { (name, matchType, app) }
  }

  datatype CidrRow = CidrRow(raw: seq<byte>, app: nat, prefixLen: nat, af: nat, tier: nat, conf: nat, lic: nat)
  {
    function Key(): (r: (seq<byte>, nat, nat, nat)) { (raw, prefixLen, af, app) }
  }

  datatype PayloadRow = PayloadRow(value: seq<byte>, mask: seq<byte>, app: nat, tier: nat, conf: nat, lic: nat)
  {
    function Key(): (r: (seq<byte>, seq<byte>, nat)) { (value, mask, app) }
  }

  function DomainApp(d: DomainRow): (r: nat) { d.app }
  function DomainLic(d: DomainRow): (r: nat) { d.lic }
  function CidrApp(r: CidrRow): (v: nat) { r.app }
  function CidrLic(r: CidrRow): (v: nat) { r.lic }
  function PayloadApp(r: PayloadRow): (v: nat) { r.app }
  function PayloadLic(r: PayloadRow): (v: nat) { r.lic }

  /** A parsed network: what `ipaddress.ip_network` returns, or fails to. */
  datatype Net = Net(packed: seq<byte>, prefixLen: nat, version: nat)

  /** Everything a builder has accumulated. */
  datatype Corpus = Corpus(
    meta: map<nat, AppMeta>,
    domains: seq<DomainRow>,
    cidrs: seq<CidrRow>,
    payloads: seq<PayloadRow>)

  /** App ids are dense from 1, as the builder hands them out. */
  ghost predicate DenseIds(meta: map<nat, AppMeta>, nextId: nat) {
    nextId >= 1 && forall a: nat :: a in meta <==> 1 <= a < nextId
  }

  // ------------------------------------------------------------- reserved framings

  predicate TlsType(b: byte) {
    0x14 <= b <= 0x17
  }

  const TLS_MAJOR: byte := 0x03

  /** The pattern explicitly pins a TLS record header. */
  predicate PinsReservedFraming(value: Bytes4, mask: Bytes4) {
    mask[0] != 0 && TlsType(value[0]) && mask[1] != 0 && value[1] == TLS_MAJOR
  }

  function AndBytewise(value: Bytes4, mask: Bytes4): (r: Bytes4) {
    [And(value[0], mask[0]), And(value[1], mask[1]), And(value[2], mask[2]), And(value[3], mask[3])]
  }

  /** What `Builder.payload` keeps of a rule for a real app; none if it refuses it. */
  function AcceptPattern(value: seq<byte>, mask: seq<byte>): (r: Option<(Bytes4, Bytes4)>) {
    if |value| != 4 || |mask| != 4 then None
    else if AllWild(mask) then None
    else if PinsReservedFraming(value, mask) then None
    else Some((AndBytewise(value, mask), mask))
  }

  /**
    What is kept of an app that is seen again: its first category, the smaller license, and
    its name, unless only the other one is hyphenated.
  */
  function SeenAgain(m: AppMeta, name: Text, license: nat): (r: AppMeta) {
    AppMeta(if HYPHEN in name && HYPHEN !in m.name then name else m.name, m.category, Min(license, m.license))
  }

  /** A hyphenated spelling is shown whenever one has been seen, in whatever order the sources come. */
  lemma HyphenIsKept(m: AppMeta, name: Text, license: nat)
    ensures HYPHEN in SeenAgain(m, name, license).name <==> HYPHEN in m.name || HYPHEN in name
    ensures SeenAgain(m, name, license).name in {m.name, name}
  {
  }

  class Builder {
    const aliases: map<Text, Text>
    const drops: set<Text>
    var apps: map<Text, nat>
    var appMeta: map<nat, AppMeta>
    var domains: seq<DomainRow>
    var cidrs: seq<CidrRow>
    var payloads: seq<PayloadRow>
    var nextId: nat
    var seen: set<(Text, nat, nat)>
    var seenCidr: set<(seq<byte>, nat, nat, nat)>
    var seenPay: set<(seq<byte>, seq<byte>, nat)>
    var droppedHits: nat
    var aliasedHits: nat
    var reservedDropped: nat
    /** Which licenses each app was registered under. */
    ghost var registered: set<(nat, nat)>

    function Contents(): (r: Corpus)
      reads this
    {
      Corpus(appMeta, domains, cidrs, payloads)
    }

    /** Identities: one dense id per key, each with the most permissive license it was seen under. */
    ghost predicate IdentitiesOk()
      reads this`apps, this`appMeta, this`nextId, this`registered
    {
      && DenseIds(appMeta, nextId)
      && (forall k :: k in apps ==> apps[k] in appMeta)
      && (forall k, l :: k in apps && l in apps && apps[k] == apps[l] ==> k == l)
      && LicensesAreMinimal(appMeta, registered)
    }

    ghost predicate RulesOk()
      reads this`domains, this`cidrs, this`payloads, this`seen, this`seenCidr, this`seenPay
    {
      && DistinctKeys(domains, (d: DomainRow) => d.Key(), seen)
      && DistinctKeys(cidrs, (c: CidrRow) => c.Key(), seenCidr)
      && DistinctKeys(payloads, (p: PayloadRow) => p.Key(), seenPay)
      && (forall d :: d in domains ==> CleanName(d.name) && (d.matchType == DOM_SUFFIX || d.matchType == DOM_EXACT))
      && (forall c :: c in cidrs ==> c.app != DROPPED && |c.raw| == 16)
      && (forall p :: p in payloads ==> p.app != DROPPED && Accepted(p))
    }

    ghost predicate Valid()
      reads this
    {
      IdentitiesOk() && RulesOk()
    }

    constructor (aliases: map<Text, Text>, drops: set<Text>)
      ensures Valid()
      ensures this.aliases == aliases && this.drops == drops
      ensures Contents() == Corpus(map[], [], [], []) && registered == {}
      ensures apps == map[] && nextId == 1
    {
      this.aliases, this.drops := aliases, drops;
      apps, appMeta, domains, cidrs, payloads := map[], map[], [], [], [];
      nextId := 1;
      seen, seenCidr, seenPay := {}, {}, {};
      droppedHits, aliasedHits, reservedDropped := 0, 0, 0;
      registered := {};
    }

    /** The identity a source slug stands for. */
    function Resolve(slug: Text): (r: Text) {
      if slug in aliases then aliases[slug] else slug
    }

    /** The id of the application a slug stands for, or DROPPED if it stands for none. */
    method App(slug: Text, license: nat, category: nat) returns (aid: nat)
      requires Valid()
      modifies this`apps, this`appMeta, this`nextId, this`droppedHits, this`aliasedHits, this`registered
      ensures Valid()
      ensures aid == DROPPED <==> slug in drops
      ensures slug in drops ==> Contents() == old(Contents()) && apps == old(apps) && registered == old(registered)
      ensures droppedHits == old(droppedHits) + (if slug in drops then 1 else 0)
      ensures aliasedHits == old(aliasedHits) + (if slug !in drops && slug in aliases then 1 else 0)
      ensures slug in drops ==> nextId == old(nextId)
      ensures slug !in drops ==>
        var key := IdentityKey(Resolve(slug));
        && registered == old(registered) + {(aid, license)}
        && apps == old(apps)[key := aid]
        && aid == (if key in old(apps) then old(apps)[key] else old(nextId))
        && nextId == old(nextId) + (if key in old(apps) then 0 else 1)
        && (key in old(apps) <==> aid in old(appMeta))
        && appMeta == old(appMeta)[aid :=
             if key in old(apps) then SeenAgain(old(appMeta)[aid], Resolve(slug), license)
             else AppMeta(Resolve(slug), category, license)]
    {
      hide Builder.IdentitiesOk, Builder.RulesOk, IdentityKey;
      if slug in drops {
        droppedHits := droppedHits + 1;
        return DROPPED;
      }
      var name := slug;
      if slug in aliases {
        aliasedHits := aliasedHits + 1;
        name := aliases[slug];
      }
      aid := Register(IdentityKey(name), name, license, category);
    }

    /** The app with this identity key, new or known. */
    method Register(key: Text, name: Text, license: nat, category: nat) returns (aid: nat)
      requires IdentitiesOk()
      modifies this`apps, this`appMeta, this`nextId, this`registered
      ensures IdentitiesOk() && aid != DROPPED
      ensures registered == old(registered) + {(aid, license)}
      ensures apps == old(apps)[key := aid]
      ensures aid == (if key in old(apps) then old(apps)[key] else old(nextId))
      ensures nextId == old(nextId) + (if key in old(apps) then 0 else 1)
      ensures key in old(apps) <==> aid in old(appMeta)
      ensures appMeta == old(appMeta)[aid :=
        if key in old(apps) then SeenAgain(old(appMeta)[aid], name, license) else AppMeta(name, category, license)]
    {
      hide LicensesAreMinimal;
      if key in apps {
        aid := apps[key];
        var m := appMeta[aid];
        // A hyphenated name is nicer to show, whichever source came first.
        var shown := if HYPHEN in name && HYPHEN !in m.name then name else m.name;
        MinimalAgain(appMeta, registered, aid, AppMeta(shown, m.category, Min(license, m.license)), license);
        appMeta := appMeta[aid := AppMeta(shown, m.category, Min(license, m.license))];
        registered := registered + {(aid, license)};
        return;
      }
      aid := nextId;
      MinimalNew(appMeta, registered, aid, AppMeta(name, category, license));
      nextId := nextId + 1;
      apps := apps[key := aid];
      appMeta := appMeta[aid := AppMeta(name, category, license)];
      registered := registered + {(aid, license)};
    }

    /** Adds a domain rule. Note that the source does not refuse rules of a dropped app here. */
    method Domain(raw: Text, app: nat, exact: bool, tier: nat, conf: nat, lic: nat) returns (ok: bool)
      requires Valid()
      modifies this`domains, this`seen
      ensures Valid()
      ensures ok <==> NormalizeDomain(raw, exact).Some? &&
                      DomainKey(NormalizeDomain(raw, exact).value, app) !in old(seen)
      ensures domains == old(domains) +
        (if ok then [MakeDomainRow(NormalizeDomain(raw, exact).value, app, tier, conf, lic)] else [])
    {
      hide Builder.IdentitiesOk, NormalizeDomain, CleanName, DistinctKeys, Accepted;
      var n := NormalizeDomain(raw, exact);
      if n.None? {
        return false;
      }
      NormalizedIsClean(raw, exact);
      var row := MakeDomainRow(n.value, app, tier, conf, lic);
      if row.Key() in seen {
        return false;
      }
      DistinctOneMore(domains, (d: DomainRow) => d.Key(), seen, row);
      seen := seen + {row.Key()};
      domains := domains + [row];
      return true;
    }

    method Cidr(net: Option<Net>, app: nat, tier: nat, conf: nat, lic: nat) returns (ok: bool)
      requires Valid()
      requires net.Some? ==> |net.value.packed| == (if net.value.version == 4 then 4 else 16)
      modifies this`cidrs, this`seenCidr
      ensures Valid()
      ensures ok <==> app != DROPPED && net.Some? &&
                      MakeCidrRow(net.value, app, tier, conf, lic).Key() !in old(seenCidr)
      ensures cidrs == old(cidrs) + (if ok then [MakeCidrRow(net.value, app, tier, conf, lic)] else [])
    {
      hide Builder.IdentitiesOk, CleanName, DistinctKeys, Accepted;
      if app == DROPPED || net.None? {
        return false;
      }
      var row := MakeCidrRow(net.value, app, tier, conf, lic);
      if row.Key() in seenCidr {
        return false;
      }
      DistinctOneMore(cidrs, (c: CidrRow) => c.Key(), seenCidr, row);
      seenCidr := seenCidr + {row.Key()};
      cidrs := cidrs + [row];
      return true;
    }

    method Payload(value: seq<byte>, mask: seq<byte>, app: nat, tier: nat, conf: nat, lic: nat) returns (ok: bool)
      requires Valid()
      modifies this`payloads, this`seenPay, this`reservedDropped
      ensures Valid()
      ensures ok <==> app != DROPPED && AcceptPattern(value, mask).Some? &&
                      (AcceptPattern(value, mask).value.0, AcceptPattern(value, mask).value.1, app) !in old(seenPay)
      ensures payloads == old(payloads) +
        (if ok then [PayloadRow(AcceptPattern(value, mask).value.0, mask, app, tier, conf, lic)] else [])
      ensures reservedDropped == old(reservedDropped) +
        (if app != DROPPED && |value| == 4 && |mask| == 4 && !AllWild(mask) && PinsReservedFraming(value, mask)
         then 1 else 0)
    {
      hide Builder.IdentitiesOk, CleanName, DistinctKeys, PinsReservedFraming, AllWild, AndBytewise;
      if app == DROPPED {
        return false;
      }
      if |value| != 4 || |mask| != 4 {
        return false;
      }
      if AllWild(mask) {
        return false;
      }
      if PinsReservedFraming(value, mask) {
        reservedDropped := reservedDropped + 1;
        return false;
      }
      var row := PayloadRow(AndBytewise(value, mask), mask, app, tier, conf, lic);
      if row.Key() in seenPay {
        return false;
      }
      DistinctOneMore(payloads, (p: PayloadRow) => p.Key(), seenPay, row);
      assert AcceptPattern(value, mask) == Some((row.value, row.mask));
      seenPay := seenPay + {row.Key()};
      payloads := payloads + [row];
      return true;
    }
  }

  /** A stored pattern came through the guard. */
  ghost predicate Accepted(p: PayloadRow) {
    |p.value| == 4 && |p.mask| == 4 &&
    exists raw: Bytes4 :: AcceptPattern(raw, p.mask) == Some((p.value, p.mask))
  }

  /** Each app's license is the smallest it was registered under. */
  ghost predicate LicensesAreMinimal(meta: map<nat, AppMeta>, registered: set<(nat, nat)>) {
    && (forall r :: r in registered ==> r.0 in meta && meta[r.0].license <= r.1)
    && (forall a :: a in meta ==> (a, meta[a].license) in registered)
  }

  lemma MinimalNew(meta: map<nat, AppMeta>, registered: set<(nat, nat)>, a: nat, m: AppMeta)
    requires LicensesAreMinimal(meta, registered) && a !in meta
    ensures LicensesAreMinimal(meta[a := m], registered + {(a, m.license)})
  {
  }

  lemma MinimalAgain(meta: map<nat, AppMeta>, registered: set<(nat, nat)>, a: nat, m: AppMeta, license: nat)
    requires LicensesAreMinimal(meta, registered) && a in meta && m.license == Min(license, meta[a].license)
    ensures LicensesAreMinimal(meta[a := m], registered + {(a, license)})
  {
  }

  ghost predicate DistinctKeys<R, K>(rows: seq<R>, key: R -> K, keys: set<K>) {
    && (forall i :: 0 <= i < |rows| ==> key(rows[i]) in keys)
    && (forall k :: k in keys ==> exists i :: 0 <= i < |rows| && key(rows[i]) == k)
    && (forall i, j :: 0 <= i < j < |rows| ==> key(rows[i]) != key(rows[j]))
  }

  ghost predicate HasDomain(rows: seq<DomainRow>, k: (Text, nat, nat)) {
    exists i :: 0 <= i < |rows| && rows[i].Key() == k
  }

  ghost predicate HasCidr(rows: seq<CidrRow>, k: (seq<byte>, nat, nat, nat)) {
    exists i :: 0 <= i < |rows| && rows[i].Key() == k
  }

  ghost predicate HasPayload(rows: seq<PayloadRow>, k: (seq<byte>, seq<byte>, nat)) {
    exists i :: 0 <= i < |rows| && rows[i].Key() == k
  }

  /** The sets of keys seen are those of the rows. */
  lemma SeenIsKeys(b: Builder)
    requires b.Valid()
    ensures forall k :: k in b.seen <==> HasDomain(b.domains, k)
    ensures forall k :: k in b.seenCidr <==> HasCidr(b.cidrs, k)
    ensures forall k :: k in b.seenPay <==> HasPayload(b.payloads, k)
  {
  }

  lemma DistinctOneMore<R, K>(rows: seq<R>, key: R -> K, keys: set<K>, r: R)
    requires DistinctKeys(rows, key, keys) && key(r) !in keys
    ensures DistinctKeys(rows + [r], key, keys + {key(r)})
  {
    var rows' := rows + [r];
    forall k | k in keys + {key(r)} ensures exists i :: 0 <= i < |rows'| && key(rows'[i]) == k {
      if k in keys {
        var i :| 0 <= i < |rows| && key(rows[i]) == k;
        assert rows'[i] == rows[i];
      } else {
        assert rows'[|rows|] == r;
      }
    }
  }

  function DomainKey(n: Normalized, app: nat): (r: (Text, nat, nat)) {
    (n.name, if n.exact then DOM_EXACT else DOM_SUFFIX, app)
  }

  function MakeDomainRow(n: Normalized, app: nat, tier: nat, conf: nat, lic: nat): (r: DomainRow) {
    DomainRow(n.name, app, if n.exact then DOM_EXACT else DOM_SUFFIX, conf, tier, lic)
  }

  function MakeCidrRow(net: Net, app: nat, tier: nat, conf: nat, lic: nat): (r: CidrRow)
    requires |net.packed| <= 16
    ensures |r.raw| == 16
  {
    CidrRow(net.packed + seq(16 - |net.packed|, _ => 0), app, net.prefixLen,
            if net.version == 4 then 4 else 6, tier, conf, lic)
  }
}
