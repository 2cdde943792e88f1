/**
  What the engine's indexes hold after a compiled database is loaded, in terms of the
  corpus the compiler had: the rules that passed both license gates, in order.
*/
module LoadedCorpus {
  import opened Claims
  import opened Labels
  import TrieSpec
  import opened NameRules
  import opened AddressBits
  import opened PayloadSpec
  import opened Sigc
  import opened DbFormat
  import opened SigdbLoad
  import opened Serialize
  import opened DbRoundTrip
  import opened Loading
  import opened Verdicts
  import opened Gates

  function Gather<R, T>(rows: seq<R>, f: R -> seq<T>): (r: seq<T>) {
    if |rows| == 0 then [] else Gather(rows[..|rows| - 1], f) + f(rows[|rows| - 1])
  }

  lemma {:induction false} GatherFiltered<R(!new), T>(rows: seq<R>, n: nat, keep: R -> bool, f: R -> seq<T>)
    requires n < |rows|
    ensures Gather(Filter(rows[..n + 1], keep), f) ==
            Gather(Filter(rows[..n], keep), f) + (if keep(rows[n]) then f(rows[n]) else [])
  {
    assert rows[..n + 1][..n] == rows[..n];
    var front := Filter(rows[..n], keep);
    assert (front + [rows[n]])[..|front|] == front && front + [] == front;
    assert Gather(front, f) + [] == Gather(front, f);
  }

  /** The name rule a corpus row becomes. */
  function NameFrom(d: DomainRow): (r: seq<NameRule>) {
    if DomainFits(d)
    then [NameRule(d.name, d.matchType == DOM_EXACT, Claim(d.app, d.tier, d.conf, d.lic))] else []
  }

  function PrefixFrom(v6: bool): (r: CidrRow -> seq<TrieSpec.Rule<bit>>) {
    (r: CidrRow) =>
      if CidrFits(r) && (r.af == 6 <==> v6) && r.prefixLen <= (if v6 then 128 else 32)
      then [TrieSpec.Rule(AddrBits(r.raw, r.prefixLen), false, Claim(r.app, r.tier, r.conf, r.lic))] else []
  }

  function PatternFrom(r: PayloadRow): (v: seq<PayRule>) {
    if PayloadFits(r) && !AllWild(r.mask)
    then [PayRule(r.value, r.mask, Claim(r.app, r.tier, r.conf, r.lic))] else []
  }

  lemma {:induction false} NamesOfPlan(db: Db, p: Plan, n: nat, max: nat)
    requires DbRoundTrip.Holds(db, p) && n <= |p.domains|
    ensures LoadedNames(db, n, max) == Gather(Filter(p.domains[..n], Limit(DomainLic, max)), NameFrom)
  {
    hide Sound, PoolString, Gather, Filter, DomainAt, RowsFit;
    if n == 0 {
      NothingGathered(p.domains[..0], Limit(DomainLic, max), NameFrom);
    } else {
      var d := p.domains[n - 1];
      NamesOfPlan(db, p, n - 1, max);
      GatherFiltered(p.domains, n - 1, Limit(DomainLic, max), NameFrom);
      assert DomainReadBack(db, n - 1, d);
      PlanFits(p, n - 1);
      assert DomainLic(d) == d.lic;
    }
  }

  lemma NothingGathered<R(!new), T>(rows: seq<R>, keep: R -> bool, f: R -> seq<T>)
    requires rows == []
    ensures Gather(Filter(rows, keep), f) == []
  {
  }

  lemma PlanFits(p: Plan, i: nat)
    requires RowsFit(p)
    ensures i < |p.domains| ==> DomainFits(p.domains[i])
    ensures i < |p.cidrs| ==> CidrFits(p.cidrs[i])
    ensures i < |p.payloads| ==> PayloadFits(p.payloads[i])
  {
  }

  lemma {:induction false} PrefixesOfPlan(db: Db, p: Plan, n: nat, v6: bool, max: nat)
    requires DbRoundTrip.Holds(db, p) && n <= |p.cidrs|
    ensures LoadedPrefixes(db, n, v6, max) == Gather(Filter(p.cidrs[..n], Limit(CidrLic, max)), PrefixFrom(v6))
  {
    hide Sound, Gather, Filter, CidrAt, RowsFit, AddrBits;
    if n == 0 {
      NothingGathered(p.cidrs[..0], Limit(CidrLic, max), PrefixFrom(v6));
    } else {
      var r := p.cidrs[n - 1];
      PrefixesOfPlan(db, p, n - 1, v6, max);
      GatherFiltered(p.cidrs, n - 1, Limit(CidrLic, max), PrefixFrom(v6));
      PlanFits(p, n - 1);
      assert CidrAt(db, n - 1) == ToDbCidr(r);
      assert CidrLic(r) == r.lic;
    }
  }

  lemma {:induction false} PatternsOfPlan(db: Db, p: Plan, n: nat, max: nat)
    requires DbRoundTrip.Holds(db, p) && n <= |p.payloads|
    ensures LoadedPayloads(db, n, max) == Gather(Filter(p.payloads[..n], Limit(PayloadLic, max)), PatternFrom)
  {
    hide Sound, Gather, Filter, PayloadAt, RowsFit, AllWild;
    if n == 0 {
      NothingGathered(p.payloads[..0], Limit(PayloadLic, max), PatternFrom);
    } else {
      var r := p.payloads[n - 1];
      PatternsOfPlan(db, p, n - 1, max);
      GatherFiltered(p.payloads, n - 1, Limit(PayloadLic, max), PatternFrom);
      PlanFits(p, n - 1);
      assert PayloadAt(db, n - 1) == ToDbPayload(r);
      assert PayloadLic(r) == r.lic;
    }
  }

  /** The rules of a corpus after both gates: kept by a build at `built`, loaded with limit `max`. */
  function CorpusNames(c: Corpus, built: nat, max: nat): (r: seq<NameRule>) {
    Gather(Filter(KeptDomains(c, built), Limit(DomainLic, max)), NameFrom)
  }

  function CorpusPrefixes(c: Corpus, built: nat, max: nat, v6: bool): (r: seq<TrieSpec.Rule<bit>>) {
    Gather(Filter(KeptCidrs(c, built), Limit(CidrLic, max)), PrefixFrom(v6))
  }

  function CorpusRules(c: Corpus, hash: Label -> nat, built: nat, max: nat): (r: RuleSet) {
    RuleSet(hash, HashedRules(hash, CorpusNames(c, built, max)),
            CorpusPrefixes(c, built, max, false), CorpusPrefixes(c, built, max, true),
            Gather(Filter(KeptPayloads(c, built), Limit(PayloadLic, max)), PatternFrom))
  }

  /** The database that loading the compiler's output opens. */
  function Compiled(c: Corpus, nextId: nat, built: nat, at: nat): (r: Db)
    requires Packable(MakePlan(c, nextId, built), at)
  {
    Reopened(MakePlan(c, nextId, built), at)
  }

  /** Compiling, writing, opening and loading a corpus loses, adds and reorders nothing. */
  lemma LoadedIsCorpus(c: Corpus, nextId: nat, built: nat, at: nat, hash: Label -> nat, max: nat)
    requires Packable(MakePlan(c, nextId, built), at) && NulFree(MakePlan(c, nextId, built))
    ensures Sound(Compiled(c, nextId, built, at))
    ensures LoadedRules(Compiled(c, nextId, built, at), hash, max) == CorpusRules(c, hash, built, max)
    ensures LoadedNames(Compiled(c, nextId, built, at), |KeptDomains(c, built)|, max) == CorpusNames(c, built, max)
  {
    hide InternAll, Names, KeptApps, KeptDomains, KeptCidrs, KeptPayloads, NulFree, Packable, FileFor;
    hide Sound, LoadedNames, LoadedPrefixes, LoadedPayloads, HashedRules, Gather, Filter, AppReadBack, DomainReadBack;
    PlanHolds(c, nextId, built, at);
    var p, db := MakePlan(c, nextId, built), Compiled(c, nextId, built, at);
    assert p.domains[..|p.domains|] == p.domains && p.cidrs[..|p.cidrs|] == p.cidrs;
    assert p.payloads[..|p.payloads|] == p.payloads;
    NamesOfPlan(db, p, |p.domains|, max);
    PrefixesOfPlan(db, p, |p.cidrs|, false, max);
    PrefixesOfPlan(db, p, |p.cidrs|, true, max);
    PatternsOfPlan(db, p, |p.payloads|, max);
  }

  /**
    The two license gates agree: the database built at license `lo`, loaded without a
    further limit, gives the engine the same rules in the same order as the database built
    at `hi` and loaded with the limit `lo`; so every run gives the same verdicts.
  */
  lemma LicenseGatesAgree(c: Corpus, nextId: nat, lo: nat, hi: nat, atLo: nat, atHi: nat, hash: Label -> nat, m: nat)
    requires lo <= hi && lo <= m && AllRespect(c, hi)
    requires Packable(MakePlan(c, nextId, lo), atLo) && NulFree(MakePlan(c, nextId, lo))
    requires Packable(MakePlan(c, nextId, hi), atHi) && NulFree(MakePlan(c, nextId, hi))
    ensures Sound(Compiled(c, nextId, lo, atLo)) && Sound(Compiled(c, nextId, hi, atHi))
    ensures LoadedRules(Compiled(c, nextId, lo, atLo), hash, m) == LoadedRules(Compiled(c, nextId, hi, atHi), hash, lo)
  {
    hide MakePlan, NulFree, Packable, Sound, LoadedRules, Compiled, Filter, Gather, AllRespect;
    LoadedIsCorpus(c, nextId, lo, atLo, hash, m);
    LoadedIsCorpus(c, nextId, hi, atHi, hash, lo);
    CorpusGatesAgreeIff(c, hi);
    assert CorpusGatesAgree(c, lo, hi);
    LimitTwice(KeptDomains(c, hi), DomainLic, lo, m);
    LimitTwice(KeptCidrs(c, hi), CidrLic, lo, m);
    LimitTwice(KeptPayloads(c, hi), PayloadLic, lo, m);
  }

  lemma LimitTwice<R(!new)>(rows: seq<R>, lic: R -> nat, lo: nat, m: nat)
    requires lo <= m
    ensures Filter(Filter(rows, Limit(lic, lo)), Limit(lic, m)) == Filter(rows, Limit(lic, lo))
  {
    hide Filter;
    FilterTwice(rows, Limit(lic, lo), Limit(lic, m));
    FilterSame(rows, Both(Limit(lic, lo), Limit(lic, m)), Limit(lic, lo));
  }
}
