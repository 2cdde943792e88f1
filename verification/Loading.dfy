/**
  Building the indexes from an opened database (src/engine/main.c): rules above the
  license limit are skipped, the others inserted in file order.
*/
module Loading {
  import opened Claims
  import opened Labels
  import opened TrieSpec
  import opened NameRules
  import opened AddressBits
  import opened PayloadSpec
  import opened DbFormat
  import opened SigdbLoad
  import opened Verdicts
  import opened DomainTrie
  import Lpm
  import Payload
  import EdgeTables

  // ------------------------------------------------------------------ what is loaded

  function NameRuleOf(db: Db, r: DbDomain): (v: NameRule)
    requires Sound(db) && r.nameOff < db.hdr.poolSize
  {
    NameRule(PoolString(db, r.nameOff), r.matchType == DOM_EXACT, Claim(r.app, r.tier, r.conf, r.lic))
  }

  /** The name rules among the first `n` rows that the license limit lets in. */
  function LoadedNames(db: Db, n: nat, max: nat): (r: seq<NameRule>)
    requires Sound(db) && n <= db.hdr.domainCount
  {
    if n == 0 then []
    else
      var r := DomainAt(db, n - 1);
      LoadedNames(db, n - 1, max) +
      (if r.lic > max || r.nameOff >= db.hdr.poolSize then [] else [NameRuleOf(db, r)])
  }

  function CidrRule(r: DbCidr): (v: TrieSpec.Rule<bit>)
    requires r.prefixLen <= 128
  {
    Rule(AddrBits(r.addr, r.prefixLen), false, Claim(r.app, r.tier, r.conf, r.lic))
  }

  /** The row goes to the table of this address family, and fits it. */
  predicate ForFamily(r: DbCidr, v6: bool, max: nat) {
    r.lic <= max && (r.af == 6 <==> v6) && r.prefixLen <= (if v6 then 128 else 32)
  }

  function LoadedPrefixes(db: Db, n: nat, v6: bool, max: nat): (r: seq<TrieSpec.Rule<bit>>)
    requires Sound(db) && n <= db.hdr.cidrCount
  {
    if n == 0 then []
    else
      var r := CidrAt(db, n - 1);
      LoadedPrefixes(db, n - 1, v6, max) + (if ForFamily(r, v6, max) then [CidrRule(r)] else [])
  }

  function LoadedPayloads(db: Db, n: nat, max: nat): (r: seq<PayRule>)
    requires Sound(db) && n <= db.hdr.payloadCount
  {
    if n == 0 then []
    else
      var r := PayloadAt(db, n - 1);
      LoadedPayloads(db, n - 1, max) +
      (if r.lic > max || AllWild(r.mask) then []
       else [PayRule(r.value, r.mask, Claim(r.app, r.tier, r.conf, r.lic))])
  }

  /** Everything the engine knows after loading a database at a license limit. */
  function LoadedRules(db: Db, hash: Label -> nat, max: nat): (r: RuleSet)
    requires Sound(db)
  {
    RuleSet(hash, HashedRules(hash, LoadedNames(db, db.hdr.domainCount, max)),
            LoadedPrefixes(db, db.hdr.cidrCount, false, max), LoadedPrefixes(db, db.hdr.cidrCount, true, max),
            LoadedPayloads(db, db.hdr.payloadCount, max))
  }

  // ------------------------------------------------------------------ the C functions

  /** One more row: skipped, or its rule filed if its name is well formed. */
  lemma OneMoreName(db: Db, hash: Label -> nat, i: nat, max: nat)
    requires Sound(db) && i < db.hdr.domainCount
    ensures var d := DomainAt(db, i);
      var was := HashedRules(hash, LoadedNames(db, i, max));
      HashedRules(hash, LoadedNames(db, i + 1, max)) ==
        if d.lic > max || d.nameOff >= db.hdr.poolSize then was
        else match HashedPath(hash, PoolString(db, d.nameOff))
             case None => was
             case Some(p) => was + [Rule(p, d.matchType == DOM_EXACT, Claim(d.app, d.tier, d.conf, d.lic))]
  {
    hide Sound, HashedRules, PoolString, ReadDomain, HashedPath;
    var d := DomainAt(db, i);
    var front := LoadedNames(db, i, max);
    if d.lic > max || d.nameOff >= db.hdr.poolSize {
      assert front + [] == front;
    } else {
      HashedRulesOneMore(hash, front, NameRuleOf(db, d));
      var was := HashedRules(hash, front);
      assert was + [] == was;
    }
  }

  method BuildTrie(db: Db, hash: Label -> nat, home: EdgeTables.EdgeKey -> nat, max: nat)
    returns (t: DomainTrie.Trie)
    requires Sound(db)
    ensures fresh(t) && fresh(t.table) && fresh(t.table.edges) && fresh(t.nodes) && t.Valid() && t.hash == hash
    ensures t.rules == HashedRules(hash, LoadedNames(db, db.hdr.domainCount, max))
  {
    hide Sound, HashedRules, LoadedNames, PoolString, ReadDomain, DomainTrie.Trie.Valid, DomainTrie.HashedPath;
    t := new DomainTrie.Trie(hash, home, db.hdr.domainCount);
    NoRules(db, hash, max);
    for i := 0 to db.hdr.domainCount
      invariant fresh(t) && fresh(t.table) && fresh(t.table.edges) && fresh(t.nodes)
      invariant t.Valid() && t.hash == hash
      invariant t.rules == HashedRules(hash, LoadedNames(db, i, max))
    {
      OneMoreName(db, hash, i, max);
      var d := DomainAt(db, i);
      if d.lic > max {
        continue;
      }
      if d.nameOff >= db.hdr.poolSize {
        continue;
      }
      var ok := t.Insert(PoolString(db, d.nameOff), d.matchType == DOM_EXACT,
                         Claim(d.app, d.tier, d.conf, d.lic));
    }
  }

  lemma NoRules(db: Db, hash: Label -> nat, max: nat)
    requires Sound(db)
    ensures HashedRules(hash, LoadedNames(db, 0, max)) == []
  {
  }

  /** One table per address family. */
  method BuildLpm(db: Db, max: nat) returns (v4: Lpm.PrefixTable, v6: Lpm.PrefixTable)
    requires Sound(db)
    ensures fresh(v4) && fresh(v4.nodes) && v4.Valid() && v4.bits == 32
    ensures fresh(v6) && fresh(v6.nodes) && v6.Valid() && v6.bits == 128
    ensures v4.rules == LoadedPrefixes(db, db.hdr.cidrCount, false, max)
    ensures v6.rules == LoadedPrefixes(db, db.hdr.cidrCount, true, max)
  {
    hide Sound, ReadCidr, Lpm.PrefixTable.Valid, AddrBits;
    v4 := new Lpm.PrefixTable(32, db.hdr.cidrCount);
    v6 := new Lpm.PrefixTable(128, db.hdr.cidrCount / 4 + 16);
    for i := 0 to db.hdr.cidrCount
      invariant fresh(v4) && fresh(v4.nodes) && v4.Valid() && v4.bits == 32
      invariant fresh(v6) && fresh(v6.nodes) && v6.Valid() && v6.bits == 128
      invariant v4 != v6 && v4.nodes != v6.nodes
      invariant v4.rules == LoadedPrefixes(db, i, false, max)
      invariant v6.rules == LoadedPrefixes(db, i, true, max)
    {
      var c := CidrAt(db, i);
      if c.lic > max {
        continue;
      }
      var claim := Claim(c.app, c.tier, c.conf, c.lic);
      if c.af == 6 {
        var ok := v6.Insert(c.addr, c.prefixLen, claim);
      } else {
        var ok := v4.Insert(c.addr, c.prefixLen, claim);
      }
    }
  }

  method BuildPayload(db: Db, mix: nat -> nat, max: nat) returns (ps: Payload.PayloadSet)
    requires Sound(db)
    ensures fresh(ps) && ps.Valid() && forall b :: b in ps.buckets ==> fresh(b) && fresh(b.slots)
    ensures ps.rules == LoadedPayloads(db, db.hdr.payloadCount, max)
  {
    hide Sound, ReadPayload, AllWild, MaskIndex, Payload.PayloadSet.Valid;
    ps := new Payload.PayloadSet(mix);
    for i := 0 to db.hdr.payloadCount
      invariant fresh(ps) && ps.Valid() && forall b :: b in ps.buckets ==> fresh(b) && fresh(b.slots)
      invariant ps.rules == LoadedPayloads(db, i, max)
    {
      var q := PayloadAt(db, i);
      if q.lic > max {
        continue;
      }
      assert ps.buckets[MaskIndex(q.mask)] in ps.buckets;
      var ok := ps.Insert(q.value, q.mask, Claim(q.app, q.tier, q.conf, q.lic));
    }
  }
}
