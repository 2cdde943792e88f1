/**
  The database round trip: what `Builder.serialize` writes, the loader accepts, and reads
  back record for record and name for name.
*/
module DbRoundTrip {
  import opened Sigc
  import opened DbFormat
  import opened SigdbLoad
  import opened Serialize

  /** Names that survive as C strings. */
  ghost predicate NulFree(p: Plan) {
    && (forall a :: a in p.apps ==> 0 !in a.1.name)
    && (forall d :: d in p.domains ==> 0 !in d.name)
  }

  ghost predicate AppReadBack(db: Db, i: nat, a: (nat, AppMeta))
    requires Sound(db)
  {
    && i < db.hdr.appCount
    && var r := AppAt(db, i);
       && r.app == a.0 && r.category == a.1.category && r.lic == a.1.license
       && r.nameOff < db.hdr.poolSize && PoolString(db, r.nameOff) == a.1.name
  }

  ghost predicate DomainReadBack(db: Db, i: nat, d: DomainRow)
    requires Sound(db)
  {
    && i < db.hdr.domainCount
    && var r := DomainAt(db, i);
       && r.app == d.app && r.matchType == d.matchType && r.conf == d.conf && r.tier == d.tier && r.lic == d.lic
       && r.nameOff < db.hdr.poolSize && PoolString(db, r.nameOff) == d.name
  }

  /** The database holds exactly the records of the plan, in order. */
  ghost predicate Holds(db: Db, p: Plan) {
    && Sound(db) && RowsFit(p)
    && db.hdr.appCount == |p.apps| && db.hdr.domainCount == |p.domains|
    && db.hdr.cidrCount == |p.cidrs| && db.hdr.payloadCount == |p.payloads|
    && (forall i :: 0 <= i < |p.apps| ==> AppReadBack(db, i, p.apps[i]))
    && (forall i :: 0 <= i < |p.domains| ==> DomainReadBack(db, i, p.domains[i]))
    && (forall i :: 0 <= i < |p.cidrs| ==> CidrAt(db, i) == ToDbCidr(p.cidrs[i]))
    && (forall i :: 0 <= i < |p.payloads| ==> PayloadAt(db, i) == ToDbPayload(p.payloads[i]))
  }

  /** What interning leaves in the pool: the names, at their offsets. */
  lemma PlanIsInterned(c: Corpus, nextId: nat, max: nat)
    ensures var p := MakePlan(c, nextId, max);
      && Terminated(p.pool)
      && (forall i :: 0 <= i < |p.apps| ==> Stores(p.pool, p.offs[i], p.apps[i].1.name))
      && (forall i :: 0 <= i < |p.domains| ==> Stores(p.pool, p.offs[|p.apps| + i], p.domains[i].name))
  {
    hide InternAll, Stores, PoolOk, KeptApps, KeptDomains, KeptCidrs, KeptPayloads;
    var p, apps, domains := MakePlan(c, nextId, max), KeptApps(c.meta, nextId, max), KeptDomains(c, max);
    StartPoolOk();
    InternAllOk(START_POOL, Names(apps, domains));
    PoolEnds(InternAll(START_POOL, Names(apps, domains)).1);
    hide Names;
    forall i | 0 <= i < |p.apps| ensures Stores(p.pool, p.offs[i], p.apps[i].1.name) {
      assert Names(apps, domains)[i] == apps[i].1.name;
    }
    forall i | 0 <= i < |p.domains| ensures Stores(p.pool, p.offs[|p.apps| + i], p.domains[i].name) {
      assert Names(apps, domains)[|apps| + i] == domains[i].name;
    }
  }

  lemma StartPoolOk()
    ensures PoolOk(START_POOL)
  {
  }

  lemma PoolEnds(p: Pool)
    requires PoolOk(p)
    ensures Terminated(p.bytes)
  {
  }

  lemma PlanHolds(c: Corpus, nextId: nat, max: nat, builtAt: nat)
    requires Packable(MakePlan(c, nextId, max), builtAt) && NulFree(MakePlan(c, nextId, max))
    ensures Holds(Reopened(MakePlan(c, nextId, max), builtAt), MakePlan(c, nextId, max))
  {
    hide MakePlan, Stores, Sound, FileFor, AppAt, DomainAt, CidrAt, PayloadAt, PoolString;
    PlanIsInterned(c, nextId, max);
    var p := MakePlan(c, nextId, max);
    FileIsSound(p, builtAt);
    var db := Reopened(p, builtAt);
    forall i | 0 <= i < |p.apps| ensures AppReadBack(db, i, p.apps[i]) {
      AppRowAt(p, builtAt, i);
      NameReadsBack(p, builtAt, p.offs[i], p.apps[i].1.name);
    }
    forall i | 0 <= i < |p.domains| ensures DomainReadBack(db, i, p.domains[i]) {
      DomainRowAt(p, builtAt, i);
      NameReadsBack(p, builtAt, p.offs[|p.apps| + i], p.domains[i].name);
    }
    forall i | 0 <= i < |p.cidrs| ensures CidrAt(db, i) == ToDbCidr(p.cidrs[i]) {
      CidrRowAt(p, builtAt, i);
    }
    forall i | 0 <= i < |p.payloads| ensures PayloadAt(db, i) == ToDbPayload(p.payloads[i]) {
      PayloadRowAt(p, builtAt, i);
    }
  }

  /**
    Every file the compiler can write passes the loader's checks, and its views are exactly
    the kept records, in order, with their own names.
  */
  lemma DatabaseRoundTrip(c: Corpus, nextId: nat, max: nat, builtAt: nat)
    requires SerializeSpec(c, nextId, max, builtAt).Some? && NulFree(MakePlan(c, nextId, max))
    ensures var file := SerializeSpec(c, nextId, max, builtAt).value;
      && |file| >= HEADER_SIZE
      && Sound(Db(file, ReadHeader(file)))
      && Holds(Db(file, ReadHeader(file)), MakePlan(c, nextId, max))
  {
    hide MakePlan, Packable, Holds, FileFor, HeaderFor;
    PlanHolds(c, nextId, max, builtAt);
    HoldsSound(Reopened(MakePlan(c, nextId, max), builtAt), MakePlan(c, nextId, max));
  }

  lemma HoldsSound(db: Db, p: Plan)
    requires Holds(db, p)
    ensures Sound(db) && |db.base| >= HEADER_SIZE && db.hdr == ReadHeader(db.base)
  {
  }

  /** Every rule's app is in the app table: no rule of a dropped identity is left. */
  lemma RulesHaveApps(c: Corpus, nextId: nat, max: nat, a: nat)
    requires DenseIds(c.meta, nextId)
    requires (exists d :: d in KeptDomains(c, max) && d.app == a) ||
             (exists r :: r in KeptCidrs(c, max) && r.app == a) ||
             (exists r :: r in KeptPayloads(c, max) && r.app == a)
    ensures a != DROPPED && KeepsApp(c.meta, a, max) && (a, c.meta[a]) in KeptApps(c.meta, nextId, max)
  {
    if d :| d in KeptDomains(c, max) && d.app == a {
      assert Gate(c.meta, DomainApp, DomainLic, max)(d) && DomainApp(d) == a;
    } else if r :| r in KeptCidrs(c, max) && r.app == a {
      assert Gate(c.meta, CidrApp, CidrLic, max)(r) && CidrApp(r) == a;
    } else {
      var r :| r in KeptPayloads(c, max) && r.app == a;
      assert Gate(c.meta, PayloadApp, PayloadLic, max)(r) && PayloadApp(r) == a;
    }
  }
}
