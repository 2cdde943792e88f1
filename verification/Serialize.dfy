/**
  `Builder.serialize` (tools/sigc.py): which records a license level keeps, how names are
  interned, and the file they become; and the round trip through the loader.
*/
module Serialize {
  import opened Wrappers
  import opened Bits
  import opened Layout
  import opened SigcText
  import opened Sigc
  import opened DbFormat
  import opened SigdbLoad

  // ------------------------------------------------------------------ what is kept

  function Filter<R(!new)>(rows: seq<R>, keep: R -> bool): (r: seq<R>)
    ensures |r| <= |rows|
    ensures forall x :: x in r <==> x in rows && keep(x)
  {
    if |rows| == 0 then []
    else
      var n := |rows| - 1;
      Filter(rows[..n], keep) + (if keep(rows[n]) then [rows[n]] else [])
  }

  function Both<R(!new)>(p: R -> bool, q: R -> bool): (r: R -> bool) {
    r => p(r) && q(r)
  }

  /** Filtering twice is filtering by both. */
  lemma {:induction false} FilterTwice<R(!new)>(rows: seq<R>, p: R -> bool, q: R -> bool)
    ensures Filter(Filter(rows, p), q) == Filter(rows, Both(p, q))
  {
    if |rows| > 0 {
      var n := |rows| - 1;
      FilterTwice(rows[..n], p, q);
      var f := Filter(rows[..n], p);
      assert (f + [rows[n]])[..|f|] == f && f + [] == f;
    }
  }

  lemma {:induction false} FilterSame<R(!new)>(rows: seq<R>, p: R -> bool, q: R -> bool)
    requires forall x :: x in rows ==> p(x) == q(x)
    ensures Filter(rows, p) == Filter(rows, q)
  {
    if |rows| > 0 {
      var n := |rows| - 1;
      FilterSame(rows[..n], p, q);
      assert rows[n] in rows;
    }
  }

  /** The app survives a build at license level `max`. */
  predicate KeepsApp(meta: map<nat, AppMeta>, a: nat, max: nat) {
    a in meta && meta[a].license <= max
  }

  /** The kept apps, by ascending id. */
  function KeptApps(meta: map<nat, AppMeta>, nextId: nat, max: nat): (r: seq<(nat, AppMeta)>)
    ensures forall x :: x in r <==> x.0 < nextId && KeepsApp(meta, x.0, max) && x.1 == meta[x.0]
  {
    if nextId == 0 then []
    else
      var a := nextId - 1;
      KeptApps(meta, a, max) + (if KeepsApp(meta, a, max) then [(a, meta[a])] else [])
  }

  /** What a build at a license level keeps of one kind of rule, given where app and license are. */
  function Gate<R(!new)>(meta: map<nat, AppMeta>, app: R -> nat, lic: R -> nat, max: nat): (r: R -> bool) {
    r => lic(r) <= max && KeepsApp(meta, app(r), max)
  }

  function KeptDomains(c: Corpus, max: nat): (r: seq<DomainRow>) {
    Filter(c.domains, Gate(c.meta, DomainApp, DomainLic, max))
  }

  function KeptCidrs(c: Corpus, max: nat): (r: seq<CidrRow>) {
    Filter(c.cidrs, Gate(c.meta, CidrApp, CidrLic, max))
  }

  function KeptPayloads(c: Corpus, max: nat): (r: seq<PayloadRow>) {
    Filter(c.payloads, Gate(c.meta, PayloadApp, PayloadLic, max))
  }

  // ------------------------------------------------------------------ the string pool

  datatype Pool = Pool(bytes: seq<byte>, offsets: map<Text, nat>)

  /** The pool starts out with just an empty string. */
  const START_POOL := Pool([0], map[])

  function Intern(p: Pool, s: Text): (r: (nat, Pool)) {
    if s in p.offsets then (p.offsets[s], p)
    else (|p.bytes|, Pool(p.bytes + s + [0], p.offsets[s := |p.bytes|]))
  }

  function InternAll(p: Pool, names: seq<Text>): (r: (seq<nat>, Pool))
    ensures |r.0| == |names|
  {
    if |names| == 0 then ([], p)
    else
      var n := |names| - 1;
      var (offs, q) := InternAll(p, names[..n]);
      var (off, q') := Intern(q, names[n]);
      (offs + [off], q')
  }

  /** The text is stored at the offset, with its terminator. */
  ghost predicate Stores(bytes: seq<byte>, off: nat, s: Text) {
    off + |s| < |bytes| && bytes[off..off + |s|] == s && bytes[off + |s|] == 0
  }

  ghost predicate PoolOk(p: Pool) {
    && p.bytes != [] && p.bytes[|p.bytes| - 1] == 0
    && forall s :: s in p.offsets ==> Stores(p.bytes, p.offsets[s], s)
  }

  lemma StoresInLonger(bytes: seq<byte>, more: seq<byte>, off: nat, s: Text)
    requires Stores(bytes, off, s)
    ensures Stores(bytes + more, off, s)
  {
    assert (bytes + more)[off..off + |s|] == bytes[off..off + |s|];
  }

  lemma InternOk(p: Pool, s: Text)
    requires PoolOk(p)
    ensures var (off, q) := Intern(p, s);
      && PoolOk(q) && Stores(q.bytes, off, s) && p.bytes <= q.bytes && off < |q.bytes|
  {
    if s !in p.offsets {
      var q := Intern(p, s).1;
      assert q.bytes[|p.bytes|..|p.bytes| + |s|] == s;
      forall t | t in q.offsets ensures Stores(q.bytes, q.offsets[t], t) {
        if t != s {
          StoresInLonger(p.bytes, s + [0], p.offsets[t], t);
          assert p.bytes + (s + [0]) == q.bytes;
        }
      }
    }
  }

  /** Every interned name can be read back at the offset it was given. */
  lemma {:induction false} InternAllOk(p: Pool, names: seq<Text>)
    requires PoolOk(p)
    ensures var (offs, q) := InternAll(p, names);
      && PoolOk(q) && p.bytes <= q.bytes
      && forall i :: 0 <= i < |names| ==> Stores(q.bytes, offs[i], names[i]) && offs[i] < |q.bytes|
  {
    hide PoolOk, Intern;
    if |names| > 0 {
      var n := |names| - 1;
      InternAllOk(p, names[..n]);
      var (offs, q) := InternAll(p, names[..n]);
      InternOk(q, names[n]);
      var (off, q') := Intern(q, names[n]);
      forall i | 0 <= i < n ensures Stores(q'.bytes, offs[i], names[i]) {
        assert q'.bytes == q.bytes + q'.bytes[|q.bytes|..];
        StoresInLonger(q.bytes, q'.bytes[|q.bytes|..], offs[i], names[..n][i]);
      }
    }
  }

  /** Interning in two goes is interning in one. */
  lemma {:induction false} InternAllTwice(p: Pool, a: seq<Text>, b: seq<Text>)
    ensures var (oa, q) := InternAll(p, a);
      var (ob, r) := InternAll(q, b);
      InternAll(p, a + b) == (oa + ob, r)
  {
    hide Intern;
    if b == [] {
      assert a + b == a;
      var oa := InternAll(p, a).0;
      assert oa + [] == oa;
    } else {
      var n := |b| - 1;
      assert (a + b)[..|a| + n] == a + b[..n];
      InternAllTwice(p, a, b[..n]);
      var (oa, q) := InternAll(p, a);
      var ob := InternAll(q, b[..n]).0;
      var off := InternAll(q, b).0[n];
      assert oa + ob + [off] == oa + (ob + [off]);
    }
  }

  // ------------------------------------------------------------------ packing

  predicate U8(n: nat) { n < 0x100 }
  predicate U32(n: nat) { n < 0x1_0000_0000 }

  predicate AppFits(a: (nat, AppMeta)) {
    U32(a.0) && a.1.category < 0x1_0000 && U8(a.1.license)
  }

  predicate DomainFits(d: DomainRow) {
    U32(d.app) && U8(d.matchType) && U8(d.conf) && U8(d.tier) && U8(d.lic)
  }

  predicate CidrFits(r: CidrRow) {
    |r.raw| == 16 && U32(r.app) && U8(r.prefixLen) && U8(r.af) && U8(r.tier) && U8(r.conf) && U8(r.lic)
  }

  predicate PayloadFits(r: PayloadRow) {
    |r.value| == 4 && |r.mask| == 4 && U32(r.app) && U8(r.tier) && U8(r.conf) && U8(r.lic)
  }

  function ToDbApp(a: (nat, AppMeta), off: nat): (r: DbApp)
    requires AppFits(a) && U32(off)
  {
    DbApp(a.0, off, a.1.category, a.1.license)
  }

  function ToDbDomain(d: DomainRow, off: nat): (r: DbDomain)
    requires DomainFits(d) && U32(off)
  {
    DbDomain(off, d.app, d.matchType, d.conf, d.tier, d.lic)
  }

  function ToDbCidr(r: CidrRow): (v: DbCidr)
    requires CidrFits(r)
  {
    DbCidr(r.raw, r.app, r.prefixLen, r.af, r.tier, r.conf, r.lic)
  }

  function ToDbPayload(r: PayloadRow): (v: DbPayload)
    requires PayloadFits(r)
  {
    DbPayload(r.value, r.mask, r.app, r.tier, r.conf, r.lic)
  }

  /** The kept records, and the pool their names are interned in, apps first. */
  datatype Plan = Plan(
    apps: seq<(nat, AppMeta)>, domains: seq<DomainRow>, cidrs: seq<CidrRow>, payloads: seq<PayloadRow>,
    offs: seq<nat>, pool: seq<byte>)

  function AppNames(apps: seq<(nat, AppMeta)>): (r: seq<Text>)
    ensures |r| == |apps| && forall i :: 0 <= i < |apps| ==> r[i] == apps[i].1.name
  {
    seq(|apps|, i requires 0 <= i < |apps| => apps[i].1.name)
  }

  function DomainNames(domains: seq<DomainRow>): (r: seq<Text>)
    ensures |r| == |domains| && forall i :: 0 <= i < |domains| ==> r[i] == domains[i].name
  {
    seq(|domains|, i requires 0 <= i < |domains| => domains[i].name)
  }

  function Names(apps: seq<(nat, AppMeta)>, domains: seq<DomainRow>): (r: seq<Text>)
    ensures |r| == |apps| + |domains|
    ensures forall i :: 0 <= i < |apps| ==> r[i] == apps[i].1.name
    ensures forall i :: 0 <= i < |domains| ==> r[|apps| + i] == domains[i].name
  {
    AppNames(apps) + DomainNames(domains)
  }

  function MakePlan(c: Corpus, nextId: nat, max: nat): (p: Plan)
    ensures |p.offs| == |p.apps| + |p.domains|
  {
    var apps, domains := KeptApps(c.meta, nextId, max), KeptDomains(c, max);
    var (offs, pool) := InternAll(START_POOL, Names(apps, domains));
    Plan(apps, domains, KeptCidrs(c, max), KeptPayloads(c, max), offs, pool.bytes)
  }

  /** Every field of the plan fits its width: `struct.pack` raises an error otherwise. */
  predicate RowsFit(p: Plan) {
    && |p.offs| == |p.apps| + |p.domains|
    && (forall a :: a in p.apps ==> AppFits(a)) && (forall d :: d in p.domains ==> DomainFits(d))
    && (forall r :: r in p.cidrs ==> CidrFits(r)) && (forall r :: r in p.payloads ==> PayloadFits(r))
    && (forall o :: o in p.offs ==> U32(o))
  }

  predicate AppsFit(apps: seq<(nat, AppMeta)>, offs: seq<nat>) {
    |apps| == |offs| && forall i :: 0 <= i < |apps| ==> AppFits(apps[i]) && U32(offs[i])
  }

  predicate DomainsFit(domains: seq<DomainRow>, offs: seq<nat>) {
    |domains| == |offs| && forall i :: 0 <= i < |domains| ==> DomainFits(domains[i]) && U32(offs[i])
  }

  predicate CidrsFit(cidrs: seq<CidrRow>) {
    forall i :: 0 <= i < |cidrs| ==> CidrFits(cidrs[i])
  }

  predicate PayloadsFit(payloads: seq<PayloadRow>) {
    forall i :: 0 <= i < |payloads| ==> PayloadFits(payloads[i])
  }

  function DbApps(apps: seq<(nat, AppMeta)>, offs: seq<nat>): (rs: seq<DbApp>)
    requires AppsFit(apps, offs)
    ensures |rs| == |apps| && forall i :: 0 <= i < |rs| ==> rs[i] == ToDbApp(apps[i], offs[i])
  {
    seq(|apps|, i requires 0 <= i < |apps| => ToDbApp(apps[i], offs[i]))
  }

  function DbDomains(domains: seq<DomainRow>, offs: seq<nat>): (rs: seq<DbDomain>)
    requires DomainsFit(domains, offs)
    ensures |rs| == |domains| && forall i :: 0 <= i < |rs| ==> rs[i] == ToDbDomain(domains[i], offs[i])
  {
    seq(|domains|, i requires 0 <= i < |domains| => ToDbDomain(domains[i], offs[i]))
  }

  function DbCidrs(cidrs: seq<CidrRow>): (rs: seq<DbCidr>)
    requires CidrsFit(cidrs)
    ensures |rs| == |cidrs| && forall i :: 0 <= i < |rs| ==> rs[i] == ToDbCidr(cidrs[i])
  {
    seq(|cidrs|, i requires 0 <= i < |cidrs| => ToDbCidr(cidrs[i]))
  }

  function DbPayloads(payloads: seq<PayloadRow>): (rs: seq<DbPayload>)
    requires PayloadsFit(payloads)
    ensures |rs| == |payloads| && forall i :: 0 <= i < |rs| ==> rs[i] == ToDbPayload(payloads[i])
  {
    seq(|payloads|, i requires 0 <= i < |payloads| => ToDbPayload(payloads[i]))
  }

  function AppRows(p: Plan): (rs: seq<DbApp>)
    requires RowsFit(p)
    ensures |rs| == |p.apps| && forall i :: 0 <= i < |rs| ==> rs[i] == ToDbApp(p.apps[i], p.offs[i])
  {
    DbApps(p.apps, p.offs[..|p.apps|])
  }

  function DomainRows(p: Plan): (rs: seq<DbDomain>)
    requires RowsFit(p)
    ensures |rs| == |p.domains|
    ensures forall i :: 0 <= i < |rs| ==> rs[i] == ToDbDomain(p.domains[i], p.offs[|p.apps| + i])
  {
    DbDomains(p.domains, p.offs[|p.apps|..])
  }

  function CidrRows(p: Plan): (rs: seq<DbCidr>)
    requires RowsFit(p)
    ensures |rs| == |p.cidrs| && forall i :: 0 <= i < |rs| ==> rs[i] == ToDbCidr(p.cidrs[i])
  {
    DbCidrs(p.cidrs)
  }

  function PayloadRows(p: Plan): (rs: seq<DbPayload>)
    requires RowsFit(p)
    ensures |rs| == |p.payloads| && forall i :: 0 <= i < |rs| ==> rs[i] == ToDbPayload(p.payloads[i])
  {
    DbPayloads(p.payloads)
  }

  /** Fields fit row by row. */
  lemma RowsFitByTable(p: Plan)
    requires |p.offs| == |p.apps| + |p.domains|
    ensures RowsFit(p) <==>
      && AppsFit(p.apps, p.offs[..|p.apps|]) && DomainsFit(p.domains, p.offs[|p.apps|..])
      && CidrsFit(p.cidrs) && PayloadsFit(p.payloads)
  {
    hide AppFits, DomainFits, CidrFits, PayloadFits, U32;
    var a, d := p.offs[..|p.apps|], p.offs[|p.apps|..];
    assert p.offs == a + d;
    if RowsFit(p) {
      assert forall i :: 0 <= i < |a| ==> a[i] in p.offs;
      assert forall i :: 0 <= i < |d| ==> d[i] in p.offs;
    }
  }

  /** Where the sections start: they follow the header in this order. */
  datatype Offsets = Offsets(app: nat, domain: nat, cidr: nat, payload: nat, pool: nat, end: nat)

  function SectionOffsets(p: Plan): (r: Offsets) {
    var app := HEADER_SIZE;
    var domain := app + APP_SIZE * |p.apps|;
    var cidr := domain + DOMAIN_SIZE * |p.domains|;
    var payload := cidr + CIDR_SIZE * |p.cidrs|;
    var pool := payload + PAYLOAD_SIZE * |p.payloads|;
    Offsets(app, domain, cidr, payload, pool, pool + |p.pool|)
  }

  /** All sizes and offsets fit 32 bits too. */
  predicate Packable(p: Plan, builtAt: nat) {
    RowsFit(p) && U32(SectionOffsets(p).pool) && U32(|p.pool|) && builtAt < 0x1_0000_0000_0000_0000
  }

  function HeaderFor(p: Plan, builtAt: nat): (r: Header)
    requires Packable(p, builtAt)
  {
    var o := SectionOffsets(p);
    Header(MAGIC, VERSION, |p.apps|, |p.domains|, |p.pool|, o.app, o.domain, o.pool, builtAt,
           |p.cidrs|, o.cidr, |p.payloads|, o.payload)
  }

  function FileFor(p: Plan, builtAt: nat): (r: seq<byte>)
    requires Packable(p, builtAt)
  {
    PackHeader(HeaderFor(p, builtAt)) +
    (Blob(AppRows(p), PackApp) + (Blob(DomainRows(p), PackDomain) +
    (Blob(CidrRows(p), PackCidr) + (Blob(PayloadRows(p), PackPayload) + p.pool))))
  }

  /** The compiled database, or None where the packing fails. */
  function SerializeSpec(c: Corpus, nextId: nat, max: nat, builtAt: nat): (r: Option<seq<byte>>) {
    var p := MakePlan(c, nextId, max);
    if Packable(p, builtAt) then Some(FileFor(p, builtAt)) else None
  }

  // ------------------------------------------------------------------ round trip

  /** The sections lie where the header says. */
  lemma SectionsAt(p: Plan, builtAt: nat)
    requires Packable(p, builtAt)
    ensures var f, o := FileFor(p, builtAt), SectionOffsets(p);
      && |f| == o.end && At(f, 0, PackHeader(HeaderFor(p, builtAt)))
      && At(f, o.app, Blob(AppRows(p), PackApp)) && At(f, o.domain, Blob(DomainRows(p), PackDomain))
      && At(f, o.cidr, Blob(CidrRows(p), PackCidr)) && At(f, o.payload, Blob(PayloadRows(p), PackPayload))
      && At(f, o.pool, p.pool)
  {
    hide Blob, AppRows, DomainRows, CidrRows, PayloadRows, RowsFit, At, HeaderFor;
    hide PackHeader, PackApp, PackDomain, PackCidr, PackPayload;
    BlobLength(AppRows(p), PackApp, APP_SIZE);
    BlobLength(DomainRows(p), PackDomain, DOMAIN_SIZE);
    BlobLength(CidrRows(p), PackCidr, CIDR_SIZE);
    BlobLength(PayloadRows(p), PackPayload, PAYLOAD_SIZE);
    var f := FileFor(p, builtAt);
    var s4 := Blob(PayloadRows(p), PackPayload) + p.pool;
    var s3 := Blob(CidrRows(p), PackCidr) + s4;
    var s2 := Blob(DomainRows(p), PackDomain) + s3;
    var s1 := Blob(AppRows(p), PackApp) + s2;
    var o := SectionOffsets(p);
    AtWhole(f);
    AtConcat(f, 0, PackHeader(HeaderFor(p, builtAt)), s1);
    AtConcat(f, o.app, Blob(AppRows(p), PackApp), s2);
    AtConcat(f, o.domain, Blob(DomainRows(p), PackDomain), s3);
    AtConcat(f, o.cidr, Blob(CidrRows(p), PackCidr), s4);
    AtConcat(f, o.payload, Blob(PayloadRows(p), PackPayload), p.pool);
  }

  /** A pool as interning leaves it. */
  predicate Terminated(pool: seq<byte>) {
    pool != [] && pool[|pool| - 1] == 0
  }

  /** The database the loader makes of the file. */
  function Reopened(p: Plan, builtAt: nat): (r: Db)
    requires Packable(p, builtAt)
  {
    Db(FileFor(p, builtAt), HeaderFor(p, builtAt))
  }

  lemma FileIsSound(p: Plan, builtAt: nat)
    requires Packable(p, builtAt) && Terminated(p.pool)
    ensures Sound(Reopened(p, builtAt))
  {
    hide Blob, FileFor, RowsFit, At, AppRows, DomainRows, CidrRows, PayloadRows;
    hide PackHeader, ReadHeader, PackApp, PackDomain, PackCidr, PackPayload;
    SectionsAt(p, builtAt);
    var f, o := FileFor(p, builtAt), SectionOffsets(p);
    HeaderReadsBack(f, HeaderFor(p, builtAt));
    AtBytes(f, o.pool, p.pool, |p.pool| - 1);
  }

  lemma AppRowAt(p: Plan, builtAt: nat, i: nat)
    requires Packable(p, builtAt) && Sound(Reopened(p, builtAt)) && i < |p.apps|
    ensures AppAt(Reopened(p, builtAt), i) == ToDbApp(p.apps[i], p.offs[i])
  {
    hide Blob, FileFor, Sound, RowsFit, AppRows, At, PackApp, ReadApp;
    SectionsAt(p, builtAt);
    var f, o := FileFor(p, builtAt), SectionOffsets(p);
    BlobRow(f, o.app, AppRows(p), PackApp, APP_SIZE, i);
    AppReadsBack(f, o.app + APP_SIZE * i, AppRows(p)[i]);
  }

  lemma DomainRowAt(p: Plan, builtAt: nat, i: nat)
    requires Packable(p, builtAt) && Sound(Reopened(p, builtAt)) && i < |p.domains|
    ensures DomainAt(Reopened(p, builtAt), i) == ToDbDomain(p.domains[i], p.offs[|p.apps| + i])
  {
    hide Blob, FileFor, Sound, RowsFit, DomainRows, At, PackDomain, ReadDomain;
    SectionsAt(p, builtAt);
    var f, o := FileFor(p, builtAt), SectionOffsets(p);
    BlobRow(f, o.domain, DomainRows(p), PackDomain, DOMAIN_SIZE, i);
    DomainReadsBack(f, o.domain + DOMAIN_SIZE * i, DomainRows(p)[i]);
  }

  lemma CidrRowAt(p: Plan, builtAt: nat, i: nat)
    requires Packable(p, builtAt) && Sound(Reopened(p, builtAt)) && i < |p.cidrs|
    ensures CidrAt(Reopened(p, builtAt), i) == ToDbCidr(p.cidrs[i])
  {
    hide Blob, FileFor, Sound, RowsFit, CidrRows, At, PackCidr, ReadCidr;
    SectionsAt(p, builtAt);
    var f, o := FileFor(p, builtAt), SectionOffsets(p);
    BlobRow(f, o.cidr, CidrRows(p), PackCidr, CIDR_SIZE, i);
    CidrReadsBack(f, o.cidr + CIDR_SIZE * i, CidrRows(p)[i]);
  }

  lemma PayloadRowAt(p: Plan, builtAt: nat, i: nat)
    requires Packable(p, builtAt) && Sound(Reopened(p, builtAt)) && i < |p.payloads|
    ensures PayloadAt(Reopened(p, builtAt), i) == ToDbPayload(p.payloads[i])
  {
    hide Blob, FileFor, Sound, RowsFit, PayloadRows, At, PackPayload, ReadPayload;
    SectionsAt(p, builtAt);
    var f, o := FileFor(p, builtAt), SectionOffsets(p);
    BlobRow(f, o.payload, PayloadRows(p), PackPayload, PAYLOAD_SIZE, i);
    PayloadReadsBack(f, o.payload + PAYLOAD_SIZE * i, PayloadRows(p)[i]);
  }

  lemma StoredInFile(f: seq<byte>, o: nat, pool: seq<byte>, off: nat, s: Text)
    requires At(f, o, pool) && Stores(pool, off, s) && Terminated(pool) && 0 !in s
    ensures o + |pool| <= |f| && f[o + |pool| - 1] == 0 && off < |pool|
    ensures CStr(f, o + off, o + |pool|) == s
  {
    hide CStr;
    AtBytes(f, o, pool, off + |s|);
    AtBytes(f, o, pool, |pool| - 1);
    forall i | 0 <= i < |s| ensures f[o + off + i] == s[i] {
      AtBytes(f, o, pool, off + i);
      assert pool[off..off + |s|][i] == s[i];
    }
    assert f[o + off..o + off + |s|] == s;
    CStrReads(f, o + off, o + |pool|, s);
  }

  /** A name stored in the pool is what the loader reads at its offset. */
  lemma NameReadsBack(p: Plan, builtAt: nat, off: nat, s: Text)
    requires Packable(p, builtAt) && Sound(Reopened(p, builtAt)) && Terminated(p.pool)
    requires Stores(p.pool, off, s) && 0 !in s
    ensures off < |p.pool| && PoolString(Reopened(p, builtAt), off) == s
  {
    hide Blob, FileFor, Sound, RowsFit, At, Stores, CStr;
    SectionsAt(p, builtAt);
    StoredInFile(FileFor(p, builtAt), SectionOffsets(p).pool, p.pool, off, s);
  }
}
