/**
  `Builder.serialize` as the program runs it: rows are packed one by one, interning their
  names on the way, and the first field that does not fit ends it with an error.
*/
module Compiler {
  import opened Wrappers
  import opened Bits
  import opened SigcText
  import opened Sigc
  import opened DbFormat
  import opened Serialize

  /** The pool and the offsets of the texts already in it. */
  class StringPool {
    var bytes: seq<byte>
    var offsets: map<Text, nat>

    constructor ()
      ensures Value() == START_POOL
    {
      bytes := [0];
      offsets := map[];
    }

    ghost function Value(): (r: Pool)
      reads this
    {
      Pool(bytes, offsets)
    }

    /** The closure `intern`: each text is stored once, and can be read where it says. */
    method InternText(s: Text) returns (off: nat)
      modifies this
      ensures (off, Value()) == Intern(old(Value()), s)
      ensures old(PoolOk(Value())) ==> PoolOk(Value()) && Stores(bytes, off, s) && old(bytes) <= bytes
      ensures s in old(offsets) ==> bytes == old(bytes)
    {
      ghost var p := Value();
      if s !in offsets {
        off := |bytes|;
        offsets := offsets[s := off];
        bytes := bytes + s + [0];
      } else {
        off := offsets[s];
      }
      if PoolOk(p) {
        InternOk(p, s);
      }
    }
  }

  /** The list comprehensions that select records by license and by surviving app. */
  method KeepRows<R(!new)>(rows: seq<R>, keep: R -> bool) returns (kept: seq<R>)
    ensures kept == Filter(rows, keep)
  {
    kept := [];
    for i := 0 to |rows|
      invariant kept == Filter(rows[..i], keep)
    {
      assert rows[..i + 1][..i] == rows[..i];
      if keep(rows[i]) {
        kept := kept + [rows[i]];
      }
    }
    assert rows[..|rows|] == rows;
  }

  /** The apps that a license level keeps, by ascending id. */
  method KeepApps(meta: map<nat, AppMeta>, nextId: nat, max: nat) returns (apps: seq<(nat, AppMeta)>)
    ensures apps == KeptApps(meta, nextId, max)
  {
    apps := [];
    for a := 0 to nextId
      invariant apps == KeptApps(meta, a, max)
    {
      if a in meta && meta[a].license <= max {
        apps := apps + [(a, meta[a])];
      }
    }
  }

  lemma {:induction false} InternAllFront(p: Pool, names: seq<Text>, n: nat)
    requires n <= |names|
    ensures InternAll(p, names).0[..n] == InternAll(p, names[..n]).0
    decreases |names|
  {
    var (offs, q) := InternAll(p, names);
    if n == |names| {
      assert names[..n] == names && offs[..n] == offs;
    } else {
      var front := names[..|names| - 1];
      InternAllFront(p, front, n);
      assert front[..n] == names[..n];
    }
  }

  lemma InternOneMore(p: Pool, names: seq<Text>, i: nat)
    requires i < |names|
    ensures var (offs, q) := InternAll(p, names[..i]);
      var (off, r) := Intern(q, names[i]);
      && InternAll(p, names[..i + 1]) == (offs + [off], r)
      && InternAll(p, names).0[i] == off
  {
    hide Intern;
    assert names[..i + 1][..i] == names[..i];
    InternAllFront(p, names, i + 1);
  }

  lemma BlobOneMore<R>(rows: seq<R>, pack: R -> seq<byte>, r: R)
    ensures Blob(rows + [r], pack) == Blob(rows, pack) + pack(r)
  {
    assert (rows + [r])[..|rows|] == rows;
  }

  lemma AppOneMore(apps: seq<(nat, AppMeta)>, offs: seq<nat>, i: nat, off: nat)
    requires i < |apps| && AppsFit(apps[..i], offs) && AppFits(apps[i]) && U32(off)
    ensures AppsFit(apps[..i + 1], offs + [off])
    ensures Blob(DbApps(apps[..i + 1], offs + [off]), PackApp) ==
            Blob(DbApps(apps[..i], offs), PackApp) + PackApp(ToDbApp(apps[i], off))
  {
    hide AppFits, U32, PackApp, ToDbApp, Blob;
    BlobOneMore(DbApps(apps[..i], offs), PackApp, ToDbApp(apps[i], off));
    assert DbApps(apps[..i + 1], offs + [off]) == DbApps(apps[..i], offs) + [ToDbApp(apps[i], off)];
  }

  lemma AppFit(apps: seq<(nat, AppMeta)>, offs: seq<nat>, i: nat)
    requires i < |apps| == |offs| && AppsFit(apps, offs)
    ensures AppFits(apps[i]) && U32(offs[i])
  {
  }

  /** The app table: the names go into the pool as the rows are packed. */
  method PackApps(pool: StringPool, apps: seq<(nat, AppMeta)>) returns (blob: Option<seq<byte>>)
    modifies pool
    ensures var (offs, q) := InternAll(old(pool.Value()), AppNames(apps));
      && (blob.Some? <==> AppsFit(apps, offs))
      && (blob.Some? ==> pool.Value() == q && blob.value == Blob(DbApps(apps, offs), PackApp))
  {
    hide InternAll, Intern, PoolOk, AppsFit, AppFits, U32, DbApps, ToDbApp, PackApp, Blob;
    ghost var start := pool.Value();
    ghost var offs: seq<nat> := [];
    var b := [];
    NoApps(start, apps);
    for i := 0 to |apps|
      invariant |offs| == i && (offs, pool.Value()) == InternAll(start, AppNames(apps)[..i])
      invariant AppsFit(apps[..i], offs) && b == Blob(DbApps(apps[..i], offs), PackApp)
    {
      InternOneMore(start, AppNames(apps), i);
      var off := pool.InternText(apps[i].1.name);
      if !AppFits(apps[i]) || !U32(off) {
        if AppsFit(apps, InternAll(start, AppNames(apps)).0) {
          AppFit(apps, InternAll(start, AppNames(apps)).0, i);
        }
        return None;
      }
      AppOneMore(apps, offs, i, off);
      b := b + PackApp(ToDbApp(apps[i], off));
      offs := offs + [off];
    }
    assert apps[..|apps|] == apps && AppNames(apps)[..|apps|] == AppNames(apps);
    blob := Some(b);
  }

  lemma NoApps(start: Pool, apps: seq<(nat, AppMeta)>)
    ensures InternAll(start, AppNames(apps)[..0]) == ([], start)
    ensures AppsFit(apps[..0], []) && Blob(DbApps(apps[..0], []), PackApp) == []
  {
  }

  lemma DomainOneMore(domains: seq<DomainRow>, offs: seq<nat>, i: nat, off: nat)
    requires i < |domains| && DomainsFit(domains[..i], offs) && DomainFits(domains[i]) && U32(off)
    ensures DomainsFit(domains[..i + 1], offs + [off])
    ensures Blob(DbDomains(domains[..i + 1], offs + [off]), PackDomain) ==
            Blob(DbDomains(domains[..i], offs), PackDomain) + PackDomain(ToDbDomain(domains[i], off))
  {
    hide DomainFits, U32, PackDomain, ToDbDomain, Blob;
    BlobOneMore(DbDomains(domains[..i], offs), PackDomain, ToDbDomain(domains[i], off));
    assert DbDomains(domains[..i + 1], offs + [off]) == DbDomains(domains[..i], offs) + [ToDbDomain(domains[i], off)];
  }

  lemma DomainFit(domains: seq<DomainRow>, offs: seq<nat>, i: nat)
    requires i < |domains| == |offs| && DomainsFit(domains, offs)
    ensures DomainFits(domains[i]) && U32(offs[i])
  {
  }

  /** The domain table, which extends the same pool. */
  method PackDomains(pool: StringPool, domains: seq<DomainRow>) returns (blob: Option<seq<byte>>)
    modifies pool
    ensures var (offs, q) := InternAll(old(pool.Value()), DomainNames(domains));
      && (blob.Some? <==> DomainsFit(domains, offs))
      && (blob.Some? ==> pool.Value() == q && blob.value == Blob(DbDomains(domains, offs), PackDomain))
  {
    hide InternAll, Intern, PoolOk, DomainsFit, DomainFits, U32, DbDomains, ToDbDomain, PackDomain, Blob;
    ghost var start := pool.Value();
    ghost var offs: seq<nat> := [];
    var b := [];
    NoDomains(start, domains);
    for i := 0 to |domains|
      invariant |offs| == i && (offs, pool.Value()) == InternAll(start, DomainNames(domains)[..i])
      invariant DomainsFit(domains[..i], offs) && b == Blob(DbDomains(domains[..i], offs), PackDomain)
    {
      InternOneMore(start, DomainNames(domains), i);
      var off := pool.InternText(domains[i].name);
      if !DomainFits(domains[i]) || !U32(off) {
        if DomainsFit(domains, InternAll(start, DomainNames(domains)).0) {
          DomainFit(domains, InternAll(start, DomainNames(domains)).0, i);
        }
        return None;
      }
      DomainOneMore(domains, offs, i, off);
      b := b + PackDomain(ToDbDomain(domains[i], off));
      offs := offs + [off];
    }
    assert domains[..|domains|] == domains && DomainNames(domains)[..|domains|] == DomainNames(domains);
    blob := Some(b);
  }

  lemma NoDomains(start: Pool, domains: seq<DomainRow>)
    ensures InternAll(start, DomainNames(domains)[..0]) == ([], start)
    ensures DomainsFit(domains[..0], []) && Blob(DbDomains(domains[..0], []), PackDomain) == []
  {
  }

  lemma CidrOneMore(cidrs: seq<CidrRow>, i: nat)
    requires i < |cidrs| && CidrsFit(cidrs[..i]) && CidrFits(cidrs[i])
    ensures CidrsFit(cidrs[..i + 1])
    ensures Blob(DbCidrs(cidrs[..i + 1]), PackCidr) ==
            Blob(DbCidrs(cidrs[..i]), PackCidr) + PackCidr(ToDbCidr(cidrs[i]))
  {
    hide CidrFits, PackCidr, ToDbCidr, Blob;
    BlobOneMore(DbCidrs(cidrs[..i]), PackCidr, ToDbCidr(cidrs[i]));
    assert DbCidrs(cidrs[..i + 1]) == DbCidrs(cidrs[..i]) + [ToDbCidr(cidrs[i])];
  }

  method PackCidrs(cidrs: seq<CidrRow>) returns (blob: Option<seq<byte>>)
    ensures blob.Some? <==> CidrsFit(cidrs)
    ensures blob.Some? ==> blob.value == Blob(DbCidrs(cidrs), PackCidr)
  {
    hide CidrFits, DbCidrs, PackCidr, ToDbCidr, Blob;
    var b := [];
    NoCidrs(cidrs);
    for i := 0 to |cidrs|
      invariant CidrsFit(cidrs[..i]) && b == Blob(DbCidrs(cidrs[..i]), PackCidr)
    {
      if !CidrFits(cidrs[i]) {
        return None;
      }
      CidrOneMore(cidrs, i);
      b := b + PackCidr(ToDbCidr(cidrs[i]));
    }
    assert cidrs[..|cidrs|] == cidrs;
    blob := Some(b);
  }

  lemma NoCidrs(cidrs: seq<CidrRow>)
    ensures CidrsFit(cidrs[..0]) && Blob(DbCidrs(cidrs[..0]), PackCidr) == []
  {
  }

  lemma PayloadOneMore(payloads: seq<PayloadRow>, i: nat)
    requires i < |payloads| && PayloadsFit(payloads[..i]) && PayloadFits(payloads[i])
    ensures PayloadsFit(payloads[..i + 1])
    ensures Blob(DbPayloads(payloads[..i + 1]), PackPayload) ==
            Blob(DbPayloads(payloads[..i]), PackPayload) + PackPayload(ToDbPayload(payloads[i]))
  {
    hide PayloadFits, PackPayload, ToDbPayload, Blob;
    BlobOneMore(DbPayloads(payloads[..i]), PackPayload, ToDbPayload(payloads[i]));
    assert DbPayloads(payloads[..i + 1]) == DbPayloads(payloads[..i]) + [ToDbPayload(payloads[i])];
  }

  method PackPayloads(payloads: seq<PayloadRow>) returns (blob: Option<seq<byte>>)
    ensures blob.Some? <==> PayloadsFit(payloads)
    ensures blob.Some? ==> blob.value == Blob(DbPayloads(payloads), PackPayload)
  {
    hide PayloadFits, DbPayloads, PackPayload, ToDbPayload, Blob;
    var b := [];
    NoPayloads(payloads);
    for i := 0 to |payloads|
      invariant PayloadsFit(payloads[..i]) && b == Blob(DbPayloads(payloads[..i]), PackPayload)
    {
      if !PayloadFits(payloads[i]) {
        return None;
      }
      PayloadOneMore(payloads, i);
      b := b + PackPayload(ToDbPayload(payloads[i]));
    }
    assert payloads[..|payloads|] == payloads;
    blob := Some(b);
  }

  lemma NoPayloads(payloads: seq<PayloadRow>)
    ensures PayloadsFit(payloads[..0]) && Blob(DbPayloads(payloads[..0]), PackPayload) == []
  {
  }

  /** The header, from the sizes of what was packed. */
  method PackFile(apps: nat, domains: nat, cidrs: nat, payloads: nat,
                  appBlob: seq<byte>, domainBlob: seq<byte>, cidrBlob: seq<byte>, payloadBlob: seq<byte>,
                  pool: seq<byte>, builtAt: nat, ghost p: Plan) returns (file: Option<seq<byte>>)
    requires RowsFit(p) && (apps, domains) == (|p.apps|, |p.domains|) && (cidrs, payloads) == (|p.cidrs|, |p.payloads|)
    requires appBlob == Blob(AppRows(p), PackApp) && domainBlob == Blob(DomainRows(p), PackDomain)
    requires cidrBlob == Blob(CidrRows(p), PackCidr) && payloadBlob == Blob(PayloadRows(p), PackPayload)
    requires pool == p.pool
    ensures file == if Packable(p, builtAt) then Some(FileFor(p, builtAt)) else None
  {
    hide Blob, RowsFit, AppRows, DomainRows, CidrRows, PayloadRows;
    hide PackHeader, PackApp, PackDomain, PackCidr, PackPayload;
    BlobLength(AppRows(p), PackApp, APP_SIZE);
    BlobLength(DomainRows(p), PackDomain, DOMAIN_SIZE);
    BlobLength(CidrRows(p), PackCidr, CIDR_SIZE);
    BlobLength(PayloadRows(p), PackPayload, PAYLOAD_SIZE);
    var appOff := HEADER_SIZE;
    var domainOff := appOff + |appBlob|;
    var cidrOff := domainOff + |domainBlob|;
    var payloadOff := cidrOff + |cidrBlob|;
    var poolOff := payloadOff + |payloadBlob|;
    if !U32(apps) || !U32(domains) || !U32(|pool|) || !U32(domainOff) || !U32(poolOff) ||
       builtAt >= 0x1_0000_0000_0000_0000 || !U32(cidrs) || !U32(cidrOff) || !U32(payloads) || !U32(payloadOff) {
      return None;
    }
    var hdr := PackHeader(Header(MAGIC, VERSION, apps, domains, |pool|, appOff, domainOff, poolOff, builtAt,
                                 cidrs, cidrOff, payloads, payloadOff));
    file := Some(hdr + appBlob + domainBlob + cidrBlob + payloadBlob + pool);
    assert file.value == hdr + (appBlob + (domainBlob + (cidrBlob + (payloadBlob + pool))));
  }

  lemma PackableRowsFit(p: Plan, builtAt: nat)
    ensures Packable(p, builtAt) ==> RowsFit(p)
  {
  }

  method SerializeCorpus(c: Corpus, nextId: nat, max: nat, builtAt: nat) returns (file: Option<seq<byte>>)
    ensures file == SerializeSpec(c, nextId, max, builtAt)
  {
    hide InternAll, Filter, KeptApps, Packable, FileFor, RowsFit, AppsFit, DomainsFit, CidrsFit, PayloadsFit, Blob;
    var apps := KeepApps(c.meta, nextId, max);
    var domains := KeepRows(c.domains, Gate(c.meta, DomainApp, DomainLic, max));
    var cidrs := KeepRows(c.cidrs, Gate(c.meta, CidrApp, CidrLic, max));
    var payloads := KeepRows(c.payloads, Gate(c.meta, PayloadApp, PayloadLic, max));
    ghost var p := MakePlan(c, nextId, max);
    InternAllTwice(START_POOL, AppNames(apps), DomainNames(domains));
    RowsFitByTable(p);
    PackableRowsFit(p, builtAt);
    var pool := new StringPool();
    var appBlob := PackApps(pool, apps);
    if appBlob.None? {
      return None;
    }
    var domainBlob := PackDomains(pool, domains);
    if domainBlob.None? {
      return None;
    }
    var cidrBlob := PackCidrs(cidrs);
    if cidrBlob.None? {
      return None;
    }
    var payloadBlob := PackPayloads(payloads);
    if payloadBlob.None? {
      return None;
    }
    file := PackFile(|apps|, |domains|, |cidrs|, |payloads|, appBlob.value, domainBlob.value, cidrBlob.value,
                     payloadBlob.value, pool.bytes, builtAt, p);
  }
}
