/**
  The repository's own check, `make check`: load the sources, compile the database, print a
  ClientHello for every name in it, classify that capture. Every name must be matched.
*/
module Replay {
  import opened Wrappers
  import opened Bits
  import opened Claims
  import opened Labels
  import opened SigcText
  import opened Sigc
  import opened Decode
  import opened Mkpcap
  import opened Verdicts
  import opened FlowHistory
  import opened EngineRuns
  import opened Conversations
  import opened DbFormat
  import opened SigdbLoad
  import opened Serialize
  import opened DbRoundTrip
  import opened Loading
  import opened LoadedCorpus
  import opened Hashing
  import opened Compiler
  import opened EndToEnd
  import opened Program
  import Loaders

  // ------------------------------------------------------------------ sigc.py, main

  /**
    Loading every source and serializing what there is. A usable name that a loader adds for
    a resolved app is a row of the corpus, and if the license limits let it through, the
    engine that loads the file settles conversations by it.
  */
  method CompileSources(aliases: map<Text, Text>, drops: set<Text>, actions: seq<Loaders.Action>, built: nat, at: nat,
                        ghost i: nat, ghost hash: Label -> nat, ghost max: nat, ghost host: Name, ghost x: Hosts)
    returns (file: Option<seq<byte>>, ghost d: DomainRow)
    requires forall j :: 0 <= j < |actions| ==> Loaders.NetOk(actions[j])
    requires i < |actions| && actions[i].AddDomain? && NormalizeDomain(actions[i].raw, actions[i].exact).Some?
    requires var l := Loaders.LoadAll(aliases, drops, actions[..i]);
      actions[i].owner < |l.owners| && l.owners[actions[i].owner].app != DROPPED
    requires |x.src| == 4 && |x.dst| == 4
    ensures file == SerializeSpec(Loaders.LoadAll(aliases, drops, actions).corpus,
                                  Loaders.LoadAll(aliases, drops, actions).nextId, built, at)
    ensures var l := Loaders.LoadAll(aliases, drops, actions);
      && d in l.corpus.domains
      && d.Key() == DomainKey(NormalizeDomain(actions[i].raw, actions[i].exact).value,
                              Loaders.LoadAll(aliases, drops, actions[..i]).owners[actions[i].owner].app)
      && (Carried(l.corpus, l.nextId, built, at, max, d) ==>
            && file.Some? && |file.value| >= HEADER_SIZE && Sound(Db(file.value, ReadHeader(file.value)))
            && (Reaches(d, host) && Readable(host) ==> SettledInFile(file.value, hash, max, d.name, host, x)))
  {
    hide *;
    var b := Loaders.LoadSources(aliases, drops, actions);
    file := SerializeCorpus(b.Contents(), b.nextId, built, at);
    d := ListedNameSettles(b, actions, i, built, at, hash, max, host, x);
    if Carried(b.Contents(), b.nextId, built, at, max, d) {
      CarriedParts(b.Contents(), b.nextId, built, at, max, d);
      FileIsCompiled(b.Contents(), b.nextId, built, at);
      if Reaches(d, host) && Readable(host) {
        InFile(b.Contents(), b.nextId, built, at, file.value, hash, max, d.name, host, x);
      }
    }
  }

  /** The file is accepted, and an engine with its rules settles conversations by the name. */
  ghost predicate SettledInFile(file: seq<byte>, hash: Label -> nat, max: nat, base: Name, host: Name, x: Hosts)
    requires |x.src| == 4 && |x.dst| == 4
  {
    && |file| >= HEADER_SIZE && Sound(Db(file, ReadHeader(file)))
    && SettledBy(LoadedRules(Db(file, ReadHeader(file)), hash, max), base, host, x)
  }

  lemma CarriedParts(c: Corpus, nextId: nat, built: nat, at: nat, max: nat, d: DomainRow)
    requires Carried(c, nextId, built, at, max, d)
    ensures Packable(MakePlan(c, nextId, built), at) && NulFree(MakePlan(c, nextId, built))
  {
  }

  /** What the loader opens is the file that was written. */
  lemma FileIsCompiled(c: Corpus, nextId: nat, built: nat, at: nat)
    requires Packable(MakePlan(c, nextId, built), at) && NulFree(MakePlan(c, nextId, built))
    ensures SerializeSpec(c, nextId, built, at).Some?
    ensures var file := SerializeSpec(c, nextId, built, at).value;
      && |file| >= HEADER_SIZE && Db(file, ReadHeader(file)) == Compiled(c, nextId, built, at)
      && Sound(Db(file, ReadHeader(file)))
  {
    hide MakePlan, Packable, NulFree, DbRoundTrip.Holds, FileFor, HeaderFor, Sound;
    PlanHolds(c, nextId, built, at);
    HoldsSound(Compiled(c, nextId, built, at), MakePlan(c, nextId, built));
  }

  lemma InFile(c: Corpus, nextId: nat, built: nat, at: nat, file: seq<byte>, hash: Label -> nat, max: nat,
               base: Name, host: Name, x: Hosts)
    requires |x.src| == 4 && |x.dst| == 4 && Packable(MakePlan(c, nextId, built), at)
    requires |file| >= HEADER_SIZE && Db(file, ReadHeader(file)) == Compiled(c, nextId, built, at)
    requires Sound(Compiled(c, nextId, built, at))
    requires SettledBy(LoadedRules(Compiled(c, nextId, built, at), hash, max), base, host, x)
    ensures SettledInFile(file, hash, max, base, host, x)
  {
    hide Packable, MakePlan, Compiled, Sound, LoadedRules, SettledBy;
  }

  // ------------------------------------------------------------------ corpus_pcap.py

  /** The names in the first `n` domain rows, as texts of the pool. */
  ghost function NamesIn(db: Db, n: nat): (names: set<Name>)
    requires Sound(db) && n <= db.hdr.domainCount
    requires forall i: nat :: i < n ==> DomainAt(db, i).nameOff < db.hdr.poolSize
  {
    set i: nat | i < n :: PoolString(db, DomainAt(db, i).nameOff)
  }

  ghost predicate NamesInPool(db: Db)
    requires Sound(db)
  {
    forall i: nat :: i < db.hdr.domainCount ==> DomainAt(db, i).nameOff < db.hdr.poolSize
  }

  /** `domains_of`: fails exactly if a name lies outside the pool. */
  method DomainsOf(db: Db) returns (names: Option<set<Name>>)
    requires Sound(db)
    ensures names.Some? <==> NamesInPool(db)
    ensures names.Some? ==> names.value == NamesIn(db, db.hdr.domainCount)
  {
    hide Sound, DomainAt, PoolString;
    var out: set<Name> := {};
    for i := 0 to db.hdr.domainCount
      invariant forall j: nat :: j < i ==> DomainAt(db, j).nameOff < db.hdr.poolSize
      invariant out == NamesIn(db, i)
    {
      var off := DomainAt(db, i).nameOff;
      if off >= db.hdr.poolSize {
        return None;
      }
      out := out + {PoolString(db, off)};
    }
    return Some(out);
  }

  /** One entry for each of the names, in some order. */
  predicate Lists(entries: seq<Entry>, names: set<Name>, dst: seq<byte>) {
    && |entries| == |names|
    && (forall k :: 0 <= k < |entries| ==> entries[k].host in names && entries[k].dst == dst)
    && (forall name :: name in names ==> Entry(name, dst) in entries)
  }

  method List(names: set<Name>, dst: seq<byte>) returns (entries: seq<Entry>)
    ensures Lists(entries, names, dst)
  {
    entries := [];
    var rest := names;
    while rest != {}
      invariant rest <= names && |entries| == |names| - |rest|
      invariant forall k :: 0 <= k < |entries| ==> entries[k].host in names && entries[k].dst == dst
      invariant forall name :: name in names ==> name in rest || Entry(name, dst) in entries
    {
      var name :| name in rest;
      entries := entries + [Entry(name, dst)];
      rest := rest - {name};
    }
  }

  /** The names in a compiled database are those of the rows it keeps. */
  lemma NamesAreKept(db: Db, p: Plan)
    requires DbRoundTrip.Holds(db, p)
    ensures Sound(db) && NamesInPool(db)
    ensures NamesIn(db, db.hdr.domainCount) == set d | d in p.domains :: d.name
  {
    hide Sound, DomainAt, PoolString, RowsFit, AppReadBack;
    forall i: nat | i < db.hdr.domainCount
      ensures DomainAt(db, i).nameOff < db.hdr.poolSize && PoolString(db, DomainAt(db, i).nameOff) == p.domains[i].name
    {
      assert DomainReadBack(db, i, p.domains[i]);
    }
    forall d | d in p.domains ensures d.name in NamesIn(db, db.hdr.domainCount) {
      var i: nat :| i < |p.domains| && p.domains[i] == d;
      assert PoolString(db, DomainAt(db, i).nameOff) == d.name;
    }
  }

  // ------------------------------------------------------------------ the capture is a match throughout

  /** The printer gives every entry a conversation of its own. */
  lemma PrintedApart(entries: seq<Entry>, frames: seq<seq<byte>>)
    requires forall k :: 0 <= k < |entries| ==> |entries[k].dst| == 4
    requires Printed(entries, frames)
    ensures AllApart(DLT_EN10MB, frames)
  {
    hide PrintedFrame, DecodeFrame, ClientHello;
    forall i, k | 0 <= i < k < |frames|
      ensures Apart(DecodeFrame(frames[i], DLT_EN10MB), DecodeFrame(frames[k], DLT_EN10MB))
    {
      PrintedDecodes(i, entries[i]);
      PrintedDecodes(k, entries[k]);
    }
  }

  /** A name the wire and the trie can carry. */
  predicate Replayable(name: Name) {
    1 <= |name| < SNI_CAP && 0 !in name && |Fields(name)| <= MAX_LABELS
  }

  /** A name that the buffer holds can be printed, and is read back. */
  lemma PrintedName(k: nat, e: Entry)
    requires |e.dst| == 4 && 1 <= |e.host| < SNI_CAP && 0 !in e.host && k < MAX_ENTRIES
    ensures PrintedFrame(k, e).Some?
    ensures DecodeFrame(PrintedFrame(k, e).value, DLT_EN10MB).Some?
    ensures SniOf(DecodeFrame(PrintedFrame(k, e).value, DLT_EN10MB).value) == Some(e.host)
  {
    hide PrintedFrame, HelloFrame, DecodeFrame, SniOf;
    var src := [10, 0, k / 250, k % 250 + 1];
    IsHelloFrame(k, e);
    WireRoundTrip(src, e.dst, FIRST_PORT + k, 443, 1000, e.host);
  }

  lemma IsHelloFrame(k: nat, e: Entry)
    requires |e.dst| == 4 && e.host != [] && k < MAX_ENTRIES
    ensures PrintedFrame(k, e) ==
            HelloFrame([10, 0, k / 250, k % 250 + 1], e.dst, FIRST_PORT + k, 443, 1000, e.host)
  {
    hide ClientHello, TcpPacket;
  }

  /** Every entry is the name of a row that the database keeps and the engine loads. */
  ghost predicate FromRows(entries: seq<Entry>, rows: seq<DomainRow>, max: nat) {
    && |entries| <= MAX_ENTRIES
    && forall k :: 0 <= k < |entries| ==>
         |entries[k].dst| == 4 && Replayable(entries[k].host) &&
         exists d :: d in rows && d.name == entries[k].host && d.lic <= max
  }

  lemma FromRowsPrints(entries: seq<Entry>, rows: seq<DomainRow>, max: nat)
    requires FromRows(entries, rows, max)
    ensures forall k :: 0 <= k < |entries| ==> |entries[k].dst| == 4 && PrintedFrame(k, entries[k]).Some?
  {
    hide PrintedFrame, Fields, DecodeFrame, SniOf;
    forall k | 0 <= k < |entries| ensures |entries[k].dst| == 4 && PrintedFrame(k, entries[k]).Some? {
      PrintedName(k, entries[k]);
    }
  }

  /** What is printed for entry `k` is a match of the compiled rules. */
  lemma EntryMatches(c: Corpus, nextId: nat, built: nat, at: nat, hash: Label -> nat, max: nat,
                     entries: seq<Entry>, k: nat)
    requires Usable(c, nextId) && Compiles(c, nextId, built, at)
    requires FromRows(entries, KeptDomains(c, built), max) && k < |entries|
    ensures |entries[k].dst| == 4 && PrintedFrame(k, entries[k]).Some?
    ensures var pk := DecodeFrame(PrintedFrame(k, entries[k]).value, DLT_EN10MB);
      pk.Some? && SniHit(CorpusRules(c, hash, built, max), pk.value).Some?
  {
    hide Usable, MakePlan, Packable, NulFree, KeptDomains, CorpusRules, NameHit, DecodeFrame, PrintedFrame, SniOf;
    hide Fields, DomainFits;
    PrintedName(k, entries[k]);
    var d :| d in KeptDomains(c, built) && d.name == entries[k].host && d.lic <= max;
    KeptIsClean(c, nextId, built, at, d);
    RowReaches(d, []);
    CompiledRuleHits(c, nextId, built, hash, max, d, d.name);
  }

  /** So the whole capture matches. */
  lemma EntriesAllMatch(c: Corpus, nextId: nat, built: nat, at: nat, hash: Label -> nat, max: nat,
                        entries: seq<Entry>, frames: seq<seq<byte>>)
    requires Usable(c, nextId) && Compiles(c, nextId, built, at)
    requires FromRows(entries, KeptDomains(c, built), max) && Printed(entries, frames)
    ensures AllMatch(CorpusRules(c, hash, built, max), DLT_EN10MB, frames)
  {
    hide Usable, Compiles, FromRows, KeptDomains, CorpusRules, SniHit, DecodeFrame, PrintedFrame;
    forall k | 0 <= k < |frames|
      ensures var pk := DecodeFrame(frames[k], DLT_EN10MB);
        pk.Some? && SniHit(CorpusRules(c, hash, built, max), pk.value).Some?
    {
      EntryMatches(c, nextId, built, at, hash, max, entries, k);
    }
  }

  /** All of `n` hellos were matched, each on a flow of its own. */
  predicate AllMatched(r: Engine, n: nat) {
    r.stats.sniMatched == n && r.stats.sniUnmatched == 0 && r.table.count + r.table.evictions == n
  }

  /**
    The corpus round trip, for every corpus: of a capture with a hello for each of any names
    the database keeps, every name is matched and none is unmatched; every hello starts a
    flow, which is live at the end or was evicted; and with the tiers of the source loaders
    every hello settles its flow.
  */
  lemma EveryNameMatches(c: Corpus, nextId: nat, built: nat, at: nat, max: nat, entries: seq<Entry>,
                         frames: seq<seq<byte>>)
    requires Usable(c, nextId) && Compiles(c, nextId, built, at)
    requires FromRows(entries, KeptDomains(c, built), max) && Printed(entries, frames)
    ensures Sound(Compiled(c, nextId, built, at))
    ensures AllMatched(Classified(Compiled(c, nextId, built, at), max, frames, DLT_EN10MB), |entries|)
    ensures Loaders.Tiered(c) ==>
      Classified(Compiled(c, nextId, built, at), max, frames, DLT_EN10MB).stats.finals == |entries|
  {
    hide *;
    CompilesParts(c, nextId, built, at);
    var db, rs := Compiled(c, nextId, built, at), CorpusRules(c, FnvLabel, built, max);
    FromRowsPrints(entries, KeptDomains(c, built), max);
    LoadedIsCorpus(c, nextId, built, at, FnvLabel, max);
    SameRules(db, max);
    EntriesAllMatch(c, nextId, built, at, FnvLabel, max, entries, frames);
    PrintedLength(entries, frames);
    PrintedApart(entries, frames);
    MatchesAreCounted(db, max, frames);
    if Loaders.Tiered(c) {
      EndToEnd.CorpusIsTiered(c, built, max, FnvLabel);
      TieredNamesDecide(rs);
    }
  }

  lemma SameRules(db: Db, max: nat)
    requires Sound(db)
    ensures RulesOf(db, max) == LoadedRules(db, FnvLabel, max)
  {
    hide Sound, LoadedRules, FnvLabel;
  }

  lemma CompilesParts(c: Corpus, nextId: nat, built: nat, at: nat)
    requires Compiles(c, nextId, built, at)
    ensures Packable(MakePlan(c, nextId, built), at) && NulFree(MakePlan(c, nextId, built))
  {
  }

  lemma PrintedLength(entries: seq<Entry>, frames: seq<seq<byte>>)
    requires forall k :: 0 <= k < |entries| ==> |entries[k].dst| == 4
    requires Printed(entries, frames)
    ensures |frames| == |entries|
  {
  }

  /** The program's counters after a capture of matched names in conversations of their own. */
  lemma MatchesAreCounted(db: Db, max: nat, frames: seq<seq<byte>>)
    requires Sound(db) && AllMatch(RulesOf(db, max), DLT_EN10MB, frames) && AllApart(DLT_EN10MB, frames)
    ensures var r := Classified(db, max, frames, DLT_EN10MB);
      && AllMatched(r, |frames|)
      && (NamesSettle(RulesOf(db, max)) && NamesPrevail(RulesOf(db, max)) ==> r.stats.finals == |frames|)
  {
    hide *;
    StartIsFresh();
    TupleHashIsDirectionBlind();
    IsRun(db, max, frames, DLT_EN10MB);
    ReplayMatchesAll(RulesOf(db, max), TupleHash, DLT_EN10MB, StartEngine(), frames);
    RunCountsFlows(RulesOf(db, max), TupleHash, DLT_EN10MB, StartEngine(), frames);
    StartsAtZero(StartEngine());
    AreMatched(Classified(db, max, frames, DLT_EN10MB), |frames|);
  }

  lemma AreMatched(r: Engine, n: nat)
    requires r.stats.sniMatched == n && r.stats.sniUnmatched == 0 && r.table.count + r.table.evictions == n
    ensures AllMatched(r, n)
  {
  }

  // ------------------------------------------------------------------ make check

  /** A load whose every kept name can be replayed. */
  ghost predicate Checkable(l: Loaders.Load, built: nat, at: nat, max: nat) {
    && Compiles(l.corpus, l.nextId, built, at) && l.nextId <= NO_APP && built <= max
    && (forall d :: d in KeptDomains(l.corpus, built) ==> Replayable(d.name))
    && |KeptNames(l.corpus, built)| <= MAX_ENTRIES
  }

  ghost function KeptNames(c: Corpus, built: nat): (names: set<Name>) {
    set d | d in KeptDomains(c, built) :: d.name
  }

  /** The capture with a hello for each name of the database. */
  ghost predicate IsReplay(db: Db, dst: seq<byte>, entries: seq<Entry>, frames: seq<seq<byte>>)
    requires Sound(db) && |dst| == 4
  {
    NamesInPool(db) && Lists(entries, NamesIn(db, db.hdr.domainCount), dst) && Printed(entries, frames)
  }

  /** A name outside the pool, or a name for which there is no packet. */
  ghost predicate Unprintable(db: Db, dst: seq<byte>, entries: seq<Entry>)
    requires Sound(db) && |dst| == 4
  {
    NamesInPool(db) ==>
      && Lists(entries, NamesIn(db, db.hdr.domainCount), dst)
      && exists k :: 0 <= k < |entries| && PrintedFrame(k, entries[k]).None?
  }

  /** The outcome of a replay: the classified capture, or none for a refused file or one with an unprintable name. */
  ghost predicate ReplayOf(file: seq<byte>, max: nat, dst: seq<byte>, r: Option<Engine>, entries: seq<Entry>,
                           frames: seq<seq<byte>>)
    requires |dst| == 4
  {
    if |file| >= HEADER_SIZE && Sound(Db(file, ReadHeader(file))) then
      var db := Db(file, ReadHeader(file));
      match r
      case None => Unprintable(db, dst, entries)
      case Some(e) => IsReplay(db, dst, entries, frames) && e == Classified(db, max, frames, DLT_EN10MB)
    else r.None?
  }

  /** The names of the database, printed and classified; it fails for a bad file or a name that cannot be printed. */
  method ReplayFile(file: seq<byte>, max: nat, dst: seq<byte>)
    returns (r: Option<Engine>, ghost entries: seq<Entry>, ghost frames: seq<seq<byte>>)
    requires |dst| == 4
    ensures r.Some? ==> |file| >= HEADER_SIZE && Sound(Db(file, ReadHeader(file)))
    ensures ReplayOf(file, max, dst, r, entries, frames)
  {
    hide Sound, ReadHeader, DomainAt, NamesIn, Classified, PrintedFrame, Printed;
    r, entries, frames := None, [], [];
    var result := Open(file);
    if result.Err? {
      return;
    }
    var db := result.value;
    SoundHeader(db);
    var names := DomainsOf(db);
    if names.None? {
      return;
    }
    var hosts := List(names.value, dst);
    entries := hosts;
    var capture := PrintCapture(hosts);
    if capture.None? {
      return;
    }
    frames := capture.value;
    var e := ClassifyFile(file, max, capture.value, DLT_EN10MB);
    r := Some(e.value);
  }

  /** Load, compile, replay, classify: every name in the database is matched, and settles its flow. */
  method CheckRoundTrip(aliases: map<Text, Text>, drops: set<Text>, actions: seq<Loaders.Action>, built: nat, at: nat,
                        max: nat, dst: seq<byte>)
    returns (file: Option<seq<byte>>, r: Option<Engine>, ghost entries: seq<Entry>, ghost frames: seq<seq<byte>>)
    requires forall j :: 0 <= j < |actions| ==> Loaders.NetOk(actions[j])
    requires |dst| == 4
    ensures file == SerializeSpec(Loaders.LoadAll(aliases, drops, actions).corpus,
                                  Loaders.LoadAll(aliases, drops, actions).nextId, built, at)
    ensures if file.None? then r.None? else ReplayOf(file.value, max, dst, r, entries, frames)
    ensures var l := Loaders.LoadAll(aliases, drops, actions);
      Checkable(l, built, at, max) ==> r.Some? && AllSettled(r.value, |KeptNames(l.corpus, built)|)
  {
    hide *;
    var b := Loaders.LoadSources(aliases, drops, actions);
    file := SerializeCorpus(b.Contents(), b.nextId, built, at);
    ghost var l := Loaders.LoadAll(aliases, drops, actions);
    r, entries, frames := None, [], [];
    if file.None? {
      if Checkable(l, built, at, max) {
        CheckableParts(l, built, at, max);
        FileIsCompiled(l.corpus, l.nextId, built, at);
      }
      return;
    }
    r, entries, frames := ReplayFile(file.value, max, dst);
    if Checkable(l, built, at, max) {
      CheckableParts(l, built, at, max);
      BuilderIsUsable(b);
      ReplaySettlesAll(l, built, at, max, dst, file.value, r, entries, frames);
    }
  }

  predicate AllSettled(r: Engine, n: nat) {
    AllMatched(r, n) && r.stats.finals == n
  }

  lemma CheckableParts(l: Loaders.Load, built: nat, at: nat, max: nat)
    requires Checkable(l, built, at, max)
    ensures l.nextId <= NO_APP && Compiles(l.corpus, l.nextId, built, at)
    ensures Packable(MakePlan(l.corpus, l.nextId, built), at) && NulFree(MakePlan(l.corpus, l.nextId, built))
  {
  }

  lemma NamesFit(l: Loaders.Load, built: nat, at: nat, max: nat, db: Db, dst: seq<byte>, entries: seq<Entry>)
    requires Checkable(l, built, at, max) && |dst| == 4
    requires DbRoundTrip.Holds(db, MakePlan(l.corpus, l.nextId, built))
    ensures Sound(db) && NamesInPool(db)
    ensures |NamesIn(db, db.hdr.domainCount)| == |KeptNames(l.corpus, built)|
    ensures Lists(entries, NamesIn(db, db.hdr.domainCount), dst) ==>
      FromRows(entries, KeptDomains(l.corpus, built), max)
  {
    hide Sound, NamesIn, Replayable, Compiles, KeptApps, KeptCidrs, KeptPayloads, InternAll, DbRoundTrip.Holds;
    NamesAreKept(db, MakePlan(l.corpus, l.nextId, built));
    assert NamesIn(db, db.hdr.domainCount) == KeptNames(l.corpus, built);
    forall d | d in KeptDomains(l.corpus, built) ensures d.lic <= max {
      assert Gate(l.corpus.meta, DomainApp, DomainLic, built)(d) && DomainLic(d) == d.lic;
    }
  }

  /** What `make check` looks for is so. */
  lemma ReplaySettlesAll(l: Loaders.Load, built: nat, at: nat, max: nat, dst: seq<byte>, file: seq<byte>,
                         r: Option<Engine>, entries: seq<Entry>, frames: seq<seq<byte>>)
    requires Checkable(l, built, at, max) && |dst| == 4
    requires Usable(l.corpus, l.nextId) && Loaders.Tiered(l.corpus)
    requires SerializeSpec(l.corpus, l.nextId, built, at) == Some(file)
    requires ReplayOf(file, max, dst, r, entries, frames)
    ensures r.Some? && AllSettled(r.value, |KeptNames(l.corpus, built)|)
  {
    hide *;
    CheckableParts(l, built, at, max);
    FileIsCompiled(l.corpus, l.nextId, built, at);
    var db := Compiled(l.corpus, l.nextId, built, at);
    ReplayOutcome(file, max, dst, r, entries, frames);
    PlanHolds(l.corpus, l.nextId, built, at);
    CompiledIs(l.corpus, l.nextId, built, at);
    NamesFit(l, built, at, max, db, dst, entries);
    if r.None? {
      NotUnprintable(db, dst, entries, KeptDomains(l.corpus, built), max);
    } else {
      ReplayParts(db, dst, entries, frames);
      EveryNameMatches(l.corpus, l.nextId, built, at, max, entries, frames);
      AreSettled(r.value, |entries|);
    }
  }

  lemma CompiledIs(c: Corpus, nextId: nat, built: nat, at: nat)
    requires Packable(MakePlan(c, nextId, built), at)
    ensures Compiled(c, nextId, built, at) == Reopened(MakePlan(c, nextId, built), at)
  {
  }

  lemma ReplayOutcome(file: seq<byte>, max: nat, dst: seq<byte>, r: Option<Engine>, entries: seq<Entry>,
                      frames: seq<seq<byte>>)
    requires |dst| == 4 && ReplayOf(file, max, dst, r, entries, frames)
    requires |file| >= HEADER_SIZE && Sound(Db(file, ReadHeader(file)))
    ensures var db := Db(file, ReadHeader(file));
      && (r.None? ==> Unprintable(db, dst, entries))
      && (r.Some? ==> IsReplay(db, dst, entries, frames) && r.value == Classified(db, max, frames, DLT_EN10MB))
  {
    hide Sound, Classified, IsReplay, Unprintable;
  }

  lemma NotUnprintable(db: Db, dst: seq<byte>, entries: seq<Entry>, rows: seq<DomainRow>, max: nat)
    requires Sound(db) && NamesInPool(db) && |dst| == 4
    requires Lists(entries, NamesIn(db, db.hdr.domainCount), dst) ==> FromRows(entries, rows, max)
    ensures !Unprintable(db, dst, entries)
  {
    hide Sound, NamesIn, FromRows, PrintedFrame, NamesInPool;
    if Unprintable(db, dst, entries) {
      FromRowsPrints(entries, rows, max);
    }
  }

  lemma ReplayParts(db: Db, dst: seq<byte>, entries: seq<Entry>, frames: seq<seq<byte>>)
    requires Sound(db) && |dst| == 4 && IsReplay(db, dst, entries, frames)
    ensures NamesInPool(db) && Lists(entries, NamesIn(db, db.hdr.domainCount), dst)
    ensures |entries| == |NamesIn(db, db.hdr.domainCount)| && forall k :: 0 <= k < |entries| ==> |entries[k].dst| == 4
    ensures Printed(entries, frames)
  {
    hide Sound, NamesIn, Printed;
  }

  lemma AreSettled(r: Engine, n: nat)
    requires AllMatched(r, n) && r.stats.finals == n
    ensures AllSettled(r, n)
  {
  }
}
