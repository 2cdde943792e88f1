/**
  The whole classifier (`main` in src/engine/main.c): open the database, build the three
  indexes within the license limit, classify a capture. What was proved of the parts is
  said here of the program.
*/
module Program {
  import opened Wrappers
  import opened Bits
  import opened DbFormat
  import opened SigdbLoad
  import opened Flows
  import opened Verdicts
  import opened FlowHistory
  import opened EngineRuns
  import opened Loading
  import opened Classifier
  import opened Hashing
  import opened SigcText
  import opened Sigc
  import opened Serialize
  import opened DbRoundTrip
  import opened Gates
  import opened LoadedCorpus
  import EndToEnd
  import Loaders
  import NameRules
  import DomainTrie
  import Payload
  import Lpm

  /** The rules the engine has after loading a database with a license limit. */
  function RulesOf(db: Db, max: nat): (r: RuleSet)
    requires Sound(db)
  {
    LoadedRules(db, FnvLabel, max)
  }

  /** The flow table and the counters after a capture. */
  function Classified(db: Db, max: nat, frames: seq<seq<byte>>, linktype: nat): (r: Engine)
    requires Sound(db)
  {
    Run(RulesOf(db, max), TupleHash, linktype, StartEngine(), frames)
  }

  // ------------------------------------------------------------------ the program

  /**
    From the bytes of a database and of a capture's frames to the flow table and the
    counters: what the program computes is the model's run over the rules in the file, from
    an empty flow table. It gives up exactly on files that are not sound.
  */
  method ClassifyFile(file: seq<byte>, max: nat, frames: seq<seq<byte>>, linktype: nat)
    returns (r: Result<Engine, OpenError>)
    ensures r.Err? <==> !(|file| >= HEADER_SIZE && Sound(Db(file, ReadHeader(file))))
    ensures r.Ok? ==> r.value == Classified(Db(file, ReadHeader(file)), max, frames, linktype)
  {
    hide *;
    var db0 := Open(file);
    match db0
    case Err(e) =>
      return Err(e);
    case Ok(db) =>
      SoundHeader(db);
      var e := ClassifyWith(db, max, frames, linktype);
      return Ok(e);
  }

  method ClassifyWith(db: Db, max: nat, frames: seq<seq<byte>>, linktype: nat) returns (e: Engine)
    requires Sound(db)
    ensures e == Classified(db, max, frames, linktype)
  {
    hide Run, RulesOf, Sound, Classifier.Valid, FlowTable.Valid, StartEngine, FreeSlots, TupleHash;
    var c := Assemble(db, max);
    ClassifyCapture(c, frames, linktype);
    e := Engine(Table(c.ft.slots[..], c.ft.count, c.ft.evictions), c.stats);
    assert e == c.State();
  }

  lemma SoundHeader(db: Db)
    requires Sound(db)
    ensures |db.base| >= HEADER_SIZE && db == Db(db.base, ReadHeader(db.base))
  {
  }

  /** The indexes from the database, and an empty flow table. */
  method Assemble(db: Db, max: nat) returns (c: Classifier)
    requires Sound(db)
    ensures fresh(c) && fresh(c.ft) && fresh(c.ft.slots) && c.Valid() && c.ft.hash == TupleHash
    ensures c.ix.Rules() == RulesOf(db, max)
    ensures c.State() == StartEngine()
  {
    hide Sound, NameRules.HashedRules, LoadedNames, LoadedPrefixes, LoadedPayloads, StartEngine, FreeSlots;
    hide DomainTrie.Trie.Valid, Payload.PayloadSet.Valid, Lpm.PrefixTable.Valid, Indexes.Valid, FlowTable.Valid;
    hide TupleHash, EdgeHash, PayloadMix, FnvLabel, DirectionBlind;
    var trie := BuildTrie(db, FnvLabel, EdgeHash, max);
    var pset := BuildPayload(db, PayloadMix, max);
    var lpm4, lpm6 := BuildLpm(db, max);
    var ix := new Indexes(trie, pset, lpm4, lpm6);
    TupleHashIsDirectionBlind();
    c := new Classifier(ix, TupleHash);
  }

  // ------------------------------------------------------------------ what holds of it

  lemma IsRun(db: Db, max: nat, frames: seq<seq<byte>>, linktype: nat)
    requires Sound(db)
    ensures WINDOW < |StartEngine().table.slots| == FLOW_SLOTS && RulesOf(db, max).hash == FnvLabel
    ensures Classified(db, max, frames, linktype) ==
            Run(RulesOf(db, max), TupleHash, linktype, StartEngine(), frames)
    ensures Created(db, max, frames, linktype) ==
            Creations(RulesOf(db, max), TupleHash, linktype, StartEngine(), frames)
  {
    hide Run, Creations, Sound, TupleHash;
  }

  /** The flows that the program starts in a capture. */
  function Created(db: Db, max: nat, frames: seq<seq<byte>>, linktype: nat): (n: nat)
    requires Sound(db)
  {
    Creations(RulesOf(db, max), TupleHash, linktype, StartEngine(), frames)
  }

  /** The summary that is printed adds up, for every database and every capture. */
  lemma ProgramAddsUp(db: Db, max: nat, frames: seq<seq<byte>>, linktype: nat)
    requires Sound(db)
    ensures var r, created := Classified(db, max, frames, linktype), Created(db, max, frames, linktype);
      && r.stats.packets == |frames| == r.stats.decoded + r.stats.undecodable
      && r.stats.sniFound == r.stats.sniMatched + r.stats.sniUnmatched
      && InUse(r.table.slots) == r.table.count
      && r.table.count + r.table.evictions == created
      && r.stats.finals <= created && r.stats.ipMatched <= created && r.stats.payloadMatched <= created
      && created <= r.stats.decoded
  {
    hide *;
    IsRun(db, max, frames, linktype);
    StartIsFresh();
    TupleHashIsDirectionBlind();
    SummaryAddsUp(RulesOf(db, max), TupleHash, linktype, StartEngine(), frames);
  }

  /**
    With either database, after the capture: the same conversation is tracked in slot `s`,
    and its verdict is final with both, the same, or with neither.
  */
  ghost predicate SettleAlike(db: Db, other: Db, max: nat, frames: seq<seq<byte>>, linktype: nat, s: nat) {
    && Sound(db) && Sound(other)
    && var a, b := Classified(db, max, frames, linktype).table.slots,
                   Classified(other, max, frames, linktype).table.slots;
       && s < |a| && s < |b| && SameKey(a[s], b[s]) && (a[s].inUse ==> SameFinal(a[s].verdict, b[s].verdict))
  }

  /** Two databases with the same name rules, among which names decide: the same flows settle, the same way. */
  lemma ProgramFinalsIgnoreAddresses(db: Db, other: Db, max: nat, frames: seq<seq<byte>>, linktype: nat, s: nat)
    requires Sound(db) && Sound(other) && s < FLOW_SLOTS
    requires RulesOf(db, max).names == RulesOf(other, max).names
    requires NamesSettle(RulesOf(db, max)) && NamesPrevail(RulesOf(db, max)) && NamesPrevail(RulesOf(other, max))
    ensures SettleAlike(db, other, max, frames, linktype, s)
  {
    hide *;
    IsRun(db, max, frames, linktype);
    IsRun(other, max, frames, linktype);
    StartIsFresh();
    TupleHashIsDirectionBlind();
    FinalsIgnoreAddresses(RulesOf(db, max), RulesOf(other, max), TupleHash, linktype, StartEngine(), frames, s);
    AreAlike(db, other, max, frames, linktype, s);
  }

  lemma AreAlike(db: Db, other: Db, max: nat, frames: seq<seq<byte>>, linktype: nat, s: nat)
    requires Sound(db) && Sound(other)
    requires var a, b := Classified(db, max, frames, linktype).table.slots,
                         Classified(other, max, frames, linktype).table.slots;
      s < |a| && s < |b| && SameKey(a[s], b[s]) && (a[s].inUse ==> SameFinal(a[s].verdict, b[s].verdict))
    ensures SettleAlike(db, other, max, frames, linktype, s)
  {
    hide Sound, Classified, SameKey, SameFinal;
  }

  /** A compiled database, as the loader opens it. */
  ghost predicate Compiles(c: Corpus, nextId: nat, built: nat, at: nat) {
    Packable(MakePlan(c, nextId, built), at) && NulFree(MakePlan(c, nextId, built))
  }

  /**
    Corpora from the source loaders of which the same domain rules are kept, whatever else
    is in them and however many apps they know: the databases compiled from them settle the
    same flows of every capture, the same way.
  */
  lemma CorporaSettleAlike(c: Corpus, cNext: nat, cAt: nat, d: Corpus, dNext: nat, dAt: nat, built: nat, max: nat,
                           frames: seq<seq<byte>>, linktype: nat, s: nat)
    requires Compiles(c, cNext, built, cAt) && Compiles(d, dNext, built, dAt) && s < FLOW_SLOTS
    requires Loaders.Tiered(c) && Loaders.Tiered(d) && KeptDomains(c, built) == KeptDomains(d, built)
    ensures SettleAlike(Compiled(c, cNext, built, cAt), Compiled(d, dNext, built, dAt), max, frames, linktype, s)
  {
    hide Packable, NulFree, MakePlan, Compiled, Sound, LoadedRules, CorpusNames, CorpusPrefixes, NameRules.HashedRules;
    hide Classified, Loaders.Tiered, NamesSettle, NamesPrevail, TieredRules, SameKey, SameFinal, KeptDomains;
    LoadedIsCorpus(c, cNext, built, cAt, FnvLabel, max);
    LoadedIsCorpus(d, dNext, built, dAt, FnvLabel, max);
    EndToEnd.CorpusIsTiered(c, built, max, FnvLabel);
    EndToEnd.CorpusIsTiered(d, built, max, FnvLabel);
    TieredNamesDecide(CorpusRules(c, FnvLabel, built, max));
    TieredNamesDecide(CorpusRules(d, FnvLabel, built, max));
    SameNames(c, d, built, max);
    ProgramFinalsIgnoreAddresses(Compiled(c, cNext, built, cAt), Compiled(d, dNext, built, dAt), max,
                                 frames, linktype, s);
  }

  /** A builder as `Loaders.LoadSources` leaves it. */
  ghost predicate LoadedFrom(b: Builder, aliases: map<Text, Text>, drops: set<Text>, actions: seq<Loaders.Action>)
    reads b
    requires forall j :: 0 <= j < |actions| ==> Loaders.NetOk(actions[j])
  {
    && b.Valid() && b.Contents() == Loaders.LoadAll(aliases, drops, actions).corpus
    && Attached(b.Contents(), b.registered) && Loaders.Tiered(b.Contents())
  }

  /**
    Address feeds and payload corpora settle nothing: the database compiled with such
    sources, and all the apps they bring along, settles the same flows of every capture in
    the same way as the one compiled without them.
  */
  lemma FeedsSettleNothing(b: Builder, d: Builder, aliases: map<Text, Text>, drops: set<Text>,
                           actions: seq<Loaders.Action>, more: seq<Loaders.Action>, built: nat, bAt: nat, dAt: nat,
                           max: nat, frames: seq<seq<byte>>, linktype: nat, s: nat)
    requires forall j :: 0 <= j < |actions + more| ==> Loaders.NetOk((actions + more)[j])
    requires forall j :: 0 <= j < |actions| ==> Loaders.NetOk(actions[j])
    requires forall a :: a in more ==> !a.AddDomain?
    requires LoadedFrom(b, aliases, drops, actions) && LoadedFrom(d, aliases, drops, actions + more)
    requires Compiles(b.Contents(), b.nextId, built, bAt) && Compiles(d.Contents(), d.nextId, built, dAt)
    requires s < FLOW_SLOTS
    ensures SettleAlike(Compiled(b.Contents(), b.nextId, built, bAt), Compiled(d.Contents(), d.nextId, built, dAt),
                        max, frames, linktype, s)
  {
    hide *;
    Loaders.NamelessSources(aliases, drops, actions, more);
    LoadedParts(b, aliases, drops, actions);
    LoadedParts(d, aliases, drops, actions + more);
    KeptByLicense(b.Contents(), b.nextId, b.registered, built);
    KeptByLicense(d.Contents(), d.nextId, d.registered, built);
    CorporaSettleAlike(b.Contents(), b.nextId, bAt, d.Contents(), d.nextId, dAt, built, max, frames, linktype, s);
  }

  lemma LoadedParts(b: Builder, aliases: map<Text, Text>, drops: set<Text>, actions: seq<Loaders.Action>)
    requires forall j :: 0 <= j < |actions| ==> Loaders.NetOk(actions[j])
    requires LoadedFrom(b, aliases, drops, actions)
    ensures b.Contents().domains == Loaders.LoadAll(aliases, drops, actions).corpus.domains
    ensures DenseIds(b.Contents().meta, b.nextId) && LicensesAreMinimal(b.Contents().meta, b.registered)
    ensures Attached(b.Contents(), b.registered) && Loaders.Tiered(b.Contents())
  {
    hide Loaders.LoadAll, Attached, Loaders.Tiered, DenseIds, LicensesAreMinimal;
  }

  lemma SameNames(c: Corpus, d: Corpus, built: nat, max: nat)
    requires KeptDomains(c, built) == KeptDomains(d, built)
    ensures CorpusNames(c, built, max) == CorpusNames(d, built, max)
  {
    hide KeptDomains;
  }

  /** The license gates, seen from outside: both ways of applying a level classify every capture alike. */
  lemma LicenseLevelsClassifyAlike(c: Corpus, nextId: nat, lo: nat, hi: nat, atLo: nat, atHi: nat, m: nat,
                                   frames: seq<seq<byte>>, linktype: nat)
    requires lo <= hi && lo <= m && AllRespect(c, hi)
    requires Compiles(c, nextId, lo, atLo) && Compiles(c, nextId, hi, atHi)
    ensures Sound(Compiled(c, nextId, lo, atLo)) && Sound(Compiled(c, nextId, hi, atHi))
    ensures Classified(Compiled(c, nextId, lo, atLo), m, frames, linktype) ==
            Classified(Compiled(c, nextId, hi, atHi), lo, frames, linktype)
  {
    hide Packable, NulFree, MakePlan, Compiled, Sound, LoadedRules, AllRespect, Run, StartEngine;
    LicenseGatesAgree(c, nextId, lo, hi, atLo, atHi, FnvLabel, m);
  }
}
