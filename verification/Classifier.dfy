/**
  The packet loop of src/engine/main.c over the real indexes and the real flow table.
  Each method is tied to the corresponding function of `Verdicts`.
*/
module Classifier {
  import opened Wrappers
  import opened Bits
  import opened Claims
  import opened Tls
  import opened Decode
  import opened Flows
  import opened Verdicts
  import DomainTrie
  import TrieSpec
  import Lpm
  import PayloadSpec
  import Payload

  ghost function Objects(trie: DomainTrie.Trie, pset: Payload.PayloadSet,
                         lpm4: Lpm.PrefixTable, lpm6: Lpm.PrefixTable): (r: set<object>)
    reads trie, trie.table, lpm4, lpm6, pset, pset.buckets
  {
    {trie, trie.table, trie.table.edges, trie.nodes, pset, lpm4, lpm4.nodes, lpm6, lpm6.nodes} +
    (set b | b in pset.buckets :: b as object) + (set b | b in pset.buckets :: b.slots as object)
  }

  /** The four indexes, which the loop only reads, and the stages that read them. */
  class Indexes {
    const trie: DomainTrie.Trie
    const pset: Payload.PayloadSet
    const lpm4: Lpm.PrefixTable
    const lpm6: Lpm.PrefixTable

    ghost const repr: set<object>   // the objects the indexes are made of

    constructor (trie: DomainTrie.Trie, pset: Payload.PayloadSet, lpm4: Lpm.PrefixTable, lpm6: Lpm.PrefixTable)
      requires trie.Valid() && pset.Valid()
      requires lpm4.Valid() && lpm4.bits == 32 && lpm6.Valid() && lpm6.bits == 128
      ensures Valid()
      ensures this.trie == trie && this.pset == pset && this.lpm4 == lpm4 && this.lpm6 == lpm6
      ensures repr == Objects(trie, pset, lpm4, lpm6)
    {
      hide DomainTrie.Trie.Valid, Payload.PayloadSet.Valid, Lpm.PrefixTable.Valid;
      this.trie, this.pset, this.lpm4, this.lpm6 := trie, pset, lpm4, lpm6;
      repr := Objects(trie, pset, lpm4, lpm6);
    }

    ghost predicate Valid()
      reads repr
    {
      && {trie, pset, lpm4, lpm6} <= repr
      && {trie.table, trie.nodes, lpm4.nodes, lpm6.nodes} <= repr
      && trie.table.edges in repr
      && (forall b :: b in pset.buckets ==> b in repr && b.slots in repr)
      && trie.Valid() && pset.Valid()
      && lpm4.Valid() && lpm4.bits == 32 && lpm6.Valid() && lpm6.bits == 128
    }

    ghost function Rules(): (r: RuleSet)
      reads trie, lpm4, lpm6, pset
    {
      RuleSet(trie.hash, trie.rules, lpm4.rules, lpm6.rules, pset.rules)
    }

    /** The protocol on the wire, from the first payload that matches. */
    method UsePayload(v: Verdict, pk: Packet, st: Stats) returns (w: Verdict, st': Stats)
      requires Valid()
      ensures w == PayloadStage(Rules(), v, pk) && st' == CountPayload(Rules(), v, pk, st)
    {
      hide DomainTrie.Trie.Valid, Payload.PayloadSet.Valid, Lpm.PrefixTable.Valid, PayloadSpec.ScanBuckets;
      w, st' := v, st;
      if !v.evPayload && pk.payload.Some? && |pk.payload.value| >= 4 {
        var pr := pset.Lookup(pk.payload.value);
        if pr.Some? {
          var c := pr.value.claim;
          w := w.(evPayload := true, masterApp := c.app, masterTier := c.tier, masterConf := c.conf);
          st' := st'.(payloadMatched := st'.payloadMatched + 1);
          if v.app == NO_APP {
            st' := st'.(masterOnly := st'.masterOnly + 1);
          }
        }
      }
    }

    /** The owner of the destination address, or else of the source. */
    method LookupAddress(pk: Packet) returns (h: Option<Lpm.LpmHit>)
      requires Valid()
      ensures h == IpHit(Rules(), pk)
    {
      hide DomainTrie.Trie.Valid, Payload.PayloadSet.Valid, Lpm.PrefixTable.Valid, Lpm.LpmScan;
      if pk.ipVersion == 6 {
        h := lpm6.Lookup(pk.dstIp);
        if h.None? {
          h := lpm6.Lookup(pk.srcIp);
        }
      } else {
        h := lpm4.Lookup(pk.dstIp);
        if h.None? {
          h := lpm4.Lookup(pk.srcIp);
        }
      }
    }

    method UseAddress(v: Verdict, pk: Packet, st: Stats) returns (w: Verdict, st': Stats)
      requires Valid()
      ensures w == IpStage(Rules(), v, pk) && st' == CountIp(Rules(), v, pk, st)
    {
      hide DomainTrie.Trie.Valid, Payload.PayloadSet.Valid, Lpm.PrefixTable.Valid, IpHit;
      w, st' := v, st;
      if !v.evIp {
        var ipr := LookupAddress(pk);
        if ipr.Some? {
          var c := ipr.value.claim;
          st' := st'.(ipMatched := st'.ipMatched + 1);
          w := w.(evIp := true);
          if EvidenceIsBetter(w, c.tier, c.conf) {
            w := w.(app := c.app, tier := c.tier, conf := c.conf, lic := c.lic);
            st' := st'.(provisional := st'.provisional + 1);
          }
        }
      }
    }

    method LookupName(name: seq<byte>) returns (h: Option<TrieSpec.Hit>)
      requires Valid()
      ensures h == NameHit(Rules(), name)
    {
      hide DomainTrie.Trie.Valid, Payload.PayloadSet.Valid, Lpm.PrefixTable.Valid, TrieSpec.Scan, DomainTrie.HashedPath;
      h := trie.Lookup(name);
    }

    method UseSni(v: Verdict, pk: Packet, st: Stats) returns (w: Verdict, st': Stats)
      requires Valid()
      ensures w == SniStage(Rules(), v, pk) && st' == CountSni(Rules(), v, pk, st)
    {
      hide DomainTrie.Trie.Valid, Payload.PayloadSet.Valid, Lpm.PrefixTable.Valid, SniOf, NameHit;
      w, st' := v, st;
      var sni := ReadSni(pk);
      if sni.Some? {
        st' := st'.(clientHellos := st'.clientHellos + 1, sniFound := st'.sniFound + 1);
        var r := LookupName(sni.value);
        if r.Some? {
          var c := r.value.claim;
          w := w.(evSni := true);
          if EvidenceIsBetter(w, c.tier, c.conf) {
            if w.app != NO_APP && w.app != c.app {
              st' := st'.(revised := st'.revised + 1);
            }
            w := w.(app := c.app, tier := c.tier, conf := c.conf, lic := c.lic);
          }
          w := w.(isFinal := w.tier <= TIER_B);
          st' := st'.(sniMatched := st'.sniMatched + 1, finals := st'.finals + One(w.isFinal));
        } else {
          st' := st'.(sniUnmatched := st'.sniUnmatched + 1);
        }
      }
    }

    /** The three stages, for a packet that is still looked at. */
    method Inspect(f: Flow, pk: Packet, st: Stats) returns (w: Verdict, st': Stats)
      requires Valid()
      ensures w == FlowStep(Rules(), f, pk).verdict && st' == CountFlow(Rules(), f, pk, st)
    {
      hide DomainTrie.Trie.Valid, Payload.PayloadSet.Valid, Lpm.PrefixTable.Valid, PayloadStage;
      hide IpStage, SniStage, CountPayload, CountIp, CountSni;
      w, st' := f.verdict, st;
      if !(f.verdict.isFinal || Bump(f.packets) > PACKET_BUDGET) {
        w, st' := UsePayload(w, pk, st');
        w, st' := UseAddress(w, pk, st');
        w, st' := UseSni(w, pk, st');
      }
    }
  }

  /** The server name in a packet, read out of the 256-byte buffer on the stack. */
  method ReadSni(pk: Packet) returns (name: Option<seq<byte>>)
    ensures name == SniOf(pk)
  {
    hide Sni;
    if pk.l4proto != L4_TCP || pk.payload.None? || pk.payload.value == [] {
      return None;
    }
    var sni := new byte[SNI_CAP](_ => 0);
    var ok := NgfwTlsSni(pk.payload.value, sni);
    if !ok {
      return None;
    }
    var n := StrLen(sni);
    SniHasNoNul(pk.payload.value, SNI_CAP);
    SameStrLen(sni[..], Sni(pk.payload.value, SNI_CAP).value, n);
    return Some(sni[..n]);
  }

  lemma SniHasNoNul(buf: seq<byte>, cap: nat)
    ensures Sni(buf, cap).Some? ==> 0 !in Sni(buf, cap).value
  {
    hide FindHost;
  }

  /** The length of the C string in the buffer is the length of the name. */
  lemma SameStrLen(now: seq<byte>, s: seq<byte>, n: nat)
    requires |s| < |now| && now[..|s|] == s && now[|s|] == 0 && 0 !in s
    requires n < |now| && now[n] == 0 && 0 !in now[..n]
    ensures now[..n] == s
  {
    FirstNul(now, s, n);
  }

  class Classifier {
    const ix: Indexes
    const ft: FlowTable
    var stats: Stats

    ghost predicate Valid()
      reads this, ft, ft.slots, ix.repr
    {
      && ix.Valid() && ft.Valid()
      && this !in ix.repr && ft !in ix.repr && ft.slots !in ix.repr
    }

    ghost function State(): (r: Engine)
      reads this, ft, ft.slots
    {
      Engine(ft.State(), stats)
    }

    constructor (ix: Indexes, flowHash: Tuple5 -> nat)
      requires ix.Valid() && DirectionBlind(flowHash)
      ensures Valid() && fresh(ft) && fresh(ft.slots) && ft.hash == flowHash && this.ix == ix
      ensures State() == StartEngine()
    {
      hide Indexes.Valid, FlowTable.Valid, IsPow2, FreeSlots;
      this.ix := ix;
      ft := new FlowTable(flowHash, 65536);
      stats := NO_STATS;
      new;
      StartSize(ft);
    }

    /** The part of an iteration after a successful decode. */
    method Track(pk: Packet)
      requires Valid()
      modifies this`stats, ft, ft.slots
      ensures Valid() && ix.Rules() == old(ix.Rules()) && ft.slots == old(ft.slots)
      ensures WINDOW < |old(ft.State()).slots|
      ensures State() == StepPacket(ix.Rules(), ft.hash, old(State()), pk)
    {
      hide Indexes.Valid, FlowTable.Valid, Enter, CountFlow, Classify, NewFlow;
      var i, isNew := ft.Lookup(pk);
      var f := ft.slots[i];
      var v, st := ix.Inspect(f, pk, stats);
      stats := st;
      ft.Annotate(i, Bump(f.packets), v);
    }

    /** One iteration of the loop. */
    method Process(frame: seq<byte>, linktype: nat)
      requires Valid()
      modifies this`stats, ft, ft.slots
      ensures Valid() && ix.Rules() == old(ix.Rules()) && ft.slots == old(ft.slots)
      ensures WINDOW < |old(State()).table.slots|
      ensures State() == Step(ix.Rules(), ft.hash, linktype, old(State()), frame)
    {
      hide Indexes.Valid, FlowTable.Valid, DecodeFrame, StepPacket;
      RoomyTable(ft);
      stats := stats.(packets := stats.packets + 1);
      var pk := DecodePacket(frame, linktype);
      if pk.None? {
        stats := stats.(undecodable := stats.undecodable + 1);
        return;
      }
      stats := stats.(decoded := stats.decoded + 1,
                      tcp := stats.tcp + One(pk.value.l4proto == L4_TCP),
                      udp := stats.udp + One(pk.value.l4proto == L4_UDP));
      Track(pk.value);
    }
  }

  /** The whole loop over a capture. */
  method ClassifyCapture(c: Classifier, frames: seq<seq<byte>>, linktype: nat)
    requires c.Valid()
    modifies c`stats, c.ft, c.ft.slots
    ensures c.Valid() && c.ix.Rules() == old(c.ix.Rules())
    ensures WINDOW < |old(c.State()).table.slots|
    ensures c.State() == Run(c.ix.Rules(), c.ft.hash, linktype, old(c.State()), frames)
  {
    hide Classifier.Valid, Step;
    RoomyClassifier(c);
    ghost var e, rs := c.State(), c.ix.Rules();
    for n := 0 to |frames|
      invariant c.Valid() && c.ix.Rules() == rs && c.ft.slots == old(c.ft.slots)
      invariant c.State() == Run(rs, c.ft.hash, linktype, e, frames[..n])
    {
      assert frames[..n + 1][..n] == frames[..n];
      c.Process(frames[n], linktype);
    }
    assert frames[..|frames|] == frames;
  }

  lemma RoomyClassifier(c: Classifier)
    requires c.Valid()
    ensures WINDOW < |c.State().table.slots|
  {
    RoomyTable(c.ft);
  }

  method DecodePacket(frame: seq<byte>, linktype: nat) returns (pk: Option<Packet>)
    ensures pk == DecodeFrame(frame, linktype)
  {
    hide DecodeFrame;
    var out := new PacketBuffer();
    var ok := out.NgfwDecode(frame, linktype);
    pk := if ok then Some(out.Value()) else None;
  }

  /** Twice 65536 is a power of two, so the table is no bigger. */
  lemma StartSize(ft: FlowTable)
    requires ft.Valid() && FLOW_SLOTS <= ft.slots.Length
    requires ft.slots.Length == 1024 || ft.slots.Length / 2 < FLOW_SLOTS
    ensures ft.slots.Length == FLOW_SLOTS
  {
    hide TableOk;
    Pow2Of131072();
    Pow2Squeezed(ft.slots.Length, FLOW_SLOTS);
  }

  lemma RoomyTable(ft: FlowTable)
    requires ft.Valid()
    ensures WINDOW < |ft.State().slots| && WINDOW < ft.slots.Length
  {
    Roomy(ft.State(), ft.hash);
  }
}
