/**
  The per-packet loop of the classifier (src/engine/main.c) as a function of the rules,
  the flow and the packet: which evidence each stage takes, and what is counted.
*/
module Verdicts {
  import opened Wrappers
  import opened Bits
  import opened Claims
  import opened Labels
  import opened TrieSpec
  import opened DomainTrie
  import opened AddressBits
  import Lpm
  import opened PayloadSpec
  import opened Tls
  import opened Decode
  import opened Flows

  const PACKET_BUDGET := 12
  const SNI_CAP := 256

  /** What the three indexes hold, as rule lists in order of loading. */
  datatype RuleSet = RuleSet(
    hash: Label -> nat,
    names: seq<TrieSpec.Rule<nat>>,
    v4: seq<TrieSpec.Rule<bit>>,
    v6: seq<TrieSpec.Rule<bit>>,
    payloads: seq<PayRule>)

  function NameHit(rs: RuleSet, name: Name): (r: Option<Hit>) {
    match HashedPath(rs.hash, name)
    case None => None
    case Some(p) => Scan(rs.names, p)
  }

  /** The prefix table for the packet's IP version, asked for the destination, then the source. */
  function AddrHit(rs: RuleSet, version: byte, ip: Ip): (r: Option<Lpm.LpmHit>) {
    if version == 6 then Lpm.LpmScan(rs.v6, ip, 128) else Lpm.LpmScan(rs.v4, ip, 32)
  }

  function IpHit(rs: RuleSet, pk: Packet): (r: Option<Lpm.LpmHit>) {
    var d := AddrHit(rs, pk.ipVersion, pk.dstIp);
    if d.Some? then d else AddrHit(rs, pk.ipVersion, pk.srcIp)
  }

  function PayloadHit(rs: RuleSet, pk: Packet): (r: Option<PayHit>) {
    if pk.payload.Some? then PayScan(rs.payloads, pk.payload.value) else None
  }

  /** The server name in a packet: TCP with a ClientHello in its payload. */
  function SniOf(pk: Packet): (r: Option<Name>) {
    if pk.l4proto == L4_TCP && pk.payload.Some? && pk.payload.value != []
    then Sni(pk.payload.value, SNI_CAP) else None
  }

  function SniHit(rs: RuleSet, pk: Packet): (r: Option<Hit>) {
    match SniOf(pk)
    case None => None
    case Some(name) => NameHit(rs, name)
  }

  // ------------------------------------------------------------------ the stages

  /** Evidence is taken on a stronger tier, or on the same tier with more confidence. */
  predicate EvidenceIsBetter(v: Verdict, tier: byte, conf: byte) {
    v.app == NO_APP || tier < v.tier || (tier == v.tier && conf > v.conf)
  }

  function Take(v: Verdict, c: Claim): (r: Verdict) {
    if EvidenceIsBetter(v, c.tier, c.conf)
    then v.(app := c.app, tier := c.tier, conf := c.conf, lic := c.lic) else v
  }

  /** Payload prefix: the protocol on the wire, once per flow. */
  function PayloadStage(rs: RuleSet, v: Verdict, pk: Packet): (r: Verdict) {
    if v.evPayload then v
    else
      match PayloadHit(rs, pk)
      case None => v
      case Some(h) =>
        v.(evPayload := true, masterApp := h.claim.app, masterTier := h.claim.tier, masterConf := h.claim.conf)
  }

  /** Address ownership, once per flow. */
  function IpStage(rs: RuleSet, v: Verdict, pk: Packet): (r: Verdict) {
    if v.evIp then v
    else
      match IpHit(rs, pk)
      case None => v
      case Some(h) => Take(v.(evIp := true), h.claim)
  }

  /** A matched server name may settle the flow. */
  function SniStage(rs: RuleSet, v: Verdict, pk: Packet): (r: Verdict) {
    match SniHit(rs, pk)
    case None => v
    case Some(h) =>
      var w := Take(v.(evSni := true), h.claim);
      w.(isFinal := w.tier <= TIER_B)
  }

  function Classify(rs: RuleSet, v: Verdict, pk: Packet): (r: Verdict) {
    SniStage(rs, IpStage(rs, PayloadStage(rs, v, pk), pk), pk)
  }

  /** `packets` is a 16-bit counter, and wraps. */
  function Bump(packets: u16): (r: u16) {
    (packets + 1) % 0x1_0000
  }

  /** The matchers look at a packet unless the flow is settled or has used up its budget. */
  predicate Inspected(f: Flow) {
    !f.verdict.isFinal && Bump(f.packets) <= PACKET_BUDGET
  }

  function FlowStep(rs: RuleSet, f: Flow, pk: Packet): (r: Flow) {
    f.(packets := Bump(f.packets),
       verdict := if Inspected(f) then Classify(rs, f.verdict, pk) else f.verdict)
  }

  // ------------------------------------------------------------------ counters

  datatype Stats = Stats(
    packets: nat, decoded: nat, undecodable: nat, tcp: nat, udp: nat,
    clientHellos: nat, sniFound: nat, sniMatched: nat, sniUnmatched: nat,
    ipMatched: nat, payloadMatched: nat, masterOnly: nat,
    provisional: nat, finals: nat, revised: nat)

  const NO_STATS := Stats(0, 0, 0, 0, 0, 0, 0, 0, 0, 0, 0, 0, 0, 0, 0)

  function CountPayload(rs: RuleSet, v: Verdict, pk: Packet, st: Stats): (r: Stats) {
    var hit := !v.evPayload && PayloadHit(rs, pk).Some?;
    st.(payloadMatched := st.payloadMatched + One(hit),
        masterOnly := st.masterOnly + One(hit && v.app == NO_APP))
  }

  function CountIp(rs: RuleSet, v: Verdict, pk: Packet, st: Stats): (r: Stats) {
    var h := IpHit(rs, pk);
    var hit := !v.evIp && h.Some?;
    st.(ipMatched := st.ipMatched + One(hit),
        provisional := st.provisional +
          One(hit && EvidenceIsBetter(v, h.value.claim.tier, h.value.claim.conf)))
  }

  function CountSni(rs: RuleSet, v: Verdict, pk: Packet, st: Stats): (r: Stats) {
    var seen, h := SniOf(pk).Some?, SniHit(rs, pk);
    st.(clientHellos := st.clientHellos + One(seen),
        sniFound := st.sniFound + One(seen),
        sniMatched := st.sniMatched + One(h.Some?),
        sniUnmatched := st.sniUnmatched + One(seen && h.None?),
        revised := st.revised + One(h.Some? && EvidenceIsBetter(v, h.value.claim.tier, h.value.claim.conf) &&
                                    v.app != NO_APP && v.app != h.value.claim.app),
        finals := st.finals + One(h.Some? && SniStage(rs, v, pk).isFinal))
  }

  function CountFlow(rs: RuleSet, f: Flow, pk: Packet, st: Stats): (r: Stats) {
    if !Inspected(f) then st
    else
      var v1 := PayloadStage(rs, f.verdict, pk);
      var v2 := IpStage(rs, v1, pk);
      CountSni(rs, v2, pk, CountIp(rs, v1, pk, CountPayload(rs, f.verdict, pk, st)))
  }

  function CountPacket(pk: Packet, st: Stats): (r: Stats) {
    st.(decoded := st.decoded + 1,
        tcp := st.tcp + One(pk.l4proto == L4_TCP),
        udp := st.udp + One(pk.l4proto == L4_UDP))
  }

  // ------------------------------------------------------------------ one frame

  datatype Engine = Engine(table: Table, stats: Stats)

  /** What the loop does with a packet it could decode. */
  function StepPacket(rs: RuleSet, flowHash: Tuple5 -> nat, e: Engine, pk: Packet): (r: Engine)
    requires WINDOW < |e.table.slots|
    ensures |r.table.slots| == |e.table.slots|
  {
    var (t, i, _) := Enter(e.table, flowHash, pk);
    var f := t.slots[i];
    Engine(t.(slots := t.slots[i := FlowStep(rs, f, pk)]), CountFlow(rs, f, pk, e.stats))
  }

  /** Everything the loop does with one captured frame. */
  function Step(rs: RuleSet, flowHash: Tuple5 -> nat, linktype: nat, e: Engine, frame: seq<byte>): (r: Engine)
    requires WINDOW < |e.table.slots|
    ensures |r.table.slots| == |e.table.slots|
  {
    var st := e.stats.(packets := e.stats.packets + 1);
    match DecodeFrame(frame, linktype)
    case None => Engine(e.table, st.(undecodable := st.undecodable + 1))
    case Some(pk) => StepPacket(rs, flowHash, Engine(e.table, CountPacket(pk, st)), pk)
  }

  function Run(rs: RuleSet, flowHash: Tuple5 -> nat, linktype: nat, e: Engine, frames: seq<seq<byte>>): (r: Engine)
    requires WINDOW < |e.table.slots|
    ensures |r.table.slots| == |e.table.slots|
  {
    if |frames| == 0 then e
    else Step(rs, flowHash, linktype, Run(rs, flowHash, linktype, e, frames[..|frames| - 1]), frames[|frames| - 1])
  }

  /** A fresh engine: an empty table and no counts. */
  ghost predicate Fresh(e: Engine) {
    && WINDOW < |e.table.slots| && e.table.count == 0 && e.table.evictions == 0 && e.stats == NO_STATS
    && forall i :: 0 <= i < |e.table.slots| ==> !e.table.slots[i].inUse
  }

  /** The slots of the program's flow table: twice 65536, a power of two already. */
  const FLOW_SLOTS := 131072

  /** Where every run of the program starts. */
  function StartEngine(): (r: Engine) {
    Engine(Table(FreeSlots(FLOW_SLOTS), 0, 0), NO_STATS)
  }

  lemma StartIsFresh()
    ensures Fresh(StartEngine())
  {
  }
}
