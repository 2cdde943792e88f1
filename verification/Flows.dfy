/**
  The flow table (src/engine/flow.c): bounded linear probing, no deletion, and the home
  slot overwritten when the window of sixteen slots is full.
*/
module Flows {
  import opened Bits
  import opened Claims
  import opened Probing
  import opened Decode

  const WINDOW := 16

  /** `ngfw_verdict_t`; the evidence mask is split into the three bits that are ever set. */
  datatype Verdict = Verdict(
    masterApp: u32, masterTier: byte, masterConf: byte,
    app: u32, tier: byte, conf: byte, lic: byte,
    isFinal: bool, evSni: bool, evPayload: bool, evIp: bool)

  const NO_VERDICT := Verdict(NO_APP, 0, 0, NO_APP, 0, 0, 0, false, false, false, false)

  datatype Flow = Flow(
    srcIp: Ip, dstIp: Ip, srcPort: u16, dstPort: u16, l4proto: byte, ipVersion: byte,
    inUse: bool, packets: u16, verdict: Verdict)

  const NO_ADDRESS: Ip := [0, 0, 0, 0, 0, 0, 0, 0, 0, 0, 0, 0, 0, 0, 0, 0]
  const UNUSED := Flow(NO_ADDRESS, NO_ADDRESS, 0, 0, 0, 0, false, 0,
                       Verdict(0, 0, 0, 0, 0, 0, 0, false, false, false, false))

  /** A slot taken over for the flow of a packet. */
  function NewFlow(p: Packet): (r: Flow) {
    Flow(p.srcIp, p.dstIp, p.srcPort, p.dstPort, p.l4proto, p.ipVersion, true, 0, NO_VERDICT)
  }

  // ------------------------------------------------------------------ five-tuples

  /** The bytes of an address that count: all sixteen for IPv6, else four. */
  function Significant(ip: Ip, version: byte): (r: seq<byte>) {
    if version == 6 then ip else ip[..4]
  }

  datatype Endpoint = Endpoint(addr: seq<byte>, port: u16)

  datatype Tuple5 = Tuple5(version: byte, proto: byte, src: Endpoint, dst: Endpoint)

  function TupleOf(p: Packet): (r: Tuple5) {
    Tuple5(p.ipVersion, p.l4proto,
           Endpoint(Significant(p.srcIp, p.ipVersion), p.srcPort),
           Endpoint(Significant(p.dstIp, p.ipVersion), p.dstPort))
  }

  function FlowTuple(f: Flow): (r: Tuple5) {
    Tuple5(f.ipVersion, f.l4proto,
           Endpoint(Significant(f.srcIp, f.ipVersion), f.srcPort),
           Endpoint(Significant(f.dstIp, f.ipVersion), f.dstPort))
  }

  /** The tuple of the packets in the other direction. */
  function Reverse(t: Tuple5): (r: Tuple5) {
    t.(src := t.dst, dst := t.src)
  }

  /** `same_flow`, as the C code compares fields. */
  predicate SameFlow(f: Flow, p: Packet) {
    && f.l4proto == p.l4proto && f.ipVersion == p.ipVersion
    && var v := p.ipVersion;
       var fwd := f.srcPort == p.srcPort && f.dstPort == p.dstPort &&
                  Significant(f.srcIp, v) == Significant(p.srcIp, v) &&
                  Significant(f.dstIp, v) == Significant(p.dstIp, v);
       var rev := f.srcPort == p.dstPort && f.dstPort == p.srcPort &&
                  Significant(f.srcIp, v) == Significant(p.dstIp, v) &&
                  Significant(f.dstIp, v) == Significant(p.srcIp, v);
       fwd || rev
  }

  /** The same conversation, in either direction. */
  predicate SameTuple(s: Tuple5, t: Tuple5) {
    s == t || s == Reverse(t)
  }

  lemma SameFlowIsSameTuple(f: Flow, p: Packet)
    ensures SameFlow(f, p) <==> SameTuple(FlowTuple(f), TupleOf(p))
  {
  }

  lemma SameTupleEquivalence(r: Tuple5, s: Tuple5, t: Tuple5)
    ensures SameTuple(r, r)
    ensures SameTuple(r, s) ==> SameTuple(s, r)
    ensures SameTuple(r, s) && SameTuple(s, t) ==> SameTuple(r, t)
  {
  }

  /** The bytes of an address that identify a host: four for IPv4, sixteen for IPv6. */
  predicate SameHost(a: Ip, b: Ip, version: byte) {
    forall i :: 0 <= i < 16 && (i < 4 || version == 6) ==> a[i] == b[i]
  }

  /**
    Two packets belong to one conversation exactly if version and protocol agree, and each
    host with its port is in one packet what one of the hosts is in the other, crosswise or not.
  */
  lemma SameConversationIff(p: Packet, q: Packet)
    ensures SameTuple(TupleOf(p), TupleOf(q)) <==>
      && p.ipVersion == q.ipVersion && p.l4proto == q.l4proto
      && (|| (SameHost(p.srcIp, q.srcIp, p.ipVersion) && p.srcPort == q.srcPort &&
              SameHost(p.dstIp, q.dstIp, p.ipVersion) && p.dstPort == q.dstPort)
          || (SameHost(p.srcIp, q.dstIp, p.ipVersion) && p.srcPort == q.dstPort &&
              SameHost(p.dstIp, q.srcIp, p.ipVersion) && p.dstPort == q.srcPort))
  {
    hide SameHost, Significant;
    SameHostIff(p.srcIp, q.srcIp, p.ipVersion);
    SameHostIff(p.dstIp, q.dstIp, p.ipVersion);
    SameHostIff(p.srcIp, q.dstIp, p.ipVersion);
    SameHostIff(p.dstIp, q.srcIp, p.ipVersion);
  }

  lemma SameHostIff(a: Ip, b: Ip, version: byte)
    ensures SameHost(a, b, version) <==> Significant(a, version) == Significant(b, version)
  {
    var s, t := Significant(a, version), Significant(b, version);
    if s == t {
      forall i | 0 <= i < 16 && (i < 4 || version == 6) ensures a[i] == b[i] {
        assert s[i] == a[i] && t[i] == b[i];
      }
    }
  }

  /** Both directions of a conversation land on one slot. */
  ghost predicate DirectionBlind(hash: Tuple5 -> nat) {
    forall t :: hash(t) == hash(Reverse(t))
  }

  // ------------------------------------------------------------------ the table

  datatype Table = Table(slots: seq<Flow>, count: nat, evictions: nat)

  datatype Spot = Live(i: nat) | Free(i: nat) | Crowded

  /** The slot `probe` steps after `home`: `(home + probe) & mask`. */
  function SlotAt(home: nat, probe: nat, cap: nat): (i: nat)
    requires home < cap && probe < cap
    ensures i < cap
  {
    if home + probe < cap then home + probe else home + probe - cap
  }

  /** The first slot of the window, from the `probe`th on, that is free or holds the packet's flow. */
  function Locate(slots: seq<Flow>, home: nat, probe: nat, p: Packet): (s: Spot)
    requires WINDOW < |slots| && home < |slots| && probe <= WINDOW
    ensures !s.Crowded? ==> s.i < |slots|
    decreases WINDOW - probe
  {
    if probe == WINDOW then Crowded
    else
      var i := SlotAt(home, probe, |slots|);
      if !slots[i].inUse then Free(i)
      else if SameFlow(slots[i], p) then Live(i)
      else Locate(slots, home, probe + 1, p)
  }

  /** The table, the packet's slot, and whether the flow is new. */
  function Enter(t: Table, hash: Tuple5 -> nat, p: Packet): (r: (Table, nat, bool))
    requires WINDOW < |t.slots|
    ensures r.1 < |t.slots| && |r.0.slots| == |t.slots|
  {
    var home := HomeSlot(hash, TupleOf(p), |t.slots|);
    match Locate(t.slots, home, 0, p)
    case Live(i) => (t, i, false)
    case Free(i) => (Table(t.slots[i := NewFlow(p)], t.count + 1, t.evictions), i, true)
    case Crowded => (Table(t.slots[home := NewFlow(p)], t.count, t.evictions + 1), home, true)
  }

  /** A live flow sits within sixteen slots of its home, with no free slot before it. */
  ghost predicate Placed(slots: seq<Flow>, hash: Tuple5 -> nat, s: nat)
    requires s < |slots|
  {
    var home := HomeSlot(hash, FlowTuple(slots[s]), |slots|);
    && Distance(home, s, |slots|) < WINDOW
    && forall q :: 0 <= q < |slots| && Between(home, q, s) ==> slots[q].inUse
  }

  ghost predicate AllPlaced(slots: seq<Flow>, hash: Tuple5 -> nat) {
    forall s :: 0 <= s < |slots| && slots[s].inUse ==> Placed(slots, hash, s)
  }

  predicate Twins(f: Flow, g: Flow) {
    f.inUse && g.inUse && SameTuple(FlowTuple(f), FlowTuple(g))
  }

  /** No conversation is tracked twice. */
  ghost predicate NoTwins(slots: seq<Flow>) {
    forall s, q :: 0 <= s < |slots| && 0 <= q < |slots| && Twins(slots[s], slots[q]) ==> s == q
  }

  ghost function InUse(slots: seq<Flow>): (r: nat) {
    if |slots| == 0 then 0
    else InUse(slots[..|slots| - 1]) + (if slots[|slots| - 1].inUse then 1 else 0)
  }

  ghost predicate TableOk(t: Table, hash: Tuple5 -> nat) {
    && WINDOW < |t.slots| && DirectionBlind(hash)
    && AllPlaced(t.slots, hash) && NoTwins(t.slots) && InUse(t.slots) == t.count
  }

  /** The conversation of `p` is tracked in some slot. */
  ghost predicate Tracked(slots: seq<Flow>, p: Packet) {
    exists s :: 0 <= s < |slots| && slots[s].inUse && SameTuple(FlowTuple(slots[s]), TupleOf(p))
  }

  /** Where the probe stops says whether the conversation is live, and where. */
  lemma {:induction false} LocateFinds(slots: seq<Flow>, hash: Tuple5 -> nat, home: nat, probe: nat, p: Packet)
    requires WINDOW < |slots| && probe <= WINDOW
    requires home == HomeSlot(hash, TupleOf(p), |slots|)
    requires forall d :: 0 <= d < probe ==>
      slots[SlotAt(home, d, |slots|)].inUse && !SameFlow(slots[SlotAt(home, d, |slots|)], p)
    ensures var s := Locate(slots, home, probe, p);
      match s
      case Live(i) => slots[i].inUse && SameFlow(slots[i], p)
      case Free(i) => !slots[i].inUse && Distance(home, i, |slots|) < WINDOW &&
        forall q :: 0 <= q < |slots| && Between(home, q, i) ==> slots[q].inUse && !SameFlow(slots[q], p)
      case Crowded => forall q :: 0 <= q < |slots| && Distance(home, q, |slots|) < WINDOW ==>
        slots[q].inUse && !SameFlow(slots[q], p)
    decreases WINDOW - probe
  {
    if probe == WINDOW {
      forall q | 0 <= q < |slots| && Distance(home, q, |slots|) < WINDOW
        ensures slots[q].inUse && !SameFlow(slots[q], p)
      {
        assert q == SlotAt(home, Distance(home, q, |slots|), |slots|);
      }
    } else {
      var i := SlotAt(home, probe, |slots|);
      if !slots[i].inUse {
        forall q | 0 <= q < |slots| && Between(home, q, i)
          ensures slots[q].inUse && !SameFlow(slots[q], p)
        {
          assert q == SlotAt(home, Distance(home, q, |slots|), |slots|);
        }
      } else if !SameFlow(slots[i], p) {
        LocateFinds(slots, hash, home, probe + 1, p);
      }
    }
  }

  /** A live flow of the packet's conversation is in the packet's own window. */
  lemma LiveIsInWindow(slots: seq<Flow>, hash: Tuple5 -> nat, p: Packet, s: nat)
    requires WINDOW < |slots| && DirectionBlind(hash) && AllPlaced(slots, hash)
    requires s < |slots| && slots[s].inUse && SameTuple(FlowTuple(slots[s]), TupleOf(p))
    ensures var home := HomeSlot(hash, TupleOf(p), |slots|);
      && Distance(home, s, |slots|) < WINDOW
      && forall q :: 0 <= q < |slots| && Between(home, q, s) ==> slots[q].inUse
  {
    assert hash(FlowTuple(slots[s])) == hash(TupleOf(p));
    assert Placed(slots, hash, s);
  }

  /** A lookup reports "new" exactly when the conversation is not tracked. */
  lemma NewIffUntracked(t: Table, hash: Tuple5 -> nat, p: Packet)
    requires TableOk(t, hash)
    ensures Enter(t, hash, p).2 <==> !Tracked(t.slots, p)
  {
    var cap, home := |t.slots|, HomeSlot(hash, TupleOf(p), |t.slots|);
    LocateFinds(t.slots, hash, home, 0, p);
    var spot := Locate(t.slots, home, 0, p);
    if spot.Live? {
      SameFlowIsSameTuple(t.slots[spot.i], p);
    } else {
      forall s | 0 <= s < cap && t.slots[s].inUse
        ensures !SameTuple(FlowTuple(t.slots[s]), TupleOf(p))
      {
        SameFlowIsSameTuple(t.slots[s], p);
        if SameTuple(FlowTuple(t.slots[s]), TupleOf(p)) {
          LiveIsInWindow(t.slots, hash, p, s);
        }
      }
    }
  }

  /** Unless the table evicts, a new flow takes a slot that nobody uses. */
  lemma NewTakesFreeSlot(t: Table, hash: Tuple5 -> nat, p: Packet)
    requires WINDOW < |t.slots|
    ensures var (t', i, isNew) := Enter(t, hash, p);
      && t'.slots == t.slots[i := t'.slots[i]] && t'.slots[i].inUse
      && t.evictions <= t'.evictions
      && (isNew && t'.evictions == t.evictions ==> !t.slots[i].inUse)
  {
    LocateFinds(t.slots, hash, HomeSlot(hash, TupleOf(p), |t.slots|), 0, p);
  }

  /**
    Where a new flow goes: to the nearest free slot from the hash home on, if there is one
    among the first sixteen, and else to the hash home itself, whose flow is lost.
  */
  lemma NewFlowGoesTo(t: Table, hash: Tuple5 -> nat, p: Packet)
    requires WINDOW < |t.slots| && Enter(t, hash, p).2
    ensures var cap, i := |t.slots|, Enter(t, hash, p).1;
      var home := HomeSlot(hash, TupleOf(p), cap);
      if exists q :: 0 <= q < cap && Distance(home, q, cap) < 16 && !t.slots[q].inUse then
        && Distance(home, i, cap) < 16 && !t.slots[i].inUse
        && forall q :: 0 <= q < cap && Distance(home, q, cap) < Distance(home, i, cap) ==> t.slots[q].inUse
      else i == home
  {
    var home := HomeSlot(hash, TupleOf(p), |t.slots|);
    LocateFinds(t.slots, hash, home, 0, p);
  }

  lemma {:induction false} InUseAfter(slots: seq<Flow>, i: nat, f: Flow)
    requires i < |slots| && f.inUse
    ensures InUse(slots[i := f]) == InUse(slots) + (if slots[i].inUse then 0 else 1)
  {
    var n := |slots| - 1;
    if i == n {
      assert slots[i := f][..n] == slots[..n];
    } else {
      assert slots[i := f][..n] == slots[..n][i := f];
      InUseAfter(slots[..n], i, f);
    }
  }

  lemma {:induction false} InUseOfFree(slots: seq<Flow>)
    requires forall i :: 0 <= i < |slots| ==> !slots[i].inUse
    ensures InUse(slots) == 0
  {
    if |slots| > 0 {
      InUseOfFree(slots[..|slots| - 1]);
    }
  }

  /** Taking a slot over keeps every live flow in its window: slots are never given back. */
  lemma TakeOverKeepsPlaced(slots: seq<Flow>, hash: Tuple5 -> nat, i: nat, p: Packet)
    requires WINDOW < |slots| && AllPlaced(slots, hash) && i < |slots|
    requires var home := HomeSlot(hash, TupleOf(p), |slots|);
      Distance(home, i, |slots|) < WINDOW &&
      forall q :: 0 <= q < |slots| && Between(home, q, i) ==> slots[q].inUse
    ensures AllPlaced(slots[i := NewFlow(p)], hash)
  {
    var slots' := slots[i := NewFlow(p)];
    assert FlowTuple(NewFlow(p)) == TupleOf(p);
    forall s | 0 <= s < |slots'| && slots'[s].inUse ensures Placed(slots', hash, s) {
      if s != i {
        assert Placed(slots, hash, s);
      }
    }
  }

  lemma TakeOverKeepsUnique(slots: seq<Flow>, i: nat, p: Packet)
    requires NoTwins(slots) && i < |slots|
    requires !Tracked(slots, p)
    ensures NoTwins(slots[i := NewFlow(p)])
  {
    var slots' := slots[i := NewFlow(p)];
    assert FlowTuple(NewFlow(p)) == TupleOf(p);
    forall s, q | 0 <= s < |slots'| && 0 <= q < |slots'| && Twins(slots'[s], slots'[q])
      ensures s == q
    {
      SameTupleEquivalence(FlowTuple(slots'[s]), FlowTuple(slots'[q]), TupleOf(p));
    }
  }

  /**
    One lookup keeps the table in order: insertion, eviction and a hit alike. The packet's
    slot afterwards is live and holds its conversation, and nothing else was touched.
  */
  lemma EnterKeepsTable(t: Table, hash: Tuple5 -> nat, p: Packet)
    requires TableOk(t, hash)
    ensures var (t', i, isNew) := Enter(t, hash, p);
      && TableOk(t', hash)
      && t'.slots[i].inUse && SameTuple(FlowTuple(t'.slots[i]), TupleOf(p))
      && t'.slots == t.slots[i := t'.slots[i]]
      && (isNew ==> t'.slots[i] == NewFlow(p) && t'.count + t'.evictions == t.count + t.evictions + 1)
      && (!isNew ==> t' == t)
  {
    var home := HomeSlot(hash, TupleOf(p), |t.slots|);
    LocateFinds(t.slots, hash, home, 0, p);
    NewIffUntracked(t, hash, p);
    match Locate(t.slots, home, 0, p)
    case Live(i) =>
      SameFlowIsSameTuple(t.slots[i], p);
    case Free(i) =>
      TakeOverKeepsPlaced(t.slots, hash, i, p);
      TakeOverKeepsUnique(t.slots, i, p);
      InUseAfter(t.slots, i, NewFlow(p));
    case Crowded =>
      assert t.slots[home].inUse;
      TakeOverKeepsPlaced(t.slots, hash, home, p);
      TakeOverKeepsUnique(t.slots, home, p);
      InUseAfter(t.slots, home, NewFlow(p));
  }

  /** Rewriting the verdict or the packet count of a live flow is harmless. */
  lemma AnnotateKeepsTable(t: Table, hash: Tuple5 -> nat, i: nat, packets: u16, v: Verdict)
    requires TableOk(t, hash) && i < |t.slots| && t.slots[i].inUse
    ensures TableOk(t.(slots := t.slots[i := t.slots[i].(packets := packets, verdict := v)]), hash)
  {
    var f := t.slots[i].(packets := packets, verdict := v);
    var slots' := t.slots[i := f];
    assert FlowTuple(f) == FlowTuple(t.slots[i]);
    InUseAfter(t.slots, i, f);
    forall s | 0 <= s < |slots'| && slots'[s].inUse ensures Placed(slots', hash, s) {
      assert Placed(t.slots, hash, s);
    }
    forall s, q | 0 <= s < |slots'| && 0 <= q < |slots'| && Twins(slots'[s], slots'[q])
      ensures s == q
    {
      assert FlowTuple(slots'[s]) == FlowTuple(t.slots[s]) && FlowTuple(slots'[q]) == FlowTuple(t.slots[q]);
    }
  }

  // ---------------------------------------------------------------- the C functions

  function FreeSlots(n: nat): (s: seq<Flow>)
    ensures |s| == n && forall i :: 0 <= i < n ==> s[i] == UNUSED
  {
    seq(n, _ => UNUSED)
  }

  class FlowTable {
    const hash: Tuple5 -> nat
    var slots: array<Flow>
    var count: nat
    var evictions: nat

    ghost function State(): (r: Table)
      reads this, slots
    {
      Table(slots[..], count, evictions)
    }

    ghost predicate Valid()
      reads this, slots
    {
      TableOk(State(), hash) && IsPow2(slots.Length)
    }

    constructor (hash: Tuple5 -> nat, capacity: nat)
      requires DirectionBlind(hash)
      ensures Valid() && fresh(slots)
      ensures this.hash == hash && State() == Table(FreeSlots(slots.Length), 0, 0)
      ensures var want := if capacity > 0 then capacity * 2 else 65536;
        want <= slots.Length && (slots.Length == 1024 || slots.Length / 2 < want)
    {
      this.hash := hash;
      Pow2Of1024();
      hide TableOk, IsPow2;
      var cap := NextPow2(1024, if capacity > 0 then capacity * 2 else 65536);
      slots := new Flow[cap](_ => UNUSED);
      count, evictions := 0, 0;
      new;
      FreshTableOk(slots[..], hash);
      assert slots[..] == FreeSlots(slots.Length);
    }

    /** The bounded probe: beyond the window the table evicts rather than scans on. */
    method Probe(home: nat, pkt: Packet) returns (spot: Spot)
      requires WINDOW < slots.Length && home < slots.Length
      ensures spot == Locate(slots[..], home, 0, pkt)
    {
      hide SameFlow;
      var probe: nat := 0;
      while probe < WINDOW
        invariant 0 <= probe <= WINDOW
        invariant Locate(slots[..], home, 0, pkt) == Locate(slots[..], home, probe, pkt)
      {
        var s := SlotAt(home, probe, slots.Length);
        if !slots[s].inUse {
          return Free(s);
        }
        if SameFlow(slots[s], pkt) {
          return Live(s);
        }
        probe := probe + 1;
      }
      return Crowded;
    }

    method TakeOver(i: nat, pkt: Packet)
      requires i < slots.Length
      modifies slots
      ensures slots[..] == old(slots[..])[i := NewFlow(pkt)]
    {
      slots[i] := NewFlow(pkt);
    }

    /** `ngfw_flow_lookup`: the flow of a packet, created if it is not tracked. */
    method Lookup(pkt: Packet) returns (idx: nat, isNew: bool)
      requires Valid()
      modifies this`count, this`evictions, slots
      ensures Valid() && WINDOW < |old(State()).slots|
      ensures (State(), idx, isNew) == Enter(old(State()), hash, pkt)
      ensures idx < slots.Length && slots[idx].inUse
    {
      hide TableOk, Enter, Locate, NewFlow, TupleOf, IsPow2;
      ghost var t := State();
      EnterKeepsTable(t, hash, pkt);
      Roomy(t, hash);
      var home := hash(TupleOf(pkt)) % slots.Length;
      var spot := Probe(home, pkt);
      EnterBySpot(t, hash, pkt, home, spot);
      match spot
      case Live(i) =>
        idx, isNew := i, false;
      case Free(i) =>
        TakeOver(i, pkt);
        count := count + 1;
        idx, isNew := i, true;
      case Crowded =>
        TakeOver(home, pkt);
        evictions := evictions + 1;
        idx, isNew := home, true;
    }

    /** The caller writes through the pointer that `Lookup` returned. */
    method Annotate(i: nat, packets: u16, v: Verdict)
      requires Valid() && i < slots.Length && slots[i].inUse
      modifies slots
      ensures Valid()
      ensures State() == old(State()).(slots := old(slots[..])[i := old(slots[i]).(packets := packets, verdict := v)])
    {
      AnnotateKeepsTable(State(), hash, i, packets, v);
      ghost var was := slots[..];
      slots[i] := slots[i].(packets := packets, verdict := v);
      assert slots[..] == was[i := was[i].(packets := packets, verdict := v)];
    }
  }

  lemma Pow2Of1024()
    ensures IsPow2(1024)
  {
    assert IsPow2(8);
    assert IsPow2(64);
    assert IsPow2(256);
  }

  lemma Pow2Of131072()
    ensures IsPow2(131072)
  {
    Pow2Of1024();
    assert IsPow2(4096);
    assert IsPow2(16384);
    assert IsPow2(65536);
  }

  lemma FreshTableOk(slots: seq<Flow>, hash: Tuple5 -> nat)
    requires DirectionBlind(hash) && WINDOW < |slots|
    requires forall i :: 0 <= i < |slots| ==> !slots[i].inUse
    ensures TableOk(Table(slots, 0, 0), hash)
  {
    InUseOfFree(slots);
  }

  lemma EnterBySpot(t: Table, hash: Tuple5 -> nat, p: Packet, home: nat, spot: Spot)
    requires WINDOW < |t.slots| && home == HomeSlot(hash, TupleOf(p), |t.slots|)
    requires spot == Locate(t.slots, home, 0, p)
    ensures Enter(t, hash, p) ==
      match spot
      case Live(i) => (t, i, false)
      case Free(i) => (Table(t.slots[i := NewFlow(p)], t.count + 1, t.evictions), i, true)
      case Crowded => (Table(t.slots[home := NewFlow(p)], t.count, t.evictions + 1), home, true)
  {
  }

  lemma Roomy(t: Table, hash: Tuple5 -> nat)
    requires TableOk(t, hash)
    ensures WINDOW < |t.slots|
  {
  }
}
