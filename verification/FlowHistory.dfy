/**
  What holds of one flow over all the packets it has seen, from the packet that created
  it on: evidence only gets better, a final verdict stays, and when and with what the
  verdict becomes final depends on the server names alone.
*/
module FlowHistory {
  import opened Wrappers
  import opened Bits
  import opened Claims
  import opened TrieSpec
  import opened AddressBits
  import Lpm
  import opened PayloadSpec
  import opened DomainTrie
  import opened Decode
  import opened Flows
  import opened Verdicts

  /** The flow record after the packets `h` of one conversation, the first of which created it. */
  function FlowAfter(rs: RuleSet, h: seq<Packet>): (r: Flow)
    requires h != []
  {
    if |h| == 1 then FlowStep(rs, NewFlow(h[0]), h[0])
    else FlowStep(rs, FlowAfter(rs, h[..|h| - 1]), h[|h| - 1])
  }

  /** The record before packet `k` of the conversation is looked at. */
  function FlowBefore(rs: RuleSet, h: seq<Packet>, k: nat): (r: Flow)
    requires k < |h|
  {
    if k == 0 then NewFlow(h[0]) else FlowAfter(rs, h[..k])
  }

  /** The packet counter counts modulo 2^16; the record keeps its tuple. */
  lemma {:induction false} CounterAndTuple(rs: RuleSet, h: seq<Packet>)
    requires h != []
    ensures FlowAfter(rs, h).packets == |h| % 0x1_0000
    ensures FlowTuple(FlowAfter(rs, h)) == TupleOf(h[0]) && FlowAfter(rs, h).inUse
  {
    hide FlowStep, FlowTuple;
    var n := |h| - 1;
    if n == 0 {
      StepCounts(rs, NewFlow(h[0]), h[0]);
      assert FlowTuple(NewFlow(h[0])) == TupleOf(h[0]) by { NewTuple(h[0]); }
    } else {
      CounterAndTuple(rs, h[..n]);
      StepCounts(rs, FlowAfter(rs, h[..n]), h[n]);
    }
    NextCount(n);
  }

  lemma NextCount(n: nat)
    ensures Bump(n % 0x1_0000) == (n + 1) % 0x1_0000
  {
  }

  lemma NewTuple(p: Packet)
    ensures FlowTuple(NewFlow(p)) == TupleOf(p)
  {
  }

  lemma StepCounts(rs: RuleSet, f: Flow, pk: Packet)
    ensures FlowStep(rs, f, pk).packets == Bump(f.packets)
    ensures FlowTuple(FlowStep(rs, f, pk)) == FlowTuple(f) && FlowStep(rs, f, pk).inUse == f.inUse
  {
    hide Classify;
  }

  // ------------------------------------------------------------------ monotonicity

  /** Verdict `w` may follow `v` in one flow. */
  ghost predicate Improves(v: Verdict, w: Verdict) {
    && (v.app != NO_APP ==>
          && w.app != NO_APP
          && (w.tier < v.tier || (w.tier == v.tier && w.conf >= v.conf))
          && ((w.app, w.tier, w.conf, w.lic) == (v.app, v.tier, v.conf, v.lic) ||
              w.tier < v.tier || w.conf > v.conf))
    && (v.evPayload ==> w.evPayload && w.masterApp == v.masterApp &&
                        w.masterTier == v.masterTier && w.masterConf == v.masterConf)
    && (v.evIp ==> w.evIp) && (v.evSni ==> w.evSni)
    && (v.isFinal ==> w == v)
  }

  lemma ImprovesTransitive(u: Verdict, v: Verdict, w: Verdict)
    requires Improves(u, v) && Improves(v, w)
    ensures Improves(u, w)
  {
  }

  /** No index ever answers with the reserved id. */
  lemma HitsAreNamed(rs: RuleSet, pk: Packet)
    ensures IpHit(rs, pk).Some? ==> IpHit(rs, pk).value.claim.app != NO_APP
    ensures SniHit(rs, pk).Some? ==> SniHit(rs, pk).value.claim.app != NO_APP
  {
    IpClaimFromRules(rs, pk);
    NameClaimFromRules(rs, pk);
  }

  /** The claim of a prefix rule of the packet's IP version. */
  ghost predicate IpRuleClaim(rs: RuleSet, c: Claim) {
    ClaimedByRule(rs.v4, c) || ClaimedByRule(rs.v6, c)
  }

  lemma IpClaimFromRules(rs: RuleSet, pk: Packet)
    ensures IpHit(rs, pk).Some? ==>
      IpHit(rs, pk).value.claim.app != NO_APP && IpRuleClaim(rs, IpHit(rs, pk).value.claim)
  {
    hide Lpm.LongestPrefix;
    Lpm.LongestPrefixFromRules(rs.v6, AddrBits(pk.dstIp, 128), 128);
    Lpm.LongestPrefixFromRules(rs.v6, AddrBits(pk.srcIp, 128), 128);
    Lpm.LongestPrefixFromRules(rs.v4, AddrBits(pk.dstIp, 32), 32);
    Lpm.LongestPrefixFromRules(rs.v4, AddrBits(pk.srcIp, 32), 32);
  }

  lemma NameClaimFromRules(rs: RuleSet, pk: Packet)
    ensures SniHit(rs, pk).Some? ==>
      SniHit(rs, pk).value.claim.app != NO_APP && ClaimedByRule(rs.names, SniHit(rs, pk).value.claim)
  {
    hide Scan, HashedPath, SniOf;
    match SniOf(pk)
    case None =>
    case Some(name) =>
      match HashedPath(rs.hash, name)
      case None =>
      case Some(p) => ScanFromRules(rs.names, p);
  }

  lemma ClassifyImproves(rs: RuleSet, v: Verdict, pk: Packet)
    requires !v.isFinal
    ensures Improves(v, Classify(rs, v, pk))
  {
    hide IpHit, SniHit, PayloadHit;
    HitsAreNamed(rs, pk);
  }

  lemma StepImproves(rs: RuleSet, f: Flow, pk: Packet)
    ensures Improves(f.verdict, FlowStep(rs, f, pk).verdict)
  {
    hide Classify;
    if Inspected(f) {
      ClassifyImproves(rs, f.verdict, pk);
    }
  }

  /**
    Within one flow the evidence (tier, confidence) never gets worse, the application is
    never forgotten, the protocol is set once, and a final verdict is frozen.
  */
  lemma {:induction false} VerdictsImprove(rs: RuleSet, h: seq<Packet>, i: nat)
    requires 1 <= i <= |h|
    ensures Improves(FlowAfter(rs, h[..i]).verdict, FlowAfter(rs, h).verdict)
    decreases |h|
  {
    hide Improves, FlowStep;
    if i == |h| {
      assert h[..i] == h;
      ImprovesSelf(FlowAfter(rs, h).verdict);
    } else {
      var n := |h| - 1;
      assert h[..n][..i] == h[..i];
      VerdictsImprove(rs, h[..n], i);
      StepImproves(rs, FlowAfter(rs, h[..n]), h[n]);
      ImprovesTransitive(FlowAfter(rs, h[..i]).verdict, FlowAfter(rs, h[..n]).verdict, FlowAfter(rs, h).verdict);
    }
  }

  lemma ImprovesSelf(v: Verdict)
    ensures Improves(v, v)
  {
  }

  // ------------------------------------------------------------------ provenance

  /** Where the parts of a verdict can come from. */
  ghost predicate Sourced(rs: RuleSet, v: Verdict) {
    && (v.app == NO_APP ||
        exists c: Claim :: (ClaimedByRule(rs.names, c) || IpRuleClaim(rs, c)) &&
                           (v.app, v.tier, v.conf, v.lic) == (c.app, c.tier, c.conf, c.lic))
    && (v.masterApp == NO_APP ||
        exists j :: 0 <= j < |rs.payloads| &&
          (v.masterApp, v.masterTier, v.masterConf) ==
          (rs.payloads[j].claim.app, rs.payloads[j].claim.tier, rs.payloads[j].claim.conf))
    && (v.isFinal ==> v.evSni && v.app != NO_APP && v.tier <= TIER_B)
  }

  lemma PayloadClaimFromRules(rs: RuleSet, pk: Packet) returns (j: nat)
    ensures PayloadHit(rs, pk).Some? ==> j < |rs.payloads| && rs.payloads[j].claim == PayloadHit(rs, pk).value.claim
  {
    hide PayScan;
    j := 0;
    if pk.payload.Some? && |pk.payload.value| >= 4 {
      j := PayScanIsTightest(rs.payloads, pk.payload.value);
    } else if pk.payload.Some? {
      ShortPayload(rs, pk.payload.value);
    }
  }

  lemma ShortPayload(rs: RuleSet, payload: seq<byte>)
    requires |payload| < 4
    ensures PayScan(rs.payloads, payload).None?
  {
  }

  lemma TakeSourced(rs: RuleSet, v: Verdict, c: Claim)
    requires Sourced(rs, v) && !v.isFinal && (ClaimedByRule(rs.names, c) || IpRuleClaim(rs, c))
    ensures Sourced(rs, Take(v, c))
  {
  }

  lemma ClassifySourced(rs: RuleSet, v: Verdict, pk: Packet)
    requires Sourced(rs, v) && !v.isFinal
    ensures Sourced(rs, Classify(rs, v, pk))
  {
    hide IpHit, SniHit, PayloadHit, Take, ClaimedByRule, IpRuleClaim;
    var j := PayloadClaimFromRules(rs, pk);
    IpClaimFromRules(rs, pk);
    NameClaimFromRules(rs, pk);
    var v1 := PayloadStage(rs, v, pk);
    assert Sourced(rs, v1);
    var v2 := IpStage(rs, v1, pk);
    assert Sourced(rs, v2) by {
      if !v1.evIp && IpHit(rs, pk).Some? {
        TakeSourced(rs, v1.(evIp := true), IpHit(rs, pk).value.claim);
      }
    }
    TakeKeepsFlags(v1.(evIp := true), if IpHit(rs, pk).Some? then IpHit(rs, pk).value.claim else UNCLAIMED);
    if SniHit(rs, pk).Some? {
      var c := SniHit(rs, pk).value.claim;
      TakeSourced(rs, v2.(evSni := true), c);
      TakeKeepsFlags(v2.(evSni := true), c);
    }
  }

  lemma TakeKeepsFlags(v: Verdict, c: Claim)
    ensures var w := Take(v, c);
      && w.isFinal == v.isFinal && w.evSni == v.evSni && w.evIp == v.evIp && w.evPayload == v.evPayload
      && (c.app != NO_APP ==> w.app != NO_APP)
  {
  }

  /**
    The application only ever comes from a prefix or a name rule, the protocol only from a
    payload rule, and a final verdict has a matched server name and tier A or B.
  */
  lemma {:induction false} VerdictsAreSourced(rs: RuleSet, h: seq<Packet>)
    requires h != []
    ensures Sourced(rs, FlowAfter(rs, h).verdict)
  {
    hide Classify;
    var n := |h| - 1;
    if n == 0 {
      ClassifySourced(rs, NO_VERDICT, h[0]);
    } else {
      VerdictsAreSourced(rs, h[..n]);
      var f := FlowAfter(rs, h[..n]);
      if Inspected(f) {
        ClassifySourced(rs, f.verdict, h[n]);
      }
    }
  }

  // ------------------------------------------------------------------ finality

  /** Packet `k` of a conversation (counting from 0) is within the budget. */
  predicate InBudget(k: nat) {
    (k + 1) % 0x1_0000 <= PACKET_BUDGET
  }

  lemma BumpIsBudget(f: Flow, n: nat)
    requires f.packets == n % 0x1_0000
    ensures Bump(f.packets) <= PACKET_BUDGET <==> InBudget(n)
  {
  }

  /** The matchers look at exactly the packets within the budget of a flow that is not final yet. */
  lemma InspectedIff(rs: RuleSet, h: seq<Packet>, k: nat)
    requires k < |h|
    ensures Inspected(FlowBefore(rs, h, k)) <==> InBudget(k) && !FlowBefore(rs, h, k).verdict.isFinal
  {
    if k > 0 {
      CounterAndTuple(rs, h[..k]);
    }
    BumpIsBudget(FlowBefore(rs, h, k), k);
  }

  /** No packet but the first twelve is ever looked at. */
  ghost predicate TwelveAtMost(rs: RuleSet, h: seq<Packet>) {
    forall k: nat :: k < |h| && Inspected(FlowBefore(rs, h, k)) ==> k < 12
  }

  /**
    The documented bound, that the matchers never see more than the first twelve packets of
    a flow, holds exactly for conversations of fewer than 65536 packets and for those that
    are final by then: with the 65536th packet the counter wraps to 0.
  */
  lemma TwelveAtMostIff(rs: RuleSet, h: seq<Packet>)
    ensures TwelveAtMost(rs, h) <==> |h| < 0x1_0000 || FlowAfter(rs, h[..0xFFFF]).verdict.isFinal
  {
    hide Inspected, FlowAfter;
    if |h| < 0x1_0000 || FlowAfter(rs, h[..0xFFFF]).verdict.isFinal {
      forall k: nat | k < |h| && Inspected(FlowBefore(rs, h, k)) ensures k < 12 {
        InspectedIff(rs, h, k);
        if k >= 0xFFFF {
          FinalStays(rs, h, 0xFFFF, k);
        }
      }
    } else {
      InspectedIff(rs, h, 0xFFFF);
      assert Inspected(FlowBefore(rs, h, 0xFFFF));
    }
  }

  lemma FinalStays(rs: RuleSet, h: seq<Packet>, i: nat, k: nat)
    requires 1 <= i <= k < |h| && FlowAfter(rs, h[..i]).verdict.isFinal
    ensures FlowBefore(rs, h, k).verdict.isFinal
  {
    hide FlowAfter;
    assert h[..k][..i] == h[..i];
    VerdictsImprove(rs, h[..k], i);
  }

  /** Packet `k` could settle the flow. */
  predicate Settles(rs: RuleSet, h: seq<Packet>, k: nat)
    requires k < |h|
  {
    InBudget(k) && SniHit(rs, h[k]).Some?
  }

  /** The first packet that settles the flow. */
  function FirstSettling(rs: RuleSet, h: seq<Packet>): (k: Option<nat>)
    ensures k.Some? ==> k.value < |h| && Settles(rs, h, k.value)
  {
    if |h| == 0 then None
    else
      var front := FirstSettling(rs, h[..|h| - 1]);
      if front.Some? then front
      else if Settles(rs, h, |h| - 1) then Some(|h| - 1)
      else None
  }

  lemma {:induction false} FirstSettlingIsFirst(rs: RuleSet, h: seq<Packet>)
    ensures match FirstSettling(rs, h)
            case None => forall j :: 0 <= j < |h| ==> !Settles(rs, h, j)
            case Some(k) => Settles(rs, h, k) && forall j :: 0 <= j < k ==> !Settles(rs, h, j)
  {
    if |h| > 0 {
      var front := h[..|h| - 1];
      FirstSettlingIsFirst(rs, front);
      forall j | 0 <= j < |front| ensures Settles(rs, front, j) == Settles(rs, h, j) {
      }
    }
  }

  // ------------------------------------------------------------------ whose word is final

  /** The claim is stronger evidence: a better tier, or the same with more confidence. */
  predicate Beats(c: Claim, p: Claim) {
    c.tier < p.tier || (c.tier == p.tier && c.conf > p.conf)
  }

  ghost predicate Carries(v: Verdict, c: Claim) {
    (v.app, v.tier, v.conf, v.lic) == (c.app, c.tier, c.conf, c.lic)
  }

  /**
    Names decide the conversation: it is final exactly from the first packet inside the
    budget whose server name matches a rule, with that rule's claim, whatever the addresses
    and the payload said.
  */
  ghost predicate NameDecides(rs: RuleSet, h: seq<Packet>)
    requires h != []
  {
    var v := FlowAfter(rs, h).verdict;
    match FirstSettling(rs, h)
    case None => !v.isFinal
    case Some(k) => v.isFinal && Carries(v, SniHit(rs, h[k]).value.claim)
  }

  /** Every name that can be matched is tier A or B. */
  ghost predicate NamesSettle(rs: RuleSet) {
    forall b: Packet :: SniHit(rs, b).Some? ==> SniHit(rs, b).value.claim.tier <= TIER_B
  }

  /** Every name that can be matched beats every address owner that can be, or says the same. */
  ghost predicate NamesPrevail(rs: RuleSet) {
    forall a: Packet, b: Packet :: IpHit(rs, a).Some? && SniHit(rs, b).Some? ==>
      Beats(SniHit(rs, b).value.claim, IpHit(rs, a).value.claim) ||
      SniHit(rs, b).value.claim == IpHit(rs, a).value.claim
  }

  /** A flow that is not settled has at most the word of an address owner. */
  ghost predicate Unsettled(rs: RuleSet, v: Verdict) {
    !v.isFinal &&
    (v.app == NO_APP || exists a: Packet :: IpHit(rs, a).Some? && Carries(v, IpHit(rs, a).value.claim))
  }

  lemma StagesUnsettled(rs: RuleSet, v: Verdict, pk: Packet)
    requires Unsettled(rs, v)
    ensures Unsettled(rs, IpStage(rs, PayloadStage(rs, v, pk), pk))
  {
    hide IpHit, PayloadHit;
    var v1 := PayloadStage(rs, v, pk);
    assert (v1.app, v1.tier, v1.conf, v1.lic, v1.isFinal) == (v.app, v.tier, v.conf, v.lic, v.isFinal);
    assert Unsettled(rs, v1);
    var w := IpStage(rs, v1, pk);
    if (w.app, w.tier, w.conf, w.lic) != (v1.app, v1.tier, v1.conf, v1.lic) {
      assert Carries(w, IpHit(rs, pk).value.claim);
    }
  }

  lemma ClassifyUnsettled(rs: RuleSet, v: Verdict, pk: Packet)
    requires NamesSettle(rs) && NamesPrevail(rs) && Unsettled(rs, v)
    ensures var w := Classify(rs, v, pk);
      match SniHit(rs, pk)
      case None => Unsettled(rs, w)
      case Some(h) => w.isFinal && Carries(w, h.claim)
  {
    hide IpHit, SniHit, IpStage, PayloadStage;
    StagesUnsettled(rs, v, pk);
    NameClaimFromRules(rs, pk);
    var w := IpStage(rs, PayloadStage(rs, v, pk), pk);
    if SniHit(rs, pk).Some? && w.app != NO_APP {
      var a: Packet :| IpHit(rs, a).Some? && Carries(w, IpHit(rs, a).value.claim);
      assert Beats(SniHit(rs, pk).value.claim, IpHit(rs, a).value.claim) ||
             SniHit(rs, pk).value.claim == IpHit(rs, a).value.claim;
    }
  }

  lemma {:induction false} FinalAtFirstMatch(rs: RuleSet, h: seq<Packet>)
    requires NamesSettle(rs) && NamesPrevail(rs) && h != []
    ensures NameDecides(rs, h) && (FirstSettling(rs, h).None? ==> Unsettled(rs, FlowAfter(rs, h).verdict))
  {
    hide Classify, SniHit, IpHit, NamesSettle, NamesPrevail, Unsettled, Carries;
    var n := |h| - 1;
    FirstSettlingIsFirst(rs, h);
    NothingKnown(rs, h[0]);
    if n > 0 {
      FinalAtFirstMatch(rs, h[..n]);
      FirstSettlingIsFirst(rs, h[..n]);
    }
    var before := FlowBefore(rs, h, n);
    InspectedIff(rs, h, n);
    if Inspected(before) {
      ClassifyUnsettled(rs, before.verdict, h[n]);
    }
    UnsettledIsOpen(rs, FlowAfter(rs, h).verdict);
  }

  lemma UnsettledIsOpen(rs: RuleSet, v: Verdict)
    ensures Unsettled(rs, v) ==> !v.isFinal
  {
  }

  lemma NothingKnown(rs: RuleSet, pk: Packet)
    ensures Unsettled(rs, NewFlow(pk).verdict) && !NewFlow(pk).verdict.isFinal
  {
  }

  /** A packet like `b`, between the hosts of `a`. */
  function FromHostsOf(a: Packet, b: Packet): (r: Packet) {
    b.(ipVersion := a.ipVersion, srcIp := a.srcIp, dstIp := a.dstIp)
  }

  lemma HitsOfBoth(rs: RuleSet, a: Packet, b: Packet)
    ensures IpHit(rs, FromHostsOf(a, b)) == IpHit(rs, a) && SniHit(rs, FromHostsOf(a, b)) == SniHit(rs, b)
  {
    hide AddrHit, NameHit;
  }

  /** The verdict after a single packet whose server name matches. */
  lemma OnePacket(rs: RuleSet, pk: Packet)
    requires SniHit(rs, pk).Some?
    ensures FirstSettling(rs, [pk]) == Some(0)
    ensures var v, c := FlowAfter(rs, [pk]).verdict, SniHit(rs, pk).value.claim;
      var owner := IpHit(rs, pk).Some? && !Beats(c, IpHit(rs, pk).value.claim);
      && Carries(v, if owner then IpHit(rs, pk).value.claim else c)
      && (v.isFinal <==> v.tier <= TIER_B)
  {
    hide IpHit, SniHit, PayloadHit;
    HitsAreNamed(rs, pk);
    FirstSettlingIsFirst(rs, [pk]);
    assert Settles(rs, [pk], 0);
  }

  /** Names decide every conversation exactly if they settle, and prevail over every address owner. */
  lemma NameDecidesIff(rs: RuleSet)
    ensures (forall h: seq<Packet> :: h != [] ==> NameDecides(rs, h)) <==> NamesSettle(rs) && NamesPrevail(rs)
  {
    hide IpHit, SniHit, FlowAfter, FirstSettling;
    if NamesSettle(rs) && NamesPrevail(rs) {
      forall h: seq<Packet> | h != [] ensures NameDecides(rs, h) {
        FinalAtFirstMatch(rs, h);
      }
    }
    if forall h: seq<Packet> :: h != [] ==> NameDecides(rs, h) {
      forall b: Packet | SniHit(rs, b).Some? ensures SniHit(rs, b).value.claim.tier <= TIER_B {
        OnePacket(rs, b);
        assert NameDecides(rs, [b]);
      }
      forall a: Packet, b: Packet | IpHit(rs, a).Some? && SniHit(rs, b).Some?
        ensures Beats(SniHit(rs, b).value.claim, IpHit(rs, a).value.claim) ||
                SniHit(rs, b).value.claim == IpHit(rs, a).value.claim
      {
        var x := FromHostsOf(a, b);
        HitsOfBoth(rs, a, b);
        OnePacket(rs, x);
        assert NameDecides(rs, [x]);
      }
    }
  }

  /** On one packet, the address owner decides a final verdict exactly if it is tier A or B and not beaten. */
  lemma StrongPrefixWins(rs: RuleSet, pk: Packet)
    requires IpHit(rs, pk).Some? && SniHit(rs, pk).Some?
    ensures var v := FlowAfter(rs, [pk]).verdict;
      var p, c := IpHit(rs, pk).value.claim, SniHit(rs, pk).value.claim;
      v.isFinal && Carries(v, p) <==> p.tier <= TIER_B && !Beats(c, p)
  {
    hide IpHit, SniHit, FlowAfter, FirstSettling;
    OnePacket(rs, pk);
  }

  /** As the source loaders emit them: name rules are tier A or B, prefix rules are weaker. */
  ghost predicate TieredRules(rs: RuleSet) {
    && (forall i :: 0 <= i < |rs.names| ==> rs.names[i].claim.tier <= TIER_B)
    && (forall i :: 0 <= i < |rs.v4| ==> rs.v4[i].claim.tier > TIER_B)
    && (forall i :: 0 <= i < |rs.v6| ==> rs.v6[i].claim.tier > TIER_B)
  }

  lemma TieredNamesDecide(rs: RuleSet)
    requires TieredRules(rs)
    ensures NamesSettle(rs) && NamesPrevail(rs)
  {
    hide IpHit, SniHit;
    forall b: Packet | SniHit(rs, b).Some? ensures SniHit(rs, b).value.claim.tier <= TIER_B {
      NameClaimFromRules(rs, b);
    }
    forall a: Packet | IpHit(rs, a).Some? ensures IpHit(rs, a).value.claim.tier > TIER_B {
      IpClaimFromRules(rs, a);
    }
  }

  /** Where names decide, the budget is twelve exactly for short conversations and those with an early name. */
  lemma TwelveByNamesIff(rs: RuleSet, h: seq<Packet>)
    requires NamesSettle(rs) && NamesPrevail(rs)
    ensures TwelveAtMost(rs, h) <==>
      |h| < 0x1_0000 || exists k: nat :: k < 12 && SniHit(rs, h[k]).Some?
  {
    hide SniHit, IpHit, NamesSettle, NamesPrevail, FlowAfter, TwelveAtMost;
    TwelveAtMostIff(rs, h);
    if |h| >= 0x1_0000 {
      var front := h[..0xFFFF];
      FinalAtFirstMatch(rs, front);
      FirstSettlingIsFirst(rs, front);
      if k: nat :| k < PACKET_BUDGET && SniHit(rs, h[k]).Some? {
        assert Settles(rs, front, k);
      }
      if FirstSettling(rs, front).Some? {
        var k := FirstSettling(rs, front).value;
        assert k < PACKET_BUDGET && SniHit(rs, h[k]).Some?;
      }
    }
  }

  /** Where names decide, final verdicts are the same under any prefix rules and any payload rules. */
  lemma FinalsIgnoreOtherEvidence(rs: RuleSet, other: RuleSet, h: seq<Packet>)
    requires NamesSettle(rs) && NamesPrevail(rs) && NamesPrevail(other) && h != []
    requires other.hash == rs.hash && other.names == rs.names
    ensures NamesSettle(other)
    ensures var v, w := FlowAfter(rs, h).verdict, FlowAfter(other, h).verdict;
      v.isFinal == w.isFinal && (v.isFinal ==> (v.app, v.tier, v.conf, v.lic) == (w.app, w.tier, w.conf, w.lic))
  {
    hide IpHit, SniHit, FlowAfter, NamesPrevail;
    SameSettling(rs, other, h);
    FinalAtFirstMatch(rs, h);
    FinalAtFirstMatch(other, h);
  }

  lemma {:induction false} SameSettling(rs: RuleSet, other: RuleSet, h: seq<Packet>)
    requires other.hash == rs.hash && other.names == rs.names
    ensures FirstSettling(rs, h) == FirstSettling(other, h)
    ensures forall pk :: SniHit(rs, pk) == SniHit(other, pk)
  {
    if |h| > 0 {
      SameSettling(rs, other, h[..|h| - 1]);
    }
  }
}
