/**
  What the three stages make of a conversation, stated without them: the protocol is that
  of the first payload match, the application that of the best claim the addresses and the
  names put forward, and each kind of evidence is marked exactly when there was some.
*/
module Evidence {
  import opened Wrappers
  import opened Bits
  import opened Claims
  import opened TrieSpec
  import opened AddressBits
  import Lpm
  import opened Decode
  import opened Tls
  import opened TlsHello
  import opened Flows
  import opened Verdicts
  import opened FlowHistory

  // ------------------------------------------------------------------ the packets that are looked at

  /** The first packet that the matchers look at and that has such a hit. */
  ghost function FirstLooked(rs: RuleSet, h: seq<Packet>, hit: Packet -> bool): (k: Option<nat>)
    ensures k.Some? ==> k.value < |h|
  {
    if |h| == 0 then None
    else
      var front := FirstLooked(rs, h[..|h| - 1], hit);
      if front.Some? then front
      else if Inspected(FlowBefore(rs, h, |h| - 1)) && hit(h[|h| - 1]) then Some(|h| - 1)
      else None
  }

  /** It is looked at and a hit, and no packet before it is both. */
  lemma {:induction false} FirstLookedIsFirst(rs: RuleSet, h: seq<Packet>, hit: Packet -> bool)
    ensures match FirstLooked(rs, h, hit)
      case None => forall j :: 0 <= j < |h| ==> !(Inspected(FlowBefore(rs, h, j)) && hit(h[j]))
      case Some(k) =>
        && Inspected(FlowBefore(rs, h, k)) && hit(h[k])
        && forall j :: 0 <= j < k ==> !(Inspected(FlowBefore(rs, h, j)) && hit(h[j]))
  {
    hide Inspected, FlowAfter;
    if |h| > 0 {
      var front := h[..|h| - 1];
      FirstLookedIsFirst(rs, front, hit);
      forall j | 0 <= j < |front| ensures FlowBefore(rs, front, j) == FlowBefore(rs, h, j) && front[j] == h[j] {
        assert front[..j] == h[..j];
      }
    }
  }

  function HasPattern(rs: RuleSet): (p: Packet -> bool) {
    (pk: Packet) => PayloadHit(rs, pk).Some?
  }

  function HasOwner(rs: RuleSet): (p: Packet -> bool) {
    (pk: Packet) => IpHit(rs, pk).Some?
  }

  function HasName(rs: RuleSet): (p: Packet -> bool) {
    (pk: Packet) => SniHit(rs, pk).Some?
  }

  /** What looking at a packet does to the marks and to the protocol. */
  lemma ClassifyMarks(rs: RuleSet, v: Verdict, pk: Packet)
    ensures var w := Classify(rs, v, pk);
      && (w.evPayload <==> v.evPayload || PayloadHit(rs, pk).Some?)
      && (w.evIp <==> v.evIp || IpHit(rs, pk).Some?)
      && (w.evSni <==> v.evSni || SniHit(rs, pk).Some?)
      && (w.masterApp, w.masterTier, w.masterConf) ==
         (if v.evPayload || PayloadHit(rs, pk).None? then (v.masterApp, v.masterTier, v.masterConf)
          else (var c := PayloadHit(rs, pk).value.claim; (c.app, c.tier, c.conf)))
  {
    hide PayloadHit, IpHit, SniHit, EvidenceIsBetter;
  }

  /** The record after the last packet, by whether the packet was looked at. */
  lemma LastStep(rs: RuleSet, h: seq<Packet>)
    requires h != []
    ensures var n := |h| - 1;
      FlowAfter(rs, h).verdict ==
      if Inspected(FlowBefore(rs, h, n)) then Classify(rs, FlowBefore(rs, h, n).verdict, h[n])
      else FlowBefore(rs, h, n).verdict
  {
    hide Classify, Inspected;
  }

  lemma NewVerdict(pk: Packet)
    ensures NewFlow(pk).verdict == NO_VERDICT
  {
  }

  /**
    Over every conversation: a kind of evidence is marked exactly if a packet that was looked
    at had some, and the protocol is that of the first payload match among these packets.
  */
  lemma {:induction false} ProtocolIsFirst(rs: RuleSet, h: seq<Packet>)
    requires h != []
    ensures var v := FlowAfter(rs, h).verdict;
      && (v.evPayload <==> FirstLooked(rs, h, HasPattern(rs)).Some?)
      && (v.evIp <==> FirstLooked(rs, h, HasOwner(rs)).Some?)
      && (v.evSni <==> FirstLooked(rs, h, HasName(rs)).Some?)
      && match FirstLooked(rs, h, HasPattern(rs))
         case None => v.masterApp == NO_APP && v.masterTier == 0 && v.masterConf == 0
         case Some(k) =>
           PayloadHit(rs, h[k]).Some? &&
           var c := PayloadHit(rs, h[k]).value.claim;
           (v.masterApp, v.masterTier, v.masterConf) == (c.app, c.tier, c.conf)
  {
    hide Classify, Inspected, FlowAfter, NewFlow, PayloadHit, IpHit, SniHit;
    var n := |h| - 1;
    LastStep(rs, h);
    ClassifyMarks(rs, FlowBefore(rs, h, n).verdict, h[n]);
    NewVerdict(h[0]);
    if n > 0 {
      ProtocolIsFirst(rs, h[..n]);
    }
  }

  /** A server name comes out of TCP payloads only, out of a hello that shows its first bytes, at most 255 of them. */
  lemma NamesComeFromHellos(pk: Packet)
    ensures SniOf(pk).Some? ==>
      && pk.l4proto == 6 && pk.payload.Some?
      && exists t :: Shows(pk.payload.value, t) && SniOf(pk).value <= t.host && |SniOf(pk).value| < 256
  {
    hide FindHost, Shows;
    if SniOf(pk).Some? {
      var t := OnlyHellosHaveHosts(pk.payload.value);
      assert SniOf(pk).value <= t.host;
    }
  }

  // ------------------------------------------------------------------ the best claim

  /** The claims a looked-at packet puts forward: its owner's, if none was before, and its name's. */
  ghost function Claimed(rs: RuleSet, h: seq<Packet>, n: nat): (cs: seq<Claim>)
    requires n < |h|
  {
    var owner, name := IpHit(rs, h[n]), SniHit(rs, h[n]);
    (if owner.Some? && FirstLooked(rs, h[..n], HasOwner(rs)).None? then [owner.value.claim] else []) +
    (if name.Some? then [name.value.claim] else [])
  }

  /** All claims put forward in a conversation, in order. */
  ghost function AllClaims(rs: RuleSet, h: seq<Packet>): (cs: seq<Claim>) {
    if |h| == 0 then []
    else
      AllClaims(rs, h[..|h| - 1]) +
      (if Inspected(FlowBefore(rs, h, |h| - 1)) then Claimed(rs, h, |h| - 1) else [])
  }

  /** Claim `b` is beaten by none and beats all before it. */
  ghost predicate BestClaim(cs: seq<Claim>, b: nat) {
    && b < |cs|
    && (forall j :: 0 <= j < |cs| ==> !Beats(cs[j], cs[b]))
    && (forall j :: 0 <= j < b ==> Beats(cs[b], cs[j]))
  }

  /** The verdict's application is that of the best claim. */
  ghost predicate Upholds(v: Verdict, cs: seq<Claim>) {
    if cs == [] then (v.app, v.tier, v.conf, v.lic) == (NO_APP, 0, 0, 0)
    else v.app != NO_APP && exists b: nat :: BestClaim(cs, b) && Carries(v, cs[b])
  }

  lemma TakeUpholds(v: Verdict, cs: seq<Claim>, c: Claim)
    requires Upholds(v, cs) && c.app != NO_APP
    ensures Upholds(Take(v, c), cs + [c])
  {
    var all := cs + [c];
    if cs == [] {
      assert BestClaim(all, 0);
    } else {
      var b: nat :| BestClaim(cs, b) && Carries(v, cs[b]);
      assert forall j :: 0 <= j < |cs| ==> all[j] == cs[j];
      if Beats(c, cs[b]) {
        assert BestClaim(all, |cs|);
      } else {
        assert BestClaim(all, b);
      }
    }
  }

  lemma UpholdsFields(v: Verdict, w: Verdict, cs: seq<Claim>)
    requires Upholds(v, cs) && (w.app, w.tier, w.conf, w.lic) == (v.app, v.tier, v.conf, v.lic)
    ensures Upholds(w, cs)
  {
  }

  /** The stages, seen from the claims alone. */
  lemma StagesTake(rs: RuleSet, v: Verdict, pk: Packet)
    ensures var v2 := IpStage(rs, PayloadStage(rs, v, pk), pk);
      var asked := IpHit(rs, pk).Some? && !v.evIp;
      var t := if asked then Take(v, IpHit(rs, pk).value.claim) else v;
      (v2.app, v2.tier, v2.conf, v2.lic) == (t.app, t.tier, t.conf, t.lic)
    ensures var v2, w := IpStage(rs, PayloadStage(rs, v, pk), pk), Classify(rs, v, pk);
      var t := if SniHit(rs, pk).Some? then Take(v2, SniHit(rs, pk).value.claim) else v2;
      (w.app, w.tier, w.conf, w.lic) == (t.app, t.tier, t.conf, t.lic)
  {
    hide PayloadHit, IpHit, SniHit;
  }

  lemma ClassifyUpholds(rs: RuleSet, v: Verdict, cs: seq<Claim>, pk: Packet, asked: bool)
    requires Upholds(v, cs) && asked == (IpHit(rs, pk).Some? && !v.evIp)
    ensures Upholds(Classify(rs, v, pk), cs +
      ((if asked then [IpHit(rs, pk).value.claim] else []) +
       (if SniHit(rs, pk).Some? then [SniHit(rs, pk).value.claim] else [])))
  {
    hide PayloadHit, IpHit, SniHit, Upholds, Take, Classify, IpStage, PayloadStage;
    HitsAreNamed(rs, pk);
    StagesTake(rs, v, pk);
    var v2, w := IpStage(rs, PayloadStage(rs, v, pk), pk), Classify(rs, v, pk);
    var mine := if asked then [IpHit(rs, pk).value.claim] else [];
    var name := if SniHit(rs, pk).Some? then [SniHit(rs, pk).value.claim] else [];
    assert cs + [] == cs && cs + mine + [] == cs + mine;
    if asked {
      TakeUpholds(v, cs, IpHit(rs, pk).value.claim);
      UpholdsFields(Take(v, IpHit(rs, pk).value.claim), v2, cs + mine);
    } else {
      UpholdsFields(v, v2, cs + mine);
    }
    if SniHit(rs, pk).Some? {
      TakeUpholds(v2, cs + mine, SniHit(rs, pk).value.claim);
      UpholdsFields(Take(v2, SniHit(rs, pk).value.claim), w, cs + mine + name);
    } else {
      UpholdsFields(v2, w, cs + mine + name);
    }
    assert cs + mine + name == cs + (mine + name);
  }

  /**
    Over every conversation: the application, its tier, confidence and license are those of
    the best claim that was put forward, the earliest of equals; unknown without any.
  */
  lemma {:induction false} VerdictIsBestClaim(rs: RuleSet, h: seq<Packet>)
    requires h != []
    ensures Upholds(FlowAfter(rs, h).verdict, AllClaims(rs, h))
  {
    hide Classify, Inspected, FlowAfter, NewFlow, IpHit, SniHit, Upholds, FirstLooked;
    var n := |h| - 1;
    var before := FlowBefore(rs, h, n).verdict;
    LastStep(rs, h);
    NewVerdict(h[0]);
    NothingClaimed(rs, h[..0]);
    if n > 0 {
      VerdictIsBestClaim(rs, h[..n]);
      ProtocolIsFirst(rs, h[..n]);
    }
    assert Upholds(before, AllClaims(rs, h[..n]));
    if Inspected(FlowBefore(rs, h, n)) {
      ClassifyUpholds(rs, before, AllClaims(rs, h[..n]), h[n], IpHit(rs, h[n]).Some? && !before.evIp);
    } else {
      assert AllClaims(rs, h[..n]) + [] == AllClaims(rs, h[..n]);
    }
  }

  lemma NothingClaimed(rs: RuleSet, h: seq<Packet>)
    requires h == []
    ensures AllClaims(rs, h) == [] && FirstLooked(rs, h, HasOwner(rs)) == None && Upholds(NO_VERDICT, [])
  {
  }

  /**
    A conversation is final exactly if, after some packet that was looked at and whose name
    matched, the best claim so far is of tier A or B.
  */
  lemma {:induction false} FinalIff(rs: RuleSet, h: seq<Packet>)
    requires h != []
    ensures FlowAfter(rs, h).verdict.isFinal <==>
            exists k :: 0 <= k < |h| && SettledAt(rs, h, k)
  {
    hide Classify, Inspected, FlowAfter, SniHit, NewFlow;
    var n := |h| - 1;
    LastStep(rs, h);
    NewVerdict(h[0]);
    FinalStep(rs, FlowBefore(rs, h, n).verdict, h[n]);
    InspectedIff(rs, h, n);
    assert h[..n + 1] == h;
    if n > 0 {
      FinalIff(rs, h[..n]);
      forall k | 0 <= k < n ensures SettledAt(rs, h[..n], k) == SettledAt(rs, h, k) {
        assert h[..n][..k] == h[..k] && h[..n][..k + 1] == h[..k + 1];
      }
    }
    if SettledAt(rs, h, n) {
      assert FlowAfter(rs, h).verdict.isFinal;
    }
  }

  /** Packet `k` was looked at, its name matched, and the verdict after it is of tier A or B. */
  ghost predicate SettledAt(rs: RuleSet, h: seq<Packet>, k: nat)
    requires k < |h|
  {
    Inspected(FlowBefore(rs, h, k)) && SniHit(rs, h[k]).Some? && FlowAfter(rs, h[..k + 1]).verdict.tier <= 1
  }

  lemma FinalStep(rs: RuleSet, v: Verdict, pk: Packet)
    ensures !v.isFinal ==>
      (Classify(rs, v, pk).isFinal <==> SniHit(rs, pk).Some? && Classify(rs, v, pk).tier <= 1)
  {
    hide IpHit, PayloadHit, SniHit, EvidenceIsBetter;
  }

  // ------------------------------------------------------------------ what is counted

  /** What the record's application is once the packet's addresses have been asked. */
  function AfterOwner(rs: RuleSet, v: Verdict, pk: Packet): (c: Claim) {
    var mine, owner := Claim(v.app, v.tier, v.conf, v.lic), IpHit(rs, pk);
    if !v.evIp && owner.Some? && (v.app == NO_APP || Beats(owner.value.claim, mine)) then owner.value.claim else mine
  }

  /**
    How a packet that is looked at is counted, by the record before it and its three hits: a
    provisional verdict when the owner's claim is taken, a protocol without an application when
    nothing was known of that, and a revision when a name replaces another application.
  */
  lemma CountsByHits(rs: RuleSet, f: Flow, pk: Packet, st: Stats)
    requires Inspected(f)
    ensures var st', v := CountFlow(rs, f, pk, st), f.verdict;
      var pay, owner, name := PayloadHit(rs, pk), IpHit(rs, pk), SniHit(rs, pk);
      var known := AfterOwner(rs, v, pk);
      && st'.clientHellos == st.clientHellos + One(SniOf(pk).Some?)
      && st'.sniFound == st.sniFound + One(SniOf(pk).Some?)
      && st'.sniMatched == st.sniMatched + One(name.Some?)
      && st'.sniUnmatched == st.sniUnmatched + One(SniOf(pk).Some? && name.None?)
      && st'.payloadMatched == st.payloadMatched + One(pay.Some? && !v.evPayload)
      && st'.masterOnly == st.masterOnly + One(pay.Some? && !v.evPayload && v.app == NO_APP)
      && st'.ipMatched == st.ipMatched + One(owner.Some? && !v.evIp)
      && st'.provisional == st.provisional +
           One(owner.Some? && !v.evIp &&
               (v.app == NO_APP || Beats(owner.value.claim, Claim(v.app, v.tier, v.conf, v.lic))))
      && st'.revised == st.revised +
           One(name.Some? && known.app != NO_APP && Beats(name.value.claim, known) && known.app != name.value.claim.app)
      && st'.finals == st.finals +
           One(name.Some? &&
               (if known.app == NO_APP || Beats(name.value.claim, known) then name.value.claim else known).tier <= 1)
  {
    hide PayloadHit, IpHit, NameHit, SniOf;
  }

  // ------------------------------------------------------------------ owners of addresses

  /**
    The answer names the owner of the destination, if there is one, and else that of the
    source; it is a miss if no rule covers either.
  */
  ghost predicate Owned(hit: Option<Lpm.LpmHit>, rules: seq<Rule<bit>>, dst: seq<bit>, src: seq<bit>) {
    && (hit.None? <==> Lpm.Uncovered(rules, dst) && Lpm.Uncovered(rules, src))
    && (hit.Some? ==>
          exists w: nat :: Lpm.OwnsAddr(rules, w, if Lpm.Uncovered(rules, dst) then src else dst) &&
                           hit.value == Lpm.LpmHit(rules[w].claim, |rules[w].path|))
  }

  /** As the loader files prefixes: none is exact, and the owner in question is a real app. */
  ghost predicate Owners(rules: seq<Rule<bit>>, dst: seq<bit>, src: seq<bit>) {
    && (forall j :: 0 <= j < |rules| ==> !rules[j].exact)
    && Lpm.OwnerNamed(rules, dst) && Lpm.OwnerNamed(rules, src)
  }

  lemma ScanOwns(rules: seq<Rule<bit>>, addr: seq<byte>, bits: nat) returns (w: nat)
    requires bits <= 8 * |addr| && Lpm.OwnerNamed(rules, AddrBits(addr, bits))
    requires forall j :: 0 <= j < |rules| ==> !rules[j].exact
    ensures var hit := Lpm.LpmScan(rules, addr, bits);
      && (hit.None? <==> Lpm.Uncovered(rules, AddrBits(addr, bits)))
      && (hit.Some? ==> Lpm.OwnsAddr(rules, w, AddrBits(addr, bits)) &&
                        hit.value == Lpm.LpmHit(rules[w].claim, |rules[w].path|))
  {
    hide Lpm.LongestPrefix, Lpm.OwnsAddr, Lpm.Uncovered;
    var path := AddrBits(addr, bits);
    assert path[..|path|] == path;
    w := Lpm.LongestPrefixIsLongest(rules, path, bits);
  }

  /**
    IPv6 packets ask the IPv6 prefixes with all 128 bits, all others the IPv4 prefixes with
    32: the destination's owner answers, else the source's.
  */
  lemma AddressHitIsOwner(rs: RuleSet, pk: Packet)
    ensures pk.ipVersion == 6 && Owners(rs.v6, AddrBits(pk.dstIp, 128), AddrBits(pk.srcIp, 128)) ==>
      Owned(IpHit(rs, pk), rs.v6, AddrBits(pk.dstIp, 128), AddrBits(pk.srcIp, 128))
    ensures pk.ipVersion != 6 && Owners(rs.v4, AddrBits(pk.dstIp, 32), AddrBits(pk.srcIp, 32)) ==>
      Owned(IpHit(rs, pk), rs.v4, AddrBits(pk.dstIp, 32), AddrBits(pk.srcIp, 32))
  {
    hide Lpm.LpmScan, Lpm.OwnsAddr, Lpm.Uncovered, Lpm.OwnerNamed, AddrBits;
    if pk.ipVersion == 6 && Owners(rs.v6, AddrBits(pk.dstIp, 128), AddrBits(pk.srcIp, 128)) {
      var d := ScanOwns(rs.v6, pk.dstIp, 128);
      var s := ScanOwns(rs.v6, pk.srcIp, 128);
    }
    if pk.ipVersion != 6 && Owners(rs.v4, AddrBits(pk.dstIp, 32), AddrBits(pk.srcIp, 32)) {
      var d := ScanOwns(rs.v4, pk.dstIp, 32);
      var s := ScanOwns(rs.v4, pk.srcIp, 32);
    }
  }

  /** With a reserved id among the rules, too: the longest prefix table of the version is asked, twice at most. */
  lemma AddressHitAsks(rs: RuleSet, pk: Packet)
    ensures pk.ipVersion == 6 ==>
      IpHit(rs, pk) == (var d := Lpm.LpmScan(rs.v6, pk.dstIp, 128);
                        if d.Some? then d else Lpm.LpmScan(rs.v6, pk.srcIp, 128))
    ensures pk.ipVersion != 6 ==>
      IpHit(rs, pk) == (var d := Lpm.LpmScan(rs.v4, pk.dstIp, 32);
                        if d.Some? then d else Lpm.LpmScan(rs.v4, pk.srcIp, 32))
  {
  }

  /** Without a name, the first packet already has a provisional verdict: the address's owner. */
  lemma AddressAnswersFirst(rs: RuleSet, pk: Packet)
    requires SniHit(rs, pk).None? && IpHit(rs, pk).Some?
    ensures var v := FlowAfter(rs, [pk]).verdict;
      Carries(v, IpHit(rs, pk).value.claim) && !v.isFinal && v.evIp && !v.evSni
  {
    hide IpHit, SniHit, PayloadHit;
    HitsAreNamed(rs, pk);
  }

  /** Until a name matches, the owner found first keeps its word, whatever packets follow. */
  lemma {:induction false} OwnerStays(rs: RuleSet, h: seq<Packet>)
    requires h != [] && FirstLooked(rs, h, HasName(rs)).None? && FirstLooked(rs, h, HasOwner(rs)).Some?
    ensures IpHit(rs, h[FirstLooked(rs, h, HasOwner(rs)).value]).Some?
    ensures Carries(FlowAfter(rs, h).verdict, IpHit(rs, h[FirstLooked(rs, h, HasOwner(rs)).value]).value.claim)
  {
    hide FlowAfter, IpHit, SniHit, Inspected, FirstLooked, FlowBefore;
    FirstLookedIsFirst(rs, h, HasOwner(rs));
    OneOwnerClaims(rs, h);
    VerdictIsBestClaim(rs, h);
  }

  lemma {:induction false} OneOwnerClaims(rs: RuleSet, h: seq<Packet>)
    requires FirstLooked(rs, h, HasName(rs)).None?
    ensures match FirstLooked(rs, h, HasOwner(rs))
      case None => AllClaims(rs, h) == []
      case Some(k) => IpHit(rs, h[k]).Some? && AllClaims(rs, h) == [IpHit(rs, h[k]).value.claim]
  {
    hide FlowAfter, IpHit, SniHit, Inspected;
    if |h| > 0 {
      OneOwnerClaims(rs, h[..|h| - 1]);
    }
  }
}
