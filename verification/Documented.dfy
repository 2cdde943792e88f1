/**
  Two sentences of docs/engine.md that the code does not keep in general, each with inputs
  at which it fails. When exactly they hold is said in `FlowHistory`.
*/
module Documented {
  import opened Wrappers
  import opened Bits
  import opened Claims
  import opened Labels
  import opened TrieSpec
  import opened DomainTrie
  import opened AddressBits
  import Lpm
  import opened Decode
  import opened Flows
  import opened Verdicts
  import opened FlowHistory

  // ------------------------------------------------------------------ "only the first 12 packets"

  /** Without a matched name a flow never becomes final. */
  lemma {:induction false} NoNameNoFinal(rs: RuleSet, h: seq<Packet>)
    requires h != [] && forall k :: 0 <= k < |h| ==> SniHit(rs, h[k]).None?
    ensures !FlowAfter(rs, h).verdict.isFinal
  {
    hide SniHit, IpHit, PayloadHit, EvidenceIsBetter;
    if |h| > 1 {
      NoNameNoFinal(rs, h[..|h| - 1]);
    }
  }

  /** In every conversation of 65536 packets or more without a matched name, the matchers see a late packet. */
  lemma LongUnnamedFlow(rs: RuleSet, h: seq<Packet>)
    requires |h| >= 0x1_0000 && forall k :: 0 <= k < |h| ==> SniHit(rs, h[k]).None?
    ensures !TwelveAtMost(rs, h)
  {
    hide SniHit, FlowAfter, TwelveAtMost;
    TwelveAtMostIff(rs, h);
    NoNameNoFinal(rs, h[..0xFFFF]);
  }

  /** The same packet, over and over. */
  function Repeated(pk: Packet, n: nat): (h: seq<Packet>)
    ensures |h| == n && forall k :: 0 <= k < n ==> h[k] == pk
  {
    seq(n, _ => pk)
  }

  /** An empty datagram. */
  const DATAGRAM := Packet(4, L4_UDP, NO_ADDRESS, NO_ADDRESS, 53, 53, None)

  /** Whatever the rules: 65536 empty datagrams of one conversation. */
  lemma TwelveFails(rs: RuleSet)
    ensures !TwelveAtMost(rs, Repeated(DATAGRAM, 0x1_0000))
  {
    hide TwelveAtMost;
    LongUnnamedFlow(rs, Repeated(DATAGRAM, 0x1_0000));
  }

  // ------------------------------------------------------------------ "SNI corrects the owner"

  /** One exact rule for a name, and one prefix rule for all addresses. */
  function TwoRules(hash: Label -> nat, path: seq<nat>, named: Claim, owner: Claim): (r: RuleSet) {
    RuleSet(hash, [Rule(path, true, named)], [Rule([], false, owner)], [Rule([], false, owner)], [])
  }

  lemma OnlyName(path: seq<nat>, c: Claim)
    requires path != [] && c.app != NO_APP
    ensures Scan([Rule(path, true, c)], path).Some? && Scan([Rule(path, true, c)], path).value.claim == c
  {
    hide Scan;
    var rules := [Rule(path, true, c)];
    FullDepth(rules, path, 0);
    ScanFromRules(rules, path);
  }

  lemma OnlyOwner(addr: seq<byte>, bits: nat, c: Claim)
    requires bits <= 8 * |addr| && c.app != NO_APP
    ensures Lpm.LpmScan([Rule([], false, c)], addr, bits) == Some(Lpm.LpmHit(c, 0))
  {
    hide Lpm.LongestPrefix;
    var rules: seq<Rule<bit>> := [Rule([], false, c)];
    var path := AddrBits(addr, bits);
    assert path[..|path|] == path;
    assert Lpm.CoversAddr(rules, 0, path);
    assert Best(rules, 0, [], false);
    Lpm.OwnerAnswersIff(rules, path, bits, 0);
  }

  /**
    A server name that matches its own exact rule does not correct the owner of the address
    if the owner's claim is of tier A or B and is not beaten: the flow is final, with the
    owner's app.
  */
  lemma OwnerOverridesName(hash: Label -> nat, pk: Packet, named: Claim, owner: Claim)
    requires SniOf(pk).Some? && HashedPath(hash, SniOf(pk).value).Some?
    requires named.app != NO_APP && owner.app != NO_APP && owner.tier <= TIER_B && !Beats(named, owner)
    ensures var rs := TwoRules(hash, HashedPath(hash, SniOf(pk).value).value, named, owner);
      var v := FlowAfter(rs, [pk]).verdict;
      && SniHit(rs, pk).Some? && SniHit(rs, pk).value.claim == named
      && v.isFinal && Carries(v, owner)
  {
    hide FlowAfter, Scan, HashedPath, SniOf, Lpm.LpmScan;
    var path := HashedPath(hash, SniOf(pk).value).value;
    OnlyName(path, named);
    OnlyOwner(pk.dstIp, 128, owner);
    OnlyOwner(pk.dstIp, 32, owner);
    StrongPrefixWins(TwoRules(hash, path, named, owner), pk);
  }

  const SITE := Claim(1, TIER_B, 50, 0)
  const CLOUD := Claim(2, TIER_B, 90, 0)

  /** With every packet that has a usable server name. */
  lemma CorrectionFails(hash: Label -> nat, pk: Packet)
    requires SniOf(pk).Some? && HashedPath(hash, SniOf(pk).value).Some?
    ensures var rs := TwoRules(hash, HashedPath(hash, SniOf(pk).value).value, SITE, CLOUD);
      && SniHit(rs, pk).Some? && SniHit(rs, pk).value.claim.app == SITE.app
      && FlowAfter(rs, [pk]).verdict.isFinal && FlowAfter(rs, [pk]).verdict.app == CLOUD.app
      && !NameDecides(rs, [pk])
  {
    hide FlowAfter, HashedPath, SniOf, SniHit, FirstSettling;
    var rs := TwoRules(hash, HashedPath(hash, SniOf(pk).value).value, SITE, CLOUD);
    OwnerOverridesName(hash, pk, SITE, CLOUD);
    OnePacket(rs, pk);
  }
}
