/**
  Competing claims to the same name, prefix or pattern. All three indexes keep, per key,
  one claim, and let a later claim displace it only when it is more confident.
*/
module Claims {
  import opened Bits

  /** NGFW_TRIE_NO_APP, NGFW_LPM_NO_APP and NGFW_APP_UNKNOWN. */
  const NO_APP: u32 := 0xFFFF_FFFF

  /** How good the evidence is: A is the best. */
  const TIER_A: byte := 0
  const TIER_B: byte := 1
  const TIER_C: byte := 2

  datatype Claim = Claim(app: u32, tier: byte, conf: byte, lic: byte)

  /** A node that nothing has claimed yet. */
  const UNCLAIMED := Claim(NO_APP, 0, 0, 0)

  /** What the trie and the prefix table store after `c` is made against `cur`. */
  function Challenge(cur: Claim, c: Claim): (r: Claim) {
    if cur.app == NO_APP || c.conf > cur.conf then c else cur
  }

  /** All of `cs`, made one after the other against an unclaimed node. */
  function Settle(cs: seq<Claim>): (r: Claim) {
    if |cs| == 0 then UNCLAIMED
    else Challenge(Settle(cs[..|cs| - 1]), cs[|cs| - 1])
  }

  lemma SettleOneMore(cs: seq<Claim>, c: Claim)
    ensures Settle(cs + [c]) == Challenge(Settle(cs), c)
  {
    assert (cs + [c])[..|cs|] == cs;
  }

  /** Claim `k` has the highest confidence, and is the earliest that does. */
  ghost predicate Strongest(cs: seq<Claim>, k: nat) {
    && k < |cs|
    && (forall j :: 0 <= j < |cs| ==> cs[j].conf <= cs[k].conf)
    && (forall j :: 0 <= j < k ==> cs[j].conf < cs[k].conf)
  }

  /** What is stored was claimed by someone. */
  lemma {:induction false} SettleFromClaims(cs: seq<Claim>)
    ensures Settle(cs) == UNCLAIMED || Settle(cs) in cs
  {
    if |cs| > 0 {
      SettleFromClaims(cs[..|cs| - 1]);
    }
  }

  lemma {:induction false} StrongestExists(cs: seq<Claim>) returns (k: nat)
    requires cs != []
    ensures Strongest(cs, k)
  {
    var n := |cs| - 1;
    k := n;
    if n > 0 {
      var front := StrongestExists(cs[..n]);
      k := if cs[n].conf > cs[front].conf then n else front;
    }
  }

  /**
    The order of arrival hardly matters: what is stored in the end is the most confident
    claim, the earliest one on ties, exactly if that one is not for the reserved app id.
    Weaker claims for the reserved id do no harm.
  */
  lemma {:induction false} SettleIsStrongestIff(cs: seq<Claim>, k: nat)
    requires Strongest(cs, k)
    ensures Settle(cs) == cs[k] && Settle(cs).app != NO_APP <==> cs[k].app != NO_APP
  {
    if cs[k].app != NO_APP {
      var n := |cs| - 1;
      if k < n {
        SettleIsStrongestIff(cs[..n], k);
      } else {
        SettleFromClaims(cs[..n]);
      }
    }
  }

  /**
    The reserved id is not an ordinary one: a claim for it wipes out a good claim exactly if
    it is more confident.
  */
  lemma ReservedIdErases(good: Claim, bad: Claim)
    requires good.app != NO_APP && bad.app == NO_APP
    ensures Settle([good, bad]).app == NO_APP <==> bad.conf > good.conf
  {
    SettleOneMore([], good);
    SettleOneMore([good], bad);
    assert [] + [good] == [good] && [good] + [bad] == [good, bad];
  }
}
