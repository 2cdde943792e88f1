/**
  What the payload matcher (src/match/payload.c) must answer, as a scan over the rules in
  order of insertion.
*/
module PayloadSpec {
  import opened Wrappers
  import opened Bits
  import opened Claims

  type Bytes4 = b: seq<byte> | |b| == 4 witness [0, 0, 0, 0]

  datatype PayRule = PayRule(value: Bytes4, mask: Bytes4, claim: Claim)

  datatype PayHit = PayHit(claim: Claim, wildcards: nat)

  function Be32(b: Bytes4): (n: nat)
    ensures n < 0x1_0000_0000
  {
    b[0] as int * 0x100_0000 + b[1] as int * 0x1_0000 + b[2] as int * 0x100 + b[3] as int
  }

  /** One bit per wildcarded byte, the first byte lowest. */
  function MaskIndex(mask: Bytes4): (i: nat)
    ensures i < 16
  {
    (if mask[0] == 0 then 1 else 0) + (if mask[1] == 0 then 2 else 0) +
    (if mask[2] == 0 then 4 else 0) + (if mask[3] == 0 then 8 else 0)
  }

  function Wildcards(mask: Bytes4): (r: nat) {
    (if mask[0] == 0 then 1 else 0) + (if mask[1] == 0 then 1 else 0) +
    (if mask[2] == 0 then 1 else 0) + (if mask[3] == 0 then 1 else 0)
  }

  /** The wildcards of every mask with index `i`. */
  function WildcardsOf(i: nat): (r: nat)
    requires i < 16
  {
    [0, 1, 1, 2, 1, 2, 2, 3, 1, 2, 2, 3, 2, 3, 3, 4][i]
  }

  lemma WildcardsByIndex(mask: Bytes4)
    ensures WildcardsOf(MaskIndex(mask)) == Wildcards(mask)
    ensures MaskIndex(mask) == 15 <==> AllWild(mask)
  {
  }

  predicate AllWild(mask: Bytes4) {
    mask[0] == 0 && mask[1] == 0 && mask[2] == 0 && mask[3] == 0
  }

  // ------------------------------------------------------------------ buckets

  /** The mask a bucket works with: that of the first rule filed in it. */
  function BucketMask(rules: seq<PayRule>, i: nat): (r: Option<nat>) {
    if |rules| == 0 then None
    else
      var front, r := BucketMask(rules[..|rules| - 1], i), rules[|rules| - 1];
      if front.None? && MaskIndex(r.mask) == i then Some(Be32(r.mask)) else front
  }

  /** Rule `r` is filed in bucket `i`, whose mask is `bm`, under `key`. */
  predicate FiledAt(r: PayRule, i: nat, bm: nat, key: nat) {
    MaskIndex(r.mask) == i && And(Be32(r.value), bm) == key
  }

  /** The last word on a pattern: the first claim, unless a more confident one came later. */
  function Holder(rules: seq<PayRule>, i: nat, bm: nat, key: nat): (r: Option<Claim>) {
    if |rules| == 0 then None
    else
      var front, r := Holder(rules[..|rules| - 1], i, bm, key), rules[|rules| - 1];
      if !FiledAt(r, i, bm, key) then front
      else if front.Some? && r.claim.conf <= front.value.conf then front
      else Some(r.claim)
  }

  /** The lookup: buckets in order, skipping those that cannot be tighter than the best so far. */
  function ScanBuckets(rules: seq<PayRule>, word: nat, n: nat): (r: Option<PayHit>)
    requires n <= 16
  {
    if n == 0 then None
    else
      var best := ScanBuckets(rules, word, n - 1);
      var bm := BucketMask(rules, n - 1);
      if bm.None? || (best.Some? && WildcardsOf(n - 1) >= best.value.wildcards) then best
      else
        match Holder(rules, n - 1, bm.value, And(word, bm.value))
        case None => best
        case Some(c) => Some(PayHit(c, WildcardsOf(n - 1)))
  }

  /** The answer for a payload; shorter than four bytes, it has none. */
  function PayScan(rules: seq<PayRule>, payload: seq<byte>): (r: Option<PayHit>) {
    if |payload| < 4 then None else ScanBuckets(rules, Be32(payload[..4]), 16)
  }

  lemma BucketMaskOneMore(rules: seq<PayRule>, r: PayRule, i: nat)
    ensures BucketMask(rules + [r], i) ==
            if BucketMask(rules, i).None? && MaskIndex(r.mask) == i then Some(Be32(r.mask))
            else BucketMask(rules, i)
  {
    assert (rules + [r])[..|rules|] == rules;
  }

  lemma HolderOneMore(rules: seq<PayRule>, r: PayRule, i: nat, bm: nat, key: nat)
    ensures Holder(rules + [r], i, bm, key) ==
            (var front := Holder(rules, i, bm, key);
             if !FiledAt(r, i, bm, key) || (front.Some? && r.claim.conf <= front.value.conf)
             then front else Some(r.claim))
  {
    assert (rules + [r])[..|rules|] == rules;
  }

  lemma {:induction false} EmptyBucket(rules: seq<PayRule>, i: nat)
    ensures BucketMask(rules, i).None? <==> forall j :: 0 <= j < |rules| ==> MaskIndex(rules[j].mask) != i
    ensures BucketMask(rules, i).None? ==> forall bm, key :: Holder(rules, i, bm, key).None?
  {
    if |rules| > 0 {
      var n := |rules| - 1;
      EmptyBucket(rules[..n], i);
      assert forall j :: 0 <= j < n ==> rules[..n][j] == rules[j];
    }
  }

  // ------------------------------------------------- what the scan answers

  /**
    Rule `j` matches the word, under the mask its bucket works with. For rules whose masks
    are made of 0x00 and 0xFF bytes that is the rule's own mask (`ByteMasksAreOwn`).
  */
  ghost predicate Matches(rules: seq<PayRule>, j: nat, word: nat) {
    && j < |rules|
    && BucketMask(rules, MaskIndex(rules[j].mask)).Some?
    && var bm := BucketMask(rules, MaskIndex(rules[j].mask)).value;
       And(Be32(rules[j].value), bm) == And(word, bm)
  }

  /** Rules `j` and `k` are filed in one bucket; if both match a word, under one pattern. */
  ghost predicate SameBucket(rules: seq<PayRule>, j: nat, k: nat) {
    j < |rules| && k < |rules| && MaskIndex(rules[j].mask) == MaskIndex(rules[k].mask)
  }

  /**
    Rule `k` is the tightest match: no matching rule has fewer wildcards, or as many and a
    lower bucket; and among the rules for its pattern it is the most confident, the
    earliest on ties.
  */
  ghost predicate Tightest(rules: seq<PayRule>, word: nat, k: nat) {
    && Matches(rules, k, word)
    && (forall j: nat :: Matches(rules, j, word) ==> NoLooser(rules[k].mask, rules[j].mask))
    && StrongestOfPattern(rules, word, k)
  }

  /** Mask `m` has fewer wildcards than `o`, or as many and comes in an earlier bucket. */
  predicate NoLooser(m: Bytes4, o: Bytes4) {
    Wildcards(m) < Wildcards(o) || (Wildcards(m) == Wildcards(o) && MaskIndex(m) <= MaskIndex(o))
  }

  ghost predicate StrongestOfPattern(rules: seq<PayRule>, word: nat, k: nat)
    requires k < |rules|
  {
    && (forall j: nat :: Matches(rules, j, word) && SameBucket(rules, j, k) ==>
          rules[j].claim.conf <= rules[k].claim.conf)
    && (forall j: nat :: j < k && Matches(rules, j, word) && SameBucket(rules, j, k) ==>
          rules[j].claim.conf < rules[k].claim.conf)
  }

  /** Among the rules filed under one key, rule `k` is the most confident, earliest on ties. */
  ghost predicate Holds(rules: seq<PayRule>, i: nat, bm: nat, key: nat, k: nat) {
    && k < |rules| && FiledAt(rules[k], i, bm, key)
    && (forall j: nat :: j < |rules| && FiledAt(rules[j], i, bm, key) ==>
          rules[j].claim.conf <= rules[k].claim.conf)
    && (forall j: nat :: j < k && FiledAt(rules[j], i, bm, key) ==>
          rules[j].claim.conf < rules[k].claim.conf)
  }

  lemma {:induction false} HolderHolds(rules: seq<PayRule>, i: nat, bm: nat, key: nat) returns (k: nat)
    ensures Holder(rules, i, bm, key).None? <==>
            forall j :: 0 <= j < |rules| ==> !FiledAt(rules[j], i, bm, key)
    ensures Holder(rules, i, bm, key).Some? ==>
            Holds(rules, i, bm, key, k) && Holder(rules, i, bm, key) == Some(rules[k].claim)
  {
    k := 0;
    if |rules| > 0 {
      var n := |rules| - 1;
      var front := rules[..n];
      assert rules == front + [rules[n]];
      HolderOneMore(front, rules[n], i, bm, key);
      k := HolderHolds(front, i, bm, key);
      var h := Holder(front, i, bm, key);
      assert forall j :: 0 <= j < n ==> rules[j] == front[j];
      if FiledAt(rules[n], i, bm, key) && (h.None? || rules[n].claim.conf > h.value.conf) {
        k := n;
      }
    }
  }

  /** Rule `j` matches and lies in one of the first `n` buckets. */
  ghost predicate MatchesBelow(rules: seq<PayRule>, j: nat, word: nat, n: nat) {
    Matches(rules, j, word) && MaskIndex(rules[j].mask) < n
  }

  ghost predicate TightestBelow(rules: seq<PayRule>, word: nat, k: nat, n: nat) {
    && MatchesBelow(rules, k, word, n)
    && (forall j: nat :: MatchesBelow(rules, j, word, n) ==> NoLooser(rules[k].mask, rules[j].mask))
    && StrongestOfPattern(rules, word, k)
  }

  /** A bucket's holder for the word is its strongest matching rule. */
  lemma BucketMatch(rules: seq<PayRule>, word: nat, i: nat) returns (k: nat)
    requires BucketMask(rules, i).Some?
    ensures var h := Holder(rules, i, BucketMask(rules, i).value, And(word, BucketMask(rules, i).value));
      && (h.None? <==> forall j: nat :: Matches(rules, j, word) ==> MaskIndex(rules[j].mask) != i)
      && (h.Some? ==>
            && Matches(rules, k, word) && MaskIndex(rules[k].mask) == i && h.value == rules[k].claim
            && StrongestOfPattern(rules, word, k))
  {
    var bm := BucketMask(rules, i).value;
    k := HolderHolds(rules, i, bm, And(word, bm));
    assert forall j: nat :: j < |rules| && MaskIndex(rules[j].mask) == i ==>
      (Matches(rules, j, word) <==> FiledAt(rules[j], i, bm, And(word, bm)));
  }

  /** A bucket that is no tighter than the best so far cannot hold a better match. */
  lemma SkipBucket(rules: seq<PayRule>, word: nat, k: nat, i: nat)
    requires i < 16 && TightestBelow(rules, word, k, i) && WildcardsOf(i) >= Wildcards(rules[k].mask)
    ensures TightestBelow(rules, word, k, i + 1)
  {
    forall j: nat | MatchesBelow(rules, j, word, i + 1)
      ensures NoLooser(rules[k].mask, rules[j].mask)
    {
      WildcardsByIndex(rules[j].mask);
      if MaskIndex(rules[j].mask) < i {
        assert MatchesBelow(rules, j, word, i);
      }
    }
  }

  /** A tighter bucket with a match beats every bucket before it. */
  lemma TakeBucket(rules: seq<PayRule>, word: nat, best: Option<nat>, k: nat, i: nat)
    requires i < 16
    requires match best
             case None => forall j: nat :: !MatchesBelow(rules, j, word, i)
             case Some(b) => TightestBelow(rules, word, b, i) && WildcardsOf(i) < Wildcards(rules[b].mask)
    requires Matches(rules, k, word) && MaskIndex(rules[k].mask) == i && StrongestOfPattern(rules, word, k)
    ensures TightestBelow(rules, word, k, i + 1)
  {
    WildcardsByIndex(rules[k].mask);
    forall j: nat | MatchesBelow(rules, j, word, i + 1)
      ensures NoLooser(rules[k].mask, rules[j].mask)
    {
      WildcardsByIndex(rules[j].mask);
      if MaskIndex(rules[j].mask) < i {
        assert MatchesBelow(rules, j, word, i);
      }
    }
  }

  /** Without a match in bucket `i`, nothing changes. */
  lemma EmptyHanded(rules: seq<PayRule>, word: nat, n: nat)
    requires n > 0 && forall j: nat :: Matches(rules, j, word) ==> MaskIndex(rules[j].mask) != n - 1
    ensures forall j: nat :: MatchesBelow(rules, j, word, n) <==> MatchesBelow(rules, j, word, n - 1)
  {
  }

  lemma {:induction false} ScanBucketsIsTightest(rules: seq<PayRule>, word: nat, n: nat) returns (k: nat)
    requires n <= 16
    ensures ScanBuckets(rules, word, n).None? <==> forall j: nat :: !MatchesBelow(rules, j, word, n)
    ensures ScanBuckets(rules, word, n).Some? ==>
      TightestBelow(rules, word, k, n) &&
      ScanBuckets(rules, word, n) == Some(PayHit(rules[k].claim, Wildcards(rules[k].mask)))
  {
    hide Matches, StrongestOfPattern, NoLooser, Holder, BucketMask, And, WildcardsOf;
    k := 0;
    if n == 0 {
      NoBucketBelowZero(rules, word);
    } else {
      var i := n - 1;
      k := ScanBucketsIsTightest(rules, word, i);
      var best := ScanBuckets(rules, word, i);
      var was := if best.Some? then Some(k) else None;
      if BucketMask(rules, i).None? {
        NoMatchInEmptyBucket(rules, word, i);
        EmptyHanded(rules, word, n);
      } else if best.Some? && WildcardsOf(i) >= best.value.wildcards {
        SkipBucket(rules, word, k, i);
      } else {
        var k' := BucketMatch(rules, word, i);
        var bm := BucketMask(rules, i).value;
        if Holder(rules, i, bm, And(word, bm)).None? {
          EmptyHanded(rules, word, n);
        } else {
          TakeBucket(rules, word, was, k', i);
          WildcardsByIndex(rules[k'].mask);
          k := k';
        }
      }
    }
    if ScanBuckets(rules, word, n).Some? {
      assert TightestBelow(rules, word, k, n);
      assert MatchesBelow(rules, k, word, n);
    } else {
      assert forall j: nat :: !MatchesBelow(rules, j, word, n);
    }
  }

  lemma NoBucketBelowZero(rules: seq<PayRule>, word: nat)
    ensures forall j: nat :: !MatchesBelow(rules, j, word, 0)
  {
  }

  lemma NoMatchInEmptyBucket(rules: seq<PayRule>, word: nat, i: nat)
    requires BucketMask(rules, i).None?
    ensures forall j: nat :: Matches(rules, j, word) ==> MaskIndex(rules[j].mask) != i
  {
  }

  /** The scan finds the tightest match, and misses exactly when nothing matches. */
  lemma PayScanIsTightest(rules: seq<PayRule>, payload: seq<byte>) returns (k: nat)
    requires |payload| >= 4
    ensures var word := Be32(payload[..4]);
      && (PayScan(rules, payload).None? <==> forall j: nat :: !Matches(rules, j, word))
      && (PayScan(rules, payload).Some? ==>
            Tightest(rules, word, k) &&
            PayScan(rules, payload) == Some(PayHit(rules[k].claim, Wildcards(rules[k].mask))))
  {
    var word := Be32(payload[..4]);
    k := ScanBucketsIsTightest(rules, word, 16);
    assert forall j: nat :: MatchesBelow(rules, j, word, 16) <==> Matches(rules, j, word);
  }

  lemma TightestIsUnique(rules: seq<PayRule>, word: nat, i: nat, j: nat)
    requires Tightest(rules, word, i) && Tightest(rules, word, j)
    ensures i == j
  {
    assert MaskIndex(rules[i].mask) == MaskIndex(rules[j].mask);
    assert SameBucket(rules, i, j) && SameBucket(rules, j, i);
  }

  // ------------------------------------------------- whose mask counts

  /** The rule matches the word under its own mask: `word & mask == value & mask`. */
  predicate OwnMatch(r: PayRule, word: nat) {
    And(Be32(r.value), Be32(r.mask)) == And(word, Be32(r.mask))
  }

  lemma Pow2Of32()
    ensures Pow2(32) == 0x1_0000_0000
  {
    assert Pow2(8) == 0x100 && Pow2(16) == 0x1_0000 && Pow2(24) == 0x100_0000;
  }

  /**
    A bucket works with the mask of its first rule. A rule is matched as written, for every
    word, if and only if its own mask is that mask.
  */
  lemma OwnMaskIffBucketMask(rules: seq<PayRule>, j: nat)
    requires j < |rules|
    ensures (forall word: u32 :: Matches(rules, j, word) <==> OwnMatch(rules[j], word)) <==>
            BucketMask(rules, MaskIndex(rules[j].mask)) == Some(Be32(rules[j].mask))
  {
    var i := MaskIndex(rules[j].mask);
    EmptyBucket(rules, i);
    var bm, m, v := BucketMask(rules, i).value, Be32(rules[j].mask), Be32(rules[j].value);
    if bm != m {
      var k := BucketMaskOfRule(rules, i);
      Pow2Of32();
      var w := MasksDiffer(32, v, bm, m);
      var word: u32 := w;
      assert Matches(rules, j, word) != OwnMatch(rules[j], word);
    }
  }

  /** A bucket's mask is that of a rule filed in it. */
  lemma {:induction false} BucketMaskOfRule(rules: seq<PayRule>, i: nat) returns (k: nat)
    ensures BucketMask(rules, i).Some? ==>
      k < |rules| && MaskIndex(rules[k].mask) == i && BucketMask(rules, i) == Some(Be32(rules[k].mask))
  {
    k := 0;
    if |rules| > 0 {
      var n := |rules| - 1;
      k := BucketMaskOfRule(rules[..n], i);
      if BucketMask(rules[..n], i).None? {
        k := n;
      }
    }
  }

  /** The masks the database format allows: 0xFF, the byte must match; 0x00, it need not. */
  predicate ByteMask(mask: Bytes4) {
    forall i :: 0 <= i < 4 ==> mask[i] == 0 || mask[i] == 0xFF
  }

  lemma ByteMaskByIndex(m: Bytes4, o: Bytes4)
    requires ByteMask(m) && ByteMask(o) && MaskIndex(m) == MaskIndex(o)
    ensures m == o
  {
    assert m[0] == o[0] && m[1] == o[1] && m[2] == o[2] && m[3] == o[3];
  }

  /** With masks of whole bytes, every rule is matched under its own mask. */
  lemma {:induction false} ByteMasksAreOwn(rules: seq<PayRule>, j: nat)
    requires j < |rules| && forall k :: 0 <= k < |rules| ==> ByteMask(rules[k].mask)
    ensures BucketMask(rules, MaskIndex(rules[j].mask)) == Some(Be32(rules[j].mask))
  {
    var i, n := MaskIndex(rules[j].mask), |rules| - 1;
    var front := rules[..n];
    EmptyBucket(front, i);
    if k :| 0 <= k < n && MaskIndex(front[k].mask) == i {
      ByteMaskByIndex(front[k].mask, rules[j].mask);
      ByteMasksAreOwn(front, k);
    } else {
      assert j == n;
    }
  }

  /** Rule `k` matches under its own mask, as tightly as any that does, and is the surest for its mask. */
  ghost predicate TightestOwn(rules: seq<PayRule>, word: nat, k: nat) {
    && k < |rules| && OwnMatch(rules[k], word)
    && (forall j: nat :: j < |rules| && OwnMatch(rules[j], word) ==> NoLooser(rules[k].mask, rules[j].mask))
    && (forall j: nat :: j < |rules| && OwnMatch(rules[j], word) && rules[j].mask == rules[k].mask ==>
          rules[j].claim.conf <= rules[k].claim.conf && (j < k ==> rules[j].claim.conf < rules[k].claim.conf))
  }

  /** The matcher's answer for the masks of the database format, without any mention of buckets. */
  lemma ByteMaskScan(rules: seq<PayRule>, payload: seq<byte>) returns (k: nat)
    requires |payload| >= 4 && forall j :: 0 <= j < |rules| ==> ByteMask(rules[j].mask)
    ensures var word := Be32(payload[..4]);
      && (PayScan(rules, payload).None? <==> forall j: nat :: j < |rules| ==> !OwnMatch(rules[j], word))
      && (PayScan(rules, payload).Some? ==>
            TightestOwn(rules, word, k) &&
            PayScan(rules, payload) == Some(PayHit(rules[k].claim, Wildcards(rules[k].mask))))
  {
    hide PayScan, ByteMask, MaskIndex, Wildcards, NoLooser;
    var word := Be32(payload[..4]);
    k := PayScanIsTightest(rules, payload);
    forall j: nat | j < |rules| ensures Matches(rules, j, word) <==> OwnMatch(rules[j], word) {
      ByteMasksAreOwn(rules, j);
    }
    hide Matches, OwnMatch, Be32;
  }

  /** Such a rule matches exactly the payloads that have its bytes where it pins them. */
  lemma OwnMatchByBytes(r: PayRule, p: Bytes4)
    requires ByteMask(r.mask)
    ensures OwnMatch(r, Be32(p)) <==> forall i :: 0 <= i < 4 && r.mask[i] == 0xFF ==> p[i] == r.value[i]
  {
    hide And;
    MaskedBytes(r.value, r.mask);
    MaskedBytes(p, r.mask);
    DigitsUnique(Masked(r.value, r.mask), Masked(p, r.mask));
  }

  function Masked(p: Bytes4, m: Bytes4): (r: Bytes4)
  {
    [if m[0] == 0 then 0 else p[0], if m[1] == 0 then 0 else p[1],
     if m[2] == 0 then 0 else p[2], if m[3] == 0 then 0 else p[3]]
  }

  lemma DigitsUnique(a: Bytes4, b: Bytes4)
    ensures Be32(a) == Be32(b) <==> a[0] == b[0] && a[1] == b[1] && a[2] == b[2] && a[3] == b[3]
  {
  }

  lemma MaskedBytes(p: Bytes4, m: Bytes4)
    requires ByteMask(m)
    ensures And(Be32(p), Be32(m)) == Be32(Masked(p, m))
  {
    MaskedByte(p[0], m[0]);
    MaskedByte(p[1], m[1]);
    MaskedByte(p[2], m[2]);
    MaskedByte(p[3], m[3]);
    AndBe32(p, m);
  }

  lemma MaskedByte(b: byte, m: byte)
    requires m == 0 || m == 0xFF
    ensures And(b, m) == if m == 0 then 0 else b
  {
    if m == 0xFF {
      assert IsPow2(0x100) by {
        assert IsPow2(2) && IsPow2(4) && IsPow2(8) && IsPow2(16) && IsPow2(32) && IsPow2(64) && IsPow2(128);
      }
      MaskIsModulo(b, 0x100);
    }
  }

  lemma AndBe32(p: Bytes4, m: Bytes4)
    ensures And(Be32(p), Be32(m)) ==
            0x100_0000 * And(p[0], m[0]) + 0x1_0000 * And(p[1], m[1]) + 0x100 * And(p[2], m[2]) + And(p[3], m[3])
  {
    hide And;
    AndBytes(p[0], p[1], m[0], m[1]);
    AndBytes(0x100 * p[0] as int + p[1] as int, p[2], 0x100 * m[0] as int + m[1] as int, m[2]);
    AndBytes(0x1_0000 * p[0] as int + 0x100 * p[1] as int + p[2] as int, p[3],
             0x1_0000 * m[0] as int + 0x100 * m[1] as int + m[2] as int, m[3]);
  }
}
