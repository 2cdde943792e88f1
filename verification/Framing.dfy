/**
  The guard against payload rules that really match "a TLS record" (tools/sigc.py), and
  what it does to the matcher's answers on TLS traffic.
*/
module Framing {
  import opened Wrappers
  import opened Bits
  import opened Sigc
  import opened PayloadSpec

  /**
    A pattern is refused exactly if it is not four bytes with a mask of four, pins nothing, or
    pins two bytes that are a TLS content type and 3; of an accepted one the pinned bits are kept.
  */
  lemma AcceptedIff(value: seq<byte>, mask: seq<byte>)
    ensures AcceptPattern(value, mask).Some? <==>
      && |value| == 4 && |mask| == 4 && (exists i :: 0 <= i < 4 && mask[i] != 0)
      && !(mask[0] != 0 && value[0] in {20, 21, 22, 23} && mask[1] != 0 && value[1] == 3)
    ensures AcceptPattern(value, mask).Some? ==>
      var (v, m) := AcceptPattern(value, mask).value;
      m == mask && forall i :: 0 <= i < 4 ==> (mask[i] == 0xFF ==> v[i] == value[i]) && (mask[i] == 0 ==> v[i] == 0)
  {
    hide And;
    if |value| == 4 && |mask| == 4 {
      forall i | 0 <= i < 4 && (mask[i] == 0xFF || mask[i] == 0)
        ensures And(value[i], mask[i]) == if mask[i] == 0 then 0 else value[i]
      {
        MaskedByte(value[i], mask[i]);
      }
    }
  }

  /** The payload starts like a TLS record: content type and major version. */
  predicate TlsStart(p: Bytes4) {
    TlsType(p[0]) && p[1] == TLS_MAJOR
  }

  /** A stored pattern, matched under its own mask. */
  predicate StoredMatch(value: Bytes4, mask: Bytes4, p: Bytes4) {
    AndBytewise(p, mask) == AndBytewise(value, mask)
  }

  /** Masking twice is masking once. */
  lemma {:induction false} AndIdempotent(v: nat, m: nat)
    ensures And(And(v, m), m) == And(v, m)
  {
    if v != 0 && m != 0 {
      AndIdempotent(v / 2, m / 2);
      AndDouble(And(v / 2, m / 2), if v % 2 == 1 && m % 2 == 1 then 1 else 0, m / 2, m % 2);
    }
  }

  lemma MaskedIsSame(value: Bytes4, mask: Bytes4)
    ensures AndBytewise(AndBytewise(value, mask), mask) == AndBytewise(value, mask)
  {
    AndIdempotent(value[0], mask[0]);
    AndIdempotent(value[1], mask[1]);
    AndIdempotent(value[2], mask[2]);
    AndIdempotent(value[3], mask[3]);
  }

  /** No rule with this mask that the guard lets through can match a TLS record start. */
  ghost predicate GuardIsSoundFor(mask: Bytes4) {
    forall value: Bytes4, p: Bytes4 ::
      AcceptPattern(value, mask).Some? && TlsStart(p) ==>
        !StoredMatch(AcceptPattern(value, mask).value.0, mask, p)
  }

  lemma Pow2Of6()
    ensures Pow2(6) == 64 && Pow2(2) == 4
  {
    assert Pow2(3) == 8;
  }

  lemma AndFours(x: nat, a: nat, y: nat, b: nat)
    requires a < 4 && b < 4
    ensures And(4 * x + a, 4 * y + b) == 4 * And(x, y) + And(a, b)
  {
    Pow2Of6();
    hide And, Pow2, Shifted;
    ShiftedIsProduct(x, 2);
    ShiftedIsProduct(y, 2);
    ShiftedIsProduct(And(x, y), 2);
    AndShift(2, x, a, y, b);
  }

  lemma FullMask(x: nat)
    requires x < 64
    ensures And(x, 63) == x
  {
    assert IsPow2(64) by {
      assert IsPow2(2) && IsPow2(4) && IsPow2(8) && IsPow2(16) && IsPow2(32);
    }
    MaskIsModulo(x, 64);
  }

  /** With its upper six bits pinned, a first byte matches a TLS content type only if it is one. */
  lemma PinnedType(v: byte, t: byte, m: byte)
    requires m >= 0xFC && TlsType(t) && And(v, m) == And(t, m)
    ensures TlsType(v)
  {
    hide And;
    var v1, v0, t0, r := v / 4, v % 4, t % 4, m - 0xFC;
    assert t == 4 * 5 + t0 && v == 4 * v1 + v0 && m == 4 * 63 + r;
    AndFours(v1, v0, 63, r);
    AndFours(5, t0, 63, r);
    FullMask(v1);
    FullMask(5);
  }

  lemma PinnedMajor(v: byte)
    requires And(v, 0xFF) == And(TLS_MAJOR, 0xFF)
    ensures v == TLS_MAJOR
  {
    MaskedByte(v, 0xFF);
    MaskedByte(TLS_MAJOR, 0xFF);
  }

  lemma SoundMasks(mask: Bytes4)
    requires mask[0] >= 0xFC && mask[1] == 0xFF
    ensures GuardIsSoundFor(mask)
  {
    forall value: Bytes4, p: Bytes4 | AcceptPattern(value, mask).Some? && TlsStart(p)
      ensures !StoredMatch(AcceptPattern(value, mask).value.0, mask, p)
    {
      hide And;
      MaskedIsSame(value, mask);
      if StoredMatch(AcceptPattern(value, mask).value.0, mask, p) {
        assert AndBytewise(p, mask)[0] == AndBytewise(value, mask)[0];
        assert AndBytewise(p, mask)[1] == AndBytewise(value, mask)[1];
        PinnedType(value[0], p[0], mask[0]);
        PinnedMajor(value[1]);
      }
    }
  }

  /** If the version byte is not fully pinned, another version byte looks the same under the mask. */
  lemma LooseMajor(m: byte) returns (v: byte)
    requires m != 0xFF
    ensures v != TLS_MAJOR && And(v, m) == And(TLS_MAJOR, m)
  {
    Pow2Of8();
    hide And, Pow2;
    v := MasksDiffer(8, TLS_MAJOR, m, 0xFF);
    MaskedByte(v, 0xFF);
    MaskedByte(TLS_MAJOR, 0xFF);
  }

  /** If the type byte is loose in its upper six bits, a byte that is no TLS type looks like one. */
  lemma LooseType(m: byte) returns (v: byte)
    requires m < 0xFC
    ensures !TlsType(v) && And(v, m) == And(0x16, m)
  {
    Pow2Of6();
    hide And, Pow2;
    var m1, m0 := m / 4, m % 4;
    assert m == 4 * m1 + m0;
    var w := MasksDiffer(6, 5, m1, 63);
    FullMask(w);
    FullMask(5);
    AndFours(w, 2, m1, m0);
    AndFours(5, 2, m1, m0);
    v := 4 * w + 2;
  }

  /** A looser mask lets a pattern through whose bytes are not TLS's but whose masked bytes are. */
  lemma UnsoundMasks(mask: Bytes4)
    requires mask[0] < 0xFC || mask[1] != 0xFF
    requires !AllWild(mask)
    ensures !GuardIsSoundFor(mask)
  {
    hide And;
    var p: Bytes4 := [0x16, TLS_MAJOR, 0, 0];
    var value: Bytes4;
    if mask[1] != 0xFF {
      var v := LooseMajor(mask[1]);
      value := [0x16, v, 0, 0];
    } else {
      var v := LooseType(mask[0]);
      value := [v, TLS_MAJOR, 0, 0];
    }
    MaskedIsSame(value, mask);
    assert AndBytewise(p, mask) == AndBytewise(value, mask);
    assert AcceptPattern(value, mask) == Some((AndBytewise(value, mask), mask));
    assert TlsStart(p) && StoredMatch(AcceptPattern(value, mask).value.0, mask, p);
  }

  /**
    The guard keeps TLS records unmatched exactly for the masks that pin the upper six bits
    of the content type and all of the major version; a refused mask (all wildcards) aside.
  */
  lemma GuardSoundIff(mask: Bytes4)
    requires !AllWild(mask)
    ensures GuardIsSoundFor(mask) <==> mask[0] >= 0xFC && mask[1] == 0xFF
  {
    if mask[0] >= 0xFC && mask[1] == 0xFF {
      SoundMasks(mask);
    } else {
      UnsoundMasks(mask);
    }
  }

  /** A rule as the matcher loads it, from a pattern the builder accepted. */
  ghost predicate CompiledRule(r: PayRule) {
    exists raw: Bytes4 :: AcceptPattern(raw, r.mask) == Some((r.value, r.mask))
  }

  /** The mask pins the upper six bits of the content type and all of the major version. */
  predicate PinsHeader(mask: Bytes4) {
    mask[0] >= 0xFC && mask[1] == 0xFF
  }

  /** The words agree under a mask exactly if the bytes do. */
  lemma MaskedAlike(p: Bytes4, q: Bytes4, m: Bytes4)
    ensures And(Be32(p), Be32(m)) == And(Be32(q), Be32(m)) <==> AndBytewise(p, m) == AndBytewise(q, m)
  {
    hide And;
    AndBe32(p, m);
    AndBe32(q, m);
    var a, b := AndBytewise(p, m), AndBytewise(q, m);
    DigitsUnique(a, b);
    assert a == b <==> a[0] == b[0] && a[1] == b[1] && a[2] == b[2] && a[3] == b[3];
  }

  /** What is stored under a mask that pins the header starts like a TLS record only if the pattern does. */
  lemma PinnedHeader(raw: Bytes4, mask: Bytes4)
    requires PinsHeader(mask) && TlsStart(AndBytewise(raw, mask))
    ensures TlsStart(raw)
  {
    hide And;
    MaskedIsSame(raw, mask);
    var v := AndBytewise(raw, mask);
    assert AndBytewise(v, mask)[0] == v[0] && AndBytewise(v, mask)[1] == v[1];
    PinnedType(raw[0], v[0], mask[0]);
    MaskedByte(raw[1], 0xFF);
  }

  /** A compiled rule that pins the header does not match a TLS record start, under any mask that pins it. */
  lemma PinnedRuleMisses(r: PayRule, mask: Bytes4, p: Bytes4)
    requires CompiledRule(r) && PinsHeader(r.mask) && PinsHeader(mask) && TlsStart(p)
    ensures And(Be32(r.value), Be32(mask)) != And(Be32(p), Be32(mask))
  {
    hide And;
    var raw: Bytes4 :| AcceptPattern(raw, r.mask) == Some((r.value, r.mask));
    MaskedAlike(r.value, p, mask);
    if AndBytewise(r.value, mask) == AndBytewise(p, mask) {
      assert AndBytewise(r.value, mask)[0] == AndBytewise(p, mask)[0];
      assert AndBytewise(r.value, mask)[1] == AndBytewise(p, mask)[1];
      PinnedType(r.value[0], p[0], mask[0]);
      PinnedMajor(r.value[1]);
      PinnedHeader(raw, r.mask);
    }
  }

  /** A compiled rule that matches a TLS record start leaves something of its two bytes open. */
  lemma TlsMatchLeavesWildcard(r: PayRule, p: Bytes4)
    requires CompiledRule(r) && TlsStart(p) && OwnMatch(r, Be32(p))
    ensures !PinsHeader(r.mask)
  {
    hide And, CompiledRule, Be32;
    if PinsHeader(r.mask) {
      PinnedRuleMisses(r, r.mask, p);
    }
  }

  /** Without such rules, the payload matcher has nothing to say about TLS records. */
  lemma TlsRecordsMiss(rules: seq<PayRule>, payload: seq<byte>)
    requires forall j :: 0 <= j < |rules| ==> CompiledRule(rules[j]) && PinsHeader(rules[j].mask)
    requires |payload| >= 4 && TlsStart(payload[..4])
    ensures PayScan(rules, payload).None?
  {
    hide PayScan, CompiledRule, And, Be32, MaskIndex, PinsHeader;
    var word := Be32(payload[..4]);
    var k := PayScanIsTightest(rules, payload);
    forall j: nat ensures !Matches(rules, j, word) {
      if Matches(rules, j, word) {
        var i := BucketMaskOfRule(rules, MaskIndex(rules[j].mask));
        PinnedRuleMisses(rules[j], rules[i].mask, payload[..4]);
      }
    }
  }
}
