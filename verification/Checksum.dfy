/**
  The Internet checksum (RFC 1071) as tools/mkpcap.py computes it: 16-bit words are added
  up without bound, and the carries folded in afterwards.
*/
module Checksum {
  import opened Bits

  /** The sum of the big-endian 16-bit words. */
  function SumWords(d: seq<byte>): (r: nat)
    requires |d| % 2 == 0
  {
    if |d| == 0 then 0 else SumWords(d[..|d| - 2]) + Rd16(d, |d| - 2)
  }

  /** Carries folded back in until none is left. */
  function FoldCarries(total: nat): (t: nat)
    ensures t < 0x1_0000
    ensures t == 0 <==> total == 0
  {
    if total / 0x1_0000 == 0 then total
    else FoldCarries(total % 0x1_0000 + total / 0x1_0000)
  }

  function PadEven(d: seq<byte>): (p: seq<byte>)
    ensures |p| % 2 == 0
  {
    if |d| % 2 == 1 then d + [0] else d
  }

  function IpChecksum(d: seq<byte>): (ck: u16) {
    0xFFFF - FoldCarries(SumWords(PadEven(d)))
  }

  method ComputeIpChecksum(data: seq<byte>) returns (ck: u16)
    ensures ck == IpChecksum(data)
  {
    var d := data;
    if |d| % 2 == 1 {
      d := d + [0];
    }
    var total: nat := 0;
    var i := 0;
    while i < |d|
      invariant 0 <= i <= |d| && i % 2 == 0
      invariant total == SumWords(d[..i])
    {
      assert d[..i + 2][..i] == d[..i];
      total := total + (d[i] as int * 0x100 + d[i + 1] as int);
      i := i + 2;
    }
    assert d[..|d|] == d;
    total := Fold(total);
    ck := 0xFFFF - total;
  }

  method Fold(total: nat) returns (t: nat)
    ensures t == FoldCarries(total)
  {
    t := total;
    while t / 0x1_0000 != 0
      invariant FoldCarries(t) == FoldCarries(total)
      decreases t
    {
      t := t % 0x1_0000 + t / 0x1_0000;
    }
  }

  lemma EvenChecksum(d: seq<byte>)
    requires |d| % 2 == 0
    ensures IpChecksum(d) == 0xFFFF - FoldCarries(SumWords(d))
  {
  }

  /** Folding is reduction modulo 65535, one's-complement fashion: only 0 folds to 0. */
  lemma {:induction false} FoldModulo(total: nat)
    ensures FoldCarries(total) % 0xFFFF == total % 0xFFFF
    decreases total
  {
    if total / 0x1_0000 != 0 {
      var hi, lo := total / 0x1_0000, total % 0x1_0000;
      FoldModulo(lo + hi);
      AddMultiple(lo + hi, hi);
    }
  }

  lemma AddMultiple(x: nat, k: nat)
    ensures (x + k * 0xFFFF) % 0xFFFF == x % 0xFFFF
  {
  }

  /** A checksum field at an even offset contributes its own value to the sum. */
  lemma {:induction false} SumWithField(a: seq<byte>, w: u16, b: seq<byte>)
    requires |a| % 2 == 0 && |b| % 2 == 0
    ensures |a + Be16(w) + b| % 2 == 0
    ensures SumWords(a + Be16(w) + b) == SumWords(a + Be16(0) + b) + w
    decreases |b|
  {
    if |b| == 0 {
      assert (a + Be16(w) + b)[..|a|] == a;
      assert (a + Be16(0) + b)[..|a|] == a;
    } else {
      var n := |b| - 2;
      assert (a + Be16(w) + b)[..|a| + 2 + n] == a + Be16(w) + b[..n];
      assert (a + Be16(0) + b)[..|a| + 2 + n] == a + Be16(0) + b[..n];
      SumWithField(a, w, b[..n]);
    }
  }

  /**
    Writing the checksum into its zeroed field makes the checksum of the whole 0, which is
    how a receiver verifies it.
  */
  lemma ChecksumVerifies(a: seq<byte>, b: seq<byte>)
    requires |a| % 2 == 0 && |b| % 2 == 0
    ensures IpChecksum(a + Be16(IpChecksum(a + Be16(0) + b)) + b) == 0
  {
    hide SumWords, FoldCarries;
    var t := SumWords(a + Be16(0) + b);
    var f := FoldCarries(t);
    var ck := IpChecksum(a + Be16(0) + b);
    SumWithField(a, ck, b);
    var t' := SumWords(a + Be16(ck) + b);
    assert t' == t + 0xFFFF - f;
    FoldModulo(t);
    FoldModulo(t');
    MultipleOfModulus(t, f);
  }

  /** The only non-zero 16-bit residue of 0 modulo 65535 is 65535. */
  lemma MultipleOfModulus(t: nat, f: nat)
    requires f < 0x1_0000 && f % 0xFFFF == t % 0xFFFF && (f == 0 <==> t == 0)
    ensures (t + 0xFFFF - f) % 0xFFFF == 0 && t + 0xFFFF - f > 0
  {
  }

  /** Any other value in the field is detected, save for the two ways to write zero. */
  lemma WrongChecksumDetected(a: seq<byte>, w: u16, b: seq<byte>)
    requires |a| % 2 == 0 && |b| % 2 == 0
    requires SumWords(a + Be16(0) + b) > 0
    ensures IpChecksum(a + Be16(w) + b) == 0 <==>
            w % 0xFFFF == IpChecksum(a + Be16(0) + b) % 0xFFFF
  {
    hide SumWords, FoldCarries, IpChecksum, Be16;
    var zero, other := a + Be16(0) + b, a + Be16(w) + b;
    SumWithField(a, 0, b);
    SumWithField(a, w, b);
    EvenChecksum(zero);
    EvenChecksum(other);
    FoldOfSum(SumWords(zero), w);
    assert IpChecksum(other) == 0 <==> FoldCarries(SumWords(other)) == 0xFFFF;
  }

  lemma FoldOfSum(t: nat, w: u16)
    requires t > 0
    ensures FoldCarries(t + w) == 0xFFFF <==> w % 0xFFFF == (0xFFFF - FoldCarries(t)) % 0xFFFF
  {
    hide FoldCarries;
    FoldModulo(t);
    FoldModulo(t + w);
    ResidueOfSum(t, w, FoldCarries(t), FoldCarries(t + w));
  }

  lemma ResidueOfSum(t: nat, w: u16, f: nat, g: nat)
    requires 0 < t && 0 < f < 0x1_0000 && 0 < g < 0x1_0000
    requires f % 0xFFFF == t % 0xFFFF && g % 0xFFFF == (t + w) % 0xFFFF
    ensures g == 0xFFFF <==> w % 0xFFFF == (0xFFFF - f) % 0xFFFF
  {
  }
}
