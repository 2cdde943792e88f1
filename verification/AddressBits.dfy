/**
  The bits of an address in network order (`bit_at` in src/match/lpm.c), and what it
  means, numerically, for two addresses to share a prefix.
*/
module AddressBits {
  import opened Bits

  type bit = x: int | 0 <= x < 2

  /** Bit `i` of an address, most significant bit of the first byte first. */
  function BitAt(addr: seq<byte>, i: nat): (r: bit)
    requires i < 8 * |addr|
  {
    (addr[i / 8] / Pow2(7 - i % 8)) % 2
  }

  function AddrBits(addr: seq<byte>, n: nat): (p: seq<bit>)
    requires n <= 8 * |addr|
    ensures |p| == n
    ensures forall i :: 0 <= i < n ==> p[i] == BitAt(addr, i)
  {
    seq(n, i requires 0 <= i < n => BitAt(addr, i))
  }

  /** The address as one big-endian number. */
  function Value(addr: seq<byte>): (r: nat) {
    if |addr| == 0 then 0 else Value(addr[..|addr| - 1]) * 0x100 + addr[|addr| - 1] as int
  }

  function BitsValue(p: seq<bit>): (r: nat) {
    if |p| == 0 then 0 else 2 * BitsValue(p[..|p| - 1]) + p[|p| - 1] as int
  }

  lemma {:induction false} BitsValueInjective(p: seq<bit>, q: seq<bit>)
    requires |p| == |q|
    ensures BitsValue(p) == BitsValue(q) <==> p == q
  {
    if |p| > 0 {
      var n := |p| - 1;
      BitsValueInjective(p[..n], q[..n]);
      assert p == p[..n] + [p[n]] && q == q[..n] + [q[n]];
    }
  }

  /** Dropping low bits is dividing by a power of two. */
  lemma {:induction false} BitsValuePrefix(p: seq<bit>, k: nat)
    requires k <= |p|
    ensures BitsValue(p[..k]) == BitsValue(p) / Pow2(|p| - k)
    decreases |p|
  {
    if k == |p| {
      assert p[..k] == p;
    } else {
      var n := |p| - 1;
      assert p[..n][..k] == p[..k];
      BitsValuePrefix(p[..n], k);
      HalveThenDivide(BitsValue(p), Pow2(n - k));
    }
  }

  lemma BitsValueAppend(p: seq<bit>, b: bit)
    ensures BitsValue(p + [b]) == 2 * BitsValue(p) + b as int
  {
    assert (p + [b])[..|p|] == p;
  }

  /** The bits of a byte, most significant first. */
  function ByteBits(b: byte): (p: seq<bit>)
    ensures |p| == 8
  {
    [b / 128 % 2, b / 64 % 2, b / 32 % 2, b / 16 % 2, b / 8 % 2, b / 4 % 2, b / 2 % 2, b % 2]
  }

  lemma ByteFromBits(b: int)
    requires 0 <= b < 0x100
    ensures b == 128 * (b / 128 % 2) + 64 * (b / 64 % 2) + 32 * (b / 32 % 2) + 16 * (b / 16 % 2)
                 + 8 * (b / 8 % 2) + 4 * (b / 4 % 2) + 2 * (b / 2 % 2) + b % 2
  {
    assert b / 4 == b / 2 / 2 && b / 8 == b / 4 / 2 && b / 16 == b / 8 / 2;
    assert b / 32 == b / 16 / 2 && b / 64 == b / 32 / 2 && b / 128 == b / 64 / 2;
  }

  lemma LastByteValue(p: seq<bit>, b: byte)
    ensures BitsValue(p + ByteBits(b)) == 0x100 * BitsValue(p) + b as int
  {
    hide BitsValue;
    var e := ByteBits(b);
    var p1 := p + [e[0]];
    var p2 := p1 + [e[1]];
    var p3 := p2 + [e[2]];
    var p4 := p3 + [e[3]];
    var p5 := p4 + [e[4]];
    var p6 := p5 + [e[5]];
    var p7 := p6 + [e[6]];
    assert p7 + [e[7]] == p + e;
    BitsValueAppend(p, e[0]);
    BitsValueAppend(p1, e[1]);
    BitsValueAppend(p2, e[2]);
    BitsValueAppend(p3, e[3]);
    BitsValueAppend(p4, e[4]);
    BitsValueAppend(p5, e[5]);
    BitsValueAppend(p6, e[6]);
    BitsValueAppend(p7, e[7]);
    ByteFromBits(b);
  }

  lemma AddrBitsSnoc(addr: seq<byte>, b: byte)
    ensures AddrBits(addr + [b], 8 * |addr| + 8) == AddrBits(addr, 8 * |addr|) + ByteBits(b)
  {
    var n := 8 * |addr|;
    assert Pow2(0) == 1 && Pow2(1) == 2 && Pow2(2) == 4 && Pow2(3) == 8;
    assert Pow2(4) == 16 && Pow2(5) == 32 && Pow2(6) == 64 && Pow2(7) == 128;
    forall i | 0 <= i < 8
      ensures BitAt(addr + [b], n + i) == ByteBits(b)[i]
    {
      assert (n + i) / 8 == |addr| && (n + i) % 8 == i;
    }
  }

  lemma {:induction false} AddrBitsValue(addr: seq<byte>)
    ensures BitsValue(AddrBits(addr, 8 * |addr|)) == Value(addr)
  {
    if |addr| > 0 {
      var n := |addr| - 1;
      assert addr == addr[..n] + [addr[n]];
      AddrBitsValue(addr[..n]);
      AddrBitsSnoc(addr[..n], addr[n]);
      LastByteValue(AddrBits(addr[..n], 8 * n), addr[n]);
    } else {
      assert AddrBits(addr, 0) == [];
    }
  }

  /** Two addresses share their first `k` bits exactly when they agree above the last ones. */
  lemma SharedPrefixIsNumeric(a: seq<byte>, b: seq<byte>, k: nat)
    requires |a| == |b| && k <= 8 * |a|
    ensures AddrBits(a, k) == AddrBits(b, k) <==>
            Value(a) / Pow2(8 * |a| - k) == Value(b) / Pow2(8 * |a| - k)
  {
    hide BitsValue, Value, Pow2, BitAt;
    var n := 8 * |a|;
    assert AddrBits(a, n)[..k] == AddrBits(a, k);
    assert AddrBits(b, n)[..k] == AddrBits(b, k);
    AddrBitsValue(a);
    AddrBitsValue(b);
    BitsValuePrefix(AddrBits(a, n), k);
    BitsValuePrefix(AddrBits(b, n), k);
    BitsValueInjective(AddrBits(a, k), AddrBits(b, k));
  }
}
