/**
  Byte strings laid out inside a buffer: how printers, which concatenate, meet parsers,
  which look at offsets.
*/
module Layout {
  import opened Bits

  /** The bytes of `x` are in `buf` at offset `p`. */
  predicate At(buf: seq<byte>, p: nat, x: seq<byte>) {
    p + |x| <= |buf| && buf[p..p + |x|] == x
  }

  lemma AtConcat(buf: seq<byte>, p: nat, x: seq<byte>, y: seq<byte>)
    ensures At(buf, p, x + y) <==> At(buf, p, x) && At(buf, p + |x|, y)
  {
    if At(buf, p, x + y) {
      assert buf[p..p + |x|] == (x + y)[..|x|];
      assert buf[p + |x|..p + |x| + |y|] == (x + y)[|x|..];
    }
    if At(buf, p, x) && At(buf, p + |x|, y) {
      assert buf[p..p + |x + y|] == buf[p..p + |x|] + buf[p + |x|..p + |x| + |y|];
    }
  }

  lemma AtWhole(buf: seq<byte>)
    ensures At(buf, 0, buf)
  {
  }

  lemma AtByte(buf: seq<byte>, p: nat, b: byte)
    ensures At(buf, p, [b]) <==> p < |buf| && buf[p] == b
  {
    if At(buf, p, [b]) {
      assert buf[p] == buf[p..p + 1][0];
    }
  }

  lemma AtBe16(buf: seq<byte>, p: nat, n: u16)
    requires At(buf, p, Be16(n))
    ensures p + 2 <= |buf| && Rd16(buf, p) == n
  {
    assert buf[p] == buf[p..p + 2][0] && buf[p + 1] == buf[p..p + 2][1];
  }

  /** Any two bytes are the big-endian form of what they read as. */
  lemma Be16At(buf: seq<byte>, p: nat)
    requires p + 2 <= |buf|
    ensures At(buf, p, Be16(Rd16(buf, p)))
  {
    assert buf[p..p + 2] == [buf[p], buf[p + 1]];
  }

  /** A slice is where it was taken from. */
  lemma SliceAt(buf: seq<byte>, p: nat, q: nat)
    requires p <= q <= |buf|
    ensures At(buf, p, buf[p..q])
  {
  }

  /** A 24-bit length in network byte order. */
  function Be24(n: nat): (b: seq<byte>)
    requires n < 0x100_0000
    ensures |b| == 3
  {
    [n / 0x1_0000, n / 0x100 % 0x100, n % 0x100]
  }

  lemma AtBe24(buf: seq<byte>, p: nat, n: nat)
    requires n < 0x100_0000 && At(buf, p, Be24(n))
    ensures p + 3 <= |buf| && Rd24(buf, p) == n
  {
    assert buf[p] == buf[p..p + 3][0] && buf[p + 1] == buf[p..p + 3][1] && buf[p + 2] == buf[p..p + 3][2];
  }
}
