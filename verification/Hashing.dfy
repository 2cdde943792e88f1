/**
  The concrete hash functions, on 64-bit words. Nothing elsewhere depends on which
  functions they are: the flow table only needs that both directions of a conversation
  hash alike, and the domain trie that no label hashes to 0.
*/
module Hashing {
  import opened Bits
  import opened Labels
  import opened Decode
  import opened Flows
  import EdgeTables

  const WORD: nat := 0x1_0000_0000_0000_0000
  const FNV_PRIME: nat := 1099511628211

  /** FNV-1a over bytes, continued from `h`. */
  function Fnv(bytes: seq<byte>, h: nat): (r: nat) {
    if |bytes| == 0 then h
    else Xor(Fnv(bytes[..|bytes| - 1], h), bytes[|bytes| - 1]) * FNV_PRIME % WORD
  }

  /** The splitmix64 finalizer. */
  function Mix64(x: nat): (r: nat) {
    var x1 := Xor(x, x / 0x4000_0000) * 0xBF58476D1CE4E5B9 % WORD;
    var x2 := Xor(x1, x1 / 0x800_0000) * 0x94D049BB133111EB % WORD;
    Xor(x2, x2 / 0x8000_0000)
  }

  const FLOW_BASIS: nat := 0xcbf29ce484222325

  function EndpointHash(e: Endpoint): (r: nat) {
    Mix64(Xor(Fnv(e.addr, FLOW_BASIS), e.port))
  }

  /** Symmetric in the two endpoints. */
  function TupleHash(t: Tuple5): (r: nat) {
    var a, b := EndpointHash(t.src), EndpointHash(t.dst);
    Mix64((Xor(a, b) + And(a, b) + t.proto) % WORD)
  }

  /** Both directions of every conversation share a home slot. */
  lemma TupleHashIsDirectionBlind()
    ensures DirectionBlind(TupleHash)
  {
    hide Xor, And, Mix64, EndpointHash;
    forall t ensures TupleHash(t) == TupleHash(Reverse(t)) {
      XorCommutes(EndpointHash(t.src), EndpointHash(t.dst));
      AndCommutes(EndpointHash(t.src), EndpointHash(t.dst));
    }
  }

  /** `flow_hash`: one loop over both addresses. */
  method FlowHash(p: Packet) returns (h: nat)
    ensures h == TupleHash(TupleOf(p))
  {
    hide Xor, And, Mix64;
    var alen := if p.ipVersion == 6 then 16 else 4;
    ghost var src, dst := Significant(p.srcIp, p.ipVersion), Significant(p.dstIp, p.ipVersion);
    var a, b := FLOW_BASIS, FLOW_BASIS;
    for i := 0 to alen
      invariant a == Fnv(src[..i], FLOW_BASIS) && b == Fnv(dst[..i], FLOW_BASIS)
    {
      assert src[..i + 1][..i] == src[..i] && dst[..i + 1][..i] == dst[..i];
      a := Xor(a, p.srcIp[i]) * FNV_PRIME % WORD;
      b := Xor(b, p.dstIp[i]) * FNV_PRIME % WORD;
    }
    assert src[..alen] == src && dst[..alen] == dst;
    a := Mix64(Xor(a, p.srcPort));
    b := Mix64(Xor(b, p.dstPort));
    h := Mix64((Xor(a, b) + And(a, b) + p.l4proto) % WORD);
  }

  /** Where `edge_slot` starts to probe, before the mask is applied. */
  function EdgeHash(k: EdgeTables.EdgeKey): (r: nat) {
    Xor(k.hash, k.parent * 0x9E3779B97F4A7C15 % WORD)
  }

  /** `mix` of the payload matcher, on 32-bit words. */
  function PayloadMix(key: nat): (r: nat) {
    var x1 := Xor(key, key / 0x1_0000) * 0x7FEB352D % 0x1_0000_0000;
    var x2 := Xor(x1, x1 / 0x8000) * 0x846CA68B % 0x1_0000_0000;
    Xor(x2, x2 / 0x1_0000)
  }

  /** `label_hash`, before folding case and before 0 is replaced. */
  function FnvLabel(l: Label): (r: nat) {
    Fnv(l, 1469598103934665603)
  }

  /** `label_hash`: the loop folds case as it goes, and never returns 0. */
  method ComputeLabelHash(l: Label) returns (h: nat)
    ensures h == LabelHash(FnvLabel, l) && h != 0
  {
    hide Xor;
    h := 1469598103934665603;
    for i := 0 to |l|
      invariant h == Fnv(Fold(l)[..i], 1469598103934665603)
    {
      assert Fold(l)[..i + 1][..i] == Fold(l)[..i];
      h := Xor(h, Lower(l[i])) * FNV_PRIME % WORD;
    }
    assert Fold(l)[..|l|] == Fold(l);
    if h == 0 {
      h := 1;
    }
  }

  // ------------------------------------------------------------------ what FNV tells apart

  /** Multiplying by `p`, modulo the word size `w`, is undone by multiplying with its inverse `q`. */
  lemma ProductIsUndone(x: nat, w: nat, p: nat, q: nat, j: nat)
    requires x < w && p * q == j * w + 1
    ensures x * p % w * q % w == x
  {
    var k, r := x * p / w, x * p % w;
    assert x * p == k * w + r;
    Rearranged(x, p, q, k, w, r, j);
    Nonneg(x * j - k * q, w, r * q, x);
    ModuloUnique(r * q, w, x * j - k * q, x);
  }

  lemma Nonneg(m: int, w: nat, n: nat, x: nat)
    requires n == m * w + x && x < w
    ensures m >= 0
  {
  }

  /** So different words stay different. */
  lemma ProductsApart(x: nat, y: nat, w: nat, p: nat, q: nat, j: nat)
    requires x < w && y < w && p * q == j * w + 1 && x * p % w == y * p % w
    ensures x == y
  {
    ProductIsUndone(x, w, p, q, j);
    ProductIsUndone(y, w, p, q, j);
  }

  lemma Rearranged(x: int, p: int, q: int, k: int, w: int, r: int, j: int)
    requires x * p == k * w + r && p * q == j * w + 1
    ensures r * q == (x * j - k * q) * w + x
  {
    assert r * q == x * p * q - k * w * q;
    assert x * p * q == x * (p * q);
    assert x * (j * w + 1) == x * j * w + x;
  }

  lemma WordBits()
    ensures Pow2(64) == WORD
  {
    assert Pow2(8) == 0x100;
    assert Pow2(16) == 0x1_0000;
    assert Pow2(24) == 0x100_0000;
    assert Pow2(32) == 0x1_0000_0000;
    assert Pow2(40) == 0x100_0000_0000;
    assert Pow2(48) == 0x1_0000_0000_0000;
    assert Pow2(56) == 0x100_0000_0000_0000;
  }

  /** One round of FNV-1a loses nothing: neither of the state, nor of the byte. */
  lemma RoundIsInjective(g: nat, h: nat, x: byte, y: byte)
    requires g < WORD && h < WORD
    requires Xor(g, x) * FNV_PRIME % WORD == Xor(h, y) * FNV_PRIME % WORD
    ensures Xor(g, x) == Xor(h, y)
    ensures x == y ==> g == h
    ensures g == h ==> x == y
  {
    hide Xor;
    WordBits();
    hide Pow2;
    XorBelow(64, g, x);
    XorBelow(64, h, y);
    ProductsApart(Xor(g, x), Xor(h, y), WORD, FNV_PRIME, 0xce965057aff6957b, 887285111055);
    XorApart(g, x, h, y);
  }

  lemma XorApart(g: nat, x: nat, h: nat, y: nat)
    requires Xor(g, x) == Xor(h, y)
    ensures x == y <==> g == h
  {
    hide Xor;
    XorCancels(g, x);
    XorCancels(h, y);
    XorCommutes(g, x);
    XorCommutes(h, y);
    XorCancels(x, g);
    XorCancels(y, h);
  }

  lemma {:induction false} FnvBelow(bytes: seq<byte>, h: nat)
    requires h < WORD
    ensures Fnv(bytes, h) < WORD
  {
    hide Xor;
  }

  /** Different states stay different, whatever bytes follow. */
  lemma {:induction false} StatesStayApart(a: seq<byte>, b: seq<byte>, rest: seq<byte>, h: nat)
    requires h < WORD && Fnv(a, h) != Fnv(b, h)
    ensures Fnv(a + rest, h) != Fnv(b + rest, h)
  {
    if rest == [] {
      assert a + rest == a && b + rest == b;
    } else {
      hide Xor;
      var n := |rest| - 1;
      assert (a + rest)[..|a| + n] == a + rest[..n] && (b + rest)[..|b| + n] == b + rest[..n];
      StatesStayApart(a, b, rest[..n], h);
      FnvBelow(a + rest[..n], h);
      FnvBelow(b + rest[..n], h);
      if Fnv(a + rest, h) == Fnv(b + rest, h) {
        RoundIsInjective(Fnv(a + rest[..n], h), Fnv(b + rest[..n], h), rest[n], rest[n]);
      }
    }
  }

  lemma OneByteApart(pre: seq<byte>, x: byte, y: byte, post: seq<byte>, h: nat)
    requires x != y && h < WORD
    ensures Fnv(pre + [x] + post, h) != Fnv(pre + [y] + post, h)
  {
    hide Xor;
    assert (pre + [x])[..|pre|] == pre && (pre + [y])[..|pre|] == pre;
    FnvBelow(pre, h);
    if Fnv(pre + [x], h) == Fnv(pre + [y], h) {
      RoundIsInjective(Fnv(pre, h), Fnv(pre, h), x, y);
    }
    StatesStayApart(pre + [x], pre + [y], post, h);
  }

  /** Labels that differ in a single letter never collide. */
  lemma OneLetterApart(pre: Label, x: byte, y: byte, post: Label)
    requires x != y
    ensures FnvLabel(pre + [x] + post) != FnvLabel(pre + [y] + post)
  {
    hide Fnv;
    OneByteApart(pre, x, y, post, 1469598103934665603);
  }

  // ------------------------------------------------------------------ the mixers lose nothing

  /** One round of a mixer: the number is folded with its own upper part and multiplied. */
  lemma RoundsApart(a: nat, b: nat, bits: nat, k: nat, p: nat, q: nat, j: nat)
    requires a < Pow2(bits) && b < Pow2(bits) && k > 0 && p * q == j * Pow2(bits) + 1
    requires Xor(a, Shr(a, k)) * p % Pow2(bits) == Xor(b, Shr(b, k)) * p % Pow2(bits)
    ensures a == b
  {
    hide Xor, Shr, Pow2;
    XorBelow(bits, a, Shr(a, k));
    XorBelow(bits, b, Shr(b, k));
    ProductsApart(Xor(a, Shr(a, k)), Xor(b, Shr(b, k)), Pow2(bits), p, q, j);
    XorShiftInjective(k, a, b);
  }

  lemma ShiftBits()
    ensures Pow2(15) == 0x8000 && Pow2(16) == 0x1_0000 && Pow2(27) == 0x800_0000 && Pow2(30) == 0x4000_0000
    ensures Pow2(31) == 0x8000_0000 && Pow2(32) == 0x1_0000_0000
  {
    assert Pow2(8) == 0x100;
    assert Pow2(23) == 0x80_0000;
  }

  /** The finalizer is one-to-one on words. */
  lemma Mix64Injective(a: nat, b: nat)
    requires a < WORD && b < WORD && Mix64(a) == Mix64(b)
    ensures a == b
  {
    hide Xor;
    WordBits();
    ShiftBits();
    hide Pow2, Shr;
    var a1, b1 := Xor(a, Shr(a, 30)) * 0xBF58476D1CE4E5B9 % WORD, Xor(b, Shr(b, 30)) * 0xBF58476D1CE4E5B9 % WORD;
    var a2, b2 := Xor(a1, Shr(a1, 27)) * 0x94D049BB133111EB % WORD, Xor(b1, Shr(b1, 27)) * 0x94D049BB133111EB % WORD;
    ShrIsQuotient(a, 30);
    ShrIsQuotient(b, 30);
    ShrIsQuotient(a1, 27);
    ShrIsQuotient(b1, 27);
    ShrIsQuotient(a2, 31);
    ShrIsQuotient(b2, 31);
    XorShiftInjective(31, a2, b2);
    RoundsApart(a1, b1, 64, 27, 0x94D049BB133111EB, 0x319642b2d24d8ec3, 2077064247507883091);
    RoundsApart(a, b, 64, 30, 0xBF58476D1CE4E5B9, 0x96de1b173f119089, 8125545580553827436);
  }

  /** And so is `mix` on 32-bit words: different patterns only ever meet in a slot. */
  lemma PayloadMixInjective(a: nat, b: nat)
    requires a < 0x1_0000_0000 && b < 0x1_0000_0000 && PayloadMix(a) == PayloadMix(b)
    ensures a == b
  {
    hide Xor;
    ShiftBits();
    hide Pow2, Shr;
    var w: nat := 0x1_0000_0000;
    var a1, b1 := Xor(a, Shr(a, 16)) * 0x7FEB352D % w, Xor(b, Shr(b, 16)) * 0x7FEB352D % w;
    var a2, b2 := Xor(a1, Shr(a1, 15)) * 0x846CA68B % w, Xor(b1, Shr(b1, 15)) * 0x846CA68B % w;
    ShrIsQuotient(a, 16);
    ShrIsQuotient(b, 16);
    ShrIsQuotient(a1, 15);
    ShrIsQuotient(b1, 15);
    ShrIsQuotient(a2, 16);
    ShrIsQuotient(b2, 16);
    XorShiftInjective(16, a2, b2);
    RoundsApart(a1, b1, 32, 15, 0x846CA68B, 0x43021123, 581534029);
    RoundsApart(a, b, 32, 16, 0x7FEB352D, 0x1d69e2a5, 246582719);
  }

  /** Endpoints that differ in the port only, or in a single byte of the address only, hash differently. */
  lemma EndpointsApart(pre: seq<byte>, x: byte, y: byte, post: seq<byte>, p: u16, q: u16)
    requires (x == y) != (p == q)
    ensures EndpointHash(Endpoint(pre + [x] + post, p)) != EndpointHash(Endpoint(pre + [y] + post, q))
  {
    hide Xor, Mix64, Fnv;
    var a, b := Fnv(pre + [x] + post, FLOW_BASIS), Fnv(pre + [y] + post, FLOW_BASIS);
    FnvBelow(pre + [x] + post, FLOW_BASIS);
    FnvBelow(pre + [y] + post, FLOW_BASIS);
    WordBits();
    hide Pow2;
    XorBelow(64, a, p);
    XorBelow(64, b, q);
    if x != y {
      OneByteApart(pre, x, y, post, FLOW_BASIS);
    }
    if Mix64(Xor(a, p)) == Mix64(Xor(b, q)) {
      Mix64Injective(Xor(a, p), Xor(b, q));
      XorApart(a, p, b, q);
    }
  }
}
