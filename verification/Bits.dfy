/**
  Bytes, big-endian and little-endian fields, and the few bitwise operators the sources
  use, on unbounded naturals.
*/
module Bits {

  type byte = x: int | 0 <= x < 0x100
  type u16 = x: int | 0 <= x < 0x1_0000
  type u32 = x: int | 0 <= x < 0x1_0000_0000

  /** The smaller of two numbers. */
  function Min(a: nat, b: nat): (m: nat)
    ensures m <= a && m <= b && (m == a || m == b)
  {
    if a <= b then a else b
  }

  /** 1 for true, 0 for false: for counting. */
  function One(b: bool): (n: nat) {
    if b then 1 else 0
  }

  // ------------------------------------------------------------- bitwise operators

  function And(a: nat, b: nat): (r: nat)
    ensures r <= a && r <= b
  {
    if a == 0 || b == 0 then 0
    else 2 * And(a / 2, b / 2) + (if a % 2 == 1 && b % 2 == 1 then 1 else 0)
  }

  function Xor(a: nat, b: nat): (r: nat) {
    if a == 0 then b
    else if b == 0 then a
    else 2 * Xor(a / 2, b / 2) + (if a % 2 != b % 2 then 1 else 0)
  }

  lemma {:induction false} AndCommutes(a: nat, b: nat)
    ensures And(a, b) == And(b, a)
  {
    if a != 0 && b != 0 {
      AndCommutes(a / 2, b / 2);
    }
  }

  lemma {:induction false} XorCommutes(a: nat, b: nat)
    ensures Xor(a, b) == Xor(b, a)
  {
    if a != 0 && b != 0 {
      XorCommutes(a / 2, b / 2);
    }
  }

  /** Whatever is folded in with `Xor` can be taken out again. */
  lemma {:induction false} XorCancels(a: nat, b: nat)
    ensures Xor(Xor(a, b), b) == a
  {
    if a == 0 {
      XorSelf(b);
    } else if b != 0 {
      XorCancels(a / 2, b / 2);
      var x := Xor(a, b);
      assert x / 2 == Xor(a / 2, b / 2) && x % 2 == (if a % 2 != b % 2 then 1 else 0);
    }
  }

  /** `x >> k` */
  function Shr(x: nat, k: nat): (r: nat)
    ensures r <= x && (x > 0 && k > 0 ==> r < x)
  {
    if k == 0 then x else Shr(x / 2, k - 1)
  }

  lemma {:induction false} ShrIsQuotient(x: nat, k: nat)
    ensures Shr(x, k) == x / Pow2(k)
  {
    if k == 0 {
      assert x / 1 == x;
    } else {
      ShrIsQuotient(x / 2, k - 1);
      HalveThenDivide(x, Pow2(k - 1));
    }
  }

  /** Shifting right distributes over `Xor`. */
  lemma {:induction false} XorShifts(k: nat, a: nat, b: nat)
    ensures Shr(Xor(a, b), k) == Xor(Shr(a, k), Shr(b, k))
  {
    if k > 0 {
      XorHalves(a, b);
      hide Xor;
      XorShifts(k - 1, a / 2, b / 2);
    }
  }

  lemma XorHalves(a: nat, b: nat)
    ensures Xor(a, b) / 2 == Xor(a / 2, b / 2)
  {
  }

  /** A number can be told from its `Xor` with a right shift of itself. */
  lemma {:induction false} XorShiftInjective(k: nat, a: nat, b: nat)
    requires k > 0 && Xor(a, Shr(a, k)) == Xor(b, Shr(b, k))
    ensures a == b
    decreases a + b
  {
    hide Xor, Shr;
    var s, u := Shr(a, k), Shr(b, k);
    if a + b > 0 {
      XorShifts(k, a, s);
      XorShifts(k, b, u);
      XorShiftInjective(k, s, u);
    }
    XorCancels(a, s);
    XorCancels(b, u);
  }

  lemma {:induction false} XorSelf(b: nat)
    ensures Xor(b, b) == 0
  {
    if b != 0 {
      XorSelf(b / 2);
    }
  }

  lemma {:induction false} XorBelow(k: nat, a: nat, b: nat)
    requires a < Pow2(k) && b < Pow2(k)
    ensures Xor(a, b) < Pow2(k)
  {
    if a != 0 && b != 0 {
      XorBelow(k - 1, a / 2, b / 2);
    }
  }

  /** `And` bit by bit. */
  lemma AndDouble(x: nat, a: nat, y: nat, b: nat)
    requires a < 2 && b < 2
    ensures And(2 * x + a, 2 * y + b) == 2 * And(x, y) + (if a == 1 && b == 1 then 1 else 0)
  {
    assert (2 * x + a) / 2 == x && (2 * x + a) % 2 == a;
    assert (2 * y + b) / 2 == y && (2 * y + b) % 2 == b;
  }

  /** `And` byte by byte. */
  lemma AndBytes(x: nat, a: nat, y: nat, b: nat)
    requires a < 0x100 && b < 0x100
    ensures And(0x100 * x + a, 0x100 * y + b) == 0x100 * And(x, y) + And(a, b)
  {
    Pow2Of8();
    hide And, Pow2, Shifted;
    ShiftedIsProduct(x, 8);
    ShiftedIsProduct(y, 8);
    ShiftedIsProduct(And(x, y), 8);
    AndShift(8, x, a, y, b);
  }

  lemma Pow2Of8()
    ensures Pow2(8) == 0x100
  {
    assert Pow2(4) == 16;
  }

  function Pow2(n: nat): (p: nat)
    ensures p > 0
  {
    if n == 0 then 1 else 2 * Pow2(n - 1)
  }

  lemma {:induction false} AndShift(k: nat, x: nat, a: nat, y: nat, b: nat)
    requires a < Pow2(k) && b < Pow2(k)
    ensures And(Shifted(x, k) + a, Shifted(y, k) + b) == Shifted(And(x, y), k) + And(a, b)
  {
    AndOfNothing();
    BelowByHalves(k, a);
    BelowByHalves(k, b);
    hide And, Pow2;
    if k > 0 {
      AndShift(k - 1, x, a / 2, y, b / 2);
      AndShiftStep(Shifted(x, k - 1), a, Shifted(y, k - 1), b, Shifted(And(x, y), k - 1));
    }
  }

  lemma AndOfNothing()
    ensures And(0, 0) == 0
  {
  }

  /** `x << k` */
  function Shifted(x: nat, k: nat): (r: nat) {
    if k == 0 then x else 2 * Shifted(x, k - 1)
  }

  lemma {:induction false} ShiftedIsProduct(x: nat, k: nat)
    ensures Shifted(x, k) == x * Pow2(k)
  {
    if k > 0 {
      ShiftedIsProduct(x, k - 1);
    }
  }

  lemma AndShiftStep(x: nat, a: nat, y: nat, b: nat, z: nat)
    requires And(x + a / 2, y + b / 2) == z + And(a / 2, b / 2)
    ensures And(2 * x + a, 2 * y + b) == 2 * z + And(a, b)
  {
    hide And;
    AndDouble(x + a / 2, a % 2, y + b / 2, b % 2);
    AndDouble(a / 2, a % 2, b / 2, b % 2);
  }

  /** Two different masks are told apart by some word, whatever the value compared with. */
  lemma {:induction false} MasksDiffer(k: nat, v: nat, m: nat, o: nat) returns (w: nat)
    requires v < Pow2(k) && m < Pow2(k) && o < Pow2(k) && m != o
    ensures w < Pow2(k)
    ensures (And(w, m) == And(v, m)) != (And(w, o) == And(v, o))
  {
    hide And;
    BelowByHalves(k, v);
    BelowByHalves(k, m);
    BelowByHalves(k, o);
    hide Pow2;
    var v1, v0, m1, m0, o1, o0 := v / 2, v % 2, m / 2, m % 2, o / 2, o % 2;
    assert v == 2 * v1 + v0 && m == 2 * m1 + m0 && o == 2 * o1 + o0;
    var w1, w0 := v1, 1 - v0;
    if m0 == o0 {
      w1 := MasksDiffer(k - 1, v1, m1, o1);
      w0 := v0;
    }
    w := 2 * w1 + w0;
    BelowByHalves(k, w);
    SameUnderMask(w1, w0, v1, v0, m1, m0);
    SameUnderMask(w1, w0, v1, v0, o1, o0);
  }

  lemma BelowByHalves(k: nat, v: nat)
    ensures k == 0 && v < Pow2(k) ==> v == 0
    ensures k > 0 ==> (v < Pow2(k) <==> v / 2 < Pow2(k - 1))
  {
  }

  /** Words agree under a mask exactly if their upper bits do, and their last bit if the mask has it. */
  lemma SameUnderMask(w: nat, w0: nat, v: nat, v0: nat, m: nat, m0: nat)
    requires w0 < 2 && v0 < 2 && m0 < 2
    ensures And(2 * w + w0, 2 * m + m0) == And(2 * v + v0, 2 * m + m0) <==>
            And(w, m) == And(v, m) && (m0 == 1 ==> w0 == v0)
  {
    hide And;
    AndDouble(w, w0, m, m0);
    AndDouble(v, v0, m, m0);
  }

  predicate IsPow2(n: nat) {
    n == 1 || (n > 1 && n % 2 == 0 && IsPow2(n / 2))
  }

  lemma DoublePow2(n: nat)
    requires IsPow2(n)
    ensures IsPow2(2 * n)
  {
    assert 2 * n / 2 == n;
  }

  /** Between a power of two and its half there is no other. */
  lemma {:induction false} Pow2Squeezed(p: nat, q: nat)
    requires IsPow2(p) && IsPow2(q) && p / 2 < q <= p
    ensures p == q
  {
    if q > 1 {
      Pow2Squeezed(p / 2, q / 2);
    }
  }

  /** `x & (n - 1)` is `x mod n` when `n` is a power of two: what every table mask relies on. */
  lemma {:induction false} MaskIsModulo(x: nat, n: nat)
    requires IsPow2(n)
    ensures And(x, n - 1) == x % n
  {
    if n == 1 {
      assert x % 1 == 0;
    } else if x == 0 {
      assert 0 % n == 0;
    } else {
      MaskIsModulo(x / 2, n / 2);
      AndOdd(x, n);
      ModuloByHalves(x, n / 2);
    }
  }

  lemma AndOdd(x: nat, n: nat)
    requires n > 1 && n % 2 == 0 && x > 0
    ensures And(x, n - 1) == 2 * And(x / 2, n / 2 - 1) + x % 2
  {
    assert (n - 1) / 2 == n / 2 - 1 && (n - 1) % 2 == 1;
  }

  lemma ModuloByHalves(x: nat, h: nat)
    requires h > 0
    ensures x % (2 * h) == 2 * (x / 2 % h) + x % 2
  {
    var q, r := x / 2 / h, x / 2 % h;
    assert x / 2 == q * h + r;
    assert q * (2 * h) == 2 * (q * h);
    ModuloUnique(x, 2 * h, q, 2 * r + x % 2);
  }

  lemma HalveThenDivide(x: nat, d: nat)
    requires d > 0
    ensures x / 2 / d == x / (2 * d)
  {
    var q, r := x / (2 * d), x % (2 * d);
    assert x == q * (2 * d) + r;
    assert q * (2 * d) == 2 * (q * d);
    assert x / 2 == q * d + r / 2;
    QuotientUnique(x / 2, d, q, r / 2);
  }

  lemma QuotientUnique(x: nat, d: nat, q: nat, r: nat)
    requires 0 < d && r < d && x == q * d + r
    ensures x / d == q
  {
    var q', r' := x / d, x % d;
    assert x == q' * d + r';
    if q < q' {
      Gap(q, q', d);
    } else if q' < q {
      Gap(q', q, d);
    }
  }

  lemma {:induction false} Gap(a: nat, b: nat, d: nat)
    requires a < b
    ensures a * d + d <= b * d
    decreases b
  {
    if a + 1 < b {
      Gap(a, b - 1, d);
    }
  }

  lemma ModuloUnique(x: nat, d: nat, q: nat, r: nat)
    requires 0 < d && r < d && x == q * d + r
    ensures x % d == r
  {
    var q', r' := x / d, x % d;
    assert x == q' * d + r';
    if q < q' {
      Gap(q, q', d);
    } else if q' < q {
      Gap(q', q, d);
    }
  }

  /** The smallest power of two that is at least `floor` and at least `v`. */
  method NextPow2(floor: nat, v: nat) returns (p: nat)
    requires IsPow2(floor)
    ensures IsPow2(p) && floor <= p && v <= p
    ensures p == floor || p / 2 < v
  {
    p := floor;
    while p < v
      invariant IsPow2(p) && floor <= p
      invariant p == floor || p / 2 < v
      decreases v - p
    {
      DoublePow2(p);
      p := p * 2;
    }
  }

  // ------------------------------------------------------------- multi-byte fields

  /** A 16-bit field in network byte order. */
  function Be16(n: u16): (b: seq<byte>)
    ensures |b| == 2
  {
    [n / 0x100, n % 0x100]
  }

  function Rd16(b: seq<byte>, i: nat): (n: u16)
    requires i + 2 <= |b|
  {
    b[i] as int * 0x100 + b[i + 1] as int
  }

  function Rd24(b: seq<byte>, i: nat): (n: nat)
    requires i + 3 <= |b|
    ensures n < 0x100_0000
  {
    b[i] as int * 0x1_0000 + b[i + 1] as int * 0x100 + b[i + 2] as int
  }
}
