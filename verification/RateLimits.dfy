/**
  The per-domain token bucket of the crawler (src/utils/rate_limiter.py). Tasks interleave
  at the await points of `acquire`: taking the lock, which refills and may grant at once,
  and waking from the sleep. The lock is held over the sleep, so acquires are serial.
  Time and tokens are reals; a sleep lasts at least as long as asked.
*/
module RateLimits {
  import opened Wrappers

  function RMin(x: real, y: real): (r: real) { if x <= y then x else y }
  function RMax(x: real, y: real): (r: real) { if x <= y then y else x }

  /** A bucket's settings. */
  datatype Rate = Rate(rps: real, burst: nat)

  /** A bucket; `due` is when the sleeper that holds the lock may wake, `grants` the history. */
  datatype Bucket = Bucket(tokens: real, updatedAt: real, due: Option<real>, grants: seq<real>)

  /** What can happen to a bucket: a task takes the lock, the sleeper wakes, the sleeper is cancelled. */
  datatype Event = Enter(now: real) | Wake(now: real) | Cancel

  function Refilled(r: Rate, b: Bucket, now: real): (v: Bucket) {
    b.(tokens := RMin(r.burst as real, b.tokens + (now - b.updatedAt) * r.rps), updatedAt := now)
  }

  function WaitFor(r: Rate, tokens: real): (v: real) {
    if r.rps > 0.0 then (1.0 - tokens) / r.rps else 0.0
  }

  predicate Enabled(b: Bucket, e: Event) {
    match e
    case Enter(now) => b.due.None? && b.updatedAt <= now
    case Wake(now) => b.due.Some? && b.due.value <= now && b.updatedAt <= now
    case Cancel => b.due.Some?
  }

  function Step(r: Rate, b: Bucket, e: Event): (v: Bucket) {
    match e
    case Enter(now) =>
      var f := Refilled(r, b, now);
      if f.tokens >= 1.0 then f.(tokens := f.tokens - 1.0, grants := f.grants + [now])
      else f.(due := Some(now + WaitFor(r, f.tokens)))
    case Wake(now) =>
      var f := Refilled(r, b, now);
      f.(tokens := RMax(0.0, f.tokens - 1.0), due := None, grants := f.grants + [now])
    case Cancel => b.(due := None)
  }

  /** The bucket after a run of events, each possible when it happened. */
  function Run(r: Rate, b: Bucket, es: seq<Event>): (v: Option<Bucket>) {
    if |es| == 0 then Some(b)
    else
      match Run(r, b, es[..|es| - 1])
      case None => None
      case Some(was) => if Enabled(was, es[|es| - 1]) then Some(Step(r, was, es[|es| - 1])) else None
  }

  /** A bucket nobody has used yet. */
  predicate Unused(r: Rate, b: Bucket) {
    0.0 <= b.tokens <= r.burst as real && b.due.None? && b.grants == []
  }

  // ------------------------------------------------------------------ the invariant

  /** From grant `i` on, the grants and the tokens left are paid for by the burst and the time. */
  ghost predicate Paid(r: Rate, b: Bucket, i: nat)
    requires i < |b.grants|
  {
    b.grants[i] <= b.updatedAt &&
    b.tokens + (|b.grants| - i) as real <= r.burst as real + r.rps * (b.updatedAt - b.grants[i])
  }

  ghost predicate Spaced(r: Rate, g: seq<real>, i: nat, j: nat)
    requires i <= j < |g|
  {
    g[i] <= g[j] && (j - i + 1) as real <= r.burst as real + r.rps * (g[j] - g[i])
  }

  ghost predicate Sleeping(r: Rate, b: Bucket) {
    b.due.Some? ==> b.tokens < 1.0 && b.due.value == b.updatedAt + WaitFor(r, b.tokens)
  }

  ghost predicate BucketOk(r: Rate, b: Bucket) {
    && 0.0 <= b.tokens <= r.burst as real && Sleeping(r, b)
    && (forall i: nat :: i < |b.grants| ==> Paid(r, b, i))
    && (forall i: nat, j: nat :: i <= j < |b.grants| ==> Spaced(r, b.grants, i, j))
  }

  lemma Times(x: real, y: real, z: real)
    ensures x * (y + z) == x * y + x * z
  {
  }

  lemma NonNegative(x: real, y: real)
    requires x >= 0.0 && y >= 0.0
    ensures x * y >= 0.0
  {
  }

  lemma RefillKeepsPaid(r: Rate, b: Bucket, now: real, i: nat)
    requires r.rps > 0.0 && b.updatedAt <= now && i < |b.grants| && Paid(r, b, i)
    ensures Paid(r, Refilled(r, b, now), i)
  {
    var e := now - b.updatedAt;
    Times(r.rps, b.updatedAt - b.grants[i], e);
    assert now - b.grants[i] == (b.updatedAt - b.grants[i]) + e;
  }

  lemma RefillInRange(r: Rate, b: Bucket, now: real)
    requires r.rps > 0.0 && b.updatedAt <= now && 0.0 <= b.tokens <= r.burst as real
    ensures b.tokens <= Refilled(r, b, now).tokens <= r.burst as real
  {
    NonNegative(now - b.updatedAt, r.rps);
  }

  /** The sleep is long enough for the missing part of a token. */
  lemma WakesWithToken(r: Rate, b: Bucket, now: real)
    requires r.rps > 0.0 && r.burst >= 1 && Sleeping(r, b) && b.due.Some? && b.due.value <= now
    ensures b.updatedAt <= now && Refilled(r, b, now).tokens >= 1.0
  {
    var w := WaitFor(r, b.tokens);
    assert w * r.rps == 1.0 - b.tokens;
    assert w >= 0.0;
    NonNegative(now - b.updatedAt - w, r.rps);
    Times(r.rps, w, now - b.updatedAt - w);
  }

  /** And no longer: the wait is the least time after which a token is there. */
  lemma WaitIsLeast(r: Rate, b: Bucket, now: real)
    requires r.rps > 0.0 && r.burst >= 1 && b.tokens < 1.0
    ensures Refilled(r, b, now).tokens >= 1.0 <==> now >= b.updatedAt + WaitFor(r, b.tokens)
  {
    var w, e := WaitFor(r, b.tokens), now - b.updatedAt;
    assert w * r.rps == 1.0 - b.tokens;
    if e >= w {
      NonNegative(r.rps, e - w);
      Times(r.rps, w, e - w);
      assert w + (e - w) == e;
    } else {
      Positive(r.rps, w - e);
      Times(r.rps, e, w - e);
      assert e + (w - e) == w;
      assert b.tokens + e * r.rps < 1.0;
      assert Refilled(r, b, now).tokens <= b.tokens + e * r.rps;
    }
  }

  /** What a sleeper oversleeps is not lost: it takes one token, and leaves what has come in since it could wake. */
  lemma WakeKeepsSurplus(r: Rate, b: Bucket, now: real)
    requires r.rps > 0.0 && r.burst >= 1 && Sleeping(r, b) && b.due.Some? && b.due.value <= now
    ensures Step(r, b, Wake(now)).tokens == RMin(r.burst as real - 1.0, (now - b.due.value) * r.rps)
  {
    var w := WaitFor(r, b.tokens);
    assert w * r.rps == 1.0 - b.tokens;
    Times(r.rps, w, now - b.due.value);
    assert w + (now - b.due.value) == now - b.updatedAt;
    NonNegative(now - b.due.value, r.rps);
  }

  lemma Positive(x: real, y: real)
    requires x > 0.0 && y > 0.0
    ensures x * y > 0.0
  {
  }

  /** A grant with a token in hand. */
  lemma GrantKeepsPaid(r: Rate, b: Bucket, f: Bucket)
    requires 1.0 <= b.tokens <= r.burst as real
    requires f.tokens == b.tokens - 1.0 && f.updatedAt == b.updatedAt && f.grants == b.grants + [b.updatedAt]
    requires forall i: nat :: i < |b.grants| ==> Paid(r, b, i)
    requires forall i: nat, j: nat :: i <= j < |b.grants| ==> Spaced(r, b.grants, i, j)
    ensures forall i: nat :: i < |f.grants| ==> Paid(r, f, i)
    ensures forall i: nat, j: nat :: i <= j < |f.grants| ==> Spaced(r, f.grants, i, j)
  {
    var n := |b.grants|;
    forall i: nat | i < |f.grants| ensures Paid(r, f, i) {
      if i < n {
        assert Paid(r, b, i);
      }
    }
    forall i: nat, j: nat | i <= j < |f.grants| ensures Spaced(r, f.grants, i, j) {
      if j < n {
        assert Spaced(r, b.grants, i, j);
      } else {
        assert Paid(r, f, i);
      }
    }
  }

  lemma StepKeepsBucket(r: Rate, b: Bucket, e: Event)
    requires r.rps > 0.0 && r.burst >= 1 && BucketOk(r, b) && Enabled(b, e)
    ensures BucketOk(r, Step(r, b, e))
  {
    hide Paid, Spaced, Refilled, WaitFor;
    match e
    case Cancel =>
      forall i: nat | i < |b.grants| ensures Paid(r, Step(r, b, e), i) {
        PaidIgnoresLock(r, b, Step(r, b, e), i);
      }
    case Enter(now) =>
      RefillKeepsAll(r, b, now);
      var f := Refilled(r, b, now);
      var s := Step(r, b, e);
      if f.tokens >= 1.0 {
        GrantKeepsPaid(r, f, s);
      } else {
        forall i: nat | i < |b.grants| ensures Paid(r, s, i) {
          PaidIgnoresLock(r, f, s, i);
        }
      }
    case Wake(now) =>
      WakesWithToken(r, b, now);
      RefillKeepsAll(r, b, now);
      GrantKeepsPaid(r, Refilled(r, b, now), Step(r, b, e));
  }

  lemma RefillKeepsAll(r: Rate, b: Bucket, now: real)
    requires r.rps > 0.0 && BucketOk(r, b) && b.updatedAt <= now
    ensures var f := Refilled(r, b, now);
      && 0.0 <= f.tokens <= r.burst as real && f.updatedAt == now && f.grants == b.grants && f.due == b.due
      && forall i: nat :: i < |f.grants| ==> Paid(r, f, i)
  {
    hide Paid, Spaced;
    RefillInRange(r, b, now);
    forall i: nat | i < |b.grants| ensures Paid(r, Refilled(r, b, now), i) {
      RefillKeepsPaid(r, b, now, i);
    }
  }

  lemma PaidIgnoresLock(r: Rate, b: Bucket, s: Bucket, i: nat)
    requires i < |b.grants| && Paid(r, b, i)
    requires s.grants == b.grants && s.tokens == b.tokens && s.updatedAt == b.updatedAt
    ensures Paid(r, s, i)
  {
  }

  lemma {:induction false} RunKeepsBucket(r: Rate, b: Bucket, es: seq<Event>)
    requires r.rps > 0.0 && r.burst >= 1 && Unused(r, b) && Run(r, b, es).Some?
    ensures BucketOk(r, Run(r, b, es).value)
  {
    if |es| > 0 {
      RunKeepsBucket(r, b, es[..|es| - 1]);
      StepKeepsBucket(r, Run(r, b, es[..|es| - 1]).value, es[|es| - 1]);
    }
  }

  // ------------------------------------------------------------------ the rate

  /** How many grants fall into a window of time. */
  function Within(g: seq<real>, a: real, z: real): (r: nat) {
    if |g| == 0 then 0
    else Within(g[..|g| - 1], a, z) + (if a <= g[|g| - 1] <= z then 1 else 0)
  }

  /** Grants in a window lie between a first and a last one. */
  lemma {:induction false} WindowEnds(g: seq<real>, a: real, z: real) returns (i: nat, j: nat)
    ensures Within(g, a, z) > 0 ==>
      i <= j < |g| && a <= g[i] && g[i] <= z && a <= g[j] && g[j] <= z && Within(g, a, z) <= j - i + 1
  {
    i, j := 0, 0;
    if |g| > 0 {
      var n := |g| - 1;
      i, j := WindowEnds(g[..n], a, z);
      if a <= g[n] <= z {
        if Within(g[..n], a, z) == 0 {
          i := n;
        }
        j := n;
      }
    }
  }

  /** The bucket does what it is for: no window of time sees more grants than burst and rate allow. */
  ghost predicate Limits(r: Rate) {
    forall b: Bucket, es: seq<Event>, a: real, z: real ::
      Unused(r, b) && Run(r, b, es).Some? && a <= z ==>
        Within(Run(r, b, es).value.grants, a, z) as real <= r.burst as real + r.rps * (z - a)
  }

  lemma WindowIsBounded(r: Rate, b: Bucket, es: seq<Event>, a: real, z: real)
    requires r.rps > 0.0 && r.burst >= 1 && Unused(r, b) && Run(r, b, es).Some? && a <= z
    ensures Within(Run(r, b, es).value.grants, a, z) as real <= r.burst as real + r.rps * (z - a)
  {
    hide Run, Sleeping, Paid, Spaced;
    RunKeepsBucket(r, b, es);
    WindowOfSpaced(r, Run(r, b, es).value.grants, a, z);
  }

  lemma WindowOfSpaced(r: Rate, g: seq<real>, a: real, z: real)
    requires r.rps > 0.0 && a <= z
    requires forall i: nat, j: nat :: i <= j < |g| ==> Spaced(r, g, i, j)
    ensures Within(g, a, z) as real <= r.burst as real + r.rps * (z - a)
  {
    hide Within, Spaced;
    if Within(g, a, z) == 0 {
      NothingGranted(r, a, z, Within(g, a, z));
    } else {
      var i, j := WindowEnds(g, a, z);
      SpacedSpan(r, g, i, j, a, z, Within(g, a, z));
    }
  }

  lemma NothingGranted(r: Rate, a: real, z: real, m: nat)
    requires r.rps > 0.0 && a <= z && m == 0
    ensures m as real <= r.burst as real + r.rps * (z - a)
  {
    var earned := r.rps * (z - a);
    NonNegative(r.rps, z - a);
    assert m as real == 0.0 && r.burst as real >= 0.0 && earned >= 0.0;
  }

  lemma SpacedSpan(r: Rate, g: seq<real>, i: nat, j: nat, a: real, z: real, m: nat)
    requires r.rps > 0.0 && i <= j < |g| && Spaced(r, g, i, j)
    requires a <= g[i] && g[j] <= z && m <= j - i + 1
    ensures m as real <= r.burst as real + r.rps * (z - a)
  {
    Earns(r.rps, g[j] - g[i], z - a);
  }

  lemma Earns(rps: real, x: real, y: real)
    requires rps > 0.0 && x <= y
    ensures rps * x <= rps * y
  {
    NonNegative(rps, y - x);
    Times(rps, x, y - x);
    assert x + (y - x) == y;
  }

  function Zeros(n: nat): (z: seq<real>)
    ensures |z| == n
  {
    if n == 0 then [] else Zeros(n - 1) + [0.0]
  }

  function Full(r: Rate): (v: Bucket) {
    Bucket(r.burst as real, 0.0, None, [])
  }

  lemma TakeOne(r: Rate, n: nat, g: seq<real>)
    requires n < r.burst
    ensures Step(r, Bucket((r.burst - n) as real, 0.0, None, g), Enter(0.0)) ==
            Bucket((r.burst - (n + 1)) as real, 0.0, None, g + [0.0])
  {
  }

  /** A full bucket, drained at one instant. */
  lemma {:induction false} Drain(r: Rate, n: nat) returns (es: seq<Event>)
    requires n <= r.burst
    ensures Run(r, Full(r), es) == Some(Bucket((r.burst - n) as real, 0.0, None, Zeros(n)))
  {
    hide Step, Zeros;
    if n == 0 {
      es := [];
      NoZeros();
    } else {
      var front := Drain(r, n - 1);
      es := front + [Enter(0.0)];
      assert es[..|es| - 1] == front;
      TakeOne(r, n - 1, Zeros(n - 1));
      MoreZeros(n);
    }
  }

  lemma NoZeros()
    ensures Zeros(0) == []
  {
  }

  lemma MoreZeros(n: nat)
    requires n > 0
    ensures Zeros(n) == Zeros(n - 1) + [0.0]
  {
  }

  lemma {:induction false} ZerosWithin(n: nat)
    ensures Within(Zeros(n), 0.0, 0.0) == n
  {
    if n > 0 {
      assert Zeros(n)[..n - 1] == Zeros(n - 1);
      ZerosWithin(n - 1);
    }
  }

  /** After draining, one more acquire is granted after the wait, token or no token. */
  lemma OneTooMany(r: Rate) returns (es: seq<Event>, t: real)
    requires r.rps <= 0.0 || r.burst == 0
    ensures t == WaitFor(r, 0.0) && t >= 0.0
    ensures Run(r, Full(r), es).Some? && Run(r, Full(r), es).value.grants == Zeros(r.burst) + [t]
  {
    hide Run, Zeros;
    var front := Drain(r, r.burst);
    t := WaitFor(r, 0.0);
    var two := front + [Enter(0.0)];
    es := two + [Wake(t)];
    assert two[..|two| - 1] == front && es[..|es| - 1] == two;
    var empty := Bucket(0.0, 0.0, None, Zeros(r.burst));
    RunOneMore(r, Full(r), two);
    assert Run(r, Full(r), two) == Some(empty.(due := Some(t)));
    RunOneMore(r, Full(r), es);
  }

  lemma RunOneMore(r: Rate, b: Bucket, es: seq<Event>)
    requires |es| > 0 && Run(r, b, es[..|es| - 1]).Some?
    requires Enabled(Run(r, b, es[..|es| - 1]).value, es[|es| - 1])
    ensures Run(r, b, es) == Some(Step(r, Run(r, b, es[..|es| - 1]).value, es[|es| - 1]))
  {
  }

  /** A run of a full bucket that breaks the bound. */
  lemma Unlimited(r: Rate) returns (es: seq<Event>, t: real)
    requires r.rps <= 0.0 || r.burst == 0
    ensures Run(r, Full(r), es).Some?
    ensures Within(Run(r, Full(r), es).value.grants, t, t) > r.burst
  {
    es, t := OneTooMany(r);
    hide Run;
    var g := Run(r, Full(r), es).value.grants;
    assert g[..|g| - 1] == Zeros(r.burst);
    if r.rps <= 0.0 {
      ZerosWithin(r.burst);
    }
  }

  /**
    The bound holds exactly for a positive rate and a burst of at least one. A rate of zero
    makes the wait zero, so nothing is limited at all; a burst of zero grants without a token.
  */
  lemma LimitsIff(r: Rate)
    ensures Limits(r) <==> r.rps > 0.0 && r.burst >= 1
  {
    hide Run, Within;
    if r.rps > 0.0 && r.burst >= 1 {
      forall b: Bucket, es: seq<Event>, a: real, z: real | Unused(r, b) && Run(r, b, es).Some? && a <= z
        ensures Within(Run(r, b, es).value.grants, a, z) as real <= r.burst as real + r.rps * (z - a)
      {
        WindowIsBounded(r, b, es, a, z);
      }
    } else {
      var es, t := Unlimited(r);
      assert Unused(r, Full(r));
    }
  }

  // ------------------------------------------------------------------ the classes

  class DomainBucket {
    const rate: Rate
    var tokens: real
    var updatedAt: real
    /** The sleeper that holds the lock, if any, may wake at this time. */
    var due: Option<real>
    ghost var grants: seq<real>

    ghost function State(): (r: Bucket)
      reads this
    {
      Bucket(tokens, updatedAt, due, grants)
    }

    constructor (rate: Rate, tokens: real, now: real)
      ensures this.rate == rate && State() == Bucket(tokens, now, None, [])
    {
      this.rate, this.tokens, updatedAt, due, grants := rate, tokens, now, None, [];
    }

    method Refill(now: real)
      modifies this`tokens, this`updatedAt
      ensures State() == Refilled(rate, old(State()), now)
      ensures 0.0 <= rate.rps && old(updatedAt) <= now && old(tokens) <= rate.burst as real ==>
        old(tokens) <= tokens <= rate.burst as real
      ensures now == old(updatedAt) && old(tokens) <= rate.burst as real ==> tokens == old(tokens)
    {
      var elapsed := now - updatedAt;
      if 0.0 <= rate.rps && 0.0 <= elapsed {
        NonNegative(elapsed, rate.rps);
      }
      tokens := RMin(rate.burst as real, tokens + elapsed * rate.rps);
      updatedAt := now;
    }

    /** `acquire` from the moment it has the lock: the seconds waited, or a sleep to come. */
    method Begin(now: real) returns (waited: Option<real>)
      requires Enabled(State(), Enter(now))
      modifies this
      ensures State() == Step(rate, old(State()), Enter(now))
      ensures waited.Some? <==> due.None?
      ensures waited.Some? ==> waited.value == 0.0 && grants == old(grants) + [now]
    {
      Refill(now);
      if tokens >= 1.0 {
        tokens := tokens - 1.0;
        grants := grants + [now];
        return Some(0.0);
      }
      var deficit := 1.0 - tokens;
      var wait := if rate.rps > 0.0 then deficit / rate.rps else 0.0;
      due := Some(now + wait);
      return None;
    }

    /** The rest of `acquire`, after the sleep. */
    method Resume(now: real)
      requires Enabled(State(), Wake(now))
      modifies this
      ensures State() == Step(rate, old(State()), Wake(now))
      ensures due.None? && grants == old(grants) + [now]
    {
      Refill(now);
      tokens := RMax(0.0, tokens - 1.0);
      due := None;
      grants := grants + [now];
    }

    /** Cancellation during the sleep releases the lock and takes no token. */
    method Abandon()
      requires Enabled(State(), Cancel)
      modifies this`due
      ensures State() == Step(rate, old(State()), Cancel)
    {
      due := None;
    }
  }

  type Domain = seq<char>

  /** One bucket per domain; `bucket_for` and `set_domain_rps` on domains already extracted and lower-cased. */
  class RateLimiter {
    const defaultRps: real
    const burst: nat
    var buckets: map<Domain, DomainBucket>
    var overrides: map<Domain, real>

    /** Domains do not share buckets, so a slow one never throttles another. */
    ghost predicate Valid()
      reads this
    {
      && (forall d, e :: d in buckets && e in buckets && buckets[d] == buckets[e] ==> d == e)
      && (forall d :: d in buckets ==> buckets[d].rate == Rate(RpsOf(d), burst))
    }

    function RpsOf(d: Domain): (r: real)
      reads this`overrides
    {
      if d in overrides then overrides[d] else defaultRps
    }

    constructor (defaultRps: real, burst: nat)
      ensures Valid() && buckets == map[] && overrides == map[]
      ensures this.defaultRps == defaultRps && this.burst == burst
    {
      this.defaultRps, this.burst := defaultRps, burst;
      buckets, overrides := map[], map[];
    }

    /** A new rate for a domain; its bucket is forgotten, and the next one starts full. */
    method SetDomainRps(d: Domain, rps: real)
      requires Valid()
      modifies this
      ensures Valid() && RpsOf(d) == rps && buckets == old(buckets) - {d}
      ensures forall e :: e != d ==> RpsOf(e) == old(RpsOf(e))
    {
      overrides := overrides[d := rps];
      buckets := buckets - {d};
    }

    /** The domain's bucket; a new one starts full and unused. */
    method BucketFor(d: Domain, now: real) returns (b: DomainBucket)
      requires Valid()
      modifies this`buckets
      ensures Valid() && d in buckets && b == buckets[d] && b.rate == Rate(RpsOf(d), burst)
      ensures d in old(buckets) ==> buckets == old(buckets)
      ensures d !in old(buckets) ==>
        fresh(b) && buckets == old(buckets)[d := b] && b.State() == Bucket(burst as real, now, None, []) &&
        Unused(b.rate, b.State())
    {
      if d !in buckets {
        b := new DomainBucket(Rate(RpsOf(d), burst), burst as real, now);
        buckets := buckets[d := b];
      }
      b := buckets[d];
    }
  }
}
