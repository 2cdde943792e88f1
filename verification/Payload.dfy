/**
  The 4-byte payload matcher (src/match/payload.c): sixteen buckets, one per combination
  of wildcarded bytes, each a hash table that grows before it becomes 70% full.
*/
module Payload {
  import opened Wrappers
  import opened Bits
  import opened Claims
  import opened Probing
  import opened HashSlots
  import opened PayloadSpec

  datatype Slot = Slot(key: nat, claim: Claim, used: bool)

  const EMPTY_SLOT := Slot(0, Claim(0, 0, 0, 0), false)

  function View(s: Slot): (r: Entry<nat, Claim>) {
    if s.used then Held(s.key, s.claim) else Vacant
  }

  function Views(ss: seq<Slot>): (vs: seq<Entry<nat, Claim>>)
    ensures |vs| == |ss| && forall i :: 0 <= i < |ss| ==> vs[i] == View(ss[i])
  {
    seq(|ss|, i requires 0 <= i < |ss| => View(ss[i]))
  }

  /** What a bucket stores per pattern: the first claim, or a later more confident one. */
  function Outbid(m: map<nat, Claim>, key: nat, c: Claim): (r: map<nat, Claim>) {
    if key in m && c.conf <= m[key].conf then m else m[key := c]
  }

  class Bucket {
    const mix: nat -> nat
    var slots: array<Slot>
    var count: nat
    var bytemask: nat
    var wildcards: nat
    var active: bool
    ghost var contents: map<nat, Claim>

    ghost predicate Probeable()
      reads this, slots
    {
      Table(Keys(Views(slots[..])), mix) && Used(Keys(Views(slots[..]))) < slots.Length
    }

    ghost predicate Valid()
      reads this, slots
    {
      && (!active ==> contents == map[] && count == 0)
      && (active ==>
            && Table(Keys(Views(slots[..])), mix)
            && Used(Keys(Views(slots[..]))) == count
            && 64 <= slots.Length && IsPow2(slots.Length)
            && count * 10 < slots.Length * 7
            && Represents(Views(slots[..]), contents))
    }

    /** The bucket is what `rules` have made of bucket `i`. */
    ghost predicate Serves(rules: seq<PayRule>, i: nat)
      reads this, slots
    {
      && Valid() && i < 16
      && (active <==> BucketMask(rules, i).Some?)
      && (active ==> bytemask == BucketMask(rules, i).value && wildcards == WildcardsOf(i))
      && (active ==> Agrees(contents, rules, i, bytemask) && count > 0)
    }

    constructor (mix: nat -> nat)
      ensures Valid() && fresh(slots)
      ensures !active && this.mix == mix && contents == map[]
    {
      this.mix := mix;
      slots := new Slot[0];
      count, bytemask, wildcards := 0, 0, 0;
      active := false;
      contents := map[];
    }

    /** `bucket_init`, and the mask of the rule the bucket is opened for. */
    method Open(mask: Bytes4)
      requires Valid() && !active
      modifies this
      ensures Valid() && fresh(slots)
      ensures active && contents == map[] && count == 0 && bytemask == Be32(mask) && wildcards == Wildcards(mask)
    {
      assert IsPow2(64) by {
        assert IsPow2(1) && IsPow2(2) && IsPow2(4) && IsPow2(8) && IsPow2(16) && IsPow2(32);
      }
      var capacity := NextPow2(64, 512);
      slots := new Slot[capacity](_ => EMPTY_SLOT);
      UsedOfEmpty(Keys(Views(slots[..])));
      active := true;
      bytemask := Be32(mask);
      wildcards := Wildcards(mask);
    }

    /** The slot of a key, or the hole where it would go. */
    method FindSlot(key: nat) returns (i: nat)
      requires Probeable()
      ensures i < slots.Length
      ensures slots[i].used ==> slots[i].key == key
      ensures !slots[i].used ==> !Stored(Keys(Views(slots[..])), key)
      ensures Reachable(Keys(Views(slots[..])), HomeSlot(mix, key, slots.Length), i)
    {
      ghost var t := Keys(Views(slots[..]));
      ghost var hole := HoleExists(t);
      var start := HomeSlot(mix, key, slots.Length);
      i := start;
      while slots[i].used
        invariant i < slots.Length
        invariant Probed(t, start, i, key) && !Between(start, hole, i)
        decreases Distance(i, hole, slots.Length)
      {
        assert t[i] == Some(slots[i].key);
        if slots[i].key == key {
          return i;
        }
        ProbeStep(t, start, i, key, hole);
        i := Next(i, slots.Length);
      }
      ProbeMiss(t, mix, i, key);
    }

    /** Doubles the table; no pattern is lost. */
    method Grow()
      requires Valid() && active
      modifies this
      ensures Valid() && active && fresh(slots)
      ensures slots.Length == 2 * old(slots.Length)
      ensures contents == old(contents) && count == old(count)
      ensures bytemask == old(bytemask) && wildcards == old(wildcards)
    {
      hide Moved, Represents, Table, Stored, Reachable, Used;
      var from := slots;
      ghost var was, m := slots[..], contents;
      slots := new Slot[2 * from.Length](_ => EMPTY_SLOT);
      MovedNone(Views(slots[..]), mix, Views(was), m);
      DoublePow2(from.Length);
      ghost var part: map<nat, Claim> := map[];
      for i := 0 to from.Length
        invariant fresh(slots) && slots.Length == 2 * from.Length
        invariant from[..] == was
        invariant count == old(count) && contents == m && active
        invariant bytemask == old(bytemask) && wildcards == old(wildcards)
        invariant Moved(Views(slots[..]), mix, Views(was), i, m, part)
      {
        if !from[i].used {
          SkipKeepsMoved(Views(slots[..]), mix, Views(was), i, m, part);
        } else {
          MovedProbeable(Views(slots[..]), mix, Views(was), i, m, part);
          var s := FindSlot(from[i].key);
          NextIsNew(Views(slots[..]), mix, Views(was), i, m, part);
          assert Keys(Views(slots[..]))[s] != Some(was[i].key);
          MoveKeepsMoved(Views(slots[..]), mix, Views(was), i, m, part, s);
          ghost var ss := slots[..];
          slots[s] := from[i];
          assert slots[..] == ss[s := was[i]];
          assert Views(slots[..]) == Views(ss)[s := View(was[i])];
          part := part[was[i].key := was[i].claim];
        }
      }
      MovedAll(Views(slots[..]), mix, Views(was), m, part);
    }

    /** Stores a claim under a pattern; the same pattern claimed twice keeps the surer source. */
    method Store(key: nat, claim: Claim) returns (added: bool)
      requires Valid() && active
      modifies this, slots
      ensures Valid() && active && (slots == old(slots) || fresh(slots))
      ensures contents == Outbid(old(contents), key, claim)
      ensures added <==> key !in old(contents)
      ensures count == old(count) + (if added then 1 else 0)
      ensures bytemask == old(bytemask) && wildcards == old(wildcards)
    {
      hide Table, Stored, Reachable, Used, Represents;
      if (count + 1) * 10 >= slots.Length * 7 {
        Grow();
      }
      var i := FindSlot(key);
      ghost var ss := slots[..];
      FoundEntry(Views(ss), contents, key);
      if slots[i].used {
        EntryOf(Views(ss), contents, i);
        if claim.conf > slots[i].claim.conf {
          UpdateEntry(Views(ss), mix, contents, i, claim);
          slots[i] := Slot(key, claim, true);
          assert slots[..] == ss[i := Slot(key, claim, true)];
          assert Views(slots[..]) == Views(ss)[i := Held(key, claim)];
          contents := contents[key := claim];
        }
        return false;
      }
      StoreEntry(Views(ss), mix, contents, i, Held(key, claim));
      slots[i] := Slot(key, claim, true);
      assert slots[..] == ss[i := Slot(key, claim, true)];
      assert Views(slots[..]) == Views(ss)[i := Held(key, claim)];
      count := count + 1;
      contents := contents[key := claim];
      return true;
    }

    /** Files one more rule, opening the bucket for it if need be. */
    method File(r: PayRule, ghost rules: seq<PayRule>) returns (added: bool)
      requires Serves(rules, MaskIndex(r.mask))
      modifies this, slots
      ensures Serves(rules + [r], MaskIndex(r.mask)) && (slots == old(slots) || fresh(slots))
      ensures active && bytemask == BucketMask(rules + [r], MaskIndex(r.mask)).value
      ensures added <==> Holder(rules, MaskIndex(r.mask), bytemask, And(Be32(r.value), bytemask)).None?
    {
      hide Table, Represents, Used;
      ghost var i := MaskIndex(r.mask);
      BucketMaskOneMore(rules, r, i);
      EmptyBucket(rules, i);
      WildcardsByIndex(r.mask);
      if !active {
        Open(r.mask);
      }
      assert Agrees(contents, rules, i, bytemask);
      var key := And(Be32(r.value), bytemask);
      AgreesOneMore(contents, rules, r, i, bytemask);
      added := Store(key, r.claim);
    }

    /** The claim on a pattern. The probe is bounded by the table size, and never needs the bound. */
    method Find(key: nat) returns (c: Option<Claim>)
      requires Valid() && active
      ensures c == if key in contents then Some(contents[key]) else None
    {
      ghost var t := Keys(Views(slots[..]));
      ghost var hole := HoleExists(t);
      var start := HomeSlot(mix, key, slots.Length);
      var i: nat, probe := start, 0;
      FoundEntry(Views(slots[..]), contents, key);
      while probe < slots.Length
        invariant i < slots.Length
        invariant Probed(t, start, i, key) && !Between(start, hole, i)
        invariant probe + Distance(i, hole, slots.Length) == Distance(start, hole, slots.Length)
      {
        var s := slots[i];
        assert t[i] == if s.used then Some(s.key) else None;
        if !s.used {
          ProbeMiss(t, mix, i, key);
          return None;
        }
        if s.key == key {
          EntryOf(Views(slots[..]), contents, i);
          return Some(s.claim);
        }
        ProbeStep(t, start, i, key, hole);
        i := Next(i, slots.Length);
        probe := probe + 1;
      }
      assert false;
      c := None;
    }
  }

  lemma EntryOf(es: seq<Entry<nat, Claim>>, m: map<nat, Claim>, i: nat)
    requires Represents(es, m) && i < |es| && es[i].Held?
    ensures es[i].key in m && m[es[i].key] == es[i].value
    ensures Keys(es)[i] == Some(es[i].key) && Stored(Keys(es), es[i].key)
  {
    assert Keys(es)[i] == Some(es[i].key);
  }

  /** Bucket `i` holds what the rules so far have filed in it. */
  ghost predicate Agrees(contents: map<nat, Claim>, rules: seq<PayRule>, i: nat, bm: nat) {
    forall key: nat :: (if key in contents then Some(contents[key]) else None) == Holder(rules, i, bm, key)
  }

  lemma AgreesOneMore(contents: map<nat, Claim>, rules: seq<PayRule>, r: PayRule, i: nat, bm: nat)
    requires Agrees(contents, rules, i, bm)
    ensures MaskIndex(r.mask) != i ==> Agrees(contents, rules + [r], i, bm)
    ensures MaskIndex(r.mask) == i ==>
      Agrees(Outbid(contents, And(Be32(r.value), bm), r.claim), rules + [r], i, bm)
  {
    var key := And(Be32(r.value), bm);
    var contents' := Outbid(contents, key, r.claim);
    forall k: nat
      ensures MaskIndex(r.mask) != i ==>
        (if k in contents then Some(contents[k]) else None) == Holder(rules + [r], i, bm, k)
      ensures MaskIndex(r.mask) == i ==>
        (if k in contents' then Some(contents'[k]) else None) == Holder(rules + [r], i, bm, k)
    {
      HolderOneMore(rules, r, i, bm, k);
      assert (if k in contents then Some(contents[k]) else None) == Holder(rules, i, bm, k);
    }
  }

  /** The distinct patterns of the rules: a bucket and a key in it. */
  ghost function Patterns(rules: seq<PayRule>): (r: set<(nat, nat)>) {
    set j | 0 <= j < |rules| :: PatternOf(rules, j)
  }

  ghost function PatternOf(rules: seq<PayRule>, j: nat): (r: (nat, nat))
    requires j < |rules|
  {
    var i := MaskIndex(rules[j].mask);
    var bm := BucketMask(rules, i);
    (i, if bm.Some? then And(Be32(rules[j].value), bm.value) else 0)
  }

  lemma PatternsOneMore(rules: seq<PayRule>, r: PayRule)
    ensures var i := MaskIndex(r.mask);
      var bm := BucketMask(rules + [r], i);
      && bm.Some?
      && Patterns(rules + [r]) == Patterns(rules) + {(i, And(Be32(r.value), bm.value))}
      && ((i, And(Be32(r.value), bm.value)) in Patterns(rules) <==>
          Holder(rules, i, bm.value, And(Be32(r.value), bm.value)).Some?)
  {
    var n, i := |rules|, MaskIndex(r.mask);
    var rules' := rules + [r];
    BucketMaskOneMore(rules, r, i);
    var bm := BucketMask(rules', i).value;
    var key := And(Be32(r.value), bm);
    forall j | 0 <= j < n ensures PatternOf(rules', j) == PatternOf(rules, j) {
      BucketMaskOneMore(rules, r, MaskIndex(rules[j].mask));
      EmptyBucket(rules, MaskIndex(rules[j].mask));
      assert rules'[j] == rules[j];
    }
    assert rules'[n] == r && PatternOf(rules', n) == (i, key);
    forall p | p in Patterns(rules) ensures p in Patterns(rules') {
      var j :| 0 <= j < n && PatternOf(rules, j) == p;
      assert PatternOf(rules', j) == p;
    }
    var k := HolderHolds(rules, i, bm, key);
    if Holder(rules, i, bm, key).Some? {
      EmptyBucket(rules, i);
      assert PatternOf(rules, k) == (i, key);
    } else {
      EmptyBucket(rules, i);
      assert forall j :: 0 <= j < n ==> !FiledAt(rules[j], i, bm, key);
    }
  }

  class PayloadSet {
    const buckets: seq<Bucket>
    var total: nat
    ghost var rules: seq<PayRule>

    ghost predicate Separate()
      reads buckets
    {
      && |buckets| == 16
      && forall i, j :: 0 <= i < 16 && 0 <= j < 16 && i != j ==>
           buckets[i] != buckets[j] && buckets[i].slots != buckets[j].slots
    }

    ghost predicate Valid()
      reads this, buckets, set i | 0 <= i < |buckets| :: buckets[i].slots
    {
      && Separate()
      && (forall i :: 0 <= i < 16 ==> buckets[i].Serves(rules, i))
      && total == |Patterns(rules)|
    }

    constructor (mix: nat -> nat)
      ensures Valid() && rules == [] && |buckets| == 16
      ensures forall b :: b in buckets ==> fresh(b) && fresh(b.slots)
    {
      var bs: seq<Bucket> := [];
      for i := 0 to 16
        invariant |bs| == i
        invariant forall j :: 0 <= j < i ==>
          fresh(bs[j]) && fresh(bs[j].slots) && bs[j].Valid() && !bs[j].active
        invariant forall j, k :: 0 <= j < k < i ==> bs[j] != bs[k] && bs[j].slots != bs[k].slots
      {
        var b := new Bucket(mix);
        bs := bs + [b];
      }
      buckets := bs;
      total := 0;
      rules := [];
      new;
      assert Patterns([]) == {};
    }

    /** Files a rule. False is the C function's -1: a mask without any pinned byte is refused. */
    method Insert(value: Bytes4, mask: Bytes4, claim: Claim) returns (ok: bool)
      requires Valid()
      modifies this, buckets[MaskIndex(mask)], buckets[MaskIndex(mask)].slots
      ensures Valid()
      ensures ok <==> !AllWild(mask)
      ensures rules == old(rules) + (if ok then [PayRule(value, mask, claim)] else [])
      ensures forall b :: b in buckets ==> b.slots == old(b.slots) || fresh(b.slots)
    {
      hide Bucket.Serves, Bucket.Valid, BucketMask, Holder, And, Patterns, Be32, MaskIndex, AllWild;
      if AllWild(mask) {
        return false;
      }
      var r := PayRule(value, mask, claim);
      var bi := MaskIndex(mask);
      PatternsOneMore(rules, r);
      OthersServe(r);
      var added := buckets[bi].File(r, rules);
      if added {
        total := total + 1;
      }
      rules := rules + [r];
      return true;
    }

    lemma OthersServe(r: PayRule)
      requires Valid()
      ensures forall i :: 0 <= i < 16 && i != MaskIndex(r.mask) ==> buckets[i].Serves(rules + [r], i)
    {
      forall i | 0 <= i < 16 && i != MaskIndex(r.mask) ensures buckets[i].Serves(rules + [r], i) {
        ServesOther(buckets[i], rules, r, i);
      }
    }

    /** The tightest match: a looser bucket is not even looked at once a match is found. */
    method Lookup(payload: seq<byte>) returns (hit: Option<PayHit>)
      requires Valid()
      ensures hit == PayScan(rules, payload)
    {
      if |payload| < 4 {
        return None;
      }
      hide Bucket.Serves, Bucket.Valid, BucketMask, Holder, And, Patterns, WildcardsOf;
      var word := Be32(payload[..4]);
      hit := None;
      for bi := 0 to 16
        invariant hit == ScanBuckets(rules, word, bi)
      {
        var b := buckets[bi];
        assert b.Serves(rules, bi);
        ServesHolder(b, rules, bi, And(word, b.bytemask));
        if !b.active || b.count == 0 || (hit.Some? && b.wildcards >= hit.value.wildcards) {
          continue;
        }
        var c := b.Find(And(word, b.bytemask));
        match c
        case None =>
        case Some(claim) => hit := Some(PayHit(claim, b.wildcards));
      }
    }

    /** `ngfw_payload_count`: the distinct patterns, not the rules. */
    method Count() returns (n: nat)
      requires Valid()
      ensures n == |Patterns(rules)|
    {
      return total;
    }
  }

  lemma ServesHolder(b: Bucket, rules: seq<PayRule>, i: nat, key: nat)
    requires b.Serves(rules, i)
    ensures b.Valid() && (b.active <==> BucketMask(rules, i).Some?) && (b.active ==> b.count > 0)
    ensures b.active ==> b.bytemask == BucketMask(rules, i).value && b.wildcards == WildcardsOf(i)
    ensures b.active ==>
      (if key in b.contents then Some(b.contents[key]) else None) == Holder(rules, i, b.bytemask, key)
  {
  }

  lemma ServesOther(b: Bucket, rules: seq<PayRule>, r: PayRule, i: nat)
    requires b.Serves(rules, i) && MaskIndex(r.mask) != i
    ensures b.Serves(rules + [r], i)
  {
    BucketMaskOneMore(rules, r, i);
    if b.active {
      AgreesOneMore(b.contents, rules, r, i, b.bytemask);
    }
  }
}
