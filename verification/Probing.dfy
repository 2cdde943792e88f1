/**
  Linear probing in an open-addressed table, as both hash tables of the engine do it:
  the domain trie's edge table (src/match/domain_trie.c) and the payload matcher's
  buckets (src/match/payload.c).

  The module reasons about the *occupants* of a table: one optional key per slot.
  A concrete table is related to its occupants by a projection.
*/
module Probing {

  import opened Wrappers

  type Occupants<K(==)> = seq<Option<K>>

  /** The slot after `i` in a table of `cap` slots: `(i + 1) & mask`. */
  function Next(i: nat, cap: nat): (r: nat)
    requires i < cap
    ensures r < cap
  {
    if i + 1 == cap then 0 else i + 1
  }

  /** Slot `s` is met before slot `i` by a probe that starts at `start`. */
  predicate Between(start: nat, s: nat, i: nat) {
    if start <= i then start <= s < i else start <= s || s < i
  }

  /** The number of steps a probe needs from `i` to `e`. */
  function Distance(i: nat, e: nat, cap: nat): (d: nat)
    requires i < cap && e < cap
  {
    if i <= e then e - i else e + cap - i
  }

  /** The first slot a probe for `k` looks at. */
  function HomeSlot<K>(home: K -> nat, k: K, cap: nat): (h: nat)
    requires 0 < cap
    ensures h < cap
  {
    home(k) % cap
  }

  /** Every slot on the way from `start` to `i` is occupied. */
  ghost predicate Reachable<K>(t: Occupants<K>, start: nat, i: nat) {
    forall s :: 0 <= s < |t| && Between(start, s, i) ==> t[s].Some?
  }

  /** No probe chain has a hole in it. */
  ghost predicate Chained<K>(t: Occupants<K>, home: K -> nat) {
    |t| > 0 ==>
      forall i :: 0 <= i < |t| && t[i].Some? ==> Reachable(t, HomeSlot(home, t[i].value, |t|), i)
  }

  /** No key is stored twice. */
  ghost predicate Distinct<K>(t: Occupants<K>) {
    forall i, j :: 0 <= i < |t| && 0 <= j < |t| && t[i].Some? && t[i] == t[j] ==> i == j
  }

  ghost predicate Table<K>(t: Occupants<K>, home: K -> nat) {
    |t| > 0 && Chained(t, home) && Distinct(t)
  }

  /** The number of occupied slots. */
  ghost function Used<K>(t: Occupants<K>): (n: nat)
    ensures n <= |t|
  {
    if |t| == 0 then 0
    else Used(t[..|t| - 1]) + (if t[|t| - 1].Some? then 1 else 0)
  }

  ghost predicate Stored<K>(t: Occupants<K>, k: K) {
    exists i :: 0 <= i < |t| && t[i] == Some(k)
  }

  /**
    What the probe loops maintain: starting from the home slot of `k`, everything
    before `i` is occupied by other keys.
  */
  ghost predicate Probed<K>(t: Occupants<K>, start: nat, i: nat, k: K) {
    forall s :: 0 <= s < |t| && Between(start, s, i) ==> t[s].Some? && t[s].value != k
  }

  /** A table that is not full has a hole, so an unbounded probe must stop. */
  lemma {:induction false} HoleExists<K>(t: Occupants<K>) returns (e: nat)
    requires Used(t) < |t|
    ensures e < |t| && t[e].None?
  {
    if t[|t| - 1].None? {
      e := |t| - 1;
    } else {
      e := HoleExists(t[..|t| - 1]);
    }
  }

  /** One step of a probe loop past an occupied slot of another key. */
  lemma ProbeStep<K>(t: Occupants<K>, start: nat, i: nat, k: K, hole: nat)
    requires start < |t| && i < |t| && hole < |t|
    requires t[hole].None? && !Between(start, hole, i)
    requires Probed(t, start, i, k)
    requires t[i].Some? && t[i].value != k
    ensures Probed(t, start, Next(i, |t|), k)
    ensures !Between(start, hole, Next(i, |t|))
    ensures Distance(Next(i, |t|), hole, |t|) < Distance(i, hole, |t|)
  {
    assert hole != i;
    assert Next(i, |t|) != start;
    forall s | 0 <= s < |t| && Between(start, s, Next(i, |t|))
      ensures t[s].Some? && t[s].value != k
    {
      assert s == i || Between(start, s, i);
    }
  }

  /** A probe that runs into a hole has seen every slot its key could be in. */
  lemma ProbeMiss<K>(t: Occupants<K>, home: K -> nat, i: nat, k: K)
    requires Table(t, home)
    requires i < |t| && t[i].None?
    requires Probed(t, HomeSlot(home, k, |t|), i, k)
    ensures !Stored(t, k)
  {
    forall s | 0 <= s < |t|
      ensures t[s] != Some(k)
    {
      if t[s].Some? {
        assert Reachable(t, HomeSlot(home, t[s].value, |t|), s);
      }
    }
  }

  /** Writing a new key into the hole its probe ends at keeps the table well formed. */
  lemma StoreKeepsTable<K>(t: Occupants<K>, home: K -> nat, i: nat, k: K)
    requires Table(t, home)
    requires i < |t| && t[i].None? && !Stored(t, k)
    requires Reachable(t, HomeSlot(home, k, |t|), i)
    ensures Table(t[i := Some(k)], home)
    ensures Used(t[i := Some(k)]) == Used(t) + 1
  {
    var t' := t[i := Some(k)];
    forall j | 0 <= j < |t'| && t'[j].Some?
      ensures Reachable(t', HomeSlot(home, t'[j].value, |t'|), j)
    {
      var start := HomeSlot(home, t'[j].value, |t'|);
      if j != i {
        assert Reachable(t, start, j);
      }
    }
    assert forall s :: 0 <= s < |t| ==> t[s] != Some(k);
    UsedAfterStore(t, i, k);
  }

  lemma {:induction false} UsedAfterStore<K>(t: Occupants<K>, i: nat, k: K)
    requires i < |t| && t[i].None?
    ensures Used(t[i := Some(k)]) == Used(t) + 1
  {
    var n := |t| - 1;
    var t' := t[i := Some(k)];
    if i == n {
      assert t'[..n] == t[..n];
    } else {
      assert t'[..n] == t[..n][i := Some(k)];
      UsedAfterStore(t[..n], i, k);
    }
  }

  /** A freshly cleared table holds nothing. */
  lemma {:induction false} UsedOfEmpty<K>(t: Occupants<K>)
    requires forall i :: 0 <= i < |t| ==> t[i].None?
    ensures Used(t) == 0
  {
    if |t| > 0 {
      UsedOfEmpty(t[..|t| - 1]);
    }
  }

  lemma {:induction false} UsedPrefix<K>(t: Occupants<K>, n: nat)
    requires n <= |t|
    ensures Used(t[..n]) <= Used(t)
  {
    if n < |t| {
      assert t[..|t| - 1][..n] == t[..n];
      UsedPrefix(t[..|t| - 1], n);
    } else {
      assert t[..n] == t;
    }
  }
}
