/**
  Open-addressed tables that hold a finite map: what a lookup may conclude, what storing
  does, and why rehashing into a bigger table loses nothing. The edge table of the domain
  trie and the buckets of the payload matcher are both such tables.
*/
module HashSlots {
  import opened Wrappers
  import opened Probing

  /** One slot of a table. */
  datatype Entry<K, V> = Vacant | Held(key: K, value: V)

  /** The key in each slot. */
  ghost function Keys<K, V>(es: seq<Entry<K, V>>): (t: Occupants<K>)
    ensures |t| == |es|
    ensures forall i :: 0 <= i < |es| ==> t[i] == if es[i].Vacant? then None else Some(es[i].key)
  {
    seq(|es|, i requires 0 <= i < |es| => if es[i].Vacant? then None else Some(es[i].key))
  }

  /** The table stores exactly the entries of `m`. */
  ghost predicate Represents<K, V>(es: seq<Entry<K, V>>, m: map<K, V>) {
    && (forall i :: 0 <= i < |es| && es[i].Held? ==> es[i].key in m && m[es[i].key] == es[i].value)
    && (forall k :: k in m ==> Stored(Keys(es), k))
  }

  /** Storing one more entry in an empty slot. */
  lemma StoreEntry<K, V>(es: seq<Entry<K, V>>, home: K -> nat, m: map<K, V>, i: nat, e: Entry<K, V>)
    requires Table(Keys(es), home) && Represents(es, m)
    requires e.Held? && e.key !in m
    requires i < |es| && es[i].Vacant?
    requires Reachable(Keys(es), HomeSlot(home, e.key, |es|), i)
    ensures Table(Keys(es[i := e]), home)
    ensures Used(Keys(es[i := e])) == Used(Keys(es)) + 1
    ensures Represents(es[i := e], m[e.key := e.value])
  {
    var k := e.key;
    var t, es' := Keys(es), es[i := e];
    assert !Stored(t, k) by {
      forall j | 0 <= j < |t| ensures t[j] != Some(k) {
        assert es[j].Held? ==> es[j].key in m;
      }
    }
    assert Keys(es') == t[i := Some(k)];
    StoreKeepsTable(t, home, i, k);
    forall q | q in m[k := e.value]
      ensures Stored(Keys(es'), q)
    {
      if q == k {
        assert Keys(es')[i] == Some(k);
      } else {
        assert Stored(t, q);
        var j :| 0 <= j < |t| && t[j] == Some(q);
        assert Keys(es')[j] == Some(q);
      }
    }
  }

  /** `es` holds exactly the entries in the first `n` slots of `was`, a table for `m`. */
  ghost predicate Moved<K, V>(es: seq<Entry<K, V>>, home: K -> nat, was: seq<Entry<K, V>>, n: nat,
                        m: map<K, V>, part: map<K, V>)
    requires n <= |was|
  {
    && Table(Keys(es), home)
    && Represents(es, part)
    && Used(Keys(es)) == Used(Keys(was)[..n])
    && MovedKeys(was, n, m, part)
  }

  /** `part` has the keys in the first `n` slots of `was`, with their children in `m`. */
  ghost predicate MovedKeys<K, V>(was: seq<Entry<K, V>>, n: nat, m: map<K, V>, part: map<K, V>)
    requires n <= |was|
  {
    && (forall j :: 0 <= j < n && was[j].Held? ==> was[j].key in part)
    && (forall k :: k in part ==> k in m && part[k] == m[k] && Stored(Keys(was)[..n], k))
  }

  lemma MovedNone<K, V>(es: seq<Entry<K, V>>, home: K -> nat, was: seq<Entry<K, V>>, m: map<K, V>)
    requires |es| > 0 && forall i :: 0 <= i < |es| ==> es[i].Vacant?
    ensures Moved(es, home, was, 0, m, map[])
  {
    UsedOfEmpty(Keys(es));
  }

  /** Moving never fills the new table: it has room for all of the old one twice over. */
  lemma MovedProbeable<K, V>(es: seq<Entry<K, V>>, home: K -> nat, was: seq<Entry<K, V>>, n: nat,
                       m: map<K, V>, part: map<K, V>)
    requires n <= |was| && Moved(es, home, was, n, m, part)
    requires |was| < |es|
    ensures Table(Keys(es), home) && Used(Keys(es)) < |es|
  {
  }

  /** The next entry to move is not in the new table yet. */
  lemma NextIsNew<K, V>(es: seq<Entry<K, V>>, home: K -> nat, was: seq<Entry<K, V>>, n: nat,
                  m: map<K, V>, part: map<K, V>)
    requires n < |was| && Moved(es, home, was, n, m, part)
    requires Table(Keys(was), home) && was[n].Held?
    ensures was[n].key !in part
    ensures forall j :: 0 <= j < |es| ==> Keys(es)[j] != Some(was[n].key)
  {
    var k := was[n].key;
    assert !Stored(Keys(was)[..n], k) by {
      forall j | 0 <= j < n ensures Keys(was)[..n][j] != Some(k) {
        assert Keys(was)[j] != Keys(was)[n];
      }
    }
    forall j | 0 <= j < |es| ensures Keys(es)[j] != Some(k) {
      assert es[j].Held? ==> es[j].key in part;
    }
  }

  lemma SkipKeepsMoved<K, V>(es: seq<Entry<K, V>>, home: K -> nat, was: seq<Entry<K, V>>, n: nat,
                       m: map<K, V>, part: map<K, V>)
    requires n < |was| && Moved(es, home, was, n, m, part) && was[n].Vacant?
    ensures Moved(es, home, was, n + 1, m, part)
  {
    assert Keys(was)[..n + 1][..n] == Keys(was)[..n];
    StoredInLonger(Keys(was), n, part.Keys);
  }

  lemma StoredInLonger<K>(t: Occupants<K>, n: nat, ks: set<K>)
    requires n < |t| && forall k :: k in ks ==> Stored(t[..n], k)
    ensures forall k :: k in ks ==> Stored(t[..n + 1], k)
  {
    forall k | k in ks ensures Stored(t[..n + 1], k) {
      assert Stored(t[..n], k);
      var j :| 0 <= j < n && t[..n][j] == Some(k);
      assert t[..n + 1][j] == Some(k);
    }
  }

  lemma MoveKeepsKeys<K, V>(was: seq<Entry<K, V>>, n: nat, m: map<K, V>, part: map<K, V>)
    requires n < |was| && MovedKeys(was, n, m, part) && was[n].Held? && Represents(was, m)
    ensures MovedKeys(was, n + 1, m, part[was[n].key := was[n].value])
  {
    StoredInLonger(Keys(was), n, part.Keys);
    assert Keys(was)[..n + 1][n] == Some(was[n].key);
    assert Stored(Keys(was)[..n + 1], was[n].key);
  }

  lemma MoveKeepsMoved<K, V>(es: seq<Entry<K, V>>, home: K -> nat, was: seq<Entry<K, V>>, n: nat,
                       m: map<K, V>, part: map<K, V>, s: nat)
    requires n < |was| && Moved(es, home, was, n, m, part) && was[n].Held?
    requires Table(Keys(was), home) && Represents(was, m)
    requires s < |es| && es[s].Vacant?
    requires Reachable(Keys(es), HomeSlot(home, was[n].key, |es|), s)
    ensures Moved(es[s := was[n]], home, was, n + 1, m,
                  part[was[n].key := was[n].value])
  {
    var k := was[n].key;
    NextIsNew(es, home, was, n, m, part);
    hide Table, Represents, MovedKeys, Used, Stored, Reachable;
    StoreEntry(es, home, part, s, was[n]);
    assert Keys(was)[..n + 1][..n] == Keys(was)[..n];
    MoveKeepsKeys(was, n, m, part);
  }

  lemma MovedAll<K, V>(es: seq<Entry<K, V>>, home: K -> nat, was: seq<Entry<K, V>>,
                 m: map<K, V>, part: map<K, V>)
    requires Moved(es, home, was, |was|, m, part) && Represents(was, m)
    ensures part == m && Used(Keys(es)) == Used(Keys(was))
    ensures Table(Keys(es), home) && Represents(es, part)
  {
    assert Keys(was)[..|was|] == Keys(was);
    forall k | k in m ensures k in part {
      assert Stored(Keys(was), k);
    }
  }

  /** Replacing the value of a key that is stored. */
  lemma UpdateEntry<K, V>(es: seq<Entry<K, V>>, home: K -> nat, m: map<K, V>, i: nat, v: V)
    requires Table(Keys(es), home) && Represents(es, m) && i < |es| && es[i].Held?
    ensures Keys(es[i := Held(es[i].key, v)]) == Keys(es)
    ensures Represents(es[i := Held(es[i].key, v)], m[es[i].key := v])
  {
    var es' := es[i := Held(es[i].key, v)];
    assert Keys(es') == Keys(es);
    forall j | 0 <= j < |es'| && es'[j].Held?
      ensures es'[j].key in m[es[i].key := v] && m[es[i].key := v][es'[j].key] == es'[j].value
    {
      if j != i {
        assert Keys(es)[j] != Keys(es)[i];
      }
    }
  }

  /** What a probe found is what the map says. */
  lemma FoundEntry<K, V>(es: seq<Entry<K, V>>, m: map<K, V>, k: K)
    requires Represents(es, m)
    ensures Stored(Keys(es), k) <==> k in m
  {
    if Stored(Keys(es), k) {
      var i :| 0 <= i < |es| && Keys(es)[i] == Some(k);
      assert es[i].Held?;
    }
  }
}
