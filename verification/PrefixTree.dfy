/**
  The shape shared by the domain trie and the prefix table: nodes in an array, one node
  per path, every prefix of a path also a node.
*/
module PrefixTree {
  import opened Wrappers

  type Path<T> = seq<T>

  ghost predicate Tree<T>(paths: seq<Path<T>>) {
    && |paths| > 0 && paths[0] == []
    && (forall i, j :: 0 <= i < |paths| && 0 <= j < |paths| && paths[i] == paths[j] ==> i == j)
    && (forall i :: 0 <= i < |paths| && paths[i] != [] ==> paths[i][..|paths[i]| - 1] in paths)
  }

  /** The node with path `q`. */
  ghost function Find<T>(paths: seq<Path<T>>, q: Path<T>): (r: Option<nat>)
    ensures r.Some? ==> r.value < |paths| && paths[r.value] == q
    ensures r.None? <==> q !in paths
  {
    if i: nat :| i < |paths| && paths[i] == q then Some(i) else None
  }

  lemma FindPath<T>(paths: seq<Path<T>>, i: nat)
    requires Tree(paths) && i < |paths|
    ensures Find(paths, paths[i]) == Some(i)
  {
  }

  /** Every prefix of a path in the tree is in the tree. */
  lemma {:induction false} PrefixesPresent<T>(paths: seq<Path<T>>, q: Path<T>, k: nat)
    requires Tree(paths) && q in paths && k <= |q|
    ensures q[..k] in paths
    decreases |q|
  {
    if k < |q| {
      var q' := q[..|q| - 1];
      assert q'[..k] == q[..k];
      PrefixesPresent(paths, q', k);
    } else {
      assert q[..k] == q;
    }
  }

  lemma ParentPresent<T>(paths: seq<Path<T>>, n: Path<T>, y: T)
    requires Tree(paths)
    ensures n + [y] in paths ==> n in paths
  {
    assert (n + [y])[..|n|] == n;
    if n + [y] in paths {
      PrefixesPresent(paths, n + [y], |n|);
    }
  }

  /** Hanging a new node under node `p`. */
  lemma AddNode<T>(paths: seq<Path<T>>, p: nat, x: T)
    requires Tree(paths) && p < |paths|
    requires paths[p] + [x] !in paths
    ensures Tree(paths + [paths[p] + [x]])
    ensures forall q :: Find(paths + [paths[p] + [x]], q) ==
                        if q == paths[p] + [x] then Some(|paths|) else Find(paths, q)
    ensures forall y :: paths[p] + [x] + [y] !in paths + [paths[p] + [x]]
  {
    var n := paths[p] + [x];
    var paths' := paths + [n];
    assert n[..|n| - 1] == paths[p];
    assert Tree(paths') by {
      forall i | 0 <= i < |paths'| && paths'[i] != []
        ensures paths'[i][..|paths'[i]| - 1] in paths'
      {
        if i < |paths| {
          assert paths[i][..|paths[i]| - 1] in paths;
        } else {
          assert paths'[p] == paths[p];
        }
      }
    }
    forall q ensures Find(paths', q) == if q == n then Some(|paths|) else Find(paths, q) {
      if q == n {
        assert paths'[|paths|] == n;
        FindPath(paths', |paths|);
      } else if q in paths {
        var i := Find(paths, q).value;
        assert paths'[i] == q;
        FindPath(paths', i);
      }
    }
    forall y ensures n + [y] !in paths' {
      ParentPresent(paths, n, y);
    }
  }

  /** Two children of the same tree share a path only if they are the same child. */
  lemma SameChild<T>(paths: seq<Path<T>>, p: nat, x: T, q: nat, y: T)
    requires Tree(paths) && p < |paths| && q < |paths|
    requires paths[p] + [x] == paths[q] + [y]
    ensures p == q && x == y
  {
    assert (paths[p] + [x])[..|paths[p]|] == paths[p];
    assert (paths[q] + [y])[..|paths[q]|] == paths[q];
    assert (paths[p] + [x])[|paths[p]|] == x;
    assert (paths[q] + [y])[|paths[q]|] == y;
  }

  /** The distinct non-empty prefixes of the given keys. */
  ghost function Prefixes<T>(keys: seq<Path<T>>): (r: set<Path<T>>) {
    set i, k | 0 <= i < |keys| && 1 <= k <= |keys[i]| :: keys[i][..k]
  }

  ghost predicate Covers<T>(paths: seq<Path<T>>, keys: seq<Path<T>>) {
    forall i :: 0 <= i < |keys| ==> keys[i] in paths
  }

  /** The tree has the nodes its keys need, and no others. */
  ghost predicate Spans<T>(paths: seq<Path<T>>, keys: seq<Path<T>>) {
    && Covers(paths, keys)
    && (forall i :: 0 <= i < |paths| && paths[i] != [] ==> paths[i] in Prefixes(keys))
  }

  lemma {:induction false} DistinctCount<T>(s: seq<T>)
    requires forall i, j :: 0 <= i < |s| && 0 <= j < |s| && s[i] == s[j] ==> i == j
    ensures |set x | x in s| == |s|
  {
    if |s| > 0 {
      var n := |s| - 1;
      DistinctCount(s[..n]);
      assert (set x | x in s) == (set x | x in s[..n]) + {s[n]};
      assert s[n] !in s[..n];
    }
  }

  /** The node count is one more than the number of distinct non-empty prefixes. */
  lemma NodeCount<T>(paths: seq<Path<T>>, keys: seq<Path<T>>)
    requires Tree(paths) && Spans(paths, keys)
    ensures |paths| == 1 + |Prefixes(keys)|
  {
    var all := set x | x in paths;
    DistinctCount(paths);
    assert all == {[]} + Prefixes(keys) by {
      forall q | q in Prefixes(keys) ensures q in all {
        var i, k :| 0 <= i < |keys| && 1 <= k <= |keys[i]| && q == keys[i][..k];
        assert keys[i] in paths;
        PrefixesPresent(paths, keys[i], k);
      }
      assert paths[0] in all;
    }
    assert [] !in Prefixes(keys);
  }

  /** `paths'` adds to `paths` only nodes on the way to `key`. */
  ghost predicate Grown<T>(paths: seq<Path<T>>, paths': seq<Path<T>>, key: Path<T>) {
    paths <= paths' && forall i :: |paths| <= i < |paths'| ==> paths'[i] <= key
  }

  lemma GrownNone<T>(paths: seq<Path<T>>, key: Path<T>)
    ensures Grown(paths, paths, key)
  {
  }

  lemma GrownOneMore<T>(paths: seq<Path<T>>, paths': seq<Path<T>>, key: Path<T>, q: Path<T>)
    requires Grown(paths, paths', key) && q <= key
    ensures Grown(paths, paths' + [q], key)
  {
  }

  /** Another key whose node exists keeps the span exact when its prefixes are the new nodes. */
  lemma SpansOneMore<T>(paths: seq<Path<T>>, paths': seq<Path<T>>, keys: seq<Path<T>>, key: Path<T>)
    requires Tree(paths') && Spans(paths, keys) && Grown(paths, paths', key) && key in paths'
    ensures Spans(paths', keys + [key])
  {
    hide Tree;
    var keys' := keys + [key];
    assert keys'[|keys|] == key;
    forall k | 0 <= k < |keys'| ensures keys'[k] in paths' {
      if k < |keys| {
        assert keys[k] in paths;
      }
    }
    forall i | 0 <= i < |paths'| && paths'[i] != []
      ensures paths'[i] in Prefixes(keys')
    {
      if i < |paths| {
        PrefixesMore(keys, key, paths[i]);
      } else {
        InPrefixes(keys', |keys|, paths'[i]);
      }
    }
  }

  lemma InPrefixes<T>(keys: seq<Path<T>>, i: nat, q: Path<T>)
    requires i < |keys| && q != [] && q <= keys[i]
    ensures q in Prefixes(keys)
  {
    assert q == keys[i][..|q|];
  }

  lemma PrefixesMore<T>(keys: seq<Path<T>>, key: Path<T>, q: Path<T>)
    requires q in Prefixes(keys)
    ensures q in Prefixes(keys + [key])
  {
    var j, k :| 0 <= j < |keys| && 1 <= k <= |keys[j]| && q == keys[j][..k];
    assert (keys + [key])[j] == keys[j];
  }
}
