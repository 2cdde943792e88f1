/**
  The reversed-label domain trie (src/match/domain_trie.c): nodes in a growing array,
  children in one global edge table keyed by parent node and label hash.
*/
module DomainTrie {
  import opened Wrappers
  import opened Bits
  import opened Claims
  import opened Labels
  import opened PrefixTree
  import opened TrieSpec
  import opened EdgeTables

  datatype Node = Node(exact: Claim, suffix: Claim)

  const FRESH_NODE := Node(UNCLAIMED, UNCLAIMED)

  /** The path a name is filed under, or none if it is not a usable name. */
  function NamePath(d: Name): (p: Option<seq<Label>>)
    ensures p.Some? ==> 1 <= |p.value| <= MAX_LABELS
  {
    match SplitSpec(d, MAX_LABELS)
    case None => None
    case Some(ls) => if ls == [] then None else Some(Reversed(ls))
  }

  function HashedPath(hash: Label -> nat, d: Name): (p: Option<seq<nat>>)
    ensures p.Some? ==> 1 <= |p.value| <= MAX_LABELS && 0 !in p.value
  {
    match NamePath(d)
    case None => None
    case Some(p) => Some(Hashes(hash, p))
  }

  ghost function Child(m: map<EdgeKey, nat>, p: nat, x: nat): (r: Option<nat>) {
    if EdgeKey(p, x) in m then Some(m[EdgeKey(p, x)]) else None
  }

  /** The edges are exactly the parent-child pairs of the tree of paths. */
  ghost predicate Linked(m: map<EdgeKey, nat>, paths: seq<seq<nat>>) {
    && Tree(paths)
    && (forall k :: k in m ==> k.parent < |paths| && k.hash != 0)
    && (forall p: nat, x: nat :: p < |paths| && x != 0 ==> Child(m, p, x) == Find(paths, paths[p] + [x]))
    && (forall i :: 0 <= i < |paths| ==> 0 !in paths[i])
  }

  /** Every node carries the verdicts of the rules for its path. */
  ghost predicate Labelled(nodes: seq<Node>, paths: seq<seq<nat>>, rules: seq<Rule<nat>>) {
    && |nodes| == |paths|
    && forall i :: 0 <= i < |nodes| ==>
         nodes[i] == Node(Verdict(rules, paths[i], true), Verdict(rules, paths[i], false))
  }

  lemma LinkChild(m: map<EdgeKey, nat>, paths: seq<seq<nat>>, p: nat, x: nat)
    requires Linked(m, paths) && p < |paths| && x != 0 && EdgeKey(p, x) !in m
    ensures paths[p] + [x] !in paths
    ensures Linked(m[EdgeKey(p, x) := |paths|], paths + [paths[p] + [x]])
  {
    hide Tree, Find;
    var q := paths[p] + [x];
    assert Child(m, p, x) == Find(paths, q);
    AddNode(paths, p, x);
    var m', paths' := m[EdgeKey(p, x) := |paths|], paths + [q];
    forall r: nat, y: nat | r < |paths'| && y != 0
      ensures Child(m', r, y) == Find(paths', paths'[r] + [y])
    {
      if r == |paths| {
        assert EdgeKey(r, y) !in m;
        assert q + [y] !in paths';
      } else {
        assert paths'[r] == paths[r];
        assert Child(m, r, y) == Find(paths, paths[r] + [y]);
        if paths[r] + [y] == q {
          SameChild(paths, r, y, p, x);
        }
      }
    }
  }

  lemma LinkedIsTree(m: map<EdgeKey, nat>, paths: seq<seq<nat>>)
    requires Linked(m, paths)
    ensures Tree(paths)
  {
  }

  /** A node for a path without rules starts out with the right verdicts. */
  lemma LabelFresh(nodes: seq<Node>, paths: seq<seq<nat>>, rules: seq<Rule<nat>>, q: seq<nat>)
    requires Labelled(nodes, paths, rules) && Covers(paths, RulePaths(rules)) && q !in paths
    ensures Labelled(nodes + [FRESH_NODE], paths + [q], rules)
  {
    assert forall i :: 0 <= i < |rules| ==> RulePaths(rules)[i] in paths;
    NoRuleNoClaim(rules, q, true);
    NoRuleNoClaim(rules, q, false);
  }

  lemma CoversMore(paths: seq<seq<nat>>, keys: seq<seq<nat>>, q: seq<nat>)
    requires Covers(paths, keys)
    ensures Covers(paths + [q], keys)
  {
    forall i | 0 <= i < |keys| ensures keys[i] in paths + [q] {
      assert keys[i] in paths;
    }
  }

  function ClaimNode(n: Node, exact: bool, c: Claim): (r: Node) {
    if exact then n.(exact := Challenge(n.exact, c)) else n.(suffix := Challenge(n.suffix, c))
  }

  /** Challenging one node accounts for one more rule. */
  lemma LabelRule(nodes: seq<Node>, paths: seq<seq<nat>>, rules: seq<Rule<nat>>, i: nat, r: Rule<nat>)
    requires Labelled(nodes, paths, rules) && Tree(paths)
    requires i < |paths| && paths[i] == r.path
    ensures Labelled(nodes[i := ClaimNode(nodes[i], r.exact, r.claim)], paths, rules + [r])
  {
    hide Verdict;
    forall j | 0 <= j < |paths|
      ensures Verdict(rules + [r], paths[j], true) ==
              if j == i && r.exact then Challenge(nodes[j].exact, r.claim) else nodes[j].exact
      ensures Verdict(rules + [r], paths[j], false) ==
              if j == i && !r.exact then Challenge(nodes[j].suffix, r.claim) else nodes[j].suffix
    {
      VerdictOneMore(rules, r, paths[j], true);
      VerdictOneMore(rules, r, paths[j], false);
    }
  }

  /** Below a missing child there are no rules. */
  lemma NothingDeeper(m: map<EdgeKey, nat>, paths: seq<seq<nat>>, rules: seq<Rule<nat>>,
                      path: seq<nat>, cur: nat, depth: nat)
    requires Linked(m, paths) && Covers(paths, RulePaths(rules))
    requires depth < |path| && path[depth] != 0 && cur < |paths| && paths[cur] == path[..depth]
    requires EdgeKey(cur, path[depth]) !in m
    ensures DeepestSuffix(rules, path, |path|) == DeepestSuffix(rules, path, depth)
    ensures Verdict(rules, path, true).app == NO_APP
  {
    hide Tree, Find, Verdict, Select, DeepestSuffix;
    assert Child(m, cur, path[depth]) == Find(paths, path[..depth] + [path[depth]]);
    assert path[..depth + 1] == path[..depth] + [path[depth]];
    forall k | depth < k <= |path|
      ensures Verdict(rules, path[..k], false) == UNCLAIMED
      ensures Verdict(rules, path[..k], true) == UNCLAIMED
    {
      NothingBelow(paths, rules, path, depth + 1, k);
    }
    assert path[..|path|] == path;
    SkipUnclaimed(rules, path, depth, |path|);
  }

  lemma NothingBelow(paths: seq<seq<nat>>, rules: seq<Rule<nat>>, path: seq<nat>, d: nat, k: nat)
    requires Tree(paths) && Covers(paths, RulePaths(rules))
    requires d <= k <= |path| && path[..d] !in paths
    ensures forall e :: Verdict(rules, path[..k], e) == UNCLAIMED
  {
    hide Tree, Verdict, Select;
    if path[..k] in paths {
      assert path[..k][..d] == path[..d];
      PrefixesPresent(paths, path[..k], d);
    }
    assert forall i :: 0 <= i < |rules| ==> RulePaths(rules)[i] in paths;
    NoRuleNoClaim(rules, path[..k], true);
    NoRuleNoClaim(rules, path[..k], false);
  }

  lemma NodeVerdict(nodes: seq<Node>, paths: seq<seq<nat>>, rules: seq<Rule<nat>>, i: nat)
    requires Labelled(nodes, paths, rules) && i < |paths|
    ensures |nodes| == |paths|
    ensures nodes[i] == Node(Verdict(rules, paths[i], true), Verdict(rules, paths[i], false))
  {
  }

  lemma ChildNode(m: map<EdgeKey, nat>, paths: seq<seq<nat>>, p: nat, x: nat)
    requires Linked(m, paths) && p < |paths| && x != 0 && EdgeKey(p, x) in m
    ensures m[EdgeKey(p, x)] < |paths| && paths[m[EdgeKey(p, x)]] == paths[p] + [x]
  {
    assert Child(m, p, x) == Find(paths, paths[p] + [x]);
  }

  lemma {:induction false} SkipUnclaimed(rules: seq<Rule<nat>>, path: seq<nat>, lo: nat, hi: nat)
    requires lo <= hi <= |path|
    requires forall k :: lo < k <= hi ==> Verdict(rules, path[..k], false) == UNCLAIMED
    ensures DeepestSuffix(rules, path, hi) == DeepestSuffix(rules, path, lo)
  {
    if lo < hi {
      SkipUnclaimed(rules, path, lo, hi - 1);
    }
  }

  lemma HashOfFolded(hash: Label -> nat, ls: seq<Label>, i: nat)
    requires i < |ls|
    ensures Hashes(hash, Reversed(ls))[i] == LabelHash(hash, ls[|ls| - 1 - i])
  {
    FoldTwice(ls[|ls| - 1 - i]);
  }

  class Trie {
    const hash: Label -> nat
    var table: EdgeTable
    var nodes: array<Node>
    var count: nat
    ghost var paths: seq<seq<nat>>
    ghost var rules: seq<Rule<nat>>

    ghost predicate Structure()
      reads this, table, table.edges, nodes
    {
      && table.Valid()
      && count == |paths| <= nodes.Length
      && 0 < count && paths[0] == []
      && Linked(table.contents, paths)
      && Labelled(nodes[..count], paths, rules)
      && Covers(paths, RulePaths(rules))
    }

    ghost predicate Valid()
      reads this, table, table.edges, nodes
    {
      Structure() && Spans(paths, RulePaths(rules))
    }

    constructor (hash: Label -> nat, home: EdgeKey -> nat, expected: nat)
      ensures Valid() && fresh(table) && fresh(table.edges) && fresh(nodes)
      ensures this.hash == hash && rules == []
    {
      this.hash := hash;
      assert IsPow2(1) && IsPow2(2) && IsPow2(4) && IsPow2(8) && IsPow2(16);
      var capacity := NextPow2(16, if expected == 0 then 1024 else expected * 4);
      table := new EdgeTable(home, capacity);
      nodes := new Node[1024](_ => FRESH_NODE);
      count := 1;
      paths := [[]];
      rules := [];
      new;
      assert nodes[..1] == [FRESH_NODE];
    }

    /** Appends a node, growing the array by doubling when it is full. */
    method NodeNew() returns (n: nat)
      requires count <= nodes.Length
      modifies this`nodes, this`count, nodes
      ensures n == old(count) && count == n + 1 && count <= nodes.Length
      ensures nodes == old(nodes) || fresh(nodes)
      ensures nodes[..count] == old(nodes[..count]) + [FRESH_NODE]
    {
      n := count;
      if n == nodes.Length {
        var from := nodes;
        var grown := new Node[if n > 0 then n * 2 else 1024](_ => FRESH_NODE);
        for i := 0 to n
          invariant forall j :: 0 <= j < i ==> grown[j] == from[j]
          modifies grown
        {
          grown[i] := from[i];
        }
        nodes := grown;
      }
      nodes[n] := FRESH_NODE;
      count := n + 1;
    }

    /** The node reached by one more label, created if it does not exist. */
    method Descend(cur: nat, h: nat) returns (nxt: nat)
      requires Structure() && cur < |paths| && h != 0
      modifies this`nodes, this`count, this`paths, nodes, table, table.edges
      ensures Structure()
      ensures nodes == old(nodes) || fresh(nodes)
      ensures table.edges == old(table.edges) || fresh(table.edges)
      ensures nxt < |paths| && paths[nxt] == old(paths[cur]) + [h]
      ensures paths == old(paths) || paths == old(paths) + [old(paths[cur]) + [h]]
    {
      hide Linked, Labelled, Covers, Tree, Verdict, EdgeTable.Valid;
      var found := table.EdgeFind(cur, h);
      match found
      case Some(c) =>
        ChildNode(table.contents, paths, cur, h);
        nxt := c;
      case None =>
        LinkChild(table.contents, paths, cur, h);
        LabelFresh(nodes[..count], paths, rules, paths[cur] + [h]);
        CoversMore(paths, RulePaths(rules), paths[cur] + [h]);
        nxt := NodeNew();
        var c := table.EdgeInsert(cur, h, nxt);
        paths := paths + [paths[cur] + [h]];
    }

    /** Walks from the top-level domain inward, creating the nodes that are missing. */
    method MakePath(labels: seq<Label>) returns (cur: nat)
      requires Structure()
      modifies this`nodes, this`count, this`paths, nodes, table, table.edges
      ensures Structure()
      ensures nodes == old(nodes) || fresh(nodes)
      ensures table.edges == old(table.edges) || fresh(table.edges)
      ensures cur < |paths| && paths[cur] == Hashes(hash, Reversed(labels))
      ensures Grown(old(paths), paths, paths[cur])
    {
      hide Linked, Labelled, Covers, Tree, Grown, EdgeTable.Valid;
      ghost var path := Hashes(hash, Reversed(labels));
      ghost var paths0 := paths;
      GrownNone(paths, path);
      cur := 0;
      var i := |labels|;
      while i > 0
        invariant 0 <= i <= |labels|
        invariant Structure()
        invariant nodes == old(nodes) || fresh(nodes)
        invariant table.edges == old(table.edges) || fresh(table.edges)
        invariant cur < |paths| && paths[cur] == path[..|labels| - i]
        invariant Grown(paths0, paths, path)
      {
        i := i - 1;
        ghost var d := |labels| - 1 - i;
        HashOfFolded(hash, labels, d);
        assert path[..d + 1] == path[..d] + [path[d]];
        GrownOneMore(paths0, paths, path, path[..d + 1]);
        cur := Descend(cur, LabelHash(hash, labels[i]));
      }
      assert path[..|labels|] == path;
    }

    /** Files a claim under a name. False is the C function's -1: the name is malformed. */
    method Insert(domain: Name, exact: bool, claim: Claim) returns (ok: bool)
      requires Valid()
      modifies this`nodes, this`count, this`paths, this`rules, nodes, table, table.edges
      ensures Valid()
      ensures nodes == old(nodes) || fresh(nodes)
      ensures table.edges == old(table.edges) || fresh(table.edges)
      ensures ok <==> HashedPath(hash, domain).Some?
      ensures rules == old(rules) +
        (if ok then [Rule(HashedPath(hash, domain).value, exact, claim)] else [])
    {
      hide SplitSpec, Linked, Labelled, Covers, Tree, Grown, Spans, EdgeTable.Valid;
      var labels := SplitLabels(domain, MAX_LABELS);
      if labels.None? || labels.value == [] {
        return false;
      }
      ghost var paths0 := paths;
      var cur := MakePath(labels.value);
      LinkedIsTree(table.contents, paths);
      SpansOneMore(paths0, paths, RulePaths(rules), paths[cur]);
      FileClaim(cur, exact, claim);
      return true;
    }

    /** Lets one more claim challenge what the node has. */
    method FileClaim(cur: nat, exact: bool, claim: Claim)
      requires Structure() && cur < |paths|
      requires Spans(paths, RulePaths(rules) + [paths[cur]])
      modifies this`rules, nodes
      ensures Valid() && rules == old(rules) + [Rule(paths[cur], exact, claim)]
    {
      hide Linked, Labelled, Covers, Tree;
      ghost var r := Rule(paths[cur], exact, claim);
      LinkedIsTree(table.contents, paths);
      LabelRule(nodes[..count], paths, rules, cur, r);
      assert RulePaths(rules + [r]) == RulePaths(rules) + [paths[cur]];
      ghost var was := nodes[..count];
      nodes[cur] := ClaimNode(nodes[cur], exact, claim);
      assert nodes[..count] == was[cur := ClaimNode(was[cur], exact, claim)];
      rules := rules + [r];
    }

    /** Walks the labels inward; an exact claim on the whole name wins at once. */
    method Walk(labels: seq<Label>) returns (hit: Option<Hit>)
      requires Valid() && labels != []
      ensures hit == Scan(rules, Hashes(hash, Reversed(labels)))
    {
      hide Linked, Labelled, Covers, Tree, Spans, Verdict, EdgeTable.Valid;
      ghost var path := Hashes(hash, Reversed(labels));
      var n := |labels|;
      var cur: nat, i := 0, n;
      var best: Option<Hit> := None;
      while i > 0
        invariant 0 <= i <= n
        invariant cur < |paths| && paths[cur] == path[..n - i]
        invariant best == DeepestSuffix(rules, path, n - i)
        invariant i == 0 ==> Verdict(rules, path, true).app == NO_APP
      {
        i := i - 1;
        var depth := n - i;
        HashOfFolded(hash, labels, depth - 1);
        assert path[..depth] == path[..depth - 1] + [path[depth - 1]];
        var nxt := table.EdgeFind(cur, LabelHash(hash, labels[i]));
        if nxt.None? {
          NothingDeeper(table.contents, paths, rules, path, cur, depth - 1);
          return best;
        }
        ChildNode(table.contents, paths, cur, path[depth - 1]);
        cur := nxt.value;
        NodeVerdict(nodes[..count], paths, rules, cur);
        var nd := nodes[cur];
        assert nd == nodes[..count][cur];
        if i == 0 {
          assert path[..depth] == path;
          if nd.exact.app != NO_APP {
            return Some(Hit(nd.exact, true, depth));
          }
        }
        if nd.suffix.app != NO_APP {
          best := Some(Hit(nd.suffix, false, depth));
        }
      }
      return best;
    }

    method Lookup(domain: Name) returns (hit: Option<Hit>)
      requires Valid()
      ensures hit == match HashedPath(hash, domain)
                     case None => None
                     case Some(p) => Scan(rules, p)
    {
      hide SplitSpec, Scan;
      var labels := SplitLabels(domain, MAX_LABELS);
      if labels.None? || labels.value == [] {
        return None;
      }
      hit := Walk(labels.value);
    }

    /** `ngfw_trie_node_count`: one node per distinct non-empty suffix of the names filed, and the root. */
    method NodeCount() returns (n: nat)
      requires Valid()
      ensures n == 1 + |Prefixes(RulePaths(rules))|
    {
      hide Linked, Labelled, Covers, Tree, Spans, Prefixes, EdgeTable.Valid;
      LinkedIsTree(table.contents, paths);
      TrieNodeCount(paths, rules);
      return count;
    }
  }

  /** One node per distinct non-empty suffix of the names filed, and the root. */
  lemma TrieNodeCount(paths: seq<seq<nat>>, rules: seq<Rule<nat>>)
    requires Tree(paths) && Spans(paths, RulePaths(rules))
    ensures |paths| == 1 + |Prefixes(RulePaths(rules))|
  {
    NodeCount(paths, RulePaths(rules));
  }
}
