/**
  Longest-prefix match over addresses (src/match/lpm.c): a binary trie, one node per
  address bit, nodes in a growing array and linked by index.
*/
module Lpm {
  import opened Wrappers
  import opened Bits
  import opened Claims
  import opened PrefixTree
  import opened TrieSpec
  import opened AddressBits

  datatype Node = Node(zero: Option<nat>, one: Option<nat>, claim: Claim, prefixLen: nat)
  {
    function Child(b: bit): (r: Option<nat>) {
      if b == 0 then zero else one
    }

    function SetChild(b: bit, n: nat): (r: Node) {
      if b == 0 then this.(zero := Some(n)) else this.(one := Some(n))
    }
  }

  const FRESH_NODE := Node(None, None, UNCLAIMED, 0)

  datatype LpmHit = LpmHit(claim: Claim, prefixLen: nat)

  /** The longest claimed prefix among the first `k` bits. */
  function LongestPrefix(rules: seq<Rule<bit>>, path: seq<bit>, k: nat): (r: Option<LpmHit>)
    requires k <= |path|
  {
    var c := Verdict(rules, path[..k], false);
    if c.app != NO_APP then Some(LpmHit(c, k))
    else if k == 0 then None
    else LongestPrefix(rules, path, k - 1)
  }

  /** The answer for an address, as a scan over the prefixes in order of insertion. */
  function LpmScan(rules: seq<Rule<bit>>, addr: seq<byte>, bits: nat): (r: Option<LpmHit>)
    requires bits <= 8 * |addr|
  {
    LongestPrefix(rules, AddrBits(addr, bits), bits)
  }

  /** Prefix rule `i` covers the address. */
  ghost predicate CoversAddr(rules: seq<Rule<bit>>, i: nat, path: seq<bit>) {
    i < |rules| && rules[i].path <= path
  }

  ghost predicate Uncovered(rules: seq<Rule<bit>>, path: seq<bit>) {
    forall j: nat :: !CoversAddr(rules, j, path)
  }

  /** Rule `w` is the longest prefix that covers the address, and its most confident owner. */
  ghost predicate OwnsAddr(rules: seq<Rule<bit>>, w: nat, path: seq<bit>) {
    && CoversAddr(rules, w, path) && Best(rules, w, rules[w].path, false)
    && forall j: nat :: CoversAddr(rules, j, path) ==> |rules[j].path| <= |rules[w].path|
  }

  ghost predicate OwnerNamed(rules: seq<Rule<bit>>, path: seq<bit>) {
    forall w: nat :: OwnsAddr(rules, w, path) ==> rules[w].claim.app != NO_APP
  }

  /**
    The scan answers with the longest prefix that covers the address, with its most
    confident owner (the earliest on ties), and misses exactly when no prefix covers it.
    All it takes is that this owner is not the reserved id.
  */
  lemma {:induction false} LongestPrefixIsLongest(rules: seq<Rule<bit>>, path: seq<bit>, k: nat)
    returns (i: nat)
    requires k <= |path| && OwnerNamed(rules, path[..k])
    requires forall j :: 0 <= j < |rules| ==> !rules[j].exact
    ensures LongestPrefix(rules, path, k).None? <==> Uncovered(rules, path[..k])
    ensures LongestPrefix(rules, path, k).Some? ==>
      var h := LongestPrefix(rules, path, k).value;
      && OwnsAddr(rules, i, path[..k]) && h.claim == rules[i].claim && h.prefixLen == |rules[i].path|
  {
    hide Verdict;
    i := VerdictIsBest(rules, path[..k], false);
    if forall j: nat :: !For(rules, j, path[..k], false) {
      NoRuleEndsHere(rules, path, k);
      if k > 0 {
        i := LongestPrefixIsLongest(rules, path, k - 1);
      }
    } else {
      assert CoversAddr(rules, i, path[..k]);
      assert OwnsAddr(rules, i, path[..k]);
    }
  }

  /** And it takes that much: the scan answers with the owner exactly if it is not the reserved id. */
  lemma OwnerAnswersIff(rules: seq<Rule<bit>>, path: seq<bit>, k: nat, w: nat)
    requires k <= |path| && OwnsAddr(rules, w, path[..k])
    requires forall j :: 0 <= j < |rules| ==> !rules[j].exact
    ensures LongestPrefix(rules, path, k) == Some(LpmHit(rules[w].claim, |rules[w].path|)) <==>
            rules[w].claim.app != NO_APP
  {
    hide LongestPrefix;
    LongestPrefixFromRules(rules, path, k);
    forall v: nat | OwnsAddr(rules, v, path[..k]) ensures v == w {
      assert rules[v].path == path[..k][..|rules[v].path|];
      assert rules[w].path == path[..k][..|rules[w].path|];
      BestIsUnique(rules, v, w, rules[w].path, false);
    }
    if rules[w].claim.app != NO_APP {
      var i := LongestPrefixIsLongest(rules, path, k);
      assert CoversAddr(rules, w, path[..k]);
    }
  }

  /** With no rule for the first `k` bits themselves, what covers them covers one bit less. */
  lemma NoRuleEndsHere(rules: seq<Rule<bit>>, path: seq<bit>, k: nat)
    requires k <= |path|
    requires forall j: nat :: !For(rules, j, path[..k], false)
    requires forall j :: 0 <= j < |rules| ==> !rules[j].exact
    ensures k == 0 ==> Uncovered(rules, path[..k])
    ensures k > 0 ==> forall j: nat :: CoversAddr(rules, j, path[..k]) == CoversAddr(rules, j, path[..k][..k - 1])
    ensures k > 0 ==> path[..k][..k - 1] == path[..k - 1]
    ensures k > 0 ==> (Uncovered(rules, path[..k]) <==> Uncovered(rules, path[..k - 1]))
  {
    var here := path[..k];
    forall j: nat | j < |rules| ensures rules[j].path != here {
      assert !For(rules, j, here, false);
    }
    if k > 0 {
      var up := path[..k - 1];
      assert here[..k - 1] == up;
      assert forall j: nat :: CoversAddr(rules, j, here) == CoversAddr(rules, j, up);
    }
  }

  lemma {:induction false} LongestPrefixFromRules(rules: seq<Rule<bit>>, path: seq<bit>, k: nat)
    requires k <= |path|
    ensures var r := LongestPrefix(rules, path, k);
      r.Some? ==> r.value.claim.app != NO_APP && ClaimedByRule(rules, r.value.claim)
  {
    VerdictFromRules(rules, path[..k], false);
    if k > 0 {
      LongestPrefixFromRules(rules, path, k - 1);
    }
  }

  // ------------------------------------------------------------- representation

  ghost predicate Linked(nodes: seq<Node>, paths: seq<seq<bit>>) {
    && Tree(paths) && |nodes| == |paths|
    && forall p: nat, b: bit :: p < |paths| ==> nodes[p].Child(b) == Find(paths, paths[p] + [b])
  }

  ghost predicate NodeOf(n: Node, path: seq<bit>, rules: seq<Rule<bit>>) {
    n.claim == Verdict(rules, path, false) && (n.claim.app != NO_APP ==> n.prefixLen == |path|)
  }

  ghost predicate Labelled(nodes: seq<Node>, paths: seq<seq<bit>>, rules: seq<Rule<bit>>) {
    |nodes| == |paths| && forall i :: 0 <= i < |nodes| ==> NodeOf(nodes[i], paths[i], rules)
  }

  lemma LinkChild(nodes: seq<Node>, paths: seq<seq<bit>>, p: nat, b: bit)
    requires Linked(nodes, paths) && p < |paths| && nodes[p].Child(b).None?
    ensures paths[p] + [b] !in paths
    ensures Linked(nodes[p := nodes[p].SetChild(b, |nodes|)] + [FRESH_NODE], paths + [paths[p] + [b]])
  {
    hide Tree, Find;
    var q := paths[p] + [b];
    assert nodes[p].Child(b) == Find(paths, q);
    AddNode(paths, p, b);
    var nodes', paths' := nodes[p := nodes[p].SetChild(b, |nodes|)] + [FRESH_NODE], paths + [q];
    assert nodes'[|nodes|] == FRESH_NODE;
    assert forall y: bit :: nodes'[p].Child(y) == if y == b then Some(|nodes|) else nodes[p].Child(y);
    forall r: nat, y: bit | r < |paths'|
      ensures nodes'[r].Child(y) == Find(paths', paths'[r] + [y])
    {
      if r == |paths| {
        assert q + [y] !in paths';
      } else {
        assert paths'[r] == paths[r];
        assert nodes[r].Child(y) == Find(paths, paths[r] + [y]);
        if paths[r] + [y] == q {
          SameChild(paths, r, y, p, b);
        }
      }
    }
  }

  lemma ChildNode(nodes: seq<Node>, paths: seq<seq<bit>>, p: nat, b: bit)
    requires Linked(nodes, paths) && p < |paths|
    ensures nodes[p].Child(b).Some? ==>
      nodes[p].Child(b).value < |paths| && paths[nodes[p].Child(b).value] == paths[p] + [b]
    ensures nodes[p].Child(b).None? ==> paths[p] + [b] !in paths
  {
    assert nodes[p].Child(b) == Find(paths, paths[p] + [b]);
  }

  lemma LinkedIsTree(nodes: seq<Node>, paths: seq<seq<bit>>)
    requires Linked(nodes, paths)
    ensures Tree(paths)
  {
  }

  lemma RelinkClaim(nodes: seq<Node>, paths: seq<seq<bit>>, i: nat, n: Node)
    requires Linked(nodes, paths) && i < |nodes| && n.zero == nodes[i].zero && n.one == nodes[i].one
    ensures Linked(nodes[i := n], paths)
  {
  }

  lemma LabelFresh(nodes: seq<Node>, paths: seq<seq<bit>>, rules: seq<Rule<bit>>, p: nat, b: bit, q: seq<bit>)
    requires Labelled(nodes, paths, rules) && Covers(paths, RulePaths(rules)) && q !in paths
    requires p < |nodes|
    ensures Labelled(nodes[p := nodes[p].SetChild(b, |nodes|)] + [FRESH_NODE], paths + [q], rules)
    ensures Covers(paths + [q], RulePaths(rules))
  {
    assert forall i :: 0 <= i < |rules| ==> RulePaths(rules)[i] in paths;
    NoRuleNoClaim(rules, q, false);
    assert NodeOf(nodes[p], paths[p], rules);
    assert forall i :: 0 <= i < |rules| ==> RulePaths(rules)[i] in paths + [q];
  }

  function ClaimNode(n: Node, c: Claim, len: nat): (r: Node) {
    if n.claim.app == NO_APP || c.conf > n.claim.conf then n.(claim := c, prefixLen := len) else n
  }

  lemma LabelRule(nodes: seq<Node>, paths: seq<seq<bit>>, rules: seq<Rule<bit>>, i: nat, c: Claim)
    requires Labelled(nodes, paths, rules) && Tree(paths) && i < |paths|
    ensures Labelled(nodes[i := ClaimNode(nodes[i], c, |paths[i]|)], paths,
                     rules + [Rule(paths[i], false, c)])
  {
    hide Verdict;
    var r := Rule(paths[i], false, c);
    forall j | 0 <= j < |paths|
      ensures NodeOf(nodes[i := ClaimNode(nodes[i], c, |paths[i]|)][j], paths[j], rules + [r])
    {
      assert NodeOf(nodes[j], paths[j], rules);
      VerdictOneMore(rules, r, paths[j], false);
    }
  }

  lemma {:induction false} SkipUnclaimed(rules: seq<Rule<bit>>, path: seq<bit>, lo: nat, hi: nat)
    requires lo <= hi <= |path|
    requires forall k :: lo < k <= hi ==> Verdict(rules, path[..k], false) == UNCLAIMED
    ensures LongestPrefix(rules, path, hi) == LongestPrefix(rules, path, lo)
  {
    if lo < hi {
      SkipUnclaimed(rules, path, lo, hi - 1);
    }
  }

  /** Below a missing child there are no prefixes. */
  lemma NothingDeeper(paths: seq<seq<bit>>, rules: seq<Rule<bit>>, path: seq<bit>, d: nat)
    requires Tree(paths) && Covers(paths, RulePaths(rules))
    requires d < |path| && path[..d + 1] !in paths
    ensures LongestPrefix(rules, path, |path|) == LongestPrefix(rules, path, d)
  {
    hide Tree, Verdict, Select, LongestPrefix;
    forall k | d < k <= |path|
      ensures Verdict(rules, path[..k], false) == UNCLAIMED
    {
      if path[..k] in paths {
        assert path[..k][..d + 1] == path[..d + 1];
        PrefixesPresent(paths, path[..k], d + 1);
      }
      assert forall i :: 0 <= i < |rules| ==> RulePaths(rules)[i] in paths;
      NoRuleNoClaim(rules, path[..k], false);
    }
    SkipUnclaimed(rules, path, d, |path|);
  }

  class PrefixTable {
    const bits: nat
    var nodes: array<Node>
    var count: nat
    ghost var paths: seq<seq<bit>>
    ghost var rules: seq<Rule<bit>>

    ghost predicate Structure()
      reads this, nodes
    {
      && (bits == 32 || bits == 128)
      && count == |paths| <= nodes.Length
      && 0 < count && paths[0] == []
      && Linked(nodes[..count], paths)
      && Labelled(nodes[..count], paths, rules)
      && Covers(paths, RulePaths(rules))
    }

    ghost predicate Valid()
      reads this, nodes
    {
      Structure() && Spans(paths, RulePaths(rules))
    }

    constructor (bits: nat, expected: nat)
      requires bits == 32 || bits == 128
      ensures Valid() && fresh(nodes)
      ensures this.bits == bits && rules == []
    {
      this.bits := bits;
      nodes := new Node[if expected > 0 then expected * 4 else 4096](_ => FRESH_NODE);
      count := 1;
      paths := [[]];
      rules := [];
      new;
      assert nodes[..1] == [FRESH_NODE];
    }

    method NodeNew() returns (n: nat)
      requires count <= nodes.Length
      modifies this`nodes, this`count, nodes
      ensures n == old(count) && count == n + 1 && count <= nodes.Length
      ensures nodes == old(nodes) || fresh(nodes)
      ensures nodes[..count] == old(nodes[..count]) + [FRESH_NODE]
    {
      n := count;
      if n == nodes.Length {
        var from := nodes;
        var grown := new Node[if n > 0 then n * 2 else 4096](_ => FRESH_NODE);
        for i := 0 to n
          invariant forall j :: 0 <= j < i ==> grown[j] == from[j]
          modifies grown
        {
          grown[i] := from[i];
        }
        nodes := grown;
      }
      nodes[n] := FRESH_NODE;
      count := n + 1;
    }

    /** The node one more bit down, created if it does not exist. */
    method Descend(cur: nat, b: bit) returns (nxt: nat)
      requires Structure() && cur < |paths|
      modifies this`nodes, this`count, this`paths, nodes
      ensures Structure()
      ensures nodes == old(nodes) || fresh(nodes)
      ensures nxt < |paths| && paths[nxt] == old(paths[cur]) + [b]
      ensures paths == old(paths) || paths == old(paths) + [old(paths[cur]) + [b]]
    {
      hide Linked, Labelled, Covers, Tree, Verdict;
      ghost var was := nodes[..count];
      ChildNode(was, paths, cur, b);
      var child := nodes[cur].Child(b);
      match child
      case Some(c) =>
        nxt := c;
      case None =>
        LinkChild(was, paths, cur, b);
        LabelFresh(was, paths, rules, cur, b, paths[cur] + [b]);
        nxt := NodeNew();
        ghost var mid := nodes[..count];
        nodes[cur] := nodes[cur].SetChild(b, nxt);
        assert nodes[..count] == mid[cur := mid[cur].SetChild(b, nxt)];
        assert nodes[..count] == was[cur := was[cur].SetChild(b, |was|)] + [FRESH_NODE];
        paths := paths + [paths[cur] + [b]];
    }

    method MakePath(addr: seq<byte>, prefixLen: nat) returns (cur: nat)
      requires Structure() && prefixLen <= 8 * |addr|
      modifies this`nodes, this`count, this`paths, nodes
      ensures Structure()
      ensures nodes == old(nodes) || fresh(nodes)
      ensures cur < |paths| && paths[cur] == AddrBits(addr, prefixLen)
      ensures Grown(old(paths), paths, paths[cur])
    {
      hide Linked, Labelled, Covers, Tree, Grown;
      ghost var path := AddrBits(addr, prefixLen);
      ghost var paths0 := paths;
      GrownNone(paths, path);
      cur := 0;
      for i := 0 to prefixLen
        invariant Structure()
        invariant nodes == old(nodes) || fresh(nodes)
        invariant cur < |paths| && paths[cur] == path[..i]
        invariant Grown(paths0, paths, path)
      {
        assert path[..i + 1] == path[..i] + [path[i]];
        GrownOneMore(paths0, paths, path, path[..i + 1]);
        cur := Descend(cur, BitAt(addr, i));
      }
      assert path[..prefixLen] == path;
    }

    /** Adds a prefix; refuses one longer than an address. */
    method Insert(addr: seq<byte>, prefixLen: nat, claim: Claim) returns (ok: bool)
      requires Valid() && bits <= 8 * |addr|
      modifies this`nodes, this`count, this`paths, this`rules, nodes
      ensures Valid()
      ensures nodes == old(nodes) || fresh(nodes)
      ensures ok <==> prefixLen <= bits
      ensures rules == old(rules) +
        (if ok then [Rule(AddrBits(addr, prefixLen), false, claim)] else [])
    {
      hide Linked, Labelled, Covers, Tree, Grown, Spans;
      if prefixLen > bits {
        return false;
      }
      ghost var paths0 := paths;
      var cur := MakePath(addr, prefixLen);
      ghost var was := nodes[..count];
      LinkedIsTree(was, paths);
      SpansOneMore(paths0, paths, RulePaths(rules), paths[cur]);
      ghost var r := Rule(paths[cur], false, claim);
      LabelRule(was, paths, rules, cur, claim);
      assert RulePaths(rules + [r]) == RulePaths(rules) + [paths[cur]];
      var n := ClaimNode(nodes[cur], claim, prefixLen);
      RelinkClaim(was, paths, cur, n);
      nodes[cur] := n;
      assert nodes[..count] == was[cur := n];
      rules := rules + [r];
      SpansCovers(paths, RulePaths(rules));
      return true;
    }

    /** Follows the address bit by bit; the deepest claimed node wins. */
    method Lookup(addr: seq<byte>) returns (hit: Option<LpmHit>)
      requires Valid() && bits <= 8 * |addr|
      ensures hit == LpmScan(rules, addr, bits)
    {
      hide Linked, Labelled, Covers, Tree, Spans, Verdict;
      ghost var path := AddrBits(addr, bits);
      ghost var ns := nodes[..count];
      var cur: nat, i := 0, 0;
      NodeVerdict(ns, paths, rules, 0);
      var best := if nodes[0].claim.app != NO_APP
                  then Some(LpmHit(nodes[0].claim, nodes[0].prefixLen)) else None;
      while i < bits
        invariant 0 <= i <= bits
        invariant cur < |paths| && paths[cur] == path[..i]
        invariant best == LongestPrefix(rules, path, i)
      {
        ChildNode(ns, paths, cur, BitAt(addr, i));
        assert path[..i + 1] == path[..i] + [path[i]];
        var nxt := nodes[cur].Child(BitAt(addr, i));
        if nxt.None? {
          LinkedIsTree(ns, paths);
          NothingDeeper(paths, rules, path, i);
          return best;
        }
        cur := nxt.value;
        NodeVerdict(ns, paths, rules, cur);
        assert nodes[cur] == ns[cur];
        if nodes[cur].claim.app != NO_APP {
          best := Some(LpmHit(nodes[cur].claim, nodes[cur].prefixLen));
        }
        i := i + 1;
      }
      return best;
    }

    /** `ngfw_lpm_node_count`. */
    method NodeCount() returns (n: nat)
      requires Valid()
      ensures n == 1 + |Prefixes(RulePaths(rules))|
    {
      hide Linked, Labelled, Covers, Tree, Spans, Prefixes;
      LinkedIsTree(nodes[..count], paths);
      LpmNodeCount(paths, rules);
      return count;
    }
  }

  lemma NodeVerdict(nodes: seq<Node>, paths: seq<seq<bit>>, rules: seq<Rule<bit>>, i: nat)
    requires Labelled(nodes, paths, rules) && i < |paths|
    ensures |nodes| == |paths| && nodes[i].claim == Verdict(rules, paths[i], false)
    ensures nodes[i].claim.app != NO_APP ==> nodes[i].prefixLen == |paths[i]|
  {
    assert NodeOf(nodes[i], paths[i], rules);
  }

  lemma SpansCovers(paths: seq<seq<bit>>, keys: seq<seq<bit>>)
    requires Spans(paths, keys)
    ensures Covers(paths, keys)
  {
  }

  /** One node per distinct non-empty bit prefix of the inserted prefixes, and the root. */
  lemma LpmNodeCount(paths: seq<seq<bit>>, rules: seq<Rule<bit>>)
    requires Tree(paths) && Spans(paths, RulePaths(rules))
    ensures |paths| == 1 + |Prefixes(RulePaths(rules))|
  {
    NodeCount(paths, RulePaths(rules));
  }
}
