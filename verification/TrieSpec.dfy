/**
  What the domain trie (src/match/domain_trie.c) must answer, as a scan over the list of
  rules in order of insertion. Rules are keyed by a path of labels from the top-level
  domain inward; the element type is left open, because the trie itself only ever sees
  label hashes.
*/
module TrieSpec {
  import opened Wrappers
  import opened Claims

  datatype Rule<T> = Rule(path: seq<T>, exact: bool, claim: Claim)

  datatype Hit = Hit(claim: Claim, matchedExact: bool, labelsMatched: nat)

  ghost function RulePaths<T>(rules: seq<Rule<T>>): (ps: seq<seq<T>>)
    ensures |ps| == |rules| && forall i :: 0 <= i < |rules| ==> ps[i] == rules[i].path
  {
    seq(|rules|, i requires 0 <= i < |rules| => rules[i].path)
  }

  /** The claims made by rules of one kind for exactly this path, in order. */
  function Select<T(==)>(rules: seq<Rule<T>>, path: seq<T>, exact: bool): (r: seq<Claim>) {
    if |rules| == 0 then []
    else
      var rest := Select(rules[..|rules| - 1], path, exact);
      var r := rules[|rules| - 1];
      if r.path == path && r.exact == exact then rest + [r.claim] else rest
  }

  function Verdict<T(==)>(rules: seq<Rule<T>>, path: seq<T>, exact: bool): (r: Claim) {
    Settle(Select(rules, path, exact))
  }

  /** The deepest claimed suffix among the first `k` labels of the path. */
  function DeepestSuffix<T(==)>(rules: seq<Rule<T>>, path: seq<T>, k: nat): (r: Option<Hit>)
    requires k <= |path|
  {
    if k == 0 then None
    else
      var c := Verdict(rules, path[..k], false);
      if c.app != NO_APP then Some(Hit(c, false, k)) else DeepestSuffix(rules, path, k - 1)
  }

  function Scan<T(==)>(rules: seq<Rule<T>>, path: seq<T>): (r: Option<Hit>) {
    var c := Verdict(rules, path, true);
    if path == [] then None
    else if c.app != NO_APP then Some(Hit(c, true, |path|))
    else DeepestSuffix(rules, path, |path|)
  }

  lemma SelectOneMore<T>(rules: seq<Rule<T>>, r: Rule<T>, path: seq<T>, exact: bool)
    ensures Select(rules + [r], path, exact) ==
            Select(rules, path, exact) + (if r.path == path && r.exact == exact then [r.claim] else [])
  {
    assert (rules + [r])[..|rules|] == rules;
  }

  /** How one more rule changes the verdict on a path. */
  lemma VerdictOneMore<T>(rules: seq<Rule<T>>, r: Rule<T>, path: seq<T>, exact: bool)
    ensures Verdict(rules + [r], path, exact) ==
            if r.path == path && r.exact == exact
            then Challenge(Verdict(rules, path, exact), r.claim)
            else Verdict(rules, path, exact)
  {
    SelectOneMore(rules, r, path, exact);
    SettleOneMore(Select(rules, path, exact), r.claim);
  }

  lemma {:induction false} NoRuleNoClaim<T>(rules: seq<Rule<T>>, path: seq<T>, exact: bool)
    requires forall i :: 0 <= i < |rules| ==> rules[i].path != path
    ensures Select(rules, path, exact) == [] && Verdict(rules, path, exact) == UNCLAIMED
  {
    if |rules| > 0 {
      NoRuleNoClaim(rules[..|rules| - 1], path, exact);
    }
  }

  // ------------------------------------------------- what the scan answers

  /** Rule `i` is for this path and of this kind. */
  ghost predicate For<T>(rules: seq<Rule<T>>, i: nat, path: seq<T>, exact: bool) {
    i < |rules| && rules[i].path == path && rules[i].exact == exact
  }

  /** Among the rules of its kind for its path, rule `i` is the most confident; earliest on ties. */
  ghost predicate Best<T>(rules: seq<Rule<T>>, i: nat, path: seq<T>, exact: bool) {
    && For(rules, i, path, exact)
    && (forall j: nat :: For(rules, j, path, exact) ==> rules[j].claim.conf <= rules[i].claim.conf)
    && (forall j: nat :: j < i && For(rules, j, path, exact) ==> rules[j].claim.conf < rules[i].claim.conf)
  }

  /** The claims selected for a path come from these rules, in order, and from no others. */
  ghost predicate Positions<T>(rules: seq<Rule<T>>, path: seq<T>, exact: bool, pos: seq<nat>) {
    && PointAt(rules, path, exact, pos, Select(rules, path, exact))
    && (forall a, b :: 0 <= a < b < |pos| ==> pos[a] < pos[b])
    && (forall j: nat :: For(rules, j, path, exact) ==> j in pos)
  }

  ghost predicate PointAt<T>(rules: seq<Rule<T>>, path: seq<T>, exact: bool, pos: seq<nat>, cs: seq<Claim>) {
    |pos| == |cs| &&
    forall a :: 0 <= a < |pos| ==> For(rules, pos[a], path, exact) && rules[pos[a]].claim == cs[a]
  }

  lemma {:induction false} SelectPositions<T>(rules: seq<Rule<T>>, path: seq<T>, exact: bool) returns (pos: seq<nat>)
    ensures Positions(rules, path, exact, pos)
  {
    if |rules| == 0 {
      pos := [];
    } else {
      pos := SelectPositions(rules[..|rules| - 1], path, exact);
      SelectLast(rules, path, exact);
      pos := OneMorePosition(rules, path, exact, pos);
    }
  }

  lemma OneMorePosition<T>(rules: seq<Rule<T>>, path: seq<T>, exact: bool, front: seq<nat>) returns (pos: seq<nat>)
    requires rules != [] && Positions(rules[..|rules| - 1], path, exact, front)
    requires var n := |rules| - 1;
      Select(rules, path, exact) ==
      Select(rules[..n], path, exact) + (if For(rules, n, path, exact) then [rules[n].claim] else [])
    ensures Positions(rules, path, exact, pos)
  {
    var n, cs := |rules| - 1, Select(rules[..|rules| - 1], path, exact);
    hide Select;
    PointsStay(rules, path, exact, front, cs);
    pos := front;
    if For(rules, n, path, exact) {
      pos := front + [n];
      PointsMore(rules, path, exact, front, cs);
    } else {
      assert cs + [] == cs;
    }
    hide PointAt;
    forall j: nat | For(rules, j, path, exact) ensures j in pos {
      if j < n {
        assert For(rules[..n], j, path, exact) && j in front;
      }
    }
  }

  lemma PointsStay<T>(rules: seq<Rule<T>>, path: seq<T>, exact: bool, front: seq<nat>, cs: seq<Claim>)
    requires rules != [] && PointAt(rules[..|rules| - 1], path, exact, front, cs)
    ensures PointAt(rules, path, exact, front, cs)
    ensures forall a :: 0 <= a < |front| ==> front[a] < |rules| - 1
  {
    forall a | 0 <= a < |front|
      ensures For(rules, front[a], path, exact) && rules[front[a]].claim == cs[a] && front[a] < |rules| - 1
    {
      assert For(rules[..|rules| - 1], front[a], path, exact);
    }
  }

  lemma PointsMore<T>(rules: seq<Rule<T>>, path: seq<T>, exact: bool, front: seq<nat>, cs: seq<Claim>)
    requires rules != [] && PointAt(rules, path, exact, front, cs) && For(rules, |rules| - 1, path, exact)
    ensures PointAt(rules, path, exact, front + [|rules| - 1], cs + [rules[|rules| - 1].claim])
  {
    hide For;
  }

  lemma SelectLast<T>(rules: seq<Rule<T>>, path: seq<T>, exact: bool)
    requires rules != []
    ensures var n := |rules| - 1;
      Select(rules, path, exact) ==
      Select(rules[..n], path, exact) + (if For(rules, n, path, exact) then [rules[n].claim] else [])
  {
    assert Select(rules[..|rules| - 1], path, exact) + [] == Select(rules[..|rules| - 1], path, exact);
  }

  /**
    What is stored for a path: nothing if there is no rule for it, and otherwise the best
    rule's claim, exactly if that is not for the reserved app id.
  */
  lemma VerdictIsBest<T>(rules: seq<Rule<T>>, path: seq<T>, exact: bool) returns (i: nat)
    ensures (forall j: nat :: !For(rules, j, path, exact)) ==> Verdict(rules, path, exact) == UNCLAIMED
    ensures !(forall j: nat :: !For(rules, j, path, exact)) ==>
      && Best(rules, i, path, exact)
      && (Verdict(rules, path, exact) == rules[i].claim && Verdict(rules, path, exact).app != NO_APP <==>
          rules[i].claim.app != NO_APP)
  {
    hide Select, Best, Positions, Settle;
    var pos := SelectPositions(rules, path, exact);
    var cs := Select(rules, path, exact);
    i := 0;
    if cs == [] {
      NothingSelected(rules, path, exact, pos);
    } else {
      var k := StrongestExists(cs);
      SettleIsStrongestIff(cs, k);
      i := BestAt(rules, path, exact, pos, k);
    }
  }

  lemma NothingSelected<T>(rules: seq<Rule<T>>, path: seq<T>, exact: bool, pos: seq<nat>)
    requires Positions(rules, path, exact, pos) && Select(rules, path, exact) == []
    ensures (forall j: nat :: !For(rules, j, path, exact)) && Verdict(rules, path, exact) == UNCLAIMED
  {
    hide Select;
  }

  lemma BestAt<T>(rules: seq<Rule<T>>, path: seq<T>, exact: bool, pos: seq<nat>, k: nat) returns (i: nat)
    requires Positions(rules, path, exact, pos) && Strongest(Select(rules, path, exact), k)
    ensures Best(rules, i, path, exact) && For(rules, i, path, exact)
    ensures rules[i].claim == Select(rules, path, exact)[k]
  {
    hide Select;
    var cs := Select(rules, path, exact);
    i := pos[k];
    assert For(rules, i, path, exact);
    forall j: nat | For(rules, j, path, exact)
      ensures rules[j].claim.conf <= rules[i].claim.conf && (j < i ==> rules[j].claim.conf < rules[i].claim.conf)
    {
      var a :| 0 <= a < |pos| && pos[a] == j;
      assert cs[a] == rules[j].claim;
    }
  }

  /** No suffix rule covers more than `k` and at most `n` labels of the path. */
  ghost predicate NoSuffixAbove<T>(rules: seq<Rule<T>>, path: seq<T>, k: nat, n: nat)
    requires n <= |path|
  {
    forall j: nat, m: nat :: k < m <= n ==> !For(rules, j, path[..m], false)
  }

  /** The best rule of the deepest suffix among the first `n` labels is not for the reserved id. */
  ghost predicate DeepestNamed<T>(rules: seq<Rule<T>>, path: seq<T>, n: nat)
    requires n <= |path|
  {
    forall w: nat, m: nat :: 1 <= m <= n && Best(rules, w, path[..m], false) && NoSuffixAbove(rules, path, m, n) ==>
      rules[w].claim.app != NO_APP
  }

  lemma {:induction false} DeepestSuffixIsDeepest<T>(rules: seq<Rule<T>>, path: seq<T>, n: nat)
    returns (i: nat)
    requires n <= |path| && DeepestNamed(rules, path, n)
    ensures DeepestSuffix(rules, path, n).None? <==> NoSuffixAbove(rules, path, 0, n)
    ensures DeepestSuffix(rules, path, n).Some? ==>
      var h := DeepestSuffix(rules, path, n).value;
      && 1 <= h.labelsMatched <= n && !h.matchedExact
      && Best(rules, i, path[..h.labelsMatched], false) && rules[i].claim == h.claim
      && NoSuffixAbove(rules, path, h.labelsMatched, n)
  {
    hide Verdict, Best;
    i := 0;
    if n > 0 {
      i := VerdictIsBest(rules, path[..n], false);
      if forall j: nat :: !For(rules, j, path[..n], false) {
        OneLess(rules, path, n);
        i := DeepestSuffixIsDeepest(rules, path, n - 1);
      } else {
        assert NoSuffixAbove(rules, path, n, n);
      }
    }
  }

  /** Without a rule at depth `n`, nothing is different one label up. */
  lemma OneLess<T>(rules: seq<Rule<T>>, path: seq<T>, n: nat)
    requires 0 < n <= |path| && forall j: nat :: !For(rules, j, path[..n], false)
    ensures forall m: nat :: m < n ==> (NoSuffixAbove(rules, path, m, n) <==> NoSuffixAbove(rules, path, m, n - 1))
    ensures DeepestNamed(rules, path, n) ==> DeepestNamed(rules, path, n - 1)
  {
  }

  /**
    The answer, stated without any recursion. An exact rule for the whole path wins;
    otherwise the deepest suffix rule wins; within one path and kind the most confident
    rule wins, the earliest on ties. There is no answer exactly when no rule applies.
  */
  ghost predicate IsAnswer<T>(rules: seq<Rule<T>>, path: seq<T>, answer: Option<Hit>, i: nat) {
    match answer
    case None =>
      path == [] ||
      ((forall j: nat :: !For(rules, j, path, true)) && NoSuffixAbove(rules, path, 0, |path|))
    case Some(h) =>
      && 1 <= h.labelsMatched <= |path| && i < |rules| && h.claim == rules[i].claim
      && if h.matchedExact then
           h.labelsMatched == |path| && Best(rules, i, path, true)
         else
           && (forall j: nat :: !For(rules, j, path, true))
           && Best(rules, i, path[..h.labelsMatched], false)
           && NoSuffixAbove(rules, path, h.labelsMatched, |path|)
  }

  /** Rule `w` is the one that ought to answer for the path. */
  ghost predicate Wins<T>(rules: seq<Rule<T>>, path: seq<T>, w: nat) {
    && path != [] && w < |rules|
    && if rules[w].exact then Best(rules, w, path, true)
       else
         && (forall j: nat :: !For(rules, j, path, true))
         && rules[w].path != [] && rules[w].path <= path
         && Best(rules, w, rules[w].path, false)
         && NoSuffixAbove(rules, path, |rules[w].path|, |path|)
  }

  ghost predicate WinnerNamed<T>(rules: seq<Rule<T>>, path: seq<T>) {
    forall w: nat :: Wins(rules, path, w) ==> rules[w].claim.app != NO_APP
  }

  lemma ScanIsAnswer<T>(rules: seq<Rule<T>>, path: seq<T>) returns (i: nat)
    requires WinnerNamed(rules, path)
    ensures IsAnswer(rules, path, Scan(rules, path), i)
  {
    i := 0;
    if path != [] {
      i := VerdictIsBest(rules, path, true);
      if forall j: nat :: !For(rules, j, path, true) {
        SuffixWinner(rules, path);
        i := DeepestSuffixIsDeepest(rules, path, |path|);
      } else {
        assert Wins(rules, path, i);
      }
    }
  }

  lemma SuffixWinner<T>(rules: seq<Rule<T>>, path: seq<T>)
    requires path != [] && WinnerNamed(rules, path) && forall j: nat :: !For(rules, j, path, true)
    ensures DeepestNamed(rules, path, |path|)
  {
    forall w: nat, m: nat | 1 <= m <= |path| && Best(rules, w, path[..m], false) &&
                             NoSuffixAbove(rules, path, m, |path|)
      ensures rules[w].claim.app != NO_APP
    {
      assert rules[w].path == path[..m];
      assert Wins(rules, path, w);
    }
  }

  /**
    The scan gives the answer described above exactly if the rule that ought to answer is
    not for the reserved app id; what the other rules are for does not matter.
  */
  lemma ScanIsAnswerIff<T>(rules: seq<Rule<T>>, path: seq<T>)
    ensures (exists i: nat :: IsAnswer(rules, path, Scan(rules, path), i)) <==> WinnerNamed(rules, path)
  {
    if WinnerNamed(rules, path) {
      var i := ScanIsAnswer(rules, path);
    } else {
      var w: nat :| Wins(rules, path, w) && rules[w].claim.app == NO_APP;
      ScanFromRules(rules, path);
      forall i: nat ensures !IsAnswer(rules, path, Scan(rules, path), i) {
        if IsAnswer(rules, path, Scan(rules, path), i) {
          WinnerAnswers(rules, path, Scan(rules, path), i, w);
        }
      }
    }
  }

  /** If there is an answer, it is the winner's claim. */
  lemma WinnerAnswers<T>(rules: seq<Rule<T>>, path: seq<T>, answer: Option<Hit>, i: nat, w: nat)
    requires Wins(rules, path, w) && IsAnswer(rules, path, answer, i)
    ensures answer.Some? && answer.value.claim == rules[w].claim
  {
    var h := Hit(rules[w].claim, rules[w].exact, |rules[w].path|);
    assert path[..|rules[w].path|] == rules[w].path;
    assert IsAnswer(rules, path, Some(h), w);
    AnswerIsUnique(rules, path, answer, i, Some(h), w);
  }

  /** A rule for exactly this path makes the scan answer at full depth. */
  lemma FullDepth<T>(rules: seq<Rule<T>>, path: seq<T>, j: nat)
    requires WinnerNamed(rules, path) && path != [] && j < |rules| && rules[j].path == path
    ensures Scan(rules, path).Some?
    ensures var h := Scan(rules, path).value;
      && h.labelsMatched == |path| && h.claim.app != NO_APP
      && (rules[j].exact ==> h.matchedExact)
      && (h.matchedExact == rules[j].exact ==> h.claim.conf >= rules[j].claim.conf)
  {
    hide Scan;
    var i := ScanIsAnswer(rules, path);
    ScanFromRules(rules, path);
    assert path[..|path|] == path;
    assert For(rules, j, path, rules[j].exact);
  }

  /** A suffix rule for the path or for one it lies below makes the scan answer, at that depth or deeper. */
  lemma SuffixReaches<T>(rules: seq<Rule<T>>, path: seq<T>, j: nat)
    requires WinnerNamed(rules, path) && j < |rules| && !rules[j].exact
    requires rules[j].path != [] && rules[j].path <= path
    ensures Scan(rules, path).Some?
    ensures var h := Scan(rules, path).value;
      && |rules[j].path| <= h.labelsMatched <= |path| && h.claim.app != NO_APP
      && (h.labelsMatched == |rules[j].path| && !h.matchedExact ==> h.claim.conf >= rules[j].claim.conf)
  {
    hide Scan;
    var i := ScanIsAnswer(rules, path);
    ScanFromRules(rules, path);
    assert path[..|rules[j].path|] == rules[j].path;
    assert For(rules, j, path[..|rules[j].path|], false);
  }

  lemma BestIsUnique<T>(rules: seq<Rule<T>>, i: nat, j: nat, path: seq<T>, exact: bool)
    requires Best(rules, i, path, exact) && Best(rules, j, path, exact)
    ensures i == j
  {
    assert rules[i].claim.conf <= rules[j].claim.conf <= rules[i].claim.conf;
  }

  /** There is only one such answer, so a matcher that gives one agrees with the scan. */
  lemma AnswerIsUnique<T>(rules: seq<Rule<T>>, path: seq<T>, a: Option<Hit>, i: nat, b: Option<Hit>, j: nat)
    requires IsAnswer(rules, path, a, i) && IsAnswer(rules, path, b, j)
    ensures a == b
  {
    if path != [] && a.Some? && b.Some? {
      var x, y := a.value, b.value;
      if x.matchedExact && y.matchedExact {
        BestIsUnique(rules, i, j, path, true);
      } else if !x.matchedExact && !y.matchedExact {
        assert For(rules, i, path[..x.labelsMatched], false);
        assert For(rules, j, path[..y.labelsMatched], false);
        BestIsUnique(rules, i, j, path[..x.labelsMatched], false);
      }
    } else if path != [] && a.Some? {
      SomeRuleApplies(rules, path, a.value, i);
    } else if path != [] && b.Some? {
      SomeRuleApplies(rules, path, b.value, j);
    }
  }

  lemma SomeRuleApplies<T>(rules: seq<Rule<T>>, path: seq<T>, h: Hit, i: nat)
    requires path != [] && IsAnswer(rules, path, Some(h), i)
    ensures !((forall j: nat :: !For(rules, j, path, true)) && NoSuffixAbove(rules, path, 0, |path|))
  {
    if h.matchedExact {
      assert For(rules, i, path, true);
    } else {
      assert For(rules, i, path[..h.labelsMatched], false);
    }
  }

  ghost predicate ClaimedByRule<T>(rules: seq<Rule<T>>, c: Claim) {
    exists i :: 0 <= i < |rules| && rules[i].claim == c
  }

  /** A stored claim was made by a rule for this very path and of this kind. */
  lemma VerdictFromRules<T>(rules: seq<Rule<T>>, path: seq<T>, exact: bool)
    ensures Verdict(rules, path, exact).app != NO_APP ==>
      exists i: nat :: For(rules, i, path, exact) && rules[i].claim == Verdict(rules, path, exact)
  {
    var pos := SelectPositions(rules, path, exact);
    var cs := Select(rules, path, exact);
    SettleFromClaims(cs);
    hide Select;
    if Verdict(rules, path, exact).app != NO_APP {
      var a :| 0 <= a < |cs| && cs[a] == Verdict(rules, path, exact);
      assert For(rules, pos[a], path, exact);
    }
  }

  /** The rule that made a claim is for the matched part of the path, and of the kind that is reported. */
  ghost predicate Answers<T>(rules: seq<Rule<T>>, path: seq<T>, h: Hit) {
    && 1 <= h.labelsMatched <= |path| && (h.matchedExact ==> h.labelsMatched == |path|)
    && h.claim.app != NO_APP
    && exists i: nat :: For(rules, i, path[..h.labelsMatched], h.matchedExact) && rules[i].claim == h.claim
  }

  lemma {:induction false} DeepestSuffixFromRules<T>(rules: seq<Rule<T>>, path: seq<T>, k: nat)
    requires k <= |path|
    ensures DeepestSuffix(rules, path, k).Some? ==> Answers(rules, path, DeepestSuffix(rules, path, k).value)
  {
    if k > 0 {
      VerdictFromRules(rules, path[..k], false);
      hide Verdict;
      DeepestSuffixFromRules(rules, path, k - 1);
    }
  }

  /**
    Whatever the rules are: every answer is the claim of a rule that covers the path, for the
    number of labels reported and of the kind reported, and never the reserved id.
  */
  lemma ScanFromRules<T>(rules: seq<Rule<T>>, path: seq<T>)
    ensures Scan(rules, path).Some? ==>
      && Answers(rules, path, Scan(rules, path).value)
      && ClaimedByRule(rules, Scan(rules, path).value.claim)
  {
    VerdictFromRules(rules, path, true);
    DeepestSuffixFromRules(rules, path, |path|);
    hide Verdict;
    assert path[..|path|] == path;
    if Scan(rules, path).Some? {
      var h := Scan(rules, path).value;
      var i: nat :| For(rules, i, path[..h.labelsMatched], h.matchedExact) && rules[i].claim == h.claim;
    }
  }

  // ------------------------------------------------- renaming the labels

  function MapPath<S, T>(f: S -> T, p: seq<S>): (q: seq<T>)
    ensures |q| == |p| && forall i :: 0 <= i < |p| ==> q[i] == f(p[i])
  {
    seq(|p|, i requires 0 <= i < |p| => f(p[i]))
  }

  function MapRules<S, T>(f: S -> T, rules: seq<Rule<S>>): (rs: seq<Rule<T>>)
    ensures |rs| == |rules|
    ensures forall i :: 0 <= i < |rules| ==>
      rs[i] == Rule(MapPath(f, rules[i].path), rules[i].exact, rules[i].claim)
  {
    seq(|rules|, i requires 0 <= i < |rules| =>
      Rule(MapPath(f, rules[i].path), rules[i].exact, rules[i].claim))
  }

  ghost predicate InjectiveOn<S, T>(f: S -> T, xs: set<S>) {
    forall x, y :: x in xs && y in xs && f(x) == f(y) ==> x == y
  }

  ghost predicate PathIn<S>(p: seq<S>, xs: set<S>) {
    forall i :: 0 <= i < |p| ==> p[i] in xs
  }

  lemma MapPathInjective<S, T>(f: S -> T, p: seq<S>, q: seq<S>, xs: set<S>)
    requires InjectiveOn(f, xs) && PathIn(p, xs) && PathIn(q, xs)
    ensures MapPath(f, p) == MapPath(f, q) <==> p == q
  {
    if MapPath(f, p) == MapPath(f, q) {
      assert |p| == |MapPath(f, p)| == |q|;
      forall i | 0 <= i < |p| ensures p[i] == q[i] {
        assert f(p[i]) == MapPath(f, p)[i] == MapPath(f, q)[i] == f(q[i]);
      }
    }
  }

  lemma {:induction false} SelectMapped<S, T>(f: S -> T, rules: seq<Rule<S>>, path: seq<S>, exact: bool, xs: set<S>)
    requires InjectiveOn(f, xs) && PathIn(path, xs)
    requires forall i :: 0 <= i < |rules| ==> PathIn(rules[i].path, xs)
    ensures Select(MapRules(f, rules), MapPath(f, path), exact) == Select(rules, path, exact)
  {
    if |rules| > 0 {
      var n := |rules| - 1;
      assert MapRules(f, rules)[..n] == MapRules(f, rules[..n]);
      SelectMapped(f, rules[..n], path, exact, xs);
      MapPathInjective(f, rules[n].path, path, xs);
    }
  }

  lemma FrontIn<S>(p: seq<S>, k: nat, xs: set<S>)
    requires k <= |p| && PathIn(p, xs)
    ensures PathIn(p[..k], xs)
  {
  }

  lemma {:induction false} DeepestSuffixMapped<S, T>(f: S -> T, rules: seq<Rule<S>>, path: seq<S>, k: nat, xs: set<S>)
    requires k <= |path|
    requires InjectiveOn(f, xs) && PathIn(path, xs)
    requires forall i :: 0 <= i < |rules| ==> PathIn(rules[i].path, xs)
    ensures DeepestSuffix(MapRules(f, rules), MapPath(f, path), k) == DeepestSuffix(rules, path, k)
  {
    if k > 0 {
      hide Select, InjectiveOn;
      assert MapPath(f, path)[..k] == MapPath(f, path[..k]);
      FrontIn(path, k, xs);
      SelectMapped(f, rules, path[..k], false, xs);
      hide MapPath, MapRules, PathIn;
      DeepestSuffixMapped(f, rules, path, k - 1, xs);
    }
  }

  /** Replacing labels by codes that tell them apart does not change any answer. */
  lemma ScanMapped<S, T>(f: S -> T, rules: seq<Rule<S>>, path: seq<S>, xs: set<S>)
    requires InjectiveOn(f, xs) && PathIn(path, xs)
    requires forall i :: 0 <= i < |rules| ==> PathIn(rules[i].path, xs)
    ensures Scan(MapRules(f, rules), MapPath(f, path)) == Scan(rules, path)
  {
    SelectMapped(f, rules, path, true, xs);
    DeepestSuffixMapped(f, rules, path, |path|, xs);
  }
}
