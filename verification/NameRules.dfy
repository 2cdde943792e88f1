/**
  The domain trie's answers in terms of names instead of label hashes: the claim that
  matching is label-aligned and case-insensitive, and never looks inside a label.
*/
module NameRules {
  import opened Wrappers
  import opened Claims
  import opened Labels
  import opened TrieSpec
  import opened DomainTrie

  datatype NameRule = NameRule(name: Name, exact: bool, claim: Claim)

  /** The rules a trie accepts, filed under their label paths. */
  function LabelRules(rules: seq<NameRule>): (r: seq<Rule<Label>>) {
    if |rules| == 0 then []
    else
      var front, r := LabelRules(rules[..|rules| - 1]), rules[|rules| - 1];
      match NamePath(r.name)
      case None => front
      case Some(p) => front + [Rule(p, r.exact, r.claim)]
  }

  /** The answer of a scan that compares labels. */
  function Answer(rules: seq<NameRule>, name: Name): (r: Option<Hit>) {
    match NamePath(name)
    case None => None
    case Some(p) => Scan(LabelRules(rules), p)
  }

  /** The answer of a scan that compares label hashes, which is what the trie computes. */
  function HashedAnswer(hash: Label -> nat, rules: seq<NameRule>, name: Name): (r: Option<Hit>) {
    match HashedPath(hash, name)
    case None => None
    case Some(p) => Scan(HashedRules(hash, rules), p)
  }

  function HashedRules(hash: Label -> nat, rules: seq<NameRule>): (r: seq<Rule<nat>>) {
    MapRules(l => LabelHash(hash, l), LabelRules(rules))
  }

  /** Inserting one more named rule files it, or changes nothing if the name is malformed. */
  lemma HashedRulesOneMore(hash: Label -> nat, rules: seq<NameRule>, r: NameRule)
    ensures HashedRules(hash, rules + [r]) == HashedRules(hash, rules) +
      (match HashedPath(hash, r.name)
       case None => []
       case Some(p) => [Rule(p, r.exact, r.claim)])
  {
    assert (rules + [r])[..|rules|] == rules;
    match NamePath(r.name)
    case None =>
    case Some(p) =>
      assert MapPath(l => LabelHash(hash, l), p) == Hashes(hash, p);
  }

  /** The case-folded labels that occur in the rules or in the name looked up. */
  ghost function LabelsInPlay(rules: seq<NameRule>, name: Name): (r: set<Label>) {
    (set i, j | 0 <= i < |LabelRules(rules)| && 0 <= j < |LabelRules(rules)[i].path| ::
       LabelRules(rules)[i].path[j]) +
    (match NamePath(name) case None => {} case Some(p) => set j | 0 <= j < |p| :: p[j])
  }

  /** The hypothesis under which hashes can stand for labels. */
  ghost predicate HashTellsApart(hash: Label -> nat, ls: set<Label>) {
    forall x, y :: x in ls && y in ls && LabelHash(hash, x) == LabelHash(hash, y) ==> x == y
  }

  /** Without label collisions, the trie's answers are about labels. */
  lemma HashesAreTransparent(hash: Label -> nat, rules: seq<NameRule>, name: Name)
    requires HashTellsApart(hash, LabelsInPlay(rules, name))
    ensures HashedAnswer(hash, rules, name) == Answer(rules, name)
  {
    match NamePath(name)
    case None =>
    case Some(p) =>
      var f := (l: Label) => LabelHash(hash, l);
      var ls := LabelsInPlay(rules, name);
      assert MapPath(f, p) == Hashes(hash, p);
      assert PathIn(p, ls);
      forall i | 0 <= i < |LabelRules(rules)| ensures PathIn(LabelRules(rules)[i].path, ls) {
        forall j | 0 <= j < |LabelRules(rules)[i].path|
          ensures LabelRules(rules)[i].path[j] in ls
        {
        }
      }
      ScanMapped(f, LabelRules(rules), p, ls);
  }

  // ------------------------------------------------- label boundaries, textually

  function FoldAll(ls: seq<Label>): (r: seq<Label>)
    ensures |r| == |ls|
    ensures forall i :: 0 <= i < |ls| ==> r[i] == Fold(ls[i])
  {
    seq(|ls|, i requires 0 <= i < |ls| => Fold(ls[i]))
  }

  /** The fields of two texts with a dot between them. */
  lemma {:induction false} FieldsOfDotted(s: Name, t: Name)
    ensures Fields(s + [DOT] + t) == Fields(s) + Fields(t)
  {
    var u := s + [DOT] + t;
    if s == [] {
      assert u[1..] == t;
    } else {
      assert u[1..] == s[1..] + [DOT] + t;
      FieldsOfDotted(s[1..], t);
      PrependField([], Fields(s[1..]), Fields(t));
      PrependField([s[0]] + Fields(s[1..])[0], Fields(s[1..]), Fields(t));
    }
  }

  lemma PrependField(f: Label, a: seq<Label>, b: seq<Label>)
    requires a != []
    ensures [f] + (a + b) == [f] + a + b
    ensures [f] + (a + b)[1..] == [f] + a[1..] + b
  {
  }

  /** Folding case neither makes nor removes dots. */
  lemma {:induction false} FieldsOfFolded(t: Name)
    ensures Fields(Fold(t)) == FoldAll(Fields(t))
  {
    if t == [] {
      assert Fold(t) == [];
      assert FoldAll([[]]) == [[]];
    } else {
      FieldsOfFolded(t[1..]);
      assert Fold(t)[1..] == Fold(t[1..]);
      var a := Fields(t[1..]);
      FoldAllCons([], a);
      FoldAllCons([t[0]] + a[0], a[1..]);
      assert Fold([]) == [] && Fold([t[0]] + a[0]) == [Lower(t[0])] + Fold(a[0]);
      assert FoldAll(a)[1..] == FoldAll(a[1..]);
    }
  }

  lemma FoldAllCons(l: Label, a: seq<Label>)
    ensures FoldAll([l] + a) == [Fold(l)] + FoldAll(a)
  {
  }

  /** Prefixes of reversed label paths are suffixes of label lists. */
  lemma ReversedPrefix(xs: seq<Label>, ys: seq<Label>)
    ensures Reversed(xs) <= Reversed(ys) <==>
            |xs| <= |ys| && FoldAll(ys)[|ys| - |xs|..] == FoldAll(xs)
  {
    var n, m := |xs|, |ys|;
    if Reversed(xs) <= Reversed(ys) {
      forall i | 0 <= i < n ensures FoldAll(ys)[m - n..][i] == FoldAll(xs)[i] {
        assert Reversed(xs)[n - 1 - i] == Reversed(ys)[n - 1 - i];
      }
    }
    if n <= m && FoldAll(ys)[m - n..] == FoldAll(xs) {
      forall i | 0 <= i < n ensures Reversed(xs)[i] == Reversed(ys)[i] {
        assert FoldAll(ys)[m - n..][n - 1 - i] == FoldAll(xs)[n - 1 - i];
      }
    }
  }

  /** `d`, ignoring case and trailing dots, is `base` or ends in a dot and `base`. */
  ghost predicate AtOrBelow(d: Name, base: Name) {
    var s, t := Fold(TrimDots(d)), Fold(TrimDots(base));
    s == t || exists pre :: s == pre + [DOT] + t
  }

  /**
    A rule's path is a prefix of a name's path exactly when the name is the rule's name or
    lies below it: `notnetflix.com` is not below `netflix.com`, `www.NetFlix.com.` is.
  */
  lemma PathPrefixIsAtOrBelow(d: Name, base: Name)
    requires NamePath(d).Some? && NamePath(base).Some?
    ensures NamePath(base).value <= NamePath(d).value <==> AtOrBelow(d, base)
  {
    var s, t := TrimDots(d), TrimDots(base);
    var ys, xs := Fields(s), Fields(t);
    ReversedPrefix(xs, ys);
    FieldsOfFolded(s);
    FieldsOfFolded(t);
    var fs, ft := Fold(s), Fold(t);
    hide Fields, Join, TrimDots;
    var n, m := |xs|, |ys|;
    if n <= m && FoldAll(ys)[m - n..] == FoldAll(xs) {
      JoinOfFields(fs);
      JoinOfFields(ft);
      if n == m {
        assert FoldAll(ys)[0..] == FoldAll(ys);
      } else {
        var front := FoldAll(ys)[..m - n];
        assert front + FoldAll(xs) == FoldAll(ys);
        JoinOfAppend(front, FoldAll(xs));
        assert fs == Join(front) + [DOT] + ft;
      }
    }
    if AtOrBelow(d, base) {
      if fs == ft {
        assert FoldAll(ys)[0..] == FoldAll(ys);
      } else {
        var pre :| fs == pre + [DOT] + ft;
        FieldsOfDotted(pre, ft);
        assert FoldAll(ys) == Fields(pre) + FoldAll(xs);
      }
    }
  }

  lemma {:induction false} JoinOfAppend(a: seq<Label>, b: seq<Label>)
    requires a != [] && b != []
    ensures Join(a + b) == Join(a) + [DOT] + Join(b)
  {
    if |a| == 1 {
      assert (a + b)[1..] == b;
    } else {
      assert (a + b)[1..] == a[1..] + b;
      JoinOfAppend(a[1..], b);
    }
  }

  /** Equal paths are the same name up to case and trailing dots. */
  lemma SamePathSameName(d: Name, e: Name)
    requires NamePath(d).Some? && NamePath(e).Some?
    ensures NamePath(d) == NamePath(e) <==> Fold(TrimDots(d)) == Fold(TrimDots(e))
  {
    var s, t := TrimDots(d), TrimDots(e);
    var ys, xs := Fields(s), Fields(t);
    hide Fields, Join, TrimDots;
    FieldsOfFolded(s);
    FieldsOfFolded(t);
    JoinOfFields(Fold(s));
    JoinOfFields(Fold(t));
    ReversedEqual(xs, ys);
  }

  lemma ReversedEqual(xs: seq<Label>, ys: seq<Label>)
    ensures Reversed(xs) == Reversed(ys) <==> FoldAll(xs) == FoldAll(ys)
  {
    ReversedPrefix(xs, ys);
    ReversedPrefix(ys, xs);
    assert FoldAll(ys)[0..] == FoldAll(ys) && FoldAll(xs)[0..] == FoldAll(xs);
    assert |xs| == |ys| ==> (Reversed(xs) <= Reversed(ys) <==> Reversed(xs) == Reversed(ys));
    assert |Reversed(xs)| == |FoldAll(xs)| && |Reversed(ys)| == |FoldAll(ys)|;
  }

  /** The same letters, some perhaps in the other case: capital letters are 32 below small ones. */
  predicate CaseVariants(d: Name, e: Name) {
    |d| == |e| &&
    forall i :: 0 <= i < |d| ==>
      d[i] == e[i] || (0x41 <= d[i] <= 0x5A && e[i] == d[i] + 32) || (0x41 <= e[i] <= 0x5A && d[i] == e[i] + 32)
  }

  /** Folding is what makes case variants equal, and nothing else. */
  lemma FoldIff(d: Name, e: Name)
    ensures Fold(d) == Fold(e) <==> CaseVariants(d, e)
  {
    if Fold(d) == Fold(e) {
      forall i | 0 <= i < |d| ensures Lower(d[i]) == Lower(e[i]) {
        assert Fold(d)[i] == Fold(e)[i];
      }
    }
  }

  /** A name is looked up alike in whatever case, and with any number of dots behind it. */
  lemma CaseDoesNotMatter(hash: Label -> nat, d: Name, e: Name)
    requires CaseVariants(TrimDots(d), TrimDots(e))
    ensures HashedPath(hash, d) == HashedPath(hash, e)
  {
    var s, t := TrimDots(d), TrimDots(e);
    FoldIff(s, t);
    FieldsOfFolded(s);
    FieldsOfFolded(t);
    ReversedEqual(Fields(s), Fields(t));
    FoldedEmpty(Fields(s), Fields(t));
    hide Fields, Fold, TrimDots;
  }

  lemma FoldedEmpty(a: seq<Label>, b: seq<Label>)
    requires FoldAll(a) == FoldAll(b)
    ensures |a| == |b| && ([] in a <==> [] in b)
  {
    assert |FoldAll(a)| == |a| && |FoldAll(b)| == |b|;
    forall i | 0 <= i < |a| ensures |a[i]| == |b[i]| {
      assert |FoldAll(a)[i]| == |a[i]| && |FoldAll(b)[i]| == |b[i]|;
    }
    if [] in a {
      var i :| 0 <= i < |a| && a[i] == [];
      assert b[i] == [];
    }
    if [] in b {
      var i :| 0 <= i < |b| && b[i] == [];
      assert a[i] == [];
    }
  }

  lemma DottedIsBelow(pre: Name, base: Name)
    requires base != [] && base[|base| - 1] != DOT
    ensures AtOrBelow(pre + [DOT] + base, base)
  {
    var d := pre + [DOT] + base;
    assert TrimDots(d) == d && TrimDots(base) == base;
    assert Fold(d) == Fold(pre) + [DOT] + Fold(base);
  }

  // ------------------------------------------------- no name is matched by a stranger

  /** Equal up to case and trailing dots. */
  predicate SameName(d: Name, e: Name) {
    Fold(TrimDots(d)) == Fold(TrimDots(e))
  }

  /** The rule covers the name: it is for the name itself, or, for suffix rules, for one it lies below. */
  ghost predicate RuleCovers(r: NameRule, d: Name) {
    AtOrBelow(d, r.name) && (r.exact ==> SameName(d, r.name))
  }

  lemma {:induction false} LabelRuleFrom(rules: seq<NameRule>, j: nat) returns (r: NameRule)
    requires j < |LabelRules(rules)|
    ensures r in rules && NamePath(r.name) == Some(LabelRules(rules)[j].path)
    ensures r.exact == LabelRules(rules)[j].exact && r.claim == LabelRules(rules)[j].claim
  {
    hide NamePath;
    var n := |rules| - 1;
    r := rules[n];
    if j < |LabelRules(rules[..n])| {
      r := LabelRuleFrom(rules[..n], j);
    }
  }

  /**
    Every hit is the claim of a rule that covers the name looked up, and of the kind that is
    reported: a rule for `netflix.com` never answers for `netflix.com.evil.tld`.
  */
  lemma HitIsCovered(hash: Label -> nat, rules: seq<NameRule>, name: Name)
    requires HashTellsApart(hash, LabelsInPlay(rules, name)) && HashedAnswer(hash, rules, name).Some?
    ensures var h := HashedAnswer(hash, rules, name).value;
      exists r :: r in rules && r.claim == h.claim && r.exact == h.matchedExact && RuleCovers(r, name)
  {
    HashesAreTransparent(hash, rules, name);
    hide NamePath, LabelRules, Scan, AtOrBelow, TrimDots, Fold, HashTellsApart;
    var p, h := NamePath(name).value, HashedAnswer(hash, rules, name).value;
    ScanFromRules(LabelRules(rules), p);
    var j: nat :| For(LabelRules(rules), j, p[..h.labelsMatched], h.matchedExact) &&
                  LabelRules(rules)[j].claim == h.claim;
    var r := LabelRuleFrom(rules, j);
    PathPrefixIsAtOrBelow(name, r.name);
    if h.matchedExact {
      assert p[..|p|] == p;
      SamePathSameName(name, r.name);
    }
  }
}
