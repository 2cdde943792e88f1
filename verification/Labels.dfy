/**
  Splitting a domain name into labels (src/match/domain_trie.c). A name is given as the
  characters of a C string, without the terminator.
*/
module Labels {
  import opened Wrappers
  import opened Bits

  type Name = seq<byte>
  type Label = seq<byte>

  const DOT: byte := 0x2E
  const MAX_LABELS := 40

  /** The name without its trailing dots: all of them, not only a root dot. */
  function TrimDots(d: Name): (t: Name)
    ensures t <= d
    ensures t != [] ==> t[|t| - 1] != DOT
    ensures forall i :: |t| <= i < |d| ==> d[i] == DOT
  {
    if d != [] && d[|d| - 1] == DOT then TrimDots(d[..|d| - 1]) else d
  }

  /** The text between dots; `a..b` has an empty field, and so has the empty name. */
  function Fields(t: Name): (fs: seq<Label>)
    ensures fs != []
  {
    if t == [] then [[]]
    else
      var rest := Fields(t[1..]);
      if t[0] == DOT then [[]] + rest else [[t[0]] + rest[0]] + rest[1..]
  }

  function Join(fs: seq<Label>): (r: Name) {
    if |fs| == 0 then []
    else if |fs| == 1 then fs[0]
    else fs[0] + [DOT] + Join(fs[1..])
  }

  /**
    The labels of a name, leftmost first; none when it has an empty label or more than
    `max` of them. A name of dots only has no labels at all.
  */
  function SplitSpec(d: Name, max: nat): (r: Option<seq<Label>>) {
    var t := TrimDots(d);
    if t == [] then Some([])
    else if [] in Fields(t) || |Fields(t)| > max then None
    else Some(Fields(t))
  }

  lemma {:induction false} FieldsHaveNoDot(t: Name)
    ensures forall i :: 0 <= i < |Fields(t)| ==> DOT !in Fields(t)[i]
  {
    if t != [] {
      FieldsHaveNoDot(t[1..]);
    }
  }

  lemma {:induction false} JoinOfFields(t: Name)
    ensures Join(Fields(t)) == t
  {
    if t != [] {
      JoinOfFields(t[1..]);
      var rest := Fields(t[1..]);
      assert t == [t[0]] + t[1..];
      if t[0] == DOT {
        assert ([[]] + rest)[1..] == rest;
      } else {
        var fs := [[t[0]] + rest[0]] + rest[1..];
        assert fs[1..] == rest[1..];
        if |rest| > 1 {
          assert Join(rest) == rest[0] + [DOT] + Join(rest[1..]);
          assert Join(fs) == fs[0] + [DOT] + Join(fs[1..]);
        }
      }
    }
  }

  /** A dot-free label in front of a dot is one field. */
  lemma {:induction false} FieldsOfCons(l: Label, t: Name)
    requires DOT !in l
    ensures Fields(l + [DOT] + t) == [l] + Fields(t)
  {
    var s := l + [DOT] + t;
    if l == [] {
      assert s[1..] == t;
    } else {
      assert s[1..] == l[1..] + [DOT] + t;
      FieldsOfCons(l[1..], t);
      assert l == [l[0]] + l[1..];
    }
  }

  lemma {:induction false} FieldsOfLabel(l: Label)
    requires DOT !in l
    ensures Fields(l) == [l]
  {
    if l != [] {
      FieldsOfLabel(l[1..]);
      assert l == [l[0]] + l[1..];
    }
  }

  lemma {:induction false} FieldsOfJoin(fs: seq<Label>)
    requires fs != [] && forall i :: 0 <= i < |fs| ==> DOT !in fs[i]
    ensures Fields(Join(fs)) == fs
  {
    if |fs| == 1 {
      FieldsOfLabel(fs[0]);
    } else {
      FieldsOfJoin(fs[1..]);
      FieldsOfCons(fs[0], Join(fs[1..]));
    }
  }

  /** A list of labels as the trie wants them: between 1 and `max`, none empty, no dots. */
  ghost predicate WellFormed(ls: seq<Label>, max: nat) {
    1 <= |ls| <= max && forall i :: 0 <= i < |ls| ==> ls[i] != [] && DOT !in ls[i]
  }

  lemma {:induction false} LastOfJoin(ls: seq<Label>)
    requires ls != [] && ls[|ls| - 1] != [] && DOT !in ls[|ls| - 1]
    ensures Join(ls) != [] && Join(ls)[|Join(ls)| - 1] != DOT
  {
    if |ls| > 1 {
      LastOfJoin(ls[1..]);
    }
  }

  /** Splitting yields exactly the label lists that, joined by dots, spell the name. */
  lemma SplitIffJoin(d: Name, max: nat, ls: seq<Label>)
    requires ls != []
    ensures SplitSpec(d, max) == Some(ls) <==> WellFormed(ls, max) && Join(ls) == TrimDots(d)
  {
    JoinOfFields(TrimDots(d));
    FieldsHaveNoDot(TrimDots(d));
    if WellFormed(ls, max) && Join(ls) == TrimDots(d) {
      LastOfJoin(ls);
      FieldsOfJoin(ls);
    }
  }

  /** A name spelled from labels, with any number of trailing dots, splits into them. */
  lemma SplitOfJoin(ls: seq<Label>, dots: Name, max: nat)
    requires WellFormed(ls, max) && forall i :: 0 <= i < |dots| ==> dots[i] == DOT
    ensures SplitSpec(Join(ls) + dots, max) == Some(ls)
  {
    LastOfJoin(ls);
    TrimOfDots(Join(ls), dots);
    SplitIffJoin(Join(ls) + dots, max, ls);
  }

  lemma {:induction false} TrimOfDots(t: Name, dots: Name)
    requires t != [] && t[|t| - 1] != DOT
    requires forall i :: 0 <= i < |dots| ==> dots[i] == DOT
    ensures TrimDots(t + dots) == t
  {
    if dots == [] {
      assert t + dots == t;
    } else {
      var d := t + dots;
      assert d[..|d| - 1] == t + dots[..|dots| - 1];
      TrimOfDots(t, dots[..|dots| - 1]);
    }
  }

  /** Strips the trailing dots, then cuts the rest at its dots. */
  method SplitLabels(d: Name, max: nat) returns (out: Option<seq<Label>>)
    ensures out == SplitSpec(d, max)
  {
    var n := TrimLength(d);
    if n == 0 {
      return Some([]);
    }
    out := CutLabels(d[..n], max);
  }

  method TrimLength(d: Name) returns (n: nat)
    ensures n <= |d| && d[..n] == TrimDots(d)
  {
    n := |d|;
    assert d[..n] == d;
    while n > 0 && d[n - 1] == DOT
      invariant 0 <= n <= |d|
      invariant TrimDots(d[..n]) == TrimDots(d)
    {
      assert d[..n][..n - 1] == d[..n - 1];
      n := n - 1;
    }
  }

  /** One scan over the trimmed name; it stops at the first label it cannot take. */
  method CutLabels(t: Name, max: nat) returns (out: Option<seq<Label>>)
    ensures out == if [] in Fields(t) || |Fields(t)| > max then None else Some(Fields(t))
  {
    hide Fields, Cut;
    var labels: seq<Label> := [];
    var start, i := 0, 0;
    CutNone(t);
    while i <= |t|
      invariant 0 <= start <= i <= |t| + 1
      invariant i <= |t| ==> start <= |t| && NoDot(t, start, i)
      invariant i == |t| + 1 ==> start == |t| + 1
      invariant Cut(t, labels, start)
      invariant |labels| <= max && forall k :: 0 <= k < |labels| ==> labels[k] != []
    {
      if i == |t| || t[i] == DOT {
        CutStep(t, labels, start, i);
        if i == start {
          return None;
        }
        if |labels| >= max {
          return None;
        }
        labels := labels + [t[start..i]];
        start := i + 1;
      }
      i := i + 1;
    }
    CutAll(t, labels);
    return Some(labels);
  }

  ghost predicate NoDot(t: Name, start: nat, i: nat)
    requires i <= |t|
  {
    forall j :: start <= j < i ==> t[j] != DOT
  }

  /** `labels` are the fields of `t` before position `start`. */
  ghost predicate Cut(t: Name, labels: seq<Label>, start: nat) {
    Fields(t) == labels + (if start <= |t| then Fields(t[start..]) else [])
  }

  lemma CutNone(t: Name)
    ensures Cut(t, [], 0)
  {
    assert t[0..] == t && [] + Fields(t) == Fields(t);
  }

  lemma CutAll(t: Name, labels: seq<Label>)
    requires Cut(t, labels, |t| + 1)
    requires forall k :: 0 <= k < |labels| ==> labels[k] != []
    ensures Fields(t) == labels && [] !in Fields(t)
  {
    assert labels + [] == labels;
  }

  lemma CutStep(t: Name, labels: seq<Label>, start: nat, i: nat)
    requires Cut(t, labels, start)
    requires start <= i <= |t| && NoDot(t, start, i)
    requires i == |t| || t[i] == DOT
    ensures Cut(t, labels + [t[start..i]], i + 1)
    ensures |Fields(t)| > |labels| && (i == start ==> [] in Fields(t))
  {
    hide Fields;
    CutField(t, start, i);
    var rest := if i == |t| then [] else Fields(t[i + 1..]);
    assert labels + ([t[start..i]] + rest) == labels + [t[start..i]] + rest;
    assert Fields(t)[|labels|] == t[start..i];
  }

  /** The field that starts at `start` ends at the next dot or at the end of the name. */
  lemma CutField(t: Name, start: nat, i: nat)
    requires start <= i <= |t| && DOT !in t[start..i]
    requires i == |t| || t[i] == DOT
    ensures Fields(t[start..]) ==
            [t[start..i]] + (if i == |t| then [] else Fields(t[i + 1..]))
  {
    if i == |t| {
      assert t[start..] == t[start..i];
      FieldsOfLabel(t[start..]);
    } else {
      assert t[start..] == t[start..i] + [DOT] + t[i + 1..];
      FieldsOfCons(t[start..i], t[i + 1..]);
    }
  }

  // ------------------------------------------------------------------ hashing

  /** `tolower` in the C locale. */
  function Lower(c: byte): (r: byte)
    ensures !('A' as int <= r <= 'Z' as int)
  {
    if 'A' as int <= c <= 'Z' as int then c + 0x20 else c
  }

  function Fold(l: Label): (r: Label)
    ensures |r| == |l|
    ensures forall i :: 0 <= i < |l| ==> r[i] == Lower(l[i])
  {
    seq(|l|, i requires 0 <= i < |l| => Lower(l[i]))
  }

  /** The hash of a case-folded label; 0 is reserved for empty slots. */
  function LabelHash(hash: Label -> nat, l: Label): (h: nat)
    ensures h != 0
  {
    var h := hash(Fold(l));
    if h == 0 then 1 else h
  }

  /** The labels from the top-level domain inward, case-folded. */
  function Reversed(ls: seq<Label>): (r: seq<Label>)
    ensures |r| == |ls|
    ensures forall i :: 0 <= i < |ls| ==> r[i] == Fold(ls[|ls| - 1 - i])
  {
    seq(|ls|, i requires 0 <= i < |ls| => Fold(ls[|ls| - 1 - i]))
  }

  lemma FoldTwice(l: Label)
    ensures Fold(Fold(l)) == Fold(l)
  {
  }

  /** The hashes of a label path. */
  function Hashes(hash: Label -> nat, p: seq<Label>): (r: seq<nat>)
    ensures |r| == |p|
    ensures forall i :: 0 <= i < |p| ==> r[i] == LabelHash(hash, p[i])
    ensures 0 !in r
  {
    seq(|p|, i requires 0 <= i < |p| => LabelHash(hash, p[i]))
  }
}
