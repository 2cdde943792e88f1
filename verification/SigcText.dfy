/**
  The text handling of the signature compiler (tools/sigc.py), on ASCII text given as
  bytes: identity keys, and the normalisation of domain names.
*/
module SigcText {
  import opened Wrappers
  import opened Bits
  import opened Labels

  type Text = seq<byte>

  const HYPHEN: byte := 0x2D
  const SPACE: byte := 0x20

  /** What `str.strip` removes: tab to carriage return, the separators 0x1C to 0x1F, space. */
  predicate IsSpace(c: byte) {
    0x09 <= c <= 0x0D || 0x1C <= c <= 0x20
  }

  predicate IsAlnum(c: byte) {
    'a' as int <= c <= 'z' as int || '0' as int <= c <= '9' as int
  }

  /** `re.sub(r"[^a-z0-9]", "", slug)`: the separator-free identity key. */
  function IdentityKey(slug: Text): (k: Text)
    ensures |k| <= |slug|
  {
    if |slug| == 0 then []
    else IdentityKey(slug[..|slug| - 1]) +
         (if IsAlnum(slug[|slug| - 1]) then [slug[|slug| - 1]] else [])
  }

  function LStrip(t: Text, drop: byte -> bool): (r: Text)
    ensures r != [] ==> !drop(r[0])
  {
    if t != [] && drop(t[0]) then LStrip(t[1..], drop) else t
  }

  function RStrip(t: Text, drop: byte -> bool): (r: Text)
    ensures r <= t
    ensures r != [] ==> !drop(r[|r| - 1])
  {
    if t != [] && drop(t[|t| - 1]) then RStrip(t[..|t| - 1], drop) else t
  }

  predicate IsDot(c: byte) {
    c == DOT
  }

  predicate HasDoubleDot(t: Text) {
    exists i :: 0 <= i < |t| - 1 && t[i] == DOT && t[i + 1] == DOT
  }

  datatype Normalized = Normalized(name: Text, exact: bool)

  /** Without blanks around it, lower-cased. */
  function Trimmed(raw: Text): (r: Text) {
    Fold(RStrip(LStrip(raw, IsSpace), IsSpace))
  }

  /** What `Builder.domain` makes of a name; none if it refuses it. */
  function NormalizeDomain(raw: Text, exact: bool): (r: Option<Normalized>) {
    Undotted(Trimmed(raw), exact)
  }

  /** A leading dot says that the names below are meant too. */
  function Undotted(lowered: Text, exact: bool): (r: Option<Normalized>) {
    var dotted := lowered != [] && lowered[0] == DOT;
    var name := RStrip(if dotted then LStrip(lowered, IsDot) else lowered, IsDot);
    if name == [] || SPACE in name || DOT !in name then None
    else if HasDoubleDot(name) then None
    else Some(Normalized(name, exact && !dotted))
  }

  predicate AllLower(t: Text) {
    forall i :: 0 <= i < |t| ==> Lower(t[i]) == t[i]
  }

  /** Names as the compiler keeps them. */
  ghost predicate CleanName(t: Text) {
    && t != [] && t[0] != DOT && t[|t| - 1] != DOT && DOT in t
    && !HasDoubleDot(t) && AllLower(t)
  }

  lemma {:induction false} LStripKeepsLower(t: Text, drop: byte -> bool)
    requires AllLower(t)
    ensures AllLower(LStrip(t, drop))
  {
    if t != [] && drop(t[0]) {
      assert forall i :: 0 <= i < |t[1..]| ==> t[1..][i] == t[i + 1];
      LStripKeepsLower(t[1..], drop);
    }
  }

  lemma PrefixStaysFirst(t: Text, r: Text)
    requires r <= t && r != []
    ensures r[0] == t[0] && (AllLower(t) ==> AllLower(r))
  {
    assert forall i :: 0 <= i < |r| ==> r[i] == t[i];
  }

  lemma NormalizedIsClean(raw: Text, exact: bool)
    ensures NormalizeDomain(raw, exact).Some? ==> CleanName(NormalizeDomain(raw, exact).value.name)
  {
    hide LStrip, RStrip, HasDoubleDot;
    var lowered := Trimmed(raw);
    assert AllLower(lowered);
    LStripKeepsLower(lowered, IsDot);
    var stripped := if lowered != [] && lowered[0] == DOT then LStrip(lowered, IsDot) else lowered;
    var name := RStrip(stripped, IsDot);
    if name != [] {
      PrefixStaysFirst(stripped, name);
      assert !IsDot(stripped[0]);
    }
  }

  lemma DoubleDotCons(t: Text)
    requires t != []
    ensures HasDoubleDot(t) <==> (|t| > 1 && t[0] == DOT && t[1] == DOT) || HasDoubleDot(t[1..])
  {
    var u := t[1..];
    if HasDoubleDot(u) {
      var i :| 0 <= i < |u| - 1 && u[i] == DOT && u[i + 1] == DOT;
      assert t[i + 1] == DOT && t[i + 2] == DOT;
    }
    if HasDoubleDot(t) {
      var i :| 0 <= i < |t| - 1 && t[i] == DOT && t[i + 1] == DOT;
      if i > 0 {
        assert u[i - 1] == DOT && u[i] == DOT;
      }
    }
  }

  /** The first field is empty when a dot comes first; a later one, when a dot is last or doubled. */
  lemma {:induction false} EmptyFields(t: Text)
    ensures Fields(t)[0] == [] <==> t == [] || t[0] == DOT
    ensures [] in Fields(t)[1..] <==> t != [] && (t[|t| - 1] == DOT || HasDoubleDot(t))
  {
    if t != [] {
      EmptyFields(t[1..]);
      DoubleDotCons(t);
      var rest := Fields(t[1..]);
      assert rest == [rest[0]] + rest[1..];
      assert Fields(t)[1..] == if t[0] == DOT then rest else rest[1..];
    }
  }

  /** A text has an empty field exactly when it is empty, starts or ends in a dot, or has two in a row. */
  lemma EmptyFieldIff(t: Text)
    ensures [] in Fields(t) <==> t == [] || t[0] == DOT || t[|t| - 1] == DOT || HasDoubleDot(t)
  {
    EmptyFields(t);
    assert Fields(t) == [Fields(t)[0]] + Fields(t)[1..];
  }

  /** A clean name of at most forty labels is one the trie can file, and is its own folded form. */
  lemma CleanNameSplits(t: Text)
    requires CleanName(t)
    ensures TrimDots(t) == t
    ensures |Fields(t)| <= 40 ==> SplitSpec(t, MAX_LABELS) == Some(Fields(t))
    ensures |Fields(t)| > 40 ==> SplitSpec(t, MAX_LABELS) == None
  {
    EmptyFieldIff(t);
  }

  // ------------------------------------------------------------------ which texts are which names

  ghost predicate AllOf(t: Text, drop: byte -> bool) {
    forall i :: 0 <= i < |t| ==> drop(t[i])
  }

  lemma {:induction false} LStripStops(pre: Text, t: Text, drop: byte -> bool)
    requires AllOf(pre, drop) && (t == [] || !drop(t[0]))
    ensures LStrip(pre + t, drop) == t
  {
    if pre == [] {
      assert pre + t == t;
    } else {
      assert (pre + t)[1..] == pre[1..] + t;
      LStripStops(pre[1..], t, drop);
    }
  }

  lemma {:induction false} RStripStops(t: Text, post: Text, drop: byte -> bool)
    requires AllOf(post, drop) && (t == [] || !drop(t[|t| - 1]))
    ensures RStrip(t + post, drop) == t
  {
    if post == [] {
      assert t + post == t;
    } else {
      var n := |post| - 1;
      assert (t + post)[..|t| + n] == t + post[..n];
      RStripStops(t, post[..n], drop);
    }
  }

  lemma {:induction false} LStripDrops(t: Text, drop: byte -> bool) returns (k: nat)
    ensures k <= |t| && LStrip(t, drop) == t[k..] && AllOf(t[..k], drop)
  {
    k := 0;
    if t != [] && drop(t[0]) {
      k := LStripDrops(t[1..], drop);
      assert t[1..][k..] == t[k + 1..] && t[..k + 1] == [t[0]] + t[1..][..k];
      k := k + 1;
    }
  }

  lemma {:induction false} RStripDrops(t: Text, drop: byte -> bool)
    ensures RStrip(t, drop) <= t && AllOf(t[|RStrip(t, drop)|..], drop)
  {
    if t != [] && drop(t[|t| - 1]) {
      var n := |t| - 1;
      RStripDrops(t[..n], drop);
      assert t[|RStrip(t, drop)|..] == t[..n][|RStrip(t, drop)|..] + [t[n]];
    }
  }

  /**
    The text is the name, in whatever case, with blanks around it, and dots before or after.
    A name may hold no space; it begins and ends with a blank only next to such a dot.
  */
  ghost predicate Spells(raw: Text, pre: Text, dots: Text, name: Text, tail: Text, post: Text) {
    && raw == pre + (dots + name + tail) + post
    && AllOf(pre, IsSpace) && AllOf(post, IsSpace) && AllOf(dots, IsDot) && AllOf(tail, IsDot)
    && CleanName(Fold(name)) && SPACE !in name
    && (dots == [] ==> !IsSpace(name[0])) && (tail == [] ==> !IsSpace(name[|name| - 1]))
  }

  lemma FoldedMiddle(dots: Text, name: Text, tail: Text)
    requires AllOf(dots, IsDot) && AllOf(tail, IsDot)
    ensures Fold(dots + name + tail) == dots + Fold(name) + tail
  {
  }

  /** How a spelled name is normalised: lower-cased, and exact only without a dot before it. */
  lemma NormalizeSpelled(raw: Text, pre: Text, dots: Text, name: Text, tail: Text, post: Text, exact: bool)
    requires Spells(raw, pre, dots, name, tail, post)
    ensures NormalizeDomain(raw, exact) == Some(Normalized(Fold(name), exact && dots == []))
  {
    hide Trimmed, Undotted, CleanName;
    TrimmedMiddle(raw, pre, dots, name, tail, post);
    SpaceFolds(name);
    UndottedName(dots, Fold(name), tail, exact);
  }

  lemma TrimmedMiddle(raw: Text, pre: Text, dots: Text, name: Text, tail: Text, post: Text)
    requires Spells(raw, pre, dots, name, tail, post)
    ensures Trimmed(raw) == dots + Fold(name) + tail
  {
    hide LStrip, RStrip, HasDoubleDot, Fold;
    var mid := dots + name + tail;
    assert pre + mid + post == pre + (mid + post);
    assert !IsSpace(mid[0]) && !IsSpace(mid[|mid| - 1]);
    LStripStops(pre, mid + post, IsSpace);
    RStripStops(mid, post, IsSpace);
    FoldedMiddle(dots, name, tail);
  }

  lemma UndottedName(dots: Text, name: Text, tail: Text, exact: bool)
    requires AllOf(dots, IsDot) && AllOf(tail, IsDot) && CleanName(name) && SPACE !in name
    ensures Undotted(dots + name + tail, exact) == Some(Normalized(name, exact && dots == []))
  {
    hide LStrip, RStrip, HasDoubleDot;
    assert dots + name + tail == dots + (name + tail);
    LStripStops(dots, name + tail, IsDot);
    RStripStops(name, tail, IsDot);
    assert (dots + name + tail)[0] == DOT <==> dots != [];
    assert dots == [] ==> dots + name + tail == name + tail;
  }

  lemma SpaceFolds(name: Text)
    ensures SPACE in Fold(name) <==> SPACE in name
  {
    if SPACE in Fold(name) {
      var i :| 0 <= i < |name| && Fold(name)[i] == SPACE;
      assert Lower(name[i]) == SPACE;
    }
    if SPACE in name {
      var i :| 0 <= i < |name| && name[i] == SPACE;
      assert Fold(name)[i] == SPACE;
    }
  }

  /** And nothing else is accepted: what has a normal form spells that name. */
  lemma NormalizedIsSpelled(raw: Text, exact: bool)
    returns (pre: Text, dots: Text, name: Text, tail: Text, post: Text)
    ensures NormalizeDomain(raw, exact).Some? ==>
      && Spells(raw, pre, dots, name, tail, post)
      && NormalizeDomain(raw, exact).value == Normalized(Fold(name), exact && dots == [])
  {
    hide LStrip, RStrip, CleanName, Undotted, Fold;
    var k := LStripDrops(raw, IsSpace);
    RStripDrops(raw[k..], IsSpace);
    var mid := RStrip(LStrip(raw, IsSpace), IsSpace);
    pre, post := raw[..k], raw[k..][|mid|..];
    assert raw == pre + mid + post;
    dots, name, tail := NameBetweenDots(mid, exact);
    if NormalizeDomain(raw, exact).Some? {
      NormalizedIsClean(raw, exact);
      assert dots == [] ==> mid[0] == name[0];
      assert tail == [] ==> mid[|mid| - 1] == name[|name| - 1];
    }
  }

  lemma NameBetweenDots(mid: Text, exact: bool) returns (dots: Text, name: Text, tail: Text)
    ensures Undotted(Fold(mid), exact).Some? ==>
      && mid == dots + name + tail && name != [] && AllOf(dots, IsDot) && AllOf(tail, IsDot) && SPACE !in name
      && Undotted(Fold(mid), exact).value == Normalized(Fold(name), exact && dots == [])
  {
    hide LStrip, RStrip, Undotted, Fold;
    var j := DotsBefore(mid);
    var rest := Fold(mid)[j..];
    UndottedFrom(Fold(mid), j, exact);
    RStripDrops(rest, IsDot);
    var n := |RStrip(rest, IsDot)|;
    dots, name, tail := mid[..j], mid[j..j + n], mid[j + n..];
    assert rest[..n] == Fold(mid)[j..j + n] && rest[n..] == Fold(mid)[j + n..];
    FoldedSlice(mid, j, j + n);
    FoldedDots(mid, j + n);
    SpaceFolds(name);
    assert mid == dots + name + tail;
  }

  lemma UndottedFrom(lowered: Text, j: nat, exact: bool)
    requires j <= |lowered| && (lowered != [] && lowered[0] == DOT <==> j > 0)
    requires (if j > 0 then LStrip(lowered, IsDot) else lowered) == lowered[j..]
    ensures Undotted(lowered, exact).Some? ==>
      var name := RStrip(lowered[j..], IsDot);
      && name != [] && SPACE !in name && Undotted(lowered, exact).value == Normalized(name, exact && j == 0)
  {
    hide LStrip, RStrip, HasDoubleDot;
  }

  lemma FoldedSlice(t: Text, i: nat, j: nat)
    requires i <= j <= |t|
    ensures Fold(t)[i..j] == Fold(t[i..j])
  {
  }

  lemma FoldedDots(t: Text, i: nat)
    requires i <= |t| && AllOf(Fold(t)[i..], IsDot)
    ensures AllOf(t[i..], IsDot)
  {
    forall k | 0 <= k < |t| - i ensures IsDot(t[i..][k]) {
      assert Fold(t)[i..][k] == Lower(t[i + k]);
    }
  }

  /** How many dots come first, and what is left of the lower-cased text without them. */
  lemma DotsBefore(mid: Text) returns (j: nat)
    ensures j <= |mid| && AllOf(mid[..j], IsDot)
    ensures var lowered := Fold(mid);
      && (lowered != [] && lowered[0] == DOT <==> j > 0)
      && (if j > 0 then LStrip(lowered, IsDot) else lowered) == lowered[j..]
  {
    j := 0;
    var lowered := Fold(mid);
    if lowered != [] && lowered[0] == DOT {
      j := LStripDrops(lowered, IsDot);
      forall i | 0 <= i < j ensures IsDot(mid[i]) {
        assert lowered[..j][i] == Lower(mid[i]);
      }
    }
  }

  /** A text is refused exactly if it spells no name. */
  lemma NormalizeIff(raw: Text, exact: bool)
    ensures NormalizeDomain(raw, exact).Some? <==>
            exists pre, dots, name, tail, post :: Spells(raw, pre, dots, name, tail, post)
  {
    hide NormalizeDomain, Spells;
    if NormalizeDomain(raw, exact).Some? {
      var pre, dots, name, tail, post := NormalizedIsSpelled(raw, exact);
    }
    if pre, dots, name, tail, post :| Spells(raw, pre, dots, name, tail, post) {
      NormalizeSpelled(raw, pre, dots, name, tail, post, exact);
    }
  }

  /** A clean name without blanks is its own normal form, of the kind asked for; a dot before it makes it a suffix. */
  lemma PlainNames(t: Text, exact: bool)
    requires CleanName(t) && forall i :: 0 <= i < |t| ==> !IsSpace(t[i])
    ensures NormalizeDomain(t, exact) == Some(Normalized(t, exact))
    ensures NormalizeDomain([DOT] + t, exact) == Some(Normalized(t, false))
  {
    hide *;
    CleanParts(t);
    NoSpace(t);
    assert [] + t == t;
    SpellsPlain([], t);
    SpellsPlain([DOT], t);
    NormalizeSpelled([] + t, [], [], t, [], [], exact);
    NormalizeSpelled([DOT] + t, [], [DOT], t, [], [], exact);
  }

  lemma SpellsPlain(dots: Text, t: Text)
    requires dots in {[], [DOT]} && t != [] && CleanName(t) && Fold(t) == t && SPACE !in t
    requires !IsSpace(t[0]) && !IsSpace(t[|t| - 1])
    ensures Spells(dots + t, [], dots, t, [], [])
  {
    hide CleanName, Fold, IsSpace;
    assert [] + (dots + t + []) + [] == dots + t;
  }

  lemma CleanParts(t: Text)
    requires CleanName(t)
    ensures t != [] && Fold(t) == t
  {
    hide HasDoubleDot;
  }

  lemma NoSpace(t: Text)
    requires forall i :: 0 <= i < |t| ==> !IsSpace(t[i])
    ensures SPACE !in t && (t != [] ==> !IsSpace(t[0]) && !IsSpace(t[|t| - 1]))
  {
  }
}
