/**
  `_slug` of the signature compiler (tools/sigc.py): the single spelling every source's
  application names are brought to, on ASCII text given as bytes; and how it fits the
  identity key that `Builder.app` derives from it.
*/
module Slugs {
  import opened Bits
  import opened Labels
  import opened SigcText

  const UNKNOWN: Text := [0x75, 0x6E, 0x6B, 0x6E, 0x6F, 0x77, 0x6E]

  predicate IsHyphen(c: byte) {
    c == HYPHEN
  }

  /** Every run of other characters becomes one hyphen. */
  function Collapse(t: Text): (r: Text)
    ensures forall i :: 0 <= i < |r| ==> IsAlnum(r[i]) || r[i] == HYPHEN
    ensures forall i :: 0 <= i < |r| - 1 ==> !(r[i] == HYPHEN && r[i + 1] == HYPHEN)
  {
    if |t| == 0 then []
    else
      var front, c := Collapse(t[..|t| - 1]), t[|t| - 1];
      if IsAlnum(c) then front + [c]
      else if front != [] && front[|front| - 1] == HYPHEN then front
      else front + [HYPHEN]
  }

  function Slug(name: Text): (r: Text) {
    var out := RStrip(LStrip(Collapse(Fold(name)), IsHyphen), IsHyphen);
    if out == [] then UNKNOWN else out
  }

  /** Lower-case words with single hyphens between them. */
  ghost predicate Slugged(t: Text) {
    && t != [] && t[0] != HYPHEN && t[|t| - 1] != HYPHEN
    && (forall i :: 0 <= i < |t| ==> IsAlnum(t[i]) || t[i] == HYPHEN)
    && forall i :: 0 <= i < |t| - 1 ==> !(t[i] == HYPHEN && t[i + 1] == HYPHEN)
  }

  lemma SlugIsSlugged(name: Text)
    ensures Slugged(Slug(name))
  {
    hide Collapse, LStrip, RStrip;
    var c := Collapse(Fold(name));
    var k := LStripDrops(c, IsHyphen);
    var l := LStrip(c, IsHyphen);
    var out := RStrip(l, IsHyphen);
    if out != [] {
      assert out[0] == l[0] && !IsHyphen(l[0]) && !IsHyphen(out[|out| - 1]);
      forall i | 0 <= i < |out| ensures out[i] == c[k + i] {
        assert out[i] == l[i];
      }
    }
  }

  lemma {:induction false} CollapseKeeps(t: Text)
    requires forall i :: 0 <= i < |t| ==> IsAlnum(t[i]) || t[i] == HYPHEN
    requires forall i :: 0 <= i < |t| - 1 ==> !(t[i] == HYPHEN && t[i + 1] == HYPHEN)
    ensures Collapse(t) == t
  {
    if t != [] {
      var front := t[..|t| - 1];
      CollapseKeeps(front);
      assert t == front + [t[|t| - 1]];
    }
  }

  lemma SluggedIsLower(t: Text)
    requires Slugged(t)
    ensures Fold(t) == t
  {
  }

  /** A slug is its own slug, so sources that already agree are left alone. */
  lemma SlugTwice(name: Text)
    ensures Slug(Slug(name)) == Slug(name)
  {
    SlugIsSlugged(name);
    hide Slug;
    var s := Slug(name);
    SluggedIsLower(s);
    CollapseKeeps(s);
    NothingToStrip(s);
    SlugOfSame(s);
  }

  lemma SlugOfSame(s: Text)
    requires s != [] && Collapse(Fold(s)) == s && LStrip(s, IsHyphen) == s && RStrip(s, IsHyphen) == s
    ensures Slug(s) == s
  {
  }

  lemma NothingToStrip(s: Text)
    requires Slugged(s)
    ensures LStrip(s, IsHyphen) == s && RStrip(s, IsHyphen) == s
  {
  }

  // ------------------------------------------------------------------ identity

  lemma {:induction false} KeyOfConcat(a: Text, b: Text)
    ensures IdentityKey(a + b) == IdentityKey(a) + IdentityKey(b)
  {
    if b == [] {
      assert a + b == a;
    } else {
      var n := |b| - 1;
      assert (a + b)[..|a| + n] == a + b[..n];
      KeyOfConcat(a, b[..n]);
    }
  }

  lemma KeyOneMore(front: Text, c: byte)
    ensures IdentityKey(front + [c]) == if IsAlnum(c) then IdentityKey(front) + [c] else IdentityKey(front)
  {
    assert (front + [c])[..|front|] == front;
  }

  lemma {:induction false} KeyOfCollapsed(t: Text)
    ensures IdentityKey(Collapse(t)) == IdentityKey(t)
  {
    if t != [] {
      var front, c := t[..|t| - 1], t[|t| - 1];
      KeyOfCollapsed(front);
      hide IdentityKey, Collapse;
      CollapseOneMore(front, c);
      KeyOneMore(front, c);
      KeyOneMore(Collapse(front), c);
      KeyOneMore(Collapse(front), HYPHEN);
      assert t == front + [c];
    }
  }

  lemma KeyOfOne(c: byte)
    ensures IdentityKey([c]) == if IsAlnum(c) then [c] else []
  {
    assert IdentityKey([]) == [];
  }

  lemma {:induction false} KeyOfLStripped(t: Text)
    ensures IdentityKey(LStrip(t, IsHyphen)) == IdentityKey(t)
  {
    if t != [] && IsHyphen(t[0]) {
      hide IdentityKey;
      KeyOfLStripped(t[1..]);
      KeyOfConcat([t[0]], t[1..]);
      KeyOfOne(t[0]);
      assert [t[0]] + t[1..] == t && [] + IdentityKey(t[1..]) == IdentityKey(t[1..]);
    }
  }

  lemma {:induction false} KeyOfRStripped(t: Text)
    ensures IdentityKey(RStrip(t, IsHyphen)) == IdentityKey(t)
  {
    if t != [] && IsHyphen(t[|t| - 1]) {
      KeyOfRStripped(t[..|t| - 1]);
    }
  }

  /**
    Spelling does not matter to identity: the key of a slug is the name's own letters and
    digits, lower-cased. Only names without any share the key of "unknown".
  */
  lemma SlugKeepsIdentity(name: Text)
    ensures IdentityKey(Slug(name)) ==
            if IdentityKey(Fold(name)) == [] then UNKNOWN else IdentityKey(Fold(name))
  {
    var c := Collapse(Fold(name));
    var l := LStrip(c, IsHyphen);
    KeyOfCollapsed(Fold(name));
    KeyOfLStripped(c);
    KeyOfRStripped(l);
    SlugIsSlugged(name);
    hide Collapse, LStrip, RStrip;
    if RStrip(l, IsHyphen) == [] {
      KeyOfUnknown();
    } else {
      KeyOfSlug(RStrip(l, IsHyphen));
    }
  }

  lemma KeyOfUnknown()
    ensures IdentityKey(UNKNOWN) == UNKNOWN && IdentityKey([]) == []
  {
    KeyOfAlnum(UNKNOWN);
  }

  lemma {:induction false} KeyOfAlnum(t: Text)
    requires forall i :: 0 <= i < |t| ==> IsAlnum(t[i])
    ensures IdentityKey(t) == t
  {
    if t != [] {
      KeyOfAlnum(t[..|t| - 1]);
    }
  }

  /** A slug has a letter or digit, so its key is not empty. */
  lemma KeyOfSlug(t: Text)
    requires Slugged(t)
    ensures IdentityKey(t) != []
  {
  }

  /**
    Two source names are one app exactly when their letters and digits agree, ignoring case;
    names without any are one app too, and the same as "Unknown".
  */
  lemma SameIdentityIff(a: Text, b: Text)
    ensures IdentityKey(Slug(a)) == IdentityKey(Slug(b)) <==>
      var k, l := IdentityKey(Fold(a)), IdentityKey(Fold(b));
      k == l || (k == [] && l == UNKNOWN) || (k == UNKNOWN && l == [])
  {
    SlugKeepsIdentity(a);
    SlugKeepsIdentity(b);
  }

  // ------------------------------------------------------------------ words

  predicate IsWord(w: Text) {
    w != [] && forall i :: 0 <= i < |w| ==> IsAlnum(w[i])
  }

  /** The runs of letters and digits, in order. */
  function Words(t: Text): (ws: seq<Text>)
    ensures forall i :: 0 <= i < |ws| ==> IsWord(ws[i])
    ensures ws == [] <==> forall i :: 0 <= i < |t| ==> !IsAlnum(t[i])
  {
    if |t| == 0 then []
    else
      var front, c := t[..|t| - 1], t[|t| - 1];
      var ws := Words(front);
      if !IsAlnum(c) then ws
      else if front != [] && IsAlnum(front[|front| - 1]) then ws[..|ws| - 1] + [ws[|ws| - 1] + [c]]
      else ws + [[c]]
  }

  /** The words with a hyphen between each two. */
  function Hyphenated(ws: seq<Text>): (r: Text) {
    if |ws| == 0 then []
    else if |ws| == 1 then ws[0]
    else Hyphenated(ws[..|ws| - 1]) + [HYPHEN] + ws[|ws| - 1]
  }

  lemma MoreHyphenated(ws: seq<Text>, w: Text, c: byte)
    ensures Hyphenated(ws + [w]) == (if ws == [] then w else Hyphenated(ws) + [HYPHEN] + w)
    ensures Hyphenated(ws + [w + [c]]) == Hyphenated(ws + [w]) + [c]
  {
    assert (ws + [w])[..|ws|] == ws && (ws + [w + [c]])[..|ws|] == ws;
    if ws == [] {
      assert ws + [w] == [w] && ws + [w + [c]] == [w + [c]];
    }
  }

  /** Words between hyphens begin and end with a letter or digit. */
  lemma {:induction false} HyphenatedEnds(ws: seq<Text>)
    requires ws != [] && forall i :: 0 <= i < |ws| ==> IsWord(ws[i])
    ensures var h := Hyphenated(ws); h != [] && IsAlnum(h[0]) && IsAlnum(h[|h| - 1])
  {
    if |ws| > 1 {
      HyphenatedEnds(ws[..|ws| - 1]);
    }
  }

  /** Other characters before the first word, after the last, leave one hyphen each. */
  function Lead(t: Text): (r: Text) {
    if t != [] && !IsAlnum(t[0]) && Words(t) != [] then [HYPHEN] else []
  }

  function Trail(t: Text): (r: Text) {
    if t != [] && !IsAlnum(t[|t| - 1]) then [HYPHEN] else []
  }

  lemma CollapseOneMore(front: Text, c: byte)
    ensures var s := Collapse(front);
      Collapse(front + [c]) ==
      if IsAlnum(c) then s + [c] else if s != [] && s[|s| - 1] == HYPHEN then s else s + [HYPHEN]
  {
    assert (front + [c])[..|front|] == front;
  }

  lemma WordsOneMore(front: Text, c: byte)
    ensures var ws := Words(front);
      Words(front + [c]) ==
      if !IsAlnum(c) then ws
      else if front != [] && IsAlnum(front[|front| - 1]) then ws[..|ws| - 1] + [ws[|ws| - 1] + [c]]
      else ws + [[c]]
  {
    assert (front + [c])[..|front|] == front;
  }

  lemma {:induction false} CollapseIsWords(t: Text)
    ensures Collapse(t) == Lead(t) + Hyphenated(Words(t)) + Trail(t)
  {
    if t != [] {
      var front, c := t[..|t| - 1], t[|t| - 1];
      assert t == front + [c];
      CollapseIsWords(front);
      WordsOneMore(front, c);
      hide Collapse, Words, Hyphenated, Lead, Trail;
      var ws := Words(front);
      if ws != [] {
        HyphenatedEnds(ws);
      } else {
        NoWords();
      }
      if !IsAlnum(c) {
        OtherCharacter(front, c);
      } else if front != [] && IsAlnum(front[|front| - 1]) {
        WordGoesOn(front, c);
      } else {
        WordBegins(front, c);
      }
    }
  }

  lemma WordGoesOn(front: Text, c: byte)
    requires IsAlnum(c) && front != [] && IsAlnum(front[|front| - 1])
    requires Collapse(front) == Lead(front) + Hyphenated(Words(front)) + Trail(front)
    requires Words(front) != [] && Words(front + [c]) != []
    requires var ws := Words(front); Words(front + [c]) == ws[..|ws| - 1] + [ws[|ws| - 1] + [c]]
    ensures Collapse(front + [c]) ==
            Lead(front + [c]) + Hyphenated(Words(front + [c])) + Trail(front + [c])
  {
    CollapseOneMore(front, c);
    hide Collapse, Words, Hyphenated;
    var ws := Words(front);
    assert ws == ws[..|ws| - 1] + [ws[|ws| - 1]];
    MoreHyphenated(ws[..|ws| - 1], ws[|ws| - 1], c);
    assert (front + [c])[0] == front[0];
  }

  lemma Regrouped(a: Text, b: Text, c: Text, d: Text)
    ensures a + b + c + d == a + (b + c + d) + []
  {
  }

  lemma WordBegins(front: Text, c: byte)
    requires IsAlnum(c) && (front == [] || !IsAlnum(front[|front| - 1]))
    requires Collapse(front) == Lead(front) + Hyphenated(Words(front)) + Trail(front)
    requires Words(front + [c]) == Words(front) + [[c]]
    requires Words(front) == [] ==> Hyphenated(Words(front)) == []
    ensures Collapse(front + [c]) ==
            Lead(front + [c]) + Hyphenated(Words(front + [c])) + Trail(front + [c])
  {
    CollapseOneMore(front, c);
    hide Collapse, Words, Hyphenated, IsWord, IsAlnum;
    MoreHyphenated(Words(front), [c], c);
    var lead, h := Lead(front), Hyphenated(Words(front));
    assert Trail(front + [c]) == [];
    if Words(front) != [] {
      assert (front + [c])[0] == front[0];
      assert Lead(front + [c]) == lead && Trail(front) == [HYPHEN];
      Regrouped(lead, h, [HYPHEN], [c]);
    } else if front != [] {
      assert (front + [c])[0] == front[0] && !IsAlnum(front[0]);
      assert Lead(front + [c]) == [HYPHEN] && lead == [] && Trail(front) == [HYPHEN];
    }
  }

  lemma OtherCharacter(front: Text, c: byte)
    requires !IsAlnum(c) && Collapse(front) == Lead(front) + Hyphenated(Words(front)) + Trail(front)
    requires Words(front + [c]) == Words(front)
    requires if Words(front) == [] then Hyphenated(Words(front)) == []
             else var h := Hyphenated(Words(front)); h != [] && IsAlnum(h[|h| - 1])
    ensures Collapse(front + [c]) ==
            Lead(front + [c]) + Hyphenated(Words(front + [c])) + Trail(front + [c])
  {
    CollapseOneMore(front, c);
    hide Collapse, Words, Hyphenated;
    assert front != [] ==> (front + [c])[0] == front[0];
  }

  /** A slug is the name's words, lower-cased, with single hyphens between them; without words it is "unknown". */
  lemma SlugIsWords(name: Text)
    ensures Slug(name) == if Words(Fold(name)) == [] then UNKNOWN else Hyphenated(Words(Fold(name)))
  {
    hide Collapse, Words, Hyphenated, LStrip, RStrip;
    var t := Fold(name);
    var h := Hyphenated(Words(t));
    CollapseIsWords(t);
    NoWords();
    if Words(t) != [] {
      HyphenatedEnds(Words(t));
    }
    assert Lead(t) + h + Trail(t) == Lead(t) + (h + Trail(t));
    if Words(t) != [] {
      LStripStops(Lead(t), h + Trail(t), IsHyphen);
      RStripStops(h, Trail(t), IsHyphen);
    } else {
      assert Lead(t) + (h + Trail(t)) == Trail(t) + [];
      assert UNKNOWN[..0] + UNKNOWN[..0] == [];
      LStripStops(Trail(t), [], IsHyphen);
      RStripStops([], [], IsHyphen);
    }
  }

  lemma NoWords()
    ensures Hyphenated([]) == []
  {
  }
}
