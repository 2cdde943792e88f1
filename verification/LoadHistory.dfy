/**
  What a load amounts to, told from its actions: which slugs share an app, and from which
  action each rule comes.
*/
module LoadHistory {
  import opened Wrappers
  import opened Bits
  import opened SigcText
  import opened Sigc
  import opened Loaders

  // ------------------------------------------------------------------ identities

  /** What a slug is looked up by: curation's spelling, if it has one, without separators. */
  function Identity(aliases: map<Text, Text>, slug: Text): (k: Text) {
    IdentityKey(if slug in aliases then aliases[slug] else slug)
  }

  /** Ids are handed out one by one, one per identity, and 0 to none. */
  ghost predicate AppsOk(l: Load) {
    && l.nextId >= 1
    && (forall k :: k in l.apps ==> 1 <= l.apps[k] < l.nextId)
    && (forall k, m :: k in l.apps && m in l.apps && l.apps[k] == l.apps[m] ==> k == m)
  }

  /** The load may go on to be the other: owners and identities are only ever added. */
  ghost predicate GoesOn(l: Load, m: Load) {
    && l.owners <= m.owners
    && forall k :: k in l.apps ==> k in m.apps && m.apps[k] == l.apps[k]
  }

  lemma ActGoesOn(aliases: map<Text, Text>, drops: set<Text>, l: Load, a: Action)
    requires NetOk(a) && AppsOk(l)
    ensures var m := Act(aliases, drops, l, a);
      && AppsOk(m) && GoesOn(l, m)
      && (a.Resolve? && a.slug in drops ==> m.owners == l.owners + [Owner(DROPPED, a.license)])
      && (a.Resolve? && a.slug !in drops ==>
            var key := Identity(aliases, a.slug);
            key in m.apps && m.owners == l.owners + [Owner(m.apps[key], a.license)])
  {
    hide NormalizeDomain, AcceptPattern, IdentityKey, HasDomain, HasCidr, HasPayload, SeenAgain;
  }

  lemma {:induction false} LoadGoesOn(aliases: map<Text, Text>, drops: set<Text>, actions: seq<Action>, i: nat)
    requires i <= |actions| && forall j :: 0 <= j < |actions| ==> NetOk(actions[j])
    ensures AppsOk(LoadAll(aliases, drops, actions))
    ensures GoesOn(LoadAll(aliases, drops, actions[..i]), LoadAll(aliases, drops, actions))
    decreases |actions|
  {
    hide Act, NetOk;
    if i == |actions| {
      assert actions[..i] == actions;
    }
    if |actions| > 0 {
      var n := |actions| - 1;
      LoadGoesOn(aliases, drops, actions[..n], if i < n then i else n);
      assert i <= n ==> actions[..n][..i] == actions[..i];
      ActGoesOn(aliases, drops, LoadAll(aliases, drops, actions[..n]), actions[n]);
    }
  }

  /** The place a resolved app has among the owners. */
  ghost function PlaceOf(aliases: map<Text, Text>, drops: set<Text>, actions: seq<Action>, i: nat): (p: nat)
    requires i < |actions| && forall j :: 0 <= j < |actions| ==> NetOk(actions[j])
  {
    |LoadAll(aliases, drops, actions[..i]).owners|
  }

  /** What action `i` resolved to, at the end of the load. */
  lemma ResolvedTo(aliases: map<Text, Text>, drops: set<Text>, actions: seq<Action>, i: nat)
    requires i < |actions| && forall j :: 0 <= j < |actions| ==> NetOk(actions[j])
    requires actions[i].Resolve?
    ensures var l, p := LoadAll(aliases, drops, actions), PlaceOf(aliases, drops, actions, i);
      && p < |l.owners| && l.owners[p].license == actions[i].license
      && (actions[i].slug in drops ==> l.owners[p].app == DROPPED)
      && (actions[i].slug !in drops ==>
            var key := Identity(aliases, actions[i].slug);
            key in l.apps && l.owners[p].app == l.apps[key] != DROPPED)
  {
    hide Act, NetOk, AppsOk, GoesOn, Identity;
    var was := LoadAll(aliases, drops, actions[..i]);
    assert actions[..i + 1][..i] == actions[..i];
    LoadGoesOn(aliases, drops, actions[..i], i);
    LoadGoesOn(aliases, drops, actions, i + 1);
    ActGoesOn(aliases, drops, was, actions[i]);
    StaysResolved(aliases, drops, was, actions[i], LoadAll(aliases, drops, actions));
  }

  lemma StaysResolved(aliases: map<Text, Text>, drops: set<Text>, l: Load, a: Action, m: Load)
    requires NetOk(a) && AppsOk(l) && a.Resolve? && AppsOk(m) && GoesOn(Act(aliases, drops, l, a), m)
    ensures var p := |l.owners|;
      && p < |m.owners| && m.owners[p].license == a.license
      && (a.slug in drops ==> m.owners[p].app == DROPPED)
      && (a.slug !in drops ==>
            var key := Identity(aliases, a.slug); key in m.apps && m.owners[p].app == m.apps[key] != DROPPED)
  {
    hide Act, Identity;
    ActGoesOn(aliases, drops, l, a);
    var p := |l.owners|;
    assert m.owners[p] == Act(aliases, drops, l, a).owners[p];
  }

  /**
    Over every load: a slug stands for no app exactly if curation drops it, and two slugs stand
    for one app exactly if their letters and digits agree after curation's renaming.
  */
  lemma SameAppIff(aliases: map<Text, Text>, drops: set<Text>, actions: seq<Action>, i: nat, j: nat)
    requires forall k :: 0 <= k < |actions| ==> NetOk(actions[k])
    requires i < |actions| && j < |actions| && actions[i].Resolve? && actions[j].Resolve?
    ensures var owners := LoadAll(aliases, drops, actions).owners;
      var p, q := PlaceOf(aliases, drops, actions, i), PlaceOf(aliases, drops, actions, j);
      && p < |owners| && q < |owners|
      && (owners[p].app == DROPPED <==> actions[i].slug in drops)
      && (actions[i].slug !in drops && actions[j].slug !in drops ==>
            (owners[p].app == owners[q].app <==>
             Identity(aliases, actions[i].slug) == Identity(aliases, actions[j].slug)))
  {
    hide Act, NetOk, LoadAll, Identity;
    ResolvedTo(aliases, drops, actions, i);
    ResolvedTo(aliases, drops, actions, j);
    LoadGoesOn(aliases, drops, actions, 0);
  }

  /** The first action that resolves a slug of this identity. */
  ghost function FirstResolved(aliases: map<Text, Text>, drops: set<Text>, actions: seq<Action>, key: Text)
    : (i: Option<nat>)
    ensures i.Some? ==> i.value < |actions| && actions[i.value].Resolve?
  {
    if |actions| == 0 then None
    else
      var n := |actions| - 1;
      var front := FirstResolved(aliases, drops, actions[..n], key);
      if front.Some? then front
      else if actions[n].Resolve? && actions[n].slug !in drops && Identity(aliases, actions[n].slug) == key then Some(n)
      else None
  }

  lemma {:induction false} FirstResolvedIsFirst(aliases: map<Text, Text>, drops: set<Text>, actions: seq<Action>,
                                                key: Text)
    ensures match FirstResolved(aliases, drops, actions, key)
      case None =>
        forall j :: 0 <= j < |actions| && actions[j].Resolve? && actions[j].slug !in drops ==>
          Identity(aliases, actions[j].slug) != key
      case Some(i) =>
        && actions[i].slug !in drops && Identity(aliases, actions[i].slug) == key
        && forall j :: 0 <= j < i && actions[j].Resolve? && actions[j].slug !in drops ==>
             Identity(aliases, actions[j].slug) != key
  {
    hide Identity;
    if |actions| > 0 {
      var front := actions[..|actions| - 1];
      FirstResolvedIsFirst(aliases, drops, front, key);
      assert forall j :: 0 <= j < |front| ==> actions[j] == front[j];
    }
  }

  /** The app of an identity has the category it was first seen with, and no stricter license than any source of it. */
  ghost predicate MetaOk(aliases: map<Text, Text>, drops: set<Text>, actions: seq<Action>, l: Load, key: Text) {
    var first := FirstResolved(aliases, drops, actions, key);
    && (key in l.apps <==> first.Some?)
    && (key in l.apps ==>
          && l.apps[key] in l.corpus.meta
          && l.corpus.meta[l.apps[key]].category == actions[first.value].category
          && forall j :: 0 <= j < |actions| && actions[j].Resolve? && actions[j].slug !in drops &&
                         Identity(aliases, actions[j].slug) == key ==>
               l.corpus.meta[l.apps[key]].license <= actions[j].license)
  }

  lemma ActKeepsMeta(aliases: map<Text, Text>, drops: set<Text>, actions: seq<Action>, l: Load, key: Text)
    requires actions != [] && NetOk(actions[|actions| - 1]) && AppsOk(l)
    requires forall k :: k in l.apps ==> l.apps[k] in l.corpus.meta
    requires MetaOk(aliases, drops, actions[..|actions| - 1], l, key)
    ensures var m := Act(aliases, drops, l, actions[|actions| - 1]);
      MetaOk(aliases, drops, actions, m, key) && forall k :: k in m.apps ==> m.apps[k] in m.corpus.meta
  {
    hide NormalizeDomain, AcceptPattern, IdentityKey, HasDomain, HasCidr, HasPayload, FirstResolved;
    var front, a := actions[..|actions| - 1], actions[|actions| - 1];
    var m := Act(aliases, drops, l, a);
    OneMoreResolved(aliases, drops, actions, key);
    FirstResolvedIsFirst(aliases, drops, front, key);
    assert forall j :: 0 <= j < |front| ==> actions[j] == front[j];
    if a.Resolve? && a.slug !in drops && Identity(aliases, a.slug) == key {
      assert m.corpus.meta[m.apps[key]].license <= a.license;
    } else if key in l.apps {
      assert m.apps[key] == l.apps[key] && m.corpus.meta[l.apps[key]] == l.corpus.meta[l.apps[key]];
    }
  }

  lemma OneMoreResolved(aliases: map<Text, Text>, drops: set<Text>, actions: seq<Action>, key: Text)
    requires actions != []
    ensures var n := |actions| - 1;
      var front := FirstResolved(aliases, drops, actions[..n], key);
      FirstResolved(aliases, drops, actions, key) ==
      if front.Some? then front
      else if actions[n].Resolve? && actions[n].slug !in drops && Identity(aliases, actions[n].slug) == key then Some(n)
      else None
  {
  }

  /** Over every load, whatever the order of the sources. */
  lemma {:induction false} FirstCategoryStays(aliases: map<Text, Text>, drops: set<Text>, actions: seq<Action>,
                                              key: Text)
    requires forall j :: 0 <= j < |actions| ==> NetOk(actions[j])
    ensures var l := LoadAll(aliases, drops, actions);
      MetaOk(aliases, drops, actions, l, key) && forall k :: k in l.apps ==> l.apps[k] in l.corpus.meta
  {
    if |actions| > 0 {
      hide Act, MetaOk, NetOk, AppsOk;
      var n := |actions| - 1;
      FirstCategoryStays(aliases, drops, actions[..n], key);
      LoadGoesOn(aliases, drops, actions[..n], n);
      ActKeepsMeta(aliases, drops, actions, LoadAll(aliases, drops, actions[..n]), key);
    }
  }

  // ------------------------------------------------------------------ provenance of rules

  /** The domain rule an action lists, given the apps resolved by then. */
  ghost function ListedDomain(owners: seq<Owner>, a: Action): (d: Option<DomainRow>) {
    if a.AddDomain? && a.owner < |owners| && NormalizeDomain(a.raw, a.exact).Some? then
      var n, o := NormalizeDomain(a.raw, a.exact).value, owners[a.owner];
      Some(DomainRow(n.name, o.app, if n.exact then 1 else 0, a.conf, 1, o.license))
    else None
  }

  ghost function ListedCidr(owners: seq<Owner>, a: Action): (r: Option<CidrRow>)
    requires NetOk(a)
  {
    if a.AddCidr? && a.owner < |owners| && a.net.Some? && owners[a.owner].app != DROPPED then
      var n, o := a.net.value, owners[a.owner];
      Some(CidrRow(n.packed + seq(16 - |n.packed|, _ => 0), o.app, n.prefixLen, if n.version == 4 then 4 else 6,
                   2, a.conf, o.license))
    else None
  }

  ghost function ListedPayload(owners: seq<Owner>, a: Action): (r: Option<PayloadRow>) {
    if a.AddPayload? && a.owner < |owners| && AcceptPattern(a.value, a.mask).Some? &&
       owners[a.owner].app != DROPPED then
      var o := owners[a.owner];
      Some(PayloadRow(AcceptPattern(a.value, a.mask).value.0, a.mask, o.app, 0, a.conf, o.license))
    else None
  }

  /** What the actions list of one kind, one entry for each. */
  ghost function DomainList(aliases: map<Text, Text>, drops: set<Text>, actions: seq<Action>)
    : (ls: seq<Option<DomainRow>>)
    requires forall j :: 0 <= j < |actions| ==> NetOk(actions[j])
    ensures |ls| == |actions|
  {
    if |actions| == 0 then []
    else
      var n := |actions| - 1;
      DomainList(aliases, drops, actions[..n]) +
      [ListedDomain(LoadAll(aliases, drops, actions[..n]).owners, actions[n])]
  }

  ghost function CidrList(aliases: map<Text, Text>, drops: set<Text>, actions: seq<Action>)
    : (ls: seq<Option<CidrRow>>)
    requires forall j :: 0 <= j < |actions| ==> NetOk(actions[j])
    ensures |ls| == |actions|
  {
    if |actions| == 0 then []
    else
      var n := |actions| - 1;
      CidrList(aliases, drops, actions[..n]) +
      [ListedCidr(LoadAll(aliases, drops, actions[..n]).owners, actions[n])]
  }

  ghost function PayloadList(aliases: map<Text, Text>, drops: set<Text>, actions: seq<Action>)
    : (ls: seq<Option<PayloadRow>>)
    requires forall j :: 0 <= j < |actions| ==> NetOk(actions[j])
    ensures |ls| == |actions|
  {
    if |actions| == 0 then []
    else
      var n := |actions| - 1;
      PayloadList(aliases, drops, actions[..n]) +
      [ListedPayload(LoadAll(aliases, drops, actions[..n]).owners, actions[n])]
  }

  /** Entry `i` is the first with its key. */
  ghost predicate IsFirst<R(!new), K(!new)>(ls: seq<Option<R>>, key: R -> K, i: nat) {
    && i < |ls| && ls[i].Some?
    && forall j :: 0 <= j < i ==> ls[j].None? || key(ls[j].value) != key(ls[i].value)
  }

  /** The rows are those entries that are the first with their key. */
  ghost predicate FirstOfEach<R(!new), K(!new)>(rows: seq<R>, ls: seq<Option<R>>, key: R -> K) {
    forall r :: r in rows <==> exists i: nat :: IsFirst(ls, key, i) && ls[i] == Some(r)
  }

  /** Some row has the key of each entry. */
  lemma {:induction false} KeyIsThere<R(!new), K(!new)>(rows: seq<R>, ls: seq<Option<R>>, key: R -> K, j: nat)
    requires FirstOfEach(rows, ls, key) && j < |ls| && ls[j].Some?
    ensures exists r :: r in rows && key(r) == key(ls[j].value)
    decreases j
  {
    if IsFirst(ls, key, j) {
      assert ls[j].value in rows;
    } else {
      var i :| 0 <= i < j && ls[i].Some? && key(ls[i].value) == key(ls[j].value);
      KeyIsThere(rows, ls, key, i);
    }
  }

  lemma OneMoreEntry<R(!new), K(!new)>(rows: seq<R>, ls: seq<Option<R>>, key: R -> K, x: Option<R>, now: seq<R>)
    requires FirstOfEach(rows, ls, key)
    requires now == Added(rows, x, key)
    ensures FirstOfEach(now, ls + [x], key)
  {
    var n, more := |ls|, ls + [x];
    StillFirst(ls, key, x);
    if IsFirst(more, key, n) {
      forall r | r in rows ensures key(r) != key(x.value) {
        var i: nat :| IsFirst(ls, key, i) && ls[i] == Some(r);
        assert more[i] == ls[i];
      }
    } else if x.Some? {
      var j :| 0 <= j < n && more[j].Some? && key(more[j].value) == key(x.value);
      KeyIsThere(rows, ls, key, j);
    }
    forall r | r in now ensures exists i: nat :: IsFirst(more, key, i) && more[i] == Some(r) {
      if r in rows {
        var i: nat :| IsFirst(ls, key, i) && ls[i] == Some(r);
        assert IsFirst(more, key, i) && more[i] == Some(r);
      } else {
        assert IsFirst(more, key, n) && more[n] == Some(r);
      }
    }
    forall r, i: nat | IsFirst(more, key, i) && more[i] == Some(r) ensures r in now {
      if i < n {
        assert IsFirst(ls, key, i) && ls[i] == Some(r);
      }
    }
  }

  lemma StillFirst<R(!new), K(!new)>(ls: seq<Option<R>>, key: R -> K, x: Option<R>)
    ensures forall i: nat :: i < |ls| ==> (IsFirst(ls + [x], key, i) <==> IsFirst(ls, key, i))
  {
    var more := ls + [x];
    forall i: nat | i < |ls| ensures IsFirst(more, key, i) <==> IsFirst(ls, key, i) {
      assert more[i] == ls[i] && forall j :: 0 <= j < i ==> more[j] == ls[j];
    }
  }

  function DomainRowKey(): (f: DomainRow -> (Text, nat, nat)) { (d: DomainRow) => d.Key() }
  function CidrRowKey(): (f: CidrRow -> (seq<byte>, nat, nat, nat)) { (r: CidrRow) => r.Key() }
  function PayloadRowKey(): (f: PayloadRow -> (seq<byte>, seq<byte>, nat)) { (r: PayloadRow) => r.Key() }

  /** What one action adds, of each kind: its listed rule, unless there is one with its key. */
  ghost function Added<R(!new), K(!new)>(rows: seq<R>, x: Option<R>, key: R -> K): (now: seq<R>) {
    if x.Some? && forall r :: r in rows ==> key(r) != key(x.value) then rows + [x.value] else rows
  }

  lemma NoDomainWith(rows: seq<DomainRow>, k: (Text, nat, nat))
    ensures !HasDomain(rows, k) <==> forall r :: r in rows ==> DomainRowKey()(r) != k
  {
    if forall r :: r in rows ==> DomainRowKey()(r) != k {
      forall i | 0 <= i < |rows| ensures rows[i].Key() != k {
        assert DomainRowKey()(rows[i]) != k;
      }
    }
  }

  lemma NoCidrWith(rows: seq<CidrRow>, k: (seq<byte>, nat, nat, nat))
    ensures !HasCidr(rows, k) <==> forall r :: r in rows ==> CidrRowKey()(r) != k
  {
    if forall r :: r in rows ==> CidrRowKey()(r) != k {
      forall i | 0 <= i < |rows| ensures rows[i].Key() != k {
        assert CidrRowKey()(rows[i]) != k;
      }
    }
  }

  lemma NoPayloadWith(rows: seq<PayloadRow>, k: (seq<byte>, seq<byte>, nat))
    ensures !HasPayload(rows, k) <==> forall r :: r in rows ==> PayloadRowKey()(r) != k
  {
    if forall r :: r in rows ==> PayloadRowKey()(r) != k {
      forall i | 0 <= i < |rows| ensures rows[i].Key() != k {
        assert PayloadRowKey()(rows[i]) != k;
      }
    }
  }

  lemma ActAddsDomains(aliases: map<Text, Text>, drops: set<Text>, l: Load, a: Action)
    requires NetOk(a)
    ensures Act(aliases, drops, l, a).corpus.domains ==
            Added(l.corpus.domains, ListedDomain(l.owners, a), DomainRowKey())
  {
    hide NormalizeDomain, AcceptPattern, IdentityKey, SeenAgain, HasCidr, HasPayload;
    if ListedDomain(l.owners, a).Some? {
      NoDomainWith(l.corpus.domains, ListedDomain(l.owners, a).value.Key());
    }
  }

  lemma ActAddsCidrs(aliases: map<Text, Text>, drops: set<Text>, l: Load, a: Action)
    requires NetOk(a)
    ensures Act(aliases, drops, l, a).corpus.cidrs ==
            Added(l.corpus.cidrs, ListedCidr(l.owners, a), CidrRowKey())
  {
    hide NormalizeDomain, AcceptPattern, IdentityKey, SeenAgain, HasDomain, HasPayload;
    if ListedCidr(l.owners, a).Some? {
      NoCidrWith(l.corpus.cidrs, ListedCidr(l.owners, a).value.Key());
    }
  }

  lemma ActAddsPayloads(aliases: map<Text, Text>, drops: set<Text>, l: Load, a: Action)
    requires NetOk(a)
    ensures Act(aliases, drops, l, a).corpus.payloads ==
            Added(l.corpus.payloads, ListedPayload(l.owners, a), PayloadRowKey())
  {
    hide NormalizeDomain, AcceptPattern, IdentityKey, SeenAgain, HasDomain, HasCidr;
    if ListedPayload(l.owners, a).Some? {
      NoPayloadWith(l.corpus.payloads, ListedPayload(l.owners, a).value.Key());
    }
  }

  /**
    Over every load: a rule is in the corpus exactly if some action lists it, with that app,
    tier, confidence and license, and no action before lists one with the same key.
  */
  lemma {:induction false} RulesAreListed(aliases: map<Text, Text>, drops: set<Text>, actions: seq<Action>)
    requires forall j :: 0 <= j < |actions| ==> NetOk(actions[j])
    ensures var c := LoadAll(aliases, drops, actions).corpus;
      && FirstOfEach(c.domains, DomainList(aliases, drops, actions), DomainRowKey())
      && FirstOfEach(c.cidrs, CidrList(aliases, drops, actions), CidrRowKey())
      && FirstOfEach(c.payloads, PayloadList(aliases, drops, actions), PayloadRowKey())
  {
    if |actions| > 0 {
      hide Act, NetOk, FirstOfEach, Added, ListedDomain, ListedCidr, ListedPayload;
      hide DomainRowKey, CidrRowKey, PayloadRowKey;
      var n := |actions| - 1;
      var l, c := LoadAll(aliases, drops, actions[..n]), LoadAll(aliases, drops, actions).corpus;
      RulesAreListed(aliases, drops, actions[..n]);
      ActAddsDomains(aliases, drops, l, actions[n]);
      ActAddsCidrs(aliases, drops, l, actions[n]);
      ActAddsPayloads(aliases, drops, l, actions[n]);
      OneMoreEntry(l.corpus.domains, DomainList(aliases, drops, actions[..n]), DomainRowKey(),
                   ListedDomain(l.owners, actions[n]), c.domains);
      OneMoreEntry(l.corpus.cidrs, CidrList(aliases, drops, actions[..n]), CidrRowKey(),
                   ListedCidr(l.owners, actions[n]), c.cidrs);
      OneMoreEntry(l.corpus.payloads, PayloadList(aliases, drops, actions[..n]), PayloadRowKey(),
                   ListedPayload(l.owners, actions[n]), c.payloads);
    }
  }

  /** Entry `i` is what action `i` lists. */
  lemma {:induction false} ListsByAction(aliases: map<Text, Text>, drops: set<Text>, actions: seq<Action>, i: nat)
    requires i < |actions| && forall j :: 0 <= j < |actions| ==> NetOk(actions[j])
    ensures var owners := LoadAll(aliases, drops, actions[..i]).owners;
      && DomainList(aliases, drops, actions)[i] == ListedDomain(owners, actions[i])
      && CidrList(aliases, drops, actions)[i] == ListedCidr(owners, actions[i])
      && PayloadList(aliases, drops, actions)[i] == ListedPayload(owners, actions[i])
    decreases |actions|
  {
    hide NetOk, LoadAll, ListedDomain, ListedCidr, ListedPayload;
    var n := |actions| - 1;
    if i < n {
      assert actions[..n][..i] == actions[..i];
      ListsByAction(aliases, drops, actions[..n], i);
    }
  }

  /** A listed prefix or pattern is in the corpus, under its key. */
  lemma ListedIsThere(aliases: map<Text, Text>, drops: set<Text>, actions: seq<Action>, i: nat)
    requires i < |actions| && forall j :: 0 <= j < |actions| ==> NetOk(actions[j])
    ensures var owners, c := LoadAll(aliases, drops, actions[..i]).owners, LoadAll(aliases, drops, actions).corpus;
      && (ListedCidr(owners, actions[i]).Some? ==>
            exists r :: r in c.cidrs && r.Key() == ListedCidr(owners, actions[i]).value.Key())
      && (ListedPayload(owners, actions[i]).Some? ==>
            exists r :: r in c.payloads && r.Key() == ListedPayload(owners, actions[i]).value.Key())
  {
    hide NetOk, LoadAll, ListedCidr, ListedPayload, FirstOfEach, CidrList, PayloadList, DomainList;
    var c := LoadAll(aliases, drops, actions).corpus;
    RulesAreListed(aliases, drops, actions);
    ListsByAction(aliases, drops, actions, i);
    if CidrList(aliases, drops, actions)[i].Some? {
      KeyIsThere(c.cidrs, CidrList(aliases, drops, actions), CidrRowKey(), i);
    }
    if PayloadList(aliases, drops, actions)[i].Some? {
      KeyIsThere(c.payloads, PayloadList(aliases, drops, actions), PayloadRowKey(), i);
    }
  }
}
