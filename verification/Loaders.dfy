/**
  How the source loaders of tools/sigc.py drive a builder: a slug is resolved to an app
  under the license of its source, and rules are then attached to that app under the same
  license, names at tier B, prefixes at tier C and payload patterns at tier A.
*/
module Loaders {
  import opened Wrappers
  import opened Bits
  import opened Claims
  import opened PayloadSpec
  import opened SigcText
  import opened Sigc
  import opened Gates

  /** What a loader does next; a rule names the resolved app it is for, by position. */
  datatype Action =
    | Resolve(slug: Text, license: nat, category: nat)
    | AddDomain(owner: nat, raw: Text, exact: bool, conf: nat)
    | AddCidr(owner: nat, net: Option<Net>, conf: nat)
    | AddPayload(owner: nat, value: seq<byte>, mask: seq<byte>, conf: nat)

  /** An app id in a loader's hands, and the license of the source it came from. */
  datatype Owner = Owner(app: nat, license: nat)

  /** Network addresses have the length of their version. */
  predicate NetOk(a: Action) {
    a.AddCidr? && a.net.Some? ==> |a.net.value.packed| == (if a.net.value.version == 4 then 4 else 16)
  }

  ghost predicate OwnersOk(owners: seq<Owner>, registered: set<(nat, nat)>) {
    forall i :: 0 <= i < |owners| ==>
      owners[i].app == DROPPED || (owners[i].app, owners[i].license) in registered
  }

  /** Names are vendor-owned evidence, prefixes are only corroboration. */
  ghost predicate Tiered(c: Corpus) {
    && (forall d :: d in c.domains ==> d.tier == TIER_B)
    && (forall r :: r in c.cidrs ==> r.tier == TIER_C)
  }

  ghost predicate Disciplined(c: Corpus, registered: set<(nat, nat)>) {
    Attached(c, registered) && Tiered(c)
  }

  lemma MoreRegistered(c: Corpus, c': Corpus, was: set<(nat, nat)>, now: set<(nat, nat)>, owners: seq<Owner>)
    requires Disciplined(c, was) && OwnersOk(owners, was) && was <= now
    requires c'.domains == c.domains && c'.cidrs == c.cidrs && c'.payloads == c.payloads
    ensures Disciplined(c', now) && OwnersOk(owners, now)
  {
  }

  lemma OneMoreOwner(owners: seq<Owner>, o: Owner, registered: set<(nat, nat)>)
    requires OwnersOk(owners, registered)
    requires o.app == DROPPED || (o.app, o.license) in registered
    ensures OwnersOk(owners + [o], registered)
  {
  }

  lemma OneMoreRule(c: Corpus, c': Corpus, registered: set<(nat, nat)>, owners: seq<Owner>, i: nat,
                    ds: seq<DomainRow>, cs: seq<CidrRow>, ps: seq<PayloadRow>)
    requires Disciplined(c, registered) && OwnersOk(owners, registered) && i < |owners|
    requires forall d :: d in ds ==> d.app == owners[i].app && d.lic == owners[i].license && d.tier == TIER_B
    requires forall r :: r in cs ==> r.app == owners[i].app && r.lic == owners[i].license && r.tier == TIER_C
    requires forall r :: r in ps ==> r.app == owners[i].app && r.lic == owners[i].license
    requires c'.domains == c.domains + ds && c'.cidrs == c.cidrs + cs && c'.payloads == c.payloads + ps
    ensures Disciplined(c', registered)
  {
  }

  // ------------------------------------------------------------------ what loading amounts to

  /** A builder's identities and rules, and the apps the loader has resolved. */
  datatype Load = Load(apps: map<Text, nat>, nextId: nat, corpus: Corpus, owners: seq<Owner>)

  const NOTHING_LOADED := Load(map[], 1, Corpus(map[], [], [], []), [])

  /** Names, merged spellings and their apps: curation first, then the identity key. */
  function Resolved(aliases: map<Text, Text>, drops: set<Text>, l: Load, slug: Text, license: nat,
                    category: nat): (r: Load) {
    if slug in drops then l.(owners := l.owners + [Owner(DROPPED, license)])
    else
      var name := if slug in aliases then aliases[slug] else slug;
      var key := IdentityKey(name);
      var known := key in l.apps;
      var aid := if known then l.apps[key] else l.nextId;
      var m := if known && aid in l.corpus.meta then SeenAgain(l.corpus.meta[aid], name, license)
               else AppMeta(name, category, license);
      Load(l.apps[key := aid], l.nextId + (if known then 0 else 1),
           l.corpus.(meta := l.corpus.meta[aid := m]), l.owners + [Owner(aid, license)])
  }

  ghost function WithDomain(c: Corpus, d: DomainRow): (r: Corpus) {
    if HasDomain(c.domains, d.Key()) then c else c.(domains := c.domains + [d])
  }

  ghost function WithCidr(c: Corpus, r: CidrRow): (v: Corpus) {
    if r.app == DROPPED || HasCidr(c.cidrs, r.Key()) then c
    else c.(cidrs := c.cidrs + [r])
  }

  ghost function WithPayload(c: Corpus, r: PayloadRow): (v: Corpus) {
    if r.app == DROPPED || HasPayload(c.payloads, r.Key()) then c
    else c.(payloads := c.payloads + [r])
  }

  /** One action. A rule for an app that was never resolved is an orphan, and skipped. */
  ghost function Act(aliases: map<Text, Text>, drops: set<Text>, l: Load, a: Action): (r: Load)
    requires NetOk(a)
  {
    match a
    case Resolve(slug, license, category) => Resolved(aliases, drops, l, slug, license, category)
    case AddDomain(i, raw, exact, conf) =>
      if i >= |l.owners| || NormalizeDomain(raw, exact).None? then l
      else l.(corpus := WithDomain(l.corpus,
                MakeDomainRow(NormalizeDomain(raw, exact).value, l.owners[i].app, TIER_B, conf, l.owners[i].license)))
    case AddCidr(i, net, conf) =>
      if i >= |l.owners| || net.None? then l
      else l.(corpus := WithCidr(l.corpus, MakeCidrRow(net.value, l.owners[i].app, TIER_C, conf, l.owners[i].license)))
    case AddPayload(i, value, mask, conf) =>
      if i >= |l.owners| || AcceptPattern(value, mask).None? then l
      else l.(corpus := WithPayload(l.corpus,
                PayloadRow(AcceptPattern(value, mask).value.0, mask, l.owners[i].app, TIER_A, conf,
                           l.owners[i].license)))
  }

  ghost function LoadAll(aliases: map<Text, Text>, drops: set<Text>, actions: seq<Action>): (r: Load)
    requires forall i :: 0 <= i < |actions| ==> NetOk(actions[i])
  {
    if |actions| == 0 then NOTHING_LOADED
    else Act(aliases, drops, LoadAll(aliases, drops, actions[..|actions| - 1]), actions[|actions| - 1])
  }

  lemma ActKeepsDomains(aliases: map<Text, Text>, drops: set<Text>, l: Load, a: Action)
    requires NetOk(a)
    ensures l.corpus.domains <= Act(aliases, drops, l, a).corpus.domains
  {
    hide NormalizeDomain, AcceptPattern, IdentityKey, HasDomain, HasCidr, HasPayload;
  }

  lemma ActAddsDomain(aliases: map<Text, Text>, drops: set<Text>, l: Load, a: Action)
    requires NetOk(a) && a.AddDomain? && a.owner < |l.owners| && NormalizeDomain(a.raw, a.exact).Some?
    ensures HasDomain(Act(aliases, drops, l, a).corpus.domains,
                      DomainKey(NormalizeDomain(a.raw, a.exact).value, l.owners[a.owner].app))
  {
    hide NormalizeDomain;
    var row := MakeDomainRow(NormalizeDomain(a.raw, a.exact).value, l.owners[a.owner].app, TIER_B, a.conf,
                             l.owners[a.owner].license);
    var now := WithDomain(l.corpus, row).domains;
    if now != l.corpus.domains {
      assert now[|l.corpus.domains|].Key() == row.Key();
    }
  }

  /**
    Whatever else is loaded before and after: a usable name added for a resolved app is in
    the corpus, under that app and of its kind.
  */
  lemma {:induction false} AddedIsThere(aliases: map<Text, Text>, drops: set<Text>, actions: seq<Action>, i: nat)
    requires forall j :: 0 <= j < |actions| ==> NetOk(actions[j])
    requires i < |actions| && actions[i].AddDomain? && NormalizeDomain(actions[i].raw, actions[i].exact).Some?
    requires actions[i].owner < |LoadAll(aliases, drops, actions[..i]).owners|
    ensures HasDomain(LoadAll(aliases, drops, actions).corpus.domains,
                      DomainKey(NormalizeDomain(actions[i].raw, actions[i].exact).value,
                                LoadAll(aliases, drops, actions[..i]).owners[actions[i].owner].app))
    decreases |actions|
  {
    hide Act, NormalizeDomain, NetOk;
    var n := |actions| - 1;
    var l := LoadAll(aliases, drops, actions[..n]);
    if i == n {
      ActAddsDomain(aliases, drops, l, actions[n]);
    } else {
      assert actions[..n][..i] == actions[..i];
      AddedIsThere(aliases, drops, actions[..n], i);
      ActKeepsDomains(aliases, drops, l, actions[n]);
      KeyInLonger(l.corpus.domains, Act(aliases, drops, l, actions[n]).corpus.domains,
                  DomainKey(NormalizeDomain(actions[i].raw, actions[i].exact).value,
                            LoadAll(aliases, drops, actions[..i]).owners[actions[i].owner].app));
    }
  }

  lemma ActLeavesDomains(aliases: map<Text, Text>, drops: set<Text>, l: Load, a: Action)
    requires NetOk(a) && !a.AddDomain?
    ensures Act(aliases, drops, l, a).corpus.domains == l.corpus.domains
  {
    hide NormalizeDomain, AcceptPattern, IdentityKey, HasCidr, HasPayload;
  }

  /** Sources without names, loaded after the others, leave the names as they are. */
  lemma {:induction false} NamelessSources(aliases: map<Text, Text>, drops: set<Text>, actions: seq<Action>,
                                           more: seq<Action>)
    requires forall j :: 0 <= j < |actions + more| ==> NetOk((actions + more)[j])
    requires forall a :: a in more ==> !a.AddDomain?
    ensures forall j :: 0 <= j < |actions| ==> NetOk(actions[j])
    ensures LoadAll(aliases, drops, actions + more).corpus.domains == LoadAll(aliases, drops, actions).corpus.domains
    decreases |more|
  {
    hide Act, NetOk;
    assert forall j :: 0 <= j < |actions| ==> actions[j] == (actions + more)[j];
    if more == [] {
      assert actions + more == actions;
    } else {
      var n := |more| - 1;
      assert (actions + more)[..|actions| + n] == actions + more[..n];
      assert (actions + more)[|actions| + n] == more[n];
      NamelessSources(aliases, drops, actions, more[..n]);
      ActLeavesDomains(aliases, drops, LoadAll(aliases, drops, actions + more[..n]), more[n]);
    }
  }

  lemma KeyInLonger(rows: seq<DomainRow>, more: seq<DomainRow>, k: (Text, nat, nat))
    requires rows <= more && HasDomain(rows, k)
    ensures HasDomain(more, k)
  {
    var i :| 0 <= i < |rows| && rows[i].Key() == k;
    assert more[i] == rows[i];
  }

  // ------------------------------------------------------------------ the loaders

  ghost function Loaded(b: Builder, owners: seq<Owner>): (r: Load)
    reads b
  {
    Load(b.apps, b.nextId, b.Contents(), owners)
  }

  lemma AcceptedMask(value: seq<byte>, mask: seq<byte>)
    ensures AcceptPattern(value, mask).Some? ==> AcceptPattern(value, mask).value.1 == mask
  {
  }

  method AttachDomain(b: Builder, owners: seq<Owner>, a: Action)
    requires b.Valid() && Disciplined(b.Contents(), b.registered) && OwnersOk(owners, b.registered) && NetOk(a)
    requires a.AddDomain?
    modifies b
    ensures b.Valid() && Disciplined(b.Contents(), b.registered) && OwnersOk(owners, b.registered)
    ensures Loaded(b, owners) == Act(b.aliases, b.drops, old(Loaded(b, owners)), a)
  {
    hide Disciplined, OwnersOk, Builder.Valid, NormalizeDomain, AcceptPattern, PinsReservedFraming, AllWild;
    hide HasDomain, HasCidr, HasPayload;
    var i, raw, exact, conf := a.owner, a.raw, a.exact, a.conf;
    if i >= |owners| {
      return;
    }
    SeenIsKeys(b);
    ghost var c := b.Contents();
    var ok := b.Domain(raw, owners[i].app, exact, TIER_B, conf, owners[i].license);
    OneMoreRule(c, b.Contents(), b.registered, owners, i, b.domains[|c.domains|..], [], []);
  }

  method AttachCidr(b: Builder, owners: seq<Owner>, a: Action)
    requires b.Valid() && Disciplined(b.Contents(), b.registered) && OwnersOk(owners, b.registered) && NetOk(a)
    requires a.AddCidr?
    modifies b
    ensures b.Valid() && Disciplined(b.Contents(), b.registered) && OwnersOk(owners, b.registered)
    ensures Loaded(b, owners) == Act(b.aliases, b.drops, old(Loaded(b, owners)), a)
  {
    hide Disciplined, OwnersOk, Builder.Valid, NormalizeDomain, AcceptPattern, PinsReservedFraming, AllWild;
    hide HasDomain, HasCidr, HasPayload;
    var i, net, conf := a.owner, a.net, a.conf;
    if i >= |owners| {
      return;
    }
    SeenIsKeys(b);
    ghost var c := b.Contents();
    var ok := b.Cidr(net, owners[i].app, TIER_C, conf, owners[i].license);
    OneMoreRule(c, b.Contents(), b.registered, owners, i, [], b.cidrs[|c.cidrs|..], []);
  }

  method AttachPayload(b: Builder, owners: seq<Owner>, a: Action)
    requires b.Valid() && Disciplined(b.Contents(), b.registered) && OwnersOk(owners, b.registered) && NetOk(a)
    requires a.AddPayload?
    modifies b
    ensures b.Valid() && Disciplined(b.Contents(), b.registered) && OwnersOk(owners, b.registered)
    ensures Loaded(b, owners) == Act(b.aliases, b.drops, old(Loaded(b, owners)), a)
  {
    hide Disciplined, OwnersOk, Builder.Valid, NormalizeDomain, AcceptPattern, PinsReservedFraming, AllWild;
    hide HasDomain, HasCidr, HasPayload;
    var i, value, mask, conf := a.owner, a.value, a.mask, a.conf;
    if i >= |owners| {
      return;
    }
    SeenIsKeys(b);
    AcceptedMask(value, mask);
    ghost var c := b.Contents();
    var ok := b.Payload(value, mask, owners[i].app, TIER_A, conf, owners[i].license);
    OneMoreRule(c, b.Contents(), b.registered, owners, i, [], [], b.payloads[|c.payloads|..]);
  }

  method ResolveSlug(b: Builder, owners: seq<Owner>, a: Action) returns (now: seq<Owner>)
    requires b.Valid() && Disciplined(b.Contents(), b.registered) && OwnersOk(owners, b.registered) && NetOk(a)
    requires a.Resolve?
    modifies b
    ensures b.Valid() && Disciplined(b.Contents(), b.registered) && OwnersOk(now, b.registered)
    ensures Loaded(b, now) == Act(b.aliases, b.drops, old(Loaded(b, owners)), a)
  {
    hide Disciplined, OwnersOk, Builder.Valid, IdentityKey;
    ghost var c, was := b.Contents(), b.registered;
    var aid := b.App(a.slug, a.license, a.category);
    MoreRegistered(c, b.Contents(), was, b.registered, owners);
    OneMoreOwner(owners, Owner(aid, a.license), b.registered);
    now := owners + [Owner(aid, a.license)];
  }

  /** The builder method that belongs to an action. */
  method Perform(b: Builder, owners: seq<Owner>, a: Action) returns (now: seq<Owner>)
    requires b.Valid() && Disciplined(b.Contents(), b.registered) && OwnersOk(owners, b.registered) && NetOk(a)
    modifies b
    ensures b.Valid() && Disciplined(b.Contents(), b.registered) && OwnersOk(now, b.registered)
    ensures Loaded(b, now) == Act(b.aliases, b.drops, old(Loaded(b, owners)), a)
  {
    hide Disciplined, OwnersOk, Builder.Valid, Act, Loaded, NetOk;
    now := owners;
    match a
    case Resolve(_, _, _) => now := ResolveSlug(b, owners, a);
    case AddDomain(_, _, _, _) => AttachDomain(b, owners, a);
    case AddCidr(_, _, _) => AttachCidr(b, owners, a);
    case AddPayload(_, _, _, _) => AttachPayload(b, owners, a);
  }

  /**
    Any loading, from an empty builder: the builder has exactly what the actions amount to.
    Every rule's license is one its app was registered with, so the compile-time and the
    load-time license gate agree at every level.
  */
  method LoadSources(aliases: map<Text, Text>, drops: set<Text>, actions: seq<Action>) returns (b: Builder)
    requires forall i :: 0 <= i < |actions| ==> NetOk(actions[i])
    ensures fresh(b) && b.Valid() && b.aliases == aliases && b.drops == drops
    ensures b.Contents() == LoadAll(aliases, drops, actions).corpus
    ensures b.nextId == LoadAll(aliases, drops, actions).nextId
    ensures Attached(b.Contents(), b.registered) && Tiered(b.Contents())
    ensures forall hi: nat :: AllRespect(b.Contents(), hi)
  {
    hide NetOk, AllRespect, DenseIds, LicensesAreMinimal, Act;
    b := new Builder(aliases, drops);
    var owners: seq<Owner> := [];
    for i := 0 to |actions|
      invariant fresh(b) && b.Valid() && b.aliases == aliases && b.drops == drops
      invariant Disciplined(b.Contents(), b.registered) && OwnersOk(owners, b.registered)
      invariant Loaded(b, owners) == LoadAll(aliases, drops, actions[..i])
    {
      hide Builder.Valid, Disciplined, OwnersOk;
      assert actions[..i + 1][..i] == actions[..i];
      owners := Perform(b, owners, actions[i]);
    }
    assert actions[..|actions|] == actions;
    forall hi: nat ensures AllRespect(b.Contents(), hi) {
      AttachedRespect(b.Contents(), b.nextId, b.registered, hi);
    }
  }
}
