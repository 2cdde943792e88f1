/**
  The two license gates: compiling a database at a license level, and loading a full
  database with a license limit. They admit the same rules exactly when no rule carries a
  more permissive license than its app, which is so when every rule is attached under the
  license its app was registered with.
*/
module Gates {
  import opened Sigc
  import opened Serialize

  // ------------------------------------------------------------------ the condition

  /** A rule that survives at `hi` is not licensed more permissively than its app. */
  predicate Respects(meta: map<nat, AppMeta>, app: nat, lic: nat, hi: nat) {
    KeepsApp(meta, app, hi) && lic <= hi ==> meta[app].license <= lic
  }

  ghost predicate AllRespect(c: Corpus, hi: nat) {
    && (forall d :: d in c.domains ==> Respects(c.meta, d.app, d.lic, hi))
    && (forall r :: r in c.cidrs ==> Respects(c.meta, r.app, r.lic, hi))
    && (forall r :: r in c.payloads ==> Respects(c.meta, r.app, r.lic, hi))
  }

  /** Filters where one selects less agree exactly when the other selects no more. */
  lemma FiltersAgreeIff<R(!new)>(rows: seq<R>, p: R -> bool, q: R -> bool)
    requires forall x :: p(x) ==> q(x)
    ensures Filter(rows, p) == Filter(rows, q) <==> forall x :: x in rows && q(x) ==> p(x)
  {
    if Filter(rows, p) == Filter(rows, q) {
      forall x | x in rows && q(x) ensures p(x) {
        assert x in Filter(rows, q);
      }
    } else if forall x :: x in rows && q(x) ==> p(x) {
      FilterSame(rows, p, q);
    }
  }

  /** What loading with a license limit lets through. */
  function Limit<R(!new)>(lic: R -> nat, max: nat): (r: R -> bool) {
    r => lic(r) <= max
  }

  /** The rules a build at `lo` keeps are those a full build has within the limit `lo`. */
  ghost predicate GatesAgree<R(!new)>(rows: seq<R>, meta: map<nat, AppMeta>, app: R -> nat, lic: R -> nat,
                               lo: nat, hi: nat) {
    Filter(rows, Gate(meta, app, lic, lo)) == Filter(Filter(rows, Gate(meta, app, lic, hi)), Limit(lic, lo))
  }

  lemma GatesAgreeAt<R(!new)>(rows: seq<R>, meta: map<nat, AppMeta>, app: R -> nat, lic: R -> nat, lo: nat, hi: nat)
    requires lo <= hi
    ensures GatesAgree(rows, meta, app, lic, lo, hi) <==>
            forall r :: r in rows && lic(r) <= lo && KeepsApp(meta, app(r), hi) ==> meta[app(r)].license <= lo
  {
    hide Filter;
    FilterTwice(rows, Gate(meta, app, lic, hi), Limit(lic, lo));
    FiltersAgreeIff(rows, Gate(meta, app, lic, lo), Both(Gate(meta, app, lic, hi), Limit(lic, lo)));
  }

  /** The gates agree at every level exactly when every rule respects its app. */
  lemma GatesAgreeIff<R(!new)>(rows: seq<R>, meta: map<nat, AppMeta>, app: R -> nat, lic: R -> nat, hi: nat)
    ensures (forall lo: nat :: lo <= hi ==> GatesAgree(rows, meta, app, lic, lo, hi)) <==>
            (forall r :: r in rows ==> Respects(meta, app(r), lic(r), hi))
  {
    hide GatesAgree;
    forall lo: nat | lo <= hi
      ensures GatesAgree(rows, meta, app, lic, lo, hi) <==>
              forall r :: r in rows && lic(r) <= lo && KeepsApp(meta, app(r), hi) ==> meta[app(r)].license <= lo
    {
      GatesAgreeAt(rows, meta, app, lic, lo, hi);
    }
    if forall lo: nat :: lo <= hi ==> GatesAgree(rows, meta, app, lic, lo, hi) {
      forall r | r in rows ensures Respects(meta, app(r), lic(r), hi) {
        if lic(r) <= hi {
          assert GatesAgree(rows, meta, app, lic, lic(r), hi);
        }
      }
    }
  }

  /** The whole corpus: both gates admit the same rules of every kind, at every level. */
  ghost predicate CorpusGatesAgree(c: Corpus, lo: nat, hi: nat) {
    && KeptDomains(c, lo) == Filter(KeptDomains(c, hi), Limit(DomainLic, lo))
    && KeptCidrs(c, lo) == Filter(KeptCidrs(c, hi), Limit(CidrLic, lo))
    && KeptPayloads(c, lo) == Filter(KeptPayloads(c, hi), Limit(PayloadLic, lo))
  }

  lemma CorpusGatesAgreeIff(c: Corpus, hi: nat)
    ensures (forall lo: nat :: lo <= hi ==> CorpusGatesAgree(c, lo, hi)) <==> AllRespect(c, hi)
  {
    hide Respects, Filter;
    GatesAgreeIff(c.domains, c.meta, DomainApp, DomainLic, hi);
    GatesAgreeIff(c.cidrs, c.meta, CidrApp, CidrLic, hi);
    GatesAgreeIff(c.payloads, c.meta, PayloadApp, PayloadLic, hi);
    assert forall lo: nat :: lo <= hi ==>
      (CorpusGatesAgree(c, lo, hi) <==>
       GatesAgree(c.domains, c.meta, DomainApp, DomainLic, lo, hi) &&
       GatesAgree(c.cidrs, c.meta, CidrApp, CidrLic, lo, hi) &&
       GatesAgree(c.payloads, c.meta, PayloadApp, PayloadLic, lo, hi));
  }

  /** Each rule was attached under a license its app was registered with, or to no app. */
  ghost predicate Attached(c: Corpus, registered: set<(nat, nat)>) {
    && (forall d :: d in c.domains ==> d.app == DROPPED || (d.app, d.lic) in registered)
    && (forall r :: r in c.cidrs ==> r.app == DROPPED || (r.app, r.lic) in registered)
    && (forall r :: r in c.payloads ==> r.app == DROPPED || (r.app, r.lic) in registered)
  }

  lemma AttachedRespect(c: Corpus, nextId: nat, registered: set<(nat, nat)>, hi: nat)
    requires DenseIds(c.meta, nextId) && LicensesAreMinimal(c.meta, registered) && Attached(c, registered)
    ensures AllRespect(c, hi)
  {
  }

  /** A domain rule of a real app, within a license level. */
  function RealWithin(max: nat): (r: DomainRow -> bool) {
    (d: DomainRow) => d.app != DROPPED && d.lic <= max
  }

  /** Which domain rules a build keeps is a matter of the rules alone, whatever else the apps are used for. */
  lemma KeptByLicense(c: Corpus, nextId: nat, registered: set<(nat, nat)>, max: nat)
    requires DenseIds(c.meta, nextId) && LicensesAreMinimal(c.meta, registered) && Attached(c, registered)
    ensures KeptDomains(c, max) == Filter(c.domains, RealWithin(max))
  {
    hide Filter;
    var gate := Gate(c.meta, DomainApp, DomainLic, max);
    forall d | d in c.domains ensures gate(d) == RealWithin(max)(d) {
      assert DomainApp(d) == d.app && DomainLic(d) == d.lic;
    }
    FilterSame(c.domains, gate, RealWithin(max));
  }
}
