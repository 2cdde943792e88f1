/**
  The crawl pipeline's gates (src/core/pipeline.py): every URL's task passes the
  fetchability check, the dedup gate under the write lock, robots.txt and the semaphore,
  and is counted once. Tasks interleave at the await points in any order, and may be
  cancelled or end with an exception at any of them.
*/
module Pipelines {
  import opened Wrappers
  import opened Bits

  type Url = seq<char>
  /** What `canonicalize` makes of a URL. */
  type Key = seq<char>
  type Source = seq<char>
  type Task = nat

  datatype Settings = Settings(
    fetchable: Url -> bool, canonical: Url -> Key, respectRobots: bool, maxConcurrency: nat)

  /** How good the extraction of a page was; it may also raise an exception. */
  datatype Grade = Good | Partial | Bad | Raises

  datatype FetchResult = Skipped | NotOk | Page(grade: Grade)

  datatype Outcome = Unfetchable | Duplicate | Disallowed | NotModified | Failed | Fetched(grade: Grade) | Crashed

  /** Where a task waits, or how it ended. */
  datatype Phase = AtGate | AtRobots | AtSemaphore | Fetching | Over(how: Outcome)

  /** One URL's task; `passed` is the key it went through the dedup gate with. */
  datatype Job = Job(url: Url, source: Source, phase: Phase, passed: Option<Key>)

  datatype Stats = Stats(
    discovered: nat, fetched: nat, failed: nat, skippedRobots: nat, skippedDuplicate: nat,
    extractedGood: nat, extractedPartial: nat, extractedBad: nat, perSource: map<Source, nat>)

  const NO_STATS := Stats(0, 0, 0, 0, 0, 0, 0, 0, map[])

  datatype Crawl = Crawl(jobs: seq<Job>, seen: set<Key>, permits: nat, stats: Stats)

  datatype Event =
    | Discover(source: Source, urls: seq<Url>, maxItems: nat)
    | Gate(task: Task)
    | Robots(task: Task, allowed: bool)
    | Acquire(task: Task)
    | Finish(task: Task, result: FetchResult)
    | Crash(task: Task)

  // ------------------------------------------------------------------ one step

  predicate Enabled(c: Crawl, e: Event) {
    match e
    case Discover(_, _, _) => true
    case Gate(t) => t < |c.jobs| && c.jobs[t].phase.AtGate?
    case Robots(t, _) => t < |c.jobs| && c.jobs[t].phase.AtRobots?
    case Acquire(t) => t < |c.jobs| && c.jobs[t].phase.AtSemaphore? && c.permits > 0
    case Finish(t, _) => t < |c.jobs| && c.jobs[t].phase.Fetching?
    case Crash(t) => t < |c.jobs| && !c.jobs[t].phase.Over?
  }

  function NewJobs(cfg: Settings, source: Source, urls: seq<Url>): (js: seq<Job>)
    ensures |js| == |urls|
  {
    seq(|urls|, i requires 0 <= i < |urls| =>
      Job(urls[i], source, if cfg.fetchable(urls[i]) then AtGate else Over(Unfetchable), None))
  }

  function PerSource(st: Stats, s: Source): (r: nat) {
    if s in st.perSource then st.perSource[s] else 0
  }

  function CountPage(st: Stats, s: Source, g: Grade): (r: Stats) {
    st.(fetched := st.fetched + 1,
        perSource := st.perSource[s := PerSource(st, s) + 1],
        extractedGood := st.extractedGood + (if g.Good? then 1 else 0),
        extractedPartial := st.extractedPartial + (if g.Partial? then 1 else 0),
        extractedBad := st.extractedBad + (if g.Bad? then 1 else 0))
  }

  /** The counters after a task has come to this point. */
  function CountOutcome(st: Stats, j: Job): (r: Stats) {
    if !j.phase.Over? then st
    else
      match j.phase.how
      case Duplicate => st.(skippedDuplicate := st.skippedDuplicate + 1)
      case Disallowed => st.(skippedRobots := st.skippedRobots + 1)
      case Failed => st.(failed := st.failed + 1)
      case Fetched(g) => CountPage(st, j.source, g)
      case _ => st
  }

  /**
    A task moves on. A permit goes back to the semaphore when its holder stops fetching,
    however that comes about, and a task that is over is counted.
  */
  function Moved(c: Crawl, t: Task, p: Phase): (r: Crawl)
    requires t < |c.jobs|
  {
    var j := c.jobs[t].(phase := p);
    c.(jobs := c.jobs[t := j],
       permits := if c.jobs[t].phase.Fetching? then c.permits + 1 else c.permits,
       stats := CountOutcome(c.stats, j))
  }

  function Step(cfg: Settings, c: Crawl, e: Event): (r: Crawl)
    requires Enabled(c, e)
  {
    match e
    case Discover(source, urls, n) =>
      c.(jobs := c.jobs + NewJobs(cfg, source, if n <= |urls| then urls[..n] else urls),
         stats := c.stats.(discovered := c.stats.discovered + |urls|))
    case Gate(t) =>
      var j := c.jobs[t];
      var key := cfg.canonical(j.url);
      if key in c.seen then Moved(c, t, Over(Duplicate))
      else
        c.(jobs := c.jobs[t := j.(phase := if cfg.respectRobots then AtRobots else AtSemaphore, passed := Some(key))],
           seen := c.seen + {key})
    case Robots(t, allowed) => Moved(c, t, if allowed then AtSemaphore else Over(Disallowed))
    case Acquire(t) => c.(jobs := c.jobs[t := c.jobs[t].(phase := Fetching)], permits := c.permits - 1)
    case Finish(t, result) =>
      (match result
       case Skipped => Moved(c, t, Over(NotModified))
       case NotOk => Moved(c, t, Over(Failed))
       case Page(g) => Moved(c, t, Over(Fetched(g))))
    case Crash(t) => Moved(c, t, Over(Crashed))
  }

  function Run(cfg: Settings, c: Crawl, es: seq<Event>): (r: Option<Crawl>) {
    if |es| == 0 then Some(c)
    else
      match Run(cfg, c, es[..|es| - 1])
      case None => None
      case Some(was) => if Enabled(was, es[|es| - 1]) then Some(Step(cfg, was, es[|es| - 1])) else None
  }

  function Start(cfg: Settings): (r: Crawl) {
    Crawl([], {}, cfg.maxConcurrency, NO_STATS)
  }

  // ------------------------------------------------------------------ counting tasks

  function Count(jobs: seq<Job>, p: Job -> bool): (n: nat)
    ensures n <= |jobs|
  {
    if |jobs| == 0 then 0
    else Count(jobs[..|jobs| - 1], p) + (if p(jobs[|jobs| - 1]) then 1 else 0)
  }

  lemma {:induction false} CountAfter(jobs: seq<Job>, p: Job -> bool, t: nat, j: Job)
    requires t < |jobs|
    ensures Count(jobs[t := j], p) ==
            Count(jobs, p) - (if p(jobs[t]) then 1 else 0) + (if p(j) then 1 else 0)
  {
    var n := |jobs| - 1;
    if t == n {
      assert jobs[t := j][..n] == jobs[..n];
    } else {
      assert jobs[t := j][..n] == jobs[..n][t := j];
      CountAfter(jobs[..n], p, t, j);
    }
  }

  lemma {:induction false} CountMore(jobs: seq<Job>, more: seq<Job>, p: Job -> bool)
    ensures Count(jobs + more, p) == Count(jobs, p) + Count(more, p)
  {
    if more == [] {
      assert jobs + more == jobs;
    } else {
      var n := |more| - 1;
      assert (jobs + more)[..|jobs| + n] == jobs + more[..n];
      CountMore(jobs, more[..n], p);
    }
  }

  lemma {:induction false} CountNone(jobs: seq<Job>, p: Job -> bool)
    requires forall i :: 0 <= i < |jobs| ==> !p(jobs[i])
    ensures Count(jobs, p) == 0
  {
    if jobs != [] {
      CountNone(jobs[..|jobs| - 1], p);
    }
  }

  function Ended(o: Outcome): (r: Job -> bool) {
    (j: Job) => j.phase == Over(o)
  }

  predicate IsFetching(j: Job) { j.phase.Fetching? }
  predicate IsFetched(j: Job) { j.phase.Over? && j.phase.how.Fetched? }

  function FetchedFrom(s: Source): (r: Job -> bool) {
    (j: Job) => j.source == s && IsFetched(j)
  }

  // ------------------------------------------------------------------ the invariants

  /** The counters count what they are named for, and the semaphore's permits are not lost. */
  ghost predicate Counted(cfg: Settings, c: Crawl) {
    && c.permits + Count(c.jobs, IsFetching) == cfg.maxConcurrency
    && |c.jobs| <= c.stats.discovered
    && c.stats.fetched == Count(c.jobs, IsFetched)
    && c.stats.failed == Count(c.jobs, Ended(Failed))
    && c.stats.skippedRobots == Count(c.jobs, Ended(Disallowed))
    && c.stats.skippedDuplicate == Count(c.jobs, Ended(Duplicate))
    && c.stats.extractedGood == Count(c.jobs, Ended(Fetched(Good)))
    && c.stats.extractedPartial == Count(c.jobs, Ended(Fetched(Partial)))
    && c.stats.extractedBad == Count(c.jobs, Ended(Fetched(Bad)))
    && forall s: Source :: PerSource(c.stats, s) == Count(c.jobs, FetchedFrom(s))
  }

  /** Only a task that went through the gate asks robots.txt, waits for a permit, or fetches. */
  ghost predicate PhaseOk(cfg: Settings, seen: set<Key>, j: Job) {
    && (j.passed.Some? ==> j.passed.value == cfg.canonical(j.url) && j.passed.value in seen)
    && (j.phase.AtGate? ==> j.passed.None?)
    && (j.phase.AtRobots? || j.phase.AtSemaphore? || j.phase.Fetching? ==> j.passed.Some?)
    && (j.phase.Over? ==>
          && (j.phase.how.Disallowed? || j.phase.how.NotModified? || j.phase.how.Failed? || j.phase.how.Fetched? ==>
                j.passed.Some?)
          && (j.phase.how.Duplicate? ==> j.passed.None? && cfg.canonical(j.url) in seen))
  }

  /** Every key in the set was put there by exactly one task. */
  ghost predicate Gated(cfg: Settings, c: Crawl) {
    && (forall i :: 0 <= i < |c.jobs| ==> PhaseOk(cfg, c.seen, c.jobs[i]))
    && (forall i, j :: 0 <= i < j < |c.jobs| && c.jobs[i].passed.Some? ==> c.jobs[i].passed != c.jobs[j].passed)
    && (forall k :: k in c.seen ==> exists i :: 0 <= i < |c.jobs| && c.jobs[i].passed == Some(k))
  }

  lemma CountedAfter(cfg: Settings, c: Crawl, d: Crawl, t: Task, j: Job)
    requires Counted(cfg, c) && t < |c.jobs| && d.jobs == c.jobs[t := j] && j.source == c.jobs[t].source
    requires !c.jobs[t].phase.Over?
    requires d.permits == c.permits + (if IsFetching(c.jobs[t]) then 1 else 0) - (if IsFetching(j) then 1 else 0)
    requires d.stats == CountOutcome(c.stats, j)
    ensures Counted(cfg, d)
  {
    hide Count;
    CountAfter(c.jobs, IsFetching, t, j);
    CountAfter(c.jobs, IsFetched, t, j);
    CountAfter(c.jobs, Ended(Failed), t, j);
    CountAfter(c.jobs, Ended(Disallowed), t, j);
    CountAfter(c.jobs, Ended(Duplicate), t, j);
    CountAfter(c.jobs, Ended(Fetched(Good)), t, j);
    CountAfter(c.jobs, Ended(Fetched(Partial)), t, j);
    CountAfter(c.jobs, Ended(Fetched(Bad)), t, j);
    forall s: Source ensures PerSource(d.stats, s) == Count(d.jobs, FetchedFrom(s)) {
      CountAfter(c.jobs, FetchedFrom(s), t, j);
    }
  }

  lemma NewJobsUncounted(cfg: Settings, source: Source, urls: seq<Url>, p: Job -> bool)
    requires forall j: Job :: p(j) ==> j.phase.Fetching? || (j.phase.Over? && j.phase.how != Unfetchable)
    ensures Count(NewJobs(cfg, source, urls), p) == 0
  {
    CountNone(NewJobs(cfg, source, urls), p);
  }

  lemma DiscoverKeepsCounts(cfg: Settings, c: Crawl, source: Source, urls: seq<Url>, n: nat)
    requires Counted(cfg, c)
    ensures Counted(cfg, Step(cfg, c, Discover(source, urls, n)))
  {
    var us := if n <= |urls| then urls[..n] else urls;
    var more := NewJobs(cfg, source, us);
    hide NewJobs, Count;
    NoneNew(cfg, source, us, c.jobs, IsFetching);
    NoneNew(cfg, source, us, c.jobs, IsFetched);
    NoneNew(cfg, source, us, c.jobs, Ended(Failed));
    NoneNew(cfg, source, us, c.jobs, Ended(Disallowed));
    NoneNew(cfg, source, us, c.jobs, Ended(Duplicate));
    NoneNew(cfg, source, us, c.jobs, Ended(Fetched(Good)));
    NoneNew(cfg, source, us, c.jobs, Ended(Fetched(Partial)));
    NoneNew(cfg, source, us, c.jobs, Ended(Fetched(Bad)));
    var d := Step(cfg, c, Discover(source, urls, n));
    forall s: Source ensures PerSource(d.stats, s) == Count(d.jobs, FetchedFrom(s)) {
      NoneNew(cfg, source, us, c.jobs, FetchedFrom(s));
    }
  }

  lemma NoneNew(cfg: Settings, source: Source, urls: seq<Url>, jobs: seq<Job>, p: Job -> bool)
    requires forall j: Job :: p(j) ==> j.phase.Fetching? || (j.phase.Over? && j.phase.how != Unfetchable)
    ensures Count(jobs + NewJobs(cfg, source, urls), p) == Count(jobs, p)
  {
    CountMore(jobs, NewJobs(cfg, source, urls), p);
    NewJobsUncounted(cfg, source, urls, p);
  }

  lemma StepKeepsCounts(cfg: Settings, c: Crawl, e: Event)
    requires Counted(cfg, c) && Enabled(c, e)
    ensures Counted(cfg, Step(cfg, c, e))
  {
    hide Counted, CountOutcome;
    match e
    case Discover(source, urls, n) => DiscoverKeepsCounts(cfg, c, source, urls, n);
    case Gate(t) => CountedMove(cfg, c, Step(cfg, c, e), t);
    case Robots(t, _) => CountedMove(cfg, c, Step(cfg, c, e), t);
    case Acquire(t) => CountedMove(cfg, c, Step(cfg, c, e), t);
    case Finish(t, _) => CountedMove(cfg, c, Step(cfg, c, e), t);
    case Crash(t) => CountedMove(cfg, c, Step(cfg, c, e), t);
  }

  lemma CountedMove(cfg: Settings, c: Crawl, d: Crawl, t: Task)
    requires Counted(cfg, c) && t < |c.jobs| && |d.jobs| == |c.jobs| && d.jobs == c.jobs[t := d.jobs[t]]
    requires d.jobs[t].source == c.jobs[t].source && !c.jobs[t].phase.Over?
    requires d.permits == c.permits + One(IsFetching(c.jobs[t])) - One(IsFetching(d.jobs[t]))
    requires d.stats == CountOutcome(c.stats, d.jobs[t]) || (!d.jobs[t].phase.Over? && d.stats == c.stats)
    ensures Counted(cfg, d)
  {
    CountedAfter(cfg, c, d, t, d.jobs[t]);
  }

  // ------------------------------------------------------------------ the dedup gate

  /** A step that lets nobody new through the gate leaves who passed as it was. */
  lemma StepKeepsPassed(cfg: Settings, c: Crawl, e: Event)
    requires Enabled(c, e) && !(e.Gate? && cfg.canonical(c.jobs[e.task].url) !in c.seen)
    ensures var d := Step(cfg, c, e);
      && d.seen == c.seen && |c.jobs| <= |d.jobs|
      && (forall i :: 0 <= i < |c.jobs| ==> d.jobs[i].passed == c.jobs[i].passed)
      && (forall i :: |c.jobs| <= i < |d.jobs| ==> d.jobs[i].passed.None?)
  {
    hide CountOutcome;
  }

  lemma StepKeepsPhases(cfg: Settings, c: Crawl, e: Event)
    requires Enabled(c, e) && !(e.Gate? && cfg.canonical(c.jobs[e.task].url) !in c.seen)
    requires forall i :: 0 <= i < |c.jobs| ==> PhaseOk(cfg, c.seen, c.jobs[i])
    ensures var d := Step(cfg, c, e); forall i :: 0 <= i < |d.jobs| ==> PhaseOk(cfg, d.seen, d.jobs[i])
  {
    hide CountOutcome;
    var d := Step(cfg, c, e);
    forall i | 0 <= i < |d.jobs| ensures PhaseOk(cfg, d.seen, d.jobs[i]) {
      if i < |c.jobs| {
        assert PhaseOk(cfg, c.seen, c.jobs[i]);
      }
    }
  }

  lemma StepKeepsGate(cfg: Settings, c: Crawl, e: Event)
    requires Gated(cfg, c) && Enabled(c, e)
    ensures Gated(cfg, Step(cfg, c, e))
  {
    hide Step, PhaseOk;
    var d := Step(cfg, c, e);
    if e.Gate? && cfg.canonical(c.jobs[e.task].url) !in c.seen {
      PassKeepsGate(cfg, c, e.task);
    } else {
      StepKeepsPassed(cfg, c, e);
      StepKeepsPhases(cfg, c, e);
      forall k | k in d.seen ensures exists i :: 0 <= i < |d.jobs| && d.jobs[i].passed == Some(k) {
        var i :| 0 <= i < |c.jobs| && c.jobs[i].passed == Some(k);
        assert d.jobs[i].passed == Some(k);
      }
    }
  }

  lemma PassKeepsGate(cfg: Settings, c: Crawl, t: Task)
    requires Gated(cfg, c) && Enabled(c, Gate(t)) && cfg.canonical(c.jobs[t].url) !in c.seen
    ensures Gated(cfg, Step(cfg, c, Gate(t)))
  {
    var key := cfg.canonical(c.jobs[t].url);
    var d := Step(cfg, c, Gate(t));
    forall i | 0 <= i < |d.jobs| ensures PhaseOk(cfg, d.seen, d.jobs[i]) {
      assert PhaseOk(cfg, c.seen, c.jobs[i]);
    }
    forall k | k in d.seen ensures exists i :: 0 <= i < |d.jobs| && d.jobs[i].passed == Some(k) {
      if k == key {
        assert d.jobs[t].passed == Some(k);
      } else {
        var i :| 0 <= i < |c.jobs| && c.jobs[i].passed == Some(k);
        assert d.jobs[i].passed == Some(k);
      }
    }
  }

  // ------------------------------------------------------------------ over every run

  lemma {:induction false} RunKeepsCrawl(cfg: Settings, es: seq<Event>)
    requires Run(cfg, Start(cfg), es).Some?
    ensures Counted(cfg, Run(cfg, Start(cfg), es).value) && Gated(cfg, Run(cfg, Start(cfg), es).value)
  {
    hide Step, Counted, Gated;
    if es == [] {
      StartsRight(cfg);
    } else {
      var was := Run(cfg, Start(cfg), es[..|es| - 1]).value;
      RunKeepsCrawl(cfg, es[..|es| - 1]);
      StepKeepsCounts(cfg, was, es[|es| - 1]);
      StepKeepsGate(cfg, was, es[|es| - 1]);
    }
  }

  lemma StartsRight(cfg: Settings)
    ensures Counted(cfg, Start(cfg)) && Gated(cfg, Start(cfg))
  {
  }

  /** The fetches in flight never exceed the configured concurrency. */
  lemma ConcurrencyIsBounded(cfg: Settings, es: seq<Event>)
    requires Run(cfg, Start(cfg), es).Some?
    ensures Count(Run(cfg, Start(cfg), es).value.jobs, IsFetching) <= cfg.maxConcurrency
  {
    RunKeepsCrawl(cfg, es);
  }

  /** A task that has got, or is to get, its page, or was told no by robots.txt or the server. */
  predicate BeyondGate(p: Phase) {
    p.AtRobots? || p.AtSemaphore? || p.Fetching? ||
    (p.Over? && (p.how.Disallowed? || p.how.NotModified? || p.how.Failed? || p.how.Fetched?))
  }

  /**
    No two URLs with the same canonical form ever pass the gate, whatever becomes of their
    tasks; only tasks that passed get beyond it; and a URL is only dropped as a duplicate of
    one that passed.
  */
  lemma EachKeyOnce(cfg: Settings, es: seq<Event>, i: nat, j: nat)
    requires Run(cfg, Start(cfg), es).Some?
    requires var jobs := Run(cfg, Start(cfg), es).value.jobs; i < |jobs| && j < |jobs| && i != j
    ensures var jobs := Run(cfg, Start(cfg), es).value.jobs;
      && (jobs[i].passed.Some? && jobs[j].passed.Some? ==>
            cfg.canonical(jobs[i].url) != cfg.canonical(jobs[j].url))
      && (BeyondGate(jobs[i].phase) ==> jobs[i].passed.Some?)
      && (jobs[i].phase == Over(Duplicate) ==>
            exists k :: 0 <= k < |jobs| && jobs[k].passed == Some(cfg.canonical(jobs[i].url)))
  {
    RunKeepsCrawl(cfg, es);
    hide Run, Counted;
    var c := Run(cfg, Start(cfg), es).value;
    assert PhaseOk(cfg, c.seen, c.jobs[i]) && PhaseOk(cfg, c.seen, c.jobs[j]);
  }

  // ------------------------------------------------------------------ the summary

  predicate IsOver(j: Job) { j.phase.Over? }

  lemma CountLast(jobs: seq<Job>, p: Job -> bool)
    requires jobs != []
    ensures Count(jobs, p) == Count(jobs[..|jobs| - 1], p) + One(p(jobs[|jobs| - 1]))
  {
  }

  /** One task's end is of exactly one kind. */
  lemma OneEnd(j: Job)
    ensures One(IsOver(j)) == One(IsFetched(j)) + One(Ended(Failed)(j)) + One(Ended(Disallowed)(j)) +
      One(Ended(Duplicate)(j)) + One(Ended(Unfetchable)(j)) + One(Ended(NotModified)(j)) + One(Ended(Crashed)(j))
    ensures One(IsFetched(j)) == One(Ended(Fetched(Good))(j)) + One(Ended(Fetched(Partial))(j)) +
      One(Ended(Fetched(Bad))(j)) + One(Ended(Fetched(Raises))(j))
  {
    if IsFetched(j) {
      var g := j.phase.how.grade;
      assert j.phase == Over(Fetched(g));
      match g
      case Good =>
      case Partial =>
      case Bad =>
      case Raises =>
    }
  }

  /** Tasks end in one of seven ways. */
  lemma {:induction false} EndsPartition(jobs: seq<Job>)
    ensures Count(jobs, IsOver) == Count(jobs, IsFetched) + Count(jobs, Ended(Failed)) +
      Count(jobs, Ended(Disallowed)) + Count(jobs, Ended(Duplicate)) +
      Count(jobs, Ended(Unfetchable)) + Count(jobs, Ended(NotModified)) + Count(jobs, Ended(Crashed))
    ensures Count(jobs, IsFetched) == Count(jobs, Ended(Fetched(Good))) + Count(jobs, Ended(Fetched(Partial))) +
      Count(jobs, Ended(Fetched(Bad))) + Count(jobs, Ended(Fetched(Raises)))
  {
    if jobs != [] {
      hide Count, Ended, IsOver, IsFetched, One;
      EndsPartition(jobs[..|jobs| - 1]);
      OneEnd(jobs[|jobs| - 1]);
      CountLast(jobs, IsOver);
      CountLast(jobs, IsFetched);
      CountLast(jobs, Ended(Failed));
      CountLast(jobs, Ended(Disallowed));
      CountLast(jobs, Ended(Duplicate));
      CountLast(jobs, Ended(Unfetchable));
      CountLast(jobs, Ended(NotModified));
      CountLast(jobs, Ended(Crashed));
      CountLast(jobs, Ended(Fetched(Good)));
      CountLast(jobs, Ended(Fetched(Partial)));
      CountLast(jobs, Ended(Fetched(Bad)));
      CountLast(jobs, Ended(Fetched(Raises)));
    }
  }

  lemma {:induction false} AllOver(jobs: seq<Job>)
    requires forall i :: 0 <= i < |jobs| ==> IsOver(jobs[i])
    ensures Count(jobs, IsOver) == |jobs|
  {
    if jobs != [] {
      AllOver(jobs[..|jobs| - 1]);
    }
  }

  /**
    When every task is over, the summary accounts for every URL taken on; what it does not
    show is exactly the unfetchable URLs, the unmodified pages and the crashed tasks.
  */
  lemma SummaryAddsUp(cfg: Settings, es: seq<Event>)
    requires Run(cfg, Start(cfg), es).Some?
    requires var jobs := Run(cfg, Start(cfg), es).value.jobs; forall i :: 0 <= i < |jobs| ==> IsOver(jobs[i])
    ensures var c := Run(cfg, Start(cfg), es).value;
      && c.permits == cfg.maxConcurrency
      && |c.jobs| == c.stats.fetched + c.stats.failed + c.stats.skippedRobots + c.stats.skippedDuplicate +
           Count(c.jobs, Ended(Unfetchable)) + Count(c.jobs, Ended(NotModified)) + Count(c.jobs, Ended(Crashed))
      && c.stats.fetched == c.stats.extractedGood + c.stats.extractedPartial + c.stats.extractedBad +
           Count(c.jobs, Ended(Fetched(Raises)))
      && |c.jobs| <= c.stats.discovered
  {
    RunKeepsCrawl(cfg, es);
    hide Run, Gated;
    var c := Run(cfg, Start(cfg), es).value;
    EndsPartition(c.jobs);
    AllOver(c.jobs);
    CountNone(c.jobs, IsFetching);
  }

  // ------------------------------------------------------------------ the class

  class Pipeline {
    const cfg: Settings
    var seen: set<Key>
    /** The semaphore's free permits. */
    var permits: nat
    var stats: Stats
    /** The tasks, one per URL, in order of creation. */
    var jobs: seq<Job>

    ghost function State(): (r: Crawl)
      reads this
    {
      Crawl(jobs, seen, permits, stats)
    }

    constructor (cfg: Settings)
      ensures this.cfg == cfg && State() == Start(cfg)
    {
      this.cfg := cfg;
      seen, permits, stats, jobs := {}, cfg.maxConcurrency, NO_STATS, [];
    }

    /** `_run_source` after `discover`: counts all URLs and starts a task for each of the first ones. */
    method Discovered(source: Source, urls: seq<Url>, maxItems: nat)
      modifies this`jobs, this`stats
      ensures State() == Step(cfg, old(State()), Discover(source, urls, maxItems))
    {
      stats := stats.(discovered := stats.discovered + |urls|);
      var us := if maxItems <= |urls| then urls[..maxItems] else urls;
      ghost var was := jobs;
      var more: seq<Job> := [];
      for i := 0 to |us|
        invariant |more| == i && more == NewJobs(cfg, source, us)[..i]
        modifies {}
      {
        more := more + [Job(us[i], source, if cfg.fetchable(us[i]) then AtGate else Over(Unfetchable), None)];
      }
      jobs := jobs + more;
    }

    /** The stretch of `_process` under the write lock. */
    method PassGate(t: Task) returns (isNew: bool)
      requires Enabled(State(), Gate(t))
      modifies this
      ensures State() == Step(cfg, old(State()), Gate(t))
      ensures isNew <==> cfg.canonical(jobs[t].url) !in old(seen)
    {
      var canonical := cfg.canonical(jobs[t].url);
      if canonical in seen {
        stats := stats.(skippedDuplicate := stats.skippedDuplicate + 1);
        jobs := jobs[t := jobs[t].(phase := Over(Duplicate))];
        return false;
      }
      seen := seen + {canonical};
      var next := if cfg.respectRobots then AtRobots else AtSemaphore;
      jobs := jobs[t := jobs[t].(phase := next, passed := Some(canonical))];
      return true;
    }

    method RobotsAnswered(t: Task, allowed: bool)
      requires Enabled(State(), Robots(t, allowed))
      modifies this`jobs, this`stats
      ensures State() == Step(cfg, old(State()), Robots(t, allowed))
    {
      if !allowed {
        stats := stats.(skippedRobots := stats.skippedRobots + 1);
        jobs := jobs[t := jobs[t].(phase := Over(Disallowed))];
        return;
      }
      jobs := jobs[t := jobs[t].(phase := AtSemaphore)];
    }

    method AcquirePermit(t: Task)
      requires Enabled(State(), Acquire(t))
      modifies this`jobs, this`permits
      ensures State() == Step(cfg, old(State()), Acquire(t))
    {
      permits := permits - 1;
      jobs := jobs[t := jobs[t].(phase := Fetching)];
    }

    /** The permit is back; the result is counted and, if there is a page, extracted. */
    method FetchDone(t: Task, result: FetchResult)
      requires Enabled(State(), Finish(t, result))
      modifies this`jobs, this`permits, this`stats
      ensures State() == Step(cfg, old(State()), Finish(t, result))
    {
      permits := permits + 1;
      var source := jobs[t].source;
      match result
      case Skipped =>
        jobs := jobs[t := jobs[t].(phase := Over(NotModified))];
      case NotOk =>
        stats := stats.(failed := stats.failed + 1);
        jobs := jobs[t := jobs[t].(phase := Over(Failed))];
      case Page(grade) =>
        stats := stats.(fetched := stats.fetched + 1,
                        perSource := stats.perSource[source := PerSource(stats, source) + 1]);
        match grade {
          case Good => stats := stats.(extractedGood := stats.extractedGood + 1);
          case Partial => stats := stats.(extractedPartial := stats.extractedPartial + 1);
          case Bad => stats := stats.(extractedBad := stats.extractedBad + 1);
          case Raises =>
        }
        jobs := jobs[t := jobs[t].(phase := Over(Fetched(grade)))];
    }

    /** An exception or a cancellation; `async with` gives the permit back. */
    method TaskCrashed(t: Task)
      requires Enabled(State(), Crash(t))
      modifies this`jobs, this`permits
      ensures State() == Step(cfg, old(State()), Crash(t))
    {
      if jobs[t].phase.Fetching? {
        permits := permits + 1;
      }
      jobs := jobs[t := jobs[t].(phase := Over(Crashed))];
    }
  }
}
