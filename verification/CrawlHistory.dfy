/**
  Whole crawls, told from their events: nothing is fetched that robots.txt did not allow,
  every listed URL has its task, and the counters count what happened.
*/
module CrawlHistory {
  import opened Bits
  import opened Pipelines

  // ------------------------------------------------------------------ robots.txt

  /** A task that waits for a permit, has one, or has had one. */
  predicate BeyondRobots(p: Phase) {
    p.AtSemaphore? || p.Fetching? || (p.Over? && (p.how.NotModified? || p.how.Failed? || p.how.Fetched?))
  }

  /** What the events say of a task's way past robots.txt. */
  ghost predicate Asked(cfg: Settings, es: seq<Event>, t: Task, p: Phase) {
    && (cfg.respectRobots && BeyondRobots(p) ==> Robots(t, true) in es)
    && (p == Over(Disallowed) ==> cfg.respectRobots && Robots(t, false) in es)
    && (p.AtRobots? ==> cfg.respectRobots)
  }

  lemma StepAsks(cfg: Settings, es: seq<Event>, c: Crawl, e: Event)
    requires Enabled(c, e) && forall t :: 0 <= t < |c.jobs| ==> Asked(cfg, es, t, c.jobs[t].phase)
    ensures var d := Step(cfg, c, e); forall t :: 0 <= t < |d.jobs| ==> Asked(cfg, es + [e], t, d.jobs[t].phase)
  {
    hide CountOutcome;
    var d := Step(cfg, c, e);
    forall t | 0 <= t < |d.jobs| ensures Asked(cfg, es + [e], t, d.jobs[t].phase) {
      if t < |c.jobs| {
        assert Asked(cfg, es, t, c.jobs[t].phase);
      }
    }
  }

  /**
    With robots.txt respected, no task ever gets to the semaphore, fetches or has fetched
    without an answer that allows its URL, and what is disallowed was answered so. Without, it
    is never asked for, and nothing is skipped for it.
  */
  lemma {:induction false} RobotsAreAsked(cfg: Settings, es: seq<Event>)
    requires Run(cfg, Start(cfg), es).Some?
    ensures var jobs := Run(cfg, Start(cfg), es).value.jobs;
      forall t :: 0 <= t < |jobs| ==> Asked(cfg, es, t, jobs[t].phase)
    ensures !cfg.respectRobots ==> forall e :: e in es ==> !e.Robots?
  {
    if es != [] {
      hide Asked, Step;
      var n := |es| - 1;
      var was := Run(cfg, Start(cfg), es[..n]).value;
      RobotsAreAsked(cfg, es[..n]);
      assert es[..n] + [es[n]] == es;
      StepAsks(cfg, es[..n], was, es[n]);
      if es[n].Robots? {
        AtRobotsRespects(cfg, es[..n], es[n].task, was.jobs[es[n].task].phase);
      }
    }
  }

  lemma AtRobotsRespects(cfg: Settings, es: seq<Event>, t: Task, p: Phase)
    requires Asked(cfg, es, t, p) && p.AtRobots?
    ensures cfg.respectRobots
  {
  }

  /** Robots.txt is not asked twice for one task, so an answer that was followed was the only one. */
  lemma {:induction false} AskedOnce(cfg: Settings, es: seq<Event>, t: Task)
    requires Run(cfg, Start(cfg), es).Some?
    ensures var c := Run(cfg, Start(cfg), es).value;
      CountEvents(es, AnswersFor(t)) <=
      (if t < |c.jobs| && !c.jobs[t].phase.AtGate? && !c.jobs[t].phase.AtRobots? then 1 else 0)
  {
    if es != [] {
      hide CountOutcome;
      AskedOnce(cfg, es[..|es| - 1], t);
    }
  }

  function AnswersFor(t: Task): (p: Event -> bool) {
    (e: Event) => e.Robots? && e.task == t
  }

  // ------------------------------------------------------------------ the URLs

  /** The URLs that are given tasks: of each discovery, as many as were asked for. */
  function Taken(es: seq<Event>): (urls: seq<(Url, Source)>) {
    if |es| == 0 then []
    else Taken(es[..|es| - 1]) + TakenBy(es[|es| - 1])
  }

  function TakenBy(e: Event): (urls: seq<(Url, Source)>) {
    match e
    case Discover(source, urls, n) => seq(Min(n, |urls|), i requires 0 <= i < Min(n, |urls|) => (urls[i], source))
    case _ => []
  }

  /** All URLs that are discovered. */
  function Discovered(es: seq<Event>): (n: nat) {
    if |es| == 0 then 0
    else Discovered(es[..|es| - 1]) + (if es[|es| - 1].Discover? then |es[|es| - 1].urls| else 0)
  }

  /** The task is for this URL, and is over at once exactly if that cannot be fetched. */
  ghost predicate TaskFor(cfg: Settings, j: Job, x: (Url, Source)) {
    j.url == x.0 && j.source == x.1 && (j.phase == Over(Unfetchable) <==> !cfg.fetchable(j.url))
  }

  ghost predicate TasksFor(cfg: Settings, jobs: seq<Job>, urls: seq<(Url, Source)>) {
    |jobs| == |urls| && forall t :: 0 <= t < |jobs| ==> TaskFor(cfg, jobs[t], urls[t])
  }

  lemma StepTakes(cfg: Settings, c: Crawl, e: Event, urls: seq<(Url, Source)>)
    requires Enabled(c, e) && TasksFor(cfg, c.jobs, urls)
    ensures TasksFor(cfg, Step(cfg, c, e).jobs, urls + TakenBy(e))
    ensures Step(cfg, c, e).stats.discovered == c.stats.discovered + (if e.Discover? then |e.urls| else 0)
  {
    var d := Step(cfg, c, e);
    if !e.Discover? {
      assert urls + TakenBy(e) == urls;
    }
  }

  /** Every URL taken on has a task of its own, in order, and only the fetchable ones are processed. */
  lemma {:induction false} TasksAreTaken(cfg: Settings, es: seq<Event>)
    requires Run(cfg, Start(cfg), es).Some?
    ensures var c := Run(cfg, Start(cfg), es).value;
      TasksFor(cfg, c.jobs, Taken(es)) && c.stats.discovered == Discovered(es)
  {
    if es != [] {
      hide Step, TasksFor, TakenBy;
      TasksAreTaken(cfg, es[..|es| - 1]);
      StepTakes(cfg, Run(cfg, Start(cfg), es[..|es| - 1]).value, es[|es| - 1], Taken(es[..|es| - 1]));
    }
  }

  // ------------------------------------------------------------------ the counters

  function CountEvents(es: seq<Event>, p: Event -> bool): (n: nat) {
    if |es| == 0 then 0 else CountEvents(es[..|es| - 1], p) + One(p(es[|es| - 1]))
  }

  predicate IsGate(e: Event) { e.Gate? }
  predicate IsPage(e: Event) { e.Finish? && e.result.Page? }
  predicate IsNotOk(e: Event) { e.Finish? && e.result.NotOk? }
  predicate IsRefusal(e: Event) { e.Robots? && !e.allowed }

  function IsGraded(g: Grade): (p: Event -> bool) {
    (e: Event) => e.Finish? && e.result == Page(g)
  }

  lemma StepCountsEvent(cfg: Settings, c: Crawl, e: Event)
    requires Enabled(c, e)
    ensures var d := Step(cfg, c, e);
      && d.stats.fetched == c.stats.fetched + One(IsPage(e))
      && d.stats.failed == c.stats.failed + One(IsNotOk(e))
      && d.stats.skippedRobots == c.stats.skippedRobots + One(IsRefusal(e))
      && d.stats.extractedGood == c.stats.extractedGood + One(IsGraded(Good)(e))
      && d.stats.extractedPartial == c.stats.extractedPartial + One(IsGraded(Partial)(e))
      && d.stats.extractedBad == c.stats.extractedBad + One(IsGraded(Bad)(e))
      && d.stats.skippedDuplicate + |d.seen| == c.stats.skippedDuplicate + |c.seen| + One(IsGate(e))
  {
  }

  /**
    The counters of the summary are numbers of events: pages, failures, refusals by robots.txt,
    extractions of each grade; and of the tasks at the dedup gate, those that did not pass.
  */
  lemma {:induction false} CountersCountEvents(cfg: Settings, es: seq<Event>)
    requires Run(cfg, Start(cfg), es).Some?
    ensures var c := Run(cfg, Start(cfg), es).value;
      && c.stats.fetched == CountEvents(es, IsPage)
      && c.stats.failed == CountEvents(es, IsNotOk)
      && c.stats.skippedRobots == CountEvents(es, IsRefusal)
      && c.stats.extractedGood == CountEvents(es, IsGraded(Good))
      && c.stats.extractedPartial == CountEvents(es, IsGraded(Partial))
      && c.stats.extractedBad == CountEvents(es, IsGraded(Bad))
      && c.stats.skippedDuplicate + |c.seen| == CountEvents(es, IsGate)
  {
    if es != [] {
      hide Step, IsGraded, IsPage, IsNotOk, IsRefusal, IsGate;
      var n := |es| - 1;
      CountersCountEvents(cfg, es[..n]);
      StepCountsEvent(cfg, Run(cfg, Start(cfg), es[..n]).value, es[n]);
    }
  }

  lemma {:induction false} NoneCounted(es: seq<Event>, p: Event -> bool)
    requires forall e :: e in es ==> !p(e)
    ensures CountEvents(es, p) == 0
  {
    if es != [] {
      NoneCounted(es[..|es| - 1], p);
    }
  }

  /** Where robots.txt is not respected, no URL is skipped for it. */
  lemma NothingSkippedUnasked(cfg: Settings, es: seq<Event>)
    requires Run(cfg, Start(cfg), es).Some? && !cfg.respectRobots
    ensures Run(cfg, Start(cfg), es).value.stats.skippedRobots == 0
  {
    hide Run, CountEvents;
    RobotsAreAsked(cfg, es);
    CountersCountEvents(cfg, es);
    NoneCounted(es, IsRefusal);
  }
}
