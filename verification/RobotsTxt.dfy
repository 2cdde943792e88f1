/**
  The robots.txt cache of the crawler (src/utils/robotstxt.py): one parser per origin with
  a time to live, and one lock per origin. Tasks interleave at the await points of
  `_get_parser`: waiting for the lock, and loading.
*/
module RobotsTxt {
  import opened Wrappers

  type Origin = seq<char>
  type Task = nat

  /** A cached parser and when it was stored. */
  datatype Cached<P> = Cached(parser: P, at: real)

  /** What has happened to loads so far. */
  datatype Load =
    | Started(origin: Origin, task: Task, at: real)
    | Stored(origin: Origin, task: Task, at: real)
    | Dropped(origin: Origin, task: Task)

  /** `holder` says who holds an origin's lock: always a task whose load is in flight. */
  datatype Robots<P> = Robots(
    cache: map<Origin, Cached<P>>,
    holder: map<Origin, Task>,
    waiting: set<(Origin, Task)>,
    clock: real,
    log: seq<Load>)

  /** What tasks do, one atomic stretch between awaits each. */
  datatype Event<P> =
    | Call(origin: Origin, task: Task, now: real)
    | Enter(origin: Origin, task: Task, now: real)
    | Finish(origin: Origin, task: Task, parser: P, now: real)
    | Abort(origin: Origin, task: Task)

  function Fresh<P>(ttl: real, cache: map<Origin, Cached<P>>, origin: Origin, now: real): (r: Option<P>)
    ensures r.Some? <==> origin in cache && now - cache[origin].at < ttl
  {
    if origin in cache && now - cache[origin].at < ttl then Some(cache[origin].parser) else None
  }

  predicate Enabled<P>(s: Robots<P>, e: Event<P>) {
    match e
    case Call(o, t, now) => s.clock <= now && (o, t) !in s.waiting && !(o in s.holder && s.holder[o] == t)
    case Enter(o, t, now) => s.clock <= now && (o, t) in s.waiting && o !in s.holder
    case Finish(o, t, _, now) => s.clock <= now && o in s.holder && s.holder[o] == t
    case Abort(o, t) => (o, t) in s.waiting || (o in s.holder && s.holder[o] == t)
  }

  /** Somebody holds the origin's lock or queues for it, so a newcomer has to queue. */
  predicate Taken<P>(s: Robots<P>, o: Origin) {
    o in s.holder || exists w :: w in s.waiting && w.0 == o
  }

  /** With the lock in hand: look again, and start loading if there is still nothing fresh. */
  function Locked<P>(ttl: real, s: Robots<P>, o: Origin, t: Task, now: real): (r: Robots<P>) {
    if Fresh(ttl, s.cache, o, now).Some? then s.(clock := now)
    else s.(clock := now, holder := s.holder[o := t], log := s.log + [Started(o, t, now)])
  }

  function Step<P>(ttl: real, s: Robots<P>, e: Event<P>): (r: Robots<P>) {
    match e
    case Call(o, t, now) =>
      if Fresh(ttl, s.cache, o, now).Some? then s.(clock := now)
      else if Taken(s, o) then s.(clock := now, waiting := s.waiting + {(o, t)})
      else Locked(ttl, s, o, t, now)
    case Enter(o, t, now) => Locked(ttl, s.(waiting := s.waiting - {(o, t)}), o, t, now)
    case Finish(o, t, p, now) =>
      s.(clock := now, cache := s.cache[o := Cached(p, now)], holder := s.holder - {o},
         log := s.log + [Stored(o, t, now)])
    case Abort(o, t) =>
      if (o, t) in s.waiting then s.(waiting := s.waiting - {(o, t)})
      else s.(holder := s.holder - {o}, log := s.log + [Dropped(o, t)])
  }

  function Run<P>(ttl: real, s: Robots<P>, es: seq<Event<P>>): (r: Option<Robots<P>>) {
    if |es| == 0 then Some(s)
    else
      match Run(ttl, s, es[..|es| - 1])
      case None => None
      case Some(was) => if Enabled(was, es[|es| - 1]) then Some(Step(ttl, was, es[|es| - 1])) else None
  }

  function Idle<P>(clock: real): (r: Robots<P>) {
    Robots(map[], map[], {}, clock, [])
  }

  // ------------------------------------------------------------------ what the history says

  /** The task whose load of this origin is in flight, by the history alone. */
  function InFlight(log: seq<Load>, o: Origin): (r: Option<Task>) {
    if |log| == 0 then None
    else
      var l := log[|log| - 1];
      if l.origin != o then InFlight(log[..|log| - 1], o)
      else if l.Started? then Some(l.task) else None
  }

  /** A load begins only while no load of its origin is in flight, and only its own task ends it. */
  ghost predicate OneAtATime(log: seq<Load>) {
    forall i :: 0 <= i < |log| ==>
      InFlight(log[..i], log[i].origin) == (if log[i].Started? then None else Some(log[i].task))
  }

  /** No load begins within the time to live of one that was stored. */
  ghost predicate NoEarlyReload(ttl: real, log: seq<Load>) {
    forall i, j :: 0 <= i < j < |log| && log[i].Stored? && log[j].Started? && log[i].origin == log[j].origin ==>
      log[j].at - log[i].at >= ttl
  }

  ghost predicate HoldersInFlight<P>(s: Robots<P>) {
    forall o: Origin :: InFlight(s.log, o) == (if o in s.holder then Some(s.holder[o]) else None)
  }

  /** The cache has the newest stored parser of each origin. */
  ghost predicate CacheIsNewest<P>(s: Robots<P>) {
    && (forall i :: 0 <= i < |s.log| && s.log[i].Stored? ==>
          s.log[i].origin in s.cache && s.log[i].at <= s.cache[s.log[i].origin].at)
    && forall o :: o in s.cache ==> s.cache[o].at <= s.clock
  }

  ghost predicate RobotsOk<P>(ttl: real, s: Robots<P>) {
    HoldersInFlight(s) && CacheIsNewest(s) && OneAtATime(s.log) && NoEarlyReload(ttl, s.log)
  }

  lemma Logged(log: seq<Load>, l: Load)
    requires OneAtATime(log)
    requires InFlight(log, l.origin) == (if l.Started? then None else Some(l.task))
    ensures OneAtATime(log + [l])
    ensures forall o: Origin :: o != l.origin ==> InFlight(log + [l], o) == InFlight(log, o)
    ensures InFlight(log + [l], l.origin) == (if l.Started? then Some(l.task) else None)
  {
    var more := log + [l];
    assert more[..|log|] == log;
    forall i | 0 <= i < |more|
      ensures InFlight(more[..i], more[i].origin) == (if more[i].Started? then None else Some(more[i].task))
    {
      if i < |log| {
        assert more[..i] == log[..i];
      }
    }
  }

  lemma LockedKeeps<P>(ttl: real, s: Robots<P>, o: Origin, t: Task, now: real)
    requires RobotsOk(ttl, s) && s.clock <= now && o !in s.holder
    ensures RobotsOk(ttl, Locked(ttl, s, o, t, now))
  {
    hide InFlight, OneAtATime;
    var l := Started(o, t, now);
    assert InFlight(s.log, o) == None;
    Logged(s.log, l);
    if Fresh(ttl, s.cache, o, now).None? {
      NoReloadYet(ttl, s, l);
    }
  }

  /** A load that begins when nothing fresh is cached is no early reload. */
  lemma NoReloadYet<P>(ttl: real, s: Robots<P>, l: Load)
    requires CacheIsNewest(s) && NoEarlyReload(ttl, s.log) && l.Started?
    requires Fresh(ttl, s.cache, l.origin, l.at).None?
    ensures NoEarlyReload(ttl, s.log + [l])
  {
  }

  lemma StepKeeps<P>(ttl: real, s: Robots<P>, e: Event<P>)
    requires RobotsOk(ttl, s) && Enabled(s, e)
    ensures RobotsOk(ttl, Step(ttl, s, e))
  {
    hide InFlight, OneAtATime, NoEarlyReload, Locked;
    match e
    case Call(o, t, now) =>
      if !Taken(s, o) {
        LockedKeeps(ttl, s, o, t, now);
      }
    case Enter(o, t, now) =>
      LockedKeeps(ttl, s.(waiting := s.waiting - {(o, t)}), o, t, now);
    case Finish(o, t, p, now) =>
      assert InFlight(s.log, o) == Some(t);
      Logged(s.log, Stored(o, t, now));
      EndsKeepSpacing(ttl, s.log, Stored(o, t, now));
    case Abort(o, t) =>
      if (o, t) !in s.waiting {
        assert InFlight(s.log, o) == Some(t);
        Logged(s.log, Dropped(o, t));
        EndsKeepSpacing(ttl, s.log, Dropped(o, t));
      }
  }

  lemma EndsKeepSpacing(ttl: real, log: seq<Load>, l: Load)
    requires NoEarlyReload(ttl, log) && !l.Started?
    ensures NoEarlyReload(ttl, log + [l])
  {
  }

  /**
    Over every run, however tasks interleave and are cancelled: an origin never has two
    loads in flight, and is not loaded again within the time to live of a stored load.
  */
  lemma {:induction false} RunKeepsRobots<P>(ttl: real, clock: real, es: seq<Event<P>>)
    requires Run(ttl, Idle(clock), es).Some?
    ensures RobotsOk(ttl, Run(ttl, Idle(clock), es).value)
  {
    if |es| > 0 {
      RunKeepsRobots(ttl, clock, es[..|es| - 1]);
      StepKeeps(ttl, Run(ttl, Idle(clock), es[..|es| - 1]).value, es[|es| - 1]);
    }
  }

  /** A caller does not overtake: it begins to load only if nobody holds the lock or queues for it. */
  lemma NoOvertaking<P>(ttl: real, s: Robots<P>, o: Origin, t: Task, now: real)
    ensures var d := Step(ttl, s, Call(o, t, now));
      d.log != s.log ==>
        && o !in s.holder && (forall w :: w in s.waiting ==> w.0 != o)
        && (o in s.cache ==> now - s.cache[o].at >= ttl)
  {
  }

  /** The event stores a parser for the origin. */
  predicate Stores<P(!new)>(e: Event<P>, o: Origin) {
    e.Finish? && e.origin == o
  }

  /** What the events say is cached for an origin: what was loaded last, whenever that was. */
  function LastLoad<P(!new)>(es: seq<Event<P>>, o: Origin): (c: Option<Cached<P>>) {
    if |es| == 0 then None
    else
      var e := es[|es| - 1];
      if Stores(e, o) then Some(Cached(e.parser, e.now)) else LastLoad(es[..|es| - 1], o)
  }

  /**
    Over every run: for each origin exactly the parser that was loaded last for it is cached,
    with the time of that load, so an answer is never another origin's nor an older one.
  */
  lemma {:induction false} CacheIsLastLoad<P(!new)>(ttl: real, clock: real, es: seq<Event<P>>, o: Origin)
    requires Run(ttl, Idle(clock), es).Some?
    ensures var s := Run(ttl, Idle(clock), es).value;
      match LastLoad(es, o)
      case None => o !in s.cache
      case Some(c) => o in s.cache && s.cache[o] == c
  {
    if |es| > 0 {
      hide Fresh, Taken;
      CacheIsLastLoad(ttl, clock, es[..|es| - 1], o);
    }
  }

  // ------------------------------------------------------------------ the class

  /** Where a task is after a stretch of `_get_parser`. */
  datatype Progress<P> = Answer(parser: P) | MustWait | MustLoad

  class RobotsTxtChecker<P> {
    const ttl: real
    var cache: map<Origin, Cached<P>>
    /** Each origin's lock, once it exists: its holder and its queue. */
    var locks: map<Origin, Option<Task>>
    var queue: set<(Origin, Task)>
    ghost var clock: real
    ghost var log: seq<Load>

    ghost function Holders(): (r: map<Origin, Task>)
      reads this`locks
    {
      map o | o in locks && locks[o].Some? :: locks[o].value
    }

    ghost function State(): (r: Robots<P>)
      reads this
    {
      Robots(cache, Holders(), queue, clock, log)
    }

    constructor (ttl: real, now: real)
      ensures this.ttl == ttl && State() == Idle(now)
    {
      this.ttl := ttl;
      cache, locks, queue, clock, log := map[], map[], {}, now, [];
    }

    method LookUp(o: Origin, now: real) returns (r: Option<P>)
      ensures r == Fresh(ttl, cache, o, now)
    {
      if o in cache && now - cache[o].at < ttl {
        return Some(cache[o].parser);
      }
      return None;
    }

    /** `_get_parser` up to its first await: an answer from the cache, or a place in the queue. */
    method GetParser(o: Origin, t: Task, now: real) returns (r: Progress<P>)
      requires Enabled(State(), Call(o, t, now))
      modifies this`locks, this`queue, this`clock, this`log
      ensures State() == Step(ttl, old(State()), Call(o, t, now))
      ensures r.Answer? <==> Fresh(ttl, cache, o, now).Some?
      ensures r.Answer? ==> o in cache && r.parser == cache[o].parser && now - cache[o].at < ttl
      ensures r.MustWait? ==> (o, t) in queue
      ensures r.MustLoad? <==> log == old(log) + [Started(o, t, now)]
    {
      var parser := LookUp(o, now);
      clock := now;
      if parser.Some? {
        return Answer(parser.value);
      }
      if o !in locks {
        locks := locks[o := None];
      }
      assert Holders() == old(Holders());
      if locks[o].Some? || exists w :: w in queue && w.0 == o {
        queue := queue + {(o, t)};
        return MustWait;
      }
      r := Recheck(o, t, now);
    }

    /** Under the lock: another task may have filled the cache in the meantime. */
    method Recheck(o: Origin, t: Task, now: real) returns (r: Progress<P>)
      requires o in locks && locks[o].None?
      modifies this`locks, this`clock, this`log
      ensures State() == Locked(ttl, old(State()), o, t, now)
      ensures !r.MustWait? && (r.Answer? <==> Fresh(ttl, cache, o, now).Some?)
      ensures r.Answer? ==> r.parser == cache[o].parser
      ensures log == old(log) + (if r.MustLoad? then [Started(o, t, now)] else [])
    {
      var parser := LookUp(o, now);
      clock := now;
      if parser.Some? {
        return Answer(parser.value);
      }
      ghost var was := Holders();
      locks := locks[o := Some(t)];
      assert Holders() == was[o := t];
      log := log + [Started(o, t, now)];
      return MustLoad;
    }

    /** A queued task gets the lock. */
    method Granted(o: Origin, t: Task, now: real) returns (r: Progress<P>)
      requires Enabled(State(), Enter(o, t, now)) && o in locks
      modifies this`locks, this`queue, this`clock, this`log
      ensures State() == Step(ttl, old(State()), Enter(o, t, now))
      ensures !r.MustWait? && (r.Answer? <==> Fresh(ttl, cache, o, now).Some?)
    {
      queue := queue - {(o, t)};
      assert o !in Holders();
      r := Recheck(o, t, now);
    }

    /** The load is over: its parser is stored, even one that allows everything after an error. */
    method Loaded(o: Origin, t: Task, parser: P, now: real)
      requires Enabled(State(), Finish(o, t, parser, now))
      modifies this`cache, this`locks, this`clock, this`log
      ensures State() == Step(ttl, old(State()), Finish(o, t, parser, now))
      ensures ttl > 0.0 ==> Fresh(ttl, cache, o, now) == Some(parser)
    {
      cache := cache[o := Cached(parser, now)];
      ghost var was := Holders();
      locks := locks[o := None];
      assert Holders() == was - {o};
      clock := now;
      log := log + [Stored(o, t, now)];
    }

    /** Cancelled while queueing, or while loading: nothing is stored and the lock is free again. */
    method Cancelled(o: Origin, t: Task)
      requires Enabled(State(), Abort(o, t))
      modifies this`locks, this`queue, this`log
      ensures State() == Step(ttl, old(State()), Abort(o, t))
    {
      if (o, t) in queue {
        queue := queue - {(o, t)};
        return;
      }
      ghost var was := Holders();
      locks := locks[o := None];
      assert Holders() == was - {o};
      log := log + [Dropped(o, t)];
    }
  }
}
