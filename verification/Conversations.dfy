/**
  The flow table as a demultiplexer: over every capture that starts with an empty table, a
  live record is the fold of the per-flow step over its conversation, all of it, from the
  packet that created the record on.
*/
module Conversations {
  import opened Wrappers
  import opened Bits
  import opened Decode
  import opened Flows
  import opened Verdicts
  import opened FlowHistory
  import opened EngineRuns

  predicate Belongs(pk: Option<Packet>, key: Tuple5) {
    pk.Some? && SameTuple(TupleOf(pk.value), key)
  }

  /** The packets of one conversation in a capture, in order. Nothing here knows of the table. */
  function Conversation(frames: seq<seq<byte>>, linktype: nat, key: Tuple5): (h: seq<Packet>) {
    if |frames| == 0 then []
    else
      var h := Conversation(frames[..|frames| - 1], linktype, key);
      var pk := DecodeFrame(frames[|frames| - 1], linktype);
      if Belongs(pk, key) then h + [pk.value] else h
  }

  /** Frame `k` is the last one that starts a flow in slot `s`; it gives the flow its 5-tuple. */
  ghost predicate StartedAt(rs: RuleSet, flowHash: Tuple5 -> nat, linktype: nat, e: Engine, frames: seq<seq<byte>>,
                            k: nat, s: nat)
    requires WINDOW < |e.table.slots| && s < |e.table.slots| && k < |frames|
  {
    && Starts(rs, flowHash, linktype, e, frames, k, s)
    && (forall j :: k < j < |frames| ==> !Starts(rs, flowHash, linktype, e, frames, j, s))
    && FlowTuple(Run(rs, flowHash, linktype, e, frames).table.slots[s]) ==
       TupleOf(DecodeFrame(frames[k], linktype).value)
  }

  /** The history of a live slot is its conversation since the flow was started. */
  ghost predicate HoldsConversation(rs: RuleSet, flowHash: Tuple5 -> nat, linktype: nat, e: Engine,
                                    frames: seq<seq<byte>>, s: nat, h: seq<Packet>)
    requires WINDOW < |e.table.slots| && s < |e.table.slots|
  {
    var f := Run(rs, flowHash, linktype, e, frames).table.slots[s];
    f.inUse ==>
      exists k: nat :: k < |frames| && StartedAt(rs, flowHash, linktype, e, frames, k, s) &&
                       h == Conversation(frames[k..], linktype, FlowTuple(f))
  }

  /** One frame, seen from one slot: the packet goes to the slot of its own conversation and to no other. */
  lemma StepFromSlot(rs: RuleSet, flowHash: Tuple5 -> nat, linktype: nat, t: Traced, frame: seq<byte>, s: nat)
    requires TraceOk(rs, flowHash, t) && WINDOW < |t.e.table.slots| && s < |t.hist| == |t.e.table.slots|
    ensures var r, pk := TracedStep(rs, flowHash, linktype, t, frame), DecodeFrame(frame, linktype);
      var was, now := t.e.table.slots[s], r.e.table.slots[s];
      if CreatesIn(flowHash, linktype, t.e.table, frame, s) then
        pk.Some? && r.hist[s] == [pk.value] && FlowTuple(now) == TupleOf(pk.value)
      else
        && now.inUse == was.inUse && FlowTuple(now) == FlowTuple(was)
        && (now.inUse ==>
              r.hist[s] == t.hist[s] + (if Belongs(pk, FlowTuple(now)) then [pk.value] else []))
  {
    hide TableOk, SlotOk, FlowStep, Enter, FlowTuple, TupleOf, NewFlow, DecodeFrame, CountFlow, SameTuple;
    if DecodeFrame(frame, linktype).Some? {
      var pk := DecodeFrame(frame, linktype).value;
      EnterKeepsTable(t.e.table, flowHash, pk);
      Roomy(t.e.table, flowHash);
      var (t', i, isNew) := Enter(t.e.table, flowHash, pk);
      StepCounts(rs, t'.slots[i], pk);
      NewTuple(pk);
      SameTupleEquivalence(FlowTuple(t'.slots[i]), TupleOf(pk), FlowTuple(t'.slots[s]));
      SameTupleEquivalence(TupleOf(pk), FlowTuple(t'.slots[s]), TupleOf(pk));
      if s != i && t'.slots[s].inUse {
        OnlyOne(t', flowHash, i, s);
      }
    }
  }

  lemma OnlyOne(t: Table, flowHash: Tuple5 -> nat, i: nat, s: nat)
    requires TableOk(t, flowHash) && i < |t.slots| && s < |t.slots| && i != s
    requires t.slots[i].inUse && t.slots[s].inUse
    ensures !SameTuple(FlowTuple(t.slots[i]), FlowTuple(t.slots[s]))
  {
    assert !Twins(t.slots[i], t.slots[s]);
  }

  // ------------------------------------------------------------------ over a capture

  lemma OneMoreFrame(frames: seq<seq<byte>>, linktype: nat, key: Tuple5, k: nat)
    requires k < |frames|
    ensures var n := |frames| - 1;
      Conversation(frames[k..], linktype, key) ==
      Conversation(frames[..n][k..], linktype, key) +
      (if Belongs(DecodeFrame(frames[n], linktype), key) then [DecodeFrame(frames[n], linktype).value] else [])
  {
    hide Belongs, DecodeFrame;
    var n := |frames| - 1;
    assert frames[k..][..n - k] == frames[..n][k..];
  }

  /** What the run up to the last frame says of a slot, after the last frame. */
  lemma StillStarted(rs: RuleSet, flowHash: Tuple5 -> nat, linktype: nat, e: Engine, frames: seq<seq<byte>>,
                     k: nat, s: nat)
    requires WINDOW < |e.table.slots| && s < |e.table.slots| && k < |frames| - 1
    requires var n := |frames| - 1;
      && StartedAt(rs, flowHash, linktype, e, frames[..n], k, s)
      && !Starts(rs, flowHash, linktype, e, frames, n, s)
      && FlowTuple(Run(rs, flowHash, linktype, e, frames).table.slots[s]) ==
         FlowTuple(Run(rs, flowHash, linktype, e, frames[..n]).table.slots[s])
    ensures StartedAt(rs, flowHash, linktype, e, frames, k, s)
  {
    hide Starts, Run, FlowTuple, TupleOf, DecodeFrame;
    var n := |frames| - 1;
    forall j: nat | k <= j < n
      ensures Starts(rs, flowHash, linktype, e, frames[..n], j, s) == Starts(rs, flowHash, linktype, e, frames, j, s)
    {
      StartsInPrefix(rs, flowHash, linktype, e, frames, n, j, s);
    }
  }

  /** A flow that was just started holds the packet that started it. */
  lemma JustStarted(rs: RuleSet, flowHash: Tuple5 -> nat, linktype: nat, e: Engine, frames: seq<seq<byte>>, s: nat)
    requires WINDOW < |e.table.slots| && s < |e.table.slots| && |frames| > 0
    requires Starts(rs, flowHash, linktype, e, frames, |frames| - 1, s)
    requires DecodeFrame(frames[|frames| - 1], linktype).Some?
    requires FlowTuple(Run(rs, flowHash, linktype, e, frames).table.slots[s]) ==
             TupleOf(DecodeFrame(frames[|frames| - 1], linktype).value)
    ensures var n, f := |frames| - 1, Run(rs, flowHash, linktype, e, frames).table.slots[s];
      && StartedAt(rs, flowHash, linktype, e, frames, n, s)
      && Conversation(frames[n..], linktype, FlowTuple(f)) == [DecodeFrame(frames[n], linktype).value]
  {
    hide Starts, Run, FlowTuple, TupleOf, DecodeFrame, SameTuple;
    var n, pk := |frames| - 1, DecodeFrame(frames[|frames| - 1], linktype).value;
    SameTupleEquivalence(TupleOf(pk), TupleOf(pk), TupleOf(pk));
    OneMoreFrame(frames, linktype, TupleOf(pk), n);
    assert frames[..n][n..] == [];
  }

  /** The trace of a run, in terms of the capture alone. */
  lemma {:induction false} HistoriesAreConversations(rs: RuleSet, flowHash: Tuple5 -> nat, linktype: nat, e: Engine,
                                                     frames: seq<seq<byte>>, s: nat)
    requires Fresh(e) && DirectionBlind(flowHash) && s < |e.table.slots|
    ensures WINDOW < |e.table.slots|
    ensures HoldsConversation(rs, flowHash, linktype, e, frames, s,
                              TracedRun(rs, flowHash, linktype, NoHistory(e), frames).hist[s])
  {
    hide TraceOk, TracedStep, StartedAt, CreatesIn, Conversation, FlowTuple, TupleOf, DecodeFrame, Step;
    Populated(e);
    if |frames| > 0 {
      hide Fresh;
      var n := |frames| - 1;
      FreshTrace(rs, flowHash, e);
      RunKeepsTrace(rs, flowHash, linktype, NoHistory(e), frames[..n]);
      var t := TracedRun(rs, flowHash, linktype, NoHistory(e), frames[..n]);
      HistoriesAreConversations(rs, flowHash, linktype, e, frames[..n], s);
      StepFromSlot(rs, flowHash, linktype, t, frames[n], s);
      var f := Run(rs, flowHash, linktype, e, frames).table.slots[s];
      if f.inUse {
        if Starts(rs, flowHash, linktype, e, frames, n, s) {
          JustStarted(rs, flowHash, linktype, e, frames, s);
        } else {
          var k: nat :| k < n && StartedAt(rs, flowHash, linktype, e, frames[..n], k, s) &&
                        t.hist[s] == Conversation(frames[..n][k..], linktype, FlowTuple(t.e.table.slots[s]));
          StillStarted(rs, flowHash, linktype, e, frames, k, s);
          OneMoreFrame(frames, linktype, FlowTuple(f), k);
        }
      }
    }
  }

  /**
    Every live record, after any capture, is what its conversation has made of it: the fold
    of the per-flow step over all packets of its 5-tuple, in either direction, from the
    frame on that started the record, and over nothing else.
  */
  lemma Demultiplexed(rs: RuleSet, flowHash: Tuple5 -> nat, linktype: nat, e: Engine, frames: seq<seq<byte>>, s: nat)
    requires Fresh(e) && DirectionBlind(flowHash) && s < |e.table.slots|
    ensures WINDOW < |e.table.slots|
    ensures var f := Run(rs, flowHash, linktype, e, frames).table.slots[s];
      f.inUse ==>
        exists k: nat :: k < |frames| && StartedAt(rs, flowHash, linktype, e, frames, k, s) &&
                         Folds(rs, f, Conversation(frames[k..], linktype, FlowTuple(f)))
  {
    hide TraceOk, StartedAt, Conversation, FlowTuple, Fresh, FlowAfter, Run, TracedRun;
    Populated(e);
    FreshTrace(rs, flowHash, e);
    RunKeepsTrace(rs, flowHash, linktype, NoHistory(e), frames);
    SlotOfTrace(rs, flowHash, TracedRun(rs, flowHash, linktype, NoHistory(e), frames), s);
    HistoriesAreConversations(rs, flowHash, linktype, e, frames, s);
  }

  ghost predicate Folds(rs: RuleSet, f: Flow, h: seq<Packet>) {
    h != [] && f == FlowAfter(rs, h)
  }

  // ------------------------------------------------------------------ without evictions

  lemma {:induction false} ConversationSplits(frames: seq<seq<byte>>, linktype: nat, key: Tuple5, k: nat)
    requires k <= |frames|
    ensures Conversation(frames, linktype, key) ==
            Conversation(frames[..k], linktype, key) + Conversation(frames[k..], linktype, key)
    decreases |frames|
  {
    hide Belongs, DecodeFrame;
    if k == |frames| {
      assert frames[..k] == frames && frames[k..] == [];
    } else {
      var n := |frames| - 1;
      ConversationSplits(frames[..n], linktype, key, k);
      OneMoreFrame(frames, linktype, key, k);
      assert frames[..n][..k] == frames[..k];
    }
  }

  lemma {:induction false} NotSpokenYet(frames: seq<seq<byte>>, linktype: nat, key: Tuple5)
    requires forall k :: 0 <= k < |frames| ==> !Belongs(DecodeFrame(frames[k], linktype), key)
    ensures Conversation(frames, linktype, key) == []
  {
    if |frames| > 0 {
      NotSpokenYet(frames[..|frames| - 1], linktype, key);
    }
  }

  /** A step that evicts nobody loses no conversation, and tracks that of its own packet. */
  lemma StepKeepsTracked(rs: RuleSet, flowHash: Tuple5 -> nat, linktype: nat, e: Engine, frame: seq<byte>, p: Packet)
    requires TableOk(e.table, flowHash) && WINDOW < |e.table.slots|
    requires !Overwrites(flowHash, linktype, e.table, frame)
    requires Tracked(e.table.slots, p) || DecodeFrame(frame, linktype) == Some(p)
    ensures Tracked(Step(rs, flowHash, linktype, e, frame).table.slots, p)
  {
    hide TableOk, FlowStep, Enter, FlowTuple, TupleOf, NewFlow, DecodeFrame, CountFlow, CountPacket, SameTuple;
    if DecodeFrame(frame, linktype).Some? {
      var pk := DecodeFrame(frame, linktype).value;
      EnterKeepsTable(e.table, flowHash, pk);
      var (t', i, isNew) := Enter(e.table, flowHash, pk);
      StepCounts(rs, t'.slots[i], pk);
      var slots := Step(rs, flowHash, linktype, e, frame).table.slots;
      if p == pk {
        assert slots[i].inUse && SameTuple(FlowTuple(slots[i]), TupleOf(p));
      } else {
        var was := e.table.slots;
        var s :| 0 <= s < |was| && was[s].inUse && SameTuple(FlowTuple(was[s]), TupleOf(p));
        assert slots[s].inUse && SameTuple(FlowTuple(slots[s]), TupleOf(p));
      }
    }
  }

  /** A run that evicts nobody tracks the conversation of every packet. */
  lemma {:induction false} RunTracks(rs: RuleSet, flowHash: Tuple5 -> nat, linktype: nat, e: Engine,
                                     frames: seq<seq<byte>>, j: nat)
    requires Fresh(e) && DirectionBlind(flowHash) && j < |frames| && DecodeFrame(frames[j], linktype).Some?
    requires WINDOW < |e.table.slots| && Evictions(rs, flowHash, linktype, e, frames) == 0
    ensures Tracked(Run(rs, flowHash, linktype, e, frames).table.slots, DecodeFrame(frames[j], linktype).value)
  {
    hide Fresh, TraceOk, TableOk, Tracked, DecodeFrame, Step, Overwrites, TracedRun;
    var n := |frames| - 1;
    FreshTrace(rs, flowHash, e);
    RunKeepsTrace(rs, flowHash, linktype, NoHistory(e), frames[..n]);
    TableOfTrace(rs, flowHash, TracedRun(rs, flowHash, linktype, NoHistory(e), frames[..n]));
    if j < n {
      RunTracks(rs, flowHash, linktype, e, frames[..n], j);
    }
    StepKeepsTracked(rs, flowHash, linktype, Run(rs, flowHash, linktype, e, frames[..n]), frames[n],
                     DecodeFrame(frames[j], linktype).value);
  }

  /**
    As long as nobody is evicted, the table groups the capture by conversation: every packet's
    conversation has a record, and every record is the fold of its whole conversation.
  */
  lemma GroupsByConversation(rs: RuleSet, flowHash: Tuple5 -> nat, linktype: nat, e: Engine, frames: seq<seq<byte>>)
    requires Fresh(e) && DirectionBlind(flowHash)
    ensures WINDOW < |e.table.slots|
    ensures var r := Run(rs, flowHash, linktype, e, frames);
      r.table.evictions == 0 ==>
        && (forall j :: 0 <= j < |frames| && DecodeFrame(frames[j], linktype).Some? ==>
              Tracked(r.table.slots, DecodeFrame(frames[j], linktype).value))
        && (forall s :: 0 <= s < |r.table.slots| && r.table.slots[s].inUse ==>
              Folds(rs, r.table.slots[s], Conversation(frames, linktype, FlowTuple(r.table.slots[s]))))
  {
    hide Fresh, Tracked, DecodeFrame, Run, Conversation, Folds, FlowTuple, Evictions, NO_STATS;
    Populated(e);
    StartsAtZero(e);
    RunCountsFlows(rs, flowHash, linktype, e, frames);
    var r := Run(rs, flowHash, linktype, e, frames);
    if r.table.evictions == 0 {
      forall j | 0 <= j < |frames| && DecodeFrame(frames[j], linktype).Some?
        ensures Tracked(r.table.slots, DecodeFrame(frames[j], linktype).value)
      {
        RunTracks(rs, flowHash, linktype, e, frames, j);
      }
      forall s | 0 <= s < |r.table.slots| && r.table.slots[s].inUse
        ensures Folds(rs, r.table.slots[s], Conversation(frames, linktype, FlowTuple(r.table.slots[s])))
      {
        WholeConversation(rs, flowHash, linktype, e, frames, s);
      }
    }
  }

  lemma WholeConversation(rs: RuleSet, flowHash: Tuple5 -> nat, linktype: nat, e: Engine, frames: seq<seq<byte>>,
                          s: nat)
    requires Fresh(e) && DirectionBlind(flowHash) && s < |e.table.slots| && WINDOW < |e.table.slots|
    requires Evictions(rs, flowHash, linktype, e, frames) == 0
    requires Run(rs, flowHash, linktype, e, frames).table.slots[s].inUse
    ensures var f := Run(rs, flowHash, linktype, e, frames).table.slots[s];
      Folds(rs, f, Conversation(frames, linktype, FlowTuple(f)))
  {
    hide Fresh, Tracked, DecodeFrame, Run, Conversation, Folds, FlowTuple, TupleOf, SameTuple;
    hide StartedAt, Starts, Evictions;
    Demultiplexed(rs, flowHash, linktype, e, frames, s);
    var f := Run(rs, flowHash, linktype, e, frames).table.slots[s];
    var k: nat :| k < |frames| && StartedAt(rs, flowHash, linktype, e, frames, k, s) &&
                  Folds(rs, f, Conversation(frames[k..], linktype, FlowTuple(f)));
    NothingBefore(rs, flowHash, linktype, e, frames, k, s);
    ConversationSplits(frames, linktype, FlowTuple(f), k);
    assert [] + Conversation(frames[k..], linktype, FlowTuple(f)) == Conversation(frames[k..], linktype, FlowTuple(f));
  }

  /** Where nobody is evicted, the frame that starts a flow is the first of its conversation. */
  lemma NothingBefore(rs: RuleSet, flowHash: Tuple5 -> nat, linktype: nat, e: Engine, frames: seq<seq<byte>>,
                      k: nat, s: nat)
    requires Fresh(e) && DirectionBlind(flowHash) && s < |e.table.slots| && WINDOW < |e.table.slots| && k < |frames|
    requires Evictions(rs, flowHash, linktype, e, frames) == 0
    requires StartedAt(rs, flowHash, linktype, e, frames, k, s)
    ensures Conversation(frames[..k], linktype, FlowTuple(Run(rs, flowHash, linktype, e, frames).table.slots[s])) == []
  {
    hide Fresh, Tracked, TableOk, TraceOk, DecodeFrame, Run, TracedRun, Conversation, FlowTuple, TupleOf, SameTuple;
    hide Enter, Evictions;
    StartedByFrame(rs, flowHash, linktype, e, frames, k, s);
    var pk := DecodeFrame(frames[k], linktype).value;
    var front := Run(rs, flowHash, linktype, e, frames[..k]);
    FreshTrace(rs, flowHash, e);
    RunKeepsTrace(rs, flowHash, linktype, NoHistory(e), frames[..k]);
    TableOfTrace(rs, flowHash, TracedRun(rs, flowHash, linktype, NoHistory(e), frames[..k]));
    NewIffUntracked(front.table, flowHash, pk);
    FewerEvictions(rs, flowHash, linktype, e, frames, k);
    forall j | 0 <= j < k ensures !Belongs(DecodeFrame(frames[..k][j], linktype), TupleOf(pk)) {
      if Belongs(DecodeFrame(frames[j], linktype), TupleOf(pk)) {
        RunTracks(rs, flowHash, linktype, e, frames[..k], j);
        TrackedAlike(front.table.slots, DecodeFrame(frames[j], linktype).value, pk);
      }
    }
    NotSpokenYet(frames[..k], linktype, TupleOf(pk));
  }

  lemma TrackedAlike(slots: seq<Flow>, p: Packet, q: Packet)
    requires Tracked(slots, p) && SameTuple(TupleOf(p), TupleOf(q))
    ensures Tracked(slots, q)
  {
    var s :| 0 <= s < |slots| && slots[s].inUse && SameTuple(FlowTuple(slots[s]), TupleOf(p));
    SameTupleEquivalence(FlowTuple(slots[s]), TupleOf(p), TupleOf(q));
  }

  lemma {:induction false} FewerEvictions(rs: RuleSet, flowHash: Tuple5 -> nat, linktype: nat, e: Engine,
                                          frames: seq<seq<byte>>, k: nat)
    requires WINDOW < |e.table.slots| && k <= |frames|
    ensures Evictions(rs, flowHash, linktype, e, frames[..k]) <= Evictions(rs, flowHash, linktype, e, frames)
    decreases |frames|
  {
    if k == |frames| {
      assert frames[..k] == frames;
    } else {
      hide Overwrites, Run;
      var n := |frames| - 1;
      assert frames[..n][..k] == frames[..k];
      FewerEvictions(rs, flowHash, linktype, e, frames[..n], k);
    }
  }

  // ------------------------------------------------------------------ one packet each

  /** Every frame carries a server name that some rule matches. */
  ghost predicate AllMatch(rs: RuleSet, linktype: nat, frames: seq<seq<byte>>) {
    forall k :: 0 <= k < |frames| ==>
      DecodeFrame(frames[k], linktype).Some? && SniHit(rs, DecodeFrame(frames[k], linktype).value).Some?
  }

  predicate Apart(p: Option<Packet>, q: Option<Packet>) {
    p.Some? && q.Some? ==> !SameTuple(TupleOf(p.value), TupleOf(q.value))
  }

  /** No two frames belong to one conversation. */
  ghost predicate AllApart(linktype: nat, frames: seq<seq<byte>>) {
    forall i, k :: 0 <= i < k < |frames| ==> Apart(DecodeFrame(frames[i], linktype), DecodeFrame(frames[k], linktype))
  }

  /** A frame of a conversation that was not seen before starts a flow. */
  lemma ApartIsNew(rs: RuleSet, flowHash: Tuple5 -> nat, linktype: nat, e: Engine, frames: seq<seq<byte>>, pk: Packet)
    requires Fresh(e) && DirectionBlind(flowHash)
    requires forall k :: 0 <= k < |frames| && DecodeFrame(frames[k], linktype).Some? ==>
      !SameTuple(TupleOf(DecodeFrame(frames[k], linktype).value), TupleOf(pk))
    ensures WINDOW < |e.table.slots|
    ensures Enter(Run(rs, flowHash, linktype, e, frames).table, flowHash, pk).2
  {
    hide TraceOk, TableOk, SlotOk, Conversation, FlowTuple, TupleOf, SameTuple, Fresh, Run, TracedRun, Enter;
    hide DecodeFrame, FlowAfter, Starts;
    Populated(e);
    FreshTrace(rs, flowHash, e);
    RunKeepsTrace(rs, flowHash, linktype, NoHistory(e), frames);
    var t := Run(rs, flowHash, linktype, e, frames).table;
    TableOfTrace(rs, flowHash, TracedRun(rs, flowHash, linktype, NoHistory(e), frames));
    NewIffUntracked(t, flowHash, pk);
    forall s | 0 <= s < |t.slots| && t.slots[s].inUse ensures !SameTuple(FlowTuple(t.slots[s]), TupleOf(pk)) {
      Demultiplexed(rs, flowHash, linktype, e, frames, s);
      var k: nat :| k < |frames| && StartedAt(rs, flowHash, linktype, e, frames, k, s);
      StartedByFrame(rs, flowHash, linktype, e, frames, k, s);
    }
  }

  lemma TableOfTrace(rs: RuleSet, flowHash: Tuple5 -> nat, t: Traced)
    requires TraceOk(rs, flowHash, t)
    ensures TableOk(t.e.table, flowHash)
  {
  }

  lemma StartedByFrame(rs: RuleSet, flowHash: Tuple5 -> nat, linktype: nat, e: Engine, frames: seq<seq<byte>>,
                       k: nat, s: nat)
    requires WINDOW < |e.table.slots| && s < |e.table.slots| && k < |frames|
    requires StartedAt(rs, flowHash, linktype, e, frames, k, s)
    ensures DecodeFrame(frames[k], linktype).Some?
  {
    hide Run, DecodeFrame, Enter, FlowTuple, TupleOf;
  }

  /** A matched name on a new flow is counted as matched and, where names decide, as settled. */
  lemma CountsAMatch(rs: RuleSet, flowHash: Tuple5 -> nat, linktype: nat, e: Engine, frame: seq<byte>)
    requires WINDOW < |e.table.slots|
    requires var pk := DecodeFrame(frame, linktype);
      pk.Some? && SniHit(rs, pk.value).Some? && Enter(e.table, flowHash, pk.value).2
    ensures var st, st' := e.stats, Step(rs, flowHash, linktype, e, frame).stats;
      && st'.sniMatched == st.sniMatched + 1 && st'.sniUnmatched == st.sniUnmatched
      && (NamesSettle(rs) && NamesPrevail(rs) ==> st'.finals == st.finals + 1)
  {
    hide Enter, FlowStep, CountFlow, CountPacket, DecodeFrame, SniHit, NamesSettle, NamesPrevail, NewFlow;
    var pk := DecodeFrame(frame, linktype).value;
    NewSlot(e.table, flowHash, pk);
    CountPacketKeeps(pk, e.stats);
    CountsOnNew(rs, pk, CountPacket(pk, e.stats.(packets := e.stats.packets + 1)));
  }

  lemma NewSlot(t: Table, flowHash: Tuple5 -> nat, pk: Packet)
    requires WINDOW < |t.slots| && Enter(t, flowHash, pk).2
    ensures var (t', i, _) := Enter(t, flowHash, pk); t'.slots[i] == NewFlow(pk)
  {
    hide Locate, NewFlow;
  }

  lemma CountPacketKeeps(pk: Packet, st: Stats)
    ensures var st' := CountPacket(pk, st.(packets := st.packets + 1));
      (st'.sniMatched, st'.sniUnmatched, st'.finals) == (st.sniMatched, st.sniUnmatched, st.finals)
  {
  }

  lemma CountsOnNew(rs: RuleSet, pk: Packet, st: Stats)
    requires SniHit(rs, pk).Some?
    ensures var st' := CountFlow(rs, NewFlow(pk), pk, st);
      && st'.sniMatched == st.sniMatched + 1 && st'.sniUnmatched == st.sniUnmatched
      && (NamesSettle(rs) && NamesPrevail(rs) ==> st'.finals == st.finals + 1)
  {
    hide IpHit, NameHit, PayloadHit, EvidenceIsBetter, NamesSettle, NamesPrevail, Unsettled;
    hide IpStage, PayloadStage, Take;
    NothingKnown(rs, pk);
    if NamesSettle(rs) && NamesPrevail(rs) {
      ClassifyUnsettled(rs, NewFlow(pk).verdict, pk);
    }
  }

  /**
    A capture of matched names, each in a conversation of its own: every frame starts a flow
    and is a match, whether or not the table evicts, and where names decide every frame
    settles its flow.
  */
  lemma {:induction false} ReplayMatchesAll(rs: RuleSet, flowHash: Tuple5 -> nat, linktype: nat, e: Engine,
                                            frames: seq<seq<byte>>)
    requires Fresh(e) && DirectionBlind(flowHash) && AllMatch(rs, linktype, frames) && AllApart(linktype, frames)
    ensures WINDOW < |e.table.slots|
    ensures var r := Run(rs, flowHash, linktype, e, frames);
      && r.stats.sniMatched == |frames| && r.stats.sniUnmatched == 0
      && Creations(rs, flowHash, linktype, e, frames) == |frames|
      && (NamesSettle(rs) && NamesPrevail(rs) ==> r.stats.finals == |frames|)
  {
    hide Fresh, NamesSettle, NamesPrevail, Step, Enter, DecodeFrame, SniHit, TupleOf, SameTuple;
    Populated(e);
    if |frames| == 0 {
      NothingCounted(e);
    } else {
      var n := |frames| - 1;
      ReplayMatchesAll(rs, flowHash, linktype, e, frames[..n]);
      ApartIsNew(rs, flowHash, linktype, e, frames[..n], DecodeFrame(frames[n], linktype).value);
      CountsAMatch(rs, flowHash, linktype, Run(rs, flowHash, linktype, e, frames[..n]), frames[n]);
    }
  }

  lemma NothingCounted(e: Engine)
    requires Fresh(e)
    ensures e.stats == NO_STATS
  {
  }
}
