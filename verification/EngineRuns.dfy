/**
  Whole runs of the classifier over a capture: flows do not disturb each other, the flow
  table stays in order, final verdicts depend on names alone, and the counters add up.
*/
module EngineRuns {
  import opened Bits
  import opened Probing
  import opened Decode
  import opened Flows
  import opened Verdicts
  import opened FlowHistory

  // ------------------------------------------------------------------ histories

  /** An engine together with, per slot, the packets its present flow has seen. */
  datatype Traced = Traced(e: Engine, hist: seq<seq<Packet>>)

  /** The history of the packet's slot is restarted when the flow is new. */
  function Remember(hist: seq<seq<Packet>>, i: nat, isNew: bool, pk: Packet): (r: seq<seq<Packet>>)
    requires i < |hist|
    ensures |r| == |hist|
  {
    hist[i := if isNew then [pk] else hist[i] + [pk]]
  }

  function TracedStep(rs: RuleSet, flowHash: Tuple5 -> nat, linktype: nat, t: Traced, frame: seq<byte>): (r: Traced)
    requires WINDOW < |t.e.table.slots| && |t.hist| == |t.e.table.slots|
    ensures |r.hist| == |t.hist| == |r.e.table.slots|
    ensures r.e == Step(rs, flowHash, linktype, t.e, frame)
  {
    var e' := Step(rs, flowHash, linktype, t.e, frame);
    match DecodeFrame(frame, linktype)
    case None => Traced(e', t.hist)
    case Some(pk) =>
      var (_, i, isNew) := Enter(t.e.table, flowHash, pk);
      Traced(e', Remember(t.hist, i, isNew, pk))
  }

  function TracedRun(rs: RuleSet, flowHash: Tuple5 -> nat, linktype: nat, t: Traced,
                     frames: seq<seq<byte>>): (r: Traced)
    requires WINDOW < |t.e.table.slots| && |t.hist| == |t.e.table.slots|
    ensures |r.hist| == |t.hist| == |r.e.table.slots|
    ensures r.e == Run(rs, flowHash, linktype, t.e, frames)
  {
    if |frames| == 0 then t
    else
      TracedStep(rs, flowHash, linktype,
                 TracedRun(rs, flowHash, linktype, t, frames[..|frames| - 1]), frames[|frames| - 1])
  }

  /** A live slot holds what its own history, and nothing else, has made of it. */
  ghost predicate SlotOk(rs: RuleSet, f: Flow, h: seq<Packet>) {
    && (f.inUse <==> h != [])
    && (f.inUse ==>
          && f == FlowAfter(rs, h)
          && forall k :: 0 <= k < |h| ==> SameTuple(TupleOf(h[k]), FlowTuple(f)))
  }

  ghost predicate TraceOk(rs: RuleSet, flowHash: Tuple5 -> nat, t: Traced) {
    && TableOk(t.e.table, flowHash)
    && |t.hist| == |t.e.table.slots|
    && forall s :: 0 <= s < |t.hist| ==> SlotOk(rs, t.e.table.slots[s], t.hist[s])
  }

  lemma SlotStep(rs: RuleSet, f: Flow, h: seq<Packet>, isNew: bool, pk: Packet)
    requires f.inUse && SameTuple(FlowTuple(f), TupleOf(pk))
    requires if isNew then f == NewFlow(pk) else SlotOk(rs, f, h)
    ensures SlotOk(rs, FlowStep(rs, f, pk), if isNew then [pk] else h + [pk])
  {
    hide FlowStep, FlowTuple, TupleOf, NewFlow;
    StepCounts(rs, f, pk);
    SameTupleEquivalence(FlowTuple(f), TupleOf(pk), FlowTuple(f));
    if !isNew {
      assert (h + [pk])[..|h|] == h;
    }
  }

  lemma StepKeepsTrace(rs: RuleSet, flowHash: Tuple5 -> nat, linktype: nat, t: Traced, frame: seq<byte>)
    requires TraceOk(rs, flowHash, t)
    ensures TraceOk(rs, flowHash, TracedStep(rs, flowHash, linktype, t, frame))
  {
    match DecodeFrame(frame, linktype)
    case None =>
    case Some(pk) =>
      hide TableOk, SlotOk, FlowStep, Enter, FlowTuple, TupleOf, NewFlow, DecodeFrame, CountFlow;
      EnterKeepsTable(t.e.table, flowHash, pk);
      Roomy(t.e.table, flowHash);
      var (t', i, isNew) := Enter(t.e.table, flowHash, pk);
      var f := t'.slots[i];
      SlotStep(rs, f, t.hist[i], isNew, pk);
      StepCounts(rs, f, pk);
      StepAnnotates(rs, f, pk);
      AnnotateKeepsTable(t', flowHash, i, FlowStep(rs, f, pk).packets, FlowStep(rs, f, pk).verdict);
  }

  lemma StepAnnotates(rs: RuleSet, f: Flow, pk: Packet)
    ensures FlowStep(rs, f, pk) ==
      f.(packets := FlowStep(rs, f, pk).packets, verdict := FlowStep(rs, f, pk).verdict)
  {
  }

  /**
    Demultiplexing: over every capture, each live flow record is the result of folding the
    per-flow step over the packets of its own conversation since the flow was created;
    other conversations, insertions and evictions elsewhere leave no mark on it. And at
    every point no conversation is tracked twice, and every flow is in its window.
  */
  lemma {:induction false} RunKeepsTrace(rs: RuleSet, flowHash: Tuple5 -> nat, linktype: nat, t: Traced,
                                         frames: seq<seq<byte>>)
    requires TraceOk(rs, flowHash, t)
    ensures TraceOk(rs, flowHash, TracedRun(rs, flowHash, linktype, t, frames))
  {
    hide TraceOk, TracedStep;
    Sized(rs, flowHash, t);
    if |frames| > 0 {
      var n := |frames| - 1;
      RunKeepsTrace(rs, flowHash, linktype, t, frames[..n]);
      StepKeepsTrace(rs, flowHash, linktype, TracedRun(rs, flowHash, linktype, t, frames[..n]), frames[n]);
    }
  }

  lemma Sized(rs: RuleSet, flowHash: Tuple5 -> nat, t: Traced)
    requires TraceOk(rs, flowHash, t)
    ensures WINDOW < |t.e.table.slots| && |t.hist| == |t.e.table.slots|
  {
  }

  ghost function NoHistory(e: Engine): (t: Traced)
    ensures |t.hist| == |e.table.slots| && t.e == e
  {
    Traced(e, seq(|e.table.slots|, _ => []))
  }

  lemma FreshTrace(rs: RuleSet, flowHash: Tuple5 -> nat, e: Engine)
    requires Fresh(e) && DirectionBlind(flowHash)
    ensures TraceOk(rs, flowHash, NoHistory(e))
  {
    FreshTableOk(e.table.slots, flowHash);
    assert e.table == Table(e.table.slots, 0, 0);
  }

  // ------------------------------------------------------------------ independence

  /** Two runs track the same conversations in the same slots. */
  ghost predicate SameTracking(a: Traced, b: Traced) {
    && a.hist == b.hist
    && |a.e.table.slots| == |b.e.table.slots|
    && a.e.table.count == b.e.table.count && a.e.table.evictions == b.e.table.evictions
    && forall s :: 0 <= s < |a.e.table.slots| ==> SameKey(a.e.table.slots[s], b.e.table.slots[s])
  }

  /** The fields of a flow that lookups read. */
  predicate SameKey(f: Flow, g: Flow) {
    && f.inUse == g.inUse && f.l4proto == g.l4proto && f.ipVersion == g.ipVersion
    && f.srcIp == g.srcIp && f.dstIp == g.dstIp && f.srcPort == g.srcPort && f.dstPort == g.dstPort
  }

  lemma {:induction false} SameLocate(a: seq<Flow>, b: seq<Flow>, home: nat, probe: nat, p: Packet)
    requires WINDOW < |a| == |b| && home < |a| && probe <= WINDOW
    requires forall s :: 0 <= s < |a| ==> SameKey(a[s], b[s])
    ensures Locate(a, home, probe, p) == Locate(b, home, probe, p)
    decreases WINDOW - probe
  {
    if probe < WINDOW {
      var i := SlotAt(home, probe, |a|);
      assert SameKey(a[i], b[i]);
      SameLocate(a, b, home, probe + 1, p);
    }
  }

  lemma SameEnter(a: Table, b: Table, flowHash: Tuple5 -> nat, p: Packet)
    requires WINDOW < |a.slots| == |b.slots| && a.count == b.count && a.evictions == b.evictions
    requires forall s :: 0 <= s < |a.slots| ==> SameKey(a.slots[s], b.slots[s])
    ensures var (a', i, n) := Enter(a, flowHash, p);
            var (b', j, m) := Enter(b, flowHash, p);
      && i == j && n == m && a'.count == b'.count && a'.evictions == b'.evictions
      && forall s :: 0 <= s < |a.slots| ==> SameKey(a'.slots[s], b'.slots[s])
  {
    hide Locate;
    SameLocate(a.slots, b.slots, HomeSlot(flowHash, TupleOf(p), |a.slots|), 0, p);
  }

  lemma StepsTrackAlike(rs: RuleSet, other: RuleSet, flowHash: Tuple5 -> nat, linktype: nat, a: Traced,
                        b: Traced, frame: seq<byte>)
    requires WINDOW < |a.e.table.slots| && |a.hist| == |a.e.table.slots| && SameTracking(a, b)
    ensures SameTracking(TracedStep(rs, flowHash, linktype, a, frame), TracedStep(other, flowHash, linktype, b, frame))
  {
    match DecodeFrame(frame, linktype)
    case None =>
    case Some(pk) =>
      hide DecodeFrame, Enter, FlowStep, CountFlow;
      SameEnter(a.e.table, b.e.table, flowHash, pk);
      var (a', i, _) := Enter(a.e.table, flowHash, pk);
      var (b', j, _) := Enter(b.e.table, flowHash, pk);
      StepAnnotates(rs, a'.slots[i], pk);
      StepAnnotates(other, b'.slots[j], pk);
  }

  /** Which packets belong to which flow does not depend on the rules. */
  lemma {:induction false} RunsTrackAlike(rs: RuleSet, other: RuleSet, flowHash: Tuple5 -> nat, linktype: nat,
                                          t: Traced, frames: seq<seq<byte>>)
    requires WINDOW < |t.e.table.slots| && |t.hist| == |t.e.table.slots|
    ensures SameTracking(TracedRun(rs, flowHash, linktype, t, frames), TracedRun(other, flowHash, linktype, t, frames))
  {
    hide TracedStep;
    if |frames| > 0 {
      var n := |frames| - 1;
      hide SameTracking;
      RunsTrackAlike(rs, other, flowHash, linktype, t, frames[..n]);
      StepsTrackAlike(rs, other, flowHash, linktype, TracedRun(rs, flowHash, linktype, t, frames[..n]),
                      TracedRun(other, flowHash, linktype, t, frames[..n]), frames[n]);
    }
  }

  ghost predicate SameFinal(v: Verdict, w: Verdict) {
    v.isFinal == w.isFinal && (v.isFinal ==> (v.app, v.tier, v.conf, v.lic) == (w.app, w.tier, w.conf, w.lic))
  }

  /**
    Two engines with the same name rules but any prefix and payload rules, run over the
    same capture, settle the same flows with the same verdicts.
  */
  lemma FinalsIgnoreAddresses(rs: RuleSet, other: RuleSet, flowHash: Tuple5 -> nat, linktype: nat, e: Engine,
                              frames: seq<seq<byte>>, s: nat)
    requires NamesSettle(rs) && NamesPrevail(rs) && NamesPrevail(other)
    requires other.hash == rs.hash && other.names == rs.names
    requires Fresh(e) && DirectionBlind(flowHash) && s < |e.table.slots|
    ensures var a := Run(rs, flowHash, linktype, e, frames).table.slots[s];
            var b := Run(other, flowHash, linktype, e, frames).table.slots[s];
      SameKey(a, b) && (a.inUse ==> SameFinal(a.verdict, b.verdict))
  {
    hide TraceOk, TableOk, NamesSettle, NamesPrevail, Fresh;
    Populated(e);
    var t := NoHistory(e);
    FreshTrace(rs, flowHash, e);
    FreshTrace(other, flowHash, e);
    RunKeepsTrace(rs, flowHash, linktype, t, frames);
    RunKeepsTrace(other, flowHash, linktype, t, frames);
    RunsTrackAlike(rs, other, flowHash, linktype, t, frames);
    var a, b := TracedRun(rs, flowHash, linktype, t, frames), TracedRun(other, flowHash, linktype, t, frames);
    SlotOfTrace(rs, flowHash, a, s);
    SlotOfTrace(other, flowHash, b, s);
    if a.e.table.slots[s].inUse {
      FinalsIgnoreOtherEvidence(rs, other, a.hist[s]);
    }
  }

  lemma Populated(e: Engine)
    requires Fresh(e)
    ensures WINDOW < |e.table.slots|
  {
  }

  lemma SlotOfTrace(rs: RuleSet, flowHash: Tuple5 -> nat, t: Traced, s: nat)
    requires TraceOk(rs, flowHash, t) && s < |t.hist|
    ensures |t.hist| == |t.e.table.slots| && SlotOk(rs, t.e.table.slots[s], t.hist[s])
  {
  }

  // ------------------------------------------------------------------ creations and evictions

  /** The frame makes the table start a flow. */
  predicate Creates(flowHash: Tuple5 -> nat, linktype: nat, t: Table, frame: seq<byte>)
    requires WINDOW < |t.slots|
  {
    var pk := DecodeFrame(frame, linktype);
    pk.Some? && Enter(t, flowHash, pk.value).2
  }

  /** The frame makes the table overwrite a live flow. */
  predicate Overwrites(flowHash: Tuple5 -> nat, linktype: nat, t: Table, frame: seq<byte>)
    requires WINDOW < |t.slots|
  {
    var pk := DecodeFrame(frame, linktype);
    pk.Some? && Enter(t, flowHash, pk.value).2 && t.slots[Enter(t, flowHash, pk.value).1].inUse
  }

  /** The frame makes the table take slot `s` for a new flow. */
  predicate CreatesIn(flowHash: Tuple5 -> nat, linktype: nat, t: Table, frame: seq<byte>, s: nat)
    requires WINDOW < |t.slots|
  {
    var pk := DecodeFrame(frame, linktype);
    pk.Some? && Enter(t, flowHash, pk.value).2 && Enter(t, flowHash, pk.value).1 == s
  }

  /** Frame `k` of a capture starts a new flow in slot `s`. */
  predicate Starts(rs: RuleSet, flowHash: Tuple5 -> nat, linktype: nat, e: Engine, frames: seq<seq<byte>>,
                   k: nat, s: nat)
    requires WINDOW < |e.table.slots| && k < |frames|
  {
    CreatesIn(flowHash, linktype, Run(rs, flowHash, linktype, e, frames[..k]).table, frames[k], s)
  }

  /** Frame `k` of a capture takes slot `s` from a live flow. */
  predicate Evicts(rs: RuleSet, flowHash: Tuple5 -> nat, linktype: nat, e: Engine, frames: seq<seq<byte>>,
                   k: nat, s: nat)
    requires WINDOW < |e.table.slots| && k < |frames| && s < |e.table.slots|
  {
    && Starts(rs, flowHash, linktype, e, frames, k, s)
    && Run(rs, flowHash, linktype, e, frames[..k]).table.slots[s].inUse
  }

  /** How many frames of a capture start a flow. */
  function Creations(rs: RuleSet, flowHash: Tuple5 -> nat, linktype: nat, e: Engine, frames: seq<seq<byte>>)
    : (n: nat)
    requires WINDOW < |e.table.slots|
  {
    if |frames| == 0 then 0
    else
      var last := |frames| - 1;
      Creations(rs, flowHash, linktype, e, frames[..last]) +
      One(Creates(flowHash, linktype, Run(rs, flowHash, linktype, e, frames[..last]).table, frames[last]))
  }

  /** How many frames of a capture take a slot from a live flow. */
  function Evictions(rs: RuleSet, flowHash: Tuple5 -> nat, linktype: nat, e: Engine, frames: seq<seq<byte>>)
    : (n: nat)
    requires WINDOW < |e.table.slots|
  {
    if |frames| == 0 then 0
    else
      var last := |frames| - 1;
      Evictions(rs, flowHash, linktype, e, frames[..last]) +
      One(Overwrites(flowHash, linktype, Run(rs, flowHash, linktype, e, frames[..last]).table, frames[last]))
  }

  lemma EnterCounts(t: Table, flowHash: Tuple5 -> nat, p: Packet)
    requires WINDOW < |t.slots|
    ensures var (t', i, isNew) := Enter(t, flowHash, p);
      && t'.count + t'.evictions == t.count + t.evictions + One(isNew)
      && t'.evictions == t.evictions + One(isNew && t.slots[i].inUse)
  {
    LocateFinds(t.slots, flowHash, HomeSlot(flowHash, TupleOf(p), |t.slots|), 0, p);
  }

  /** One step counts the flow it starts, and the eviction. */
  lemma StepCountsFlows(rs: RuleSet, flowHash: Tuple5 -> nat, linktype: nat, e: Engine, frame: seq<byte>)
    requires WINDOW < |e.table.slots|
    ensures var r := Step(rs, flowHash, linktype, e, frame);
      && r.table.count + r.table.evictions ==
           e.table.count + e.table.evictions + One(Creates(flowHash, linktype, e.table, frame))
      && r.table.evictions == e.table.evictions + One(Overwrites(flowHash, linktype, e.table, frame))
  {
    hide Enter, FlowStep, CountFlow, DecodeFrame;
    if DecodeFrame(frame, linktype).Some? {
      EnterCounts(e.table, flowHash, DecodeFrame(frame, linktype).value);
    }
  }

  /**
    The flow count and the eviction counter say what happened: together they have grown by
    one for every frame that started a flow, and the counter by one for every flow that was
    overwritten.
  */
  lemma {:induction false} RunCountsFlows(rs: RuleSet, flowHash: Tuple5 -> nat, linktype: nat, e: Engine,
                                          frames: seq<seq<byte>>)
    requires WINDOW < |e.table.slots|
    ensures var r := Run(rs, flowHash, linktype, e, frames);
      && r.table.count + r.table.evictions ==
           e.table.count + e.table.evictions + Creations(rs, flowHash, linktype, e, frames)
      && r.table.evictions == e.table.evictions + Evictions(rs, flowHash, linktype, e, frames)
  {
    if |frames| > 0 {
      hide Step, Creates, Overwrites;
      var n := |frames| - 1;
      RunCountsFlows(rs, flowHash, linktype, e, frames[..n]);
      StepCountsFlows(rs, flowHash, linktype, Run(rs, flowHash, linktype, e, frames[..n]), frames[n]);
    }
  }

  /** What frame `k` does depends on the frames up to it. */
  lemma StartsInPrefix(rs: RuleSet, flowHash: Tuple5 -> nat, linktype: nat, e: Engine, frames: seq<seq<byte>>,
                       n: nat, k: nat, s: nat)
    requires WINDOW < |e.table.slots| && k < n <= |frames|
    ensures Starts(rs, flowHash, linktype, e, frames[..n], k, s) == Starts(rs, flowHash, linktype, e, frames, k, s)
    ensures s < |e.table.slots| ==>
      Evicts(rs, flowHash, linktype, e, frames[..n], k, s) == Evicts(rs, flowHash, linktype, e, frames, k, s)
  {
    assert frames[..n][..k] == frames[..k];
  }

  /** No frame takes slot `s` from a live flow. */
  ghost predicate KeepsSlot(rs: RuleSet, flowHash: Tuple5 -> nat, linktype: nat, e: Engine, frames: seq<seq<byte>>,
                            s: nat)
    requires WINDOW < |e.table.slots| && s < |e.table.slots|
  {
    forall k :: 0 <= k < |frames| ==> !Evicts(rs, flowHash, linktype, e, frames, k, s)
  }

  lemma KeepsSlotInFront(rs: RuleSet, flowHash: Tuple5 -> nat, linktype: nat, e: Engine, frames: seq<seq<byte>>, s: nat)
    requires WINDOW < |e.table.slots| && s < |e.table.slots| && |frames| > 0
    ensures var n := |frames| - 1;
      KeepsSlot(rs, flowHash, linktype, e, frames, s) <==>
      KeepsSlot(rs, flowHash, linktype, e, frames[..n], s) && !Evicts(rs, flowHash, linktype, e, frames, n, s)
  {
    hide Evicts;
    var n := |frames| - 1;
    forall k | 0 <= k < n
      ensures Evicts(rs, flowHash, linktype, e, frames[..n], k, s) == Evicts(rs, flowHash, linktype, e, frames, k, s)
    {
      StartsInPrefix(rs, flowHash, linktype, e, frames, n, k, s);
    }
  }

  /** The eviction counter stands still exactly over the runs that take no slot from any live flow. */
  lemma NoEvictionIff(rs: RuleSet, flowHash: Tuple5 -> nat, linktype: nat, e: Engine,
                      frames: seq<seq<byte>>)
    requires WINDOW < |e.table.slots|
    ensures Run(rs, flowHash, linktype, e, frames).table.evictions == e.table.evictions <==>
            forall s :: 0 <= s < |e.table.slots| ==> KeepsSlot(rs, flowHash, linktype, e, frames, s)
  {
    hide Evicts, Run, KeepsSlot;
    RunCountsFlows(rs, flowHash, linktype, e, frames);
    NoneEvicted(rs, flowHash, linktype, e, frames);
  }

  lemma OverwritesIff(rs: RuleSet, flowHash: Tuple5 -> nat, linktype: nat, e: Engine, frames: seq<seq<byte>>)
    requires WINDOW < |e.table.slots| && |frames| > 0
    ensures var n := |frames| - 1;
      Overwrites(flowHash, linktype, Run(rs, flowHash, linktype, e, frames[..n]).table, frames[n]) <==>
      exists s :: 0 <= s < |e.table.slots| && Evicts(rs, flowHash, linktype, e, frames, n, s)
  {
    hide Enter, Run, DecodeFrame;
    var n := |frames| - 1;
    var t := Run(rs, flowHash, linktype, e, frames[..n]).table;
    if Overwrites(flowHash, linktype, t, frames[n]) {
      var s := Enter(t, flowHash, DecodeFrame(frames[n], linktype).value).1;
      assert Evicts(rs, flowHash, linktype, e, frames, n, s);
    }
  }

  lemma {:induction false} NoneEvicted(rs: RuleSet, flowHash: Tuple5 -> nat, linktype: nat, e: Engine,
                                       frames: seq<seq<byte>>)
    requires WINDOW < |e.table.slots|
    ensures Evictions(rs, flowHash, linktype, e, frames) == 0 <==>
            forall s :: 0 <= s < |e.table.slots| ==> KeepsSlot(rs, flowHash, linktype, e, frames, s)
  {
    if |frames| == 0 {
      hide Evicts;
    } else {
      hide *;
      var n := |frames| - 1;
      OneMoreEviction(rs, flowHash, linktype, e, frames);
      NoneEvicted(rs, flowHash, linktype, e, frames[..n]);
      forall s | 0 <= s < |e.table.slots|
        ensures KeepsSlot(rs, flowHash, linktype, e, frames, s) <==>
          KeepsSlot(rs, flowHash, linktype, e, frames[..n], s) && !Evicts(rs, flowHash, linktype, e, frames, n, s)
      {
        KeepsSlotInFront(rs, flowHash, linktype, e, frames, s);
      }
    }
  }

  lemma OneMoreEviction(rs: RuleSet, flowHash: Tuple5 -> nat, linktype: nat, e: Engine, frames: seq<seq<byte>>)
    requires WINDOW < |e.table.slots| && |frames| > 0
    ensures var n := |frames| - 1;
      Evictions(rs, flowHash, linktype, e, frames) == 0 <==>
      Evictions(rs, flowHash, linktype, e, frames[..n]) == 0 &&
      forall s :: 0 <= s < |e.table.slots| ==> !Evicts(rs, flowHash, linktype, e, frames, n, s)
  {
    OverwritesIff(rs, flowHash, linktype, e, frames);
    hide Evicts, Overwrites, Run;
  }

  /** A live slot goes on with its own flow, unless the step takes it away. */
  lemma StepWithoutEviction(rs: RuleSet, flowHash: Tuple5 -> nat, linktype: nat, t: Traced, frame: seq<byte>, s: nat)
    requires WINDOW < |t.e.table.slots| && |t.hist| == |t.e.table.slots| && s < |t.hist|
    requires t.e.table.slots[s].inUse && !CreatesIn(flowHash, linktype, t.e.table, frame, s)
    ensures var r := TracedStep(rs, flowHash, linktype, t, frame);
      t.hist[s] <= r.hist[s] && r.e.table.slots[s].inUse
  {
    match DecodeFrame(frame, linktype)
    case None =>
    case Some(pk) =>
      hide DecodeFrame, Enter, FlowStep, CountFlow;
      NewTakesFreeSlot(t.e.table, flowHash, pk);
      var (t', i, isNew) := Enter(t.e.table, flowHash, pk);
      StepCounts(rs, t'.slots[i], pk);
  }

  /**
    As long as no frame takes its slot, a live flow stays: what the history was at the
    beginning of the run is where it still begins at the end.
  */
  lemma {:induction false} RunWithoutEviction(rs: RuleSet, flowHash: Tuple5 -> nat, linktype: nat, t: Traced,
                                              frames: seq<seq<byte>>, s: nat)
    requires WINDOW < |t.e.table.slots| && |t.hist| == |t.e.table.slots| && s < |t.hist|
    requires t.e.table.slots[s].inUse && KeepsSlot(rs, flowHash, linktype, t.e, frames, s)
    ensures var r := TracedRun(rs, flowHash, linktype, t, frames);
      t.hist[s] <= r.hist[s] && r.e.table.slots[s].inUse
  {
    if |frames| > 0 {
      hide TracedStep, Step, KeepsSlot, CreatesIn;
      var n := |frames| - 1;
      KeepsSlotInFront(rs, flowHash, linktype, t.e, frames, s);
      RunWithoutEviction(rs, flowHash, linktype, t, frames[..n], s);
      StepWithoutEviction(rs, flowHash, linktype, TracedRun(rs, flowHash, linktype, t, frames[..n]), frames[n], s);
    }
  }

  /**
    A flow whose slot is not taken keeps its slot and its 5-tuple, and its verdict only
    improves, whatever happens in the rest of the table.
  */
  lemma VerdictsImproveOverRuns(rs: RuleSet, flowHash: Tuple5 -> nat, linktype: nat, t: Traced,
                                frames: seq<seq<byte>>, s: nat)
    requires TraceOk(rs, flowHash, t) && s < |t.hist| == |t.e.table.slots| && t.e.table.slots[s].inUse
    requires WINDOW < |t.e.table.slots| && KeepsSlot(rs, flowHash, linktype, t.e, frames, s)
    ensures var f := Run(rs, flowHash, linktype, t.e, frames).table.slots[s];
      f.inUse && FlowTuple(f) == FlowTuple(t.e.table.slots[s]) && Improves(t.e.table.slots[s].verdict, f.verdict)
  {
    hide Improves, FlowAfter, FlowTuple, TupleOf, TableOk, TracedRun, KeepsSlot;
    RunWithoutEviction(rs, flowHash, linktype, t, frames, s);
    RunKeepsTrace(rs, flowHash, linktype, t, frames);
    var r := TracedRun(rs, flowHash, linktype, t, frames);
    SlotOfTrace(rs, flowHash, t, s);
    SlotOfTrace(rs, flowHash, r, s);
    var h, k := t.hist[s], r.hist[s];
    VerdictsImprove(rs, k, |h|);
    assert k[..|h|] == h;
    CounterAndTuple(rs, h);
    CounterAndTuple(rs, k);
  }

  // ------------------------------------------------------------------ conservation

  /** Live flows that have not yet used a kind of evidence. */
  ghost function Lacking(slots: seq<Flow>, spent: Flow -> bool): (r: nat) {
    if |slots| == 0 then 0
    else Lacking(slots[..|slots| - 1], spent) +
         One(slots[|slots| - 1].inUse && !spent(slots[|slots| - 1]))
  }

  lemma {:induction false} LackingAfter(slots: seq<Flow>, spent: Flow -> bool, i: nat, f: Flow)
    requires i < |slots|
    ensures Lacking(slots[i := f], spent) ==
      Lacking(slots, spent) - One(slots[i].inUse && !spent(slots[i])) + One(f.inUse && !spent(f))
  {
    var n := |slots| - 1;
    if i == n {
      assert slots[i := f][..n] == slots[..n];
    } else {
      assert slots[i := f][..n] == slots[..n][i := f];
      LackingAfter(slots[..n], spent, i, f);
    }
  }

  lemma {:induction false} LackingOfFree(slots: seq<Flow>, spent: Flow -> bool)
    requires forall i :: 0 <= i < |slots| ==> !slots[i].inUse
    ensures Lacking(slots, spent) == 0
  {
    if |slots| > 0 {
      LackingOfFree(slots[..|slots| - 1], spent);
    }
  }

  /** Every use of a kind of evidence is paid for by a flow creation. */
  ghost predicate Paid(t: Table, spent: Flow -> bool, uses: nat) {
    uses + Lacking(t.slots, spent) <= t.count + t.evictions
  }

  /** A step that spends the evidence of a flow that had not, keeps the account. */
  lemma PaidStep(t: Table, flowHash: Tuple5 -> nat, p: Packet, spent: Flow -> bool, uses: nat, f: Flow, use: bool)
    requires TableOk(t, flowHash) && Paid(t, spent, uses)
    requires !spent(NewFlow(p))
    requires var (t', i, isNew) := Enter(t, flowHash, p);
      && f.inUse
      && (use ==> !spent(t'.slots[i]) && spent(f))
      && (spent(t'.slots[i]) ==> spent(f))
    ensures var (t', i, isNew) := Enter(t, flowHash, p);
      Paid(t'.(slots := t'.slots[i := f]), spent, uses + One(use))
  {
    hide TableOk, Enter, NewFlow, FlowTuple, TupleOf;
    EnterKeepsTable(t, flowHash, p);
    var (t', i, isNew) := Enter(t, flowHash, p);
    LackingAfter(t.slots, spent, i, t'.slots[i]);
    LackingAfter(t'.slots, spent, i, f);
  }

  predicate IpSpent(f: Flow) {
    f.verdict.evIp
  }

  predicate PayloadSpent(f: Flow) {
    f.verdict.evPayload
  }

  predicate Settled(f: Flow) {
    f.verdict.isFinal
  }

  /** The run-wide accounts. */
  ghost predicate Balanced(e: Engine, flowHash: Tuple5 -> nat) {
    && TableOk(e.table, flowHash)
    && e.stats.packets == e.stats.decoded + e.stats.undecodable
    && e.stats.tcp + e.stats.udp <= e.stats.decoded
    && MatchesAddUp(e.stats)
    && Accounts(e.table, e.stats)
  }

  ghost predicate MatchesAddUp(st: Stats) {
    && st.sniFound == st.sniMatched + st.sniUnmatched == st.clientHellos
    && st.finals <= st.sniMatched && st.masterOnly <= st.payloadMatched
    && st.revised <= st.sniMatched && st.provisional <= st.ipMatched
  }

  ghost predicate Accounts(t: Table, st: Stats) {
    Paid(t, IpSpent, st.ipMatched) && Paid(t, PayloadSpent, st.payloadMatched) && Paid(t, Settled, st.finals)
  }

  /** How one packet changes the counters that are bounded by flow creations. */
  lemma CountsOneEach(rs: RuleSet, f: Flow, pk: Packet, st: Stats)
    ensures var g, st' := FlowStep(rs, f, pk), CountFlow(rs, f, pk, st);
      && st'.ipMatched == st.ipMatched + One(!f.verdict.evIp && g.verdict.evIp)
      && st'.payloadMatched == st.payloadMatched + One(!f.verdict.evPayload && g.verdict.evPayload)
      && st'.finals == st.finals + One(!f.verdict.isFinal && g.verdict.isFinal)
      && (f.verdict.evIp ==> g.verdict.evIp) && (f.verdict.evPayload ==> g.verdict.evPayload)
      && (f.verdict.isFinal ==> g.verdict.isFinal)
  {
    hide IpHit, SniHit, PayloadHit, SniOf, EvidenceIsBetter;
  }

  lemma CountsAddUp(rs: RuleSet, f: Flow, pk: Packet, st: Stats)
    requires MatchesAddUp(st)
    ensures MatchesAddUp(CountFlow(rs, f, pk, st))
  {
    hide IpHit, NameHit, PayloadHit, SniOf, EvidenceIsBetter, Take;
  }

  /** The flow a packet is charged to, as it is before the packet is looked at. */
  function Charged(t: Table, flowHash: Tuple5 -> nat, pk: Packet): (r: Flow)
    requires WINDOW < |t.slots|
  {
    var (t', i, _) := Enter(t, flowHash, pk);
    t'.slots[i]
  }

  lemma PacketKeepsAccounts(rs: RuleSet, flowHash: Tuple5 -> nat, t: Table, pk: Packet, st: Stats, was: Stats)
    requires TableOk(t, flowHash) && WINDOW < |t.slots| && Accounts(t, was)
    requires (st.ipMatched, st.payloadMatched, st.finals) == (was.ipMatched, was.payloadMatched, was.finals)
    ensures var (t', i, _) := Enter(t, flowHash, pk);
      var f := t'.slots[i];
      && TableOk(t'.(slots := t'.slots[i := FlowStep(rs, f, pk)]), flowHash)
      && Accounts(t'.(slots := t'.slots[i := FlowStep(rs, f, pk)]), CountFlow(rs, f, pk, st))
  {
    hide TableOk, Paid, FlowStep, Enter, FlowTuple, TupleOf, NewFlow, CountFlow;
    var (t', i, isNew) := Enter(t, flowHash, pk);
    EnterKeepsTable(t, flowHash, pk);
    var f := t'.slots[i];
    var g := FlowStep(rs, f, pk);
    StepCounts(rs, f, pk);
    StepAnnotates(rs, f, pk);
    AnnotateKeepsTable(t', flowHash, i, g.packets, g.verdict);
    CountsOneEach(rs, f, pk, st);
    NothingSpent(pk);
    PaidStep(t, flowHash, pk, IpSpent, st.ipMatched, g, !f.verdict.evIp && g.verdict.evIp);
    PaidStep(t, flowHash, pk, PayloadSpent, st.payloadMatched, g, !f.verdict.evPayload && g.verdict.evPayload);
    PaidStep(t, flowHash, pk, Settled, st.finals, g, !f.verdict.isFinal && g.verdict.isFinal);
  }

  lemma StepKeepsBalance(rs: RuleSet, flowHash: Tuple5 -> nat, linktype: nat, e: Engine, frame: seq<byte>)
    requires Balanced(e, flowHash) && WINDOW < |e.table.slots|
    ensures Balanced(Step(rs, flowHash, linktype, e, frame), flowHash)
  {
    hide TableOk, Accounts, MatchesAddUp, FlowStep, Enter, CountFlow, CountPacket, DecodeFrame, One;
    match DecodeFrame(frame, linktype)
    case None =>
      Undecoded(e.stats);
    case Some(pk) =>
      var st := CountPacket(pk, e.stats.(packets := e.stats.packets + 1));
      CountPacketAddsUp(pk, e.stats);
      PacketKeepsAccounts(rs, flowHash, e.table, pk, st, e.stats);
      CountsAddUp(rs, Charged(e.table, flowHash, pk), pk, st);
      CountFlowKeeps(rs, Charged(e.table, flowHash, pk), pk, st);
  }

  lemma Undecoded(st: Stats)
    ensures var st' := st.(packets := st.packets + 1, undecodable := st.undecodable + 1);
      && (MatchesAddUp(st) ==> MatchesAddUp(st'))
      && forall t :: Accounts(t, st) ==> Accounts(t, st')
  {
  }

  lemma CountPacketAddsUp(pk: Packet, st: Stats)
    ensures var st' := CountPacket(pk, st.(packets := st.packets + 1));
      && st'.packets == st.packets + 1 && st'.decoded == st.decoded + 1 && st'.undecodable == st.undecodable
      && st'.tcp + st'.udp <= st.tcp + st.udp + 1
      && (st'.ipMatched, st'.payloadMatched, st'.finals) == (st.ipMatched, st.payloadMatched, st.finals)
      && (MatchesAddUp(st) ==> MatchesAddUp(st'))
  {
  }

  lemma NothingSpent(p: Packet)
    ensures var f := NewFlow(p); !f.verdict.evIp && !f.verdict.evPayload && !f.verdict.isFinal
  {
  }

  lemma {:induction false} RunKeepsBalance(rs: RuleSet, flowHash: Tuple5 -> nat, linktype: nat, e: Engine,
                                           frames: seq<seq<byte>>)
    requires Balanced(e, flowHash) && WINDOW < |e.table.slots|
    ensures Balanced(Run(rs, flowHash, linktype, e, frames), flowHash)
  {
    hide Balanced, Step;
    if |frames| > 0 {
      var n := |frames| - 1;
      RunKeepsBalance(rs, flowHash, linktype, e, frames[..n]);
      StepKeepsBalance(rs, flowHash, linktype, Run(rs, flowHash, linktype, e, frames[..n]), frames[n]);
    }
  }

  lemma FreshBalance(e: Engine, flowHash: Tuple5 -> nat)
    requires Fresh(e) && DirectionBlind(flowHash)
    ensures Balanced(e, flowHash)
  {
    FreshTableOk(e.table.slots, flowHash);
    assert e.table == Table(e.table.slots, 0, 0);
    LackingOfFree(e.table.slots, IpSpent);
    LackingOfFree(e.table.slots, PayloadSpent);
    LackingOfFree(e.table.slots, Settled);
  }

  /**
    The summary the classifier prints adds up, on every capture: packets are decoded or
    not, server names matched or not, the flow count is the number of live slots, flows and
    evictions make up the creations, and no kind of evidence is counted more often than
    flows were created.
  */
  lemma SummaryAddsUp(rs: RuleSet, flowHash: Tuple5 -> nat, linktype: nat, e: Engine, frames: seq<seq<byte>>)
    requires Fresh(e) && DirectionBlind(flowHash)
    ensures WINDOW < |e.table.slots|
    ensures var r := Run(rs, flowHash, linktype, e, frames);
      var created := Creations(rs, flowHash, linktype, e, frames);
      && r.stats.packets == |frames| == r.stats.decoded + r.stats.undecodable
      && r.stats.sniFound == r.stats.sniMatched + r.stats.sniUnmatched
      && InUse(r.table.slots) == r.table.count
      && r.table.count + r.table.evictions == created
      && r.table.evictions == Evictions(rs, flowHash, linktype, e, frames)
      && r.stats.finals <= created && r.stats.ipMatched <= created && r.stats.payloadMatched <= created
      && created <= r.stats.decoded
  {
    hide *;
    Populated(e);
    FreshBalance(e, flowHash);
    RunKeepsBalance(rs, flowHash, linktype, e, frames);
    var r := Run(rs, flowHash, linktype, e, frames);
    BalancedSums(r, flowHash);
    StartsAtZero(e);
    RunCountsFlows(rs, flowHash, linktype, e, frames);
    DecodedBound(rs, flowHash, linktype, e, frames);
  }

  lemma BalancedSums(e: Engine, flowHash: Tuple5 -> nat)
    requires Balanced(e, flowHash)
    ensures var made := e.table.count + e.table.evictions;
      && e.stats.packets == e.stats.decoded + e.stats.undecodable
      && e.stats.sniFound == e.stats.sniMatched + e.stats.sniUnmatched
      && InUse(e.table.slots) == e.table.count
      && e.stats.finals <= made && e.stats.ipMatched <= made && e.stats.payloadMatched <= made
  {
  }

  lemma StartsAtZero(e: Engine)
    requires Fresh(e)
    ensures e.table.count == 0 && e.table.evictions == 0 && e.stats.packets == 0 && e.stats.decoded == 0
  {
  }

  /** Every frame is counted, and only decoded ones start flows. */
  lemma {:induction false} DecodedBound(rs: RuleSet, flowHash: Tuple5 -> nat, linktype: nat, e: Engine,
                                        frames: seq<seq<byte>>)
    requires WINDOW < |e.table.slots|
    ensures var r := Run(rs, flowHash, linktype, e, frames);
      && r.stats.packets == e.stats.packets + |frames|
      && Creations(rs, flowHash, linktype, e, frames) <= r.stats.decoded - e.stats.decoded
  {
    if |frames| > 0 {
      hide Step, Enter, DecodeFrame;
      var n := |frames| - 1;
      DecodedBound(rs, flowHash, linktype, e, frames[..n]);
      StepCountsProtocol(rs, flowHash, linktype, Run(rs, flowHash, linktype, e, frames[..n]), frames[n]);
    }
  }

  lemma CountFlowKeeps(rs: RuleSet, f: Flow, pk: Packet, st: Stats)
    ensures var st' := CountFlow(rs, f, pk, st);
      (st'.packets, st'.decoded, st'.undecodable, st'.tcp, st'.udp) ==
      (st.packets, st.decoded, st.undecodable, st.tcp, st.udp)
  {
    hide IpHit, NameHit, PayloadHit, SniOf, EvidenceIsBetter, Take;
  }

  // ------------------------------------------------------------------ protocols

  function AnyPacket(): (p: Packet -> bool) {
    (pk: Packet) => true
  }

  function OfProtocol(proto: byte): (p: Packet -> bool) {
    (pk: Packet) => pk.l4proto == proto
  }

  /** How many frames decode to such a packet. */
  function Decodes(frames: seq<seq<byte>>, linktype: nat, p: Packet -> bool): (n: nat) {
    if |frames| == 0 then 0
    else
      var pk := DecodeFrame(frames[|frames| - 1], linktype);
      Decodes(frames[..|frames| - 1], linktype, p) + One(pk.Some? && p(pk.value))
  }

  lemma StepCountsProtocol(rs: RuleSet, flowHash: Tuple5 -> nat, linktype: nat, e: Engine, frame: seq<byte>)
    requires WINDOW < |e.table.slots|
    ensures var st, st', pk := e.stats, Step(rs, flowHash, linktype, e, frame).stats, DecodeFrame(frame, linktype);
      && st'.packets == st.packets + 1 && st'.decoded == st.decoded + One(pk.Some?)
      && st'.undecodable == st.undecodable + One(pk.None?)
      && st'.tcp == st.tcp + One(pk.Some? && pk.value.l4proto == 6)
      && st'.udp == st.udp + One(pk.Some? && pk.value.l4proto == 17)
  {
    hide Enter, FlowStep, DecodeFrame, CountFlow;
    match DecodeFrame(frame, linktype)
    case None =>
    case Some(pk) =>
      var st := CountPacket(pk, e.stats.(packets := e.stats.packets + 1));
      CountFlowKeeps(rs, Charged(e.table, flowHash, pk), pk, st);
  }

  /** The summary counts, by their own names, the frames that decode, and those of TCP and of UDP. */
  lemma {:induction false} RunCountsProtocols(rs: RuleSet, flowHash: Tuple5 -> nat, linktype: nat, e: Engine,
                                              frames: seq<seq<byte>>)
    requires WINDOW < |e.table.slots|
    ensures var st, st' := e.stats, Run(rs, flowHash, linktype, e, frames).stats;
      && st'.decoded == st.decoded + Decodes(frames, linktype, AnyPacket())
      && st'.undecodable == st.undecodable + |frames| - Decodes(frames, linktype, AnyPacket())
      && st'.tcp == st.tcp + Decodes(frames, linktype, OfProtocol(6))
      && st'.udp == st.udp + Decodes(frames, linktype, OfProtocol(17))
  {
    if |frames| > 0 {
      hide Step, DecodeFrame;
      var n := |frames| - 1;
      RunCountsProtocols(rs, flowHash, linktype, e, frames[..n]);
      StepCountsProtocol(rs, flowHash, linktype, Run(rs, flowHash, linktype, e, frames[..n]), frames[n]);
    }
  }
}
