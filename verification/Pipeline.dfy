/**
 Kernel map and agent as one state machine. A run interleaves packets, scans and delayed delete
 batches in any order; a batch may be overtaken by later scans, and kernel deletes may fail.
 */
module Pipeline {
  import opened Statistics
  import opened Flows
  import opened KernelMap
  import opened Agent

  datatype Step =
    | Packet(tuple: V4Flow, dir: Direction, len: uint32)
    | ScanStep(visits: seq<Visit>)
    | DeleteStep(which: nat, failing: set<V4Flow>)

  /** A history, newest step last. */
  datatype Run = Boot | Then(before: Run, step: Step)

  /** `pending` holds the delete batches whose goroutine has not run yet. */
  datatype System = System(kernel: FlowMap<uint32>, agent: AgentState, pending: seq<Batch>, scans: nat)

  const BOOTED := System(map[], NEW_AGENT, [], 0)

  function Remaining(pending: seq<Batch>, which: nat): seq<Batch>
    requires which < |pending|
  {
    pending[..which] + pending[which + 1..]
  }

  function Apply(order: DiffOrder, s: System, step: Step): System {
    match step
    case Packet(tuple, dir, len) => s.(kernel := Record(s.kernel, tuple, dir, len))
    case ScanStep(visits) =>
      var r := Scan(order, s.agent, visits, s.scans + 1);
      System(s.kernel, r.agent, s.pending + [r.batch], s.scans + 1)
    case DeleteStep(which, failing) =>
      if which >= |s.pending| then s
      else
        var b := s.pending[which];
        System(s.kernel - (b.flows - failing), Delete(s.agent, b), Remaining(s.pending, which), s.scans)
  }

  function At(order: DiffOrder, run: Run): System {
    match run
    case Boot => BOOTED
    case Then(before, step) => Apply(order, At(order, before), step)
  }

  /** A scan reads every key of the kernel map once, in any order, with the value it has. */
  ghost predicate Covers(visits: seq<Visit>, kernel: FlowMap<uint32>) {
    && DistinctFlows(visits)
    && (forall f :: f in kernel <==> Visited(visits, f))
    && (forall i :: 0 <= i < |visits| ==> visits[i].flow in kernel && visits[i].value == kernel[visits[i].flow])
  }

  /** Scans read the kernel map of their moment; delete steps name a pending batch. */
  ghost predicate Legal(order: DiffOrder, run: Run) {
    match run
    case Boot => true
    case Then(before, step) =>
      && Legal(order, before)
      && (step.ScanStep? ==> Covers(step.visits, At(order, before).kernel))
      && (step.DeleteStep? ==> step.which < |At(order, before).pending|)
  }

  /** The batch a delete step runs. */
  function Reaped(s: System, step: Step): Batch
    requires step.DeleteStep? && step.which < |s.pending|
  {
    s.pending[step.which]
  }

  function KernelValue(s: System, f: V4Flow): FlowStats {
    if f in s.kernel then s.kernel[f] else ZERO
  }

  function SnapshotValue(s: System, f: V4Flow): FlowStats {
    if f in s.agent.base then s.agent.base[f].stats else ZERO
  }

  /** What the kernel has counted and no merge has seen yet. */
  function Uncredited(s: System, f: V4Flow, w: Counter): int {
    KernelValue(s, f).Get(w) - SnapshotValue(s, f).Get(w)
  }

  ghost predicate BaseWithinKernel(s: System) {
    forall f :: f in s.agent.base ==> f in s.kernel
  }

  /** The flow's counters have not moved since its snapshot. */
  predicate IdleAt(s: System, f: V4Flow) {
    f in s.agent.base && f in s.kernel && s.agent.base[f].stats == s.kernel[f]
  }

  /** What a scan does to one flow's snapshot. */
  lemma ScanFlow(order: DiffOrder, s: System, visits: seq<Visit>, f: V4Flow)
    requires Covers(visits, s.kernel) && BaseWithinKernel(s)
    ensures var r := Scan(order, s.agent, visits, s.scans + 1);
            && (f in r.agent.base <==> f in s.kernel)
            && (f in s.kernel ==>
                  r.agent.base[f] == if IdleAt(s, f)
                                     then s.agent.base[f].(aging := Older(s.agent.base[f].aging))
                                     else Entry(s.kernel[f], 0, s.scans + 1))
            && (f in r.batch.flows <==> IdleAt(s, f) && Older(s.agent.base[f].aging) >= AGING_LIMIT)
  {
    VisitAllBase(order, s.agent, visits, s.scans + 1, f);
    if f in s.kernel {
      assert Visited(visits, f);
      var i :| 0 <= i < |visits| && visits[i].flow == f;
      assert Idle(s.agent.base, visits[i]) <==> IdleAt(s, f);
    } else {
      assert !Visited(visits, f);
    }
  }

  /** In every reachable state the agent only remembers flows the kernel still holds. */
  lemma {:induction false} SnapshotsAreLive(order: DiffOrder, run: Run)
    requires Legal(order, run)
    ensures BaseWithinKernel(At(order, run))
  {
    if run.Then? {
      SnapshotsAreLive(order, run.before);
      var s, s' := At(order, run.before), At(order, run);
      if run.step.ScanStep? {
        forall f | f in s'.agent.base ensures f in s'.kernel {
          ScanFlow(order, s, run.step.visits, f);
        }
      }
    }
  }

  /** What a packet does to one flow's counters. */
  lemma PacketFlow(order: DiffOrder, s: System, step: Step, f: V4Flow)
    requires step.Packet?
    ensures var s' := Apply(order, s, step);
            var counted := Normalized(step.tuple, step.dir) == f && !Rejected(s.kernel, f);
            && s'.agent == s.agent && s'.pending == s.pending && s'.scans == s.scans
            && (f in s'.kernel <==> f in s.kernel || counted)
            && (f in s.kernel && counted ==> s'.kernel[f] == AddStats(s.kernel[f], Hit(step.dir, step.len)))
            && (f !in s.kernel && counted ==> s'.kernel[f] == Hit(step.dir, step.len))
            && (f in s.kernel && !counted ==> s'.kernel[f] == s.kernel[f])
            && (f in s.kernel ==> !Rejected(s.kernel, f))
  {}

  /** What a delete batch does to one flow. */
  lemma DeleteFlow(order: DiffOrder, s: System, step: Step, f: V4Flow)
    requires step.DeleteStep? && step.which < |s.pending|
    ensures var s' := Apply(order, s, step);
            var b := Reaped(s, step);
            && s'.agent == Delete(s.agent, b) && s'.scans == s.scans
            && s'.pending == Remaining(s.pending, step.which)
            && (f in s'.agent.base <==> f in s.agent.base && f !in b.flows)
            && (f in s'.agent.base ==> s'.agent.base[f] == s.agent.base[f])
            && (f in s'.kernel <==> f in s.kernel && (f !in b.flows || f in step.failing))
            && (f in s'.kernel ==> s'.kernel[f] == s.kernel[f])
  {}

  /** What a scan does outside the agent. */
  lemma ScanApplied(order: DiffOrder, s: System, visits: seq<Visit>)
    ensures var s' := Apply(order, s, ScanStep(visits));
            var r := Scan(order, s.agent, visits, s.scans + 1);
            s'.agent == r.agent && s'.kernel == s.kernel && s'.pending == s.pending + [r.batch] && s'.scans == s.scans + 1
  {
    hide Scan;
  }

  lemma {:induction false} StampsAreOld(order: DiffOrder, run: Run)
    requires Legal(order, run)
    ensures StampsBelow(At(order, run).agent, At(order, run).scans + 1)
  {
    if run.Then? {
      StampsAreOld(order, run.before);
      StampsAfterStep(order, At(order, run.before), run.step);
    }
  }

  lemma StampsAfterStep(order: DiffOrder, s: System, step: Step)
    requires StampsBelow(s.agent, s.scans + 1)
    requires step.ScanStep? ==> Covers(step.visits, s.kernel)
    ensures var s' := Apply(order, s, step); StampsBelow(s'.agent, s'.scans + 1)
  {
    match step
    case Packet(_, _, _) => PacketFlow(order, s, step, step.tuple);
    case ScanStep(visits) => StampsAfterScan(order, s.agent, visits, s.scans + 1);
    case DeleteStep(which, _) => if which < |s.pending| { StampsAfterDelete(s.agent, s.pending[which], s.scans + 1); }
  }

  lemma StampsAfterScan(order: DiffOrder, a: AgentState, visits: seq<Visit>, t: nat)
    requires StampsBelow(a, t) && DistinctFlows(visits)
    ensures StampsBelow(Scan(order, a, visits, t).agent, t + 1)
  {
    var a' := Scan(order, a, visits, t).agent;
    forall slot | Live(a'.aggs, slot) ensures Get(a'.aggs, slot).stamp < t + 1 {
      ScanEffect(order, a, visits, t, slot, OutBytes);
    }
  }

  lemma StampsAfterDelete(a: AgentState, b: Batch, t: nat)
    requires StampsBelow(a, t)
    ensures StampsBelow(Delete(a, b), t)
  {
    forall slot | Live(Delete(a, b).aggs, slot) ensures Get(Delete(a, b).aggs, slot).stamp < t {
      DeleteEffect(a, b, slot);
    }
  }

  /** What a scan hands to `mergeStats` for one flow. */
  function ScanDelta(order: DiffOrder, s: System, f: V4Flow): FlowStats {
    if f !in s.kernel || IdleAt(s, f) then ZERO
    else if f !in s.agent.base then s.kernel[f]
    else match order
      case OverwriteFirst => DiffStats(s.kernel[f], s.kernel[f])
      case DiffFirst => DiffStats(s.agent.base[f].stats, s.kernel[f])
  }

  /** `ScanDelta` is exactly what the visiting loop merges, whatever target the visit resolves to. */
  lemma ScanDeltaIsMerged(order: DiffOrder, s: System, v: Visit, slot: Slot, w: Counter)
    requires v.flow in s.kernel && v.value == s.kernel[v.flow]
    ensures Contribution(order, s.agent.base, slot, w, v) == Orient(RouteOf(v.target), slot, ScanDelta(order, s, v.flow), w)
    ensures !Idle(s.agent.base, v) ==> Delta(order, s.agent.base, v) == ScanDelta(order, s, v.flow)
  {
    if Idle(s.agent.base, v) {
      assert ScanDelta(order, s, v.flow) == ZERO;
    } else {
      assert Delta(order, s.agent.base, v) == ScanDelta(order, s, v.flow);
    }
  }

  // ---------------------------------------------------------------- batches

  /** The batches all scans of the run have queued. */
  ghost function BatchesMade(order: DiffOrder, run: Run): multiset<Batch> {
    match run
    case Boot => multiset{}
    case Then(before, step) =>
      var s := At(order, before);
      BatchesMade(order, before)
      + if step.ScanStep? then multiset{Scan(order, s.agent, step.visits, s.scans + 1).batch} else multiset{}
  }

  /** The batches all delete steps of the run have worked off. */
  ghost function BatchesRun(order: DiffOrder, run: Run): multiset<Batch> {
    match run
    case Boot => multiset{}
    case Then(before, step) =>
      var s := At(order, before);
      BatchesRun(order, before)
      + if step.DeleteStep? && step.which < |s.pending| then multiset{s.pending[step.which]} else multiset{}
  }

  lemma RemainingIsTheRest(pending: seq<Batch>, which: nat)
    requires which < |pending|
    ensures multiset(Remaining(pending, which)) + multiset{pending[which]} == multiset(pending)
  {
    assert pending == pending[..which] + [pending[which]] + pending[which + 1..];
  }

  /** No batch gets lost and none runs twice: each one queued has run once or is still pending. */
  lemma {:induction false} EveryBatchRunsOnceOrWaits(order: DiffOrder, run: Run)
    ensures multiset(At(order, run).pending) + BatchesRun(order, run) == BatchesMade(order, run)
  {
    hide Scan, Delete, Record, Remaining;
    if run.Then? {
      EveryBatchRunsOnceOrWaits(order, run.before);
      var s := At(order, run.before);
      if run.step.DeleteStep? && run.step.which < |s.pending| {
        RemainingIsTheRest(s.pending, run.step.which);
      }
    }
  }
}
