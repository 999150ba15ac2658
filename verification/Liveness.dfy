/**
 Which aggregates exist and how old they are: in prompt runs over fixed name tables, an aggregate
 is live exactly while some remembered flow resolves to it, and is as old as the youngest of them.
 This holds for the code as written as well as for the intended order.
 */
module Liveness {
  import opened Statistics
  import opened Flows
  import opened Names
  import opened KernelMap
  import opened Agent
  import opened Pipeline
  import opened Aging

  /** What `getPodStatsKey` answers for each flow while the name tables do not change. */
  type Resolution = V4Flow -> Target

  ghost predicate Resolved(visits: seq<Visit>, cls: Resolution) {
    forall i :: 0 <= i < |visits| ==> visits[i].target == cls(visits[i].flow)
  }

  ghost predicate FixedTables(run: Run, cls: Resolution) {
    match run
    case Boot => true
    case Then(before, step) => FixedTables(before, cls) && (step.ScanStep? ==> Resolved(step.visits, cls))
  }

  predicate Feeder(cls: Resolution, f: V4Flow, slot: Slot) {
    Feeds(RouteOf(cls(f)), slot)
  }

  /** The slot is live iff a remembered flow feeds it, and its age is the least age among those flows. */
  ghost predicate MirrorsFeeders(s: System, cls: Resolution, slot: Slot) {
    && (Live(s.agent.aggs, slot) <==> exists f :: f in s.agent.base && Feeder(cls, f, slot))
    && (Live(s.agent.aggs, slot) ==>
          && (exists f :: f in s.agent.base && Feeder(cls, f, slot) && s.agent.base[f].aging == Get(s.agent.aggs, slot).aging)
          && (forall f :: f in s.agent.base && Feeder(cls, f, slot) ==> Get(s.agent.aggs, slot).aging <= s.agent.base[f].aging))
  }

  lemma {:induction false} AggregatesMirrorFlows(order: DiffOrder, run: Run, cls: Resolution, slot: Slot)
    requires Legal(order, run) && Prompt(order, run) && FixedTables(run, cls)
    ensures MirrorsFeeders(At(order, run), cls, slot)
  {
    hide Apply, MirrorsFeeders, BatchIsCurrent;
    if run.Then? {
      var s := At(order, run.before);
      AggregatesMirrorFlows(order, run.before, cls, slot);
      SnapshotsAreLive(order, run.before);
      StampsAreOld(order, run.before);
      PromptBatchesAreCurrent(order, run.before);
      match run.step
      case Packet(_, _, _) => MirrorsAfterPacket(order, s, run.step, cls, slot);
      case ScanStep(visits) => MirrorsAfterScan(order, s, visits, cls, slot);
      case DeleteStep(_, _) => MirrorsAfterDelete(order, s, run.step, cls, slot);
    } else {
      MirrorsAtBoot(cls, slot);
    }
  }

  lemma MirrorsAtBoot(cls: Resolution, slot: Slot)
    ensures MirrorsFeeders(BOOTED, cls, slot)
  {}

  lemma MirrorsAfterPacket(order: DiffOrder, s: System, step: Step, cls: Resolution, slot: Slot)
    requires step.Packet? && MirrorsFeeders(s, cls, slot)
    ensures MirrorsFeeders(Apply(order, s, step), cls, slot)
  {
    hide Apply;
    PacketFlow(order, s, step, step.tuple);
  }

  /** A scan credits a slot exactly when some flow that feeds it is new or has moved. */
  lemma TouchedByMovedFlows(s: System, visits: seq<Visit>, cls: Resolution, slot: Slot)
    requires Covers(visits, s.kernel) && Resolved(visits, cls)
    ensures Touched(s.agent.base, slot, visits) <==> exists f :: f in s.kernel && !IdleAt(s, f) && Feeder(cls, f, slot)
  {
    hide RouteOf, Feeds;
    forall i | 0 <= i < |visits|
      ensures Idle(s.agent.base, visits[i]) <==> IdleAt(s, visits[i].flow)
    {}
    if Touched(s.agent.base, slot, visits) {
      var i :| 0 <= i < |visits| && FedBy(s.agent.base, slot, visits[i]);
      assert Feeder(cls, visits[i].flow, slot);
    }
    if f :| f in s.kernel && !IdleAt(s, f) && Feeder(cls, f, slot) {
      assert Visited(visits, f);
      var i :| 0 <= i < |visits| && visits[i].flow == f;
      assert FedBy(s.agent.base, slot, visits[i]);
    }
  }

  lemma MirrorsAfterScan(order: DiffOrder, s: System, visits: seq<Visit>, cls: Resolution, slot: Slot)
    requires Covers(visits, s.kernel) && Resolved(visits, cls)
    requires BaseWithinKernel(s) && StampsBelow(s.agent, s.scans + 1) && BatchIsCurrent(s) && s.pending == []
    requires MirrorsFeeders(s, cls, slot)
    ensures MirrorsFeeders(Apply(order, s, ScanStep(visits)), cls, slot)
  {
    hide Scan, Apply, Touched, StampsBelow, Covers, Feeder, Live, Get, Resolved;
    var s' := Apply(order, s, ScanStep(visits));
    var base, base' := s.agent.base, s'.agent.base;
    ScanApplied(order, s, visits);
    CoversDistinct(visits, s.kernel);
    ScanEffect(order, s.agent, visits, s.scans + 1, slot, OutBytes);
    TouchedByMovedFlows(s, visits, cls, slot);
    forall f
      ensures f in base' <==> f in s.kernel
      ensures f in base' ==> base'[f].aging == if IdleAt(s, f) then base[f].aging + 1 else 0
    {
      ScanFlow(order, s, visits, f);
    }
    if Touched(s.agent.base, slot, visits) {
      var f :| f in s.kernel && !IdleAt(s, f) && Feeder(cls, f, slot);
      assert f in base' && base'[f].aging == 0;
    } else if Live(s.agent.aggs, slot) {
      var f :| f in base && Feeder(cls, f, slot) && base[f].aging == Get(s.agent.aggs, slot).aging;
      assert IdleAt(s, f) && f in base';
    } else {
      assert forall f :: f in base' && Feeder(cls, f, slot) ==> f in base;
    }
  }

  lemma CoversDistinct(visits: seq<Visit>, kernel: FlowMap<uint32>)
    requires Covers(visits, kernel)
    ensures DistinctFlows(visits)
  {}

  lemma MirrorsAfterDelete(order: DiffOrder, s: System, step: Step, cls: Resolution, slot: Slot)
    requires step.DeleteStep? && step.which < |s.pending| && BatchIsCurrent(s)
    requires MirrorsFeeders(s, cls, slot)
    ensures MirrorsFeeders(Apply(order, s, step), cls, slot)
  {
    hide Apply, Delete, Live, Get, Queued, Feeder;
    var s' := Apply(order, s, step);
    var b := s.pending[0];
    var base, base' := s.agent.base, s'.agent.base;
    DeleteFlow(order, s, step, ANY_FLOW);
    DeleteEffect(s.agent, b, slot);
    forall f
      ensures f in base' <==> f in base && base[f].aging < AGING_LIMIT
      ensures f in base' ==> base'[f] == base[f]
    {
      DeleteFlow(order, s, step, f);
    }
    if Live(s.agent.aggs, slot) {
      var f :| f in base && Feeder(cls, f, slot) && base[f].aging == Get(s.agent.aggs, slot).aging;
      assert Live(s'.agent.aggs, slot) <==> f in base';
    }
  }
}
