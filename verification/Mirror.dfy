/**
 Orientation does not matter. Seen from the other hook, a packet is stored under the reversed key
 and counted in the other direction; the merges then undo this. A run with every packet moved to
 the other hook has the same pod and service aggregates and the very same gauges.
 */
module Mirror {
  import opened Statistics
  import opened Flows
  import opened Names
  import opened Gauges
  import opened KernelMap
  import opened Agent
  import opened Pipeline
  import opened GaugeAgreement
  import opened ScanOrder

  function Flip(e: Entry): Entry {
    e.(stats := e.stats.Swap())
  }

  function Other(dir: Direction): Direction {
    match dir
    case Ingress => Egress
    case Egress => Ingress
  }

  /** The visit of the same conversation under its reversed key. */
  function MirrorVisit(v: Visit): Visit {
    Visit(v.flow.Reverse(), v.value.Swap(), v.target.Mirror())
  }

  ghost predicate MirroredKnown(m: map<PodStatsKey, Entry>, m': map<PodStatsKey, Entry>) {
    forall k: PodStatsKey :: (k in m <==> k.Swap() in m') && (k in m ==> m'[k.Swap()] == Flip(m[k]))
  }

  ghost predicate MirroredBase(m: map<V4Flow, Entry>, m': map<V4Flow, Entry>) {
    forall f: V4Flow :: (f in m <==> f.Reverse() in m') && (f in m ==> m'[f.Reverse()] == Flip(m[f]))
  }

  ghost predicate MirroredKernel(m: FlowMap<uint32>, m': FlowMap<uint32>) {
    forall f: V4Flow :: (f in m <==> f.Reverse() in m') && (f in m ==> m'[f.Reverse()] == m[f].Swap())
  }

  ghost predicate MirroredFlows(s: set<V4Flow>, s': set<V4Flow>) {
    forall f: V4Flow :: f in s <==> f.Reverse() in s'
  }

  ghost predicate MirroredKeys(s: set<PodStatsKey>, s': set<PodStatsKey>) {
    forall k: PodStatsKey :: k in s <==> k.Swap() in s'
  }

  ghost predicate MirroredAggs(g: Aggs, h: Aggs) {
    g.pods == h.pods && g.svcs == h.svcs && MirroredKnown(g.known, h.known) && g.gauges == h.gauges
  }

  ghost predicate MirroredBatch(b: Batch, b': Batch) {
    MirroredFlows(b.flows, b'.flows) && b.pods == b'.pods && b.svcs == b'.svcs && MirroredKeys(b.known, b'.known)
  }

  ghost predicate MirroredVisits(vs: seq<Visit>, ws: seq<Visit>) {
    |vs| == |ws| && forall i :: 0 <= i < |vs| ==> ws[i] == MirrorVisit(vs[i])
  }

  // ---------------------------------------------------------------- one merge

  /** The slot that stands for `slot` on the mirrored side. */
  function MirrorSlot(slot: Slot): Slot {
    if slot.table == KnownTable then Pair(slot.key.Swap()) else slot
  }

  function MirrorCounter(slot: Slot, w: Counter): Counter {
    if slot.table == KnownTable then w.Mirror() else w
  }

  lemma MirroredRoutes(target: Target, slot: Slot)
    ensures var r, r' := RouteOf(target), RouteOf(target.Mirror());
            && (slot.table != KnownTable ==>
                  && (r.src == Some(slot) <==> r'.dst == Some(slot)) && (r.dst == Some(slot) <==> r'.src == Some(slot))
                  && r.pair != Some(slot) && r'.pair != Some(slot))
            && (slot.table == KnownTable ==>
                  && (r.pair == Some(slot) <==> r'.pair == Some(MirrorSlot(slot)))
                  && r.src != Some(slot) && r.dst != Some(slot)
                  && r'.src != Some(MirrorSlot(slot)) && r'.dst != Some(MirrorSlot(slot)))
  {
    var key, kind := target.key, target.kind;
    assert key.Swap().Swap() == key && kind.Mirror().Mirror() == kind;
    assert slot.key.Swap().Swap() == slot.key;
  }

  lemma MirroredAmounts(target: Target, x: FlowStats, slot: Slot, w: Counter)
    ensures Feeds(RouteOf(target), slot) <==> Feeds(RouteOf(target.Mirror()), MirrorSlot(slot))
    ensures Orient(RouteOf(target), slot, x, w)
            == Orient(RouteOf(target.Mirror()), MirrorSlot(slot), x.Swap(), MirrorCounter(slot, w))
  {
    hide RouteOf;
    MirroredRoutes(target, slot);
    assert x.Swap().Get(w) == x.Get(w.Mirror()) && x.Swap().Get(w.Mirror()) == x.Get(w) && w.Mirror().Mirror() == w;
  }

  /** The entries of `slot` and of its mirror image correspond. */
  ghost predicate MirroredAt(g: Aggs, h: Aggs, slot: Slot) {
    && (Live(g, slot) <==> Live(h, MirrorSlot(slot)))
    && (Live(g, slot) ==> Get(h, MirrorSlot(slot)) == if slot.table == KnownTable then Flip(Get(g, slot)) else Get(g, slot))
  }

  lemma MirroredEverywhere(g: Aggs, h: Aggs)
    ensures (forall slot :: MirroredAt(g, h, slot))
            <==> g.pods == h.pods && g.svcs == h.svcs && MirroredKnown(g.known, h.known)
  {
    if forall slot :: MirroredAt(g, h, slot) {
      forall k: PodStatsKey
        ensures (k in g.pods <==> k in h.pods) && (k in g.pods ==> g.pods[k] == h.pods[k])
        ensures (k in g.svcs <==> k in h.svcs) && (k in g.svcs ==> g.svcs[k] == h.svcs[k])
        ensures (k in g.known <==> k.Swap() in h.known) && (k in g.known ==> h.known[k.Swap()] == Flip(g.known[k]))
      {
        assert MirroredAt(g, h, Slot(PodTable, k)) && MirroredAt(g, h, Slot(SvcTable, k)) && MirroredAt(g, h, Pair(k));
      }
    }
  }

  lemma MirroredStats(g: Aggs, h: Aggs, slot: Slot, w: Counter)
    requires MirroredAt(g, h, slot)
    ensures StatsOf(h, MirrorSlot(slot)).Get(MirrorCounter(slot, w)) == StatsOf(g, slot).Get(w)
  {}

  lemma MirroredEntry(g: Aggs, h: Aggs, slot: Slot)
    requires Live(g, slot) <==> Live(h, MirrorSlot(slot))
    requires forall w: Counter :: StatsOf(h, MirrorSlot(slot)).Get(MirrorCounter(slot, w)) == StatsOf(g, slot).Get(w)
    requires Live(g, slot) ==> Get(h, MirrorSlot(slot)).aging == Get(g, slot).aging && Get(h, MirrorSlot(slot)).stamp == Get(g, slot).stamp
    ensures MirroredAt(g, h, slot)
  {
    var there := StatsOf(h, MirrorSlot(slot));
    var here := if slot.table == KnownTable then StatsOf(g, slot).Swap() else StatsOf(g, slot);
    forall w: Counter ensures there.Get(w) == here.Get(w) {
      assert w.Mirror().Mirror() == w;
      assert there.Get(MirrorCounter(slot, MirrorCounter(slot, w))) == StatsOf(g, slot).Get(MirrorCounter(slot, w));
    }
    SameCounters(there, here);
  }

  lemma MergeMirrorsSlot(g: Aggs, h: Aggs, target: Target, x: FlowStats, t: nat, slot: Slot)
    requires MirroredAt(g, h, slot)
    ensures MirroredAt(Merge(g, RouteOf(target), x, t), Merge(h, RouteOf(target.Mirror()), x.Swap(), t), slot)
  {
    hide Merge, RouteOf, Orient, Feeds, Mod64;
    var r, r' := RouteOf(target), RouteOf(target.Mirror());
    var g', h' := Merge(g, r, x, t), Merge(h, r', x.Swap(), t);
    forall w: Counter
      ensures StatsOf(h', MirrorSlot(slot)).Get(MirrorCounter(slot, w)) == StatsOf(g', slot).Get(w)
    {
      MirroredStats(g, h, slot, w);
      MirroredAmounts(target, x, slot, w);
      MergeAccrues(g, r, x, t, slot, w);
      MergeAccrues(h, r', x.Swap(), t, MirrorSlot(slot), MirrorCounter(slot, w));
    }
    MirroredAmounts(target, x, slot, OutBytes);
    MergeAccrues(g, r, x, t, slot, OutBytes);
    MergeAccrues(h, r', x.Swap(), t, MirrorSlot(slot), OutBytes);
    MirroredEntry(g', h', slot);
  }

  /** A pod-service gauge after one merge. */
  lemma MergeSetsPairGauge(g: Aggs, target: Target, x: FlowStats, t: nat, id: GaugeId)
    requires id.PodSvcGauge?
    ensures var g' := Merge(g, RouteOf(target), x, t);
            if RouteOf(target).pair == Some(Pair(target.key)) && Owns(Pair(target.key), id)
            then id in g'.gauges && g'.gauges[id] == ShownFor(Pair(target.key), StatsOf(g', Pair(target.key)))[id.series]
            else SameAt(g'.gauges, g.gauges, id)
  {
    hide RouteOf, PromKey, Credit, ShownFor;
    RoutesAreCleared(target);
    var route := RouteOf(target);
    var g1 := CreditIf(g, route.src, x, t);
    var g2 := CreditIf(g1, route.dst, x.Swap(), t);
    if route.src.Some? { CreditGauge(g, route.src.value, x, t, id); }
    if route.dst.Some? { CreditGauge(g1, route.dst.value, x.Swap(), t, id); }
    if route.pair.Some? { CreditGauge(g2, route.pair.value, x.Swap(), t, id); }
  }

  lemma MergeMirrorsGauge(g: Aggs, h: Aggs, target: Target, x: FlowStats, t: nat, id: GaugeId)
    requires MirroredAggs(g, h)
    ensures SameAt(Merge(g, RouteOf(target), x, t).gauges, Merge(h, RouteOf(target.Mirror()), x.Swap(), t).gauges, id)
  {
    hide Merge, RouteOf, PromKey, SingleOwner, Live, Feeds, MirroredKnown;
    var r, r' := RouteOf(target), RouteOf(target.Mirror());
    var g', h' := Merge(g, r, x, t), Merge(h, r', x.Swap(), t);
    MirroredEverywhere(g, h);
    if id.PodSvcGauge? {
      MergeSetsPairGauge(g, target, x, t, id);
      MergeSetsPairGauge(h, target.Mirror(), x.Swap(), t, id);
      MirroredRoutes(target, Pair(target.key));
      MergeMirrorsSlot(g, h, target, x, t, Pair(target.key));
      SwappedStats(g', h', target.key);
      MirroredKeysShareGauges(target.key, id, StatsOf(g', Pair(target.key)));
    } else if slot :| SingleOwner(slot) && Owns(slot, id) {
      MergeSetsGauge(g, target, x, t, slot, id);
      MergeSetsGauge(h, target.Mirror(), x.Swap(), t, slot, id);
      MirroredAmounts(target, x, slot, OutBytes);
      MergeMirrorsSlot(g, h, target, x, t, slot);
      SingleStats(g', h', slot);
    } else {
      MergeSparesOrphan(g, target, x, t, id);
      MergeSparesOrphan(h, target.Mirror(), x.Swap(), t, id);
    }
  }

  lemma SwappedStats(g: Aggs, h: Aggs, key: PodStatsKey)
    requires MirroredAt(g, h, Pair(key))
    ensures StatsOf(h, Pair(key.Swap())) == StatsOf(g, Pair(key)).Swap()
  {}

  lemma SingleStats(g: Aggs, h: Aggs, slot: Slot)
    requires MirroredAt(g, h, slot) && SingleOwner(slot)
    ensures MirrorSlot(slot) == slot && StatsOf(h, slot) == StatsOf(g, slot)
  {}

  /**
   Merging the mirrored key type, the swapped key and the swapped counters leaves equal pod and
   service maps, known maps equal up to swapping, and the same gauges.
   */
  lemma MergeIsOrientationFree(g: Aggs, h: Aggs, target: Target, x: FlowStats, t: nat)
    requires MirroredAggs(g, h)
    ensures MirroredAggs(Merge(g, RouteOf(target), x, t), Merge(h, RouteOf(target.Mirror()), x.Swap(), t))
  {
    hide Merge, RouteOf, MirroredKnown, MirroredAt;
    var g', h' := Merge(g, RouteOf(target), x, t), Merge(h, RouteOf(target.Mirror()), x.Swap(), t);
    MirroredEverywhere(g, h);
    MirroredEverywhere(g', h');
    forall slot ensures MirroredAt(g', h', slot) {
      MergeMirrorsSlot(g, h, target, x, t, slot);
    }
    forall id ensures SameAt(g'.gauges, h'.gauges, id) {
      MergeMirrorsGauge(g, h, target, x, t, id);
    }
    SameRegistry(g'.gauges, h'.gauges);
  }

  lemma SameRegistry(g: Registry, h: Registry)
    requires forall id :: SameAt(g, h, id)
    ensures g == h
  {
    forall id ensures (id in g <==> id in h) && (id in g ==> g[id] == h[id]) {
      assert SameAt(g, h, id);
    }
  }

  // ---------------------------------------------------------------- one scan

  ghost predicate MirroredProgress(p: Progress, p': Progress) {
    MirroredBase(p.base, p'.base) && MirroredAggs(p.aggs, p'.aggs) && MirroredFlows(p.queued, p'.queued)
  }

  lemma ReverseTwice(f: V4Flow, g: V4Flow)
    ensures f.Reverse().Reverse() == f
    ensures f.Reverse() == g.Reverse() <==> f == g
  {}

  lemma MirroredDelta(order: DiffOrder, base: map<V4Flow, Entry>, base': map<V4Flow, Entry>, v: Visit, t: nat)
    requires MirroredBase(base, base')
    ensures var v' := MirrorVisit(v);
            && (Idle(base, v) <==> Idle(base', v'))
            && Delta(order, base', v') == Delta(order, base, v).Swap()
            && Refreshed(base', v', t) == Flip(Refreshed(base, v, t))
  {
    assert forall s: FlowStats, s': FlowStats :: s.Swap() == s'.Swap() <==> s == s';
  }

  lemma VisitIsOrientationFree(order: DiffOrder, p: Progress, p': Progress, v: Visit, t: nat)
    requires MirroredProgress(p, p')
    ensures MirroredProgress(VisitOne(order, p, v, t), VisitOne(order, p', MirrorVisit(v), t))
  {
    hide Merge, RouteOf, Delta, Idle, Refreshed, MirroredAggs;
    var v' := MirrorVisit(v);
    MirroredDelta(order, p.base, p'.base, v, t);
    VisitOneBase(order, p, v, t);
    VisitOneBase(order, p', v', t);
    forall f: V4Flow
      ensures f == v.flow <==> f.Reverse() == v'.flow
    {
      ReverseTwice(f, v.flow);
    }
    MergeIsOrientationFree(p.aggs, p'.aggs, v.target, Delta(order, p.base, v), t);
  }

  lemma {:induction false} VisitsAreOrientationFree(order: DiffOrder, p: Progress, p': Progress, vs: seq<Visit>, ws: seq<Visit>, t: nat)
    requires MirroredProgress(p, p') && MirroredVisits(vs, ws)
    ensures MirroredProgress(VisitAll(order, p, vs, t), VisitAll(order, p', ws, t))
  {
    hide MirroredProgress, VisitOne, MirrorVisit;
    if vs != [] {
      var n := |vs| - 1;
      VisitsAreOrientationFree(order, p, p', vs[..n], ws[..n], t);
      VisitIsOrientationFree(order, VisitAll(order, p, vs[..n], t), VisitAll(order, p', ws[..n], t), vs[n], t);
    }
  }

  ghost predicate MirroredAgent(a: AgentState, a': AgentState) {
    MirroredBase(a.base, a'.base) && MirroredAggs(a.aggs, a'.aggs)
  }

  lemma AgingIsOrientationFree(m: map<PodStatsKey, Entry>, m': map<PodStatsKey, Entry>, t: nat)
    requires MirroredKnown(m, m')
    ensures MirroredKnown(AgeTable(m, t), AgeTable(m', t))
    ensures MirroredKeys(DueKeys(AgeTable(m, t), t), DueKeys(AgeTable(m', t), t))
  {}

  lemma ScanIsOrientationFree(order: DiffOrder, a: AgentState, a': AgentState, vs: seq<Visit>, ws: seq<Visit>, t: nat)
    requires MirroredAgent(a, a') && MirroredVisits(vs, ws)
    ensures var r, r' := Scan(order, a, vs, t), Scan(order, a', ws, t);
            MirroredAgent(r.agent, r'.agent) && MirroredBatch(r.batch, r'.batch)
  {
    hide MirroredKnown, MirroredBase, MirroredKeys, VisitAll, MirroredVisits, DueKeys, AgeTable;
    NothingQueued();
    VisitsAreOrientationFree(order, Progress(a.base, a.aggs, {}), Progress(a'.base, a'.aggs, {}), vs, ws, t);
    var p, p' := VisitAll(order, Progress(a.base, a.aggs, {}), vs, t), VisitAll(order, Progress(a'.base, a'.aggs, {}), ws, t);
    AgingIsOrientationFree(p.aggs.known, p'.aggs.known, t);
  }

  lemma NothingQueued()
    ensures MirroredFlows({}, {})
  {}

  // ---------------------------------------------------------------- whole runs

  /** `other` is `run` with every packet at the other hook and every visit and failure reversed. */
  ghost predicate MirrorSteps(step: Step, other: Step) {
    match step
    case Packet(tuple, dir, len) => other == Packet(tuple, Other(dir), len)
    case ScanStep(vs) => other.ScanStep? && MirroredVisits(vs, other.visits)
    case DeleteStep(which, failing) => other.DeleteStep? && other.which == which && MirroredFlows(failing, other.failing)
  }

  ghost predicate MirrorRuns(run: Run, other: Run) {
    match run
    case Boot => other == Boot
    case Then(before, step) => other.Then? && MirrorRuns(before, other.before) && MirrorSteps(step, other.step)
  }

  ghost predicate MirroredPending(p: seq<Batch>, p': seq<Batch>) {
    |p| == |p'| && forall i :: 0 <= i < |p| ==> MirroredBatch(p[i], p'[i])
  }

  ghost predicate MirroredSystem(s: System, s': System) {
    && MirroredKernel(s.kernel, s'.kernel) && MirroredAgent(s.agent, s'.agent)
    && MirroredPending(s.pending, s'.pending) && s.scans == s'.scans
  }

  /** Reversing keys loses none, so both kernels fill up together. */
  lemma {:induction false} MirroredFlowsSize(s: set<V4Flow>, s': set<V4Flow>)
    requires MirroredFlows(s, s')
    ensures |s| == |s'|
    decreases s
  {
    forall f: V4Flow ensures f in s' <==> f.Reverse() in s {
      ReverseTwice(f, f);
    }
    if s == {} {
      assert s' == {};
    } else {
      var f :| f in s;
      forall g: V4Flow ensures g in s - {f} <==> g.Reverse() in s' - {f.Reverse()} {
        ReverseTwice(f, g);
      }
      MirroredFlowsSize(s - {f}, s' - {f.Reverse()});
    }
  }

  lemma PacketIsOrientationFree(m: FlowMap<uint32>, m': FlowMap<uint32>, tuple: V4Flow, dir: Direction, len: uint32)
    requires MirroredKernel(m, m')
    ensures MirroredKernel(Record(m, tuple, dir, len), Record(m', tuple, Other(dir), len))
  {
    hide AddStats;
    var key, key' := Normalized(tuple, dir), Normalized(tuple, Other(dir));
    ReverseTwice(tuple, tuple);
    assert key' == key.Reverse() && Hit(Other(dir), len) == Hit(dir, len).Swap();
    assert MirroredFlows(m.Keys, m'.Keys);
    MirroredFlowsSize(m.Keys, m'.Keys);
    assert |m| == |m.Keys| && |m'| == |m'.Keys|;
    if key in m {
      SwapAdd(m[key], Hit(dir, len));
    }
    forall f: V4Flow ensures f == key <==> f.Reverse() == key' {
      ReverseTwice(f, key);
    }
  }

  lemma SwapAdd(a: FlowStats, b: FlowStats)
    ensures AddStats(a.Swap(), b.Swap()) == AddStats(a, b).Swap()
  {}

  lemma DeleteIsOrientationFree(a: AgentState, a': AgentState, b: Batch, b': Batch)
    requires MirroredAgent(a, a') && MirroredBatch(b, b')
    ensures MirroredAgent(Delete(a, b), Delete(a', b'))
  {}

  lemma KernelDeleteIsOrientationFree(m: FlowMap<uint32>, m': FlowMap<uint32>, s: set<V4Flow>, s': set<V4Flow>,
                                      failing: set<V4Flow>, failing': set<V4Flow>)
    requires MirroredKernel(m, m') && MirroredFlows(s, s') && MirroredFlows(failing, failing')
    ensures MirroredKernel(m - (s - failing), m' - (s' - failing'))
  {}

  lemma StepIsOrientationFree(order: DiffOrder, s: System, s': System, step: Step, other: Step)
    requires MirroredSystem(s, s') && MirrorSteps(step, other)
    ensures MirroredSystem(Apply(order, s, step), Apply(order, s', other))
  {
    hide MirroredKernel, MirroredAgent, Scan, Delete, Record, MirroredVisits;
    match step
    case Packet(tuple, dir, len) => PacketIsOrientationFree(s.kernel, s'.kernel, tuple, dir, len);
    case ScanStep(visits) => ScanIsOrientationFree(order, s.agent, s'.agent, visits, other.visits, s.scans + 1);
    case DeleteStep(which, failing) =>
      if which < |s.pending| {
        var b, b' := s.pending[which], s'.pending[which];
        DeleteIsOrientationFree(s.agent, s'.agent, b, b');
        KernelDeleteIsOrientationFree(s.kernel, s'.kernel, b.flows, b'.flows, failing, other.failing);
      }
  }

  /**
   Moving every packet to the other hook changes neither the pod nor the service aggregates nor
   any gauge; kernel map, base map, known map and delete batches come out reversed.
   */
  lemma {:induction false} RunsAreOrientationFree(order: DiffOrder, run: Run, other: Run)
    requires MirrorRuns(run, other)
    ensures MirroredSystem(At(order, run), At(order, other))
  {
    hide Apply, MirrorSteps;
    if run.Then? {
      RunsAreOrientationFree(order, run.before, other.before);
      StepIsOrientationFree(order, At(order, run.before), At(order, other.before), run.step, other.step);
    }
  }
}
