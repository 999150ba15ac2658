/**
 A kernel hash map is iterated in no particular order. Two runs that differ only in the order in
 which their scans visit the keys reach the same base map, aggregates, delete batches, and pod
 and service gauges; pod-service gauges alone can depend on the order.
 */
module ScanOrder {
  import opened Statistics
  import opened Flows
  import opened Names
  import opened Gauges
  import opened KernelMap
  import opened Agent
  import opened Pipeline
  import opened Liveness
  import opened GaugeAgreement

  ghost predicate SameVisits(vs: seq<Visit>, ws: seq<Visit>) {
    && DistinctFlows(vs) && DistinctFlows(ws)
    && (forall v :: v in vs <==> v in ws)
  }

  /** Any two complete iterations of one kernel map, resolved by the same tables, visit the same. */
  lemma CoversAreReorderings(kernel: FlowMap<uint32>, cls: Resolution, vs: seq<Visit>, ws: seq<Visit>)
    requires Covers(vs, kernel) && Covers(ws, kernel) && Resolved(vs, cls) && Resolved(ws, cls)
    ensures SameVisits(vs, ws)
  {
    forall v | v in vs ensures v in ws { VisitedAlike(kernel, cls, vs, ws, v); }
    forall v | v in ws ensures v in vs { VisitedAlike(kernel, cls, ws, vs, v); }
  }

  lemma VisitedAlike(kernel: FlowMap<uint32>, cls: Resolution, vs: seq<Visit>, ws: seq<Visit>, v: Visit)
    requires Covers(vs, kernel) && Covers(ws, kernel) && Resolved(vs, cls) && Resolved(ws, cls)
    requires v in vs
    ensures v in ws
  {
    var i :| 0 <= i < |vs| && vs[i] == v;
    assert Visited(ws, v.flow);
    var j :| 0 <= j < |ws| && ws[j].flow == v.flow;
    assert ws[j] == v;
  }

  /** Everything but the pod-service gauges. */
  ghost predicate SameAgent(a: AgentState, b: AgentState) {
    && a.base == b.base
    && a.aggs.pods == b.aggs.pods && a.aggs.svcs == b.aggs.svcs && a.aggs.known == b.aggs.known
    && SameSingleGauges(a.aggs.gauges, b.aggs.gauges)
  }

  ghost predicate SameSingleGauges(g: Registry, h: Registry) {
    forall id: GaugeId :: !id.PodSvcGauge? ==> SameAt(g, h, id)
  }

  // ---------------------------------------------------------------- aggregates

  lemma SumsAlike(vs: seq<Visit>, ws: seq<Visit>, f: Visit -> int)
    requires SameVisits(vs, ws)
    ensures SumSeq(vs, f) == SumSeq(ws, f)
  {
    SumSeqIsSumSet(vs, f, vs, f);
    SumSeqIsSumSet(ws, f, ws, f);
    assert (set v | v in vs) == (set v | v in ws);
  }

  lemma TouchedAlike(base: map<V4Flow, Entry>, slot: Slot, vs: seq<Visit>, ws: seq<Visit>)
    requires SameVisits(vs, ws)
    ensures Touched(base, slot, vs) <==> Touched(base, slot, ws)
  {
    hide FedBy;
    if Touched(base, slot, vs) {
      var i :| 0 <= i < |vs| && FedBy(base, slot, vs[i]);
      assert vs[i] in ws;
    }
    if Touched(base, slot, ws) {
      var i :| 0 <= i < |ws| && FedBy(base, slot, ws[i]);
      assert ws[i] in vs;
    }
  }

  lemma EntriesAlike(order: DiffOrder, a: AgentState, b: AgentState, vs: seq<Visit>, ws: seq<Visit>, t: nat, slot: Slot)
    requires SameVisits(vs, ws) && StampsBelow(a, t) && StampsBelow(b, t) && a.base == b.base
    requires TableOf(a.aggs, slot.table) == TableOf(b.aggs, slot.table)
    ensures var r, r' := Scan(order, a, vs, t), Scan(order, b, ws, t);
            && (Live(r.agent.aggs, slot) <==> Live(r'.agent.aggs, slot))
            && (Live(r.agent.aggs, slot) ==> Get(r.agent.aggs, slot) == Get(r'.agent.aggs, slot))
            && (Queued(r.batch, slot) <==> Queued(r'.batch, slot))
  {
    hide Scan, Touched, StampsBelow, Queued;
    var r, r' := Scan(order, a, vs, t), Scan(order, b, ws, t);
    TouchedAlike(a.base, slot, vs, ws);
    forall w: Counter ensures StatsOf(r.agent.aggs, slot).Get(w) == StatsOf(r'.agent.aggs, slot).Get(w) {
      ScanEffect(order, a, vs, t, slot, w);
      ScanEffect(order, b, ws, t, slot, w);
      SumsAlike(vs, ws, Contributions(order, a.base, slot, w));
    }
    ScanEffect(order, a, vs, t, slot, OutBytes);
    ScanEffect(order, b, ws, t, slot, OutBytes);
    SameCounters(StatsOf(r.agent.aggs, slot), StatsOf(r'.agent.aggs, slot));
  }

  lemma TablesAlike(order: DiffOrder, a: AgentState, b: AgentState, vs: seq<Visit>, ws: seq<Visit>, t: nat, table: Table)
    requires SameVisits(vs, ws) && StampsBelow(a, t) && StampsBelow(b, t) && a.base == b.base
    requires TableOf(a.aggs, table) == TableOf(b.aggs, table)
    ensures var r, r' := Scan(order, a, vs, t), Scan(order, b, ws, t);
            && TableOf(r.agent.aggs, table) == TableOf(r'.agent.aggs, table)
            && BatchKeys(r.batch, table) == BatchKeys(r'.batch, table)
  {
    hide Scan, StampsBelow, SameVisits, TableOf, BatchKeys;
    var r, r' := Scan(order, a, vs, t), Scan(order, b, ws, t);
    forall key
      ensures key in TableOf(r.agent.aggs, table) <==> key in TableOf(r'.agent.aggs, table)
      ensures key in TableOf(r.agent.aggs, table) ==> TableOf(r.agent.aggs, table)[key] == TableOf(r'.agent.aggs, table)[key]
      ensures key in BatchKeys(r.batch, table) <==> key in BatchKeys(r'.batch, table)
    {
      EntriesAlike(order, a, b, vs, ws, t, Slot(table, key));
    }
  }

  // ---------------------------------------------------------------- base map

  lemma BaseAlike(order: DiffOrder, a: AgentState, b: AgentState, vs: seq<Visit>, ws: seq<Visit>, t: nat)
    requires SameVisits(vs, ws) && a.base == b.base
    ensures var r, r' := Scan(order, a, vs, t), Scan(order, b, ws, t);
            r.agent.base == r'.agent.base && r.batch.flows == r'.batch.flows
  {
    hide VisitAll, Refreshed, Idle;
    var p, p' := VisitAll(order, Progress(a.base, a.aggs, {}), vs, t), VisitAll(order, Progress(b.base, b.aggs, {}), ws, t);
    forall f
      ensures f in p.base <==> f in p'.base
      ensures f in p.base ==> p.base[f] == p'.base[f]
      ensures f in p.queued <==> f in p'.queued
    {
      VisitAllBase(order, a, vs, t, f);
      VisitAllBase(order, b, ws, t, f);
      if Visited(vs, f) {
        var i :| 0 <= i < |vs| && vs[i].flow == f;
        assert vs[i] in ws;
        var j :| 0 <= j < |ws| && ws[j] == vs[i];
      } else if Visited(ws, f) {
        VisitedInBoth(vs, ws, f);
      }
    }
  }

  lemma VisitedInBoth(vs: seq<Visit>, ws: seq<Visit>, f: V4Flow)
    requires SameVisits(vs, ws) && Visited(ws, f)
    ensures Visited(vs, f)
  {
    var j :| 0 <= j < |ws| && ws[j].flow == f;
    assert ws[j] in vs;
  }

  // ---------------------------------------------------------------- gauges

  /** One gauge after something fed its owner or not. */
  ghost predicate GaugeSet(g: Aggs, g': Aggs, slot: Slot, id: GaugeId, fed: bool) {
    if fed then id.series < SERIES && id in g'.gauges && g'.gauges[id] == ShownFor(slot, StatsOf(g', slot))[id.series]
    else SameAt(g'.gauges, g.gauges, id) && StatsOf(g', slot) == StatsOf(g, slot)
  }

  lemma GaugeSetTwice(g: Aggs, g1: Aggs, g2: Aggs, slot: Slot, id: GaugeId, fed: bool, fed': bool)
    requires GaugeSet(g, g1, slot, id, fed) && GaugeSet(g1, g2, slot, id, fed')
    ensures GaugeSet(g, g2, slot, id, fed || fed')
  {
    hide ShownFor;
  }

  lemma CreditIfSetsGauge(g: Aggs, s: Option<Slot>, x: FlowStats, t: nat, slot: Slot, id: GaugeId)
    requires SingleOwner(slot) && (s.Some? && s.value.table != KnownTable ==> SingleOwner(s.value))
    requires Owns(slot, id)
    ensures GaugeSet(g, CreditIf(g, s, x, t), slot, id, s == Some(slot))
  {
    hide PromKey, Credit, ShownFor;
    if s.Some? {
      CreditGauge(g, s.value, x, t, id);
      CreditEffect(g, s.value, x, t, slot);
      if Owns(s.value, id) && s.value != slot && s.value.table != KnownTable {
        LabelsDetermineKey(slot.table, slot.key, s.value.table, s.value.key, id);
      }
    }
  }

  lemma MergeSetsGauge(g: Aggs, target: Target, x: FlowStats, t: nat, slot: Slot, id: GaugeId)
    requires SingleOwner(slot) && Owns(slot, id)
    ensures GaugeSet(g, Merge(g, RouteOf(target), x, t), slot, id, Feeds(RouteOf(target), slot))
  {
    hide CreditIf, RouteOf, GaugeSet, SingleOwner, Owns;
    RoutesAreCleared(target);
    var route := RouteOf(target);
    var g1 := CreditIf(g, route.src, x, t);
    var g2 := CreditIf(g1, route.dst, x.Swap(), t);
    var g3 := CreditIf(g2, route.pair, x.Swap(), t);
    CreditIfSetsGauge(g, route.src, x, t, slot, id);
    CreditIfSetsGauge(g1, route.dst, x.Swap(), t, slot, id);
    CreditIfSetsGauge(g2, route.pair, x.Swap(), t, slot, id);
    GaugeSetTwice(g, g1, g2, slot, id, route.src == Some(slot), route.dst == Some(slot));
    GaugeSetTwice(g, g2, g3, slot, id, route.src == Some(slot) || route.dst == Some(slot), route.pair == Some(slot));
  }

  lemma {:induction false} VisitsSetGauge(order: DiffOrder, a: AgentState, vs: seq<Visit>, t: nat, slot: Slot, id: GaugeId)
    requires DistinctFlows(vs) && SingleOwner(slot) && Owns(slot, id)
    ensures GaugeSet(a.aggs, VisitAll(order, Progress(a.base, a.aggs, {}), vs, t).aggs, slot, id, Touched(a.base, slot, vs))
  {
    hide GaugeSet, Touched, SingleOwner, Owns, Merge, RouteOf;
    if vs == [] {
      NothingSet(a, slot, id);
    } else {
      var front, v := vs[..|vs| - 1], vs[|vs| - 1];
      var p := VisitAll(order, Progress(a.base, a.aggs, {}), front, t);
      VisitsSetGauge(order, a, front, t, slot, id);
      VisitAllBase(order, a, front, t, v.flow);
      assert !Visited(front, v.flow);
      VisitSetsGauge(order, a.base, p, v, t, slot, id);
      GaugeSetTwice(a.aggs, p.aggs, VisitOne(order, p, v, t).aggs, slot, id, Touched(a.base, slot, front), FedBy(a.base, slot, v));
      TouchedLast(a.base, slot, vs);
    }
  }

  lemma VisitSetsGauge(order: DiffOrder, base: map<V4Flow, Entry>, p: Progress, v: Visit, t: nat, slot: Slot, id: GaugeId)
    requires SingleOwner(slot) && Owns(slot, id)
    requires v.flow in p.base <==> v.flow in base
    requires v.flow in base ==> p.base[v.flow] == base[v.flow]
    ensures GaugeSet(p.aggs, VisitOne(order, p, v, t).aggs, slot, id, FedBy(base, slot, v))
  {
    hide SingleOwner, Owns, Merge, RouteOf, Feeds;
    if !Idle(base, v) {
      MergeSetsGauge(p.aggs, v.target, Delta(order, p.base, v), t, slot, id);
    }
  }

  lemma NothingSet(a: AgentState, slot: Slot, id: GaugeId)
    ensures GaugeSet(a.aggs, a.aggs, slot, id, Touched(a.base, slot, []))
  {}

  ghost predicate Owned(id: GaugeId) {
    exists slot :: SingleOwner(slot) && Owns(slot, id)
  }

  lemma MergeSparesOrphan(g: Aggs, target: Target, x: FlowStats, t: nat, id: GaugeId)
    requires !id.PodSvcGauge? && !Owned(id)
    ensures SameAt(Merge(g, RouteOf(target), x, t).gauges, g.gauges, id)
  {
    hide RouteOf, SingleOwner, PromKey, Credit;
    RoutesAreCleared(target);
    var route := RouteOf(target);
    var g1 := CreditIf(g, route.src, x, t);
    var g2 := CreditIf(g1, route.dst, x.Swap(), t);
    if route.src.Some? { CreditGauge(g, route.src.value, x, t, id); }
    if route.dst.Some? { CreditGauge(g1, route.dst.value, x.Swap(), t, id); }
    if route.pair.Some? { CreditGauge(g2, route.pair.value, x.Swap(), t, id); }
  }

  /** No pod or service key could write the gauge, so no scan does. */
  lemma {:induction false} VisitsSpareOrphan(order: DiffOrder, p: Progress, vs: seq<Visit>, t: nat, id: GaugeId)
    requires !id.PodSvcGauge? && !Owned(id)
    ensures SameAt(VisitAll(order, p, vs, t).aggs.gauges, p.aggs.gauges, id)
  {
    hide Owned, Merge, RouteOf;
    if vs != [] {
      var v := vs[|vs| - 1];
      var q := VisitAll(order, p, vs[..|vs| - 1], t);
      VisitsSpareOrphan(order, p, vs[..|vs| - 1], t, id);
      MergeSparesOrphan(q.aggs, v.target, Delta(order, q.base, v), t, id);
    }
  }

  lemma GaugeAlike(order: DiffOrder, a: AgentState, b: AgentState, vs: seq<Visit>, ws: seq<Visit>, t: nat, id: GaugeId)
    requires SameVisits(vs, ws) && SameAgent(a, b) && !id.PodSvcGauge?
    requires StampsBelow(a, t) && StampsBelow(b, t)
    ensures SameAt(Scan(order, a, vs, t).agent.aggs.gauges, Scan(order, b, ws, t).agent.aggs.gauges, id)
  {
    hide Scan, VisitAll, SingleOwner, Owns, ShownFor, StampsBelow, Live, Touched, TableOf;
    var p, p' := VisitAll(order, Progress(a.base, a.aggs, {}), vs, t), VisitAll(order, Progress(b.base, b.aggs, {}), ws, t);
    var r, r' := Scan(order, a, vs, t), Scan(order, b, ws, t);
    if slot :| SingleOwner(slot) && Owns(slot, id) {
      ScanHolds(order, a, vs, t, slot, Some(ZERO));
      ScanHolds(order, b, ws, t, slot, Some(ZERO));
      VisitsSetGauge(order, a, vs, t, slot, id);
      VisitsSetGauge(order, b, ws, t, slot, id);
      TouchedAlike(a.base, slot, vs, ws);
      SameTables(a, b, slot.table);
      EntriesAlike(order, a, b, vs, ws, t, slot);
      assert StatsOf(r.agent.aggs, slot) == StatsOf(r'.agent.aggs, slot);
      assert StatsOf(p.aggs, slot) == StatsOf(p'.aggs, slot);
    } else {
      ScanHolds(order, a, vs, t, Pair(PodStatsKey("", "")), None);
      ScanHolds(order, b, ws, t, Pair(PodStatsKey("", "")), None);
      VisitsSpareOrphan(order, Progress(a.base, a.aggs, {}), vs, t, id);
      VisitsSpareOrphan(order, Progress(b.base, b.aggs, {}), ws, t, id);
    }
  }

  lemma SameTables(a: AgentState, b: AgentState, table: Table)
    requires SameAgent(a, b)
    ensures TableOf(a.aggs, table) == TableOf(b.aggs, table)
  {}

  // ---------------------------------------------------------------- one scan, then whole runs

  /** One scan: the order of its visits does not matter. */
  lemma ScanIgnoresOrder(order: DiffOrder, a: AgentState, b: AgentState, vs: seq<Visit>, ws: seq<Visit>, t: nat)
    requires SameVisits(vs, ws) && SameAgent(a, b)
    requires StampsBelow(a, t) && StampsBelow(b, t)
    ensures var r, r' := Scan(order, a, vs, t), Scan(order, b, ws, t);
            SameAgent(r.agent, r'.agent) && r.batch == r'.batch
  {
    hide Scan, SameVisits, StampsBelow;
    BaseAlike(order, a, b, vs, ws, t);
    TablesAlike(order, a, b, vs, ws, t, PodTable);
    TablesAlike(order, a, b, vs, ws, t, SvcTable);
    TablesAlike(order, a, b, vs, ws, t, KnownTable);
    forall id: GaugeId | !id.PodSvcGauge?
      ensures SameAt(Scan(order, a, vs, t).agent.aggs.gauges, Scan(order, b, ws, t).agent.aggs.gauges, id)
    {
      GaugeAlike(order, a, b, vs, ws, t, id);
    }
  }

  /** The same history, up to the order of visits inside each scan. */
  ghost predicate Reordered(run: Run, other: Run) {
    match run
    case Boot => other == Boot
    case Then(before, step) =>
      && other.Then? && Reordered(before, other.before)
      && (if step.ScanStep? && other.step.ScanStep? then SameVisits(step.visits, other.step.visits) else step == other.step)
  }

  ghost predicate SameSystem(s: System, s': System) {
    s.kernel == s'.kernel && s.pending == s'.pending && s.scans == s'.scans && SameAgent(s.agent, s'.agent)
  }

  lemma StepIgnoresOrder(order: DiffOrder, s: System, s': System, step: Step, step': Step)
    requires SameSystem(s, s') && StampsBelow(s.agent, s.scans + 1) && StampsBelow(s'.agent, s.scans + 1)
    requires if step.ScanStep? && step'.ScanStep? then SameVisits(step.visits, step'.visits) else step == step'
    ensures SameSystem(Apply(order, s, step), Apply(order, s', step'))
  {
    hide Scan, StampsBelow, SameVisits, Record, SameSingleGauges;
    if step.ScanStep? {
      ScanIgnoresOrder(order, s.agent, s'.agent, step.visits, step'.visits, s.scans + 1);
    }
  }

  lemma {:induction false} RunsIgnoreScanOrder(order: DiffOrder, run: Run, other: Run)
    requires Legal(order, run) && Legal(order, other) && Reordered(run, other)
    ensures SameSystem(At(order, run), At(order, other))
  {
    hide Apply, StampsBelow, SameVisits, Covers;
    if run.Then? {
      RunsIgnoreScanOrder(order, run.before, other.before);
      StampsAreOld(order, run.before);
      StampsAreOld(order, other.before);
      StepIgnoresOrder(order, At(order, run.before), At(order, other.before), run.step, other.step);
    }
  }

  /**
   Pod-service gauges do depend on it: merging the two directions of one pair in either order gives
   the same totals, and the same gauges exactly when the totals of the two directions are mirrored.
   */
  lemma PairGaugesDependOnOrder(g: Aggs, key: PodStatsKey, x: FlowStats, y: FlowStats, t: nat)
    requires ParsedKind(key) == POD_TO_SVC
    ensures var there, back := RouteOf(Target(key, POD_TO_SVC)), RouteOf(Target(key.Swap(), SVC_TO_POD));
            var g1 := Merge(Merge(g, there, x, t), back, y, t);
            var g2 := Merge(Merge(g, back, y, t), there, x, t);
            && StatsOf(g1, Pair(key)) == StatsOf(g2, Pair(key))
            && StatsOf(g1, Pair(key.Swap())) == StatsOf(g2, Pair(key.Swap()))
            && ((forall id :: Owns(Pair(key), id) ==> SameAt(g1.gauges, g2.gauges, id))
                <==> StatsOf(g1, Pair(key)) == StatsOf(g1, Pair(key.Swap())).Swap())
  {
    hide Merge, Shows, PromKey, SplitN3, RouteOf;
    var t1, t2 := Target(key, POD_TO_SVC), Target(key.Swap(), SVC_TO_POD);
    var g1 := Merge(Merge(g, RouteOf(t1), x, t), RouteOf(t2), y, t);
    var g2 := Merge(Merge(g, RouteOf(t2), y, t), RouteOf(t1), x, t);
    MergesCommute(g, t1, t2, x, y, t, Pair(key));
    MergesCommute(g, t1, t2, x, y, t, Pair(key.Swap()));
    assert key.Swap().Swap() == key;
    PairPublishes(key);
    PairMerged(Merge(g, RouteOf(t1), x, t), t2, y, t, StatsOf(g1, Pair(key)));
    PairMerged(Merge(g, RouteOf(t2), y, t), t1, x, t, StatsOf(g2, Pair(key.Swap())));
    ShowsComparison(g1.gauges, g2.gauges, key, StatsOf(g2, Pair(key)));
  }

  lemma PairPublishes(key: PodStatsKey)
    requires ParsedKind(key) == POD_TO_SVC
    ensures Publishes(KnownTable, PromKey(key)) && Publishes(KnownTable, PromKey(key.Swap()))
  {
    hide SplitN3;
  }

  /** Given a registry that shows `stats`, another one agrees with it on those gauges iff it shows `stats` too. */
  lemma ShowsComparison(g1: Registry, g2: Registry, key: PodStatsKey, stats: FlowStats)
    requires Shows(g2, Pair(key), Some(stats))
    ensures (forall id :: Owns(Pair(key), id) ==> SameAt(g1, g2, id)) <==> Shows(g1, Pair(key), Some(stats))
  {
    hide Owns, ShownFor;
  }

  lemma MergesCommute(g: Aggs, a: Target, b: Target, x: FlowStats, y: FlowStats, t: nat, slot: Slot)
    ensures StatsOf(Merge(Merge(g, RouteOf(a), x, t), RouteOf(b), y, t), slot)
            == StatsOf(Merge(Merge(g, RouteOf(b), y, t), RouteOf(a), x, t), slot)
  {
    hide Merge, RouteOf, Orient, Mod64, Live;
    var ga, gb := Merge(g, RouteOf(a), x, t), Merge(g, RouteOf(b), y, t);
    var gab, gba := Merge(ga, RouteOf(b), y, t), Merge(gb, RouteOf(a), x, t);
    forall w: Counter ensures StatsOf(gab, slot).Get(w) == StatsOf(gba, slot).Get(w) {
      MergeAccrues(g, RouteOf(a), x, t, slot, w);
      MergeAccrues(g, RouteOf(b), y, t, slot, w);
      MergeAccrues(ga, RouteOf(b), y, t, slot, w);
      MergeAccrues(gb, RouteOf(a), x, t, slot, w);
      Mod64Plus(StatsOf(g, slot).Get(w) + Orient(RouteOf(a), slot, x, w), Orient(RouteOf(b), slot, y, w));
      Mod64Plus(StatsOf(g, slot).Get(w) + Orient(RouteOf(b), slot, y, w), Orient(RouteOf(a), slot, x, w));
    }
    SameCounters(StatsOf(gab, slot), StatsOf(gba, slot));
  }
}
