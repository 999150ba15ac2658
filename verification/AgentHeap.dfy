/**
 The agent with its maps of pointers, as `InetV4FlowMetricsEntry` keeps them. Every method is
 proved to compute the function of module `Agent` on the values the pointers lead to; in
 particular `UpdateStats` computes `Scan(OverwriteFirst, …)`, because the "old" entry it diffs
 against is the object it has just overwritten.
 */
module AgentHeap {
  import opened Statistics
  import opened Flows
  import opened Names
  import opened Gauges
  import opened Agent
  import opened Informers
  import opened KernelMap

  class FlowStatsEntry {
    var stats: FlowStats
    var agingCounter: uint8
    var timeStamp: nat

    constructor ()
      ensures Value() == BLANK
    {
      stats, agingCounter, timeStamp := ZERO, 0, 0;
    }

    function Value(): Entry
      reads this
    {
      Entry(stats, agingCounter, timeStamp)
    }

    method Add(inc: FlowStats, t: nat)
      modifies this
      ensures Value() == Entry(AddStats(old(stats), inc), 0, t)
    {
      stats := AddStats(stats, inc);
      agingCounter := 0;
      timeStamp := t;
    }
  }

  function Elements<K(==)>(xs: seq<K>): set<K> {
    set x | x in xs
  }

  /** The values a map of pointers leads to. */
  ghost function Values<K>(m: map<K, FlowStatsEntry>): map<K, Entry>
    reads m.Values
  {
    map k | k in m :: m[k].Value()
  }

  lemma ValuesAt(m: map<PodStatsKey, FlowStatsEntry>, key: PodStatsKey)
    ensures key in Values(m) <==> key in m
    ensures key in m ==> Values(m)[key] == m[key].Value()
  {}

  ghost predicate NoAlias<K(!new)>(m: map<K, FlowStatsEntry>) {
    forall k, k' :: k in m && k' in m && k != k' ==> m[k] != m[k']
  }

  ghost predicate Apart<K(!new), L(!new)>(m: map<K, FlowStatsEntry>, n: map<L, FlowStatsEntry>) {
    m.Values !! n.Values
  }

  /** `if !ok { m[key] = &FlowStatsEntry{} }; m[key].add(&stats, t)` */
  method CreditEntry(m: map<PodStatsKey, FlowStatsEntry>, key: PodStatsKey, x: FlowStats, t: nat)
    returns (m': map<PodStatsKey, FlowStatsEntry>)
    requires NoAlias(m)
    modifies m.Values
    ensures NoAlias(m') && key in m' && m'.Values <= m.Values + {m'[key]} && fresh(m'.Values - m.Values)
    ensures m'[key].Value() == Entry(AddStats(if key in m then old(m[key].stats) else ZERO, x), 0, t)
    ensures Values(m') == old(Values(m))[key := m'[key].Value()]
  {
    hide AddStats;
    m' := m;
    if key !in m' {
      var entry := new FlowStatsEntry();
      m' := m'[key := entry];
    }
    m'[key].Add(x, t);
    assert forall k :: k in m && k != key ==> m'[k].Value() == old(m[k].Value());
  }

  /** One aging loop: bump every entry this scan has not stamped and list those that are due. */
  method AgeEntries(m: map<PodStatsKey, FlowStatsEntry>, t: nat) returns (due: seq<PodStatsKey>)
    requires NoAlias(m)
    modifies m.Values
    ensures Values(m) == AgeTable(old(Values(m)), t)
    ensures Elements(due) == DueKeys(Values(m), t)
  {
    due := [];
    var rest := m.Keys;
    while rest != {}
      invariant rest <= m.Keys
      invariant forall k :: k in m && k in rest ==> m[k].Value() == old(m[k].Value())
      invariant forall k :: k in m && k !in rest ==> m[k].Value() == AgeEntry(old(m[k].Value()), t)
      invariant forall k :: k in due <==>
                  k in m && k !in rest && m[k].timeStamp != t && m[k].agingCounter >= AGING_LIMIT
      decreases rest
    {
      var k :| k in rest;
      rest := rest - {k};
      if m[k].timeStamp != t {
        m[k].agingCounter := Older(m[k].agingCounter);
        if m[k].agingCounter >= AGING_LIMIT {
          due := due + [k];
        }
      }
    }
  }

  /** The visits of a kernel snapshot; `tables[i]` is what the name tables held when key `i` was classified. */
  function Visits(kernel: seq<(V4Flow, FlowStats)>, tables: seq<Tables>): (vs: seq<Visit>)
    requires |tables| == |kernel|
    ensures |vs| == |kernel|
  {
    seq(|kernel|, i requires 0 <= i < |kernel| =>
      Visit(kernel[i].0, kernel[i].1, GetPodStatsKey(tables[i], IpText(kernel[i].0.src), IpText(kernel[i].0.dst))))
  }

  /** `Credit` spelled out table by table. */
  lemma CreditTable(g: Aggs, slot: Slot, x: FlowStats, t: nat)
    ensures var e := Entry(AddStats(StatsOf(g, slot), x), 0, t);
            var gauges := SetGauge(g.gauges, slot.table, PromKey(slot.key), e.stats);
            Credit(g, slot, x, t) ==
            match slot.table
            case PodTable => Aggs(g.pods[slot.key := e], g.svcs, g.known, gauges)
            case SvcTable => Aggs(g.pods, g.svcs[slot.key := e], g.known, gauges)
            case KnownTable => Aggs(g.pods, g.svcs, g.known[slot.key := e], gauges)
  {}

  class InetV4FlowMetricsEntry {
    var baseMap: map<V4Flow, FlowStatsEntry>
    var podStatsMap: map<PodStatsKey, FlowStatsEntry>
    var svcStatsMap: map<PodStatsKey, FlowStatsEntry>
    var knownStatsMap: map<PodStatsKey, FlowStatsEntry>
    const agent: StatsAgent

    ghost function Entries(): set<FlowStatsEntry>
      reads this
    {
      baseMap.Values + podStatsMap.Values + svcStatsMap.Values + knownStatsMap.Values
    }

    /** No two map slots share an entry. */
    ghost predicate Valid()
      reads this
    {
      && NoAlias(baseMap) && NoAlias(podStatsMap) && NoAlias(svcStatsMap) && NoAlias(knownStatsMap)
      && Apart(baseMap, podStatsMap) && Apart(baseMap, svcStatsMap) && Apart(baseMap, knownStatsMap)
      && Apart(podStatsMap, svcStatsMap) && Apart(podStatsMap, knownStatsMap) && Apart(svcStatsMap, knownStatsMap)
    }

    ghost function BaseView(): map<V4Flow, Entry>
      reads this`baseMap, baseMap.Values
    {
      Values(baseMap)
    }

    /** The three aggregate maps, without the gauges. */
    ghost function Maps(): Aggs
      reads this`podStatsMap, this`svcStatsMap, this`knownStatsMap, podStatsMap.Values, svcStatsMap.Values, knownStatsMap.Values
    {
      Aggs(Values(podStatsMap), Values(svcStatsMap), Values(knownStatsMap), map[])
    }

    ghost function AggsView(): Aggs
      reads this`podStatsMap, this`svcStatsMap, this`knownStatsMap, podStatsMap.Values, svcStatsMap.Values, knownStatsMap.Values, agent.gauges
    {
      Maps().(gauges := agent.gauges.values)
    }

    ghost function View(): AgentState
      reads this, Entries(), agent.gauges
    {
      AgentState(BaseView(), AggsView())
    }

    constructor (agent: StatsAgent)
      requires agent.gauges.values == map[]
      ensures Valid() && View() == NEW_AGENT && this.agent == agent && Entries() == {}
    {
      baseMap, podStatsMap, svcStatsMap, knownStatsMap := map[], map[], map[], map[];
      this.agent := agent;
    }

    /** `podStatsMap[key]` is created if missing and credited; the other maps are left alone. */
    method AddToPod(key: PodStatsKey, x: FlowStats, t: nat)
      requires Valid()
      modifies this`podStatsMap, podStatsMap.Values
      ensures Valid() && fresh(podStatsMap.Values - old(podStatsMap.Values)) && key in podStatsMap
      ensures podStatsMap[key].Value() == Entry(AddStats(StatsOf(old(Maps()), Slot(PodTable, key)), x), 0, t)
      ensures Maps() == old(Maps()).(pods := old(Values(podStatsMap))[key := podStatsMap[key].Value()])
    {
      hide AddStats, Values, NoAlias;
      ValuesAt(podStatsMap, key);
      podStatsMap := CreditEntry(podStatsMap, key, x, t);
    }

    method CreditPod(key: PodStatsKey, x: FlowStats, t: nat)
      requires Valid()
      modifies this`podStatsMap, podStatsMap.Values, agent.gauges
      ensures Valid() && fresh(podStatsMap.Values - old(podStatsMap.Values))
      ensures AggsView() == Credit(old(AggsView()), Slot(PodTable, key), x, t)
    {
      hide Valid, Values, Credit, PromKey, SetGauge;
      CreditTable(AggsView(), Slot(PodTable, key), x, t);
      AddToPod(key, x, t);
      ghost var credited := Maps();
      var prom := ToPromMetricsKey(key);
      agent.gauges.SetPodGauge(prom, podStatsMap[key].stats);
      assert Maps() == credited;
    }

    /** `svcStatsMap[key]` is created if missing and credited; the other maps are left alone. */
    method AddToSvc(key: PodStatsKey, x: FlowStats, t: nat)
      requires Valid()
      modifies this`svcStatsMap, svcStatsMap.Values
      ensures Valid() && fresh(svcStatsMap.Values - old(svcStatsMap.Values)) && key in svcStatsMap
      ensures svcStatsMap[key].Value() == Entry(AddStats(StatsOf(old(Maps()), Slot(SvcTable, key)), x), 0, t)
      ensures Maps() == old(Maps()).(svcs := old(Values(svcStatsMap))[key := svcStatsMap[key].Value()])
    {
      hide AddStats, Values, NoAlias;
      ValuesAt(svcStatsMap, key);
      svcStatsMap := CreditEntry(svcStatsMap, key, x, t);
    }

    method CreditSvc(key: PodStatsKey, x: FlowStats, t: nat)
      requires Valid()
      modifies this`svcStatsMap, svcStatsMap.Values, agent.gauges
      ensures Valid() && fresh(svcStatsMap.Values - old(svcStatsMap.Values))
      ensures AggsView() == Credit(old(AggsView()), Slot(SvcTable, key), x, t)
    {
      hide Valid, Values, Credit, PromKey, SetGauge;
      CreditTable(AggsView(), Slot(SvcTable, key), x, t);
      AddToSvc(key, x, t);
      ghost var credited := Maps();
      var prom := ToPromMetricsKey(key);
      agent.gauges.SetSvcGauge(prom, svcStatsMap[key].stats);
      assert Maps() == credited;
    }

    /** `knownStatsMap[key]` is created if missing and credited; the other maps are left alone. */
    method AddToKnown(key: PodStatsKey, x: FlowStats, t: nat)
      requires Valid()
      modifies this`knownStatsMap, knownStatsMap.Values
      ensures Valid() && fresh(knownStatsMap.Values - old(knownStatsMap.Values)) && key in knownStatsMap
      ensures knownStatsMap[key].Value() == Entry(AddStats(StatsOf(old(Maps()), Slot(KnownTable, key)), x), 0, t)
      ensures Maps() == old(Maps()).(known := old(Values(knownStatsMap))[key := knownStatsMap[key].Value()])
    {
      hide AddStats, Values, NoAlias;
      ValuesAt(knownStatsMap, key);
      knownStatsMap := CreditEntry(knownStatsMap, key, x, t);
    }

    method CreditKnown(key: PodStatsKey, x: FlowStats, t: nat)
      requires Valid()
      modifies this`knownStatsMap, knownStatsMap.Values, agent.gauges
      ensures Valid() && fresh(knownStatsMap.Values - old(knownStatsMap.Values))
      ensures AggsView() == Credit(old(AggsView()), Slot(KnownTable, key), x, t)
    {
      hide Valid, Values, Credit, PromKey, SetGauge;
      CreditTable(AggsView(), Slot(KnownTable, key), x, t);
      AddToKnown(key, x, t);
      ghost var credited := Maps();
      var prom := ToPromMetricsKey(key);
      agent.gauges.SetPodSvcGauge(prom, knownStatsMap[key].stats);
      assert Maps() == credited;
    }

    method MergePodToPod(key: PodStatsKey, stats: FlowStats, t: nat)
      requires Valid()
      modifies this`podStatsMap
      modifies podStatsMap.Values, agent.gauges
      ensures Valid()
      ensures fresh(podStatsMap.Values - old(podStatsMap.Values))
      ensures AggsView() == Merge(old(AggsView()), RouteOf(Target(key, POD_TO_POD)), stats, t)
    {
      hide Credit, Valid, AggsView;
      CreditPod(key.Clear1(), stats, t);
      var copiedStats := stats.Swap();
      CreditPod(key.Swap().Clear1(), copiedStats, t);
    }

    method MergeSvcToSvc(key: PodStatsKey, stats: FlowStats, t: nat)
      requires Valid()
      modifies this`svcStatsMap
      modifies svcStatsMap.Values, agent.gauges
      ensures Valid()
      ensures fresh(svcStatsMap.Values - old(svcStatsMap.Values))
      ensures AggsView() == Merge(old(AggsView()), RouteOf(Target(key, SVC_TO_SVC)), stats, t)
    {
      hide Credit, Valid, AggsView;
      CreditSvc(key.Clear1(), stats, t);
      var copiedStats := stats.Swap();
      CreditSvc(key.Swap().Clear1(), copiedStats, t);
    }

    method MergePodToSvc(key: PodStatsKey, stats: FlowStats, t: nat)
      requires Valid()
      modifies this`podStatsMap, this`svcStatsMap, this`knownStatsMap
      modifies podStatsMap.Values, svcStatsMap.Values, knownStatsMap.Values, agent.gauges
      ensures Valid()
      ensures fresh(podStatsMap.Values - old(podStatsMap.Values))
      ensures fresh(svcStatsMap.Values - old(svcStatsMap.Values))
      ensures fresh(knownStatsMap.Values - old(knownStatsMap.Values))
      ensures AggsView() == Merge(old(AggsView()), RouteOf(Target(key, POD_TO_SVC)), stats, t)
    {
      hide Credit, Valid, AggsView;
      CreditPod(key.Clear1(), stats, t);
      var copiedStats := stats.Swap();
      CreditSvc(key.Swap().Clear1(), copiedStats, t);
      CreditKnown(key, copiedStats, t);
    }

    method MergeSvcToPod(key: PodStatsKey, stats: FlowStats, t: nat)
      requires Valid()
      modifies this`podStatsMap, this`svcStatsMap, this`knownStatsMap
      modifies podStatsMap.Values, svcStatsMap.Values, knownStatsMap.Values, agent.gauges
      ensures Valid()
      ensures fresh(podStatsMap.Values - old(podStatsMap.Values))
      ensures fresh(svcStatsMap.Values - old(svcStatsMap.Values))
      ensures fresh(knownStatsMap.Values - old(knownStatsMap.Values))
      ensures AggsView() == Merge(old(AggsView()), RouteOf(Target(key, SVC_TO_POD)), stats, t)
    {
      hide Credit, Valid, AggsView;
      CreditSvc(key.Clear1(), stats, t);
      var copiedStats := stats.Swap();
      CreditPod(key.Swap().Clear1(), copiedStats, t);
      CreditKnown(key, copiedStats, t);
    }

    /** `mergeStats`: the eight-way fold of one delta into the aggregate maps. */
    method MergeStats(kind: KeyType, key: PodStatsKey, stats: FlowStats, t: nat)
      requires Valid()
      modifies this`podStatsMap, this`svcStatsMap, this`knownStatsMap
      modifies podStatsMap.Values, svcStatsMap.Values, knownStatsMap.Values, agent.gauges
      ensures Valid()
      ensures fresh(podStatsMap.Values - old(podStatsMap.Values))
      ensures fresh(svcStatsMap.Values - old(svcStatsMap.Values))
      ensures fresh(knownStatsMap.Values - old(knownStatsMap.Values))
      ensures AggsView() == Merge(old(AggsView()), RouteOf(Target(key, kind)), stats, t)
    {
      hide Credit, Valid, AggsView;
      if kind == FROM_POD {
        CreditPod(key.Clear1(), stats, t);
      } else if kind == TO_POD {
        CreditPod(key.Swap().Clear1(), stats.Swap(), t);
      } else if kind == FROM_SVC {
        CreditSvc(key.Clear1(), stats, t);
      } else if kind == TO_SVC {
        CreditSvc(key.Swap().Clear1(), stats.Swap(), t);
      } else if kind == POD_TO_POD {
        MergePodToPod(key, stats, t);
      } else if kind == SVC_TO_SVC {
        MergeSvcToSvc(key, stats, t);
      } else if kind == POD_TO_SVC {
        MergePodToSvc(key, stats, t);
      } else if kind == SVC_TO_POD {
        MergeSvcToPod(key, stats, t);
      }
    }

    /** A merge leaves the base map alone. */
    method MergeTarget(target: Target, stats: FlowStats, t: nat)
      requires Valid()
      modifies this`podStatsMap, this`svcStatsMap, this`knownStatsMap
      modifies podStatsMap.Values, svcStatsMap.Values, knownStatsMap.Values, agent.gauges
      ensures Valid()
      ensures fresh(Entries() - old(Entries()))
      ensures AggsView() == Merge(old(AggsView()), RouteOf(target), stats, t)
      ensures BaseView() == old(BaseView())
    {
      hide Merge, RouteOf, AggsView;
      MergeStats(target.kind, target.key, stats, t);
    }

    /** First sight of a flow: `baseMap[key] = &FlowStatsEntry{}`. */
    method Insert(key: V4Flow)
      requires Valid() && key !in baseMap
      modifies this`baseMap
      ensures Valid() && key in baseMap && fresh(baseMap[key]) && baseMap.Values <= old(baseMap.Values) + {baseMap[key]}
      ensures BaseView() == old(BaseView())[key := BLANK] && AggsView() == old(AggsView())
    {
      var entry := new FlowStatsEntry();
      baseMap := baseMap[key := entry];
      assert baseMap.Values <= old(baseMap.Values) + {entry};
      assert BaseView() == old(BaseView())[key := BLANK];
    }

    /** Overwrite of a known flow's entry, in place: whoever holds the pointer sees the new value. */
    method Overwrite(key: V4Flow, value: FlowStats, t: nat)
      requires Valid() && key in baseMap
      modifies baseMap[key]
      ensures baseMap[key].stats == value
      ensures BaseView() == old(BaseView())[key := Entry(value, 0, t)] && AggsView() == old(AggsView())
    {
      baseMap[key].stats := value;
      baseMap[key].agingCounter := 0;
      baseMap[key].timeStamp := t;
    }

    method Snapshot(key: V4Flow, value: FlowStats, t: nat)
      requires Valid() && key !in baseMap
      modifies this`baseMap
      ensures Valid() && fresh(baseMap.Values - old(baseMap.Values))
      ensures BaseView() == old(BaseView())[key := Entry(value, 0, t)] && AggsView() == old(AggsView())
    {
      hide Valid, BaseView, AggsView;
      Insert(key);
      Overwrite(key, value, t);
    }

    method AgeFlow(key: V4Flow)
      requires Valid() && key in baseMap
      modifies baseMap[key]
      ensures BaseView() == old(BaseView())[key := old(baseMap[key].Value()).(aging := Older(old(baseMap[key].agingCounter)))]
      ensures AggsView() == old(AggsView())
    {
      baseMap[key].agingCounter := Older(baseMap[key].agingCounter);
    }

    lemma KeyView(key: V4Flow)
      ensures key in BaseView() <==> key in baseMap
      ensures key in baseMap ==> BaseView()[key] == baseMap[key].Value()
    {}

    method FirstSight(key: V4Flow, value: FlowStats, target: Target, t: nat)
      requires Valid() && key !in baseMap
      modifies this`baseMap, this`podStatsMap, this`svcStatsMap, this`knownStatsMap, Entries(), agent.gauges
      ensures Valid() && forall e :: e in Entries() ==> e in old(Entries()) || fresh(e)
      ensures BaseView() == old(BaseView())[key := Entry(value, 0, t)]
      ensures AggsView() == Merge(old(AggsView()), RouteOf(target), value, t)
    {
      hide Valid, Merge, RouteOf, AggsView, BaseView;
      Snapshot(key, value, t);
      MergeTarget(target, value, t);
    }

    /**
     A visit to a known flow whose counters moved. `currStats` still points at the entry that
     `Overwrite` changes, so the "old" side of the difference is already the new value.
     */
    method Accumulate(key: V4Flow, value: FlowStats, target: Target, t: nat)
      requires Valid() && key in baseMap && baseMap[key].stats != value
      modifies this`podStatsMap, this`svcStatsMap, this`knownStatsMap, Entries(), agent.gauges
      ensures Valid() && forall e :: e in Entries() ==> e in old(Entries()) || fresh(e)
      ensures BaseView() == old(BaseView())[key := Entry(value, 0, t)]
      ensures AggsView() == Merge(old(AggsView()), RouteOf(target), DiffStats(value, value), t)
    {
      hide Valid, Merge, RouteOf, AggsView, BaseView, DiffStats;
      var currStats := baseMap[key];
      Overwrite(key, value, t);
      var diffStats := DiffStats(currStats.stats, value);
      MergeTarget(target, diffStats, t);
    }

    /** One turn of the loop over the kernel map; `due` says that the key joins the delete list. */
    method VisitFlow(key: V4Flow, value: FlowStats, target: Target, t: nat) returns (due: bool)
      requires Valid()
      modifies this`baseMap, this`podStatsMap, this`svcStatsMap, this`knownStatsMap, Entries(), agent.gauges
      ensures Valid() && forall e :: e in Entries() ==> e in old(Entries()) || fresh(e)
      ensures var p := VisitOne(OverwriteFirst, Progress(old(BaseView()), old(AggsView()), {}), Visit(key, value, target), t);
              BaseView() == p.base && AggsView() == p.aggs && (if due then {key} else {}) == p.queued
    {
      hide Valid, Merge, RouteOf, AggsView, BaseView, DiffStats;
      KeyView(key);
      due := false;
      if key !in baseMap {
        FirstSight(key, value, target, t);
      } else if baseMap[key].stats == value {
        AgeFlow(key);
        KeyView(key);
        due := baseMap[key].agingCounter >= AGING_LIMIT;
      } else {
        Accumulate(key, value, target, t);
      }
    }

    /** The loop over the kernel map; informer events may change the name tables between visits. */
    method VisitKernel(kernel: seq<(V4Flow, FlowStats)>, tables: seq<Tables>, t: nat) returns (toDelete: seq<V4Flow>)
      requires Valid() && |tables| == |kernel|
      modifies this`baseMap, this`podStatsMap, this`svcStatsMap, this`knownStatsMap, Entries(), agent.gauges
      ensures Valid() && fresh(Entries() - old(Entries()))
      ensures Progress(BaseView(), AggsView(), Elements(toDelete))
              == VisitAll(OverwriteFirst, Progress(old(BaseView()), old(AggsView()), {}),
                          Visits(kernel, tables), t)
    {
      hide Valid, BaseView, AggsView, VisitOne, VisitAll;
      toDelete := [];
      ghost var vs := Visits(kernel, tables);
      ghost var start := Progress(BaseView(), AggsView(), {});
      VisitAllNone(OverwriteFirst, start, t);
      assert vs[..0] == [];
      for i := 0 to |kernel|
        invariant Valid()
        invariant forall e :: e in Entries() ==> e in old(Entries()) || fresh(e)
        invariant Progress(BaseView(), AggsView(), Elements(toDelete)) == VisitAll(OverwriteFirst, start, vs[..i], t)
      {
        var (key, value) := kernel[i];
        var target := GetPodStatsKey(tables[i], IpText(key.src), IpText(key.dst));
        var due := VisitFlow(key, value, target, t);
        VisitAllNext(OverwriteFirst, start, vs, i, t);
        if due {
          toDelete := toDelete + [key];
        }
      }
      assert vs[..|kernel|] == vs;
    }

    /** The three aging loops. */
    method AgeAll(t: nat) returns (known: seq<PodStatsKey>, pods: seq<PodStatsKey>, svcs: seq<PodStatsKey>)
      requires Valid()
      modifies podStatsMap.Values, svcStatsMap.Values, knownStatsMap.Values
      ensures Values(podStatsMap) == AgeTable(old(Values(podStatsMap)), t)
      ensures Values(svcStatsMap) == AgeTable(old(Values(svcStatsMap)), t)
      ensures Values(knownStatsMap) == AgeTable(old(Values(knownStatsMap)), t)
      ensures Elements(pods) == DueKeys(Values(podStatsMap), t)
      ensures Elements(svcs) == DueKeys(Values(svcStatsMap), t)
      ensures Elements(known) == DueKeys(Values(knownStatsMap), t)
      ensures BaseView() == old(BaseView())
    {
      hide AgeTable, DueKeys, Elements;
      known := AgeEntries(knownStatsMap, t);
      pods := AgeEntries(podStatsMap, t);
      svcs := AgeEntries(svcStatsMap, t);
    }

    /** `UpdateStats` over one snapshot of the kernel map, up to the start of the delete goroutine. */
    method UpdateStats(kernel: seq<(V4Flow, FlowStats)>, tables: seq<Tables>, t: nat)
      returns (toDelete: seq<V4Flow>, known: seq<PodStatsKey>, pods: seq<PodStatsKey>, svcs: seq<PodStatsKey>)
      requires Valid() && |tables| == |kernel|
      modifies this`baseMap, this`podStatsMap, this`svcStatsMap, this`knownStatsMap, Entries(), agent.gauges
      ensures Valid() && fresh(Entries() - old(Entries()))
      ensures ScanResult(View(), Batch(Elements(toDelete), Elements(pods), Elements(svcs), Elements(known)))
              == Scan(OverwriteFirst, old(View()), Visits(kernel, tables), t)
    {
      toDelete := VisitKernel(kernel, tables, t);
      known, pods, svcs := AgeAll(t);
    }

    method ReapFlows(kernel: KernelMaps, toDelete: seq<V4Flow>, failing: set<V4Flow>)
      requires Valid()
      modifies this`baseMap, kernel`v4
      ensures Valid()
      ensures kernel.v4 == old(kernel.v4) - (Elements(toDelete) - failing)
      ensures BaseView() == old(BaseView()) - Elements(toDelete) && AggsView() == old(AggsView())
    {
      for i := 0 to |toDelete|
        invariant baseMap == old(baseMap) - Elements(toDelete[..i])
        invariant kernel.v4 == old(kernel.v4) - (Elements(toDelete[..i]) - failing)
      {
        var err := kernel.DeleteV4(toDelete[i], toDelete[i] in failing);
        baseMap := baseMap - {toDelete[i]};
        assert toDelete[..i + 1] == toDelete[..i] + [toDelete[i]];
      }
      assert toDelete[..|toDelete|] == toDelete;
      assert forall k :: k in baseMap ==> k in old(baseMap) && baseMap[k] == old(baseMap)[k];
      assert baseMap.Values <= old(baseMap.Values);
    }

    method ReapKnown(keys: seq<PodStatsKey>)
      requires Valid()
      modifies this`knownStatsMap
      ensures Valid() && AggsView() == old(AggsView()).(known := old(AggsView()).known - Elements(keys)) && BaseView() == old(BaseView())
    {
      hide Values, Elements;
      knownStatsMap := RemoveAll(knownStatsMap, keys);
    }

    method ReapPods(keys: seq<PodStatsKey>)
      requires Valid()
      modifies this`podStatsMap
      ensures Valid() && AggsView() == old(AggsView()).(pods := old(AggsView()).pods - Elements(keys)) && BaseView() == old(BaseView())
    {
      hide Values, Elements;
      podStatsMap := RemoveAll(podStatsMap, keys);
    }

    method ReapSvcs(keys: seq<PodStatsKey>)
      requires Valid()
      modifies this`svcStatsMap
      ensures Valid() && AggsView() == old(AggsView()).(svcs := old(AggsView()).svcs - Elements(keys)) && BaseView() == old(BaseView())
    {
      hide Values, Elements;
      svcStatsMap := RemoveAll(svcStatsMap, keys);
    }

    /** The delete goroutine: a failed kernel delete is logged, the agent's entry goes all the same. */
    method Reap(kernel: KernelMaps, toDelete: seq<V4Flow>, failing: set<V4Flow>,
                known: seq<PodStatsKey>, pods: seq<PodStatsKey>, svcs: seq<PodStatsKey>)
      requires Valid()
      modifies this`baseMap, this`podStatsMap, this`svcStatsMap, this`knownStatsMap, kernel`v4
      ensures Valid()
      ensures kernel.v4 == old(kernel.v4) - (Elements(toDelete) - failing)
      ensures View() == Delete(old(View()), Batch(Elements(toDelete), Elements(pods), Elements(svcs), Elements(known)))
    {
      hide Valid, BaseView, AggsView, Elements;
      ReapFlows(kernel, toDelete, failing);
      ReapKnown(known);
      ReapPods(pods);
      ReapSvcs(svcs);
    }
  }

  method RemoveAll(m: map<PodStatsKey, FlowStatsEntry>, keys: seq<PodStatsKey>) returns (m': map<PodStatsKey, FlowStatsEntry>)
    ensures m' == m - Elements(keys) && Values(m') == Values(m) - Elements(keys)
    ensures m'.Values <= m.Values
  {
    m' := m;
    for i := 0 to |keys|
      invariant m' == m - Elements(keys[..i])
    {
      m' := m' - {keys[i]};
      assert keys[..i + 1] == keys[..i] + [keys[i]];
    }
    assert keys[..|keys|] == keys;
    assert forall k :: k in m' ==> k in m && m'[k] == m[k];
  }

  lemma VisitAllNone(order: DiffOrder, p: Progress, t: nat)
    ensures VisitAll(order, p, [], t) == p
  {}

  /** The loop's step in terms of the specification: one more visit, whatever is already queued. */
  lemma VisitAllNext(order: DiffOrder, start: Progress, vs: seq<Visit>, i: nat, t: nat)
    requires i < |vs|
    ensures var p := VisitAll(order, start, vs[..i], t);
            var r := VisitOne(order, p.(queued := {}), vs[i], t);
            VisitAll(order, start, vs[..i + 1], t) == r.(queued := p.queued + r.queued)
  {
    assert vs[..i + 1][..i] == vs[..i];
  }
}
