/**
 The heap program inside the state machine: an `UpdateStats` call over a listing of the kernel map
 is a scan step of `Pipeline`, so that what is proved of runs holds of the program.
 */
module HeapRuns {
  import opened Statistics
  import opened Flows
  import opened Names
  import opened Gauges
  import opened KernelMap
  import opened Agent
  import opened AgentHeap
  import opened Informers
  import opened Pipeline
  import opened Liveness
  import opened HookTotals

  /** The iterator yields every key of the map once, with its value. */
  ghost predicate Lists(kernel: seq<(V4Flow, FlowStats)>, m: FlowMap<uint32>) {
    && (forall i, j :: 0 <= i < j < |kernel| ==> kernel[i].0 != kernel[j].0)
    && (forall f :: f in m ==> exists i :: 0 <= i < |kernel| && kernel[i].0 == f)
    && (forall i :: 0 <= i < |kernel| ==> kernel[i].0 in m && kernel[i].1 == m[kernel[i].0])
  }

  /** The visits of one call read the whole map, in whatever order it is listed and however the tables change. */
  lemma ListingCovers(kernel: seq<(V4Flow, FlowStats)>, tables: seq<Tables>, m: FlowMap<uint32>)
    requires |tables| == |kernel| && Lists(kernel, m)
    ensures Covers(Visits(kernel, tables), m)
  {
    hide GetPodStatsKey, IpText;
    var vs := Visits(kernel, tables);
    forall f ensures f in m <==> Visited(vs, f) {
      if f in m {
        var i :| 0 <= i < |kernel| && kernel[i].0 == f;
        assert vs[i].flow == f;
      }
      if Visited(vs, f) {
        var i :| 0 <= i < |vs| && vs[i].flow == f;
        assert kernel[i].0 in m;
      }
    }
  }

  /** While the tables stay put, each flow is resolved by its source and its destination address, in that order. */
  lemma FixedTablesResolve(kernel: seq<(V4Flow, FlowStats)>, tables: seq<Tables>, t: Tables)
    requires |tables| == |kernel| && forall i :: 0 <= i < |tables| ==> tables[i] == t
    ensures Resolved(Visits(kernel, tables), ResolutionBy(t))
  {
    hide GetPodStatsKey, IpText;
  }

  /** So the state `UpdateStats` reaches, and the lists it leaves, are those of a legal scan step. */
  lemma UpdateIsScanStep(run: Run, kernel: seq<(V4Flow, FlowStats)>, tables: seq<Tables>)
    requires Legal(OverwriteFirst, run) && |tables| == |kernel| && Lists(kernel, At(OverwriteFirst, run).kernel)
    ensures var s := At(OverwriteFirst, run);
            var r := Scan(OverwriteFirst, s.agent, Visits(kernel, tables), s.scans + 1);
            var next := Then(run, ScanStep(Visits(kernel, tables)));
            && Legal(OverwriteFirst, next)
            && At(OverwriteFirst, next) == System(s.kernel, r.agent, s.pending + [r.batch], s.scans + 1)
  {
    hide Scan, Visits, Covers;
    ListingCovers(kernel, tables, At(OverwriteFirst, run).kernel);
  }

  // ---------------------------------------------------------------- one flow, on the heap

  /** The scan of one new flow between a pod and an outside address. */
  lemma OneFlowScan(f: V4Flow, x: FlowStats, t: Tables, name: string, sends: bool, now: nat)
    requires OnlyPod(t, f, name, sends)
    ensures var a := Scan(OverwriteFirst, NEW_AGENT, Visits([(f, x)], [t]), now).agent;
            && a.base == map[f := Entry(x, 0, now)]
            && a.aggs.pods == map[PodStatsKey(name, "") := Entry(if sends then x else FlowStats(x.incoming, x.outgoing), 0, now)]
            && a.aggs.svcs == map[] && a.aggs.known == map[]
  {
    hide IpText, SetGauge, PromKey, AddStats;
    var vs := Visits([(f, x)], [t]);
    var v := vs[0];
    assert vs == [v] && vs[..0] == [];
    var p := Progress(map[], NEW_AGENT.aggs, {});
    assert VisitAll(OverwriteFirst, p, vs[..0], now) == p;
    assert VisitAll(OverwriteFirst, p, vs, now) == VisitOne(OverwriteFirst, p, v, now);
    AddToZero(x);
    AddToZero(x.Swap());
    assert RouteOf(v.target)
           == (if sends then Route(Some(Slot(PodTable, PodStatsKey(name, ""))), None, None)
               else Route(None, Some(Slot(PodTable, PodStatsKey(name, ""))), None));
  }

  lemma AddToZero(x: FlowStats)
    ensures AddStats(ZERO, x) == x
  {}

  /** Of the two addresses of `f` only one is known: its source (or else its destination) is the pod `name`. */
  predicate OnlyPod(t: Tables, f: V4Flow, name: string, sends: bool) {
    var own := if sends then IpText(f.src) else IpText(f.dst);
    var other := if sends then IpText(f.dst) else IpText(f.src);
    && name != "" && own in t.podIpToName && t.podIpToName[own] == name && own !in t.svcIpToName
    && other !in t.podIpToName && other !in t.svcIpToName
  }

  /**
   A new agent's first update over a single flow: the pod it comes from holds exactly the kernel's
   counters, the pod it goes to holds them with sent and received exchanged.
   */
  method FirstUpdate(agent: StatsAgent, f: V4Flow, x: FlowStats, t: Tables, name: string, sends: bool, now: nat)
    returns (metric: InetV4FlowMetricsEntry)
    requires agent.gauges.values == map[] && OnlyPod(t, f, name, sends)
    modifies agent.gauges
    ensures metric.podStatsMap.Keys == {PodStatsKey(name, "")}
    ensures metric.podStatsMap[PodStatsKey(name, "")].stats == if sends then x else FlowStats(x.incoming, x.outgoing)
    ensures metric.svcStatsMap == map[] && metric.knownStatsMap == map[]
    ensures metric.baseMap.Keys == {f} && metric.baseMap[f].stats == x
  {
    hide Scan, Visits, OnlyPod;
    OneFlowScan(f, x, t, name, sends, now);
    metric := new InetV4FlowMetricsEntry(agent);
    var toDelete, known, pods, svcs := metric.UpdateStats([(f, x)], [t], now);
    assert metric.View().base.Keys == metric.baseMap.Keys;
    assert metric.View().aggs.pods.Keys == metric.podStatsMap.Keys;
    assert metric.View().aggs.svcs.Keys == metric.svcStatsMap.Keys;
    assert metric.View().aggs.known.Keys == metric.knownStatsMap.Keys;
    assert metric.View().base[f] == metric.baseMap[f].Value();
    assert metric.View().aggs.pods[PodStatsKey(name, "")] == metric.podStatsMap[PodStatsKey(name, "")].Value();
  }
}
