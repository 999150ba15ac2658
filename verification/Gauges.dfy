/**
 The published gauges: a registry from (metric, labels) to a value, and the three `Set*Gauge`
 functions that write four series of it. Values are exact; float64 rounding is not modelled.
 */
module Gauges {
  import opened Statistics
  import opened Names

  /** The three aggregate maps of the agent. */
  datatype Table = PodTable | SvcTable | KnownTable

  /** Metric family and labels; `series` is the index into the family's four metric names. */
  datatype GaugeId =
    | PodGauge(series: nat, ns: string, name: string)
    | SvcGauge(series: nat, ns: string, scope: string, name: string)
    | PodSvcGauge(series: nat, podNs: string, podName: string, svcNs: string, svcScope: string, svcName: string)

  const SERIES: nat := 4

  type Registry = map<GaugeId, uint64>

  /** The metric-name guard in front of each `Set*Gauge` loop. */
  predicate Publishes(table: Table, prom: PromMetricsKey) {
    match table
    case PodTable => prom.metricName == PodStats
    case SvcTable => prom.metricName == SvcStats
    case KnownTable => prom.metricName == PodSvcStats || prom.metricName == SvcPodStats
  }

  predicate WellSized(prom: PromMetricsKey) {
    && |prom.podNamespace| == |prom.podName| == 2
    && |prom.svcNamespace| == |prom.svcName| == |prom.svcScope| == 2
  }

  function IdFor(table: Table, prom: PromMetricsKey, i: nat): (id: GaugeId)
    requires WellSized(prom)
    ensures id.series == i
  {
    match table
    case PodTable => PodGauge(i, prom.podNamespace[0], prom.podName[0])
    case SvcTable => SvcGauge(i, prom.svcNamespace[0], prom.svcScope[0], prom.svcName[0])
    case KnownTable => PodSvcGauge(i, prom.podNamespace[0], prom.podName[0],
                                   prom.svcNamespace[0], prom.svcScope[0], prom.svcName[0])
  }

  /** The four counters in the order they are shown; pod-service gauges always show the pod side first. */
  function Shown(table: Table, prom: PromMetricsKey, stats: FlowStats): (values: seq<uint64>)
    ensures |values| == SERIES
  {
    if table == KnownTable && prom.metricName == SvcPodStats
    then [stats.incoming.bytes, stats.incoming.packets, stats.outgoing.bytes, stats.outgoing.packets]
    else [stats.outgoing.bytes, stats.outgoing.packets, stats.incoming.bytes, stats.incoming.packets]
  }

  function WriteSeries(g: Registry, table: Table, prom: PromMetricsKey, values: seq<uint64>, n: nat): Registry
    requires WellSized(prom) && n <= |values|
  {
    if n == 0 then g
    else WriteSeries(g, table, prom, values, n - 1)[IdFor(table, prom, n - 1) := values[n - 1]]
  }

  /** The registry after one call of the `Set*Gauge` function that belongs to `table`. */
  function SetGauge(g: Registry, table: Table, prom: PromMetricsKey, stats: FlowStats): Registry
    requires WellSized(prom)
  {
    if Publishes(table, prom) then WriteSeries(g, table, prom, Shown(table, prom, stats), SERIES) else g
  }

  class GaugeRegistry {
    var values: Registry

    constructor ()
      ensures values == map[]
    {
      values := map[];
    }

    /** `SetPodGauge`: the four values are staged in a local array, then published one by one. */
    method SetPodGauge(key: PromMetricsKey, stats: FlowStats)
      requires WellSized(key)
      modifies this
      ensures values == SetGauge(old(values), PodTable, key, stats)
    {
      var value := new uint64[4];
      value[0], value[1], value[2], value[3] := stats.outgoing.bytes, stats.outgoing.packets, stats.incoming.bytes, stats.incoming.packets;
      if key.metricName != PodStats {
        return;
      }
      for i := 0 to SERIES
        invariant value[..] == Shown(PodTable, key, stats)
        invariant values == WriteSeries(old(values), PodTable, key, Shown(PodTable, key, stats), i)
      {
        values := values[PodGauge(i, key.podNamespace[0], key.podName[0]) := value[i]];
      }
    }

    method SetSvcGauge(key: PromMetricsKey, stats: FlowStats)
      requires WellSized(key)
      modifies this
      ensures values == SetGauge(old(values), SvcTable, key, stats)
    {
      var value := new uint64[4];
      value[0], value[1], value[2], value[3] := stats.outgoing.bytes, stats.outgoing.packets, stats.incoming.bytes, stats.incoming.packets;
      if key.metricName != SvcStats {
        return;
      }
      for i := 0 to SERIES
        invariant value[..] == Shown(SvcTable, key, stats)
        invariant values == WriteSeries(old(values), SvcTable, key, Shown(SvcTable, key, stats), i)
      {
        values := values[SvcGauge(i, key.svcNamespace[0], key.svcScope[0], key.svcName[0]) := value[i]];
      }
    }

    method SetPodSvcGauge(key: PromMetricsKey, stats: FlowStats)
      requires WellSized(key)
      modifies this
      ensures values == SetGauge(old(values), KnownTable, key, stats)
    {
      var value := new uint64[4];
      value[0], value[1], value[2], value[3] := stats.outgoing.bytes, stats.outgoing.packets, stats.incoming.bytes, stats.incoming.packets;
      if key.metricName == SvcPodStats {
        value[0], value[2] := value[2], value[0];
        value[1], value[3] := value[3], value[1];
      } else if key.metricName != PodSvcStats {
        return;
      }
      for i := 0 to SERIES
        invariant value[..] == Shown(KnownTable, key, stats)
        invariant values == WriteSeries(old(values), KnownTable, key, Shown(KnownTable, key, stats), i)
      {
        values := values[PodSvcGauge(i, key.podNamespace[0], key.podName[0],
                                     key.svcNamespace[0], key.svcScope[0], key.svcName[0]) := value[i]];
      }
    }
  }

  // ---------------------------------------------------------------- what one publication changes

  predicate Writes(table: Table, prom: PromMetricsKey, id: GaugeId)
    requires WellSized(prom)
  {
    Publishes(table, prom) && id.series < SERIES && id == IdFor(table, prom, id.series)
  }

  /** Two registries that answer alike for one gauge. */
  predicate SameAt(g: Registry, h: Registry, id: GaugeId) {
    (id in g <==> id in h) && (id in g ==> g[id] == h[id])
  }

  lemma SetGaugeEffect(g: Registry, table: Table, prom: PromMetricsKey, stats: FlowStats, id: GaugeId)
    requires WellSized(prom)
    ensures var r := SetGauge(g, table, prom, stats);
            if Writes(table, prom, id)
            then id in r && r[id] == Shown(table, prom, stats)[id.series]
            else SameAt(r, g, id)
  {
    if Publishes(table, prom) {
      WriteSeriesEffect(g, table, prom, Shown(table, prom, stats), SERIES, id);
    }
  }

  lemma {:induction false} WriteSeriesEffect(g: Registry, table: Table, prom: PromMetricsKey, values: seq<uint64>, n: nat, id: GaugeId)
    requires WellSized(prom) && n <= |values|
    ensures var r := WriteSeries(g, table, prom, values, n);
            if id.series < n && id == IdFor(table, prom, id.series)
            then id in r && r[id] == values[id.series]
            else SameAt(r, g, id)
  {
    if n > 0 {
      WriteSeriesEffect(g, table, prom, values, n - 1, id);
    }
  }

  /**
   A pod or service gauge has one owner: among keys with an empty second endpoint, the labels and
   the family determine the key.
   */
  lemma LabelsDetermineKey(table: Table, key: PodStatsKey, table': Table, key': PodStatsKey, id: GaugeId)
    requires table != KnownTable && table' != KnownTable
    requires key.ep1 == "" && key'.ep1 == ""
    requires Writes(table, PromKey(key), id) && Writes(table', PromKey(key'), id)
    ensures table == table' && key == key'
  {
    OwnerText(table, key);
    OwnerText(table', key');
  }

  lemma OwnerText(table: Table, key: PodStatsKey)
    requires table != KnownTable && key.ep1 == "" && Publishes(table, PromKey(key))
    ensures var prom := PromKey(key);
            key.ep0 == if table == PodTable then prom.podNamespace[0] + "/" + prom.podName[0]
                       else prom.svcNamespace[0] + "/" + prom.svcName[0] + "/" + prom.svcScope[0]
  {
    SplitPlain("");
    PartsSlashFree(key.ep0);
  }

  /** Pod-service gauges do not tell `(pod, svc)` from `(svc, pod)`: both keys write the same four gauges. */
  lemma MirroredKeysShareGauges(key: PodStatsKey, id: GaugeId, stats: FlowStats)
    ensures Writes(KnownTable, PromKey(key), id) <==> Writes(KnownTable, PromKey(key.Swap()), id)
    ensures Publishes(KnownTable, PromKey(key)) ==>
              Shown(KnownTable, PromKey(key), stats) == Shown(KnownTable, PromKey(key.Swap()), stats.Swap())
  {
    hide SplitN3, Column;
    if Publishes(KnownTable, PromKey(key)) || Publishes(KnownTable, PromKey(key.Swap())) {
      PairColumns(key);
    }
  }

  /** Of a pod and a service, in either order, the columns list the one pod and the one service. */
  lemma PairColumns(key: PodStatsKey)
    requires Publishes(KnownTable, PromKey(key)) || Publishes(KnownTable, PromKey(key.Swap()))
    ensures Publishes(KnownTable, PromKey(key)) && Publishes(KnownTable, PromKey(key.Swap()))
    ensures var p, q := PromKey(key), PromKey(key.Swap());
            && p.podNamespace == q.podNamespace && p.podName == q.podName && p.svcNamespace == q.svcNamespace
            && p.svcScope == q.svcScope && p.svcName == q.svcName && p.metricName != q.metricName
  {
    hide SplitN3;
    assert |SplitN3(key.ep0)| == 2 || |SplitN3(key.ep0)| == 3;
  }

  /** And a pod-service gauge has no writer besides those two keys. */
  lemma PodSvcGaugeOwners(key: PodStatsKey, key': PodStatsKey, id: GaugeId)
    requires Writes(KnownTable, PromKey(key), id) && Writes(KnownTable, PromKey(key'), id)
    ensures key' == key || key' == key.Swap()
  {
    JoinedEndpoints(key);
    JoinedEndpoints(key');
  }

  lemma JoinedEndpoints(key: PodStatsKey)
    requires Publishes(KnownTable, PromKey(key))
    ensures var prom := PromKey(key);
            var pod := prom.podNamespace[0] + "/" + prom.podName[0];
            var svc := prom.svcNamespace[0] + "/" + prom.svcName[0] + "/" + prom.svcScope[0];
            key == (if prom.metricName == PodSvcStats then PodStatsKey(pod, svc) else PodStatsKey(svc, pod))
  {
    PartsSlashFree(key.ep0);
    PartsSlashFree(key.ep1);
  }
}
