/**
 Do the published gauges agree with the aggregates? For pods and services, always: each gauge has
 one owner and shows what that owner held when it was last alive. For pod-service pairs the two
 keys `(pod, svc)` and `(svc, pod)` share their gauges, and the last one credited wins.
 */
module GaugeAgreement {
  import opened Statistics
  import opened Flows
  import opened Names
  import opened Gauges
  import opened KernelMap
  import opened Agent
  import opened Pipeline

  /** Keys of the pod and service maps have had their second endpoint cleared. */
  predicate SingleOwner(slot: Slot) {
    slot.table != KnownTable && slot.key.ep1 == ""
  }

  predicate Owns(slot: Slot, id: GaugeId) {
    Writes(slot.table, PromKey(slot.key), id)
  }

  function ShownFor(slot: Slot, stats: FlowStats): (values: seq<uint64>)
    ensures |values| == SERIES
  {
    Shown(slot.table, PromKey(slot.key), stats)
  }

  /** The gauges of `slot` show `last`; with no value they have never been set. */
  ghost predicate Shows(gauges: Registry, slot: Slot, last: Option<FlowStats>) {
    forall id :: Owns(slot, id) ==>
                   && (id in gauges <==> last.Some?)
                   && (last.Some? ==> gauges[id] == ShownFor(slot, last.value)[id.series])
  }

  /** What `slot` held when it was last alive, `before` being the answer for earlier states. */
  function LastHeld(g: Aggs, slot: Slot, before: Option<FlowStats>): Option<FlowStats> {
    if Live(g, slot) then Some(StatsOf(g, slot)) else before
  }

  /** What `slot` held in the last state of the run in which it was alive. */
  ghost function LastStats(order: DiffOrder, run: Run, slot: Slot): Option<FlowStats> {
    match run
    case Boot => None
    case Then(before, _) => LastHeld(At(order, run).agent.aggs, slot, LastStats(order, before, slot))
  }

  // ---------------------------------------------------------------- one credit

  lemma CreditGauge(g: Aggs, s: Slot, x: FlowStats, t: nat, id: GaugeId)
    ensures var g' := Credit(g, s, x, t);
            if Owns(s, id)
            then id in g'.gauges && g'.gauges[id] == ShownFor(s, StatsOf(g', s))[id.series]
            else SameAt(g'.gauges, g.gauges, id)
  {
    hide PromKey, SetGauge, AddStats, Shown;
    SetGaugeEffect(g.gauges, s.table, PromKey(s.key), AddStats(StatsOf(g, s), x), id);
    CreditEffect(g, s, x, t, s);
  }

  lemma CreditIfShows(g: Aggs, s: Option<Slot>, x: FlowStats, t: nat, slot: Slot, before: Option<FlowStats>)
    requires SingleOwner(slot) && (s.Some? && s.value.table != KnownTable ==> SingleOwner(s.value))
    requires Shows(g.gauges, slot, LastHeld(g, slot, before))
    ensures Shows(CreditIf(g, s, x, t).gauges, slot, LastHeld(CreditIf(g, s, x, t), slot, before))
  {
    hide PromKey, Credit, ShownFor;
    if s.Some? {
      var g' := CreditIf(g, s, x, t);
      CreditEffect(g, s.value, x, t, slot);
      forall id | Owns(slot, id)
        ensures var last := LastHeld(g', slot, before);
                (id in g'.gauges <==> last.Some?) && (last.Some? ==> g'.gauges[id] == ShownFor(slot, last.value)[id.series])
      {
        CreditGauge(g, s.value, x, t, id);
        if Owns(s.value, id) && s.value != slot && s.value.table != KnownTable {
          LabelsDetermineKey(slot.table, slot.key, s.value.table, s.value.key, id);
        }
      }
    }
  }

  lemma RoutesAreCleared(target: Target)
    ensures var r := RouteOf(target);
            && (r.src.Some? ==> SingleOwner(r.src.value))
            && (r.dst.Some? ==> SingleOwner(r.dst.value))
            && (r.pair.Some? ==> r.pair == Some(Slot(KnownTable, target.key)))
  {}

  lemma MergeShows(g: Aggs, target: Target, x: FlowStats, t: nat, slot: Slot, before: Option<FlowStats>)
    requires SingleOwner(slot)
    requires Shows(g.gauges, slot, LastHeld(g, slot, before))
    ensures var g' := Merge(g, RouteOf(target), x, t);
            Shows(g'.gauges, slot, LastHeld(g', slot, before))
  {
    hide CreditIf, RouteOf, Shows, LastHeld, SingleOwner;
    RoutesAreCleared(target);
    var route := RouteOf(target);
    var g1 := CreditIf(g, route.src, x, t);
    var g2 := CreditIf(g1, route.dst, x.Swap(), t);
    CreditIfShows(g, route.src, x, t, slot, before);
    CreditIfShows(g1, route.dst, x.Swap(), t, slot, before);
    CreditIfShows(g2, route.pair, x.Swap(), t, slot, before);
  }

  lemma {:induction false} VisitsShow(order: DiffOrder, p: Progress, vs: seq<Visit>, t: nat, slot: Slot, before: Option<FlowStats>)
    requires SingleOwner(slot)
    requires Shows(p.aggs.gauges, slot, LastHeld(p.aggs, slot, before))
    ensures var p' := VisitAll(order, p, vs, t);
            Shows(p'.aggs.gauges, slot, LastHeld(p'.aggs, slot, before))
  {
    hide Shows, LastHeld, Merge, RouteOf, SingleOwner;
    if vs != [] {
      var v := vs[|vs| - 1];
      var q := VisitAll(order, p, vs[..|vs| - 1], t);
      VisitsShow(order, p, vs[..|vs| - 1], t, slot, before);
      MergeShows(q.aggs, v.target, Delta(order, q.base, v), t, slot, before);
    }
  }

  // ---------------------------------------------------------------- pods and services, over every run

  /** Ageing and deleting leave every value that stays alive as it is, and all gauges. */
  lemma ScanHolds(order: DiffOrder, a: AgentState, vs: seq<Visit>, t: nat, slot: Slot, before: Option<FlowStats>)
    ensures var p := VisitAll(order, Progress(a.base, a.aggs, {}), vs, t);
            var r := Scan(order, a, vs, t);
            && r.agent.aggs.gauges == p.aggs.gauges
            && LastHeld(r.agent.aggs, slot, before) == LastHeld(p.aggs, slot, before)
  {
    hide VisitAll;
  }

  lemma ShowsAfterStep(order: DiffOrder, s: System, step: Step, slot: Slot, before: Option<FlowStats>)
    requires SingleOwner(slot)
    requires Live(s.agent.aggs, slot) ==> before == Some(StatsOf(s.agent.aggs, slot))
    requires Shows(s.agent.aggs.gauges, slot, before)
    ensures var s' := Apply(order, s, step);
            Shows(s'.agent.aggs.gauges, slot, LastHeld(s'.agent.aggs, slot, before))
  {
    hide Shows, Scan, Delete, SingleOwner, Record;
    match step
    case Packet(_, _, _) =>
    case ScanStep(visits) =>
      VisitsShow(order, Progress(s.agent.base, s.agent.aggs, {}), visits, s.scans + 1, slot, before);
      ScanHolds(order, s.agent, visits, s.scans + 1, slot, before);
    case DeleteStep(which, _) =>
      if which < |s.pending| {
        DeleteHolds(s.agent, s.pending[which], slot);
      }
  }

  lemma DeleteHolds(a: AgentState, b: Batch, slot: Slot)
    ensures var a' := Delete(a, b);
            && a'.aggs.gauges == a.aggs.gauges
            && (Live(a'.aggs, slot) ==> Live(a.aggs, slot) && StatsOf(a'.aggs, slot) == StatsOf(a.aggs, slot))
  {}

  /** Every gauge of a pod or service shows what it held when last alive, and was never set if it never lived. */
  lemma {:induction false} GaugesShowLastStats(order: DiffOrder, run: Run, slot: Slot)
    requires SingleOwner(slot)
    ensures Shows(At(order, run).agent.aggs.gauges, slot, LastStats(order, run, slot))
    ensures Live(At(order, run).agent.aggs, slot) ==> LastStats(order, run, slot) == Some(StatsOf(At(order, run).agent.aggs, slot))
  {
    hide Apply, SingleOwner;
    if run.Then? {
      GaugesShowLastStats(order, run.before, slot);
      ShowsAfterStep(order, At(order, run.before), run.step, slot, LastStats(order, run.before, slot));
    }
  }

  // ---------------------------------------------------------------- every live key is published

  /** A target that some merge case handles prints a key that parses back to its kind. */
  predicate ReadsBack(target: Target) {
    Handled(target.kind) ==> ParsedKind(target.key) == target.kind
  }

  /** So does every target a scan of the run resolved. */
  ghost predicate Readable(run: Run) {
    match run
    case Boot => true
    case Then(before, step) =>
      && Readable(before)
      && (step.ScanStep? ==> forall i :: 0 <= i < |step.visits| ==> ReadsBack(step.visits[i].target))
  }

  /** After `swap` and `clear`, every gauge call of a merge passes its metric-name guard. */
  lemma GuardsPass(target: Target, slot: Slot)
    requires ReadsBack(target) && Feeds(RouteOf(target), slot)
    ensures Publishes(slot.table, PromKey(slot.key))
    ensures slot.table == KnownTable || SingleOwner(slot)
  {
    hide SplitN3, Column, ParsedKind;
    var key := target.key;
    KindAfterClear(key);
    KindAfterClear(key.Swap());
    KindAfterSwap(key);
  }

  lemma KindAfterSwap(key: PodStatsKey)
    ensures ParsedKind(key.Swap()) == ParsedKind(key).Mirror()
  {
    hide SplitN3;
  }

  /** A cleared endpoint reads as neither pod nor service. */
  lemma KindAfterClear(key: PodStatsKey)
    ensures ParsedKind(key.Clear1()) == ParsedKind(key).(toPod := false, toSvc := false)
  {
    SplitPlain("");
  }

  /** The same from the tables: names are `ns/name` and addresses carry no slash. */
  lemma ResolvedTargetsPublish(t: Tables, src: string, dst: string, slot: Slot)
    requires WellNamed(t) && '/' !in src && '/' !in dst
    requires Feeds(RouteOf(GetPodStatsKey(t, src, dst)), slot)
    ensures Publishes(slot.table, PromKey(slot.key))
  {
    hide RouteOf, PromKey, Feeds, Publishes;
    TablesReadBack(t, src, dst);
    GuardsPass(GetPodStatsKey(t, src, dst), slot);
  }

  /** An address that is both a pod and a service gives a kind no merge case handles. */
  lemma TablesReadBack(t: Tables, src: string, dst: string)
    requires WellNamed(t) && '/' !in src && '/' !in dst
    ensures ReadsBack(GetPodStatsKey(t, src, dst))
  {
    hide EndpointText, Resolve, ParsedKind;
    KeyRoundTrip(t, src, dst);
  }

  /** Each visit was resolved by tables that hold only namespace/name texts. */
  ghost predicate ResolvedByTables(v: Visit) {
    exists t :: WellNamed(t) && v.target == GetPodStatsKey(t, IpText(v.flow.src), IpText(v.flow.dst))
  }

  ghost predicate TableRun(run: Run) {
    match run
    case Boot => true
    case Then(before, step) =>
      && TableRun(before)
      && (step.ScanStep? ==> forall i :: 0 <= i < |step.visits| ==> ResolvedByTables(step.visits[i]))
  }

  /** Tables may change at any moment: as long as they hold such texts, every run is readable. */
  lemma {:induction false} TableRunsAreReadable(run: Run)
    requires TableRun(run)
    ensures Readable(run)
  {
    hide ReadsBack, ResolvedByTables;
    if run.Then? {
      TableRunsAreReadable(run.before);
      if run.step.ScanStep? {
        forall i | 0 <= i < |run.step.visits| ensures ReadsBack(run.step.visits[i].target) {
          VisitReadsBack(run.step.visits[i]);
        }
      }
    }
  }

  lemma VisitReadsBack(v: Visit)
    requires ResolvedByTables(v)
    ensures ReadsBack(v.target)
  {
    hide IpText, ReadsBack, GetPodStatsKey;
    var t :| WellNamed(t) && v.target == GetPodStatsKey(t, IpText(v.flow.src), IpText(v.flow.dst));
    TablesReadBack(t, IpText(v.flow.src), IpText(v.flow.dst));
  }

  ghost predicate Publishable(g: Aggs, slot: Slot) {
    Live(g, slot) ==> Publishes(slot.table, PromKey(slot.key)) && (slot.table == KnownTable || SingleOwner(slot))
  }

  lemma PublishableAfterMerge(g: Aggs, target: Target, x: FlowStats, t: nat, slot: Slot)
    requires ReadsBack(target) && Publishable(g, slot)
    ensures Publishable(Merge(g, RouteOf(target), x, t), slot)
  {
    hide PromKey, Publishes, RouteOf, Merge, ReadsBack;
    MergeAccrues(g, RouteOf(target), x, t, slot, OutBytes);
    if Feeds(RouteOf(target), slot) {
      GuardsPass(target, slot);
    }
  }

  lemma {:induction false} PublishableAfterVisits(order: DiffOrder, p: Progress, vs: seq<Visit>, t: nat, slot: Slot)
    requires forall i :: 0 <= i < |vs| ==> ReadsBack(vs[i].target)
    requires Publishable(p.aggs, slot)
    ensures Publishable(VisitAll(order, p, vs, t).aggs, slot)
  {
    hide Publishable, Merge, RouteOf, ReadsBack;
    if vs != [] {
      var v := vs[|vs| - 1];
      var q := VisitAll(order, p, vs[..|vs| - 1], t);
      PublishableAfterVisits(order, p, vs[..|vs| - 1], t, slot);
      PublishableAfterMerge(q.aggs, v.target, Delta(order, q.base, v), t, slot);
    }
  }

  lemma {:induction false} LiveKeysPublish(order: DiffOrder, run: Run, slot: Slot)
    requires Readable(run)
    ensures Publishable(At(order, run).agent.aggs, slot)
  {
    hide Publishes, PromKey, VisitAll, ReadsBack, Record;
    if run.Then? {
      var s := At(order, run.before);
      LiveKeysPublish(order, run.before, slot);
      match run.step
      case Packet(_, _, _) =>
      case ScanStep(visits) =>
        PublishableAfterVisits(order, Progress(s.agent.base, s.agent.aggs, {}), visits, s.scans + 1, slot);
        ScanHolds(order, s.agent, visits, s.scans + 1, slot, None);
      case DeleteStep(which, _) =>
        if which < |s.pending| {
          DeleteHolds(s.agent, s.pending[which], slot);
        }
    }
  }

  /** Gauge agreement: for each live pod or service, the four gauges at its labels are its four counters. */
  lemma LiveGaugesAgree(order: DiffOrder, run: Run, slot: Slot, i: nat)
    requires Readable(run) && slot.table != KnownTable && i < SERIES
    requires Live(At(order, run).agent.aggs, slot)
    ensures var g := At(order, run).agent.aggs;
            var id := IdFor(slot.table, PromKey(slot.key), i);
            var stats := StatsOf(g, slot);
            && id in g.gauges
            && g.gauges[id] == stats.Get([OutBytes, OutPackets, InBytes, InPackets][i])
  {
    hide PromKey;
    LiveKeysPublish(order, run, slot);
    GaugesShowLastStats(order, run, slot);
    assert Owns(slot, IdFor(slot.table, PromKey(slot.key), i));
  }

  // ---------------------------------------------------------------- by label

  /** A live pod `ns/name` has its four counters at the labels `ns` and `name`. */
  lemma PodGaugesAgree(order: DiffOrder, run: Run, ns: string, name: string, i: nat)
    requires Readable(run) && i < 4 && '/' !in ns && '/' !in name
    requires Live(At(order, run).agent.aggs, Slot(PodTable, PodStatsKey(ns + "/" + name, "")))
    ensures var g := At(order, run).agent.aggs;
            var stats := StatsOf(g, Slot(PodTable, PodStatsKey(ns + "/" + name, "")));
            && PodGauge(i, ns, name) in g.gauges
            && g.gauges[PodGauge(i, ns, name)] == stats.Get([OutBytes, OutPackets, InBytes, InPackets][i])
  {
    hide At, SplitN3, Readable, Live, Get;
    SplitPod(ns, name);
    SplitPlain("");
    LiveGaugesAgree(order, run, Slot(PodTable, PodStatsKey(ns + "/" + name, "")), i);
  }

  /** A live service `ns/name/scope` has its four counters at the labels `ns`, `scope` and `name`. */
  lemma SvcGaugesAgree(order: DiffOrder, run: Run, ns: string, scope: string, name: string, i: nat)
    requires Readable(run) && i < 4 && '/' !in ns && '/' !in name
    requires Live(At(order, run).agent.aggs, Slot(SvcTable, PodStatsKey(ns + "/" + name + "/" + scope, "")))
    ensures var g := At(order, run).agent.aggs;
            var stats := StatsOf(g, Slot(SvcTable, PodStatsKey(ns + "/" + name + "/" + scope, "")));
            && SvcGauge(i, ns, scope, name) in g.gauges
            && g.gauges[SvcGauge(i, ns, scope, name)] == stats.Get([OutBytes, OutPackets, InBytes, InPackets][i])
  {
    hide At, SplitN3, Readable, Live, Get;
    SplitSvc(ns, name, scope);
    SplitPlain("");
    LiveGaugesAgree(order, run, Slot(SvcTable, PodStatsKey(ns + "/" + name + "/" + scope, "")), i);
  }

  // ---------------------------------------------------------------- pod-service pairs

  function Pair(key: PodStatsKey): Slot {
    Slot(KnownTable, key)
  }

  /** Which of the two keys that write the gauges of a pair was credited last. */
  datatype Writer = Nobody | Itself | ItsMirror

  function WriterAfter(credited: Option<Slot>, key: PodStatsKey, before: Writer): Writer {
    if credited == Some(Pair(key)) then Itself
    else if credited == Some(Pair(key.Swap())) then ItsMirror
    else before
  }

  /** After a scan: the last visit that was not idle and resolved to one of the two keys. */
  function WriterAfterScan(base: map<V4Flow, Entry>, vs: seq<Visit>, key: PodStatsKey, before: Writer): Writer {
    if vs == [] then before
    else
      var v := vs[|vs| - 1];
      var writer := WriterAfterScan(base, vs[..|vs| - 1], key, before);
      if Idle(base, v) then writer else WriterAfter(RouteOf(v.target).pair, key, writer)
  }

  function LastWriter(order: DiffOrder, run: Run, key: PodStatsKey): Writer {
    match run
    case Boot => Nobody
    case Then(before, step) =>
      if step.ScanStep? then WriterAfterScan(At(order, before).agent.base, step.visits, key, LastWriter(order, before, key))
      else LastWriter(order, before, key)
  }

  /** The shared gauges show what the last writer held when last alive. */
  ghost predicate ShowsWriter(gauges: Registry, key: PodStatsKey, writer: Writer, held: Option<FlowStats>, mirrored: Option<FlowStats>) {
    match writer
    case Nobody => held.None? && mirrored.None? && Shows(gauges, Pair(key), None)
    case Itself => held.Some? && Shows(gauges, Pair(key), held)
    case ItsMirror => mirrored.Some? && Shows(gauges, Pair(key.Swap()), mirrored)
  }

  /** Crediting a pair makes its gauges right, and makes those of its mirror right iff the mirror holds the swapped counters. */
  lemma PairCredit(g: Aggs, key: PodStatsKey, x: FlowStats, t: nat, mirrored: FlowStats)
    requires Publishes(KnownTable, PromKey(key))
    ensures var g' := Credit(g, Pair(key), x, t);
            && Shows(g'.gauges, Pair(key), Some(StatsOf(g', Pair(key))))
            && (Shows(g'.gauges, Pair(key.Swap()), Some(mirrored)) <==> mirrored == StatsOf(g', Pair(key)).Swap())
  {
    hide PromKey, Credit, AddStats, SetGauge;
    var g' := Credit(g, Pair(key), x, t);
    var stats := StatsOf(g', Pair(key));
    forall id | Owns(Pair(key), id) || Owns(Pair(key.Swap()), id)
      ensures Owns(Pair(key), id) && Owns(Pair(key.Swap()), id)
      ensures id in g'.gauges && g'.gauges[id] == ShownFor(Pair(key), stats)[id.series]
      ensures g'.gauges[id] == ShownFor(Pair(key.Swap()), stats.Swap())[id.series]
    {
      MirroredKeysShareGauges(key, id, stats);
      CreditGauge(g, Pair(key), x, t, id);
    }
    if Shows(g'.gauges, Pair(key.Swap()), Some(mirrored)) {
      PairShownDetermines(g'.gauges, key, mirrored, stats.Swap());
    }
  }

  lemma PairShownDetermines(gauges: Registry, key: PodStatsKey, a: FlowStats, b: FlowStats)
    requires Publishes(KnownTable, PromKey(key))
    requires Shows(gauges, Pair(key.Swap()), Some(a)) && Shows(gauges, Pair(key.Swap()), Some(b))
    ensures a == b
  {
    hide PromKey;
    var slot := Pair(key.Swap());
    forall i: nat | i < SERIES ensures ShownFor(slot, a)[i] == ShownFor(slot, b)[i] {
      var id := IdFor(KnownTable, PromKey(key), i);
      MirroredKeysShareGauges(key, id, a);
      assert Owns(slot, id);
    }
    assert ShownFor(slot, a)[0] == ShownFor(slot, b)[0] && ShownFor(slot, a)[1] == ShownFor(slot, b)[1];
    assert ShownFor(slot, a)[2] == ShownFor(slot, b)[2] && ShownFor(slot, a)[3] == ShownFor(slot, b)[3];
  }

  /** A credit to any other slot leaves the gauges of the pair alone. */
  lemma OtherCreditsSpare(g: Aggs, s: Slot, x: FlowStats, t: nat, key: PodStatsKey, last: Option<FlowStats>)
    requires s != Pair(key) && s != Pair(key.Swap())
    ensures Shows(Credit(g, s, x, t).gauges, Pair(key), last) <==> Shows(g.gauges, Pair(key), last)
  {
    hide PromKey, Credit, ShownFor;
    forall id | Owns(Pair(key), id) ensures SameAt(Credit(g, s, x, t).gauges, g.gauges, id) {
      CreditGauge(g, s, x, t, id);
      if s.table == KnownTable && Owns(s, id) {
        PodSvcGaugeOwners(key, s.key, id);
      }
    }
  }

  lemma CreditIfShowsWriter(g: Aggs, s: Option<Slot>, x: FlowStats, t: nat, key: PodStatsKey, writer: Writer,
                            held: Option<FlowStats>, mirrored: Option<FlowStats>)
    requires ShowsWriter(g.gauges, key, writer, LastHeld(g, Pair(key), held), LastHeld(g, Pair(key.Swap()), mirrored))
    ensures var g' := CreditIf(g, s, x, t);
            ShowsWriter(g'.gauges, key, WriterAfter(s, key, writer),
                        LastHeld(g', Pair(key), held), LastHeld(g', Pair(key.Swap()), mirrored))
  {
    hide PromKey, Credit, ShownFor, Shows;
    if s.Some? {
      CreditEffect(g, s.value, x, t, Pair(key));
      CreditEffect(g, s.value, x, t, Pair(key.Swap()));
      assert key.Swap().Swap() == key;
      if s.value == Pair(key) || s.value == Pair(key.Swap()) {
        CreditShown(g, s.value, x, t);
      } else {
        OtherCreditsSpare(g, s.value, x, t, key, LastHeld(g, Pair(key), held));
        OtherCreditsSpare(g, s.value, x, t, key.Swap(), LastHeld(g, Pair(key.Swap()), mirrored));
      }
    }
  }

  lemma CreditShown(g: Aggs, s: Slot, x: FlowStats, t: nat)
    ensures Shows(Credit(g, s, x, t).gauges, s, Some(StatsOf(Credit(g, s, x, t), s)))
  {
    hide PromKey, Credit, ShownFor;
    var g' := Credit(g, s, x, t);
    forall id | Owns(s, id) ensures id in g'.gauges && g'.gauges[id] == ShownFor(s, StatsOf(g', s))[id.series] {
      CreditGauge(g, s, x, t, id);
    }
  }

  lemma MergeShowsWriter(g: Aggs, target: Target, x: FlowStats, t: nat, key: PodStatsKey, writer: Writer,
                         held: Option<FlowStats>, mirrored: Option<FlowStats>)
    requires ShowsWriter(g.gauges, key, writer, LastHeld(g, Pair(key), held), LastHeld(g, Pair(key.Swap()), mirrored))
    ensures var g' := Merge(g, RouteOf(target), x, t);
            ShowsWriter(g'.gauges, key, WriterAfter(RouteOf(target).pair, key, writer),
                        LastHeld(g', Pair(key), held), LastHeld(g', Pair(key.Swap()), mirrored))
  {
    hide CreditIf, RouteOf, ShowsWriter, LastHeld;
    RoutesAreCleared(target);
    var route := RouteOf(target);
    var g1 := CreditIf(g, route.src, x, t);
    var g2 := CreditIf(g1, route.dst, x.Swap(), t);
    CreditIfShowsWriter(g, route.src, x, t, key, writer, held, mirrored);
    CreditIfShowsWriter(g1, route.dst, x.Swap(), t, key, writer, held, mirrored);
    CreditIfShowsWriter(g2, route.pair, x.Swap(), t, key, writer, held, mirrored);
  }

  lemma {:induction false} VisitsShowWriter(order: DiffOrder, a: AgentState, vs: seq<Visit>, t: nat, key: PodStatsKey, writer: Writer,
                                            held: Option<FlowStats>, mirrored: Option<FlowStats>)
    requires DistinctFlows(vs)
    requires ShowsWriter(a.aggs.gauges, key, writer, LastHeld(a.aggs, Pair(key), held), LastHeld(a.aggs, Pair(key.Swap()), mirrored))
    ensures var g := VisitAll(order, Progress(a.base, a.aggs, {}), vs, t).aggs;
            ShowsWriter(g.gauges, key, WriterAfterScan(a.base, vs, key, writer),
                        LastHeld(g, Pair(key), held), LastHeld(g, Pair(key.Swap()), mirrored))
  {
    hide ShowsWriter, LastHeld, Merge, RouteOf, WriterAfter;
    if vs != [] {
      var front, v := vs[..|vs| - 1], vs[|vs| - 1];
      var q := VisitAll(order, Progress(a.base, a.aggs, {}), front, t);
      VisitsShowWriter(order, a, front, t, key, writer, held, mirrored);
      VisitAllBase(order, a, front, t, v.flow);
      assert !Visited(front, v.flow);
      MergeShowsWriter(q.aggs, v.target, Delta(order, q.base, v), t, key, WriterAfterScan(a.base, front, key, writer), held, mirrored);
    }
  }

  lemma WriterAfterStep(order: DiffOrder, s: System, step: Step, key: PodStatsKey, writer: Writer,
                        held: Option<FlowStats>, mirrored: Option<FlowStats>)
    requires step.ScanStep? ==> DistinctFlows(step.visits)
    requires LastHeld(s.agent.aggs, Pair(key), held) == held && LastHeld(s.agent.aggs, Pair(key.Swap()), mirrored) == mirrored
    requires ShowsWriter(s.agent.aggs.gauges, key, writer, held, mirrored)
    ensures var g := Apply(order, s, step).agent.aggs;
            ShowsWriter(g.gauges, key, if step.ScanStep? then WriterAfterScan(s.agent.base, step.visits, key, writer) else writer,
                        LastHeld(g, Pair(key), held), LastHeld(g, Pair(key.Swap()), mirrored))
  {
    hide ShowsWriter, Scan, Delete, Record, WriterAfterScan;
    match step
    case Packet(_, _, _) =>
    case ScanStep(visits) =>
      VisitsShowWriter(order, s.agent, visits, s.scans + 1, key, writer, held, mirrored);
      ScanHolds(order, s.agent, visits, s.scans + 1, Pair(key), held);
      ScanHolds(order, s.agent, visits, s.scans + 1, Pair(key.Swap()), mirrored);
    case DeleteStep(which, _) =>
      if which < |s.pending| {
        DeleteHolds(s.agent, s.pending[which], Pair(key));
        DeleteHolds(s.agent, s.pending[which], Pair(key.Swap()));
      }
  }

  /** Over every run, the gauges of a pod-service pair show the one of its two keys that was credited last. */
  lemma {:induction false} PairGaugesShowLastWriter(order: DiffOrder, run: Run, key: PodStatsKey)
    requires Legal(order, run)
    ensures ShowsWriter(At(order, run).agent.aggs.gauges, key, LastWriter(order, run, key),
                        LastStats(order, run, Pair(key)), LastStats(order, run, Pair(key.Swap())))
    ensures LastHeld(At(order, run).agent.aggs, Pair(key), LastStats(order, run, Pair(key))) == LastStats(order, run, Pair(key))
    ensures LastHeld(At(order, run).agent.aggs, Pair(key.Swap()), LastStats(order, run, Pair(key.Swap())))
            == LastStats(order, run, Pair(key.Swap()))
  {
    hide Apply, WriterAfterScan;
    if run.Then? {
      PairGaugesShowLastWriter(order, run.before, key);
      WriterAfterStep(order, At(order, run.before), run.step, key, LastWriter(order, run.before, key),
                      LastStats(order, run.before, Pair(key)), LastStats(order, run.before, Pair(key.Swap())));
    }
  }

  /**
   A pod `podNs/podName` and a service `svcNs/svcName/scope` have one gauge for each series at their
   labels. It shows the pair written pod first as it is, or written service first with sent and
   received exchanged, whichever was credited last, and does not exist before.
   */
  lemma PairGaugesByLabel(order: DiffOrder, run: Run, podNs: string, podName: string, svcNs: string, scope: string, svcName: string, i: nat)
    requires Legal(order, run) && i < 4
    requires '/' !in podNs && '/' !in podName && '/' !in svcNs && '/' !in svcName
    ensures var pod, svc := podNs + "/" + podName, svcNs + "/" + svcName + "/" + scope;
            var gauges, id := At(order, run).agent.aggs.gauges, PodSvcGauge(i, podNs, podName, svcNs, scope, svcName);
            match LastWriter(order, run, PodStatsKey(pod, svc))
            case Nobody => id !in gauges
            case Itself =>
              && id in gauges && LastStats(order, run, Slot(KnownTable, PodStatsKey(pod, svc))).Some?
              && gauges[id] == LastStats(order, run, Slot(KnownTable, PodStatsKey(pod, svc))).value
                                 .Get([OutBytes, OutPackets, InBytes, InPackets][i])
            case ItsMirror =>
              && id in gauges && LastStats(order, run, Slot(KnownTable, PodStatsKey(svc, pod))).Some?
              && gauges[id] == LastStats(order, run, Slot(KnownTable, PodStatsKey(svc, pod))).value
                                 .Get([InBytes, InPackets, OutBytes, OutPackets][i])
  {
    hide At, Legal, LastStats, LastWriter, SplitN3;
    var key := PodStatsKey(podNs + "/" + podName, svcNs + "/" + svcName + "/" + scope);
    SplitPod(podNs, podName);
    SplitSvc(svcNs, svcName, scope);
    PairGaugesShowLastWriter(order, run, key);
    var id := PodSvcGauge(i, podNs, podName, svcNs, scope, svcName);
    assert Owns(Pair(key), id) && Owns(Pair(key.Swap()), id);
  }

  /**
   The exact condition for pairs, over every run: the gauges agree with what a pair held when last
   alive if and only if its mirror was not credited after it, or the two hold mirrored totals.
   */
  lemma PairGaugesAgreeIff(order: DiffOrder, run: Run, key: PodStatsKey)
    requires Legal(order, run) && Publishes(KnownTable, PromKey(key))
    ensures var held, mirrored := LastStats(order, run, Pair(key)), LastStats(order, run, Pair(key.Swap()));
            Shows(At(order, run).agent.aggs.gauges, Pair(key), held)
            <==> LastWriter(order, run, key) != ItsMirror || (held.Some? && mirrored == Some(held.value.Swap()))
  {
    hide At, Legal, PromKey, LastStats, LastWriter;
    PairGaugesShowLastWriter(order, run, key);
    if LastWriter(order, run, key) == ItsMirror {
      MirrorShown(At(order, run).agent.aggs.gauges, key, LastStats(order, run, Pair(key)), LastStats(order, run, Pair(key.Swap())).value);
    }
  }

  /** Gauges that show the mirror show the pair itself iff it holds the mirrored counters. */
  lemma MirrorShown(gauges: Registry, key: PodStatsKey, held: Option<FlowStats>, mirrored: FlowStats)
    requires Publishes(KnownTable, PromKey(key)) && Shows(gauges, Pair(key.Swap()), Some(mirrored))
    ensures Shows(gauges, Pair(key), held) <==> held == Some(mirrored.Swap())
  {
    hide PromKey;
    assert mirrored.Swap().Swap() == mirrored && key.Swap().Swap() == key;
    forall id
      ensures Owns(Pair(key), id) <==> Owns(Pair(key.Swap()), id)
      ensures Owns(Pair(key), id) ==> id.series < SERIES && ShownFor(Pair(key), mirrored.Swap()) == ShownFor(Pair(key.Swap()), mirrored)
    {
      MirroredKeysShareGauges(key, id, mirrored.Swap());
    }
    var first := IdFor(KnownTable, PromKey(key), 0);
    assert Owns(Pair(key), first);
    assert Shows(gauges, Pair(key), Some(mirrored.Swap()));
    if Shows(gauges, Pair(key), held) {
      MirroredPublishes(key);
      PairShownDetermines(gauges, key.Swap(), held.value, mirrored.Swap());
    }
  }

  lemma MirroredPublishes(key: PodStatsKey)
    requires Publishes(KnownTable, PromKey(key))
    ensures Publishes(KnownTable, PromKey(key.Swap()))
  {
    hide SplitN3;
  }

  /**
   How agreement fails: once flows in both directions between a pod and a service have been merged,
   the gauges agree with the first direction exactly when both directions hold mirrored totals.
   */
  lemma BothDirectionsCollide(g: Aggs, key: PodStatsKey, x: FlowStats, y: FlowStats, t: nat)
    requires ParsedKind(key) == POD_TO_SVC
    ensures var g1 := Merge(g, RouteOf(Target(key, POD_TO_SVC)), x, t);
            var g2 := Merge(g1, RouteOf(Target(key.Swap(), SVC_TO_POD)), y, t);
            && Shows(g1.gauges, Pair(key), Some(StatsOf(g1, Pair(key))))
            && Shows(g2.gauges, Pair(key.Swap()), Some(StatsOf(g2, Pair(key.Swap()))))
            && (Shows(g2.gauges, Pair(key), Some(StatsOf(g2, Pair(key))))
                <==> StatsOf(g2, Pair(key)) == StatsOf(g2, Pair(key.Swap())).Swap())
  {
    hide Credit, Shows, Column, SplitN3;
    var g1 := Merge(g, RouteOf(Target(key, POD_TO_SVC)), x, t);
    var g2 := Merge(g1, RouteOf(Target(key.Swap(), SVC_TO_POD)), y, t);
    PairMerged(g, Target(key, POD_TO_SVC), x, t, ZERO);
    PairMerged(g1, Target(key.Swap(), SVC_TO_POD), y, t, StatsOf(g2, Pair(key)));
    assert key.Swap().Swap() == key;
  }

  lemma PairMerged(g: Aggs, target: Target, x: FlowStats, t: nat, mirrored: FlowStats)
    requires target.kind == POD_TO_SVC || target.kind == SVC_TO_POD
    requires Publishes(KnownTable, PromKey(target.key))
    ensures var g' := Merge(g, RouteOf(target), x, t);
            var stats := StatsOf(g', Pair(target.key));
            && Shows(g'.gauges, Pair(target.key), Some(stats))
            && (Shows(g'.gauges, Pair(target.key.Swap()), Some(mirrored)) <==> mirrored == stats.Swap())
  {
    hide Credit, Shows, PromKey;
    var route := RouteOf(target);
    var g2 := CreditIf(CreditIf(g, route.src, x, t), route.dst, x.Swap(), t);
    PairCredit(g2, target.key, x.Swap(), t, mirrored);
  }
}
