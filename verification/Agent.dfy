/**
 The agent's scan, merge, age and delete cycle on values: `Scan` is what one `UpdateStats` call
 does to the four maps and the gauges, `Delete` what its delayed deletion does later.
 `AgentHeap` proves that the pointer-based program computes exactly these functions.
 */
module Agent {
  import opened Statistics
  import opened Flows
  import opened Names
  import opened Gauges

  // ---------------------------------------------------------------- state

  /** A `FlowStatsEntry`; `stamp` is the number of the scan that last credited it. */
  datatype Entry = Entry(stats: FlowStats, aging: uint8, stamp: nat)

  /** `&FlowStatsEntry{}` */
  const BLANK := Entry(ZERO, 0, 0)

  const AGING_LIMIT: uint8 := 3

  /** `Aging_counter++` on a uint8. */
  function Older(aging: uint8): uint8 {
    (aging + 1) % 0x100
  }

  datatype Aggs = Aggs(pods: map<PodStatsKey, Entry>, svcs: map<PodStatsKey, Entry>,
                       known: map<PodStatsKey, Entry>, gauges: Registry)

  datatype AgentState = AgentState(base: map<V4Flow, Entry>, aggs: Aggs)

  const NEW_AGENT := AgentState(map[], Aggs(map[], map[], map[], map[]))

  /** One aggregate: a table and a key in it. */
  datatype Slot = Slot(table: Table, key: PodStatsKey)

  function TableOf(g: Aggs, table: Table): map<PodStatsKey, Entry> {
    match table
    case PodTable => g.pods
    case SvcTable => g.svcs
    case KnownTable => g.known
  }

  function WithTable(g: Aggs, table: Table, m: map<PodStatsKey, Entry>): Aggs {
    match table
    case PodTable => g.(pods := m)
    case SvcTable => g.(svcs := m)
    case KnownTable => g.(known := m)
  }

  predicate Live(g: Aggs, slot: Slot) {
    slot.key in TableOf(g, slot.table)
  }

  function Get(g: Aggs, slot: Slot): Entry
    requires Live(g, slot)
  {
    TableOf(g, slot.table)[slot.key]
  }

  function StatsOf(g: Aggs, slot: Slot): FlowStats {
    if Live(g, slot) then Get(g, slot).stats else ZERO
  }

  // ---------------------------------------------------------------- mergeStats

  /** Where a merge goes: the source side as is, the destination side and the known pair swapped. */
  datatype Route = Route(src: Option<Slot>, dst: Option<Slot>, pair: Option<Slot>)

  /** The eight cases of `mergeStats`; any other key type is dropped. */
  function RouteOf(target: Target): Route {
    var key, kind := target.key, target.kind;
    var src, dst := key.Clear1(), key.Swap().Clear1();
    if kind == FROM_POD then Route(Some(Slot(PodTable, src)), None, None)
    else if kind == TO_POD then Route(None, Some(Slot(PodTable, dst)), None)
    else if kind == FROM_SVC then Route(Some(Slot(SvcTable, src)), None, None)
    else if kind == TO_SVC then Route(None, Some(Slot(SvcTable, dst)), None)
    else if kind == POD_TO_POD then Route(Some(Slot(PodTable, src)), Some(Slot(PodTable, dst)), None)
    else if kind == SVC_TO_SVC then Route(Some(Slot(SvcTable, src)), Some(Slot(SvcTable, dst)), None)
    else if kind == POD_TO_SVC then
      Route(Some(Slot(PodTable, src)), Some(Slot(SvcTable, dst)), Some(Slot(KnownTable, key)))
    else if kind == SVC_TO_POD then
      Route(Some(Slot(SvcTable, src)), Some(Slot(PodTable, dst)), Some(Slot(KnownTable, key)))
    else Route(None, None, None)
  }

  predicate Feeds(route: Route, slot: Slot) {
    route.src == Some(slot) || route.dst == Some(slot) || route.pair == Some(slot)
  }

  /** Of an amount `direct` and its counterpart `mirrored` at the other end, what `route` carries to `slot`. */
  function Share(route: Route, slot: Slot, direct: int, mirrored: int): int {
    var src := if route.src == Some(slot) then direct else 0;
    var dst := if route.dst == Some(slot) then mirrored else 0;
    var pair := if route.pair == Some(slot) then mirrored else 0;
    src + dst + pair
  }

  /** What a merge of `x` along `route` adds to counter `w` of `slot`. */
  function Orient(route: Route, slot: Slot, x: FlowStats, w: Counter): int {
    Share(route, slot, x.Get(w), x.Get(w.Mirror()))
  }

  /** Create the entry if missing, `add`, then publish its gauges. */
  function Credit(g: Aggs, slot: Slot, x: FlowStats, t: nat): Aggs {
    var entry := Entry(AddStats(StatsOf(g, slot), x), 0, t);
    var g' := WithTable(g, slot.table, TableOf(g, slot.table)[slot.key := entry]);
    g'.(gauges := SetGauge(g.gauges, slot.table, PromKey(slot.key), entry.stats))
  }

  function CreditIf(g: Aggs, slot: Option<Slot>, x: FlowStats, t: nat): Aggs {
    match slot
    case None => g
    case Some(s) => Credit(g, s, x, t)
  }

  function Merge(g: Aggs, route: Route, x: FlowStats, t: nat): Aggs {
    var g1 := CreditIf(g, route.src, x, t);
    var g2 := CreditIf(g1, route.dst, x.Swap(), t);
    CreditIf(g2, route.pair, x.Swap(), t)
  }

  // ---------------------------------------------------------------- UpdateStats

  /** One key the kernel iterator yields, its value, and what `getPodStatsKey` answers for it then. */
  datatype Visit = Visit(flow: V4Flow, value: FlowStats, target: Target)

  /**
   When the difference against the previous snapshot is taken. As written, the snapshot is
   overwritten first and the "old" value is read through the same pointer; `DiffFirst` is the order
   the code reads as if it meant.
   */
  datatype DiffOrder = OverwriteFirst | DiffFirst

  datatype Progress = Progress(base: map<V4Flow, Entry>, aggs: Aggs, queued: set<V4Flow>)

  /** The flow is known and its counters have not moved. */
  predicate Idle(base: map<V4Flow, Entry>, v: Visit) {
    v.flow in base && base[v.flow].stats == v.value
  }

  /** What a visit that is not idle hands to `mergeStats`. */
  function Delta(order: DiffOrder, base: map<V4Flow, Entry>, v: Visit): FlowStats {
    if v.flow !in base then v.value
    else match order
      case OverwriteFirst => DiffStats(v.value, v.value)
      case DiffFirst => DiffStats(base[v.flow].stats, v.value)
  }

  function Refreshed(base: map<V4Flow, Entry>, v: Visit, t: nat): Entry {
    if Idle(base, v) then base[v.flow].(aging := Older(base[v.flow].aging)) else Entry(v.value, 0, t)
  }

  /** One turn of the loop over the kernel map. */
  function VisitOne(order: DiffOrder, p: Progress, v: Visit, t: nat): Progress {
    var entry := Refreshed(p.base, v, t);
    if Idle(p.base, v) then
      Progress(p.base[v.flow := entry], p.aggs,
               if entry.aging >= AGING_LIMIT then p.queued + {v.flow} else p.queued)
    else
      Progress(p.base[v.flow := entry], Merge(p.aggs, RouteOf(v.target), Delta(order, p.base, v), t), p.queued)
  }

  function VisitAll(order: DiffOrder, p: Progress, vs: seq<Visit>, t: nat): Progress {
    if vs == [] then p
    else VisitOne(order, VisitAll(order, p, vs[..|vs| - 1], t), vs[|vs| - 1], t)
  }

  function AgeEntry(e: Entry, t: nat): Entry {
    if e.stamp != t then e.(aging := Older(e.aging)) else e
  }

  function AgeTable(m: map<PodStatsKey, Entry>, t: nat): (aged: map<PodStatsKey, Entry>)
    ensures aged.Keys == m.Keys
  {
    map k | k in m :: AgeEntry(m[k], t)
  }

  /** Keys queued by the aging loop; read from the table after aging. */
  function DueKeys(aged: map<PodStatsKey, Entry>, t: nat): set<PodStatsKey> {
    set k | k in aged && aged[k].stamp != t && aged[k].aging >= AGING_LIMIT
  }

  /** The four delete lists one `UpdateStats` call leaves to its goroutine. */
  datatype Batch = Batch(flows: set<V4Flow>, pods: set<PodStatsKey>, svcs: set<PodStatsKey>, known: set<PodStatsKey>)

  function BatchKeys(b: Batch, table: Table): set<PodStatsKey> {
    match table
    case PodTable => b.pods
    case SvcTable => b.svcs
    case KnownTable => b.known
  }

  predicate Queued(b: Batch, slot: Slot) {
    slot.key in BatchKeys(b, slot.table)
  }

  datatype ScanResult = ScanResult(agent: AgentState, batch: Batch)

  function Scan(order: DiffOrder, a: AgentState, vs: seq<Visit>, t: nat): ScanResult {
    var p := VisitAll(order, Progress(a.base, a.aggs, {}), vs, t);
    var pods, svcs, known := AgeTable(p.aggs.pods, t), AgeTable(p.aggs.svcs, t), AgeTable(p.aggs.known, t);
    ScanResult(AgentState(p.base, Aggs(pods, svcs, known, p.aggs.gauges)),
               Batch(p.queued, DueKeys(pods, t), DueKeys(svcs, t), DueKeys(known, t)))
  }

  /** The delayed deletion on the agent's side; gauges keep their last values. */
  function Delete(a: AgentState, b: Batch): AgentState {
    AgentState(a.base - b.flows,
               Aggs(a.aggs.pods - b.pods, a.aggs.svcs - b.svcs, a.aggs.known - b.known, a.aggs.gauges))
  }

  // ---------------------------------------------------------------- what a credit and a merge change

  lemma CreditEffect(g: Aggs, s: Slot, x: FlowStats, t: nat, slot: Slot)
    ensures var g' := Credit(g, s, x, t);
            if slot == s then Live(g', slot) && Get(g', slot) == Entry(AddStats(StatsOf(g, slot), x), 0, t)
            else (Live(g', slot) <==> Live(g, slot)) && (Live(g, slot) ==> Get(g', slot) == Get(g, slot))
  {
    hide SetGauge, PromKey, AddStats;
  }

  lemma CreditIfEffect(g: Aggs, s: Option<Slot>, x: FlowStats, t: nat, slot: Slot)
    ensures var g' := CreditIf(g, s, x, t);
            if s == Some(slot) then Live(g', slot) && Get(g', slot) == Entry(AddStats(StatsOf(g, slot), x), 0, t)
            else (Live(g', slot) <==> Live(g, slot)) && (Live(g, slot) ==> Get(g', slot) == Get(g, slot))
  {
    if s.Some? {
      CreditEffect(g, s.value, x, t, slot);
    }
  }

  /** Counter `w` of `slot` after something fed it `x` (or did not) at time `t`. */
  ghost predicate Accrued(g: Aggs, g': Aggs, slot: Slot, fed: bool, w: Counter, x: int, t: nat) {
    && (Live(g', slot) <==> Live(g, slot) || fed)
    && StatsOf(g', slot).Get(w) == Mod64(StatsOf(g, slot).Get(w) + x)
    && (fed ==> Get(g', slot).aging == 0 && Get(g', slot).stamp == t)
    && (!fed && Live(g, slot) ==> Get(g', slot) == Get(g, slot))
  }

  lemma AccruedTwice(g: Aggs, g1: Aggs, g2: Aggs, slot: Slot, fed: bool, fed': bool, w: Counter, x: int, y: int, t: nat)
    requires Accrued(g, g1, slot, fed, w, x, t) && Accrued(g1, g2, slot, fed', w, y, t)
    ensures Accrued(g, g2, slot, fed || fed', w, x + y, t)
  {
    Mod64Plus(StatsOf(g, slot).Get(w) + x, y);
  }

  lemma AccruedNothing(g: Aggs, base: map<V4Flow, Entry>, slot: Slot, w: Counter, t: nat)
    ensures !Touched(base, slot, []) && Accrued(g, g, slot, false, w, 0, t)
  {}

  lemma CreditIfAccrues(g: Aggs, s: Option<Slot>, x: FlowStats, t: nat, slot: Slot, w: Counter)
    ensures Accrued(g, CreditIf(g, s, x, t), slot, s == Some(slot), w, if s == Some(slot) then x.Get(w) else 0, t)
  {
    CreditIfEffect(g, s, x, t, slot);
  }

  /** One merge: every slot gets the oriented amount, no other slot moves. */
  lemma MergeAccrues(g: Aggs, route: Route, x: FlowStats, t: nat, slot: Slot, w: Counter)
    ensures Accrued(g, Merge(g, route, x, t), slot, Feeds(route, slot), w, Orient(route, slot, x, w), t)
  {
    hide CreditIf, Accrued;
    var g1 := CreditIf(g, route.src, x, t);
    var g2 := CreditIf(g1, route.dst, x.Swap(), t);
    var g3 := CreditIf(g2, route.pair, x.Swap(), t);
    assert x.Swap().Get(w) == x.Get(w.Mirror());
    CreditIfAccrues(g, route.src, x, t, slot, w);
    CreditIfAccrues(g1, route.dst, x.Swap(), t, slot, w);
    CreditIfAccrues(g2, route.pair, x.Swap(), t, slot, w);
    var a := if route.src == Some(slot) then x.Get(w) else 0;
    var b := if route.dst == Some(slot) then x.Get(w.Mirror()) else 0;
    var c := if route.pair == Some(slot) then x.Get(w.Mirror()) else 0;
    AccruedTwice(g, g1, g2, slot, route.src == Some(slot), route.dst == Some(slot), w, a, b, t);
    AccruedTwice(g, g2, g3, slot, route.src == Some(slot) || route.dst == Some(slot), route.pair == Some(slot),
                 w, a + b, c, t);
  }

  // ---------------------------------------------------------------- what a whole scan changes

  predicate DistinctFlows(vs: seq<Visit>) {
    forall i, j :: 0 <= i < j < |vs| ==> vs[i].flow != vs[j].flow
  }

  predicate Visited(vs: seq<Visit>, flow: V4Flow) {
    exists i :: 0 <= i < |vs| && vs[i].flow == flow
  }

  /** The snapshot of `f` and its place in the queue after visiting distinct flows. */
  ghost predicate Snapshotted(a: AgentState, p: Progress, vs: seq<Visit>, t: nat, f: V4Flow) {
    && (!Visited(vs, f) ==>
          (f in p.base <==> f in a.base) && (f in a.base ==> p.base[f] == a.base[f]) && f !in p.queued)
    && (forall i :: 0 <= i < |vs| && vs[i].flow == f ==>
          && f in p.base && p.base[f] == Refreshed(a.base, vs[i], t)
          && (f in p.queued <==> Idle(a.base, vs[i]) && Refreshed(a.base, vs[i], t).aging >= AGING_LIMIT))
  }

  lemma VisitOneBase(order: DiffOrder, p: Progress, v: Visit, t: nat)
    ensures var p' := VisitOne(order, p, v, t);
            && p'.base == p.base[v.flow := Refreshed(p.base, v, t)]
            && p'.queued == p.queued + if Idle(p.base, v) && Refreshed(p.base, v, t).aging >= AGING_LIMIT then {v.flow} else {}
  {}

  lemma {:induction false} VisitAllBase(order: DiffOrder, a: AgentState, vs: seq<Visit>, t: nat, f: V4Flow)
    requires DistinctFlows(vs)
    ensures Snapshotted(a, VisitAll(order, Progress(a.base, a.aggs, {}), vs, t), vs, t, f)
  {
    if vs != [] {
      var n := |vs| - 1;
      var front, v := vs[..n], vs[n];
      var p := VisitAll(order, Progress(a.base, a.aggs, {}), front, t);
      VisitAllBase(order, a, front, t, f);
      VisitOneBase(order, p, v, t);
      assert forall i :: 0 <= i < n ==> front[i] == vs[i];
      if v.flow == f {
        assert !Visited(front, f);
        assert Refreshed(p.base, v, t) == Refreshed(a.base, v, t);
      } else {
        assert Visited(vs, f) <==> Visited(front, f) by {
          if Visited(front, f) {
            var i :| 0 <= i < n && front[i].flow == f;
            assert vs[i].flow == f;
          }
        }
      }
    }
  }

  /** What one visit adds to counter `w` of a slot, judged against the base map before the scan. */
  function Contribution(order: DiffOrder, base: map<V4Flow, Entry>, slot: Slot, w: Counter, v: Visit): int {
    if Idle(base, v) then 0 else Orient(RouteOf(v.target), slot, Delta(order, base, v), w)
  }

  ghost function Contributions(order: DiffOrder, base: map<V4Flow, Entry>, slot: Slot, w: Counter): Visit -> int {
    (v: Visit) => Contribution(order, base, slot, w, v)
  }

  predicate FedBy(base: map<V4Flow, Entry>, slot: Slot, v: Visit) {
    !Idle(base, v) && Feeds(RouteOf(v.target), slot)
  }

  predicate Touched(base: map<V4Flow, Entry>, slot: Slot, vs: seq<Visit>) {
    exists i :: 0 <= i < |vs| && FedBy(base, slot, vs[i])
  }

  /** One turn of the loop, for a flow not visited before. */
  lemma VisitOneAccrues(order: DiffOrder, base: map<V4Flow, Entry>, p: Progress, v: Visit, t: nat, slot: Slot, w: Counter)
    requires v.flow in p.base <==> v.flow in base
    requires v.flow in base ==> p.base[v.flow] == base[v.flow]
    ensures Accrued(p.aggs, VisitOne(order, p, v, t).aggs, slot, FedBy(base, slot, v), w,
                    Contribution(order, base, slot, w, v), t)
  {
    if !Idle(base, v) {
      MergeAccrues(p.aggs, RouteOf(v.target), Delta(order, base, v), t, slot, w);
    }
  }

  /** Every aggregate after the visiting loop: it accrued the sum of the visits' contributions. */
  lemma {:induction false} VisitAllAccrues(order: DiffOrder, a: AgentState, vs: seq<Visit>, t: nat, slot: Slot, w: Counter)
    requires DistinctFlows(vs)
    ensures Accrued(a.aggs, VisitAll(order, Progress(a.base, a.aggs, {}), vs, t).aggs, slot,
                    Touched(a.base, slot, vs), w, SumSeq(vs, Contributions(order, a.base, slot, w)), t)
  {
    hide VisitOne, Accrued, Touched, FedBy, Contribution;
    if vs == [] {
      AccruedNothing(a.aggs, a.base, slot, w, t);
    } else {
      var n := |vs| - 1;
      var front, v := vs[..n], vs[n];
      var p := VisitAll(order, Progress(a.base, a.aggs, {}), front, t);
      VisitAllAccrues(order, a, front, t, slot, w);
      VisitAllBase(order, a, front, t, v.flow);
      assert !Visited(front, v.flow);
      VisitOneAccrues(order, a.base, p, v, t, slot, w);
      AccruedTwice(a.aggs, p.aggs, VisitOne(order, p, v, t).aggs, slot, Touched(a.base, slot, front),
                   FedBy(a.base, slot, v), w, SumSeq(front, Contributions(order, a.base, slot, w)),
                   Contribution(order, a.base, slot, w, v), t);
      TouchedLast(a.base, slot, vs);
    }
  }

  lemma TouchedLast(base: map<V4Flow, Entry>, slot: Slot, vs: seq<Visit>)
    requires vs != []
    ensures Touched(base, slot, vs) <==> Touched(base, slot, vs[..|vs| - 1]) || FedBy(base, slot, vs[|vs| - 1])
  {
    var front := vs[..|vs| - 1];
    if Touched(base, slot, front) {
      var i :| 0 <= i < |front| && FedBy(base, slot, front[i]);
      assert vs[i] == front[i];
    }
    if Touched(base, slot, vs) {
      var i :| 0 <= i < |vs| && FedBy(base, slot, vs[i]);
      assert i < |front| ==> front[i] == vs[i];
    }
  }

  ghost predicate StampsBelow(a: AgentState, t: nat) {
    forall slot :: Live(a.aggs, slot) ==> Get(a.aggs, slot).stamp < t
  }

  /** A whole scan, slot by slot: credited entries are fresh, all others grow older by one. */
  lemma ScanEffect(order: DiffOrder, a: AgentState, vs: seq<Visit>, t: nat, slot: Slot, w: Counter)
    requires DistinctFlows(vs) && StampsBelow(a, t)
    ensures var r := Scan(order, a, vs, t);
            var fed := Touched(a.base, slot, vs);
            && (Live(r.agent.aggs, slot) <==> Live(a.aggs, slot) || fed)
            && StatsOf(r.agent.aggs, slot).Get(w)
               == Mod64(StatsOf(a.aggs, slot).Get(w) + SumSeq(vs, Contributions(order, a.base, slot, w)))
            && (fed ==> Get(r.agent.aggs, slot).aging == 0 && Get(r.agent.aggs, slot).stamp == t)
            && (!fed && Live(a.aggs, slot) ==>
                  Get(r.agent.aggs, slot) == Get(a.aggs, slot).(aging := Older(Get(a.aggs, slot).aging)))
            && (Queued(r.batch, slot) <==>
                  !fed && Live(a.aggs, slot) && Older(Get(a.aggs, slot).aging) >= AGING_LIMIT)
  {
    VisitAllAccrues(order, a, vs, t, slot, w);
    var p := VisitAll(order, Progress(a.base, a.aggs, {}), vs, t);
    var r := Scan(order, a, vs, t);
    assert TableOf(r.agent.aggs, slot.table) == AgeTable(TableOf(p.aggs, slot.table), t);
    assert BatchKeys(r.batch, slot.table) == DueKeys(AgeTable(TableOf(p.aggs, slot.table), t), t);
    assert Live(a.aggs, slot) ==> Get(a.aggs, slot).stamp < t;
  }

  lemma DeleteEffect(a: AgentState, b: Batch, slot: Slot)
    ensures var a' := Delete(a, b);
            && (Live(a'.aggs, slot) <==> Live(a.aggs, slot) && !Queued(b, slot))
            && (Live(a'.aggs, slot) ==> Get(a'.aggs, slot) == Get(a.aggs, slot))
  {}
}
