/**
 Transmit/receive balance: what one side of a merge sends, the other side receives. Summed over
 all pods and services, with the totals of deleted entries kept, Out and In agree modulo 2^64 up
 to what merges with one known side added.
 */
module Balance {
  import opened Statistics
  import opened Flows
  import opened Names
  import opened Gauges
  import opened KernelMap
  import opened Agent
  import opened Pipeline

  // ---------------------------------------------------------------- totals over the two maps

  ghost function CounterIn(m: map<PodStatsKey, Entry>, w: Counter): PodStatsKey -> int {
    (k: PodStatsKey) => if k in m then m[k].stats.Get(w) else 0
  }

  ghost function TableTotal(m: map<PodStatsKey, Entry>, w: Counter): int {
    SumSet(m.Keys, CounterIn(m, w))
  }

  /** Counter `w` summed over all pods and services. */
  ghost function Total(g: Aggs, w: Counter): int {
    TableTotal(g.pods, w) + TableTotal(g.svcs, w)
  }

  lemma TableTotalPut(m: map<PodStatsKey, Entry>, k: PodStatsKey, e: Entry, w: Counter)
    ensures TableTotal(m[k := e], w) == TableTotal(m, w) - CounterIn(m, w)(k) + e.stats.Get(w)
  {
    var m' := m[k := e];
    SumSetTake(m'.Keys, k, CounterIn(m', w));
    SumSetAgree(m'.Keys - {k}, CounterIn(m', w), CounterIn(m, w));
    if k in m {
      SumSetTake(m.Keys, k, CounterIn(m, w));
      assert m'.Keys == m.Keys;
    } else {
      assert m'.Keys - {k} == m.Keys;
    }
  }

  lemma TableTotalAged(m: map<PodStatsKey, Entry>, t: nat, w: Counter)
    ensures TableTotal(AgeTable(m, t), w) == TableTotal(m, w)
  {
    SumSetAgree(m.Keys, CounterIn(m, w), CounterIn(AgeTable(m, t), w));
  }

  /** What leaves a table with the keys in `gone`. */
  ghost function Leaving(m: map<PodStatsKey, Entry>, gone: set<PodStatsKey>, w: Counter): int {
    SumSet(m.Keys * gone, CounterIn(m, w))
  }

  lemma TableTotalWithout(m: map<PodStatsKey, Entry>, gone: set<PodStatsKey>, w: Counter)
    ensures TableTotal(m - gone, w) + Leaving(m, gone, w) == TableTotal(m, w)
  {
    SumSetSplit(m.Keys, m.Keys * gone, CounterIn(m, w));
    assert (m - gone).Keys == m.Keys - m.Keys * gone;
    SumSetAgree((m - gone).Keys, CounterIn(m, w), CounterIn(m - gone, w));
  }

  // ---------------------------------------------------------------- one credit, one merge

  lemma CreditIfTotal(g: Aggs, s: Option<Slot>, x: FlowStats, t: nat, w: Counter)
    ensures var g' := CreditIf(g, s, x, t);
            Mod64(Total(g', w)) == Mod64(Total(g, w) + if s.Some? && s.value.table != KnownTable then x.Get(w) else 0)
  {
    hide Mod64, TableTotal, SetGauge, PromKey;
    if s.Some? {
      var key := s.value.key;
      var e := Entry(AddStats(StatsOf(g, s.value), x), 0, t);
      TableTotalPut(g.pods, key, e, w);
      TableTotalPut(g.svcs, key, e, w);
      Mod64Plus(StatsOf(g, s.value).Get(w) + x.Get(w), Total(g, w) - StatsOf(g, s.value).Get(w));
      StatsIsCounter(g, s.value, w);
    }
  }

  lemma StatsIsCounter(g: Aggs, s: Slot, w: Counter)
    ensures StatsOf(g, s).Get(w) == CounterIn(TableOf(g, s.table), w)(s.key)
  {}

  /** What a merge adds to counter `w` over all pods and services. */
  function BothSides(route: Route, x: FlowStats, w: Counter): int {
    (if route.src.Some? then x.Get(w) else 0) + (if route.dst.Some? then x.Get(w.Mirror()) else 0)
  }

  lemma MergeTotal(g: Aggs, target: Target, x: FlowStats, t: nat, w: Counter)
    ensures var r := RouteOf(target);
            Mod64(Total(Merge(g, r, x, t), w)) == Mod64(Total(g, w) + BothSides(r, x, w))
  {
    hide CreditIf, Mod64, Total, RouteOf;
    var r := RouteOf(target);
    SidesAreSingle(target);
    var g1 := CreditIf(g, r.src, x, t);
    var g2 := CreditIf(g1, r.dst, x.Swap(), t);
    CreditIfTotal(g, r.src, x, t, w);
    CreditIfTotal(g1, r.dst, x.Swap(), t, w);
    CreditIfTotal(g2, r.pair, x.Swap(), t, w);
    assert x.Swap().Get(w) == x.Get(w.Mirror());
    Mod64Plus(Total(g, w) + if r.src.Some? then x.Get(w) else 0, if r.dst.Some? then x.Get(w.Mirror()) else 0);
    Mod64Plus(Total(g1, w), if r.dst.Some? then x.Get(w.Mirror()) else 0);
  }

  lemma SidesAreSingle(target: Target)
    ensures var r := RouteOf(target);
            && (r.src.Some? ==> r.src.value.table != KnownTable) && (r.dst.Some? ==> r.dst.value.table != KnownTable)
            && (r.pair.Some? ==> r.pair.value.table == KnownTable)
  {}

  // ---------------------------------------------------------------- one scan

  function Added(order: DiffOrder, base: map<V4Flow, Entry>, w: Counter, v: Visit): int {
    if Idle(base, v) then 0 else BothSides(RouteOf(v.target), Delta(order, base, v), w)
  }

  ghost function AddedBy(order: DiffOrder, base: map<V4Flow, Entry>, w: Counter): Visit -> int {
    (v: Visit) => Added(order, base, w, v)
  }

  lemma VisitTotal(order: DiffOrder, base: map<V4Flow, Entry>, p: Progress, v: Visit, t: nat, w: Counter)
    requires v.flow in p.base <==> v.flow in base
    requires v.flow in base ==> p.base[v.flow] == base[v.flow]
    ensures Mod64(Total(VisitOne(order, p, v, t).aggs, w)) == Mod64(Total(p.aggs, w) + Added(order, base, w, v))
  {
    hide Mod64, Total, RouteOf, Merge, BothSides;
    if !Idle(base, v) {
      MergeTotal(p.aggs, v.target, Delta(order, p.base, v), t, w);
    }
  }

  lemma {:induction false} VisitsTotal(order: DiffOrder, a: AgentState, vs: seq<Visit>, t: nat, w: Counter)
    requires DistinctFlows(vs)
    ensures Mod64(Total(VisitAll(order, Progress(a.base, a.aggs, {}), vs, t).aggs, w))
            == Mod64(Total(a.aggs, w) + SumSeq(vs, AddedBy(order, a.base, w)))
  {
    hide Mod64, Total, VisitOne, Added;
    if vs != [] {
      var front, v := vs[..|vs| - 1], vs[|vs| - 1];
      var p := VisitAll(order, Progress(a.base, a.aggs, {}), front, t);
      VisitsTotal(order, a, front, t, w);
      VisitAllBase(order, a, front, t, v.flow);
      assert !Visited(front, v.flow);
      VisitTotal(order, a.base, p, v, t, w);
      Mod64Plus(Total(p.aggs, w), Added(order, a.base, w, v));
      Mod64Plus(Total(a.aggs, w) + SumSeq(front, AddedBy(order, a.base, w)), Added(order, a.base, w, v));
    }
  }

  lemma ScanTotal(order: DiffOrder, a: AgentState, vs: seq<Visit>, t: nat, w: Counter)
    requires DistinctFlows(vs)
    ensures Mod64(Total(Scan(order, a, vs, t).agent.aggs, w)) == Mod64(Total(a.aggs, w) + SumSeq(vs, AddedBy(order, a.base, w)))
  {
    hide Mod64, TableTotal, VisitAll, AgeTable;
    var p := VisitAll(order, Progress(a.base, a.aggs, {}), vs, t);
    VisitsTotal(order, a, vs, t, w);
    TableTotalAged(p.aggs.pods, t, w);
    TableTotalAged(p.aggs.svcs, t, w);
  }

  // ---------------------------------------------------------------- whole runs

  ghost function LeavingWith(a: AgentState, b: Batch, w: Counter): int {
    Leaving(a.aggs.pods, b.pods, w) + Leaving(a.aggs.svcs, b.svcs, w)
  }

  /** Counter `w` of every pod and service entry deleted so far, at the moment it was deleted. */
  ghost function Retired(order: DiffOrder, run: Run, w: Counter): int {
    match run
    case Boot => 0
    case Then(before, step) =>
      var s := At(order, before);
      Retired(order, before, w)
      + if step.DeleteStep? && step.which < |s.pending| then LeavingWith(s.agent, s.pending[step.which], w) else 0
  }

  /** Everything merges have added to counter `w` over all pods and services. */
  ghost function AddedEver(order: DiffOrder, run: Run, w: Counter): int {
    match run
    case Boot => 0
    case Then(before, step) =>
      AddedEver(order, before, w)
      + if step.ScanStep? then SumSeq(step.visits, AddedBy(order, At(order, before).agent.base, w)) else 0
  }

  lemma StepTotal(order: DiffOrder, s: System, step: Step, w: Counter)
    requires step.ScanStep? ==> Covers(step.visits, s.kernel)
    requires step.DeleteStep? ==> step.which < |s.pending|
    ensures var s' := Apply(order, s, step);
            match step
            case Packet(_, _, _) => Total(s'.agent.aggs, w) == Total(s.agent.aggs, w)
            case ScanStep(vs) =>
              Mod64(Total(s'.agent.aggs, w)) == Mod64(Total(s.agent.aggs, w) + SumSeq(vs, AddedBy(order, s.agent.base, w)))
            case DeleteStep(which, _) =>
              Total(s'.agent.aggs, w) + LeavingWith(s.agent, s.pending[which], w) == Total(s.agent.aggs, w)
  {
    hide Mod64, TableTotal, Leaving, Record, Scan;
    match step
    case Packet(_, _, _) =>
    case ScanStep(vs) => ScanTotal(order, s.agent, vs, s.scans + 1, w);
    case DeleteStep(which, _) =>
      TableTotalWithout(s.agent.aggs.pods, s.pending[which].pods, w);
      TableTotalWithout(s.agent.aggs.svcs, s.pending[which].svcs, w);
  }

  /** Conservation over all pods and services: what is held and what was retired is what was added. */
  lemma {:induction false} TotalsAreConserved(order: DiffOrder, run: Run, w: Counter)
    requires Legal(order, run)
    ensures Mod64(Total(At(order, run).agent.aggs, w) + Retired(order, run, w)) == Mod64(AddedEver(order, run, w))
  {
    hide Apply, Mod64, Total, LeavingWith, Covers;
    if run.Then? {
      var s, s' := At(order, run.before), At(order, run);
      TotalsAreConserved(order, run.before, w);
      StepTotal(order, s, run.step, w);
      if run.step.ScanStep? {
        var more := SumSeq(run.step.visits, AddedBy(order, s.agent.base, w));
        var retired := Retired(order, run.before, w);
        Mod64Plus(Total(s'.agent.aggs, w), retired);
        Mod64Plus(Total(s.agent.aggs, w) + more, retired);
        Mod64Plus(Total(s.agent.aggs, w) + retired, more);
        Mod64Plus(AddedEver(order, run.before, w), more);
      }
    } else {
      NothingAtBoot(w);
    }
  }

  lemma NothingAtBoot(w: Counter)
    ensures Total(BOOTED.agent.aggs, w) == 0
  {}

  // ---------------------------------------------------------------- balance

  /** What a merge with one known side adds to `w` beyond its mirror image. */
  function OneSidedExcess(order: DiffOrder, base: map<V4Flow, Entry>, w: Counter, v: Visit): int {
    var r := RouteOf(v.target);
    if Idle(base, v) || (r.src.Some? <==> r.dst.Some?) then 0
    else
      var x := Delta(order, base, v);
      if r.src.Some? then x.Get(w) - x.Get(w.Mirror()) else x.Get(w.Mirror()) - x.Get(w)
  }

  ghost function ExcessBy(order: DiffOrder, base: map<V4Flow, Entry>, w: Counter): Visit -> int {
    (v: Visit) => OneSidedExcess(order, base, w, v)
  }

  ghost function Excess(order: DiffOrder, run: Run, w: Counter): int {
    match run
    case Boot => 0
    case Then(before, step) =>
      Excess(order, before, w)
      + if step.ScanStep? then SumSeq(step.visits, ExcessBy(order, At(order, before).agent.base, w)) else 0
  }

  lemma {:induction false} VisitsExcess(order: DiffOrder, base: map<V4Flow, Entry>, vs: seq<Visit>, w: Counter)
    ensures SumSeq(vs, AddedBy(order, base, w)) == SumSeq(vs, AddedBy(order, base, w.Mirror())) + SumSeq(vs, ExcessBy(order, base, w))
  {
    hide RouteOf, Delta;
    if vs != [] {
      assert w.Mirror().Mirror() == w;
      VisitsExcess(order, base, vs[..|vs| - 1], w);
    }
  }

  lemma {:induction false} AddedExcess(order: DiffOrder, run: Run, w: Counter)
    ensures AddedEver(order, run, w) == AddedEver(order, run, w.Mirror()) + Excess(order, run, w)
  {
    hide Apply;
    if run.Then? {
      AddedExcess(order, run.before, w);
      if run.step.ScanStep? {
        VisitsExcess(order, At(order, run.before).agent.base, run.step.visits, w);
      }
    }
  }

  /** Everything ever held of counter `w`, by live and by deleted entries. */
  ghost function EverHeld(order: DiffOrder, run: Run, w: Counter): int {
    Total(At(order, run).agent.aggs, w) + Retired(order, run, w)
  }

  /**
   Over every run, sent and received totals differ by exactly what one-sided merges added, so they
   balance modulo 2^64 if and only if that difference vanishes modulo 2^64.
   */
  lemma SentBalancesReceived(order: DiffOrder, run: Run, w: Counter)
    requires Legal(order, run)
    ensures Mod64(EverHeld(order, run, w)) == Mod64(EverHeld(order, run, w.Mirror()) + Excess(order, run, w))
    ensures Mod64(EverHeld(order, run, w)) == Mod64(EverHeld(order, run, w.Mirror())) <==> Mod64(Excess(order, run, w)) == 0
  {
    hide Total, At, Mod64, Retired, AddedEver, Excess;
    TotalsAreConserved(order, run, w);
    TotalsAreConserved(order, run, w.Mirror());
    AddedExcess(order, run, w);
    var other, excess := EverHeld(order, run, w.Mirror()), Excess(order, run, w);
    Mod64Plus(AddedEver(order, run, w.Mirror()), excess);
    Mod64Plus(other, excess);
    Mod64Cancels(other, excess);
  }

  lemma Mod64Cancels(a: int, e: int)
    ensures Mod64(a + e) == Mod64(a) <==> Mod64(e) == 0
  {
    Mod64Plus(e, a);
    Mod64Plus(a + e, -a);
    Mod64Plus(a, -a);
    assert Mod64(0) == 0;
  }

  /** Every merge of the run knows both ends or none. */
  ghost predicate TwoSided(run: Run) {
    match run
    case Boot => true
    case Then(before, step) =>
      && TwoSided(before)
      && (step.ScanStep? ==> forall i :: 0 <= i < |step.visits| ==>
            var r := RouteOf(step.visits[i].target); r.src.Some? <==> r.dst.Some?)
  }

  lemma {:induction false} TwoSidedVisits(order: DiffOrder, base: map<V4Flow, Entry>, vs: seq<Visit>, w: Counter)
    requires forall i :: 0 <= i < |vs| ==> OneSidedExcess(order, base, w, vs[i]) == 0
    ensures SumSeq(vs, ExcessBy(order, base, w)) == 0
  {
    hide RouteOf, Delta;
    if vs != [] {
      TwoSidedVisits(order, base, vs[..|vs| - 1], w);
    }
  }

  /** When every merge knows both ends, transmitted and received totals agree modulo 2^64. */
  lemma {:induction false} TwoSidedRunsBalance(order: DiffOrder, run: Run, w: Counter)
    requires Legal(order, run) && TwoSided(run)
    ensures Excess(order, run, w) == 0
    ensures Mod64(EverHeld(order, run, w)) == Mod64(EverHeld(order, run, w.Mirror()))
  {
    hide RouteOf, Delta, Apply, Mod64, EverHeld;
    if run.Then? {
      TwoSidedRunsBalance(order, run.before, w);
      if run.step.ScanStep? {
        TwoSidedVisits(order, At(order, run.before).agent.base, run.step.visits, w);
      }
    }
    SentBalancesReceived(order, run, w);
  }
}
