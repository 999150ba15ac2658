/**
 Aging and delayed deletion: what the uint8 counters count, and what a batch may delete.
 "Prompt" runs finish every delete batch before the next scan; without that, a batch can be
 overtaken and delete an entry that has been refreshed since it was queued.
 */
module Aging {
  import opened Statistics
  import opened Flows
  import opened KernelMap
  import opened Agent
  import opened Pipeline

  // ---------------------------------------------------------------- reference counts over the history

  function NextReading(s: System, step: Step, f: V4Flow, last: Option<FlowStats>): Option<FlowStats> {
    match step
    case Packet(_, _, _) => last
    case ScanStep(_) => if f in s.kernel then Some(s.kernel[f]) else None
    case DeleteStep(which, _) => if which < |s.pending| && f in s.pending[which].flows then None else last
  }

  /** The value the last scan read for `f`, unless `f` was absent then or deleted since. */
  function LastReading(order: DiffOrder, run: Run, f: V4Flow): Option<FlowStats> {
    match run
    case Boot => None
    case Then(before, step) => NextReading(At(order, before), step, f, LastReading(order, before, f))
  }

  function NextIdle(s: System, step: Step, f: V4Flow, last: Option<FlowStats>, idle: nat): nat {
    match step
    case Packet(_, _, _) => idle
    case ScanStep(_) => if f in s.kernel && last == Some(s.kernel[f]) then idle + 1 else 0
    case DeleteStep(which, _) => if which < |s.pending| && f in s.pending[which].flows then 0 else idle
  }

  /** How many scans in a row, up to now, read the value the scan before them had read. */
  function IdleScans(order: DiffOrder, run: Run, f: V4Flow): nat {
    match run
    case Boot => 0
    case Then(before, step) =>
      NextIdle(At(order, before), step, f, LastReading(order, before, f), IdleScans(order, before, f))
  }

  /** A scan count as the uint8 holds it. */
  function Truncated(n: nat): uint8 {
    n % 0x100
  }

  lemma TruncatedNext(n: nat)
    ensures Older(Truncated(n)) == Truncated(n + 1)
    ensures Truncated(0) == 0 && Truncated(n) <= n && (n < 0x100 ==> Truncated(n) == n)
  {}

  /** The base entry of a flow against the history. */
  ghost predicate Remembers(s: System, f: V4Flow, reading: Option<FlowStats>, idle: nat) {
    && (f in s.agent.base <==> reading.Some?)
    && (f in s.agent.base ==> s.agent.base[f].stats == reading.value && s.agent.base[f].aging == Truncated(idle))
  }

  lemma RemembersNext(order: DiffOrder, s: System, step: Step, f: V4Flow, last: Option<FlowStats>, idle: nat)
    requires BaseWithinKernel(s) && Remembers(s, f, last, idle)
    requires step.ScanStep? ==> Covers(step.visits, s.kernel)
    requires step.DeleteStep? ==> step.which < |s.pending|
    ensures Remembers(Apply(order, s, step), f, NextReading(s, step, f, last), NextIdle(s, step, f, last, idle))
  {
    hide Scan, Delete, Truncated, Older;
    TruncatedNext(0);
    TruncatedNext(idle);
    match step
    case Packet(_, _, _) => PacketFlow(order, s, step, f);
    case ScanStep(visits) => ScanFlow(order, s, visits, f);
    case DeleteStep(_, _) => DeleteFlow(order, s, step, f);
  }

  /**
   Under every interleaving the base map is the last readings, and the aging counter of a flow is
   its number of idle scans, modulo the width of the counter.
   */
  lemma {:induction false} AgingCountsIdleScans(order: DiffOrder, run: Run, f: V4Flow)
    requires Legal(order, run)
    ensures Remembers(At(order, run), f, LastReading(order, run, f), IdleScans(order, run, f))
  {
    hide Apply, NextReading, NextIdle;
    if run.Then? {
      AgingCountsIdleScans(order, run.before, f);
      SnapshotsAreLive(order, run.before);
      RemembersNext(order, At(order, run.before), run.step, f, LastReading(order, run.before, f), IdleScans(order, run.before, f));
    }
  }

  /** Aging safety under every interleaving: a key that a scan queues has been idle for three scans in a row. */
  lemma QueuedFlowsWereIdle(order: DiffOrder, run: Run, visits: seq<Visit>, f: V4Flow)
    requires Legal(order, Then(run, ScanStep(visits)))
    ensures var s := At(order, run);
            f in Scan(order, s.agent, visits, s.scans + 1).batch.flows
            ==> IdleScans(order, Then(run, ScanStep(visits)), f) >= 3
  {
    hide Scan, Apply, Truncated, NextReading, NextIdle;
    var scanned := Then(run, ScanStep(visits));
    AgingCountsIdleScans(order, scanned, f);
    TruncatedNext(IdleScans(order, scanned, f));
    SnapshotsAreLive(order, run);
    ScanApplied(order, At(order, run), visits);
    ScanFlow(order, At(order, run), visits, f);
  }

  // ---------------------------------------------------------------- prompt runs

  /** Each delete batch runs before the next scan starts. */
  predicate Prompt(order: DiffOrder, run: Run) {
    match run
    case Boot => true
    case Then(before, step) => Prompt(order, before) && (step.ScanStep? ==> At(order, before).pending == [])
  }

  /** At most one batch is pending, and it names exactly the entries that have reached the limit. */
  ghost predicate BatchIsCurrent(s: System) {
    && |s.pending| <= 1
    && (forall f :: f in s.agent.base ==> s.agent.base[f].aging <= AGING_LIMIT)
    && (forall slot :: Live(s.agent.aggs, slot) ==> Get(s.agent.aggs, slot).aging <= AGING_LIMIT)
    && (forall f :: f in s.agent.base && s.agent.base[f].aging == AGING_LIMIT <==> s.pending != [] && f in s.pending[0].flows)
    && (forall slot :: Live(s.agent.aggs, slot) && Get(s.agent.aggs, slot).aging == AGING_LIMIT
                       <==> s.pending != [] && Queued(s.pending[0], slot))
  }

  lemma {:induction false} PromptBatchesAreCurrent(order: DiffOrder, run: Run)
    requires Legal(order, run) && Prompt(order, run)
    ensures BatchIsCurrent(At(order, run))
  {
    hide Apply, BatchIsCurrent;
    if run.Then? {
      PromptBatchesAreCurrent(order, run.before);
      SnapshotsAreLive(order, run.before);
      StampsAreOld(order, run.before);
      var s := At(order, run.before);
      match run.step
      case Packet(_, _, _) => CurrentAfterPacket(order, s, run.step);
      case ScanStep(visits) => CurrentAfterScan(order, s, visits);
      case DeleteStep(_, _) => CurrentAfterDelete(order, s, run.step);
    } else {
      CurrentAtBoot();
    }
  }

  lemma CurrentAtBoot()
    ensures BatchIsCurrent(BOOTED)
  {}

  lemma CurrentAfterPacket(order: DiffOrder, s: System, step: Step)
    requires step.Packet? && BatchIsCurrent(s)
    ensures BatchIsCurrent(Apply(order, s, step))
  {
    hide Apply;
    PacketFlow(order, s, step, step.tuple);
  }

  lemma CurrentAfterScan(order: DiffOrder, s: System, visits: seq<Visit>)
    requires Covers(visits, s.kernel) && BaseWithinKernel(s) && StampsBelow(s.agent, s.scans + 1)
    requires BatchIsCurrent(s) && s.pending == []
    ensures BatchIsCurrent(Apply(order, s, ScanStep(visits)))
  {
    hide Scan, Covers, StampsBelow;
    var s' := Apply(order, s, ScanStep(visits));
    var b := Scan(order, s.agent, visits, s.scans + 1).batch;
    assert s'.pending == [b];
    forall f
      ensures f in s'.agent.base ==> s'.agent.base[f].aging <= AGING_LIMIT
      ensures f in s'.agent.base && s'.agent.base[f].aging == AGING_LIMIT <==> f in b.flows
    {
      ScanFlow(order, s, visits, f);
    }
    forall slot
      ensures Live(s'.agent.aggs, slot) ==> Get(s'.agent.aggs, slot).aging <= AGING_LIMIT
      ensures Live(s'.agent.aggs, slot) && Get(s'.agent.aggs, slot).aging == AGING_LIMIT <==> Queued(b, slot)
    {
      SlotAfterScan(order, s, visits, slot);
    }
  }

  lemma SlotAfterScan(order: DiffOrder, s: System, visits: seq<Visit>, slot: Slot)
    requires Covers(visits, s.kernel) && StampsBelow(s.agent, s.scans + 1)
    requires Live(s.agent.aggs, slot) ==> Get(s.agent.aggs, slot).aging < AGING_LIMIT
    ensures var r := Scan(order, s.agent, visits, s.scans + 1);
            && (Live(r.agent.aggs, slot) ==> Get(r.agent.aggs, slot).aging <= AGING_LIMIT)
            && (Live(r.agent.aggs, slot) && Get(r.agent.aggs, slot).aging == AGING_LIMIT <==> Queued(r.batch, slot))
  {
    hide Scan, Live, Get, Queued, Touched, StampsBelow;
    ScanEffect(order, s.agent, visits, s.scans + 1, slot, OutBytes);
  }

  lemma CurrentAfterDelete(order: DiffOrder, s: System, step: Step)
    requires step.DeleteStep? && step.which < |s.pending| && BatchIsCurrent(s)
    ensures BatchIsCurrent(Apply(order, s, step))
  {
    hide Apply, Delete, Live, Get, Queued;
    var s' := Apply(order, s, step);
    DeleteFlow(order, s, step, ANY_FLOW);
    assert s'.pending == [];
    forall f ensures f in s'.agent.base ==> s'.agent.base[f].aging < AGING_LIMIT {
      DeleteFlow(order, s, step, f);
    }
    forall slot ensures Live(s'.agent.aggs, slot) ==> Get(s'.agent.aggs, slot).aging < AGING_LIMIT {
      DeleteEffect(s.agent, s.pending[0], slot);
    }
  }

  const ANY_FLOW := Flow(0, 0, 0, 0, 0)

  /**
   In a prompt run the counter is the exact number of idle scans and never exceeds three, so the
   uint8 never wraps.
   */
  lemma {:induction false} PromptAgingIsExact(order: DiffOrder, run: Run, f: V4Flow)
    requires Legal(order, run) && Prompt(order, run) && f in At(order, run).agent.base
    ensures At(order, run).agent.base[f].aging == IdleScans(order, run, f) <= 3
  {
    hide Apply, NextReading, NextIdle;
    PromptWithinLimit(order, run, f);
    if f in At(order, run.before).agent.base {
      PromptAgingIsExact(order, run.before, f);
    }
    AgingCountsIdleScans(order, run.before, f);
    AgingCountsIdleScans(order, run, f);
    ExactNext(order, At(order, run.before), run.step, f, LastReading(order, run.before, f), IdleScans(order, run.before, f));
  }

  /** A counter that is exact and within the limit after the step was not truncated by it. */
  lemma ExactNext(order: DiffOrder, s: System, step: Step, f: V4Flow, last: Option<FlowStats>, idle: nat)
    requires Remembers(s, f, last, idle)
    requires f in s.agent.base ==> s.agent.base[f].aging == idle <= AGING_LIMIT
    requires var s' := Apply(order, s, step);
             && f in s'.agent.base
             && Remembers(s', f, NextReading(s, step, f, last), NextIdle(s, step, f, last, idle))
             && s'.agent.base[f].aging <= AGING_LIMIT
    ensures Apply(order, s, step).agent.base[f].aging == NextIdle(s, step, f, last, idle) <= AGING_LIMIT
  {
    hide Apply, Truncated;
    TruncatedNext(idle);
    TruncatedNext(NextIdle(s, step, f, last, idle));
  }

  lemma PromptWithinLimit(order: DiffOrder, run: Run, f: V4Flow)
    requires Legal(order, run) && Prompt(order, run) && f in At(order, run).agent.base
    ensures At(order, run).agent.base[f].aging <= AGING_LIMIT
  {
    hide Apply;
    PromptBatchesAreCurrent(order, run);
  }

  /** In a prompt run no refreshed entry is deleted: a batch removes flows idle for exactly three scans. */
  lemma PromptDeletesIdleFlowsOnly(order: DiffOrder, run: Run, step: Step, f: V4Flow)
    requires Legal(order, Then(run, step)) && Prompt(order, run) && step.DeleteStep?
    ensures f in Reaped(At(order, run), step).flows ==>
              f in At(order, run).agent.base && IdleScans(order, run, f) == 3
  {
    hide Apply;
    PromptBatchesAreCurrent(order, run);
    if f in Reaped(At(order, run), step).flows {
      PromptAgingIsExact(order, run, f);
    }
  }

  // ---------------------------------------------------------------- overtaken batches

  /**
   Without promptness the guarantee fails, and this is how: a scan that refreshes a flow named in
   a pending batch does not take it out of that batch, so the batch deletes the refreshed entry.
   */
  lemma OvertakenBatchDeletesRefreshed(order: DiffOrder, run: Run, visits: seq<Visit>, which: nat, f: V4Flow)
    requires Legal(order, Then(run, ScanStep(visits)))
    requires which < |At(order, run).pending| && f in At(order, run).pending[which].flows
    requires f in At(order, run).kernel && !IdleAt(At(order, run), f)
    ensures var scanned := Then(run, ScanStep(visits));
            var reaped := Then(scanned, DeleteStep(which, {}));
            && Legal(order, reaped)
            && f in At(order, scanned).agent.base && IdleScans(order, scanned, f) == 0
            && f !in At(order, reaped).agent.base && f !in At(order, reaped).kernel
  {
    hide Scan, Apply, NextReading, NextIdle;
    var s := At(order, run);
    var scanned := Then(run, ScanStep(visits));
    SnapshotsAreLive(order, run);
    AgingCountsIdleScans(order, run, f);
    MovedFlowIsNotIdle(s, ScanStep(visits), f, LastReading(order, run, f), IdleScans(order, run, f));
    ScanApplied(order, s, visits);
    ScanFlow(order, s, visits, f);
    var s' := At(order, scanned);
    assert s'.pending[which] == s.pending[which];
    DeleteFlow(order, s', DeleteStep(which, {}), f);
  }

  lemma MovedFlowIsNotIdle(s: System, step: Step, f: V4Flow, last: Option<FlowStats>, idle: nat)
    requires step.ScanStep? && Remembers(s, f, last, idle) && f in s.kernel && !IdleAt(s, f)
    ensures NextIdle(s, step, f, last, idle) == 0
  {}

  function Repeat(run: Run, step: Step, n: nat): Run {
    if n == 0 then run else Then(Repeat(run, step, n - 1), step)
  }

  /** One packet, then scans that find nothing new. */
  function QuietRun(v: Visit, dir: Direction, n: nat): Run {
    Repeat(Then(Boot, Packet(Normalized(v.flow, dir), dir, 100)), ScanStep([v]), n)
  }

  lemma {:induction false} QuietRunAges(order: DiffOrder, v: Visit, dir: Direction, n: nat)
    requires v.value == Hit(dir, 100) && n <= 0x100
    ensures var s := At(order, QuietRun(v, dir, n));
            && Legal(order, QuietRun(v, dir, n))
            && s.kernel == map[v.flow := v.value] && |s.pending| == n
            && (n > 0 ==> v.flow in s.agent.base && s.agent.base[v.flow].stats == v.value
                          && s.agent.base[v.flow].aging == n - 1)
            && (n == 0 ==> v.flow !in s.agent.base)
            && (forall i :: 3 <= i < n ==> v.flow in s.pending[i].flows)
  {
    hide Scan, Apply, Hit, Covers;
    if n == 0 {
      QuietStart(order, v, dir);
    } else {
      var before := QuietRun(v, dir, n - 1);
      QuietRunAges(order, v, dir, n - 1);
      var s := At(order, before);
      CoversOne(s.kernel, v);
      SnapshotsAreLive(order, before);
      ScanFlow(order, s, [v], v.flow);
      ScanApplied(order, s, [v]);
    }
  }

  lemma QuietStart(order: DiffOrder, v: Visit, dir: Direction)
    requires v.value == Hit(dir, 100)
    ensures var first := Then(Boot, Packet(Normalized(v.flow, dir), dir, 100));
            Legal(order, first) && At(order, first) == System(map[v.flow := v.value], NEW_AGENT, [], 0)
  {
    hide Hit, AddStats;
    ConversationSharesKey(v.flow, v.flow);
    var first := Then(Boot, Packet(Normalized(v.flow, dir), dir, 100));
    assert first.before == Boot;
  }

  /** A reachable instance: four quiet scans queue the flow, a packet and a fifth scan refresh it, the old batch deletes it. */
  lemma RefreshedFlowCanBeDeleted(order: DiffOrder, v: Visit, dir: Direction, len: uint32) returns (scanned: Run)
    requires v.value == Hit(dir, 100)
    ensures var reaped := Then(scanned, DeleteStep(3, {}));
            && Legal(order, reaped)
            && v.flow in At(order, scanned).agent.base && IdleScans(order, scanned, v.flow) == 0
            && v.flow !in At(order, reaped).agent.base
  {
    hide Apply, QuietRun, Legal, AddStats, Hit, IdleScans;
    var quiet := QuietRun(v, dir, 4);
    QuietRunAges(order, v, dir, 4);
    var hit := Then(quiet, Packet(Normalized(v.flow, dir), dir, len));
    ConversationSharesKey(v.flow, v.flow);
    PacketOnOnlyFlow(order, At(order, quiet), hit.step, v.flow);
    var visit := Visit(v.flow, AddStats(v.value, Hit(dir, len)), v.target);
    LegalRound(order, quiet, hit.step, visit);
    OvertakenBatchDeletesRefreshed(order, hit, [visit], 3, v.flow);
    scanned := Then(hit, ScanStep([visit]));
  }

  lemma PacketOnOnlyFlow(order: DiffOrder, s: System, step: Step, f: V4Flow)
    requires step.Packet? && Normalized(step.tuple, step.dir) == f && s.kernel.Keys == {f}
    ensures var s' := Apply(order, s, step);
            && s'.kernel == map[f := AddStats(s.kernel[f], Hit(step.dir, step.len))]
            && s'.agent == s.agent && s'.pending == s.pending && s'.kernel[f] != s.kernel[f]
  {
    hide Scan;
    var hit := Hit(step.dir, step.len);
    var packets := if step.dir == Ingress then OutPackets else InPackets;
    assert hit.Get(packets) == 1;
    assert AddStats(s.kernel[f], hit).Get(packets) == Mod64(s.kernel[f].Get(packets) + 1);
  }

  lemma LegalRound(order: DiffOrder, run: Run, step: Step, v: Visit)
    requires Legal(order, run) && step.Packet?
    requires At(order, Then(run, step)).kernel == map[v.flow := v.value]
    ensures Legal(order, Then(Then(run, step), ScanStep([v])))
  {
    hide Apply, Covers;
    CoversOne(At(order, Then(run, step)).kernel, v);
  }

  lemma CoversOne(kernel: FlowMap<uint32>, v: Visit)
    requires kernel == map[v.flow := v.value]
    ensures Covers([v], kernel)
  {
    assert [v][0] == v && Visited([v], v.flow);
  }

  // ---------------------------------------------------------------- aggregates

  /** How many scans in a row, up to now, credited nothing to `slot`. */
  function UncreditedScans(order: DiffOrder, run: Run, slot: Slot): nat {
    match run
    case Boot => 0
    case Then(before, step) =>
      var s := At(order, before);
      match step
      case Packet(_, _, _) => UncreditedScans(order, before, slot)
      case ScanStep(visits) => if Touched(s.agent.base, slot, visits) then 0 else UncreditedScans(order, before, slot) + 1
      case DeleteStep(_, _) => UncreditedScans(order, before, slot)
  }

  /** The aging counter of an aggregate counts the scans since its last credit, modulo 256. */
  lemma {:induction false} AggregateAging(order: DiffOrder, run: Run, slot: Slot)
    requires Legal(order, run)
    ensures Live(At(order, run).agent.aggs, slot) ==>
              Get(At(order, run).agent.aggs, slot).aging == Truncated(UncreditedScans(order, run, slot))
  {
    hide Scan, Delete, Live, Get, Touched, StampsBelow, Truncated, Older;
    TruncatedNext(0);
    if run.Then? {
      AggregateAging(order, run.before, slot);
      TruncatedNext(UncreditedScans(order, run.before, slot));
      StampsAreOld(order, run.before);
      var s := At(order, run.before);
      match run.step
      case Packet(_, _, _) => PacketFlow(order, s, run.step, run.step.tuple);
      case ScanStep(visits) => ScanEffect(order, s.agent, visits, s.scans + 1, slot, OutBytes);
      case DeleteStep(which, _) => DeleteEffect(s.agent, s.pending[which], slot);
    } else {
      NothingLiveAtBoot(slot);
    }
  }

  lemma NothingLiveAtBoot(slot: Slot)
    ensures !Live(BOOTED.agent.aggs, slot)
  {}
}
