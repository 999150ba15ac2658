/**
 When is a delayed delete safe? A batch is safe while everything it names is still idle. Over
 every interleaving this holds throughout if and only if no step exposes something a pending batch
 names, by refreshing it or by bringing its key back; prompt runs are one way to ensure it.
 */
module DeleteSafety {
  import opened Statistics
  import opened Flows
  import opened KernelMap
  import opened Agent
  import opened Pipeline
  import opened Aging

  // ---------------------------------------------------------------- flows

  predicate NamedBy(pending: seq<Batch>, f: V4Flow) {
    exists i :: 0 <= i < |pending| && f in pending[i].flows
  }

  /** Whatever batch runs next deletes only kernel entries the agent remembers and has found idle for three scans. */
  ghost predicate FlowsSafeNow(order: DiffOrder, run: Run) {
    var s := At(order, run);
    forall f :: NamedBy(s.pending, f) && f in s.kernel ==> f in s.agent.base && IdleScans(order, run, f) >= 3
  }

  /** So it has been after every step of the run. */
  ghost predicate FlowDeletesSafe(order: DiffOrder, run: Run) {
    FlowsSafeNow(order, run) && (run.Then? ==> FlowDeletesSafe(order, run.before))
  }

  /**
   The step leaves a flow of a pending batch in the kernel map without three idle scans behind it: a
   scan finds it new or moved, a packet brings back its absent key, or its kernel delete fails while
   another batch still names it.
   */
  predicate Exposes(s: System, step: Step, f: V4Flow) {
    match step
    case Packet(tuple, dir, _) => Normalized(tuple, dir) == f && NamedBy(s.pending, f) && f !in s.kernel && !Rejected(s.kernel, f)
    case ScanStep(_) => NamedBy(s.pending, f) && f in s.kernel && !IdleAt(s, f)
    case DeleteStep(which, failing) =>
      && which < |s.pending| && f in s.pending[which].flows && f in failing && f in s.kernel
      && NamedBy(Remaining(s.pending, which), f)
  }

  ghost predicate ExposesSome(s: System, step: Step) {
    exists f :: Exposes(s, step, f)
  }

  ghost predicate NothingExposed(order: DiffOrder, run: Run) {
    run.Then? ==> NothingExposed(order, run.before) && !ExposesSome(At(order, run.before), run.step)
  }

  /** What a step leaves pending. */
  lemma PendingNext(order: DiffOrder, s: System, step: Step, f: V4Flow)
    requires step.DeleteStep? ==> step.which < |s.pending|
    ensures var s' := Apply(order, s, step);
            match step
            case Packet(_, _, _) => s'.pending == s.pending
            case ScanStep(visits) =>
              NamedBy(s'.pending, f) <==> NamedBy(s.pending, f) || f in Scan(order, s.agent, visits, s.scans + 1).batch.flows
            case DeleteStep(which, _) => s'.pending == Remaining(s.pending, which) && (NamedBy(s'.pending, f) ==> NamedBy(s.pending, f))
  {
    hide Scan, Delete, Record;
    var s' := Apply(order, s, step);
    if step.ScanStep? {
      var n := |s.pending|;
      assert s'.pending[..n] == s.pending;
      if NamedBy(s.pending, f) {
        var i :| 0 <= i < n && f in s.pending[i].flows;
        assert f in s'.pending[i].flows;
      }
      assert f in s'.pending[n].flows ==> NamedBy(s'.pending, f);
    }
  }

  lemma FlowsSafeAtBoot(order: DiffOrder)
    ensures FlowsSafeNow(order, Boot)
  {}

  /** One step, for one flow with its history `last` and `idle`. */
  lemma SafeStep(order: DiffOrder, s: System, step: Step, f: V4Flow, last: Option<FlowStats>, idle: nat)
    requires BaseWithinKernel(s) && Remembers(s, f, last, idle) && !Exposes(s, step, f)
    requires NamedBy(s.pending, f) && f in s.kernel ==> f in s.agent.base && idle >= 3
    requires step.ScanStep? ==> Covers(step.visits, s.kernel)
    requires step.ScanStep? && f in Scan(order, s.agent, step.visits, s.scans + 1).batch.flows ==> NextIdle(s, step, f, last, idle) >= 3
    requires step.DeleteStep? ==> step.which < |s.pending|
    ensures var s' := Apply(order, s, step);
            NamedBy(s'.pending, f) && f in s'.kernel ==> f in s'.agent.base && NextIdle(s, step, f, last, idle) >= 3
  {
    hide Apply, Scan, NamedBy, Remaining, Rejected, Truncated, Covers;
    PendingNext(order, s, step, f);
    match step
    case Packet(_, _, _) => PacketFlow(order, s, step, f);
    case ScanStep(visits) =>
      ScanApplied(order, s, visits);
      ScanFlow(order, s, visits, f);
    case DeleteStep(_, _) => DeleteFlow(order, s, step, f);
  }

  lemma SafeNext(order: DiffOrder, run: Run, f: V4Flow)
    requires run.Then? && Legal(order, run)
    requires FlowsSafeNow(order, run.before) && !Exposes(At(order, run.before), run.step, f)
    requires NamedBy(At(order, run).pending, f) && f in At(order, run).kernel
    ensures f in At(order, run).agent.base && IdleScans(order, run, f) >= 3
  {
    hide Apply, Scan, NamedBy, NextIdle, NextReading, Exposes, Remembers, Covers;
    var s := At(order, run.before);
    SnapshotsAreLive(order, run.before);
    AgingCountsIdleScans(order, run.before, f);
    if run.step.ScanStep? {
      QueuedFlowsWereIdle(order, run.before, run.step.visits, f);
    }
    SafeStep(order, s, run.step, f, LastReading(order, run.before, f), IdleScans(order, run.before, f));
  }

  /** An exposed flow is named and in the kernel map, but new to the agent or not idle. */
  lemma ExposureIsUnsafe(order: DiffOrder, run: Run)
    requires run.Then? && Legal(order, run) && ExposesSome(At(order, run.before), run.step)
    ensures !FlowsSafeNow(order, run)
  {
    hide Apply, Scan, NamedBy, NextIdle, NextReading, Remaining, Rejected;
    var s := At(order, run.before);
    var f :| Exposes(s, run.step, f);
    SnapshotsAreLive(order, run.before);
    PendingNext(order, s, run.step, f);
    match run.step {
      case Packet(_, _, _) => PacketFlow(order, s, run.step, f);
      case ScanStep(visits) =>
        AgingCountsIdleScans(order, run.before, f);
        MovedFlowIsNotIdle(s, run.step, f, LastReading(order, run.before, f), IdleScans(order, run.before, f));
        ScanApplied(order, s, visits);
        ScanFlow(order, s, visits, f);
        assert IdleScans(order, run, f) == 0;
      case DeleteStep(_, _) => DeleteFlow(order, s, run.step, f);
    }
    assert NamedBy(At(order, run).pending, f) && f in At(order, run).kernel;
  }

  lemma SafeAfter(order: DiffOrder, run: Run)
    requires run.Then? && Legal(order, run)
    requires FlowsSafeNow(order, run.before) && !ExposesSome(At(order, run.before), run.step)
    ensures FlowsSafeNow(order, run)
  {
    hide Apply, NamedBy, Exposes;
    forall f | NamedBy(At(order, run).pending, f) && f in At(order, run).kernel
      ensures f in At(order, run).agent.base && IdleScans(order, run, f) >= 3
    {
      SafeNext(order, run, f);
    }
  }

  /**
   Under every interleaving: each batch, whenever it runs, deletes only kernel entries that the agent
   remembers and has found idle for three scans, if and only if no step exposes a named flow.
   */
  lemma {:induction false} FlowDeletesSafeIffNothingExposed(order: DiffOrder, run: Run)
    requires Legal(order, run)
    ensures FlowDeletesSafe(order, run) <==> NothingExposed(order, run)
  {
    hide Apply, FlowsSafeNow, ExposesSome;
    if run.Then? {
      FlowDeletesSafeIffNothingExposed(order, run.before);
      if ExposesSome(At(order, run.before), run.step) {
        ExposureIsUnsafe(order, run);
      } else if FlowDeletesSafe(order, run.before) {
        assert FlowsSafeNow(order, run.before);
        SafeAfter(order, run);
      }
    } else {
      FlowsSafeAtBoot(order);
    }
  }

  /** Running every batch before the next scan is enough: the one batch names only flows the agent remembers. */
  lemma {:induction false} PromptFlowDeletesAreSafe(order: DiffOrder, run: Run)
    requires Legal(order, run) && Prompt(order, run)
    ensures NothingExposed(order, run) && FlowDeletesSafe(order, run)
  {
    hide Apply, ExposesSome, BatchIsCurrent;
    if run.Then? {
      PromptFlowDeletesAreSafe(order, run.before);
      PromptBatchesAreCurrent(order, run.before);
      SnapshotsAreLive(order, run.before);
      PromptStepExposesNothing(At(order, run.before), run.step);
    }
    FlowDeletesSafeIffNothingExposed(order, run);
  }

  lemma PromptStepExposesNothing(s: System, step: Step)
    requires BatchIsCurrent(s) && BaseWithinKernel(s)
    requires step.ScanStep? ==> s.pending == []
    ensures !ExposesSome(s, step)
  {}

  // ---------------------------------------------------------------- unread traffic

  /** Whatever batch runs next deletes only kernel entries whose counters have not moved since they were read. */
  ghost predicate NothingUnreadNow(s: System) {
    forall f :: NamedBy(s.pending, f) && f in s.kernel ==> IdleAt(s, f)
  }

  ghost predicate NothingUnread(order: DiffOrder, run: Run) {
    NothingUnreadNow(At(order, run)) && (run.Then? ==> NothingUnread(order, run.before))
  }

  /** A packet of a flow that a pending batch names is counted, or a failed delete leaves one to another batch. */
  predicate Stirs(s: System, step: Step, f: V4Flow) {
    match step
    case Packet(tuple, dir, _) => Normalized(tuple, dir) == f && NamedBy(s.pending, f) && !Rejected(s.kernel, f)
    case ScanStep(_) => false
    case DeleteStep(_, _) => Exposes(s, step, f)
  }

  ghost predicate StirsSome(s: System, step: Step) {
    exists f :: Stirs(s, step, f)
  }

  ghost predicate NothingStirred(order: DiffOrder, run: Run) {
    run.Then? ==> NothingStirred(order, run.before) && !StirsSome(At(order, run.before), run.step)
  }

  lemma UnreadNext(order: DiffOrder, s: System, step: Step, f: V4Flow)
    requires BaseWithinKernel(s) && (NamedBy(s.pending, f) && f in s.kernel ==> IdleAt(s, f))
    requires step.ScanStep? ==> Covers(step.visits, s.kernel)
    requires step.DeleteStep? ==> step.which < |s.pending|
    ensures var s' := Apply(order, s, step);
            NamedBy(s'.pending, f) && f in s'.kernel ==> (IdleAt(s', f) <==> !Stirs(s, step, f))
    ensures var s' := Apply(order, s, step); Stirs(s, step, f) ==> NamedBy(s'.pending, f) && f in s'.kernel
  {
    hide Apply, Scan, NamedBy, Remaining, Covers, AddStats, Hit, Rejected;
    PendingNext(order, s, step, f);
    match step
    case Packet(_, _, _) =>
      PacketFlow(order, s, step, f);
      if f in s.kernel {
        HitMoves(s.kernel[f], step.dir, step.len);
      }
    case ScanStep(visits) =>
      ScanApplied(order, s, visits);
      ScanFlow(order, s, visits, f);
    case DeleteStep(_, _) => DeleteFlow(order, s, step, f);
  }

  lemma HitMoves(x: FlowStats, dir: Direction, len: uint32)
    ensures AddStats(x, Hit(dir, len)) != x
  {
    var w := PacketCounter(dir);
    assert Hit(dir, len).Get(w) == 1;
    assert AddStats(x, Hit(dir, len)).Get(w) == Mod64(x.Get(w) + 1);
  }

  lemma UnreadAfter(order: DiffOrder, s: System, step: Step)
    requires BaseWithinKernel(s) && NothingUnreadNow(s)
    requires step.ScanStep? ==> Covers(step.visits, s.kernel)
    requires step.DeleteStep? ==> step.which < |s.pending|
    ensures NothingUnreadNow(Apply(order, s, step)) <==> !StirsSome(s, step)
  {
    hide Apply, NamedBy, Stirs, IdleAt, Covers;
    forall f
      ensures var s' := Apply(order, s, step);
              && (NamedBy(s'.pending, f) && f in s'.kernel ==> (IdleAt(s', f) <==> !Stirs(s, step, f)))
              && (Stirs(s, step, f) ==> NamedBy(s'.pending, f) && f in s'.kernel)
    {
      UnreadNext(order, s, step, f);
    }
    var s' := Apply(order, s, step);
    if f :| Stirs(s, step, f) {
      assert NamedBy(s'.pending, f) && f in s'.kernel && !IdleAt(s', f);
    }
  }

  /** Under every interleaving: no batch ever deletes traffic that no scan has read iff nothing stirs a named flow. */
  lemma {:induction false} NothingUnreadIffNothingStirred(order: DiffOrder, run: Run)
    requires Legal(order, run)
    ensures NothingUnread(order, run) <==> NothingStirred(order, run)
  {
    hide Apply, NothingUnreadNow, StirsSome, Covers;
    if run.Then? {
      NothingUnreadIffNothingStirred(order, run.before);
      SnapshotsAreLive(order, run.before);
      if NothingUnread(order, run.before) {
        assert NothingUnreadNow(At(order, run.before));
        UnreadAfter(order, At(order, run.before), run.step);
      }
    } else {
      NothingPendingAtBoot();
    }
  }

  lemma NothingPendingAtBoot()
    ensures NothingUnreadNow(BOOTED)
  {}

  // ---------------------------------------------------------------- two batches for one flow

  /** Five quiet scans queue a flow twice; the first batch deletes it, a packet brings it back, the second deletes it unread. */
  function TwiceQueued(v: Visit, dir: Direction): Run {
    Then(Then(QuietRun(v, dir, 5), DeleteStep(3, {})), Packet(Normalized(v.flow, dir), dir, 100))
  }

  lemma UnreadEntryCanBeDeleted(order: DiffOrder, v: Visit, dir: Direction)
    requires v.value == Hit(dir, 100)
    ensures var revived := TwiceQueued(v, dir);
            var reaped := Then(revived, DeleteStep(3, {}));
            && Legal(order, reaped)
            && v.flow in At(order, revived).kernel && v.flow !in At(order, revived).agent.base
            && v.flow !in At(order, reaped).kernel
  {
    hide Apply, Legal, Hit, QuietRun;
    QuietRunAges(order, v, dir, 5);
    ConversationSharesKey(v.flow, v.flow);
    var quiet := QuietRun(v, dir, 5);
    var first := DeleteStep(3, {});
    var s := At(order, quiet);
    DeleteFlow(order, s, first, v.flow);
    var gone := At(order, Then(quiet, first));
    forall f ensures f !in gone.kernel {
      DeleteFlow(order, s, first, f);
    }
    PacketFlow(order, gone, TwiceQueued(v, dir).step, v.flow);
    TwiceQueuedIsLegal(order, v, dir);
    DeleteFlow(order, At(order, TwiceQueued(v, dir)), DeleteStep(3, {}), v.flow);
  }

  lemma TwiceQueuedIsLegal(order: DiffOrder, v: Visit, dir: Direction)
    requires v.value == Hit(dir, 100)
    ensures Legal(order, Then(TwiceQueued(v, dir), DeleteStep(3, {})))
    ensures var pending := At(order, TwiceQueued(v, dir)).pending; 3 < |pending| && v.flow in pending[3].flows
  {
    hide Apply, QuietRun;
    QuietRunAges(order, v, dir, 5);
    var quiet := QuietRun(v, dir, 5);
    DeleteFlow(order, At(order, quiet), DeleteStep(3, {}), v.flow);
    PacketFlow(order, At(order, Then(quiet, DeleteStep(3, {}))), TwiceQueued(v, dir).step, v.flow);
    assert Legal(order, Then(quiet, DeleteStep(3, {})));
    assert Legal(order, TwiceQueued(v, dir));
  }

  // ---------------------------------------------------------------- aggregates

  predicate SlotNamedBy(pending: seq<Batch>, slot: Slot) {
    exists i :: 0 <= i < |pending| && Queued(pending[i], slot)
  }

  /** Whatever batch runs next deletes only aggregates that three scans have not credited. */
  ghost predicate SlotsSafeNow(order: DiffOrder, run: Run) {
    var s := At(order, run);
    forall slot :: SlotNamedBy(s.pending, slot) && Live(s.agent.aggs, slot) ==> UncreditedScans(order, run, slot) >= 3
  }

  ghost predicate SlotDeletesSafe(order: DiffOrder, run: Run) {
    SlotsSafeNow(order, run) && (run.Then? ==> SlotDeletesSafe(order, run.before))
  }

  /** The step is a scan that credits an aggregate a pending batch names. */
  ghost predicate CreditsNamed(s: System, step: Step) {
    step.ScanStep? && exists slot :: SlotNamedBy(s.pending, slot) && Touched(s.agent.base, slot, step.visits)
  }

  ghost predicate NoNamedSlotCredited(order: DiffOrder, run: Run) {
    run.Then? ==> NoNamedSlotCredited(order, run.before) && !CreditsNamed(At(order, run.before), run.step)
  }

  lemma SlotPendingNext(order: DiffOrder, s: System, step: Step, slot: Slot)
    requires step.DeleteStep? ==> step.which < |s.pending|
    ensures var s' := Apply(order, s, step);
            match step
            case Packet(_, _, _) => s'.pending == s.pending
            case ScanStep(visits) =>
              SlotNamedBy(s'.pending, slot) <==>
                SlotNamedBy(s.pending, slot) || Queued(Scan(order, s.agent, visits, s.scans + 1).batch, slot)
            case DeleteStep(which, _) => SlotNamedBy(s'.pending, slot) ==> SlotNamedBy(s.pending, slot)
  {
    hide Scan, Delete, Record, Queued;
    var s' := Apply(order, s, step);
    if step.ScanStep? {
      var n := |s.pending|;
      assert s'.pending[..n] == s.pending;
      if SlotNamedBy(s.pending, slot) {
        var i :| 0 <= i < n && Queued(s.pending[i], slot);
        assert Queued(s'.pending[i], slot);
      }
      assert Queued(s'.pending[n], slot) ==> SlotNamedBy(s'.pending, slot);
    }
  }

  lemma SlotsSafeAtBoot(order: DiffOrder)
    ensures SlotsSafeNow(order, Boot)
  {}

  lemma SlotSafeNext(order: DiffOrder, run: Run, slot: Slot)
    requires run.Then? && Legal(order, run)
    requires SlotsSafeNow(order, run.before) && !CreditsNamed(At(order, run.before), run.step)
    requires SlotNamedBy(At(order, run).pending, slot) && Live(At(order, run).agent.aggs, slot)
    ensures UncreditedScans(order, run, slot) >= 3
  {
    hide Apply, Scan, SlotNamedBy, Live, Queued, Touched, Delete;
    var s := At(order, run.before);
    SlotPendingNext(order, s, run.step, slot);
    match run.step
    case Packet(_, _, _) => PacketFlow(order, s, run.step, ANY_FLOW);
    case ScanStep(visits) =>
      ScanApplied(order, s, visits);
      ScannedSlot(order, run.before, visits, slot);
    case DeleteStep(_, _) =>
      DeleteFlow(order, s, run.step, ANY_FLOW);
      DeleteEffect(s.agent, s.pending[run.step.which], slot);
  }

  /** A scan queues only aggregates that three scans have not credited, and credited ones are alive. */
  lemma ScannedSlot(order: DiffOrder, run: Run, visits: seq<Visit>, slot: Slot)
    requires Legal(order, Then(run, ScanStep(visits)))
    ensures var s := At(order, run);
            var r := Scan(order, s.agent, visits, s.scans + 1);
            && (Live(r.agent.aggs, slot) <==> Live(s.agent.aggs, slot) || Touched(s.agent.base, slot, visits))
            && (Queued(r.batch, slot) ==> !Touched(s.agent.base, slot, visits) && UncreditedScans(order, run, slot) >= 2)
  {
    hide Apply, Scan, Live, Get, Queued, Touched, StampsBelow, Truncated, UncreditedScans;
    var s := At(order, run);
    StampsAreOld(order, run);
    AggregateAging(order, run, slot);
    ScanEffect(order, s.agent, visits, s.scans + 1, slot, OutBytes);
    TruncatedNext(UncreditedScans(order, run, slot));
    TruncatedNext(UncreditedScans(order, run, slot) + 1);
  }

  lemma SlotsSafeAfter(order: DiffOrder, run: Run)
    requires run.Then? && Legal(order, run)
    requires SlotsSafeNow(order, run.before) && !CreditsNamed(At(order, run.before), run.step)
    ensures SlotsSafeNow(order, run)
  {
    hide Apply, SlotNamedBy, CreditsNamed, Live;
    forall slot | SlotNamedBy(At(order, run).pending, slot) && Live(At(order, run).agent.aggs, slot)
      ensures UncreditedScans(order, run, slot) >= 3
    {
      SlotSafeNext(order, run, slot);
    }
  }

  lemma CreditIsUnsafe(order: DiffOrder, run: Run)
    requires run.Then? && Legal(order, run) && CreditsNamed(At(order, run.before), run.step)
    ensures !SlotsSafeNow(order, run)
  {
    hide Apply, Scan, SlotNamedBy, Live, Queued, Touched;
    var s := At(order, run.before);
    var slot :| SlotNamedBy(s.pending, slot) && Touched(s.agent.base, slot, run.step.visits);
    SlotPendingNext(order, s, run.step, slot);
    ScanApplied(order, s, run.step.visits);
    ScannedSlot(order, run.before, run.step.visits, slot);
    assert SlotNamedBy(At(order, run).pending, slot) && Live(At(order, run).agent.aggs, slot);
    assert UncreditedScans(order, run, slot) == 0;
  }

  /** The same for the three aggregate maps: safe throughout iff no scan credits what a pending batch names. */
  lemma {:induction false} SlotDeletesSafeIffNotOvertaken(order: DiffOrder, run: Run)
    requires Legal(order, run)
    ensures SlotDeletesSafe(order, run) <==> NoNamedSlotCredited(order, run)
  {
    hide Apply, SlotsSafeNow, CreditsNamed;
    if run.Then? {
      SlotDeletesSafeIffNotOvertaken(order, run.before);
      if CreditsNamed(At(order, run.before), run.step) {
        CreditIsUnsafe(order, run);
      } else if SlotDeletesSafe(order, run.before) {
        assert SlotsSafeNow(order, run.before);
        SlotsSafeAfter(order, run);
      }
    } else {
      SlotsSafeAtBoot(order);
    }
  }

  lemma {:induction false} PromptSlotDeletesAreSafe(order: DiffOrder, run: Run)
    requires Legal(order, run) && Prompt(order, run)
    ensures NoNamedSlotCredited(order, run) && SlotDeletesSafe(order, run)
  {
    hide Apply;
    if run.Then? {
      PromptSlotDeletesAreSafe(order, run.before);
    }
    SlotDeletesSafeIffNotOvertaken(order, run);
  }
}
