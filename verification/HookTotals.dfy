/**
 Aggregate totals against the hooks: pooling the per-flow ledgers over all flows that resolve to
 an aggregate, and from there to the packets a pod or service sent and received.
 */
module HookTotals {
  import opened Statistics
  import opened Flows
  import opened Names
  import opened Gauges
  import opened KernelMap
  import opened Agent
  import opened Pipeline
  import opened Accounting
  import opened Liveness
  import opened Aggregates

  /** Every key some packet of the run was counted under. */
  function FlowsOf(run: Run): set<V4Flow> {
    match run
    case Boot => {}
    case Then(before, step) =>
      if step.Packet? then FlowsOf(before) + {Normalized(step.tuple, step.dir)} else FlowsOf(before)
  }

  lemma {:induction false} KernelWithinFlows(order: DiffOrder, run: Run)
    requires Legal(order, run)
    ensures At(order, run).kernel.Keys <= FlowsOf(run)
  {
    hide Scan, Delete, Hit, AddStats;
    if run.Then? {
      KernelWithinFlows(order, run.before);
    }
  }

  /** What the hooks saw of counter `w` of `slot`, oriented packet by packet. */
  function HitsTo(run: Run, cls: Resolution, slot: Slot, w: Counter): int {
    match run
    case Boot => 0
    case Then(before, step) =>
      HitsTo(before, cls, slot, w)
      + if step.Packet? then Orient(RouteOf(cls(Normalized(step.tuple, step.dir))), slot, Hit(step.dir, step.len), w) else 0
  }

  /** Everything ever credited to `slot`, across deletions. */
  ghost function EverCredited(order: DiffOrder, run: Run, slot: Slot, w: Counter): int {
    match run
    case Boot => 0
    case Then(before, step) =>
      EverCredited(order, before, slot, w)
      + if step.ScanStep? then SumSeq(step.visits, Contributions(order, At(order, before).agent.base, slot, w)) else 0
  }

  // ---------------------------------------------------------------- pooling per-flow amounts

  /** The share of `slot` in a per-flow, per-counter amount. */
  ghost function ShareOf(cls: Resolution, slot: Slot, w: Counter, amount: (V4Flow, Counter) -> int): V4Flow -> int {
    (f: V4Flow) => Share(RouteOf(cls(f)), slot, amount(f, w), amount(f, w.Mirror()))
  }

  /** That share summed over `flows`. */
  ghost function Pool(flows: set<V4Flow>, cls: Resolution, slot: Slot, w: Counter, amount: (V4Flow, Counter) -> int): int {
    SumSet(flows, ShareOf(cls, slot, w, amount))
  }

  lemma PoolPlus(flows: set<V4Flow>, cls: Resolution, slot: Slot, w: Counter,
                 a: (V4Flow, Counter) -> int, b: (V4Flow, Counter) -> int, c: (V4Flow, Counter) -> int)
    requires forall f, w' :: c(f, w') == a(f, w') + b(f, w')
    ensures Pool(flows, cls, slot, w, c) == Pool(flows, cls, slot, w, a) + Pool(flows, cls, slot, w, b)
  {
    hide RouteOf;
    SumSetPlus(flows, ShareOf(cls, slot, w, a), ShareOf(cls, slot, w, b), ShareOf(cls, slot, w, c));
  }

  lemma PoolZero(flows: set<V4Flow>, cls: Resolution, slot: Slot, w: Counter, a: (V4Flow, Counter) -> int)
    requires forall f, w' :: f in flows && Feeder(cls, f, slot) ==> a(f, w') == 0
    ensures Pool(flows, cls, slot, w, a) == 0
  {
    hide RouteOf;
    SumSetSupport(flows, {}, ShareOf(cls, slot, w, a));
  }

  lemma PoolSame(flows: set<V4Flow>, cls: Resolution, slot: Slot, w: Counter,
                 a: (V4Flow, Counter) -> int, b: (V4Flow, Counter) -> int)
    requires forall f, w' :: f in flows && Feeder(cls, f, slot) ==> a(f, w') == b(f, w')
    ensures Pool(flows, cls, slot, w, a) == Pool(flows, cls, slot, w, b)
  {
    hide RouteOf;
    SumSetAgree(flows, ShareOf(cls, slot, w, a), ShareOf(cls, slot, w, b));
  }

  /** An amount that is zero everywhere but at one flow. */
  lemma PoolSingle(flows: set<V4Flow>, cls: Resolution, slot: Slot, w: Counter, a: (V4Flow, Counter) -> int, f: V4Flow)
    requires f in flows
    requires forall g, w' :: g != f ==> a(g, w') == 0
    ensures Pool(flows, cls, slot, w, a) == Share(RouteOf(cls(f)), slot, a(f, w), a(f, w.Mirror()))
  {
    hide RouteOf;
    SumSetTake(flows, f, ShareOf(cls, slot, w, a));
    SumSetSupport(flows - {f}, {}, ShareOf(cls, slot, w, a));
  }

  ghost function BookOf(order: DiffOrder, run: Run, col: Column): (V4Flow, Counter) -> int {
    (f: V4Flow, w: Counter) => Book(order, run, f, col, w)
  }

  ghost function PostingOf(order: DiffOrder, run: Run, step: Step, col: Column): (V4Flow, Counter) -> int {
    (f: V4Flow, w: Counter) => Posting(order, At(order, run), Orphan(order, run, f), step, f, col, w)
  }

  // ---------------------------------------------------------------- hooks and credits as pooled columns

  /** The packets the hooks saw for a slot are the pooled accepted columns. */
  lemma {:induction false} HitsArePooled(order: DiffOrder, run: Run, cls: Resolution, slot: Slot, w: Counter, flows: set<V4Flow>)
    requires FlowsOf(run) <= flows
    ensures HitsTo(run, cls, slot, w) == Pool(flows, cls, slot, w, BookOf(order, run, Accepted))
  {
    hide Pool, RouteOf, Share, Hit, At, Orphan;
    if run.Then? {
      var before := run.before;
      HitsArePooled(order, before, cls, slot, w, flows);
      var posting := PostingOf(order, before, run.step, Accepted);
      PoolPlus(flows, cls, slot, w, BookOf(order, before, Accepted), posting, BookOf(order, run, Accepted));
      if run.step.Packet? {
        PoolSingle(flows, cls, slot, w, posting, Normalized(run.step.tuple, run.step.dir));
      } else {
        PoolZero(flows, cls, slot, w, posting);
      }
    } else {
      PoolZero(flows, cls, slot, w, BookOf(order, run, Accepted));
    }
  }

  /** One scan's contributions to a slot are the pooled deltas of the flows it read. */
  lemma ScanContributionsPool(order: DiffOrder, run: Run, visits: seq<Visit>, cls: Resolution, slot: Slot, w: Counter, flows: set<V4Flow>)
    requires Covers(visits, At(order, run).kernel) && Resolved(visits, cls) && At(order, run).kernel.Keys <= flows
    ensures SumSeq(visits, Contributions(order, At(order, run).agent.base, slot, w))
            == Pool(flows, cls, slot, w, PostingOf(order, run, ScanStep(visits), Credited))
  {
    hide Orient, RouteOf, Share, ScanDelta, Contribution, At, Orphan;
    var s := At(order, run);
    var amount := PostingOf(order, run, ScanStep(visits), Credited);
    var share := ShareOf(cls, slot, w, amount);
    forall i | 0 <= i < |visits| ensures Contribution(order, s.agent.base, slot, w, visits[i]) == share(visits[i].flow) {
      ScanDeltaIsMerged(order, s, visits[i], slot, w);
      OrientIsShare(RouteOf(cls(visits[i].flow)), slot, ScanDelta(order, s, visits[i].flow), w);
    }
    SumOverKernel(visits, s.kernel, Contributions(order, s.agent.base, slot, w), share);
    forall f | f !in s.kernel ensures share(f) == 0 {
      ShareOfNothing(order, s, f, RouteOf(cls(f)), slot);
    }
    SumSetSupport(flows, s.kernel.Keys, share);
  }

  /** A per-visit sum over a covering scan is a sum over the kernel's keys, whatever the visiting order. */
  lemma SumOverKernel(visits: seq<Visit>, kernel: FlowMap<uint32>, f: Visit -> int, g: V4Flow -> int)
    requires Covers(visits, kernel)
    requires forall i :: 0 <= i < |visits| ==> f(visits[i]) == g(visits[i].flow)
    ensures SumSeq(visits, f) == SumSet(kernel.Keys, g)
  {
    var keys := seq(|visits|, i requires 0 <= i < |visits| => visits[i].flow);
    SumSeqIsSumSet(visits, f, keys, g);
    forall k ensures k in keys <==> k in kernel {
      assert k in kernel <==> Visited(visits, k);
      if i :| 0 <= i < |visits| && visits[i].flow == k {
        assert keys[i] == k;
      }
    }
    assert (set k | k in keys) == kernel.Keys;
  }

  lemma OrientIsShare(route: Route, slot: Slot, x: FlowStats, w: Counter)
    ensures Orient(route, slot, x, w) == Share(route, slot, x.Get(w), x.Get(w.Mirror()))
  {}

  lemma ShareOfNothing(order: DiffOrder, s: System, f: V4Flow, route: Route, slot: Slot)
    requires f !in s.kernel
    ensures ScanDelta(order, s, f) == ZERO && Share(route, slot, 0, 0) == 0
  {}

  lemma {:induction false} CreditsArePooled(order: DiffOrder, run: Run, cls: Resolution, slot: Slot, w: Counter, flows: set<V4Flow>)
    requires Legal(order, run) && FixedTables(run, cls) && FlowsOf(run) <= flows
    ensures EverCredited(order, run, slot, w) == Pool(flows, cls, slot, w, BookOf(order, run, Credited))
  {
    hide Pool, RouteOf, Share, Hit, Apply, Covers, Resolved, ScanDelta, Orphan;
    if run.Then? {
      var before := run.before;
      var s := At(order, before);
      CreditsArePooled(order, before, cls, slot, w, flows);
      KernelWithinFlows(order, before);
      var posting := PostingOf(order, before, run.step, Credited);
      PoolPlus(flows, cls, slot, w, BookOf(order, before, Credited), posting, BookOf(order, run, Credited));
      if run.step.ScanStep? {
        ScanContributionsPool(order, before, run.step.visits, cls, slot, w, flows);
      } else {
        PoolZero(flows, cls, slot, w, posting);
      }
    } else {
      PoolZero(flows, cls, slot, w, BookOf(order, run, Credited));
    }
  }

  // ---------------------------------------------------------------- hits against credits

  /** What of a flow's accepted traffic has not been credited, column by column. */
  function Outstanding(order: DiffOrder, run: Run, f: V4Flow, w: Counter): int {
    Book(order, run, f, Discarded, w) + Book(order, run, f, Overflowed, w) + Book(order, run, f, Skipped, w)
    + Awaiting(At(order, run), Orphan(order, run, f), f, w) - Book(order, run, f, Recounted, w)
  }

  ghost function OutstandingOf(order: DiffOrder, run: Run): (V4Flow, Counter) -> int {
    (f: V4Flow, w: Counter) => Outstanding(order, run, f, w)
  }

  /**
   Aggregate-level accounting over every run with fixed name tables: what the hooks saw for an
   aggregate is what it was ever credited, plus what is outstanding on the flows that feed it.
   */
  lemma AggregateAccounting(order: DiffOrder, run: Run, cls: Resolution, slot: Slot, w: Counter)
    requires Legal(order, run) && FixedTables(run, cls)
    ensures HitsTo(run, cls, slot, w)
            == EverCredited(order, run, slot, w) + Pool(FlowsOf(run), cls, slot, w, OutstandingOf(order, run))
  {
    hide Pool, At, Book, Awaiting, Orphan, HitsTo, EverCredited;
    var flows := FlowsOf(run);
    HitsArePooled(order, run, cls, slot, w, flows);
    CreditsArePooled(order, run, cls, slot, w, flows);
    forall f, w': Counter
      ensures Book(order, run, f, Accepted, w') == Book(order, run, f, Credited, w') + Outstanding(order, run, f, w')
    {
      TrafficIsAccountedFor(order, run, f, w');
    }
    PoolPlus(flows, cls, slot, w, BookOf(order, run, Credited), OutstandingOf(order, run), BookOf(order, run, Accepted));
  }

  /** No delete batch named `slot`. */
  predicate SlotStays(order: DiffOrder, run: Run, slot: Slot) {
    match run
    case Boot => true
    case Then(before, step) =>
      && SlotStays(order, before, slot)
      && (step.DeleteStep? && step.which < |At(order, before).pending| ==> !Queued(At(order, before).pending[step.which], slot))
  }

  /**
   The run ends with a scan, over fixed tables; of the flows that feed `slot` no packet was rejected,
   no counter wrapped, and none was deleted, nor was `slot`. Nothing is asked of any other flow.
   */
  ghost predicate FreshlyScanned(order: DiffOrder, run: Run, visits: seq<Visit>, cls: Resolution, slot: Slot) {
    var scanned := Then(run, ScanStep(visits));
    && Legal(order, scanned) && FixedTables(scanned, cls) && SlotStays(order, scanned, slot)
    && (forall f :: Feeder(cls, f, slot) ==> Undisturbed(order, scanned, f) && Exact(order, scanned, f))
  }

  lemma {:induction false} UndisturbedBooks(order: DiffOrder, run: Run, f: V4Flow, w: Counter)
    requires Undisturbed(order, run, f)
    ensures Book(order, run, f, Discarded, w) == 0 && Book(order, run, f, Recounted, w) == 0 && Orphan(order, run, f) == None
  {
    hide Apply, Hit;
    if run.Then? {
      UndisturbedBooks(order, run.before, f, w);
    }
  }

  lemma {:induction false} StayingSlotKeepsCredits(order: DiffOrder, run: Run, slot: Slot, w: Counter)
    requires SlotStays(order, run, slot)
    ensures Since(order, run, slot, w) == EverCredited(order, run, slot, w)
  {
    hide Apply, Contribution, Queued;
    if run.Then? {
      StayingSlotKeepsCredits(order, run.before, slot, w);
    }
  }

  /** Right after a scan nothing is uncredited. */
  lemma ScanLeavesNothing(order: DiffOrder, run: Run, visits: seq<Visit>, f: V4Flow, w: Counter)
    requires Legal(order, Then(run, ScanStep(visits)))
    ensures Uncredited(At(order, Then(run, ScanStep(visits))), f, w) == 0
  {
    hide Apply, Scan;
    SnapshotsAreLive(order, run);
    ScanApplied(order, At(order, run), visits);
    ScanFlow(order, At(order, run), visits, f);
  }

  // ---------------------------------------------------------------- as written, totals lag behind

  /** Right after a scan, of an undisturbed flow only what the written order skipped is outstanding. */
  lemma WrittenOutstanding(run: Run, visits: seq<Visit>, f: V4Flow, w: Counter)
    requires var scanned := Then(run, ScanStep(visits));
             Legal(OverwriteFirst, scanned) && Undisturbed(OverwriteFirst, scanned, f) && Exact(OverwriteFirst, scanned, f)
    ensures var scanned := Then(run, ScanStep(visits));
            Outstanding(OverwriteFirst, scanned, f, w) == Book(OverwriteFirst, scanned, f, Skipped, w)
  {
    hide Book, At, Legal, Orphan;
    UndisturbedBooks(OverwriteFirst, Then(run, ScanStep(visits)), f, w);
    ScanLeavesNothing(OverwriteFirst, run, visits, f, w);
  }

  /** A natural amount leaves nothing with a slot, in any counter, iff it is zero or the flow does not feed the slot. */
  lemma ShareVanishes(cls: Resolution, slot: Slot, f: V4Flow, amount: (V4Flow, Counter) -> int)
    requires forall w: Counter :: amount(f, w) >= 0
    ensures forall w :: ShareOf(cls, slot, w, amount)(f) >= 0
    ensures (forall w :: ShareOf(cls, slot, w, amount)(f) == 0) <==> (Feeder(cls, f, slot) ==> forall w :: amount(f, w) == 0)
  {
    hide RouteOf;
    assert forall w: Counter :: w.Mirror().Mirror() == w;
    if Feeder(cls, f, slot) && forall w :: ShareOf(cls, slot, w, amount)(f) == 0 {
      forall w ensures amount(f, w) == 0 {
        assert ShareOf(cls, slot, w, amount)(f) == 0;
        assert ShareOf(cls, slot, w.Mirror(), amount)(f) == 0;
      }
    }
  }

  lemma SkippedShare(run: Run, cls: Resolution, slot: Slot, f: V4Flow)
    requires Legal(OverwriteFirst, run) && (Feeder(cls, f, slot) ==> Exact(OverwriteFirst, run, f))
    ensures var skipped := BookOf(OverwriteFirst, run, Skipped);
            && (forall w :: ShareOf(cls, slot, w, skipped)(f) >= 0)
            && ((forall w :: ShareOf(cls, slot, w, skipped)(f) == 0)
                <==> (Feeder(cls, f, slot) ==> NeverMoved(OverwriteFirst, run, f)))
  {
    hide Legal, Exact, Book, NeverMoved, ShareOf, Feeder;
    var skipped := BookOf(OverwriteFirst, run, Skipped);
    if Feeder(cls, f, slot) {
      WrittenOrderSkipsUnlessIdle(run, f);
      assert forall w: Counter :: skipped(f, w) == Book(OverwriteFirst, run, f, Skipped, w);
      ShareVanishes(cls, slot, f, skipped);
      assert (forall w: Counter :: skipped(f, w) == 0) <==> Lossless(OverwriteFirst, run, f);
    } else {
      ShareOutside(cls, slot, f, skipped);
    }
  }

  lemma ShareOutside(cls: Resolution, slot: Slot, f: V4Flow, amount: (V4Flow, Counter) -> int)
    requires !Feeder(cls, f, slot)
    ensures forall w :: ShareOf(cls, slot, w, amount)(f) == 0
  {
    hide RouteOf;
  }

  /** The aggregate was credited all that the hooks saw for it. */
  ghost predicate CreditedInFull(run: Run, cls: Resolution, slot: Slot) {
    forall w :: EverCredited(OverwriteFirst, run, slot, w) == HitsTo(run, cls, slot, w)
  }

  /** No flow of the aggregate was ever found with moved counters. */
  ghost predicate FeedersNeverMoved(run: Run, cls: Resolution, slot: Slot) {
    forall f :: f in FlowsOf(run) && Feeder(cls, f, slot) ==> NeverMoved(OverwriteFirst, run, f)
  }

  /**
   The code as written never credits more than the hooks saw for an aggregate, and credits all of
   it exactly when no scan found a flow of that aggregate with counters moved since its first sight.
   */
  lemma WrittenTotalsLagUnlessIdle(run: Run, visits: seq<Visit>, cls: Resolution, slot: Slot)
    requires FreshlyScanned(OverwriteFirst, run, visits, cls, slot)
    ensures var scanned := Then(run, ScanStep(visits));
            && (forall w :: EverCredited(OverwriteFirst, scanned, slot, w) <= HitsTo(scanned, cls, slot, w))
            && (CreditedInFull(scanned, cls, slot) <==> FeedersNeverMoved(scanned, cls, slot))
  {
    hide Legal, FixedTables, Undisturbed, Exact, FlowsOf, ShareOf, Feeder, EverCredited, HitsTo, Book, NeverMoved;
    var scanned := Then(run, ScanStep(visits));
    var flows, skipped := FlowsOf(scanned), BookOf(OverwriteFirst, scanned, Skipped);
    forall w, f ensures ShareOf(cls, slot, w, skipped)(f) >= 0 {
      SkippedShare(scanned, cls, slot, f);
    }
    forall f
      ensures (forall w :: ShareOf(cls, slot, w, skipped)(f) == 0)
              <==> (Feeder(cls, f, slot) ==> NeverMoved(OverwriteFirst, scanned, f))
    {
      SkippedShare(scanned, cls, slot, f);
    }
    forall w
      ensures HitsTo(scanned, cls, slot, w)
              == EverCredited(OverwriteFirst, scanned, slot, w) + SumSet(flows, ShareOf(cls, slot, w, skipped))
      ensures SumSet(flows, ShareOf(cls, slot, w, skipped)) >= 0
      ensures SumSet(flows, ShareOf(cls, slot, w, skipped)) == 0
              <==> forall f :: f in flows ==> ShareOf(cls, slot, w, skipped)(f) == 0
    {
      WrittenAccounting(run, visits, cls, slot, w);
      SumSetNatural(flows, ShareOf(cls, slot, w, skipped));
    }
    if CreditedInFull(scanned, cls, slot) {
      forall f | f in flows && Feeder(cls, f, slot) ensures NeverMoved(OverwriteFirst, scanned, f) {
        forall w ensures ShareOf(cls, slot, w, skipped)(f) == 0 {
          assert EverCredited(OverwriteFirst, scanned, slot, w) == HitsTo(scanned, cls, slot, w);
        }
      }
    }
  }

  lemma WrittenAccounting(run: Run, visits: seq<Visit>, cls: Resolution, slot: Slot, w: Counter)
    requires FreshlyScanned(OverwriteFirst, run, visits, cls, slot)
    ensures var scanned := Then(run, ScanStep(visits));
            HitsTo(scanned, cls, slot, w)
            == EverCredited(OverwriteFirst, scanned, slot, w)
               + SumSet(FlowsOf(scanned), ShareOf(cls, slot, w, BookOf(OverwriteFirst, scanned, Skipped)))
  {
    hide Legal, FixedTables, Undisturbed, Exact, FlowsOf, EverCredited, HitsTo, Book, ShareOf, Outstanding, Feeder;
    var scanned := Then(run, ScanStep(visits));
    AggregateAccounting(OverwriteFirst, scanned, cls, slot, w);
    forall f, w' | Feeder(cls, f, slot)
      ensures OutstandingOf(OverwriteFirst, scanned)(f, w') == BookOf(OverwriteFirst, scanned, Skipped)(f, w')
    {
      WrittenOutstanding(run, visits, f, w');
    }
    PoolSame(FlowsOf(scanned), cls, slot, w, OutstandingOf(OverwriteFirst, scanned), BookOf(OverwriteFirst, scanned, Skipped));
  }

  /** The intended order credits all that the hooks saw by the time a scan is done. */
  lemma IntendedTotalsShowHits(run: Run, visits: seq<Visit>, cls: Resolution, slot: Slot, w: Counter)
    requires FreshlyScanned(DiffFirst, run, visits, cls, slot)
    ensures var scanned := Then(run, ScanStep(visits));
            EverCredited(DiffFirst, scanned, slot, w) == HitsTo(scanned, cls, slot, w)
  {
    hide Pool, At, Book, Uncredited, Orphan, HitsTo, EverCredited, Legal, FixedTables, Undisturbed;
    var scanned := Then(run, ScanStep(visits));
    AggregateAccounting(DiffFirst, scanned, cls, slot, w);
    forall f, w': Counter | Feeder(cls, f, slot) ensures Outstanding(DiffFirst, scanned, f, w') == 0 {
      UndisturbedBooks(DiffFirst, scanned, f, w');
      SnapshotBelowLive(DiffFirst, scanned, f);
      ScanLeavesNothing(DiffFirst, run, visits, f, w');
    }
    PoolZero(FlowsOf(scanned), cls, slot, w, OutstandingOf(DiffFirst, scanned));
  }

  /** The order of difference and overwrite loses nothing of this aggregate. */
  ghost predicate CountsEverything(order: DiffOrder, run: Run, cls: Resolution, slot: Slot) {
    order == DiffFirst || FeedersNeverMoved(run, cls, slot)
  }

  /**
   Right after a scan of a run that disturbs none of its flows, every aggregate shows exactly what the hooks saw for it: always with the intended order, and with the written
   order when no scan found one of its flows moved.
   */
  lemma ScannedAggregateShowsHits(order: DiffOrder, run: Run, visits: seq<Visit>, cls: Resolution, slot: Slot, w: Counter)
    requires FreshlyScanned(order, run, visits, cls, slot)
    requires CountsEverything(order, Then(run, ScanStep(visits)), cls, slot)
    ensures var scanned := Then(run, ScanStep(visits));
            StatsOf(At(order, scanned).agent.aggs, slot).Get(w) == Mod64(HitsTo(scanned, cls, slot, w))
  {
    hide At, HitsTo, EverCredited, Since, Legal, FixedTables, Undisturbed, Exact, StatsOf, FeedersNeverMoved;
    var scanned := Then(run, ScanStep(visits));
    AggregateIsSumOfCredits(order, scanned, slot, w);
    StayingSlotKeepsCredits(order, scanned, slot, w);
    if order == DiffFirst {
      IntendedTotalsShowHits(run, visits, cls, slot, w);
    } else {
      WrittenTotalsLagUnlessIdle(run, visits, cls, slot);
      assert CreditedInFull(scanned, cls, slot);
    }
  }

  // ---------------------------------------------------------------- tables that change between scans

  /** What the hooks saw of `f` since the last scan. */
  function NewHits(run: Run, f: V4Flow, w: Counter): int {
    match run
    case Boot => 0
    case Then(before, step) =>
      match step
      case Packet(tuple, dir, len) => NewHits(before, f, w) + if Normalized(tuple, dir) == f then Hit(dir, len).Get(w) else 0
      case ScanStep(_) => 0
      case DeleteStep(_, _) => NewHits(before, f, w)
  }

  function NewHitsShare(run: Run, slot: Slot, w: Counter, v: Visit): int {
    Share(RouteOf(v.target), slot, NewHits(run, v.flow, w), NewHits(run, v.flow, w.Mirror()))
  }

  ghost function NewHitsShares(run: Run, slot: Slot, w: Counter): Visit -> int {
    (v: Visit) => NewHitsShare(run, slot, w, v)
  }

  /** Hook hits, each attributed by what its flow resolved to in the first scan after it. */
  ghost function ScannedHits(run: Run, slot: Slot, w: Counter): int {
    match run
    case Boot => 0
    case Then(before, step) =>
      ScannedHits(before, slot, w) + if step.ScanStep? then SumSeq(step.visits, NewHitsShares(before, slot, w)) else 0
  }

  lemma {:induction false} NewHitsAreUncredited(order: DiffOrder, run: Run, f: V4Flow, w: Counter)
    requires Legal(order, run) && Undisturbed(order, run, f) && Book(order, run, f, Overflowed, w) == 0
    ensures Uncredited(At(order, run), f, w) == NewHits(run, f, w)
  {
    hide Apply, Posting, Hit, Uncredited;
    if run.Then? {
      OverflowGrows(order, run, f, w);
      NewHitsAreUncredited(order, run.before, f, w);
      if run.step.ScanStep? {
        ScanLeavesNothing(order, run.before, run.step.visits, f, w);
      } else {
        QuietStepUncredited(order, At(order, run.before), Orphan(order, run.before, f), run.step, f, w);
      }
    } else {
      NothingUncreditedAtBoot(f, w);
    }
  }

  lemma NothingUncreditedAtBoot(f: V4Flow, w: Counter)
    ensures Uncredited(BOOTED, f, w) == 0
  {}

  /** A packet that is not rejected and does not wrap adds its bytes; a batch that does not name the flow changes nothing of it. */
  lemma QuietStepUncredited(order: DiffOrder, s: System, orphan: Option<FlowStats>, step: Step, f: V4Flow, w: Counter)
    requires !step.ScanStep? && Posting(order, s, orphan, step, f, Overflowed, w) == 0
    requires step.Packet? && Normalized(step.tuple, step.dir) == f ==> !Rejected(s.kernel, f)
    requires step.DeleteStep? ==> step.which < |s.pending| && f !in s.pending[step.which].flows
    ensures Uncredited(Apply(order, s, step), f, w)
            == Uncredited(s, f, w)
               + if step.Packet? && Normalized(step.tuple, step.dir) == f then Hit(step.dir, step.len).Get(w) else 0
  {
    hide Apply, AddStats, Posting, Hit;
    if step.Packet? {
      PacketFlow(order, s, step, f);
      OverflowPosting(order, s, orphan, step, f, w);
    } else {
      DeleteFlow(order, s, step, f);
    }
  }

  /** Each visit that feeds `slot` reads a flow that was not disturbed and did not wrap. */
  ghost predicate FedIntact(run: Run, visits: seq<Visit>, slot: Slot) {
    forall i :: 0 <= i < |visits| && Feeds(RouteOf(visits[i].target), slot) ==>
                  Undisturbed(DiffFirst, run, visits[i].flow) && Exact(DiffFirst, run, visits[i].flow)
  }

  ghost predicate AlwaysFedIntact(run: Run, slot: Slot) {
    run.Then? ==> AlwaysFedIntact(run.before, slot) && (run.step.ScanStep? ==> FedIntact(run.before, run.step.visits, slot))
  }

  /** In the intended order one scan credits exactly the hits since the scan before, as its own visits resolve them. */
  lemma ScanCreditsNewHits(run: Run, visits: seq<Visit>, slot: Slot, w: Counter)
    requires Legal(DiffFirst, Then(run, ScanStep(visits))) && FedIntact(run, visits, slot)
    ensures SumSeq(visits, Contributions(DiffFirst, At(DiffFirst, run).agent.base, slot, w)) == SumSeq(visits, NewHitsShares(run, slot, w))
  {
    hide At, Undisturbed, Exact, Contribution, NewHitsShare, Feeds, RouteOf;
    var s := At(DiffFirst, run);
    forall i | 0 <= i < |visits|
      ensures Contribution(DiffFirst, s.agent.base, slot, w, visits[i]) == NewHitsShare(run, slot, w, visits[i])
    {
      if Feeds(RouteOf(visits[i].target), slot) {
        VisitCreditsNewHits(run, visits[i], slot, w);
      } else {
        NothingWithoutFeeding(run, visits[i], slot, w);
      }
    }
    SumSeqAgree(visits, Contributions(DiffFirst, s.agent.base, slot, w), NewHitsShares(run, slot, w));
  }

  lemma NothingWithoutFeeding(run: Run, v: Visit, slot: Slot, w: Counter)
    requires !Feeds(RouteOf(v.target), slot)
    ensures Contribution(DiffFirst, At(DiffFirst, run).agent.base, slot, w, v) == 0 && NewHitsShare(run, slot, w, v) == 0
  {
    hide RouteOf, At, Delta, Idle;
  }

  lemma VisitCreditsNewHits(run: Run, v: Visit, slot: Slot, w: Counter)
    requires Legal(DiffFirst, run) && Undisturbed(DiffFirst, run, v.flow) && Exact(DiffFirst, run, v.flow)
    requires v.flow in At(DiffFirst, run).kernel && v.value == At(DiffFirst, run).kernel[v.flow]
    ensures Contribution(DiffFirst, At(DiffFirst, run).agent.base, slot, w, v) == NewHitsShare(run, slot, w, v)
  {
    hide At, Legal, Undisturbed, Contribution, RouteOf, ScanDelta, Book, Share;
    var s := At(DiffFirst, run);
    ScanDeltaIsMerged(DiffFirst, s, v, slot, w);
    SnapshotsAreLive(DiffFirst, run);
    SnapshotBelowLive(DiffFirst, run, v.flow);
    ScanCredits(s, v.flow, w);
    ScanCredits(s, v.flow, w.Mirror());
    NewHitsAreUncredited(DiffFirst, run, v.flow, w);
    NewHitsAreUncredited(DiffFirst, run, v.flow, w.Mirror());
    OrientIsShare(RouteOf(v.target), slot, ScanDelta(DiffFirst, s, v.flow), w);
  }

  lemma {:induction false} ScannedHitsAreCredited(run: Run, slot: Slot, w: Counter)
    requires Legal(DiffFirst, run) && AlwaysFedIntact(run, slot)
    ensures EverCredited(DiffFirst, run, slot, w) == ScannedHits(run, slot, w)
  {
    hide At, FedIntact, NewHitsShare, Contribution, Covers;
    if run.Then? {
      ScannedHitsAreCredited(run.before, slot, w);
      if run.step.ScanStep? {
        ScanCreditsNewHits(run.before, run.step.visits, slot, w);
      }
    }
  }

  /**
   Name tables may change at any time: with the intended order, over every run that deletes neither
   the aggregate nor a flow it was fed by, and of those flows rejects and wraps nothing, each packet
   is credited to whoever its addresses resolve to in the first scan that reads it.
   */
  lemma AggregatesShowScannedHits(run: Run, slot: Slot, w: Counter)
    requires Legal(DiffFirst, run) && SlotStays(DiffFirst, run, slot) && AlwaysFedIntact(run, slot)
    ensures StatsOf(At(DiffFirst, run).agent.aggs, slot).Get(w) == Mod64(ScannedHits(run, slot, w))
  {
    hide At, Legal, SlotStays, AlwaysFedIntact, StatsOf, Since, EverCredited, ScannedHits;
    AggregateIsSumOfCredits(DiffFirst, run, slot, w);
    StayingSlotKeepsCredits(DiffFirst, run, slot, w);
    ScannedHitsAreCredited(run, slot, w);
  }

  // ---------------------------------------------------------------- what pods and services sent and received

  ghost function ResolutionBy(t: Tables): Resolution {
    (f: V4Flow) => GetPodStatsKey(t, IpText(f.src), IpText(f.dst))
  }

  /** The address belongs to an object of `table` that is printed as `text`. */
  predicate Holds(t: Tables, table: Table, ip: uint32, text: string) {
    && (match table
        case PodTable => IpText(ip) in t.podIpToName
        case SvcTable => IpText(ip) in t.svcIpToName
        case KnownTable => false)
    && EndpointText(t, IpText(ip)) == text
  }

  /** No address of the packet is both a pod's and a service's; other packets resolve to a kind that is dropped. */
  predicate Unambiguous(t: Tables, f: V4Flow) {
    && !(IpText(f.src) in t.podIpToName && IpText(f.src) in t.svcIpToName)
    && !(IpText(f.dst) in t.podIpToName && IpText(f.dst) in t.svcIpToName)
  }

  /** The amount of one packet in the unit of counter `w`. */
  function Amount(len: uint32, w: Counter): int {
    if w == OutBytes || w == InBytes then len else 1
  }

  predicate Outbound(w: Counter) {
    w == OutBytes || w == OutPackets
  }

  /** A hit counts as sent for the packet's source and as received for its destination, at either hook. */
  function EndpointHit(tuple: V4Flow, len: uint32, t: Tables, table: Table, text: string, w: Counter): int {
    if Unambiguous(t, tuple) && Holds(t, table, if Outbound(w) then tuple.src else tuple.dst, text) then Amount(len, w) else 0
  }

  /** Bytes or packets of the hook hits of a run that one pod or service sent or received. */
  function EndpointHits(run: Run, t: Tables, table: Table, text: string, w: Counter): int {
    match run
    case Boot => 0
    case Then(before, step) =>
      EndpointHits(before, t, table, text, w)
      + if step.Packet? then EndpointHit(step.tuple, step.len, t, table, text, w) else 0
  }

  /** Which sides of a resolved flow feed a pod's or service's aggregate: the ones whose address is its own. */
  lemma EndpointFeeds(t: Tables, f: V4Flow, table: Table, text: string)
    requires table != KnownTable
    ensures var route := RouteOf(GetPodStatsKey(t, IpText(f.src), IpText(f.dst)));
            var slot := Slot(table, PodStatsKey(text, ""));
            && (route.src == Some(slot) <==> Unambiguous(t, f) && Holds(t, table, f.src, text))
            && (route.dst == Some(slot) <==> Unambiguous(t, f) && Holds(t, table, f.dst, text))
            && route.pair != Some(slot)
  {
    hide IpText, EndpointText;
  }

  /** Whatever the hook, the merged amount is what the packet itself says. */
  lemma HitOrientation(t: Tables, tuple: V4Flow, dir: Direction, len: uint32, table: Table, text: string, w: Counter)
    requires table != KnownTable
    ensures Orient(RouteOf(ResolutionBy(t)(Normalized(tuple, dir))), Slot(table, PodStatsKey(text, "")), Hit(dir, len), w)
            == EndpointHit(tuple, len, t, table, text, w)
  {
    hide RouteOf, IpText, GetPodStatsKey, Holds;
    EndpointFeeds(t, Normalized(tuple, dir), table, text);
  }

  lemma {:induction false} EndpointHitsAreHits(run: Run, t: Tables, table: Table, text: string, w: Counter)
    requires table != KnownTable
    ensures HitsTo(run, ResolutionBy(t), Slot(table, PodStatsKey(text, "")), w) == EndpointHits(run, t, table, text, w)
  {
    hide RouteOf, Orient, EndpointHit;
    if run.Then? {
      EndpointHitsAreHits(run.before, t, table, text, w);
      if run.step.Packet? {
        HitOrientation(t, run.step.tuple, run.step.dir, run.step.len, table, text, w);
      }
    }
  }

  /**
   A pod's (or service's) transmitted counters are the hits, at both hooks, of packets whose source
   it is, and its received counters those whose destination it is: a packet between two local pods
   passes an egress and an ingress hook and is counted at each.
   */
  lemma EndpointTotalsAreHookHits(order: DiffOrder, run: Run, visits: seq<Visit>, t: Tables, table: Table, text: string, w: Counter)
    requires table != KnownTable
    requires FreshlyScanned(order, run, visits, ResolutionBy(t), Slot(table, PodStatsKey(text, "")))
    requires CountsEverything(order, Then(run, ScanStep(visits)), ResolutionBy(t), Slot(table, PodStatsKey(text, "")))
    ensures var scanned := Then(run, ScanStep(visits));
            StatsOf(At(order, scanned).agent.aggs, Slot(table, PodStatsKey(text, ""))).Get(w)
            == Mod64(EndpointHits(scanned, t, table, text, w))
  {
    hide At, FreshlyScanned, CountsEverything, HitsTo, EndpointHits, StatsOf;
    ScannedAggregateShowsHits(order, run, visits, ResolutionBy(t), Slot(table, PodStatsKey(text, "")), w);
    EndpointHitsAreHits(Then(run, ScanStep(visits)), t, table, text, w);
  }

  // ---------------------------------------------------------------- what a pod-service pair shows

  /** One address is the pod of the pair, the other its service, and they are the pair's endpoints in order. */
  predicate Joins(t: Tables, key: PodStatsKey, first: uint32, second: uint32) {
    || (Holds(t, PodTable, first, key.ep0) && Holds(t, SvcTable, second, key.ep1))
    || (Holds(t, SvcTable, first, key.ep0) && Holds(t, PodTable, second, key.ep1))
  }

  /** Out counts egress hits from the second endpoint to the first, In ingress hits from the first to the second. */
  function PairHit(tuple: V4Flow, dir: Direction, len: uint32, t: Tables, key: PodStatsKey, w: Counter): int {
    if !Unambiguous(t, tuple) then 0
    else if Outbound(w) then if dir == Egress && Joins(t, key, tuple.dst, tuple.src) then Amount(len, w) else 0
    else if dir == Ingress && Joins(t, key, tuple.src, tuple.dst) then Amount(len, w) else 0
  }

  function PairHits(run: Run, t: Tables, key: PodStatsKey, w: Counter): int {
    match run
    case Boot => 0
    case Then(before, step) =>
      PairHits(before, t, key, w) + if step.Packet? then PairHit(step.tuple, step.dir, step.len, t, key, w) else 0
  }

  lemma PairFeeds(t: Tables, f: V4Flow, key: PodStatsKey)
    ensures var route := RouteOf(GetPodStatsKey(t, IpText(f.src), IpText(f.dst)));
            var slot := Slot(KnownTable, key);
            && (route.pair == Some(slot) <==> Unambiguous(t, f) && Joins(t, key, f.src, f.dst))
            && route.src != Some(slot) && route.dst != Some(slot)
  {
    hide IpText, EndpointText;
  }

  lemma PairOrientation(t: Tables, tuple: V4Flow, dir: Direction, len: uint32, key: PodStatsKey, w: Counter)
    ensures Orient(RouteOf(ResolutionBy(t)(Normalized(tuple, dir))), Slot(KnownTable, key), Hit(dir, len), w)
            == PairHit(tuple, dir, len, t, key, w)
  {
    hide RouteOf, IpText, GetPodStatsKey, Joins;
    PairFeeds(t, Normalized(tuple, dir), key);
  }

  lemma {:induction false} PairHitsAreHits(run: Run, t: Tables, key: PodStatsKey, w: Counter)
    ensures HitsTo(run, ResolutionBy(t), Slot(KnownTable, key), w) == PairHits(run, t, key, w)
  {
    hide RouteOf, Orient, PairHit;
    if run.Then? {
      PairHitsAreHits(run.before, t, key, w);
      if run.step.Packet? {
        PairOrientation(t, run.step.tuple, run.step.dir, run.step.len, key, w);
      }
    }
  }

  /** The counters of a pair hold the hits of its two endpoints, in the reversed direction. */
  lemma PairTotalsAreHookHits(order: DiffOrder, run: Run, visits: seq<Visit>, t: Tables, key: PodStatsKey, w: Counter)
    requires FreshlyScanned(order, run, visits, ResolutionBy(t), Slot(KnownTable, key))
    requires CountsEverything(order, Then(run, ScanStep(visits)), ResolutionBy(t), Slot(KnownTable, key))
    ensures var scanned := Then(run, ScanStep(visits));
            StatsOf(At(order, scanned).agent.aggs, Slot(KnownTable, key)).Get(w) == Mod64(PairHits(scanned, t, key, w))
  {
    hide At, FreshlyScanned, CountsEverything, HitsTo, PairHits, StatsOf;
    ScannedAggregateShowsHits(order, run, visits, ResolutionBy(t), Slot(KnownTable, key), w);
    PairHitsAreHits(Then(run, ScanStep(visits)), t, key, w);
  }

  /** The counter of a pair that its gauge series `i` shows; series 0 and 1 are named pod-to-service, 2 and 3 service-to-pod. */
  function PairSeries(key: PodStatsKey, i: nat): Counter
    requires i < SERIES
  {
    var own := [OutBytes, OutPackets, InBytes, InPackets][i];
    if ParsedKind(key) == SVC_TO_POD then own.Mirror() else own
  }

  /**
   The series carry the opposite of their names: whatever key they are published from, those named
   pod-to-service show only packets sent by the service to the pod, and the other two the reverse.
   */
  lemma PairSeriesAreReversed(t: Tables, tuple: V4Flow, dir: Direction, len: uint32, key: PodStatsKey, stats: FlowStats, i: nat)
    requires WellNamed(t) && i < SERIES
    requires Publishes(KnownTable, PromKey(key))
    ensures Shown(KnownTable, PromKey(key), stats)[i] == stats.Get(PairSeries(key, i))
    ensures PairHit(tuple, dir, len, t, key, PairSeries(key, i)) != 0 ==>
              if i < 2 then IpText(tuple.src) in t.svcIpToName && IpText(tuple.dst) in t.podIpToName
              else IpText(tuple.src) in t.podIpToName && IpText(tuple.dst) in t.svcIpToName
  {
    hide IpText, SplitN3, EndpointText;
    ResolvedKinds(t, IpText(tuple.src));
    ResolvedKinds(t, IpText(tuple.dst));
  }

  /** Pod texts split in two, service texts in three. */
  lemma ResolvedKinds(t: Tables, ip: string)
    requires WellNamed(t) && '/' !in ip
    ensures ip in t.podIpToName && ip !in t.svcIpToName ==> |SplitN3(EndpointText(t, ip))| == 2
    ensures ip in t.svcIpToName ==> |SplitN3(EndpointText(t, ip))| == 3
  {
    EndpointTextPrints(t, ip);
    EndpointRoundTrip(Resolve(t, ip), ip);
  }
}
