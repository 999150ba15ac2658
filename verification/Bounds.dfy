/**
 The byte/packet bound carried through the pipeline: a packet has at most 2^32 - 1 bytes, so every
 byte counter is at most its packet counter times that, in the kernel, in the deltas and in the
 aggregates; below 2^32 packets no 64-bit byte sum can wrap.
 */
module Bounds {
  import opened Statistics
  import opened Flows
  import opened KernelMap
  import opened Agent
  import opened Pipeline
  import opened Accounting
  import opened Aggregates

  datatype Side = Outgoing | Incoming {
    function Bytes(): Counter { if this == Outgoing then OutBytes else InBytes }
    function Packets(): Counter { if this == Outgoing then OutPackets else InPackets }
  }

  predicate Dense(bytes: int, packets: int) {
    0 <= bytes <= packets * 0xFFFF_FFFF
  }

  lemma DenseAdd(a: int, b: int, c: int, d: int)
    requires Dense(a, b) && Dense(c, d)
    ensures Dense(a + c, b + d)
  {}

  /** What is uncredited obeys the bound too; a byte counter that wrapped may leave it negative. */
  ghost predicate DenseUncredited(s: System, f: V4Flow, side: Side) {
    var packets := Uncredited(s, f, side.Packets());
    0 <= packets && Uncredited(s, f, side.Bytes()) <= packets * 0xFFFF_FFFF
  }

  ghost predicate DenseKernel(s: System, f: V4Flow, side: Side) {
    Dense(KernelValue(s, f).Get(side.Bytes()), KernelValue(s, f).Get(side.Packets()))
  }

  /** Kernel entries, and what of them is still uncredited, are dense while the packet counter has not wrapped. */
  lemma {:induction false} KernelIsDense(order: DiffOrder, run: Run, f: V4Flow, side: Side)
    requires Legal(order, run) && Book(order, run, f, Overflowed, side.Packets()) == 0
    ensures DenseKernel(At(order, run), f, side) && DenseUncredited(At(order, run), f, side)
  {
    hide Apply, Posting, Dense, DenseUncredited, DenseKernel;
    if run.Then? {
      OverflowGrows(order, run, f, side.Packets());
      KernelIsDense(order, run.before, f, side);
      SnapshotsAreLive(order, run.before);
      DenseStep(order, At(order, run.before), Orphan(order, run.before, f), run.step, f, side);
    } else {
      DenseAtBoot(f, side);
    }
  }

  lemma DenseAtBoot(f: V4Flow, side: Side)
    ensures DenseKernel(BOOTED, f, side) && DenseUncredited(BOOTED, f, side)
  {}

  lemma DenseStep(order: DiffOrder, s: System, orphan: Option<FlowStats>, step: Step, f: V4Flow, side: Side)
    requires BaseWithinKernel(s) && DenseKernel(s, f, side) && DenseUncredited(s, f, side)
    requires Posting(order, s, orphan, step, f, Overflowed, side.Packets()) == 0
    requires step.ScanStep? ==> Covers(step.visits, s.kernel)
    requires step.DeleteStep? ==> step.which < |s.pending|
    ensures var s' := Apply(order, s, step); DenseKernel(s', f, side) && DenseUncredited(s', f, side)
  {
    hide Apply, Posting, Covers;
    match step
    case Packet(_, _, _) => DensePacket(order, s, orphan, step, f, side);
    case ScanStep(visits) =>
      ScanApplied(order, s, visits);
      ScanFlow(order, s, visits, f);
    case DeleteStep(_, _) => DeleteFlow(order, s, step, f);
  }

  lemma DensePacket(order: DiffOrder, s: System, orphan: Option<FlowStats>, step: Step, f: V4Flow, side: Side)
    requires step.Packet? && DenseKernel(s, f, side) && DenseUncredited(s, f, side)
    requires Posting(order, s, orphan, step, f, Overflowed, side.Packets()) == 0
    ensures var s' := Apply(order, s, step); DenseKernel(s', f, side) && DenseUncredited(s', f, side)
  {
    hide Apply, Posting, AddStats;
    PacketFlow(order, s, step, f);
    OverflowPosting(order, s, orphan, step, f, side.Packets());
    var bytes, len := KernelValue(s, f).Get(side.Bytes()), Hit(step.dir, step.len).Get(side.Bytes());
    Mod64AtMost((bytes as int) + len);
  }

  lemma Mod64AtMost(x: nat)
    ensures Mod64(x) <= x
  {}

  /** What the hooks saw of a flow is dense, so few packets mean that no kernel counter wraps. */
  lemma FewPacketsNeverWrap(order: DiffOrder, run: Run, f: V4Flow, side: Side)
    requires Legal(order, run) && Book(order, run, f, Accepted, side.Packets()) < TWO_32
    ensures Book(order, run, f, Accepted, side.Bytes()) < TWO_64
    ensures Book(order, run, f, Overflowed, side.Bytes()) == 0 && Book(order, run, f, Overflowed, side.Packets()) == 0
  {
    hide Book, At, Legal;
    AcceptedIsDense(order, run, f, side);
    KernelBelowAccepted(order, run, f, side.Bytes());
    KernelBelowAccepted(order, run, f, side.Packets());
  }

  lemma {:induction false} AcceptedIsDense(order: DiffOrder, run: Run, f: V4Flow, side: Side)
    ensures Dense(Book(order, run, f, Accepted, side.Bytes()), Book(order, run, f, Accepted, side.Packets()))
  {
    hide Apply, At;
    if run.Then? {
      AcceptedIsDense(order, run.before, f, side);
    }
  }

  // ---------------------------------------------------------------- deltas and aggregates

  predicate DenseOn(x: FlowStats, side: Side) {
    Dense(x.Get(side.Bytes()), x.Get(side.Packets()))
  }

  /**
   Every delta handed to `mergeStats` is dense, in either order of differencing: a byte counter that
   wrapped only makes the difference smaller, or takes the reset branch.
   */
  lemma DeltasAreDense(order: DiffOrder, run: Run, f: V4Flow, side: Side)
    requires Legal(order, run) && Book(order, run, f, Overflowed, side.Packets()) == 0
    ensures DenseOn(ScanDelta(order, At(order, run), f), side)
  {
    hide At, Legal, Book, DiffStats;
    SnapshotsAreLive(order, run);
    KernelIsDense(order, run, f, side);
    var s := At(order, run);
    if f in s.kernel && f in s.agent.base && s.agent.base[f].stats.AtMost(s.kernel[f]) {
      var delta := DiffStats(s.agent.base[f].stats, s.kernel[f]);
      assert s.agent.base[f].stats.Get(side.Bytes()) + delta.Get(side.Bytes()) == s.kernel[f].Get(side.Bytes());
      assert s.agent.base[f].stats.Get(side.Packets()) + delta.Get(side.Packets()) == s.kernel[f].Get(side.Packets());
    }
  }

  lemma DenseOrientation(route: Route, slot: Slot, x: FlowStats, side: Side)
    requires Feeds(route, slot) ==> DenseOn(x, Outgoing) && DenseOn(x, Incoming)
    ensures Dense(Orient(route, slot, x, side.Bytes()), Orient(route, slot, x, side.Packets()))
  {}

  lemma {:induction false} DenseSum<T>(xs: seq<T>, bytes: T -> int, packets: T -> int)
    requires forall i :: 0 <= i < |xs| ==> Dense(bytes(xs[i]), packets(xs[i]))
    ensures Dense(SumSeq(xs, bytes), SumSeq(xs, packets))
  {
    if xs != [] {
      var front := xs[..|xs| - 1];
      assert forall i :: 0 <= i < |front| ==> front[i] == xs[i];
      DenseSum(front, bytes, packets);
    }
  }

  /** Whenever a flow was read that resolved to `slot`, its packet counters had not wrapped. */
  ghost predicate FedByExactPackets(order: DiffOrder, run: Run, slot: Slot) {
    match run
    case Boot => true
    case Then(before, step) =>
      && FedByExactPackets(order, before, slot)
      && (step.ScanStep? ==> forall i :: 0 <= i < |step.visits| && Feeds(RouteOf(step.visits[i].target), slot) ==>
            PacketsExact(order, before, step.visits[i].flow))
  }

  /** What any aggregate accrued since its creation is dense. */
  lemma {:induction false} AggregatesAreDense(order: DiffOrder, run: Run, slot: Slot, side: Side)
    requires Legal(order, run) && FedByExactPackets(order, run, slot)
    ensures Dense(Since(order, run, slot, side.Bytes()), Since(order, run, slot, side.Packets()))
  {
    hide Apply, PacketsExact, Dense, Orient, RouteOf, Queued, Contribution, Feeds;
    if run.Then? {
      AggregatesAreDense(order, run.before, slot, side);
      if run.step.ScanStep? {
        ScanSumIsDense(order, run.before, run.step.visits, slot, side);
        DenseAdd(Since(order, run.before, slot, side.Bytes()), Since(order, run.before, slot, side.Packets()),
                 SumSeq(run.step.visits, Contributions(order, At(order, run.before).agent.base, slot, side.Bytes())),
                 SumSeq(run.step.visits, Contributions(order, At(order, run.before).agent.base, slot, side.Packets())));
      }
    }
    DenseNothing();
  }

  lemma DenseNothing()
    ensures Dense(0, 0)
  {}

  lemma ScanSumIsDense(order: DiffOrder, run: Run, visits: seq<Visit>, slot: Slot, side: Side)
    requires Legal(order, run) && Covers(visits, At(order, run).kernel)
    requires forall i :: 0 <= i < |visits| && Feeds(RouteOf(visits[i].target), slot) ==> PacketsExact(order, run, visits[i].flow)
    ensures var base := At(order, run).agent.base;
            Dense(SumSeq(visits, Contributions(order, base, slot, side.Bytes())),
                  SumSeq(visits, Contributions(order, base, slot, side.Packets())))
  {
    hide PacketsExact, Dense, Orient, RouteOf, Feeds, Contribution, At, Legal;
    var s := At(order, run);
    forall i | 0 <= i < |visits|
      ensures Dense(Contribution(order, s.agent.base, slot, side.Bytes(), visits[i]),
                    Contribution(order, s.agent.base, slot, side.Packets(), visits[i]))
    {
      VisitIsDense(order, run, visits[i], slot, side);
    }
    DenseSum(visits, Contributions(order, s.agent.base, slot, side.Bytes()), Contributions(order, s.agent.base, slot, side.Packets()));
  }

  lemma VisitIsDense(order: DiffOrder, run: Run, v: Visit, slot: Slot, side: Side)
    requires Legal(order, run) && v.flow in At(order, run).kernel && v.value == At(order, run).kernel[v.flow]
    requires Feeds(RouteOf(v.target), slot) ==> PacketsExact(order, run, v.flow)
    ensures var base := At(order, run).agent.base;
            Dense(Contribution(order, base, slot, side.Bytes(), v), Contribution(order, base, slot, side.Packets(), v))
  {
    hide Dense, DenseOn, Orient, RouteOf, Feeds, Contribution, At, Legal, Book;
    var s := At(order, run);
    if Feeds(RouteOf(v.target), slot) {
      DeltasAreDense(order, run, v.flow, Outgoing);
      DeltasAreDense(order, run, v.flow, Incoming);
    }
    DenseOrientation(RouteOf(v.target), slot, ScanDelta(order, s, v.flow), side);
    ScanDeltaIsMerged(order, s, v, slot, side.Bytes());
    ScanDeltaIsMerged(order, s, v, slot, side.Packets());
  }

  /**
   An aggregate with fewer than 2^32 packets since its creation shows its exact byte and packet sums,
   whatever flows it does not aggregate do.
   */
  lemma FewPacketAggregatesAreExact(order: DiffOrder, run: Run, slot: Slot, side: Side)
    requires Legal(order, run) && FedByExactPackets(order, run, slot)
    requires Since(order, run, slot, side.Packets()) < TWO_32
    ensures StatsOf(At(order, run).agent.aggs, slot).Get(side.Bytes()) == Since(order, run, slot, side.Bytes())
    ensures StatsOf(At(order, run).agent.aggs, slot).Get(side.Packets()) == Since(order, run, slot, side.Packets())
  {
    hide At, Legal, FedByExactPackets, Since, StatsOf;
    AggregatesAreDense(order, run, slot, side);
    AggregateIsSumOfCredits(order, run, slot, side.Bytes());
    AggregateIsSumOfCredits(order, run, slot, side.Packets());
  }
}
