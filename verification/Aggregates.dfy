/**
 What the counters of an aggregate mean, over every run.
 */
module Aggregates {
  import opened Statistics
  import opened Flows
  import opened Names
  import opened KernelMap
  import opened Agent
  import opened Pipeline
  import opened Accounting
  import opened Aging

  // ---------------------------------------------------------------- the sum since the entry was created

  /** The sum after one more step: scans add to it, the deletion of the entry resets it. */
  ghost function SinceNext(order: DiffOrder, s: System, step: Step, slot: Slot, w: Counter, since: int): int {
    match step
    case Packet(_, _, _) => since
    case ScanStep(visits) => since + SumSeq(visits, Contributions(order, s.agent.base, slot, w))
    case DeleteStep(which, _) => if which < |s.pending| && Queued(s.pending[which], slot) then 0 else since
  }

  /** Everything credited to `slot` since its entry was created, as an unbounded integer. */
  ghost function Since(order: DiffOrder, run: Run, slot: Slot, w: Counter): int {
    match run
    case Boot => 0
    case Then(before, step) => SinceNext(order, At(order, before), step, slot, w, Since(order, before, slot, w))
  }

  /** The counters of every aggregate are that sum modulo 2^64. */
  lemma {:induction false} AggregateIsSumOfCredits(order: DiffOrder, run: Run, slot: Slot, w: Counter)
    requires Legal(order, run)
    ensures StatsOf(At(order, run).agent.aggs, slot).Get(w) == Mod64(Since(order, run, slot, w))
  {
    hide Apply, StatsOf, StampsBelow, Mod64, SinceNext;
    if run.Then? {
      AggregateIsSumOfCredits(order, run.before, slot, w);
      StampsAreOld(order, run.before);
      CreditsNext(order, At(order, run.before), run.step, slot, w, Since(order, run.before, slot, w));
    } else {
      BlankAtBoot(slot, w);
    }
  }

  lemma BlankAtBoot(slot: Slot, w: Counter)
    ensures StatsOf(BOOTED.agent.aggs, slot).Get(w) == Mod64(0)
  {}

  lemma CreditsNext(order: DiffOrder, s: System, step: Step, slot: Slot, w: Counter, since: int)
    requires StatsOf(s.agent.aggs, slot).Get(w) == Mod64(since)
    requires StampsBelow(s.agent, s.scans + 1)
    requires step.ScanStep? ==> Covers(step.visits, s.kernel)
    requires step.DeleteStep? ==> step.which < |s.pending|
    ensures StatsOf(Apply(order, s, step).agent.aggs, slot).Get(w)
            == Mod64(SinceNext(order, s, step, slot, w, since))
  {
    hide Apply, Scan, Delete, Touched, StampsBelow, Mod64, Queued;
    match step
    case Packet(_, _, _) => PacketFlow(order, s, step, step.tuple);
    case ScanStep(visits) =>
      ScanApplied(order, s, visits);
      ScanEffect(order, s.agent, visits, s.scans + 1, slot, w);
      Mod64Plus(since, SumSeq(visits, Contributions(order, s.agent.base, slot, w)));
    case DeleteStep(which, _) =>
      DeleteFlow(order, s, step, ANY_FLOW);
      DeleteEffect(s.agent, s.pending[which], slot);
      Mod64OfZero();
  }

  lemma Mod64OfZero()
    ensures Mod64(0) == 0
  {}

  // ---------------------------------------------------------------- as written: first sights only

  /** What a visit to a flow not remembered so far adds. */
  function FirstSight(base: map<V4Flow, Entry>, slot: Slot, w: Counter, v: Visit): int {
    if v.flow in base then 0 else Orient(RouteOf(v.target), slot, v.value, w)
  }

  ghost function FirstSights(base: map<V4Flow, Entry>, slot: Slot, w: Counter): Visit -> int {
    (v: Visit) => FirstSight(base, slot, w, v)
  }

  /** The oriented sum of the first snapshots of the flow lifetimes merged into `slot` since it was created. */
  ghost function SinceFirstSights(run: Run, slot: Slot, w: Counter): int {
    match run
    case Boot => 0
    case Then(before, step) =>
      var s := At(OverwriteFirst, before);
      match step
      case Packet(_, _, _) => SinceFirstSights(before, slot, w)
      case ScanStep(visits) => SinceFirstSights(before, slot, w) + SumSeq(visits, FirstSights(s.agent.base, slot, w))
      case DeleteStep(which, _) =>
        if which < |s.pending| && Queued(s.pending[which], slot) then 0 else SinceFirstSights(before, slot, w)
  }

  lemma ContributionIsFirstSight(base: map<V4Flow, Entry>, slot: Slot, w: Counter, v: Visit)
    ensures Contribution(OverwriteFirst, base, slot, w, v) == FirstSight(base, slot, w, v)
  {
    hide RouteOf;
    if v.flow in base && !Idle(base, v) {
      assert DiffStats(v.value, v.value) == ZERO;
    }
  }

  lemma {:induction false} SinceIsFirstSights(run: Run, slot: Slot, w: Counter)
    ensures Since(OverwriteFirst, run, slot, w) == SinceFirstSights(run, slot, w)
  {
    hide Apply, Contribution, FirstSight, Queued;
    if run.Then? {
      SinceIsFirstSights(run.before, slot, w);
      if run.step.ScanStep? {
        var base := At(OverwriteFirst, run.before).agent.base;
        forall v ensures Contribution(OverwriteFirst, base, slot, w, v) == FirstSight(base, slot, w, v) {
          ContributionIsFirstSight(base, slot, w, v);
        }
        SumSeqAgree(run.step.visits, Contributions(OverwriteFirst, base, slot, w), FirstSights(base, slot, w));
      }
    }
  }

  /**
   What the code as written computes: each aggregate holds the first-sight values of its flows and
   nothing that came later, for every interleaving and whatever the name tables did meanwhile.
   */
  lemma WrittenAggregatesHoldFirstSights(run: Run, slot: Slot, w: Counter)
    requires Legal(OverwriteFirst, run)
    ensures StatsOf(At(OverwriteFirst, run).agent.aggs, slot).Get(w) == Mod64(SinceFirstSights(run, slot, w))
  {
    hide At, Since, SinceFirstSights, StatsOf;
    AggregateIsSumOfCredits(OverwriteFirst, run, slot, w);
    SinceIsFirstSights(run, slot, w);
  }

  // ---------------------------------------------------------------- as written: a concrete loss

  function FirstVisit(f: V4Flow, target: Target, dir: Direction): Visit {
    Visit(f, Hit(dir, 100), target)
  }

  function SecondVisit(f: V4Flow, target: Target, dir: Direction): Visit {
    Visit(f, AddStats(Hit(dir, 100), Hit(dir, 100)), target)
  }

  /** One packet, a scan, a second packet, a second scan. */
  function TwoPackets(f: V4Flow, target: Target, dir: Direction): Run {
    var packet := Packet(Normalized(f, dir), dir, 100);
    Then(Then(Then(Then(Boot, packet), ScanStep([FirstVisit(f, target, dir)])), packet), ScanStep([SecondVisit(f, target, dir)]))
  }

  /** What `TwoPackets` leaves in the kernel and the base map before each of its scans. */
  lemma TwoPacketsStates(f: V4Flow, target: Target, dir: Direction)
    ensures var run := TwoPackets(f, target, dir);
            var first, second := At(OverwriteFirst, run.before.before.before), At(OverwriteFirst, run.before);
            && Legal(OverwriteFirst, run)
            && first == System(map[f := Hit(dir, 100)], NEW_AGENT, [], 0)
            && At(OverwriteFirst, run.before.before).kernel == first.kernel
            && second.kernel == map[f := AddStats(Hit(dir, 100), Hit(dir, 100))]
            && f in second.agent.base && second.agent.base[f].stats == Hit(dir, 100)
  {
    hide Apply, Hit, AddStats, Covers;
    var run := TwoPackets(f, target, dir);
    var v := FirstVisit(f, target, dir);
    var quiet := run.before.before;
    QuietStart(OverwriteFirst, v, dir);
    var first := At(OverwriteFirst, quiet.before);
    CoversOne(first.kernel, v);
    SnapshotsAreLive(OverwriteFirst, quiet.before);
    ScanApplied(OverwriteFirst, first, [v]);
    ScanFlow(OverwriteFirst, first, [v], f);
    ConversationSharesKey(f, f);
    PacketOnOnlyFlow(OverwriteFirst, At(OverwriteFirst, quiet), run.before.step, f);
    LegalRound(OverwriteFirst, quiet, run.before.step, SecondVisit(f, target, dir));
  }

  /** The loss is real: of two packets seen and scanned, the written order credits one and skips one. */
  lemma SecondPacketIsSkipped(f: V4Flow, target: Target, dir: Direction)
    ensures var run := TwoPackets(f, target, dir);
            && Legal(OverwriteFirst, run)
            && Book(OverwriteFirst, run, f, Accepted, PacketCounter(dir)) == 2
            && Book(OverwriteFirst, run, f, Credited, PacketCounter(dir)) == 1
            && Book(OverwriteFirst, run, f, Skipped, PacketCounter(dir)) == 1
            && !NeverMoved(OverwriteFirst, run, f)
  {
    hide At, Hit, AddStats, Legal;
    TwoPacketsStates(f, target, dir);
    OnePacket(dir);
    PacketsBooked(f, target, dir, Accepted);
    PacketsBooked(f, target, dir, Credited);
    PacketsBooked(f, target, dir, Skipped);
  }

  lemma OnePacket(dir: Direction)
    ensures Hit(dir, 100).Get(PacketCounter(dir)) == 1 && AddStats(Hit(dir, 100), Hit(dir, 100)).Get(PacketCounter(dir)) == 2
  {}

  /** Packets in a column of the ledger after the first `steps` steps of `TwoPackets`. */
  function Booked(col: Column, steps: nat): int {
    match col
    case Accepted => if steps == 0 then 0 else if steps <= 2 then 1 else 2
    case Credited => if steps <= 1 then 0 else 1
    case Skipped => if steps <= 3 then 0 else 1
    case _ => 0
  }

  lemma PacketsBooked(f: V4Flow, target: Target, dir: Direction, col: Column)
    requires col == Accepted || col == Credited || col == Skipped
    ensures Book(OverwriteFirst, TwoPackets(f, target, dir), f, col, PacketCounter(dir)) == Booked(col, 4)
  {
    hide At, Hit, AddStats, Legal;
    var run := TwoPackets(f, target, dir);
    var w := PacketCounter(dir);
    TwoPacketsStates(f, target, dir);
    ConversationSharesKey(f, f);
    OnePacket(dir);
    var r3 := run.before;
    var r2 := r3.before;
    var r1 := r2.before;
    assert Book(OverwriteFirst, r1.before, f, col, w) == 0;
    assert Book(OverwriteFirst, r1, f, col, w) == Booked(col, 1);
    assert Book(OverwriteFirst, r2, f, col, w) == Booked(col, 2);
    assert Book(OverwriteFirst, r3, f, col, w) == Booked(col, 3);
  }

  // ---------------------------------------------------------------- a failed delete counts twice

  /** One packet, four quiet scans, the batch they queued with its kernel delete failing, one more scan. */
  function FailedDelete(f: V4Flow, target: Target, dir: Direction): Run {
    var v := FirstVisit(f, target, dir);
    Then(Then(QuietRun(v, dir, 4), DeleteStep(3, {f})), ScanStep([v]))
  }

  lemma {:induction false} QuietBooks(order: DiffOrder, f: V4Flow, target: Target, dir: Direction, n: nat)
    requires n <= 4
    ensures var run := QuietRun(FirstVisit(f, target, dir), dir, n);
            && Book(order, run, f, Accepted, PacketCounter(dir)) == 1
            && Book(order, run, f, Credited, PacketCounter(dir)) == (if n == 0 then 0 else 1)
            && Book(order, run, f, Recounted, PacketCounter(dir)) == 0
  {
    hide At, Hit, AddStats;
    var v := FirstVisit(f, target, dir);
    OnePacket(dir);
    ConversationSharesKey(f, f);
    if n > 0 {
      QuietBooks(order, f, target, dir, n - 1);
      QuietRunAges(order, v, dir, n - 1);
    } else {
      assert QuietRun(v, dir, 0).before == Boot;
    }
  }

  /** The kernel map and the base map around the failed delete. */
  lemma FailedDeleteStates(order: DiffOrder, f: V4Flow, target: Target, dir: Direction)
    ensures var run := FailedDelete(f, target, dir);
            var quiet, reaped := At(order, run.before.before), At(order, run.before);
            && Legal(order, run)
            && 3 < |quiet.pending| && f in quiet.pending[3].flows && f in quiet.agent.base
            && SnapshotValue(quiet, f) == Hit(dir, 100)
            && reaped.kernel == map[f := Hit(dir, 100)] && f !in reaped.agent.base
  {
    hide Apply, Hit, QuietRun, Covers;
    var v := FirstVisit(f, target, dir);
    var quiet := QuietRun(v, dir, 4);
    var step := DeleteStep(3, {f});
    QuietRunAges(order, v, dir, 4);
    var s, s' := At(order, quiet), At(order, Then(quiet, step));
    forall g ensures g in s'.kernel <==> g == f {
      DeleteFlow(order, s, step, g);
    }
    DeleteFlow(order, s, step, f);
    CoversOne(s'.kernel, v);
  }

  /** The double count is real: after a failed kernel delete one packet has been credited twice. */
  lemma PacketIsCreditedTwice(order: DiffOrder, f: V4Flow, target: Target, dir: Direction)
    ensures var run := FailedDelete(f, target, dir);
            && Legal(order, run)
            && Book(order, run, f, Accepted, PacketCounter(dir)) == 1
            && Book(order, run, f, Credited, PacketCounter(dir)) == 2
            && Book(order, run, f, Recounted, PacketCounter(dir)) == 1
  {
    hide At, Hit, AddStats, Legal, QuietRun;
    var run := FailedDelete(f, target, dir);
    var w := PacketCounter(dir);
    FailedDeleteStates(order, f, target, dir);
    QuietBooks(order, f, target, dir, 4);
    OnePacket(dir);
    assert Orphan(order, run.before, f) == Some(Hit(dir, 100));
    assert Book(order, run.before, f, Credited, w) == 1 && Book(order, run.before, f, Recounted, w) == 0;
  }
}
