/**
 Per-flow accounting over every run: where each byte and packet the hooks saw has gone.
 Every statement is about one flow key and one of its four counters.
 */
module Accounting {
  import opened Statistics
  import opened Flows
  import opened KernelMap
  import opened Agent
  import opened Pipeline

  // ---------------------------------------------------------------- the ledger of one flow

  /**
   Where the traffic of one flow key went, as unbounded integers.
   - Accepted: everything the hooks saw for the key;
   - Credited: everything merged into aggregates on its behalf;
   - Discarded: turned away by a full map, or deleted before it was credited;
   - Recounted: credited once already and credited again, because a scan read as new an entry whose
     snapshot a failed kernel delete had dropped;
   - Overflowed: multiples of 2^64 dropped by the kernel's atomic adds;
   - Skipped: what a scan moved the snapshot past without merging it. The intended order does this
     only when the kernel value no longer continues the snapshot; the written order does it whenever
     it overwrites a snapshot it already had.
   */
  datatype Column = Accepted | Credited | Discarded | Recounted | Overflowed | Skipped

  /**
   A failed kernel delete leaves an orphan: an entry of the kernel map that has been credited up to a
   snapshot the agent no longer has. It lasts until a scan reads the entry or a delete removes it.
   */
  function OrphanNext(s: System, step: Step, f: V4Flow, orphan: Option<FlowStats>): Option<FlowStats> {
    match step
    case Packet(_, _, _) => orphan
    case ScanStep(_) => None
    case DeleteStep(which, failing) =>
      if which >= |s.pending| || f !in s.pending[which].flows then orphan
      else if f !in failing then None
      else if f in s.agent.base then Some(s.agent.base[f].stats)
      else orphan
  }

  /** The dropped snapshot of `f` while its kernel entry is an orphan. */
  function Orphan(order: DiffOrder, run: Run, f: V4Flow): Option<FlowStats> {
    match run
    case Boot => None
    case Then(before, step) => OrphanNext(At(order, before), step, f, Orphan(order, before, f))
  }

  function OrphanValue(orphan: Option<FlowStats>): FlowStats {
    if orphan.Some? then orphan.value else ZERO
  }

  /** What the kernel has counted of `f` and no merge has ever seen. */
  function Awaiting(s: System, orphan: Option<FlowStats>, f: V4Flow, w: Counter): int {
    Uncredited(s, f, w) - OrphanValue(orphan).Get(w)
  }

  /** An orphan is in the kernel map and unknown to the agent. */
  predicate OrphanFits(s: System, orphan: Option<FlowStats>, f: V4Flow) {
    orphan.Some? ==> f in s.kernel && f !in s.agent.base
  }

  function PacketPosting(s: System, hit: FlowStats, f: V4Flow, col: Column, w: Counter): int {
    match col
    case Accepted => hit.Get(w)
    case Discarded => if Rejected(s.kernel, f) then hit.Get(w) else 0
    case Overflowed =>
      if Rejected(s.kernel, f) then 0
      else KernelValue(s, f).Get(w) + hit.Get(w) - Mod64(KernelValue(s, f).Get(w) + hit.Get(w))
    case _ => 0
  }

  function ScanPosting(order: DiffOrder, s: System, orphan: Option<FlowStats>, f: V4Flow, col: Column, w: Counter): int {
    match col
    case Credited => ScanDelta(order, s, f).Get(w)
    case Recounted => OrphanValue(orphan).Get(w)
    case Skipped =>
      if f in s.agent.base && f in s.kernel
         && (order == OverwriteFirst || !s.agent.base[f].stats.AtMost(s.kernel[f]))
      then Uncredited(s, f, w) else 0
    case _ => 0
  }

  /** Only what no merge has seen is lost with the kernel entry; a failed delete loses nothing. */
  function DeletePosting(s: System, orphan: Option<FlowStats>, failed: bool, f: V4Flow, col: Column, w: Counter): int {
    match col
    case Discarded => if failed then 0 else Awaiting(s, orphan, f, w)
    case _ => 0
  }

  /** What one step posts to one column of the ledger of `f`. */
  function Posting(order: DiffOrder, s: System, orphan: Option<FlowStats>, step: Step, f: V4Flow, col: Column, w: Counter): int {
    match step
    case Packet(tuple, dir, len) =>
      if Normalized(tuple, dir) == f then PacketPosting(s, Hit(dir, len), f, col, w) else 0
    case ScanStep(_) => ScanPosting(order, s, orphan, f, col, w)
    case DeleteStep(which, failing) =>
      if which < |s.pending| && f in s.pending[which].flows then DeletePosting(s, orphan, f in failing, f, col, w) else 0
  }

  function Book(order: DiffOrder, run: Run, f: V4Flow, col: Column, w: Counter): int {
    match run
    case Boot => 0
    case Then(before, step) => Book(order, before, f, col, w) + Posting(order, At(order, before), Orphan(order, before, f), step, f, col, w)
  }

  /** A step's postings balance the change of what awaits crediting. */
  ghost predicate Balances(order: DiffOrder, s: System, orphan: Option<FlowStats>, step: Step, f: V4Flow, w: Counter) {
    Posting(order, s, orphan, step, f, Accepted, w) + Posting(order, s, orphan, step, f, Recounted, w) + Awaiting(s, orphan, f, w)
    == Posting(order, s, orphan, step, f, Credited, w) + Posting(order, s, orphan, step, f, Discarded, w)
       + Posting(order, s, orphan, step, f, Overflowed, w) + Posting(order, s, orphan, step, f, Skipped, w)
       + Awaiting(Apply(order, s, step), OrphanNext(s, step, f, orphan), f, w)
  }

  lemma PacketBalances(order: DiffOrder, s: System, orphan: Option<FlowStats>, step: Step, f: V4Flow, w: Counter)
    requires step.Packet?
    ensures Balances(order, s, orphan, step, f, w)
  {
    hide Apply, Hit, AddStats;
    PacketFlow(order, s, step, f);
  }

  lemma ScanBalances(order: DiffOrder, s: System, orphan: Option<FlowStats>, visits: seq<Visit>, f: V4Flow, w: Counter)
    requires Covers(visits, s.kernel) && BaseWithinKernel(s) && OrphanFits(s, orphan, f)
    ensures Balances(order, s, orphan, ScanStep(visits), f, w)
  {
    hide Scan, DiffStats;
    ScanFlow(order, s, visits, f);
  }

  lemma DeleteBalances(order: DiffOrder, s: System, orphan: Option<FlowStats>, step: Step, f: V4Flow, w: Counter)
    requires step.DeleteStep? && step.which < |s.pending| && BaseWithinKernel(s) && OrphanFits(s, orphan, f)
    ensures Balances(order, s, orphan, step, f, w)
  {
    hide Apply, Delete;
    DeleteFlow(order, s, step, f);
  }

  lemma StepBalances(order: DiffOrder, s: System, orphan: Option<FlowStats>, step: Step, f: V4Flow, w: Counter)
    requires BaseWithinKernel(s) && OrphanFits(s, orphan, f)
    requires step.ScanStep? ==> Covers(step.visits, s.kernel)
    requires step.DeleteStep? ==> step.which < |s.pending|
    ensures Balances(order, s, orphan, step, f, w)
  {
    hide Balances;
    match step
    case Packet(_, _, _) => PacketBalances(order, s, orphan, step, f, w);
    case ScanStep(visits) => ScanBalances(order, s, orphan, visits, f, w);
    case DeleteStep(_, _) => DeleteBalances(order, s, orphan, step, f, w);
  }

  lemma OrphanFitsNext(order: DiffOrder, s: System, orphan: Option<FlowStats>, step: Step, f: V4Flow)
    requires BaseWithinKernel(s) && OrphanFits(s, orphan, f)
    requires step.DeleteStep? ==> step.which < |s.pending|
    ensures OrphanFits(Apply(order, s, step), OrphanNext(s, step, f, orphan), f)
  {
    hide Apply;
    match step
    case Packet(_, _, _) => PacketFlow(order, s, step, f);
    case ScanStep(_) =>
    case DeleteStep(_, _) => DeleteFlow(order, s, step, f);
  }

  lemma {:induction false} OrphansFit(order: DiffOrder, run: Run, f: V4Flow)
    requires Legal(order, run)
    ensures OrphanFits(At(order, run), Orphan(order, run, f), f)
  {
    hide Apply, OrphanNext;
    if run.Then? {
      OrphansFit(order, run.before, f);
      SnapshotsAreLive(order, run.before);
      OrphanFitsNext(order, At(order, run.before), Orphan(order, run.before, f), run.step, f);
    }
  }

  /**
   End-to-end accounting, for either order of overwrite and difference and every interleaving of
   packets, scans and delete batches, with or without failing kernel deletes and 64-bit overflow.
   */
  lemma {:induction false} TrafficIsAccountedFor(order: DiffOrder, run: Run, f: V4Flow, w: Counter)
    requires Legal(order, run)
    ensures Book(order, run, f, Accepted, w) + Book(order, run, f, Recounted, w)
            == Book(order, run, f, Credited, w) + Book(order, run, f, Discarded, w)
               + Book(order, run, f, Overflowed, w) + Book(order, run, f, Skipped, w)
               + Awaiting(At(order, run), Orphan(order, run, f), f, w)
  {
    hide Apply, Posting, OrphanNext, Awaiting;
    if run.Then? {
      TrafficIsAccountedFor(order, run.before, f, w);
      SnapshotsAreLive(order, run.before);
      OrphansFit(order, run.before, f);
      StepBalances(order, At(order, run.before), Orphan(order, run.before, f), run.step, f, w);
    } else {
      NothingAwaitingAtBoot(f, w);
    }
  }

  lemma NothingAwaitingAtBoot(f: V4Flow, w: Counter)
    ensures Awaiting(BOOTED, None, f, w) == 0
  {}

  // ---------------------------------------------------------------- without overflow

  /** No atomic add on flow `f` has wrapped. */
  ghost predicate Exact(order: DiffOrder, run: Run, f: V4Flow) {
    forall w: Counter :: Book(order, run, f, Overflowed, w) == 0
  }

  lemma OverflowPosting(order: DiffOrder, s: System, orphan: Option<FlowStats>, step: Step, f: V4Flow, w: Counter)
    ensures Posting(order, s, orphan, step, f, Overflowed, w) >= 0
    ensures step.Packet? && Normalized(step.tuple, step.dir) == f && !Rejected(s.kernel, f) ==>
              (Posting(order, s, orphan, step, f, Overflowed, w) == 0
               <==> KernelValue(s, f).Get(w) + Hit(step.dir, step.len).Get(w) < TWO_64)
  {}

  lemma {:induction false} OverflowGrows(order: DiffOrder, run: Run, f: V4Flow, w: Counter)
    ensures Book(order, run, f, Overflowed, w) >= 0
    ensures run.Then? && Book(order, run, f, Overflowed, w) == 0 ==>
              && Book(order, run.before, f, Overflowed, w) == 0
              && Posting(order, At(order, run.before), Orphan(order, run.before, f), run.step, f, Overflowed, w) == 0
  {
    hide Posting, Apply;
    if run.Then? {
      OverflowGrows(order, run.before, f, w);
      OverflowPosting(order, At(order, run.before), Orphan(order, run.before, f), run.step, f, w);
    }
  }

  lemma BelowLiveStep(order: DiffOrder, s: System, orphan: Option<FlowStats>, step: Step, f: V4Flow, w: Counter)
    requires BaseWithinKernel(s) && SnapshotValue(s, f).Get(w) <= KernelValue(s, f).Get(w)
    requires Posting(order, s, orphan, step, f, Overflowed, w) == 0
    requires step.ScanStep? ==> Covers(step.visits, s.kernel)
    requires step.DeleteStep? ==> step.which < |s.pending|
    ensures var s' := Apply(order, s, step); SnapshotValue(s', f).Get(w) <= KernelValue(s', f).Get(w)
  {
    hide Scan, Delete;
    match step
    case Packet(_, dir, len) =>
      PacketFlow(order, s, step, f);
      OverflowPosting(order, s, orphan, step, f, w);
    case ScanStep(visits) => ScanFlow(order, s, visits, f);
    case DeleteStep(_, _) => DeleteFlow(order, s, step, f);
  }

  /**
   Every snapshot is at most the live counters, counter by counter, as long as no atomic add on
   this counter has wrapped.
   */
  lemma {:induction false} SnapshotCounterBelowLive(order: DiffOrder, run: Run, f: V4Flow, w: Counter)
    requires Legal(order, run) && Book(order, run, f, Overflowed, w) == 0
    ensures SnapshotValue(At(order, run), f).Get(w) <= KernelValue(At(order, run), f).Get(w)
  {
    hide Apply, Posting;
    if run.Then? {
      OverflowGrows(order, run, f, w);
      SnapshotCounterBelowLive(order, run.before, f, w);
      SnapshotsAreLive(order, run.before);
      BelowLiveStep(order, At(order, run.before), Orphan(order, run.before, f), run.step, f, w);
    }
  }

  /** Hence the counter-reset branch of `diffFlowStats` is never taken and no scan skips anything. */
  lemma {:induction false} SnapshotBelowLive(order: DiffOrder, run: Run, f: V4Flow)
    requires Legal(order, run) && Exact(order, run, f)
    ensures SnapshotValue(At(order, run), f).AtMost(KernelValue(At(order, run), f))
    ensures order == DiffFirst ==> forall w: Counter :: Book(order, run, f, Skipped, w) == 0
  {
    hide Apply;
    SnapshotCounterBelowLive(order, run, f, OutBytes);
    SnapshotCounterBelowLive(order, run, f, OutPackets);
    SnapshotCounterBelowLive(order, run, f, InBytes);
    SnapshotCounterBelowLive(order, run, f, InPackets);
    if run.Then? {
      ExactBefore(order, run, f);
      SnapshotBelowLive(order, run.before, f);
    }
  }

  lemma ExactBefore(order: DiffOrder, run: Run, f: V4Flow)
    requires run.Then? && Exact(order, run, f)
    ensures Exact(order, run.before, f)
  {
    forall w: Counter ensures Book(order, run.before, f, Overflowed, w) == 0 {
      OverflowGrows(order, run, f, w);
    }
  }

  lemma KernelStep(order: DiffOrder, s: System, orphan: Option<FlowStats>, step: Step, f: V4Flow, w: Counter)
    requires step.DeleteStep? ==> step.which < |s.pending|
    ensures var hit := Posting(order, s, orphan, step, f, Accepted, w);
            && 0 <= hit
            && KernelValue(Apply(order, s, step), f).Get(w) <= KernelValue(s, f).Get(w) + hit
            && (KernelValue(s, f).Get(w) + hit < TWO_64 ==> Posting(order, s, orphan, step, f, Overflowed, w) == 0)
  {
    hide Scan, Delete;
    match step
    case Packet(_, dir, len) =>
      PacketFlow(order, s, step, f);
      OverflowPosting(order, s, orphan, step, f, w);
    case ScanStep(_) =>
    case DeleteStep(_, _) => DeleteFlow(order, s, step, f);
  }

  /** Live counters never exceed what was accepted; nothing wraps while the accepted total is below 2^64. */
  lemma {:induction false} KernelBelowAccepted(order: DiffOrder, run: Run, f: V4Flow, w: Counter)
    requires Legal(order, run)
    ensures 0 <= KernelValue(At(order, run), f).Get(w) <= Book(order, run, f, Accepted, w)
    ensures Book(order, run, f, Accepted, w) < TWO_64 ==> Book(order, run, f, Overflowed, w) == 0
  {
    hide Apply, Posting;
    if run.Then? {
      KernelBelowAccepted(order, run.before, f, w);
      KernelStep(order, At(order, run.before), Orphan(order, run.before, f), run.step, f, w);
    }
  }

  // ---------------------------------------------------------------- the order as written

  /**
   Through the shared pointer every difference is zero: a scan credits a flow at first sight and
   never again until its snapshot is deleted. The intended order credits exactly what was missing.
   */
  lemma ScanCredits(s: System, f: V4Flow, w: Counter)
    requires BaseWithinKernel(s)
    ensures ScanDelta(OverwriteFirst, s, f) == if f in s.kernel && f !in s.agent.base then s.kernel[f] else ZERO
    ensures SnapshotValue(s, f).AtMost(KernelValue(s, f)) ==> ScanDelta(DiffFirst, s, f).Get(w) == Uncredited(s, f, w)
  {}

  /** Every scan that found `f` in the base map found its counters unmoved. */
  predicate NeverMoved(order: DiffOrder, run: Run, f: V4Flow) {
    match run
    case Boot => true
    case Then(before, step) =>
      var s := At(order, before);
      NeverMoved(order, before, f) && (step.ScanStep? && f in s.agent.base && f in s.kernel ==> IdleAt(s, f))
  }

  lemma SkippedStep(s: System, orphan: Option<FlowStats>, step: Step, f: V4Flow)
    requires SnapshotValue(s, f).AtMost(KernelValue(s, f))
    ensures forall w: Counter :: Posting(OverwriteFirst, s, orphan, step, f, Skipped, w) >= 0
    ensures (forall w: Counter :: Posting(OverwriteFirst, s, orphan, step, f, Skipped, w) == 0)
            <==> (step.ScanStep? && f in s.agent.base && f in s.kernel ==> IdleAt(s, f))
  {
    if (forall w: Counter :: Posting(OverwriteFirst, s, orphan, step, f, Skipped, w) == 0)
       && step.ScanStep? && f in s.agent.base && f in s.kernel {
      forall w: Counter ensures KernelValue(s, f).Get(w) == SnapshotValue(s, f).Get(w) {
        assert Posting(OverwriteFirst, s, orphan, step, f, Skipped, w) == 0;
      }
      SameCounters(s.kernel[f], s.agent.base[f].stats);
    }
  }

  ghost predicate Lossless(order: DiffOrder, run: Run, f: V4Flow) {
    forall w: Counter :: Book(order, run, f, Skipped, w) == 0
  }

  /**
   When the written order loses nothing: on counters that never wrapped, it skips no traffic of
   `f` exactly when no scan after first sight saw the flow's counters move.
   */
  lemma {:induction false} WrittenOrderSkipsUnlessIdle(run: Run, f: V4Flow)
    requires Legal(OverwriteFirst, run) && Exact(OverwriteFirst, run, f)
    ensures forall w: Counter :: Book(OverwriteFirst, run, f, Skipped, w) >= 0
    ensures Lossless(OverwriteFirst, run, f) <==> NeverMoved(OverwriteFirst, run, f)
  {
    hide Apply, Posting, IdleAt;
    if run.Then? {
      ExactBefore(OverwriteFirst, run, f);
      WrittenOrderSkipsUnlessIdle(run.before, f);
      SnapshotBelowLive(OverwriteFirst, run.before, f);
      var s := At(OverwriteFirst, run.before);
      var orphan := Orphan(OverwriteFirst, run.before, f);
      SkippedStep(s, orphan, run.step, f);
      assert forall w: Counter :: Book(OverwriteFirst, run, f, Skipped, w)
                                  == Book(OverwriteFirst, run.before, f, Skipped, w) + Posting(OverwriteFirst, s, orphan, run.step, f, Skipped, w);
      if Lossless(OverwriteFirst, run, f) {
        forall w: Counter
          ensures Book(OverwriteFirst, run.before, f, Skipped, w) == 0 && Posting(OverwriteFirst, s, orphan, run.step, f, Skipped, w) == 0
        {
          assert Book(OverwriteFirst, run, f, Skipped, w) == 0;
        }
      }
    }
  }

  // ---------------------------------------------------------------- failed deletes

  /** The step is a scan that reads as new an entry whose snapshot a failed delete had dropped. */
  predicate RereadsOrphan(orphan: Option<FlowStats>, step: Step) {
    step.ScanStep? && orphan.Some?
  }

  predicate NoOrphanReread(order: DiffOrder, run: Run, f: V4Flow) {
    run.Then? ==> NoOrphanReread(order, run.before, f) && !RereadsOrphan(Orphan(order, run.before, f), run.step)
  }

  ghost predicate NeverRecounted(order: DiffOrder, run: Run, f: V4Flow) {
    forall w: Counter :: Book(order, run, f, Recounted, w) == 0
  }

  /** The packet counters of `f` have not wrapped. */
  ghost predicate PacketsExact(order: DiffOrder, run: Run, f: V4Flow) {
    Book(order, run, f, Overflowed, OutPackets) == 0 && Book(order, run, f, Overflowed, InPackets) == 0
  }

  function PacketCount(x: FlowStats): int {
    x.Get(OutPackets) + x.Get(InPackets)
  }

  /** Whatever is in the kernel map or in the base map has counted a packet. */
  ghost predicate ShowsPackets(s: System, f: V4Flow) {
    && (f in s.kernel ==> PacketCount(KernelValue(s, f)) >= 1)
    && (f in s.agent.base ==> PacketCount(SnapshotValue(s, f)) >= 1)
  }

  lemma ShowsPacketsNext(order: DiffOrder, s: System, orphan: Option<FlowStats>, step: Step, f: V4Flow)
    requires BaseWithinKernel(s) && ShowsPackets(s, f)
    requires Posting(order, s, orphan, step, f, Overflowed, OutPackets) == 0 && Posting(order, s, orphan, step, f, Overflowed, InPackets) == 0
    requires step.ScanStep? ==> Covers(step.visits, s.kernel)
    requires step.DeleteStep? ==> step.which < |s.pending|
    ensures ShowsPackets(Apply(order, s, step), f)
  {
    hide Apply, Posting, Covers;
    match step
    case Packet(_, _, _) =>
      PacketFlow(order, s, step, f);
      OverflowPosting(order, s, orphan, step, f, OutPackets);
      OverflowPosting(order, s, orphan, step, f, InPackets);
    case ScanStep(visits) =>
      ScanApplied(order, s, visits);
      ScanFlow(order, s, visits, f);
    case DeleteStep(_, _) => DeleteFlow(order, s, step, f);
  }

  lemma {:induction false} AlwaysShowsPackets(order: DiffOrder, run: Run, f: V4Flow)
    requires Legal(order, run)
    requires PacketsExact(order, run, f)
    ensures ShowsPackets(At(order, run), f)
  {
    hide Apply, Posting, ShowsPackets;
    if run.Then? {
      OverflowGrows(order, run, f, OutPackets);
      OverflowGrows(order, run, f, InPackets);
      AlwaysShowsPackets(order, run.before, f);
      SnapshotsAreLive(order, run.before);
      ShowsPacketsNext(order, At(order, run.before), Orphan(order, run.before, f), run.step, f);
    } else {
      NothingShownAtBoot(f);
    }
  }

  lemma NothingShownAtBoot(f: V4Flow)
    ensures ShowsPackets(BOOTED, f)
  {}

  lemma {:induction false} OrphanShowsPackets(order: DiffOrder, run: Run, f: V4Flow)
    requires Legal(order, run) && PacketsExact(order, run, f)
    ensures Orphan(order, run, f).Some? ==> PacketCount(Orphan(order, run, f).value) >= 1
  {
    hide Apply, Posting;
    if run.Then? {
      OverflowGrows(order, run, f, OutPackets);
      OverflowGrows(order, run, f, InPackets);
      OrphanShowsPackets(order, run.before, f);
      AlwaysShowsPackets(order, run.before, f);
    }
  }

  lemma RecountedStep(order: DiffOrder, s: System, orphan: Option<FlowStats>, step: Step, f: V4Flow)
    requires orphan.Some? ==> PacketCount(orphan.value) >= 1
    ensures forall w: Counter :: Posting(order, s, orphan, step, f, Recounted, w) >= 0
    ensures (forall w: Counter :: Posting(order, s, orphan, step, f, Recounted, w) == 0) <==> !RereadsOrphan(orphan, step)
  {
    if RereadsOrphan(orphan, step) {
      assert Posting(order, s, orphan, step, f, Recounted, OutPackets) + Posting(order, s, orphan, step, f, Recounted, InPackets) >= 1;
    }
  }

  /**
   The exact condition: of a flow whose packet counters did not wrap, nothing is credited a second
   time if and only if no scan reads as new an entry whose snapshot a failed delete had dropped.
   */
  lemma {:induction false} RecountedIffOrphanReread(order: DiffOrder, run: Run, f: V4Flow)
    requires Legal(order, run) && PacketsExact(order, run, f)
    ensures forall w: Counter :: Book(order, run, f, Recounted, w) >= 0
    ensures NeverRecounted(order, run, f) <==> NoOrphanReread(order, run, f)
  {
    hide Apply, Posting, OrphanNext, RereadsOrphan;
    if run.Then? {
      var s, orphan := At(order, run.before), Orphan(order, run.before, f);
      OverflowGrows(order, run, f, OutPackets);
      OverflowGrows(order, run, f, InPackets);
      RecountedIffOrphanReread(order, run.before, f);
      OrphanShowsPackets(order, run.before, f);
      RecountedStep(order, s, orphan, run.step, f);
      assert forall w: Counter :: Book(order, run, f, Recounted, w)
                                  == Book(order, run.before, f, Recounted, w) + Posting(order, s, orphan, run.step, f, Recounted, w);
      if NeverRecounted(order, run, f) {
        forall w: Counter
          ensures Book(order, run.before, f, Recounted, w) == 0 && Posting(order, s, orphan, run.step, f, Recounted, w) == 0
        {
          assert Book(order, run, f, Recounted, w) == 0;
        }
      }
    }
  }

  lemma AwaitingStep(order: DiffOrder, s: System, orphan: Option<FlowStats>, step: Step, f: V4Flow, w: Counter)
    requires BaseWithinKernel(s) && OrphanFits(s, orphan, f) && Awaiting(s, orphan, f, w) >= 0
    requires Posting(order, s, orphan, step, f, Overflowed, w) == 0
    requires step.ScanStep? ==> Covers(step.visits, s.kernel)
    requires step.DeleteStep? ==> step.which < |s.pending|
    ensures Awaiting(Apply(order, s, step), OrphanNext(s, step, f, orphan), f, w) >= 0
  {
    hide Apply, Posting, Covers;
    match step
    case Packet(_, _, _) =>
      PacketFlow(order, s, step, f);
      OverflowPosting(order, s, orphan, step, f, w);
    case ScanStep(visits) =>
      ScanApplied(order, s, visits);
      ScanFlow(order, s, visits, f);
    case DeleteStep(_, _) => DeleteFlow(order, s, step, f);
  }

  /** What was credited of a live entry, by a snapshot or before its snapshot was dropped, is at most its counters. */
  lemma {:induction false} AwaitingIsNatural(order: DiffOrder, run: Run, f: V4Flow, w: Counter)
    requires Legal(order, run) && Book(order, run, f, Overflowed, w) == 0
    ensures Awaiting(At(order, run), Orphan(order, run, f), f, w) >= 0
    ensures Book(order, run, f, Discarded, w) >= 0
  {
    hide Apply, Awaiting, Uncredited, OrphanNext, Hit;
    if run.Then? {
      OverflowGrows(order, run, f, w);
      AwaitingIsNatural(order, run.before, f, w);
      SnapshotsAreLive(order, run.before);
      OrphansFit(order, run.before, f);
      AwaitingStep(order, At(order, run.before), Orphan(order, run.before, f), run.step, f, w);
    } else {
      NothingAwaitingAtBoot(f, w);
    }
  }

  /**
   The plain form: with fewer than 2^64 bytes accepted, and no orphan read again, accepted traffic
   is credited (at most once), still awaiting a scan, discarded, or skipped; and it is skipped only
   by the written order, when a scan finds counters moved since first sight.
   */
  lemma TrafficBalances(order: DiffOrder, run: Run, f: V4Flow, w: Counter)
    requires Legal(order, run) && NoOrphanReread(order, run, f)
    requires forall w': Counter :: Book(order, run, f, Accepted, w') < TWO_64
    ensures Book(order, run, f, Accepted, w)
            == Book(order, run, f, Credited, w) + Awaiting(At(order, run), Orphan(order, run, f), f, w)
               + Book(order, run, f, Discarded, w) + Book(order, run, f, Skipped, w)
    ensures Awaiting(At(order, run), Orphan(order, run, f), f, w) >= 0
    ensures Book(order, run, f, Discarded, w) >= 0 && Book(order, run, f, Skipped, w) >= 0
    ensures Book(order, run, f, Credited, w) <= Book(order, run, f, Accepted, w)
    ensures Lossless(order, run, f) <==> order == DiffFirst || NeverMoved(order, run, f)
  {
    hide Book, At, Legal, NoOrphanReread, NeverMoved, Orphan, Awaiting;
    forall w': Counter ensures Book(order, run, f, Overflowed, w') == 0 {
      KernelBelowAccepted(order, run, f, w');
    }
    TrafficIsAccountedFor(order, run, f, w);
    RecountedIffOrphanReread(order, run, f);
    AwaitingIsNatural(order, run, f, w);
    SnapshotBelowLive(order, run, f);
    if order == OverwriteFirst {
      WrittenOrderSkipsUnlessIdle(run, f);
    }
  }

  // ---------------------------------------------------------------- the kernel map against the packet trace

  function PacketsSeen(run: Run, tuple: V4Flow, dir: Direction): nat {
    match run
    case Boot => 0
    case Then(before, step) =>
      PacketsSeen(before, tuple, dir) + if step.Packet? && step.tuple == tuple && step.dir == dir then 1 else 0
  }

  function BytesSeen(run: Run, tuple: V4Flow, dir: Direction): nat {
    match run
    case Boot => 0
    case Then(before, step) =>
      BytesSeen(before, tuple, dir) + if step.Packet? && step.tuple == tuple && step.dir == dir then step.len else 0
  }

  /** The direct count of what counter `w` of key `f` stands for. */
  function Seen(run: Run, f: V4Flow, w: Counter): nat {
    match w
    case OutBytes => BytesSeen(run, f, Ingress)
    case OutPackets => PacketsSeen(run, f, Ingress)
    case InBytes => BytesSeen(run, f.Reverse(), Egress)
    case InPackets => PacketsSeen(run, f.Reverse(), Egress)
  }

  /**
   The accepted column is the packet trace itself: out counts ingress packets with tuple `f`, in
   counts egress packets with the reversed tuple.
   */
  lemma {:induction false} AcceptedIsTheTrace(order: DiffOrder, run: Run, f: V4Flow, w: Counter)
    ensures Book(order, run, f, Accepted, w) == Seen(run, f, w)
  {
    hide Apply, At;
    if run.Then? {
      AcceptedIsTheTrace(order, run.before, f, w);
      if run.step.Packet? {
        ConversationSharesKey(run.step.tuple, f);
        ConversationSharesKey(f, run.step.tuple);
        assert run.step.tuple.Reverse().Reverse() == run.step.tuple && f.Reverse().Reverse() == f;
      }
    }
  }

  /** No packet of `f` met a full map and no delete batch named `f`. */
  predicate Undisturbed(order: DiffOrder, run: Run, f: V4Flow) {
    match run
    case Boot => true
    case Then(before, step) =>
      var s := At(order, before);
      && Undisturbed(order, before, f)
      && (step.Packet? && Normalized(step.tuple, step.dir) == f ==> !Rejected(s.kernel, f))
      && (step.DeleteStep? && step.which < |s.pending| ==> f !in s.pending[step.which].flows)
  }

  /** Left undisturbed, the kernel entry is the packet trace, modulo 2^64. */
  lemma {:induction false} KernelCountsTheTrace(order: DiffOrder, run: Run, f: V4Flow, w: Counter)
    requires Legal(order, run) && Undisturbed(order, run, f)
    ensures KernelValue(At(order, run), f).Get(w) == Mod64(Seen(run, f, w))
    ensures f in At(order, run).kernel <==> Seen(run, f, OutPackets) > 0 || Seen(run, f, InPackets) > 0
  {
    hide Apply, Seen, Posting, KernelValue;
    if run.Then? {
      KernelCountsTheTrace(order, run.before, f, w);
      TraceStep(order, At(order, run.before), Orphan(order, run.before, f), run.step, f, w);
      AcceptedIsTheTrace(order, run, f, w);
      AcceptedIsTheTrace(order, run.before, f, w);
      AcceptedIsTheTrace(order, run, f, OutPackets);
      AcceptedIsTheTrace(order, run.before, f, OutPackets);
      AcceptedIsTheTrace(order, run, f, InPackets);
      AcceptedIsTheTrace(order, run.before, f, InPackets);
      Mod64Plus(Seen(run.before, f, w), Posting(order, At(order, run.before), Orphan(order, run.before, f), run.step, f, Accepted, w));
    } else {
      NothingAtBoot(f, w);
      AcceptedIsTheTrace(order, run, f, w);
      AcceptedIsTheTrace(order, run, f, OutPackets);
      AcceptedIsTheTrace(order, run, f, InPackets);
    }
  }

  lemma NothingAtBoot(f: V4Flow, w: Counter)
    ensures f !in BOOTED.kernel && KernelValue(BOOTED, f).Get(w) == 0
  {}

  lemma TraceStep(order: DiffOrder, s: System, orphan: Option<FlowStats>, step: Step, f: V4Flow, w: Counter)
    requires step.Packet? && Normalized(step.tuple, step.dir) == f ==> !Rejected(s.kernel, f)
    requires step.DeleteStep? ==> step.which < |s.pending| && f !in s.pending[step.which].flows
    ensures var s' := Apply(order, s, step);
            && KernelValue(s', f).Get(w) == Mod64(KernelValue(s, f).Get(w) + Posting(order, s, orphan, step, f, Accepted, w))
            && (f in s'.kernel <==> f in s.kernel || Posting(order, s, orphan, step, f, Accepted, OutPackets) > 0
                                    || Posting(order, s, orphan, step, f, Accepted, InPackets) > 0)
            && Posting(order, s, orphan, step, f, Accepted, OutPackets) >= 0
            && Posting(order, s, orphan, step, f, Accepted, InPackets) >= 0
  {
    hide Apply, AddStats, Rejected, ScanDelta;
    match step
    case Packet(_, _, _) => PacketFlow(order, s, step, f);
    case ScanStep(visits) => ScanApplied(order, s, visits);
    case DeleteStep(_, _) => DeleteFlow(order, s, step, f);
  }
}
