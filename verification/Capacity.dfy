/**
 The kernel map holds 65535 flows. Up to that many, no packet is turned away and every entry is the
 packet trace; beyond, exactly the packets of new flows that meet a full map are.
 */
module Capacity {
  import opened Statistics
  import opened Flows
  import opened KernelMap
  import opened Agent
  import opened Pipeline
  import opened Accounting
  import opened HookTotals

  lemma {:induction false} SubsetSize<T>(a: set<T>, b: set<T>)
    requires a <= b
    ensures |a| <= |b|
    decreases a
  {
    if a != {} {
      var x :| x in a;
      SubsetSize(a - {x}, b - {x});
    }
  }

  /** In every reachable state the kernel map has at most 65535 entries. */
  lemma {:induction false} KernelNeverExceedsItsSize(order: DiffOrder, run: Run)
    ensures |At(order, run).kernel| <= 65535
  {
    hide Apply;
    if run.Then? {
      KernelNeverExceedsItsSize(order, run.before);
      SizeAfterStep(order, At(order, run.before), run.step);
    }
  }

  lemma SizeAfterStep(order: DiffOrder, s: System, step: Step)
    requires |s.kernel| <= 65535
    ensures |Apply(order, s, step).kernel| <= 65535
  {
    hide Scan, Delete, Hit, AddStats;
    var m, m' := s.kernel, Apply(order, s, step).kernel;
    if step.Packet? {
      var key := Normalized(step.tuple, step.dir);
      if m' != m {
        assert m'.Keys == m.Keys + {key};
        if key in m {
          assert m'.Keys == m.Keys;
        }
      }
    } else if step.DeleteStep? && step.which < |s.pending| {
      SubsetSize(m'.Keys, m.Keys);
    }
  }

  /** So a packet is turned away exactly when its flow is new and the map holds 65535 flows. */
  lemma RejectedIffFull(order: DiffOrder, run: Run, f: V4Flow)
    ensures Rejected(At(order, run).kernel, f) <==> f !in At(order, run).kernel && |At(order, run).kernel| == 65535
  {
    hide At;
    KernelNeverExceedsItsSize(order, run);
  }

  /** No packet of the run met a full map. */
  predicate RejectsNone(order: DiffOrder, run: Run) {
    match run
    case Boot => true
    case Then(before, step) =>
      && RejectsNone(order, before)
      && (step.Packet? ==> !Rejected(At(order, before).kernel, Normalized(step.tuple, step.dir)))
  }

  /** A run that uses at most 65535 flow keys rejects no packet. */
  lemma {:induction false} FewFlowsAreNeverRejected(order: DiffOrder, run: Run)
    requires Legal(order, run) && |FlowsOf(run)| <= 65535
    ensures RejectsNone(order, run)
  {
    hide At, Covers;
    if run.Then? {
      SubsetSize(FlowsOf(run.before), FlowsOf(run));
      FewFlowsAreNeverRejected(order, run.before);
      if run.step.Packet? {
        NewFlowFits(order, run.before, Normalized(run.step.tuple, run.step.dir), FlowsOf(run));
      }
    }
  }

  lemma NewFlowFits(order: DiffOrder, run: Run, f: V4Flow, flows: set<V4Flow>)
    requires Legal(order, run) && FlowsOf(run) <= flows && f in flows && |flows| <= 65535
    ensures !Rejected(At(order, run).kernel, f)
  {
    hide At;
    var m := At(order, run).kernel;
    KernelWithinFlows(order, run);
    if f !in m {
      assert m.Keys <= flows - {f};
      SubsetSize(m.Keys, flows - {f});
      assert |m| == |m.Keys|;
    }
  }

  /** No delete batch that ran named `f`. */
  predicate NeverReaped(order: DiffOrder, run: Run, f: V4Flow) {
    match run
    case Boot => true
    case Then(before, step) =>
      && NeverReaped(order, before, f)
      && (step.DeleteStep? && step.which < |At(order, before).pending| ==> f !in At(order, before).pending[step.which].flows)
  }

  lemma {:induction false} NeverRejectedIsUndisturbed(order: DiffOrder, run: Run, f: V4Flow)
    requires RejectsNone(order, run) && NeverReaped(order, run, f)
    ensures Undisturbed(order, run, f)
  {
    hide At;
    if run.Then? {
      NeverRejectedIsUndisturbed(order, run.before, f);
    }
  }

  /** With at most 65535 flow keys, the entry of a flow that was never deleted is its packet trace modulo 2^64. */
  lemma FewFlowsAreCounted(order: DiffOrder, run: Run, f: V4Flow, w: Counter)
    requires Legal(order, run) && |FlowsOf(run)| <= 65535 && NeverReaped(order, run, f)
    ensures KernelValue(At(order, run), f).Get(w) == Mod64(Seen(run, f, w))
    ensures f in At(order, run).kernel <==> Seen(run, f, OutPackets) > 0 || Seen(run, f, InPackets) > 0
  {
    hide At, Legal, Seen, RejectsNone, NeverReaped, Undisturbed;
    FewFlowsAreNeverRejected(order, run);
    NeverRejectedIsUndisturbed(order, run, f);
    KernelCountsTheTrace(order, run, f, w);
  }
}
