/**
 The agent over the racing kernel: processors take single steps of `KernelRace` between the scans
 and delete batches of `Pipeline`. Snapshots stay below the live counters exactly as long as no
 processor replaces an entry by a smaller one after a scan has read it; when one does, the
 counter-reset branch of `diffFlowStats` is taken. The ledgers of both sides join into one.
 */
module RacingAgent {
  import opened Statistics
  import opened Flows
  import opened KernelMap
  import opened Agent
  import opened Pipeline
  import opened Accounting
  import opened Aging
  import KernelRace

  datatype Joint = Joint(m: KernelRace.Machine, agent: AgentState, pending: seq<Batch>, scans: nat)

  /** One step of a processor, or one scan or delete batch of the agent. */
  datatype Turn = Processor(move: KernelRace.Move) | AgentTurn(step: Step)

  /** A history, newest turn last. */
  datatype Story = Start(processors: nat) | Later(before: Story, turn: Turn)

  /** What the agent sees: the live cells as a flow map. */
  ghost function SystemOf(j: Joint): System
    requires KernelRace.Linked(j.m)
  {
    System(KernelRace.View(j.m), j.agent, j.pending, j.scans)
  }

  /** Agent turns are the steps of `Pipeline`; keys they delete from the kernel map leave the machine. */
  ghost function NextJoint(order: DiffOrder, j: Joint, turn: Turn): (j': Joint)
    requires KernelRace.Linked(j.m)
    ensures KernelRace.Linked(j'.m)
  {
    match turn
    case Processor(move) =>
      KernelRace.LinkedNext(j.m, move);
      j.(m := KernelRace.Next(j.m, move))
    case AgentTurn(step) =>
      var s := Apply(order, SystemOf(j), step);
      Joint(j.m.(live := j.m.live - (j.m.live.Keys - s.kernel.Keys)), s.agent, s.pending, s.scans)
  }

  ghost function JointAt(order: DiffOrder, story: Story): (j: Joint)
    ensures KernelRace.Linked(j.m)
  {
    match story
    case Start(n) =>
      KernelRace.AlwaysLinked(KernelRace.Begin(n));
      Joint(KernelRace.After(KernelRace.Begin(n)), NEW_AGENT, [], 0)
    case Later(before, turn) => NextJoint(order, JointAt(order, before), turn)
  }

  /** Only the agent deletes keys, only processors count packets, and scans read the map of their moment. */
  ghost predicate LegalTurn(j: Joint, turn: Turn)
    requires KernelRace.Linked(j.m)
  {
    match turn
    case Processor(move) => !move.Forget?
    case AgentTurn(step) =>
      && !step.Packet?
      && (step.ScanStep? ==> Covers(step.visits, KernelRace.View(j.m)))
      && (step.DeleteStep? ==> step.which < |j.pending|)
  }

  ghost predicate LegalStory(order: DiffOrder, story: Story) {
    story.Later? ==> LegalStory(order, story.before) && LegalTurn(JointAt(order, story.before), story.turn)
  }

  /** No add has wrapped a counter of `f`. */
  ghost predicate NoCarry(order: DiffOrder, story: Story, f: V4Flow) {
    story.Later? ==>
      && NoCarry(order, story.before, f)
      && (story.turn.Processor? ==>
            forall w :: KernelRace.Posting(JointAt(order, story.before).m, story.turn.move, f, w, KernelRace.Carried) == 0)
  }

  /** An insert puts counters below the snapshot in place of the entry the snapshot was taken from. */
  predicate Undercuts(j: Joint, turn: Turn, f: V4Flow) {
    && turn.Processor? && KernelRace.InsertsOver(j.m, turn.move, f) && f in j.agent.base
    && var pc := j.m.cpus[turn.move.cpu];
       !j.agent.base[f].stats.AtMost(Hit(pc.dir, pc.len))
  }

  ghost predicate NeverUndercut(order: DiffOrder, story: Story, f: V4Flow) {
    story.Later? ==> NeverUndercut(order, story.before, f) && !Undercuts(JointAt(order, story.before), story.turn, f)
  }

  ghost predicate BelowLive(j: Joint, f: V4Flow)
    requires KernelRace.Linked(j.m)
  {
    SnapshotValue(SystemOf(j), f).AtMost(KernelValue(SystemOf(j), f))
  }

  /** In every state of the story the snapshot of `f` was at most its live counters. */
  ghost predicate AlwaysBelowLive(order: DiffOrder, story: Story, f: V4Flow) {
    BelowLive(JointAt(order, story), f) && (story.Later? ==> AlwaysBelowLive(order, story.before, f))
  }

  // ---------------------------------------------------------------- agent turns are pipeline steps

  lemma AgentTurnIsStep(order: DiffOrder, j: Joint, step: Step)
    requires KernelRace.Linked(j.m) && LegalTurn(j, AgentTurn(step))
    ensures SystemOf(NextJoint(order, j, AgentTurn(step))) == Apply(order, SystemOf(j), step)
  {
    hide Scan, Delete, Covers;
    var s := Apply(order, SystemOf(j), step);
    var view := KernelRace.View(NextJoint(order, j, AgentTurn(step)).m);
    assert view.Keys == s.kernel.Keys;
    assert forall k :: k in view ==> view[k] == s.kernel[k];
    assert view == s.kernel;
  }

  // ---------------------------------------------------------------- processor turns

  lemma ViewIsRecorded(j: Joint, f: V4Flow, w: Counter)
    requires KernelRace.Linked(j.m)
    ensures KernelValue(SystemOf(j), f).Get(w) == KernelRace.Recorded(j.m, f, w)
    ensures f in SystemOf(j).kernel <==> f in j.m.live
  {}

  /** A processor's step keeps keys, and keeps or raises the counters of `f` unless it inserts over it. */
  lemma MoveRecords(m: KernelRace.Machine, move: KernelRace.Move, f: V4Flow, w: Counter)
    requires KernelRace.Linked(m) && !move.Forget?
    requires KernelRace.Posting(m, move, f, w, KernelRace.Carried) == 0
    ensures var m' := KernelRace.Next(m, move);
            && (f in m.live ==> f in m'.live)
            && (if KernelRace.InsertsOver(m, move, f)
                then KernelRace.Recorded(m', f, w) == Hit(m.cpus[move.cpu].dir, m.cpus[move.cpu].len).Get(w)
                else KernelRace.Recorded(m', f, w) >= KernelRace.Recorded(m, f, w))
  {
    hide Hit, Normalized, KernelRace.AddTo, KernelRace.Recorded, KernelRace.Insert, Mod64, KernelRace.Linked;
    var m' := KernelRace.Next(m, move);
    if move.Arrive? {
      KernelRace.RecordedAlike(m, m', f);
    } else if move.cpu < |m.cpus| {
      match m.cpus[move.cpu]
      case Idle =>
      case Missed(key, dir, len) =>
        InsertRecords(m, move.cpu, f, w);
      case Found(_, _, _, _) => AddRecords(m, move.cpu, f, w);
      case BytesAdded(_, _, _) => AddRecords(m, move.cpu, f, w);
    }
  }

  lemma InsertRecords(m: KernelRace.Machine, cpu: nat, f: V4Flow, w: Counter)
    requires KernelRace.Linked(m) && cpu < |m.cpus| && m.cpus[cpu].Missed?
    ensures var pc := m.cpus[cpu];
            var m' := KernelRace.Next(m, KernelRace.Advance(cpu));
            && (f in m.live ==> f in m'.live)
            && (if pc.key == f && f in m.live then KernelRace.Recorded(m', f, w) == Hit(pc.dir, pc.len).Get(w)
                else KernelRace.Recorded(m', f, w) >= KernelRace.Recorded(m, f, w))
  {
    hide Hit, KernelRace.Insert;
    var pc := m.cpus[cpu];
    KernelRace.InsertRecorded(m, pc.key, pc.dir, pc.len, f, w);
    KernelRace.RecordedAlike(KernelRace.Insert(m, pc.key, pc.dir, pc.len), KernelRace.Next(m, KernelRace.Advance(cpu)), f);
  }

  lemma AddRecords(m: KernelRace.Machine, cpu: nat, f: V4Flow, w: Counter)
    requires KernelRace.Linked(m) && cpu < |m.cpus| && (m.cpus[cpu].Found? || m.cpus[cpu].BytesAdded?)
    requires KernelRace.Posting(m, KernelRace.Advance(cpu), f, w, KernelRace.Carried) == 0
    ensures var m' := KernelRace.Next(m, KernelRace.Advance(cpu));
            m'.live == m.live && KernelRace.Recorded(m', f, w) >= KernelRace.Recorded(m, f, w)
  {
    hide Mod64, KernelRace.AddTo, KernelRace.Recorded, Hit;
    var pc := m.cpus[cpu];
    var counter := if pc.Found? then ByteCounter(pc.dir) else PacketCounter(pc.dir);
    var n: nat := if pc.Found? then pc.len else 1;
    KernelRace.AddToKeepsCpus(m, pc.cell, counter, n);
    KernelRace.AddToRecorded(m, pc.key, pc.cell, counter, n, f, w);
    KernelRace.RecordedAlike(KernelRace.AddTo(m, pc.cell, counter, n), KernelRace.Next(m, KernelRace.Advance(cpu)), f);
  }

  // ---------------------------------------------------------------- invariants over stories

  lemma WithinAfterProcessor(order: DiffOrder, j: Joint, move: KernelRace.Move)
    requires KernelRace.Linked(j.m) && !move.Forget? && BaseWithinKernel(SystemOf(j))
    ensures BaseWithinKernel(SystemOf(NextJoint(order, j, Processor(move))))
  {
    forall f | f in j.agent.base ensures f in KernelRace.Next(j.m, move).live {
      assert f in SystemOf(j).kernel;
      KeyStays(j.m, move, f);
    }
  }

  lemma KeyStays(m: KernelRace.Machine, move: KernelRace.Move, f: V4Flow)
    requires !move.Forget? && f in m.live
    ensures f in KernelRace.Next(m, move).live
  {
    hide Hit, Normalized, KernelRace.Bump;
  }

  lemma WithinAfterStep(order: DiffOrder, s: System, step: Step)
    requires BaseWithinKernel(s) && !step.Packet?
    requires step.ScanStep? ==> Covers(step.visits, s.kernel)
    requires step.DeleteStep? ==> step.which < |s.pending|
    ensures BaseWithinKernel(Apply(order, s, step))
  {
    hide Apply, Covers;
    var s' := Apply(order, s, step);
    forall f | f in s'.agent.base ensures f in s'.kernel {
      match step
      case ScanStep(visits) =>
        ScanApplied(order, s, visits);
        ScanFlow(order, s, visits, f);
      case DeleteStep(_, _) => DeleteFlow(order, s, step, f);
    }
  }

  lemma {:induction false} RacingSnapshotsAreLive(order: DiffOrder, story: Story)
    requires LegalStory(order, story)
    ensures BaseWithinKernel(SystemOf(JointAt(order, story)))
  {
    hide NextJoint, SystemOf, Covers, KernelRace.Linked;
    if story.Later? {
      RacingSnapshotsAreLive(order, story.before);
      var j := JointAt(order, story.before);
      match story.turn
      case Processor(move) => WithinAfterProcessor(order, j, move);
      case AgentTurn(step) =>
        SystemOfFields(j);
        AgentTurnIsStep(order, j, step);
        WithinAfterStep(order, SystemOf(j), step);
    } else {
      NothingAtStart(order, story.processors, ANY_FLOW);
    }
  }

  lemma SystemOfFields(j: Joint)
    requires KernelRace.Linked(j.m)
    ensures SystemOf(j).kernel == KernelRace.View(j.m) && SystemOf(j).pending == j.pending && SystemOf(j).agent == j.agent
  {}

  lemma NothingAtStart(order: DiffOrder, n: nat, f: V4Flow)
    ensures BaseWithinKernel(SystemOf(JointAt(order, Start(n)))) && BelowLive(JointAt(order, Start(n)), f)
  {}

  lemma BelowAfterProcessor(order: DiffOrder, j: Joint, move: KernelRace.Move, f: V4Flow)
    requires KernelRace.Linked(j.m) && !move.Forget? && BaseWithinKernel(SystemOf(j)) && BelowLive(j, f)
    requires forall w :: KernelRace.Posting(j.m, move, f, w, KernelRace.Carried) == 0
    ensures BelowLive(NextJoint(order, j, Processor(move)), f) <==> !Undercuts(j, Processor(move), f)
  {
    hide KernelRace.Next, KernelRace.Posting, KernelRace.Recorded, KernelRace.View, Hit;
    var j' := NextJoint(order, j, Processor(move));
    forall w
      ensures KernelValue(SystemOf(j), f).Get(w) == KernelRace.Recorded(j.m, f, w)
      ensures KernelValue(SystemOf(j'), f).Get(w) == KernelRace.Recorded(j'.m, f, w)
      ensures if KernelRace.InsertsOver(j.m, move, f)
              then KernelRace.Recorded(j'.m, f, w) == Hit(j.m.cpus[move.cpu].dir, j.m.cpus[move.cpu].len).Get(w)
              else KernelRace.Recorded(j'.m, f, w) >= KernelRace.Recorded(j.m, f, w)
    {
      ViewIsRecorded(j, f, w);
      ViewIsRecorded(j', f, w);
      MoveRecords(j.m, move, f, w);
    }
    AtMostPointwise(SnapshotValue(SystemOf(j), f), KernelValue(SystemOf(j), f));
    AtMostPointwise(SnapshotValue(SystemOf(j'), f), KernelValue(SystemOf(j'), f));
    if KernelRace.InsertsOver(j.m, move, f) {
      AtMostPointwise(SnapshotValue(SystemOf(j'), f), Hit(j.m.cpus[move.cpu].dir, j.m.cpus[move.cpu].len));
    }
  }

  lemma AtMostPointwise(a: FlowStats, b: FlowStats)
    ensures a.AtMost(b) <==> forall w: Counter :: a.Get(w) <= b.Get(w)
  {
    if forall w: Counter :: a.Get(w) <= b.Get(w) {
      assert a.Get(OutBytes) <= b.Get(OutBytes) && a.Get(OutPackets) <= b.Get(OutPackets);
      assert a.Get(InBytes) <= b.Get(InBytes) && a.Get(InPackets) <= b.Get(InPackets);
    }
  }

  lemma BelowAfterStep(order: DiffOrder, s: System, step: Step, f: V4Flow)
    requires BaseWithinKernel(s) && !step.Packet? && SnapshotValue(s, f).AtMost(KernelValue(s, f))
    requires step.ScanStep? ==> Covers(step.visits, s.kernel)
    requires step.DeleteStep? ==> step.which < |s.pending|
    ensures var s' := Apply(order, s, step); SnapshotValue(s', f).AtMost(KernelValue(s', f))
  {
    hide Apply, Covers;
    match step
    case ScanStep(visits) =>
      ScanApplied(order, s, visits);
      ScanFlow(order, s, visits, f);
    case DeleteStep(_, _) => DeleteFlow(order, s, step, f);
  }

  lemma BelowAfterTurn(order: DiffOrder, j: Joint, turn: Turn, f: V4Flow)
    requires KernelRace.Linked(j.m) && LegalTurn(j, turn) && BaseWithinKernel(SystemOf(j)) && BelowLive(j, f)
    requires turn.Processor? ==> forall w :: KernelRace.Posting(j.m, turn.move, f, w, KernelRace.Carried) == 0
    ensures BelowLive(NextJoint(order, j, turn), f) <==> !Undercuts(j, turn, f)
  {
    hide NextJoint, Covers, KernelRace.Posting;
    match turn
    case Processor(move) => BelowAfterProcessor(order, j, move, f);
    case AgentTurn(step) =>
      AgentTurnIsStep(order, j, step);
      BelowAfterStep(order, SystemOf(j), step, f);
  }

  /**
   The exact condition, over every interleaving of processors, scans and delete batches in which no
   add on `f` wraps: its snapshot stays below its live counters throughout, so that the reset
   branch is never taken, if and only if no insert undercuts a snapshot.
   */
  lemma {:induction false} SnapshotsBelowLiveIffNeverUndercut(order: DiffOrder, story: Story, f: V4Flow)
    requires LegalStory(order, story) && NoCarry(order, story, f)
    ensures AlwaysBelowLive(order, story, f) <==> NeverUndercut(order, story, f)
  {
    hide NextJoint, BelowLive, Undercuts, LegalTurn, KernelRace.Linked, KernelRace.Posting;
    if story.Later? {
      SnapshotsBelowLiveIffNeverUndercut(order, story.before, f);
      RacingSnapshotsAreLive(order, story.before);
      if AlwaysBelowLive(order, story.before, f) {
        assert BelowLive(JointAt(order, story.before), f);
        BelowAfterTurn(order, JointAt(order, story.before), story.turn, f);
      }
    } else {
      NothingAtStart(order, story.processors, f);
    }
  }

  /** In particular, where every insert of `f` finds it absent, the agent never sees a counter go back. */
  ghost predicate CleanStory(order: DiffOrder, story: Story, f: V4Flow) {
    story.Later? ==>
      && CleanStory(order, story.before, f)
      && (story.turn.Processor? ==> !KernelRace.InsertsOver(JointAt(order, story.before).m, story.turn.move, f))
  }

  lemma {:induction false} CleanStoriesAreNeverUndercut(order: DiffOrder, story: Story, f: V4Flow)
    requires CleanStory(order, story, f)
    ensures NeverUndercut(order, story, f)
  {
    hide JointAt, KernelRace.InsertsOver;
    if story.Later? {
      CleanStoriesAreNeverUndercut(order, story.before, f);
    }
  }

  // ---------------------------------------------------------------- from arriving packets to credits

  /** The dropped snapshot of `f` while its entry outlives a failed kernel delete. */
  ghost function JointOrphan(order: DiffOrder, story: Story, f: V4Flow): Option<FlowStats> {
    match story
    case Start(_) => None
    case Later(before, turn) =>
      if turn.Processor? then JointOrphan(order, before, f)
      else OrphanNext(SystemOf(JointAt(order, before)), turn.step, f, JointOrphan(order, before, f))
  }

  /** What the processors' steps posted to one fate. */
  ghost function RaceBook(order: DiffOrder, story: Story, f: V4Flow, fate: KernelRace.Fate, w: Counter): int {
    match story
    case Start(_) => 0
    case Later(before, turn) =>
      RaceBook(order, before, f, fate, w)
      + if turn.Processor? then KernelRace.Posting(JointAt(order, before).m, turn.move, f, w, fate) else 0
  }

  /** What the agent's turns posted to one column. */
  ghost function AgentBook(order: DiffOrder, story: Story, f: V4Flow, col: Column, w: Counter): int {
    match story
    case Start(_) => 0
    case Later(before, turn) =>
      AgentBook(order, before, f, col, w)
      + if turn.AgentTurn? then Posting(order, SystemOf(JointAt(order, before)), JointOrphan(order, before, f), turn.step, f, col, w)
        else 0
  }

  /** Started traffic that never reaches a reader: refused, overwritten, added too late or wrapped away. */
  ghost function LostInRace(order: DiffOrder, story: Story, f: V4Flow, w: Counter): int {
    RaceBook(order, story, f, KernelRace.Refused, w) + RaceBook(order, story, f, KernelRace.Overwritten, w)
    + RaceBook(order, story, f, KernelRace.Late, w) + RaceBook(order, story, f, KernelRace.Carried, w)
  }

  ghost function JointAwaiting(order: DiffOrder, story: Story, f: V4Flow, w: Counter): int {
    Awaiting(SystemOf(JointAt(order, story)), JointOrphan(order, story, f), f, w)
  }

  lemma OrphanFitsAfterTurn(order: DiffOrder, j: Joint, orphan: Option<FlowStats>, turn: Turn, f: V4Flow)
    requires KernelRace.Linked(j.m) && LegalTurn(j, turn) && BaseWithinKernel(SystemOf(j)) && OrphanFits(SystemOf(j), orphan, f)
    ensures var orphan' := if turn.Processor? then orphan else OrphanNext(SystemOf(j), turn.step, f, orphan);
            OrphanFits(SystemOf(NextJoint(order, j, turn)), orphan', f)
  {
    hide KernelRace.Next, Apply, Covers;
    match turn
    case Processor(move) =>
      if f in j.m.live {
        KeyStays(j.m, move, f);
      }
    case AgentTurn(step) =>
      AgentTurnIsStep(order, j, step);
      OrphanFitsNext(order, SystemOf(j), orphan, step, f);
  }

  lemma {:induction false} JointOrphansFit(order: DiffOrder, story: Story, f: V4Flow)
    requires LegalStory(order, story)
    ensures OrphanFits(SystemOf(JointAt(order, story)), JointOrphan(order, story, f), f)
  {
    hide NextJoint, SystemOf, LegalTurn, OrphanFits, OrphanNext, KernelRace.Linked;
    if story.Later? {
      JointOrphansFit(order, story.before, f);
      RacingSnapshotsAreLive(order, story.before);
      OrphanFitsAfterTurn(order, JointAt(order, story.before), JointOrphan(order, story.before, f), story.turn, f);
    } else {
      NoOrphanFits(SystemOf(JointAt(order, story)), f);
    }
  }

  lemma NoOrphanFits(s: System, f: V4Flow)
    ensures OrphanFits(s, None, f)
  {}

  /** A processor's step: what starts is recorded, pending or lost in the race. */
  lemma ProcessorTurnBalances(order: DiffOrder, j: Joint, orphan: Option<FlowStats>, move: KernelRace.Move, f: V4Flow, w: Counter)
    requires KernelRace.Linked(j.m) && !move.Forget?
    ensures var j' := NextJoint(order, j, Processor(move));
            KernelRace.Posting(j.m, move, f, w, KernelRace.Started)
            + KernelRace.Pending(j.m, f, w) + Awaiting(SystemOf(j), orphan, f, w)
            == KernelRace.Posting(j.m, move, f, w, KernelRace.Refused) + KernelRace.Posting(j.m, move, f, w, KernelRace.Overwritten)
               + KernelRace.Posting(j.m, move, f, w, KernelRace.Late) + KernelRace.Posting(j.m, move, f, w, KernelRace.Carried)
               + KernelRace.Pending(j'.m, f, w) + Awaiting(SystemOf(j'), orphan, f, w)
  {
    hide KernelRace.Next, KernelRace.Pending, KernelRace.Recorded, KernelRace.Posting, KernelRace.View, KernelValue;
    var j' := NextJoint(order, j, Processor(move));
    KernelRace.MoveSettles(j.m, move, f, w);
    KernelRace.NothingRemoved(j.m, move, f, w);
    ViewIsRecorded(j, f, w);
    ViewIsRecorded(j', f, w);
  }

  /** An agent turn leaves the processors alone and balances like a step of `Pipeline`. */
  lemma AgentTurnBalances(order: DiffOrder, j: Joint, orphan: Option<FlowStats>, step: Step, f: V4Flow, w: Counter)
    requires KernelRace.Linked(j.m) && LegalTurn(j, AgentTurn(step)) && BaseWithinKernel(SystemOf(j)) && OrphanFits(SystemOf(j), orphan, f)
    ensures var s, j' := SystemOf(j), NextJoint(order, j, AgentTurn(step));
            && KernelRace.Pending(j'.m, f, w) == KernelRace.Pending(j.m, f, w)
            && Posting(order, s, orphan, step, f, Recounted, w) + Awaiting(s, orphan, f, w)
               == Posting(order, s, orphan, step, f, Credited, w) + Posting(order, s, orphan, step, f, Discarded, w)
                  + Posting(order, s, orphan, step, f, Skipped, w)
                  + Awaiting(SystemOf(j'), OrphanNext(s, step, f, orphan), f, w)
  {
    hide Apply, Awaiting, OrphanNext, Covers, KernelRace.View, KernelRace.Linked;
    SystemOfFields(j);
    AgentTurnIsStep(order, j, step);
    StepBalances(order, SystemOf(j), orphan, step, f, w);
    AgentPostsNoTraffic(order, SystemOf(j), orphan, step, f, w);
  }

  lemma AgentPostsNoTraffic(order: DiffOrder, s: System, orphan: Option<FlowStats>, step: Step, f: V4Flow, w: Counter)
    requires !step.Packet?
    ensures Posting(order, s, orphan, step, f, Accepted, w) == 0 && Posting(order, s, orphan, step, f, Overflowed, w) == 0
  {}

  /**
   End-to-end accounting over racing processors, for every interleaving of their steps with scans and
   delete batches: what started at the hooks, plus what was credited twice, is credited, discarded or
   skipped by the agent, lost in the race, pending on a processor, or awaiting a scan.
   */
  lemma {:induction false} RacingTrafficIsAccountedFor(order: DiffOrder, story: Story, f: V4Flow, w: Counter)
    requires LegalStory(order, story)
    ensures RaceBook(order, story, f, KernelRace.Started, w) + AgentBook(order, story, f, Recounted, w)
            == AgentBook(order, story, f, Credited, w) + AgentBook(order, story, f, Discarded, w)
               + AgentBook(order, story, f, Skipped, w) + LostInRace(order, story, f, w)
               + KernelRace.Pending(JointAt(order, story).m, f, w) + JointAwaiting(order, story, f, w)
  {
    hide NextJoint, SystemOf, LegalTurn, Awaiting, OrphanNext, OrphanFits, Posting,
         KernelRace.Linked, KernelRace.Posting, KernelRace.Pending;
    if story.Later? {
      var j, orphan := JointAt(order, story.before), JointOrphan(order, story.before, f);
      RacingTrafficIsAccountedFor(order, story.before, f, w);
      RacingSnapshotsAreLive(order, story.before);
      JointOrphansFit(order, story.before, f);
      match story.turn
      case Processor(move) =>
        LegalMove(j, move);
        ProcessorTurnBalances(order, j, orphan, move, f, w);
      case AgentTurn(step) => AgentTurnBalances(order, j, orphan, step, f, w);
    } else {
      NothingStarted(order, story.processors, f, w);
    }
  }

  lemma LegalMove(j: Joint, move: KernelRace.Move)
    requires KernelRace.Linked(j.m) && LegalTurn(j, Processor(move))
    ensures !move.Forget?
  {}

  lemma NothingStarted(order: DiffOrder, n: nat, f: V4Flow, w: Counter)
    ensures KernelRace.Pending(JointAt(order, Start(n)).m, f, w) == 0 && Awaiting(SystemOf(JointAt(order, Start(n))), None, f, w) == 0
  {
    KernelRace.NothingPending(n, f, w);
  }

  // ---------------------------------------------------------------- the reset branch is reachable

  /** Two processors miss `f` together; a scan reads the first insert before the second one replaces it. */
  function ResetStory(v: Visit, a: uint32, b: uint32): Story {
    Later(Later(Later(Later(Later(Start(2),
      Processor(KernelRace.Arrive(0, v.flow, Ingress, a))), Processor(KernelRace.Arrive(1, v.flow, Ingress, b))),
      Processor(KernelRace.Advance(0))), AgentTurn(ScanStep([v]))), Processor(KernelRace.Advance(1)))
  }

  /** The machine before the scan is that of the race without the agent. */
  lemma ResetMachine(order: DiffOrder, v: Visit, a: uint32, b: uint32)
    ensures var j := JointAt(order, ResetStory(v, a, b).before.before);
            && j.m == KernelRace.After(KernelRace.Race(v.flow, a, b).before)
            && j.agent == NEW_AGENT && j.pending == []
  {
    hide KernelRace.Next, KernelRace.Linked;
    var story := ResetStory(v, a, b).before.before;
    var trace := KernelRace.Race(v.flow, a, b).before;
    assert JointAt(order, story.before.before.before).m == KernelRace.After(trace.before.before.before);
    assert JointAt(order, story.before.before).m == KernelRace.After(trace.before.before);
    assert JointAt(order, story.before).m == KernelRace.After(trace.before);
  }

  /** Then the snapshot exceeds the live counters, and the next scan sees them moved and yet merges nothing. */
  lemma ResetBranchIsReachable(order: DiffOrder, v: Visit, a: uint32, b: uint32)
    requires v.value == Hit(Ingress, a) && b < a
    ensures var story := ResetStory(v, a, b);
            var s := SystemOf(JointAt(order, story));
            && LegalStory(order, story)
            && v.flow in s.kernel && !IdleAt(s, v.flow)
            && !BelowLive(JointAt(order, story), v.flow)
            && ScanDelta(order, s, v.flow) == ZERO
  {
    hide Scan, JointAt, KernelRace.Linked, KernelRace.After;
    var story := ResetStory(v, a, b);
    KernelRace.RaceStates(v.flow, a, b);
    ResetMachine(order, v, a, b);
    ResetScan(order, v, a, b);
    ResetIsLegal(order, v, a, b);
  }

  /** After the scan and the second insert. */
  lemma ResetScan(order: DiffOrder, v: Visit, a: uint32, b: uint32)
    requires v.value == Hit(Ingress, a)
    ensures var story := ResetStory(v, a, b);
            var before, s := SystemOf(JointAt(order, story.before.before)), SystemOf(JointAt(order, story));
            && before.kernel == map[v.flow := v.value] && Covers([v], before.kernel)
            && v.flow in s.kernel && s.kernel[v.flow] == Hit(Ingress, b)
            && v.flow in s.agent.base && s.agent.base[v.flow].stats == Hit(Ingress, a)
  {
    hide Hit, Apply, Scan, Covers;
    KernelRace.RaceStates(v.flow, a, b);
    ResetMachine(order, v, a, b);
    var story := ResetStory(v, a, b);
    var j := JointAt(order, story.before.before);
    var s := SystemOf(j);
    assert s.kernel == map[v.flow := v.value];
    CoversOne(s.kernel, v);
    AgentTurnIsStep(order, j, ScanStep([v]));
    ScanApplied(order, s, [v]);
    ScanFlow(order, s, [v], v.flow);
    assert JointAt(order, story.before).m == j.m;
  }

  lemma ResetIsLegal(order: DiffOrder, v: Visit, a: uint32, b: uint32)
    requires Covers([v], KernelRace.View(JointAt(order, ResetStory(v, a, b).before.before).m))
    ensures LegalStory(order, ResetStory(v, a, b))
  {
    hide NextJoint, Covers, KernelRace.Linked;
    var story := ResetStory(v, a, b);
    assert LegalStory(order, story.before.before.before.before);
    assert LegalStory(order, story.before.before);
  }
}
