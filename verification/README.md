# Flow accounting of the pod and service statistics agent, in Dafny

The program under study counts packets per flow in a kernel hash map (a cgroup eBPF program), scans
that map periodically from a Go agent, folds differences into per-pod, per-service and
pod-service totals, publishes them as gauges, and ages and deletes entries that stop moving.

The model follows that pipeline.

- `Packet`, `Flows`, `KernelMap`, `Capacity`: bytes of a packet to a flow key to the update of the
  bounded flow map.
- `KernelRace`: the same update on N processors, lookup, insert and the two adds as separate steps.
- `RacingAgent`: the agent over that racing kernel.
- `Agent`: one scan (visit, difference, merge, age, queue) and one delayed delete, as functions.
- `AgentHeap`: the same as the source writes it, with maps of pointers to mutable entries; every
  method is proved equal to the function of `Agent`.
- `HeapRuns`: calls of that program as steps of the state machine below.
- `Pipeline`: kernel map, agent and pending delete batches as one state machine over packets, scans
  and deletes in any order.
- `Accounting`, `Aggregates`, `HookTotals`, `Bounds`, `Balance`: ledgers over whole runs.
- `Aging`, `DeleteSafety`, `Liveness`: what ages count, when deletes are safe, which aggregates exist.
- `Gauges`, `GaugeAgreement`: the published values against the aggregates.
- `ScanOrder`, `Mirror`: what iteration order and capturing hook do not change.
- `Names`, `AddressText`, `NameIndex`, `Informers`: endpoint names, their parsing, and the tables
  behind them.
- `Statistics`, `Text`: the four counters with 64-bit wrap-around, integer sums, and
  string search.

Time is the number of the scan. A delete step names the flows whose kernel delete fails. Every
visit of a scan carries what the name tables answered for it, so tables may change between visits.

## Where the code differs from what it seems to mean

The model keeps the code's behaviour; the theorems say what follows from it.

- The snapshot is overwritten before the difference is taken through the same pointer
  (`pkg/statsagent/inet_v4_flow.go:275-279`), so every later difference is zero.
  `AgentHeap` proves this of the heap program. Properties of the order the code seems to intend
  are proved for a scan that takes the difference first (`DiffOrder`), and
  `Accounting.WrittenOrderSkipsUnlessIdle` and `HookTotals.WrittenTotalsLagUnlessIdle` say exactly
  when the written order meets them.
- The pod-service map receives swapped counters (`pkg/statsagent/inet_v4_flow.go:200-210`), so the
  `pod_to_svc_*` series, documented as pod-to-service, carry the service-to-pod direction.
- `(pod, svc)` and `(svc, pod)` publish under the same labels, so agreement of gauges and
  aggregates holds for pods and services; `GaugeAgreement.PairGaugesAgreeIff` says exactly when it
  holds for a pair.
- A delete batch overtaken by a scan may delete an entry that scan refreshed, and a flow queued
  twice may be deleted unread; `DeleteSafety` says exactly when no batch does either.
- A failed kernel delete still drops the snapshot, and the flow is credited again from its full
  value; `Accounting.RecountedIffOrphanReread` says exactly when nothing is credited twice.
- Two processors that miss one key together overwrite each other's entry;
  `KernelRace.RaceLosesNothingIffCleanMoves` says exactly when the counters stay true, and
  `RacingAgent.SnapshotsBelowLiveIffNeverUndercut` when the agent never sees one go back.

## Model

| member | source | states |
|---|---|---|
| Accounting.TrafficIsAccountedFor | pkg/statsagent/inet_v4_flow.go:256-281 | Over every interleaving of packets, scans and delayed deletes, for each flow and counter: accepted + credited a second time after failed kernel deletes = credited to merges + discarded + dropped by 64-bit wrap + skipped by scans + what the kernel holds and no merge has seen; both for the written and the intended order of overwrite and difference |
| Accounting.TrafficBalances | pkg/statsagent/inet_v4_flow.go:258-280 | Either order, fewer than 2^64 bytes, no scan that reads as new an entry whose snapshot a failed delete dropped: accepted = credited + awaiting a scan + discarded + skipped, nothing negative, so nothing is credited twice; skipped is zero iff the order is the intended one or no scan found the flow moved |
| Accounting.RecountedIffOrphanReread | pkg/statsagent/inet_v4_flow.go:333-338 | Of a flow whose packet counters did not wrap, nothing is credited a second time iff no scan reads as new an entry whose snapshot was dropped while its kernel delete failed |
| Accounting.AwaitingIsNatural | pkg/statsagent/inet_v4_flow.go:333-338 | What was credited of a live entry, also before its snapshot was dropped, never exceeds its counters, and nothing negative is discarded |
| Accounting.SnapshotCounterBelowLive | pkg/statsagent/inet_v4_flow.go:256-281 | In every reachable state each snapshot counter is at most the live counter while that counter has never wrapped |
| Accounting.SnapshotBelowLive | pkg/statsagent/metrics.go:40-54 | Hence the counter-reset branch of the difference is never taken, and the intended order skips nothing |
| Accounting.KernelBelowAccepted | ebpf/kernel/bpf_cgroup_kern.c:152-159 | Live counters never exceed what the hooks accepted; nothing wraps while less than 2^64 was accepted |
| Accounting.ScanCredits | pkg/statsagent/inet_v4_flow.go:258-280 | What a scan merges for a flow: under the written order the full value at first sight and zero ever after; under the intended order exactly the uncredited amount |
| Accounting.WrittenOrderSkipsUnlessIdle | pkg/statsagent/inet_v4_flow.go:268-280 | The written order skips no traffic of a flow if and only if no scan after first sight found its counters moved |
| Accounting.AcceptedIsTheTrace | ebpf/kernel/include/flow.h:40-51 | The accepted column of a key is the packet trace: out counts ingress packets with its tuple, in counts egress packets with the reversed tuple |
| Accounting.KernelCountsTheTrace | ebpf/kernel/bpf_cgroup_kern.c:85-99 | Without rejections and deletes of the key, the kernel entry is the packet and byte count of the trace modulo 2^64, and exists iff a packet was seen |
| Capacity.FewFlowsAreCounted | ebpf/kernel/bpf_cgroup_kern.c:85-99 | With at most 65535 flow keys no packet is rejected, so the entry of a flow never deleted is its packet trace modulo 2^64 |
| Capacity.FewFlowsAreNeverRejected | ebpf/kernel/include/ebpf_maps.h:6-13 | A run that uses at most 65535 flow keys rejects no packet |
| Capacity.KernelNeverExceedsItsSize | ebpf/kernel/include/ebpf_maps.h:6-13 | In every reachable state the kernel map has at most 65535 entries |
| Capacity.RejectedIffFull | ebpf/kernel/bpf_cgroup_kern.c:92-96 | In every reachable state a packet is turned away iff its flow is new and the map holds 65535 flows |
| Pipeline.SnapshotsAreLive | pkg/statsagent/inet_v4_flow.go:329-338 | In every reachable state, whatever kernel deletes fail, the agent remembers only flows the kernel map still holds |
| Pipeline.EveryBatchRunsOnceOrWaits | pkg/statsagent/inet_v4_flow.go:320-353 | Over every run each batch a scan queued has run exactly once or is still pending |
| Pipeline.ScanFlow | pkg/statsagent/inet_v4_flow.go:256-281 | Effect of a whole scan on one flow: remembered iff in the kernel; unchanged flows age by one, all others are fresh copies of the kernel value; queued iff unchanged with the limit reached |
| Agent.MergeAccrues | pkg/statsagent/inet_v4_flow.go:111-239 | One merge, seen from any aggregate: it exists afterwards iff it did or was fed, its counters grow modulo 2^64 by the oriented amount, fed entries are fresh, no other entry moves |
| Agent.VisitAllAccrues | pkg/statsagent/inet_v4_flow.go:256-281 | The visiting loop: every aggregate accrued the sum of its visits' contributions, each judged against the base map before the scan |
| Agent.VisitAllBase | pkg/statsagent/inet_v4_flow.go:256-281 | The visiting loop: each visited flow's snapshot and its place in the delete list depend on that flow alone |
| Agent.ScanEffect | pkg/statsagent/inet_v4_flow.go:256-316 | A whole scan, aggregate by aggregate: credited entries have age zero, all others age by one, and exactly those uncredited entries whose age reaches the limit are queued |
| Statistics.AddStats | pkg/statsagent/metrics.go:33-38 | Each counter is added modulo 2^64 on its own |
| Statistics.DiffStats | pkg/statsagent/metrics.go:40-54 | The difference undoes addition when no counter went back; one counter going back zeroes all; zero iff equal or gone back |
| AgentHeap.InetV4FlowMetricsEntry.constructor | pkg/statsagent/inet_v4_flow.go:77-86 | The new agent is the empty abstract state with no shared entries |
| AgentHeap.FlowStatsEntry.Add | pkg/statsagent/metrics.go:175-179 | In place: counters added with wrap, age reset, stamp set |
| AgentHeap.InetV4FlowMetricsEntry.MergeStats | pkg/statsagent/inet_v4_flow.go:111-239 | The eight-way fold over maps of pointers computes the specification merge on the values they lead to, and keeps all entries distinct |
| AgentHeap.InetV4FlowMetricsEntry.Accumulate | pkg/statsagent/inet_v4_flow.go:275-280 | Through the shared pointer the difference is taken between the new value and itself |
| AgentHeap.InetV4FlowMetricsEntry.VisitFlow | pkg/statsagent/inet_v4_flow.go:257-280 | One loop turn equals the specification step of the written order |
| AgentHeap.InetV4FlowMetricsEntry.UpdateStats | pkg/statsagent/inet_v4_flow.go:241-318 | The whole update, visiting and three aging loops, with name tables that may differ at every visit, equals the specification scan of the written order, and its four lists are the specification batch |
| HeapRuns.UpdateIsScanStep | pkg/statsagent/inet_v4_flow.go:251-316 | Over a listing of the kernel map the state and the lists an update leaves are those of a legal scan step, so what is proved of runs in the written order holds of the heap program |
| HeapRuns.ListingCovers | pkg/statsagent/inet_v4_flow.go:256-256 | An update over a listing reads every key once with its value, in whatever order and however the tables change |
| HeapRuns.FixedTablesResolve | pkg/statsagent/inet_v4_flow.go:264-264 | While the tables stay put every flow is classified by its source and its destination address, in that order |
| HeapRuns.FirstUpdate | pkg/statsagent/inet_v4_flow.go:111-133 | On the heap: after a new agent's first update over one flow, the pod that is its source holds exactly the kernel's counters, and the pod that is its destination holds them exchanged; nothing else exists |
| AgentHeap.AgeEntries | pkg/statsagent/inet_v4_flow.go:283-294 | The aging loop bumps exactly the unstamped entries and lists exactly those due |
| AgentHeap.InetV4FlowMetricsEntry.Reap | pkg/statsagent/inet_v4_flow.go:320-353 | The delete goroutine removes the four lists from the agent's maps, and from the kernel map all listed flows but those whose delete failed |
| Aggregates.AggregateIsSumOfCredits | pkg/statsagent/inet_v4_flow.go:111-239 | Over every run each aggregate counter is, modulo 2^64, the sum of all amounts credited since the entry was created |
| Aggregates.WrittenAggregatesHoldFirstSights | pkg/statsagent/inet_v4_flow.go:258-280 | Over every run of the code as written, each aggregate holds the oriented sum of first-sight values of the flow lifetimes merged into it since it was created, and nothing else |
| Aggregates.SecondPacketIsSkipped | pkg/statsagent/inet_v4_flow.go:275-280 | A legal run in which the written order sees and scans two packets, credits one and skips the other |
| Aggregates.PacketIsCreditedTwice | pkg/statsagent/inet_v4_flow.go:333-338 | A legal run, for either order, in which a failed kernel delete makes one packet be credited twice |
| HookTotals.AggregateAccounting | pkg/statsagent/inet_v4_flow.go:111-281 | Over every run with fixed tables, deletes and failures included, what the hooks saw for an aggregate is what it was ever credited plus what is outstanding on the flows that feed it |
| HookTotals.AggregatesShowScannedHits | pkg/statsagent/inet_v4_flow.go:256-281 | Tables may change at any time; intended order, the aggregate and the flows that fed it never deleted, of those flows nothing rejected or wrapped: each packet is credited to whoever its addresses resolve to in the first scan that reads it |
| HookTotals.ScannedAggregateShowsHits | pkg/statsagent/inet_v4_flow.go:256-281 | Fixed tables, right after a scan, the aggregate and its flows never deleted, of its flows nothing rejected or wrapped, whatever happens to others: it shows the hook hits modulo 2^64, always for the intended order, and for the written order when no scan found one of its flows moved |
| HookTotals.WrittenTotalsLagUnlessIdle | pkg/statsagent/inet_v4_flow.go:268-280 | Written order, same runs: credits never exceed the hook hits, and reach them iff no scan found a flow of that aggregate with moved counters |
| HookTotals.EndpointTotalsAreHookHits | pkg/statsagent/inet_v4_flow.go:150-168 | In the same runs a pod's or service's tx counters are the egress and ingress hits of packets it is the source of, rx of those it is the destination of, so a packet between two local pods counts once per hook; packets with an address that is both pod and service count nowhere |
| HookTotals.PairTotalsAreHookHits | pkg/statsagent/inet_v4_flow.go:186-211 | In the same runs the counters of a pod-service pair are the hits between its endpoints, in the reversed direction |
| HookTotals.PairSeriesAreReversed | pkg/statsagent/podsvcpromsubsystem.go:26-48 | From whichever key they are published, the two pod_to_svc series show only packets sent by the service to the pod, the two svc_to_pod series only the reverse |
| Aging.AgingCountsIdleScans | pkg/statsagent/inet_v4_flow.go:268-274 | Over every run the uint8 age of a flow is its number of trailing scans with unchanged value, modulo 256 |
| Aging.QueuedFlowsWereIdle | pkg/statsagent/inet_v4_flow.go:268-274 | Under every interleaving a flow is queued only when three scans in a row found it unchanged |
| Aging.PromptAgingIsExact | pkg/statsagent/inet_v4_flow.go:268-274 | If every batch runs before the next scan, ages equal the idle-scan count and stay at most 3 |
| DeleteSafety.FlowDeletesSafeIffNothingExposed | pkg/statsagent/inet_v4_flow.go:268-338 | Over every interleaving: whichever batch runs next, at any moment, deletes only kernel entries the agent remembers and found idle for three scans, iff no step exposes a flow a pending batch names: a scan finding it new or moved, a packet bringing back its key, a kernel delete failing while another batch names it |
| DeleteSafety.NothingUnreadIffNothingStirred | pkg/statsagent/inet_v4_flow.go:329-338 | Over every interleaving: no batch, whenever it runs, deletes counts that no scan has read, iff no packet of a named flow is counted and no failed delete leaves one to another batch |
| DeleteSafety.UnreadEntryCanBeDeleted | pkg/statsagent/inet_v4_flow.go:320-338 | A legal run in which a flow queued twice is deleted, brought back by a packet, and deleted again unread |
| DeleteSafety.PromptFlowDeletesAreSafe | pkg/statsagent/inet_v4_flow.go:329-338 | Running each batch before the next scan is sufficient for that |
| DeleteSafety.SlotDeletesSafeIffNotOvertaken | pkg/statsagent/inet_v4_flow.go:283-350 | The same for the three aggregate maps: only aggregates without a credit for three scans are deleted, iff no scan credits what a pending batch names |
| DeleteSafety.PromptSlotDeletesAreSafe | pkg/statsagent/inet_v4_flow.go:339-350 | Running each batch before the next scan is sufficient for that too |
| Aging.PromptDeletesIdleFlowsOnly | pkg/statsagent/inet_v4_flow.go:329-338 | In prompt runs batches hold flows idle for exactly three scans |
| Aging.PromptBatchesAreCurrent | pkg/statsagent/inet_v4_flow.go:283-350 | Then a pending batch names exactly the entries, in all four maps, whose age has reached the limit |
| Aging.OvertakenBatchDeletesRefreshed | pkg/statsagent/inet_v4_flow.go:320-338 | What the failure looks like: a scan that refreshes a queued flow leaves it in the pending batch, which, run next, deletes it from agent and kernel |
| Aging.RefreshedFlowCanBeDeleted | pkg/statsagent/inet_v4_flow.go:320-338 | A reachable run in which that happens |
| Aging.AggregateAging | pkg/statsagent/inet_v4_flow.go:283-316 | Over every run the age of an aggregate is the number of scans since its last credit, modulo 256 |
| Liveness.AggregatesMirrorFlows | pkg/statsagent/inet_v4_flow.go:256-350 | Prompt runs, fixed tables, code as written or intended: an aggregate is live iff a remembered flow resolves to it, and its age is the least age among those flows |
| ScanOrder.CoversAreReorderings | pkg/statsagent/inet_v4_flow.go:251-256 | Two complete iterations over one kernel map are the same visits in another order |
| ScanOrder.ScanIgnoresOrder | pkg/statsagent/inet_v4_flow.go:256-316 | One scan in any two iteration orders: same base map, aggregates, batches, and pod and service gauges |
| ScanOrder.RunsIgnoreScanOrder | pkg/statsagent/inet_v4_flow.go:256-350 | The same for whole runs whose scans iterate in different orders |
| ScanOrder.PairGaugesDependOnOrder | pkg/statsagent/inet_v4_flow.go:207-237 | Merging both directions of a pair in either order gives equal totals, and equal pair gauges iff the two totals are mirrored |
| Mirror.MergeIsOrientationFree | pkg/statsagent/inet_v4_flow.go:111-239 | Merging mirrored type, swapped key and swapped counters gives equal pod and service maps, mirrored known maps and the same gauges |
| Mirror.PacketIsOrientationFree | ebpf/kernel/include/flow.h:40-51 | The same packet at the other hook leaves the reversed key with swapped counters, and meets a full map in the same cases |
| Mirror.RunsAreOrientationFree | pkg/statsagent/inet_v4_flow.go:111-281 | Moving every packet of a run to the other hook changes no pod aggregate, no service aggregate and no gauge |
| Balance.TotalsAreConserved | pkg/statsagent/inet_v4_flow.go:150-237 | Over every run, held plus retired counters over all pods and services are what merges added, modulo 2^64 |
| Balance.SentBalancesReceived | pkg/statsagent/inet_v4_flow.go:150-237 | Total Out and total In differ by exactly what one-sided merges added, so they agree modulo 2^64 iff that excess vanishes |
| Balance.TwoSidedRunsBalance | pkg/statsagent/inet_v4_flow.go:150-237 | When every merge knows both ends, total Out equals total In modulo 2^64, deleted entries included |
| Bounds.KernelIsDense | ebpf/kernel/bpf_cgroup_kern.c:152-159 | While a direction's packet counter has not wrapped, kernel entries, and what of them is uncredited, hold at most 2^32-1 bytes per packet in it |
| Bounds.DeltasAreDense | pkg/statsagent/metrics.go:40-54 | So does every delta handed to a merge, in either order, even if a byte counter wrapped |
| Bounds.AggregatesAreDense | pkg/statsagent/inet_v4_flow.go:111-239 | So does what an aggregate accrued since its creation, if the packet counters of the flows that fed it had not wrapped when read |
| Bounds.FewPacketsNeverWrap | ebpf/kernel/bpf_cgroup_kern.c:152-159 | Fewer than 2^32 packets of a flow: no kernel counter wraps |
| Bounds.FewPacketAggregatesAreExact | pkg/statsagent/metrics.go:33-38 | An aggregate with fewer than 2^32 packets since its creation, fed by flows whose packet counters had not wrapped, shows its exact byte and packet sums, whatever other flows do |
| KernelRace.EveryPacketHasAFate | ebpf/kernel/bpf_cgroup_kern.c:86-99 | N processors, every reachable state, every key and counter: started = recorded + pending + refused + overwritten + added too late + removed + carried |
| KernelRace.CountersNeverExceedTruth | ebpf/kernel/bpf_cgroup_kern.c:86-99 | However packets race, live counters never exceed what started |
| KernelRace.RaceLosesNothingIffCleanMoves | ebpf/kernel/bpf_cgroup_kern.c:86-99 | Whatever the agent deletes meanwhile: of a key whose packet counters did not wrap, nothing is overwritten or added too late iff every insert found it absent and every add found its cell still in the map |
| KernelRace.RaceLosesNothingIffCleanInserts | ebpf/kernel/bpf_cgroup_kern.c:86-99 | Of a key that is never deleted, the inserts decide alone: nothing is lost iff every insert of it found it still absent |
| KernelRace.ExactWithoutConcurrentMisses | ebpf/kernel/bpf_cgroup_kern.c:86-99 | In particular a key that no two processors miss at once and that is not deleted loses nothing but refusals and wrap |
| KernelRace.ConcurrentMissesLosePackets | ebpf/kernel/bpf_cgroup_kern.c:86-99 | Two processors that miss together keep one packet of two |
| KernelRace.SoloPacketIsRecord | ebpf/kernel/bpf_cgroup_kern.c:152-159 | Lookup, insert or two adds without interleaving are exactly the sequential record used by the pipeline |
| RacingAgent.RacingTrafficIsAccountedFor | ebpf/kernel/bpf_cgroup_kern.c:86-99 | Over every interleaving of processor steps, scans and delete batches: what started at the hooks + what was credited twice = credited + discarded + skipped by the agent + refused, overwritten, added late or wrapped in the race + pending on processors + awaiting a scan |
| RacingAgent.SnapshotsBelowLiveIffNeverUndercut | pkg/statsagent/metrics.go:41-46 | Over every interleaving of processor steps, scans and deletes in which no add on a flow wraps, its snapshot stays below its live counters, so the reset branch is never taken, iff no insert replaces a snapshotted entry by smaller counters |
| RacingAgent.CleanStoriesAreNeverUndercut | ebpf/kernel/bpf_cgroup_kern.c:86-99 | In particular when every insert of the flow finds it absent |
| RacingAgent.RacingSnapshotsAreLive | pkg/statsagent/inet_v4_flow.go:329-338 | Also over a racing kernel the agent remembers only flows the kernel holds |
| RacingAgent.ResetBranchIsReachable | pkg/statsagent/metrics.go:41-46 | A legal interleaving in which a late insert undercuts a snapshot; the next scan sees moved counters and merges zero |
| Packet.FlowReader | ebpf/kernel/bpf_cgroup_kern.c:23-162 | The program on any bytes: both flow maps change exactly as the decoded packet demands, every read in bounds |
| Packet.V4RoundTrip | ebpf/kernel/bpf_cgroup_kern.c:57-85 | Every IPv4 packet with a complete header, IHL 5 to 15 and any payload decodes to its own 5-tuple (no ports unless TCP or UDP), read back in wire order by the Go accessors; left out iff an address is 127.0.0.1 or the TCP/UDP header is cut short |
| Packet.EveryPayloadIsASegment | ebpf/kernel/bpf_cgroup_kern.c:67-84 | The encoder reaches every payload, also those too short for ports |
| Packet.DecodesV4Bytes | ebpf/kernel/bpf_cgroup_kern.c:53-85 | Every byte string of version 4, also with IHL below 5: which bytes become which part of the key, in wire order, and exactly when it is left out |
| Packet.DecodesV6Bytes | ebpf/kernel/bpf_cgroup_kern.c:100-133 | The same for every byte string of any other version, all of which are read as IPv6 |
| Packet.ShortPacketsAreSkipped | ebpf/kernel/bpf_cgroup_kern.c:53-56 | Packets shorter than their network header are left out |
| Packet.V6RoundTrip | ebpf/kernel/bpf_cgroup_kern.c:100-133 | The same for IPv6 without extension headers and ::1 |
| Packet.AnswersShareTheEntry | ebpf/kernel/include/flow.h:40-51 | A received packet and any answer sent are accounted under one key |
| Packet.OctetsOfWord | pkg/statsagent/inet_v4_flow.go:42-52 | The address accessor reads the stored little-endian word back as the wire bytes |
| AddressText.WireAddressReadsBack | pkg/statsagent/inet_v4_flow.go:42-52 | The text the address accessor gives for a stored address reads back, as four decimal numbers between dots, as the wire bytes in order |
| AddressText.OctetTextDenotes | pkg/statsagent/inet_v4_flow.go:42-46 | Each part is the decimal notation of its byte, without leading zeros |
| AddressText.IpTextIsInjective | pkg/statsagent/inet_v4_flow.go:42-46 | Different addresses have different texts |
| Packet.PortOfHalf | pkg/statsagent/inet_v4_flow.go:24-34 | The port accessor reads the stored half-word back as the port number |
| Flows.FlowBuffer.Normalize | ebpf/kernel/include/flow.h:40-66 | In-place swap of addresses and ports on egress only |
| Flows.ConversationSharesKey | ebpf/kernel/include/flow.h:40-51 | An ingress and an egress packet share a key iff one is the other reversed; two packets at one hook iff equal; normalizing twice is the identity |
| KernelMap.KernelMaps.DeleteV4 | pkg/statsagent/inet_v4_flow.go:333-336 | A kernel delete removes the key unless it fails, and reports an error also for an absent key |
| Names.ToPromMetricsKey | pkg/statsagent/metrics.go:85-132 | The loop with running indexes fills columns, and picks the metric, as a closed form of the two split endpoints |
| Names.EndpointRoundTrip | pkg/statsagent/metrics.go:91-115 | Parsing a printed endpoint gives it back iff namespace and name carry no slash; printing a parsed text always gives the text back |
| Names.JoinSplit | pkg/statsagent/metrics.go:91-91 | Splitting into at most three parts loses nothing |
| Names.KeyRoundTrip | pkg/statsagent/metrics.go:134-167 | A printed key parses to the resolved endpoints; the parsed key type is the table-derived one iff no address is both pod and service, and is then nothing or one of the eight merge cases |
| Gauges.GaugeRegistry.SetPodGauge | pkg/statsagent/podsvcpromsubsystem.go:193-209 | Publishes exactly four series for a pod key and nothing otherwise |
| Gauges.GaugeRegistry.SetSvcGauge | pkg/statsagent/podsvcpromsubsystem.go:112-129 | Publishes exactly four series for a service key and nothing otherwise |
| Gauges.GaugeRegistry.SetPodSvcGauge | pkg/statsagent/podsvcpromsubsystem.go:26-48 | Publishes exactly four series for either key of a pair, swapped for service-to-pod, and nothing otherwise |
| Gauges.SetGaugeEffect | pkg/statsagent/podsvcpromsubsystem.go:193-209 | After a publication each owned gauge shows its counter and all other gauges are untouched |
| Gauges.LabelsDetermineKey | pkg/statsagent/podsvcpromsubsystem.go:112-129 | No two pod or service keys write one gauge |
| Gauges.MirroredKeysShareGauges | pkg/statsagent/podsvcpromsubsystem.go:34-46 | The two keys of a pair write the same gauges, and show the same values from swapped counters |
| Gauges.PodSvcGaugeOwners | pkg/statsagent/podsvcpromsubsystem.go:34-46 | No third key writes a pair's gauges |
| GaugeAgreement.GaugesShowLastStats | pkg/statsagent/inet_v4_flow.go:113-237 | Over every run the gauges of a pod or service show what it held when last alive, and were never set if it never lived |
| GaugeAgreement.LiveGaugesAgree | pkg/statsagent/podsvcpromsubsystem.go:112-129 | Over every readable run, one whose handled targets print keys that parse back to their kind, each live pod or service has its four counters published at its labels |
| GaugeAgreement.PodGaugesAgree | pkg/statsagent/podsvcpromsubsystem.go:205-208 | Over every readable run a live pod ns/name has its four counters, sent before received, at pod_namespace ns and pod_name name |
| GaugeAgreement.SvcGaugesAgree | pkg/statsagent/podsvcpromsubsystem.go:124-128 | Over every readable run a live service ns/name/scope has its four counters at svc_namespace ns, svc_scope scope and svc_name name |
| GaugeAgreement.TableRunsAreReadable | pkg/statsagent/metrics.go:134-167 | Every run is readable whose visits are resolved by tables that hold namespace/name texts, changing or not, with addresses that are both pod and service or neither |
| GaugeAgreement.GuardsPass | pkg/statsagent/inet_v4_flow.go:113-237 | After swap and clear every gauge call of a merge passes its metric-name guard |
| GaugeAgreement.ResolvedTargetsPublish | pkg/statsagent/metrics.go:134-167 | The same from the tables: they hold namespace/name texts and address texts carry no slash |
| GaugeAgreement.PairGaugesShowLastWriter | pkg/statsagent/podsvcpromsubsystem.go:34-46 | Over every run a pair's gauges show the one of its two keys that was credited last, and were never set if neither was |
| GaugeAgreement.PairGaugesByLabel | pkg/statsagent/podsvcpromsubsystem.go:40-47 | Over every run the gauges at the five labels of a pod and a service show the key credited last, service-first keys with sent and received exchanged, and do not exist before |
| GaugeAgreement.PairGaugesAgreeIff | pkg/statsagent/podsvcpromsubsystem.go:34-46 | Over every run a pair's gauges agree with what the pair held when last alive iff its mirror was not credited after it or the two hold mirrored totals |
| GaugeAgreement.BothDirectionsCollide | pkg/statsagent/inet_v4_flow.go:207-237 | What disagreement looks like: right after both directions were merged the gauges agree with the second, and with the first iff the totals are mirrored |
| Informers.StatsAgent.Classify | pkg/statsagent/metrics.go:134-167 | The step-by-step classification of the agent's current tables is the specification target: services override pods, unknown addresses stand for themselves |
| Informers.StatsAgent.PodUpdated | pkg/statsagent/pods.go:71-84 | Changes the two pod maps as the event demands; pods without address or on the host network change nothing |
| Informers.StatsAgent.PodDeleted | pkg/statsagent/pods.go:86-97 | Removes name and address; ignored pods change nothing |
| Informers.StatsAgent.ServiceUpdated | pkg/statsagent/services.go:63-93 | Changes the two service maps as the event demands, with the type text; headless services and failed keys change nothing |
| Informers.StatsAgent.ServiceDeleted | pkg/statsagent/services.go:95-112 | Removes name and address; ignored services change nothing |
| Informers.PodAddressesFollowHistory | pkg/statsagent/pods.go:71-97 | For every history of pod reports an address is known iff the last report at it of a pod off the host network is an update, and stands for that pod's namespace/name |
| Informers.PodNamesFollowHistory | pkg/statsagent/pods.go:71-97 | By name: a pod is known, at the address it was last seen with, until it is reported gone |
| Informers.ServiceAddressesFollowHistory | pkg/statsagent/services.go:63-112 | For every history of service reports an address is known iff the last report at it, of a service that has a key and is not headless, is an update, and stands for that service's key |
| Informers.ServiceNamesFollowHistory | pkg/statsagent/services.go:73-93 | By name: a service is known with the address and the type text it was last seen with, the text empty for unknown types |
| Informers.PodLogGrows | pkg/statsagent/pods.go:71-97 | One more pod report is one more handler call on the replayed log, so the histories are those of the handlers |
| Informers.ServiceLogGrows | pkg/statsagent/services.go:63-112 | The same for services |
| NameIndex.InfoIsLastWord | pkg/statsagent/pods.go:71-97 | For every event log a name is known iff its last event is an update, with that update's information |
| NameIndex.OwnerIsLastWord | pkg/statsagent/pods.go:71-97 | For every event log an address is known iff its last event is an update, and stands for that update's object |
| NameIndex.EventKeepsInverse | pkg/statsagent/services.go:63-112 | One event keeps the two maps inverse iff it respects the objects alive |
| NameIndex.InverseIffSteady | pkg/statsagent/services.go:63-112 | The maps were inverses throughout a history iff addresses were stable and unshared |
| NameIndex.MovedAddressStays | pkg/statsagent/pods.go:71-97 | A pod that moved and was deleted leaves its first address behind, naming it |
| Informers.ServiceLookupHits | pkg/statsagent/metrics.go:147-158 | Then the service-type lookup always hits and an address is printed with the type its service last announced |
| Informers.QualifiedLogsAreWellNamed | pkg/statsagent/pods.go:73-82 | Logs of namespace/name objects keep tables whose names print and parse as intended |
| Informers.EmptyAddressesCollide | pkg/statsagent/services.go:77-92 | Two services with an empty cluster address break the inverse |

## Left out

- Loading pinned maps, iterator internals and load errors: a scan reads one consistent kernel snapshot, each key once. The early return that keeps the mutex locked is outside the model.
- Keys that an iteration misses or repeats while packets arrive during it.
- Tickers and wall-clock time: scan numbers stand for time stamps, so two scans never share one.
- Data races on the agent's tables: each informer event and each lookup is atomic, and a delete batch runs as one step.
- HookTotals.AggregateAccounting: the name tables are fixed for the run, because what the hooks saw of an aggregate has no meaning of its own while addresses change owner; HookTotals.AggregatesShowScannedHits attributes by scan instead.
- HookTotals.ScannedAggregateShowsHits: neither the aggregate nor a flow of it is deleted, because a deleted aggregate starts again from zero; HookTotals.AggregateAccounting has the form with deletes.
- Kubernetes informers and clients, flags, logging, HTTP status, build and deployment files.
- Prometheus registration and float64 rounding: gauges are a map from family, series and labels to exact counters. Metric names are an enumeration.
- `net.IP.String` beyond dotted decimal text for four bytes.
- IPv4 fragments, IPv6 extension headers and other link-level content: the program does not look at them.
- Reuse of freed hash-map elements by the kernel: each insert takes a new cell.
- User-space IPv6 flows and the map-reader tool: no metric is registered for the first, the second only prints.
- Local copies that the source swaps and clears through pointers (`copiedStats`, the key copies) are values here; the entries in the four maps are heap objects.
