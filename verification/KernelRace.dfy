/**
 The kernel counter on N processors. Lookup, insert, byte add and packet add of different packets
 interleave freely; the agent may delete keys at any moment. An insert replaces whatever a
 concurrent insert has put there, and adds through a pointer to a replaced cell reach no reader.
 Each insert takes a new cell; reuse of freed map elements is not modelled.
 */
module KernelRace {
  import opened Statistics
  import opened Flows
  import opened KernelMap

  /** Where a processor is inside `bpf_flow_reader`. */
  datatype Pc =
    | Idle
    | Missed(key: V4Flow, dir: Direction, len: uint32)
    | Found(key: V4Flow, dir: Direction, len: uint32, cell: nat)
    | BytesAdded(key: V4Flow, dir: Direction, cell: nat)

  datatype Cell = Cell(key: V4Flow, stats: FlowStats)

  /** `live` is the hash map, from keys to cells; a cell outlives its place in the map. */
  datatype Machine = Machine(live: map<V4Flow, nat>, cells: seq<Cell>, cpus: seq<Pc>)

  datatype Move =
    | Arrive(cpu: nat, tuple: V4Flow, dir: Direction, len: uint32)
    | Advance(cpu: nat)
    | Forget(key: V4Flow)

  /** A history, newest move last, on `processors` processors. */
  datatype Trace = Begin(processors: nat) | More(before: Trace, move: Move)

  /** One atomic add on one counter. */
  function Bump(s: FlowStats, w: Counter, n: nat): FlowStats {
    match w
    case OutBytes => s.(outgoing := s.outgoing.(bytes := Mod64(s.outgoing.bytes + n)))
    case OutPackets => s.(outgoing := s.outgoing.(packets := Mod64(s.outgoing.packets + n)))
    case InBytes => s.(incoming := s.incoming.(bytes := Mod64(s.incoming.bytes + n)))
    case InPackets => s.(incoming := s.incoming.(packets := Mod64(s.incoming.packets + n)))
  }

  function AddTo(m: Machine, cell: nat, w: Counter, n: nat): Machine {
    if cell < |m.cells| then m.(cells := m.cells[cell := m.cells[cell].(stats := Bump(m.cells[cell].stats, w, n))]) else m
  }

  /** No room for a key that is not in the map. */
  predicate Full(m: Machine, key: V4Flow) {
    key !in m.live && |m.live| >= FLOW_MAP_SIZE
  }

  /** `bpf_map_update_elem` with BPF_ANY: a new cell takes the key's place, old or empty. */
  function Insert(m: Machine, key: V4Flow, dir: Direction, len: uint32): Machine {
    if Full(m, key) then m
    else m.(live := m.live[key := |m.cells|], cells := m.cells + [Cell(key, Hit(dir, len))])
  }

  function SetPc(m: Machine, cpu: nat, pc: Pc): Machine
    requires cpu < |m.cpus|
  {
    m.(cpus := m.cpus[cpu := pc])
  }

  predicate At(m: Machine, cpu: nat, pc: Pc) {
    cpu < |m.cpus| && m.cpus[cpu] == pc
  }

  /** One step of one processor; moves that are not enabled change nothing. */
  function Next(m: Machine, move: Move): Machine {
    match move
    case Arrive(cpu, tuple, dir, len) =>
      var key := Normalized(tuple, dir);
      if !At(m, cpu, Idle) then m
      else SetPc(m, cpu, if key in m.live then Found(key, dir, len, m.live[key]) else Missed(key, dir, len))
    case Advance(cpu) =>
      if cpu >= |m.cpus| then m
      else
        (match m.cpus[cpu]
         case Idle => m
         case Missed(key, dir, len) => SetPc(Insert(m, key, dir, len), cpu, Idle)
         case Found(key, dir, len, cell) =>
           SetPc(AddTo(m, cell, ByteCounter(dir), len), cpu, BytesAdded(key, dir, cell))
         case BytesAdded(_, dir, cell) => SetPc(AddTo(m, cell, PacketCounter(dir), 1), cpu, Idle))
    case Forget(key) => m.(live := m.live - {key})
  }

  function After(trace: Trace): Machine {
    match trace
    case Begin(n) => Machine(map[], [], seq(n, _ => Idle))
    case More(before, move) => Next(After(before), move)
  }

  /** Map entries and held pointers lead to cells of their key. */
  ghost predicate Linked(m: Machine) {
    && (forall k :: k in m.live ==> m.live[k] < |m.cells| && m.cells[m.live[k]].key == k)
    && (forall c :: 0 <= c < |m.cpus| ==> PcLinked(m.cells, m.cpus[c]))
  }

  predicate PcLinked(cells: seq<Cell>, pc: Pc) {
    pc.Found? || pc.BytesAdded? ==> pc.cell < |cells| && cells[pc.cell].key == pc.key
  }

  lemma LinkedSetPc(m: Machine, cpu: nat, pc: Pc)
    requires Linked(m) && cpu < |m.cpus| && PcLinked(m.cells, pc)
    ensures Linked(SetPc(m, cpu, pc))
  {}

  lemma LinkedInsert(m: Machine, key: V4Flow, dir: Direction, len: uint32)
    requires Linked(m)
    ensures Linked(Insert(m, key, dir, len)) && Insert(m, key, dir, len).cpus == m.cpus
  {
    hide Hit;
  }

  lemma LinkedAddTo(m: Machine, cell: nat, w: Counter, n: nat)
    requires Linked(m)
    ensures var m' := AddTo(m, cell, w, n);
            && Linked(m') && m'.cpus == m.cpus && m'.live == m.live
            && |m'.cells| == |m.cells| && forall i :: 0 <= i < |m.cells| ==> m'.cells[i].key == m.cells[i].key
  {
    hide Bump;
  }

  lemma LinkedNext(m: Machine, move: Move)
    requires Linked(m)
    ensures Linked(Next(m, move))
  {
    hide Insert, AddTo, Normalized;
    match move
    case Arrive(cpu, tuple, dir, len) =>
    case Forget(_) =>
    case Advance(cpu) =>
      if cpu < |m.cpus| {
        match m.cpus[cpu]
        case Idle =>
        case Missed(key, dir, len) =>
          LinkedInsert(m, key, dir, len);
          LinkedSetPc(Insert(m, key, dir, len), cpu, Idle);
        case Found(key, dir, len, cell) =>
          LinkedAddTo(m, cell, ByteCounter(dir), len);
          LinkedSetPc(AddTo(m, cell, ByteCounter(dir), len), cpu, BytesAdded(key, dir, cell));
        case BytesAdded(_, dir, cell) =>
          LinkedAddTo(m, cell, PacketCounter(dir), 1);
          LinkedSetPc(AddTo(m, cell, PacketCounter(dir), 1), cpu, Idle);
      }
  }

  lemma {:induction false} AlwaysLinked(trace: Trace)
    ensures Linked(After(trace))
  {
    hide Next;
    if trace.More? {
      AlwaysLinked(trace.before);
      LinkedNext(After(trace.before), trace.move);
    }
  }

  // ---------------------------------------------------------------- where every packet is

  function Recorded(m: Machine, k: V4Flow, w: Counter): int {
    if k in m.live && m.live[k] < |m.cells| then m.cells[m.live[k]].stats.Get(w) else 0
  }

  /** What a processor in the middle of a packet still has to add. */
  function Owed(pc: Pc, k: V4Flow, w: Counter): int {
    match pc
    case Idle => 0
    case Missed(key, dir, len) => if key == k then Hit(dir, len).Get(w) else 0
    case Found(key, dir, len, _) => if key == k then Hit(dir, len).Get(w) else 0
    case BytesAdded(key, dir, _) => if key == k && w == PacketCounter(dir) then 1 else 0
  }

  ghost function OwedBy(k: V4Flow, w: Counter): Pc -> int {
    (pc: Pc) => Owed(pc, k, w)
  }

  ghost function Pending(m: Machine, k: V4Flow, w: Counter): int {
    SumSeq(m.cpus, OwedBy(k, w))
  }

  datatype Fate =
    | Started      // arrived at a hook
    | Refused      // insert failed, map full
    | Overwritten  // counted in a cell that a later insert replaced
    | Late         // added through a pointer to a cell no longer in the map
    | Removed      // counted in a cell the agent deleted
    | Carried      // lost to 64-bit wrap-around

  predicate Current(m: Machine, key: V4Flow, cell: nat) {
    key in m.live && m.live[key] == cell
  }

  /** An atomic add of `n` to counter `w` of key `k`, by fate. */
  function AddPosting(m: Machine, cell: nat, n: nat, k: V4Flow, w: Counter, fate: Fate): int {
    if !Current(m, k, cell) then if fate == Late then n else 0
    else if fate == Carried then Recorded(m, k, w) + n - Mod64(Recorded(m, k, w) + n)
    else 0
  }

  /** What one move adds to the ledger of key `k` and counter `w`. */
  function Posting(m: Machine, move: Move, k: V4Flow, w: Counter, fate: Fate): int {
    match move
    case Arrive(cpu, tuple, dir, len) =>
      if fate == Started && At(m, cpu, Idle) && Normalized(tuple, dir) == k then Hit(dir, len).Get(w) else 0
    case Forget(key) => if fate == Removed && key == k then Recorded(m, k, w) else 0
    case Advance(cpu) =>
      if cpu >= |m.cpus| || m.cpus[cpu].Idle? || m.cpus[cpu].key != k then 0
      else
        (match m.cpus[cpu]
         case Missed(_, dir, len) =>
           if Full(m, k) then if fate == Refused then Hit(dir, len).Get(w) else 0
           else if fate == Overwritten then Recorded(m, k, w) else 0
         case Found(_, dir, len, cell) => if w == ByteCounter(dir) then AddPosting(m, cell, len, k, w, fate) else 0
         case BytesAdded(_, dir, cell) => if w == PacketCounter(dir) then AddPosting(m, cell, 1, k, w, fate) else 0)
  }

  ghost function Ledger(trace: Trace, k: V4Flow, w: Counter, fate: Fate): int {
    match trace
    case Begin(_) => 0
    case More(before, move) => Ledger(before, k, w, fate) + Posting(After(before), move, k, w, fate)
  }

  /** Everything that is no longer on its way nor visible in the map. */
  ghost function Lost(trace: Trace, k: V4Flow, w: Counter): int {
    Ledger(trace, k, w, Refused) + Ledger(trace, k, w, Overwritten) + Ledger(trace, k, w, Late)
    + Ledger(trace, k, w, Removed) + Ledger(trace, k, w, Carried)
  }

  function LossPosting(m: Machine, move: Move, k: V4Flow, w: Counter): int {
    Posting(m, move, k, w, Refused) + Posting(m, move, k, w, Overwritten) + Posting(m, move, k, w, Late)
    + Posting(m, move, k, w, Removed) + Posting(m, move, k, w, Carried)
  }

  lemma BumpGet(s: FlowStats, w: Counter, n: nat, w': Counter)
    ensures Bump(s, w, n).Get(w') == if w == w' then Mod64(s.Get(w) + n) else s.Get(w')
  {}

  lemma AddToRecorded(m: Machine, key: V4Flow, cell: nat, w: Counter, n: nat, k: V4Flow, w': Counter)
    requires Linked(m) && cell < |m.cells| && m.cells[cell].key == key
    ensures Recorded(AddTo(m, cell, w, n), k, w')
            == if k == key && w' == w && Current(m, k, cell) then Mod64(Recorded(m, k, w) + n) else Recorded(m, k, w')
  {
    hide Bump, Mod64;
    BumpGet(m.cells[cell].stats, w, n, w');
  }

  lemma HitGet(dir: Direction, len: uint32, w: Counter)
    ensures Hit(dir, len).Get(w) == if w == ByteCounter(dir) then len else if w == PacketCounter(dir) then 1 else 0
  {}

  lemma SetPcPending(m: Machine, m': Machine, cpu: nat, pc: Pc, k: V4Flow, w: Counter)
    requires cpu < |m.cpus| && m'.cpus == m.cpus
    ensures Pending(SetPc(m', cpu, pc), k, w) == Pending(m, k, w) - Owed(m.cpus[cpu], k, w) + Owed(pc, k, w)
    ensures Recorded(SetPc(m', cpu, pc), k, w) == Recorded(m', k, w)
  {
    SumSeqUpdate(m.cpus, cpu, pc, OwedBy(k, w));
  }

  /** Each move settles exactly what it takes on. */
  ghost predicate Settles(m: Machine, move: Move, k: V4Flow, w: Counter) {
    Recorded(Next(m, move), k, w) + Pending(Next(m, move), k, w) + LossPosting(m, move, k, w)
    == Recorded(m, k, w) + Pending(m, k, w) + Posting(m, move, k, w, Started)
  }

  lemma ArriveSettles(m: Machine, move: Move, k: V4Flow, w: Counter)
    requires move.Arrive?
    ensures Settles(m, move, k, w)
  {
    hide Normalized, Hit, Recorded, Pending;
    if At(m, move.cpu, Idle) {
      var key := Normalized(move.tuple, move.dir);
      var pc := if key in m.live then Found(key, move.dir, move.len, m.live[key]) else Missed(key, move.dir, move.len);
      SetPcPending(m, m, move.cpu, pc, k, w);
    }
  }

  lemma InsertSettles(m: Machine, cpu: nat, k: V4Flow, w: Counter)
    requires Linked(m) && cpu < |m.cpus| && m.cpus[cpu].Missed?
    ensures Settles(m, Advance(cpu), k, w)
  {
    hide Pending, Hit;
    var pc := m.cpus[cpu];
    var m' := Insert(m, pc.key, pc.dir, pc.len);
    SetPcPending(m, m', cpu, Idle, k, w);
  }

  lemma AddSettles(m: Machine, cpu: nat, k: V4Flow, w: Counter)
    requires Linked(m) && cpu < |m.cpus| && (m.cpus[cpu].Found? || m.cpus[cpu].BytesAdded?)
    ensures Settles(m, Advance(cpu), k, w)
  {
    hide Pending, Hit, Recorded, AddTo, Current;
    var pc := m.cpus[cpu];
    var counter := if pc.Found? then ByteCounter(pc.dir) else PacketCounter(pc.dir);
    var n: nat := if pc.Found? then pc.len else 1;
    var pc' := if pc.Found? then BytesAdded(pc.key, pc.dir, pc.cell) else Idle;
    var m' := AddTo(m, pc.cell, counter, n);
    AddToKeepsCpus(m, pc.cell, counter, n);
    SetPcPending(m, m', cpu, pc', k, w);
    AddToRecorded(m, pc.key, pc.cell, counter, n, k, w);
    if pc.Found? {
      HitGet(pc.dir, pc.len, w);
    }
  }

  lemma AddToKeepsCpus(m: Machine, cell: nat, w: Counter, n: nat)
    ensures AddTo(m, cell, w, n).cpus == m.cpus && AddTo(m, cell, w, n).live == m.live
  {}

  lemma MoveSettles(m: Machine, move: Move, k: V4Flow, w: Counter)
    requires Linked(m)
    ensures Settles(m, move, k, w)
  {
    match move
    case Arrive(_, _, _, _) => ArriveSettles(m, move, k, w);
    case Forget(_) =>
    case Advance(cpu) =>
      if cpu < |m.cpus| {
        match m.cpus[cpu]
        case Idle =>
        case Missed(_, _, _) => InsertSettles(m, cpu, k, w);
        case Found(_, _, _, _) => AddSettles(m, cpu, k, w);
        case BytesAdded(_, _, _) => AddSettles(m, cpu, k, w);
      }
  }

  /**
   In every reachable state, for every key and counter: what arrived is in the map, on its way on
   some processor, refused, overwritten, added too late, deleted or carried.
   */
  lemma {:induction false} EveryPacketHasAFate(trace: Trace, k: V4Flow, w: Counter)
    ensures Ledger(trace, k, w, Started) == Recorded(After(trace), k, w) + Pending(After(trace), k, w) + Lost(trace, k, w)
  {
    hide Next, Posting, Recorded, Pending;
    if trace.More? {
      EveryPacketHasAFate(trace.before, k, w);
      AlwaysLinked(trace.before);
      MoveSettles(After(trace.before), trace.move, k, w);
    } else {
      NothingPending(trace.processors, k, w);
    }
  }

  lemma {:induction false} NothingPending(n: nat, k: V4Flow, w: Counter)
    ensures Pending(After(Begin(n)), k, w) == 0 && Recorded(After(Begin(n)), k, w) == 0
  {
    var cpus := After(Begin(n)).cpus;
    SumSeqZero(cpus, OwedBy(k, w));
  }

  lemma {:induction false} SumSeqZero(cpus: seq<Pc>, f: Pc -> int)
    requires forall i :: 0 <= i < |cpus| ==> f(cpus[i]) == 0
    ensures SumSeq(cpus, f) == 0
  {
    if cpus != [] {
      SumSeqZero(cpus[..|cpus| - 1], f);
    }
  }

  // ---------------------------------------------------------------- never too much

  lemma PostingIsNatural(m: Machine, move: Move, k: V4Flow, w: Counter, fate: Fate)
    ensures Posting(m, move, k, w, fate) >= 0
  {
    hide Hit, Normalized;
  }

  lemma {:induction false} LedgerIsNatural(trace: Trace, k: V4Flow, w: Counter, fate: Fate)
    ensures Ledger(trace, k, w, fate) >= 0
  {
    hide Posting, After;
    if trace.More? {
      LedgerIsNatural(trace.before, k, w, fate);
      PostingIsNatural(After(trace.before), trace.move, k, w, fate);
    }
  }

  lemma {:induction false} OwedIsNatural(cpus: seq<Pc>, k: V4Flow, w: Counter)
    ensures SumSeq(cpus, OwedBy(k, w)) >= 0
  {
    if cpus != [] {
      OwedIsNatural(cpus[..|cpus| - 1], k, w);
    }
  }

  /** However packets race, a live counter never exceeds what arrived; nor does it once pending packets land. */
  lemma CountersNeverExceedTruth(trace: Trace, k: V4Flow, w: Counter)
    ensures Recorded(After(trace), k, w) + Pending(After(trace), k, w) <= Ledger(trace, k, w, Started)
    ensures Recorded(After(trace), k, w) <= Ledger(trace, k, w, Started)
  {
    hide Recorded, After;
    EveryPacketHasAFate(trace, k, w);
    LedgerIsNatural(trace, k, w, Refused);
    LedgerIsNatural(trace, k, w, Overwritten);
    LedgerIsNatural(trace, k, w, Late);
    LedgerIsNatural(trace, k, w, Removed);
    LedgerIsNatural(trace, k, w, Carried);
    OwedIsNatural(After(trace).cpus, k, w);
  }

  // ---------------------------------------------------------------- exactly when the race loses nothing

  predicate MissOf(pc: Pc, k: V4Flow) {
    pc.Missed? && pc.key == k
  }

  /** The move is an insert of `k` by a processor whose failed lookup is out of date. */
  predicate InsertsOver(m: Machine, move: Move, k: V4Flow) {
    move.Advance? && move.cpu < |m.cpus| && MissOf(m.cpus[move.cpu], k) && k in m.live
  }

  /** Every insert of `k` found the key still absent. */
  predicate CleanInserts(trace: Trace, k: V4Flow) {
    trace.More? ==> CleanInserts(trace.before, k) && !InsertsOver(After(trace.before), trace.move, k)
  }

  /** The agent never deleted `k`. */
  predicate Kept(trace: Trace, k: V4Flow) {
    trace.More? ==> Kept(trace.before, k) && trace.move != Forget(k)
  }

  ghost predicate RaceLosesNothing(trace: Trace, k: V4Flow) {
    forall w :: Ledger(trace, k, w, Overwritten) == 0 && Ledger(trace, k, w, Late) == 0
  }

  /** A processor past a hit on `k` holds the live cell. */
  predicate HoldsCurrent(m: Machine, pc: Pc, k: V4Flow) {
    (pc.Found? || pc.BytesAdded?) && pc.key == k ==> Current(m, k, pc.cell)
  }

  ghost predicate HoldersCurrent(m: Machine, k: V4Flow) {
    forall c :: 0 <= c < |m.cpus| ==> HoldsCurrent(m, m.cpus[c], k)
  }

  lemma ProcessorsStay(m: Machine, move: Move)
    ensures |Next(m, move).cpus| == |m.cpus|
  {
    hide Hit, Normalized, Bump;
  }

  lemma HoldersNext(m: Machine, move: Move, k: V4Flow)
    requires HoldersCurrent(m, k) && move != Forget(k) && !InsertsOver(m, move, k)
    ensures HoldersCurrent(Next(m, move), k)
  {
    hide Next, HoldsCurrent, InsertsOver;
    var m' := Next(m, move);
    ProcessorsStay(m, move);
    forall c | 0 <= c < |m'.cpus| ensures HoldsCurrent(m', m'.cpus[c], k) {
      HolderStep(m, move, k, c);
    }
  }

  lemma HolderStep(m: Machine, move: Move, k: V4Flow, c: nat)
    requires HoldersCurrent(m, k) && move != Forget(k) && !InsertsOver(m, move, k)
    requires |Next(m, move).cpus| == |m.cpus|
    ensures c < |m.cpus| ==> HoldsCurrent(Next(m, move), Next(m, move).cpus[c], k)
  {
    hide Hit, Normalized, AddTo, Full;
    if c < |m.cpus| {
      assert HoldsCurrent(m, m.cpus[c], k);
      if move.Advance? && move.cpu < |m.cpus| {
        var pc := m.cpus[move.cpu];
        if pc.Found? {
          AddToKeepsCpus(m, pc.cell, ByteCounter(pc.dir), pc.len);
        } else if pc.BytesAdded? {
          AddToKeepsCpus(m, pc.cell, PacketCounter(pc.dir), 1);
        }
      }
    }
  }

  /** Where all holders are current, only an insert over the key loses anything. */
  lemma CleanMoveLosesNothing(m: Machine, move: Move, k: V4Flow, w: Counter)
    requires HoldersCurrent(m, k) && !InsertsOver(m, move, k)
    ensures Posting(m, move, k, w, Overwritten) == 0 && Posting(m, move, k, w, Late) == 0
  {
    hide Hit, Normalized;
    if move.Advance? && move.cpu < |m.cpus| {
      assert HoldsCurrent(m, m.cpus[move.cpu], k);
    }
  }

  lemma HoldersAtBegin(n: nat, k: V4Flow)
    ensures HoldersCurrent(After(Begin(n)), k)
  {}

  lemma {:induction false} CleanInsertsLoseNothing(trace: Trace, k: V4Flow, w: Counter)
    requires Kept(trace, k) && CleanInserts(trace, k)
    ensures HoldersCurrent(After(trace), k)
    ensures Ledger(trace, k, w, Overwritten) == 0 && Ledger(trace, k, w, Late) == 0
  {
    hide Next, Posting, HoldersCurrent, InsertsOver;
    if trace.More? {
      CleanInsertsLoseNothing(trace.before, k, w);
      HoldersNext(After(trace.before), trace.move, k);
      CleanMoveLosesNothing(After(trace.before), trace.move, k, w);
    } else {
      HoldersAtBegin(trace.processors, k);
    }
  }

  /** An entry in the map shows at least one packet. */
  predicate Populated(m: Machine, k: V4Flow) {
    k in m.live ==> Recorded(m, k, OutPackets) + Recorded(m, k, InPackets) >= 1
  }

  lemma PopulatedNext(m: Machine, move: Move, k: V4Flow)
    requires Linked(m) && Populated(m, k)
    requires Posting(m, move, k, OutPackets, Carried) == 0 && Posting(m, move, k, InPackets, Carried) == 0
    ensures Populated(Next(m, move), k)
  {
    hide Hit, Normalized, AddTo, Recorded, Insert, Mod64, Linked;
    match move
    case Arrive(cpu, _, _, _) => RecordedAlike(m, Next(m, move), k);
    case Forget(_) => ForgetRecorded(m, move.key, k);
    case Advance(cpu) =>
      if cpu < |m.cpus| {
        match m.cpus[cpu]
        case Idle =>
        case Missed(key, dir, len) =>
          InsertRecorded(m, key, dir, len, k, OutPackets);
          InsertRecorded(m, key, dir, len, k, InPackets);
          HitGet(dir, len, OutPackets);
          HitGet(dir, len, InPackets);
          RecordedAlike(Insert(m, key, dir, len), Next(m, move), k);
        case Found(_, dir, len, cell) => AddPopulates(m, cpu, cell, ByteCounter(dir), len, k);
        case BytesAdded(_, dir, cell) => AddPopulates(m, cpu, cell, PacketCounter(dir), 1, k);
      }
  }

  lemma RecordedAlike(m: Machine, m': Machine, k: V4Flow)
    requires m'.live == m.live && m'.cells == m.cells
    ensures forall w :: Recorded(m', k, w) == Recorded(m, k, w)
  {}

  lemma ForgetRecorded(m: Machine, key: V4Flow, k: V4Flow)
    ensures key != k ==> forall w :: Recorded(Next(m, Forget(key)), k, w) == Recorded(m, k, w)
  {}

  lemma InsertRecorded(m: Machine, key: V4Flow, dir: Direction, len: uint32, k: V4Flow, w: Counter)
    requires Linked(m)
    ensures var m' := Insert(m, key, dir, len);
            && (k in m'.live <==> k in m.live || (key == k && !Full(m, k)))
            && Recorded(m', k, w) == if key == k && !Full(m, k) then Hit(dir, len).Get(w) else Recorded(m, k, w)
  {
    hide Hit;
  }

  /** An add that does not wrap the packet counters of `k` takes no packet from it. */
  lemma AddPopulates(m: Machine, cpu: nat, cell: nat, w: Counter, n: nat, k: V4Flow)
    requires Linked(m) && Populated(m, k) && cpu < |m.cpus|
    requires var pc := m.cpus[cpu];
             && (pc.Found? || pc.BytesAdded?) && cell == pc.cell
             && (if pc.Found? then w == ByteCounter(pc.dir) && n == pc.len else w == PacketCounter(pc.dir) && n == 1)
    requires Posting(m, Advance(cpu), k, OutPackets, Carried) == 0 && Posting(m, Advance(cpu), k, InPackets, Carried) == 0
    ensures Populated(Next(m, Advance(cpu)), k)
  {
    hide Mod64, Hit, AddTo, Recorded;
    var m' := AddTo(m, cell, w, n);
    AddToKeepsCpus(m, cell, w, n);
    RecordedAlike(m', Next(m, Advance(cpu)), k);
    RecordedIsNatural(m, k);
    AddToRecorded(m, m.cpus[cpu].key, cell, w, n, k, OutPackets);
    AddToRecorded(m, m.cpus[cpu].key, cell, w, n, k, InPackets);
  }

  lemma RecordedIsNatural(m: Machine, k: V4Flow)
    ensures forall w :: Recorded(m, k, w) >= 0
  {}

  lemma {:induction false} AlwaysPopulated(trace: Trace, k: V4Flow)
    requires Ledger(trace, k, OutPackets, Carried) == 0 && Ledger(trace, k, InPackets, Carried) == 0
    ensures Populated(After(trace), k)
  {
    hide Next, Posting, Recorded;
    if trace.More? {
      LedgerStep(trace, k, OutPackets, Carried);
      LedgerStep(trace, k, InPackets, Carried);
      AlwaysPopulated(trace.before, k);
      AlwaysLinked(trace.before);
      PopulatedNext(After(trace.before), trace.move, k);
    }
  }

  /** A ledger column that is empty has been empty all along. */
  lemma LedgerStep(trace: Trace, k: V4Flow, w: Counter, fate: Fate)
    requires trace.More?
    ensures Ledger(trace, k, w, fate) == 0 <==>
              Ledger(trace.before, k, w, fate) == 0 && Posting(After(trace.before), trace.move, k, w, fate) == 0
  {
    hide Posting, After;
    LedgerIsNatural(trace.before, k, w, fate);
    PostingIsNatural(After(trace.before), trace.move, k, w, fate);
  }

  /** The move is an add through a cell that has lost its place in the map, to a later insert or to the agent. */
  predicate AddsLate(m: Machine, move: Move, k: V4Flow) {
    && move.Advance? && move.cpu < |m.cpus|
    && var pc := m.cpus[move.cpu];
       ((pc.Found? && pc.len > 0) || pc.BytesAdded?) && pc.key == k && !Current(m, k, pc.cell)
  }

  /** Every insert of `k` found it absent and every add found its cell in place. */
  predicate CleanMoves(trace: Trace, k: V4Flow) {
    trace.More? ==>
      && CleanMoves(trace.before, k)
      && !InsertsOver(After(trace.before), trace.move, k) && !AddsLate(After(trace.before), trace.move, k)
  }

  /** An insert over an entry drops a packet that was counted in it, and a late add drops what it adds. */
  lemma UncleanMoveLoses(m: Machine, move: Move, k: V4Flow)
    requires Populated(m, k) && (InsertsOver(m, move, k) || AddsLate(m, move, k))
    ensures exists w :: Posting(m, move, k, w, Overwritten) > 0 || Posting(m, move, k, w, Late) > 0
  {
    hide Hit, Recorded;
    var pc := m.cpus[move.cpu];
    if InsertsOver(m, move, k) {
      assert Posting(m, move, k, OutPackets, Overwritten) > 0 || Posting(m, move, k, InPackets, Overwritten) > 0;
    } else if pc.Found? {
      assert Posting(m, move, k, ByteCounter(pc.dir), Late) > 0;
    } else {
      assert Posting(m, move, k, PacketCounter(pc.dir), Late) > 0;
    }
  }

  lemma CleanMoveLoses(m: Machine, move: Move, k: V4Flow, w: Counter)
    requires !InsertsOver(m, move, k) && !AddsLate(m, move, k)
    ensures Posting(m, move, k, w, Overwritten) == 0 && Posting(m, move, k, w, Late) == 0
  {
    hide Hit, Normalized;
  }

  lemma {:induction false} CleanMovesLoseNothing(trace: Trace, k: V4Flow, w: Counter)
    requires CleanMoves(trace, k)
    ensures Ledger(trace, k, w, Overwritten) == 0 && Ledger(trace, k, w, Late) == 0
  {
    hide Next, Posting, InsertsOver, AddsLate;
    if trace.More? {
      CleanMovesLoseNothing(trace.before, k, w);
      CleanMoveLoses(After(trace.before), trace.move, k, w);
    }
  }

  lemma {:induction false} LosingNothingIsClean(trace: Trace, k: V4Flow)
    requires Ledger(trace, k, OutPackets, Carried) == 0 && Ledger(trace, k, InPackets, Carried) == 0
    requires RaceLosesNothing(trace, k)
    ensures CleanMoves(trace, k) && CleanInserts(trace, k)
  {
    hide Next, Posting, InsertsOver, AddsLate, Populated;
    if trace.More? {
      var m := After(trace.before);
      forall w ensures Ledger(trace.before, k, w, Overwritten) == 0 && Ledger(trace.before, k, w, Late) == 0
                       && Posting(m, trace.move, k, w, Overwritten) == 0 && Posting(m, trace.move, k, w, Late) == 0
      {
        assert Ledger(trace, k, w, Overwritten) == 0 && Ledger(trace, k, w, Late) == 0;
        LedgerStep(trace, k, w, Overwritten);
        LedgerStep(trace, k, w, Late);
      }
      LedgerStep(trace, k, OutPackets, Carried);
      LedgerStep(trace, k, InPackets, Carried);
      LosingNothingIsClean(trace.before, k);
      AlwaysPopulated(trace.before, k);
      if InsertsOver(m, trace.move, k) || AddsLate(m, trace.move, k) {
        UncleanMoveLoses(m, trace.move, k);
      }
    }
  }

  /**
   The exact condition, whatever the agent deletes meanwhile: of a key whose packet counters did not
   wrap, the race loses nothing iff every insert found it absent and every add found its cell in place.
   */
  lemma RaceLosesNothingIffCleanMoves(trace: Trace, k: V4Flow)
    requires Ledger(trace, k, OutPackets, Carried) == 0 && Ledger(trace, k, InPackets, Carried) == 0
    ensures RaceLosesNothing(trace, k) <==> CleanMoves(trace, k)
  {
    hide Ledger, After;
    if CleanMoves(trace, k) {
      forall w ensures Ledger(trace, k, w, Overwritten) == 0 && Ledger(trace, k, w, Late) == 0 {
        CleanMovesLoseNothing(trace, k, w);
      }
    }
    if RaceLosesNothing(trace, k) {
      LosingNothingIsClean(trace, k);
    }
  }

  /**
   While the agent never deletes the key, the inserts decide alone: the race loses nothing if and only
   if every insert of the key found it still absent.
   */
  lemma RaceLosesNothingIffCleanInserts(trace: Trace, k: V4Flow)
    requires Kept(trace, k)
    requires Ledger(trace, k, OutPackets, Carried) == 0 && Ledger(trace, k, InPackets, Carried) == 0
    ensures RaceLosesNothing(trace, k) <==> CleanInserts(trace, k)
  {
    hide Ledger, After;
    if CleanInserts(trace, k) {
      forall w ensures Ledger(trace, k, w, Overwritten) == 0 && Ledger(trace, k, w, Late) == 0 {
        CleanInsertsLoseNothing(trace, k, w);
      }
    }
    if RaceLosesNothing(trace, k) {
      LosingNothingIsClean(trace, k);
    }
  }

  // ---------------------------------------------------------------- no two misses at once suffices

  ghost predicate OneMissAtATime(m: Machine, k: V4Flow) {
    forall c, d :: 0 <= c < d < |m.cpus| ==> !(MissOf(m.cpus[c], k) && MissOf(m.cpus[d], k))
  }

  /** In no state of the trace are two processors past a failed lookup of `k`. */
  ghost predicate Uncontended(trace: Trace, k: V4Flow) {
    OneMissAtATime(After(trace), k) && (trace.More? ==> Uncontended(trace.before, k))
  }

  /** Whoever is past a failed lookup of `k` finds it still absent. */
  ghost predicate MissesHold(m: Machine, k: V4Flow) {
    forall c :: 0 <= c < |m.cpus| && MissOf(m.cpus[c], k) ==> k !in m.live
  }

  lemma MissesHoldNext(m: Machine, move: Move, k: V4Flow)
    requires MissesHold(m, k) && OneMissAtATime(m, k)
    ensures MissesHold(Next(m, move), k)
  {
    hide Bump, Hit, Normalized;
    ProcessorsStay(m, move);
  }

  lemma {:induction false} UncontendedIsClean(trace: Trace, k: V4Flow)
    requires Uncontended(trace, k)
    ensures MissesHold(After(trace), k) && CleanInserts(trace, k)
  {
    hide Next, OneMissAtATime;
    if trace.More? {
      UncontendedIsClean(trace.before, k);
      MissesHoldNext(After(trace.before), trace.move, k);
    }
  }

  lemma NothingRemoved(m: Machine, move: Move, k: V4Flow, w: Counter)
    requires move != Forget(k)
    ensures Posting(m, move, k, w, Removed) == 0
  {
    hide Hit, Normalized;
  }

  lemma {:induction false} KeptIsNotRemoved(trace: Trace, k: V4Flow, w: Counter)
    requires Kept(trace, k)
    ensures Ledger(trace, k, w, Removed) == 0
  {
    hide After, Posting;
    if trace.More? {
      KeptIsNotRemoved(trace.before, k, w);
      NothingRemoved(After(trace.before), trace.move, k, w);
    }
  }

  /**
   A key that no two processors miss at once, and that is not deleted, is never undercounted by the
   race: only refusals and 64-bit wrap-around keep its counters below the truth.
   */
  lemma ExactWithoutConcurrentMisses(trace: Trace, k: V4Flow, w: Counter)
    requires Kept(trace, k) && Uncontended(trace, k)
    ensures CleanInserts(trace, k)
    ensures Recorded(After(trace), k, w) + Pending(After(trace), k, w)
            == Ledger(trace, k, w, Started) - Ledger(trace, k, w, Refused) - Ledger(trace, k, w, Carried)
  {
    hide After, Ledger, Recorded, Pending;
    EveryPacketHasAFate(trace, k, w);
    UncontendedIsClean(trace, k);
    CleanInsertsLoseNothing(trace, k, w);
    KeptIsNotRemoved(trace, k, w);
  }

  /** Two processors look the same key up before either inserts it. */
  function Race(f: V4Flow, a: uint32, b: uint32): Trace {
    More(More(More(More(Begin(2), Arrive(0, f, Ingress, a)), Arrive(1, f, Ingress, b)), Advance(0)), Advance(1))
  }

  lemma RaceStates(f: V4Flow, a: uint32, b: uint32)
    ensures var trace := Race(f, a, b);
            && After(trace.before.before.before.before) == Machine(map[], [], [Idle, Idle])
            && After(trace.before.before.before) == Machine(map[], [], [Missed(f, Ingress, a), Idle])
            && After(trace.before.before) == Machine(map[], [], [Missed(f, Ingress, a), Missed(f, Ingress, b)])
            && After(trace.before) == Machine(map[f := 0], [Cell(f, Hit(Ingress, a))], [Idle, Missed(f, Ingress, b)])
            && After(trace) == Machine(map[f := 1], [Cell(f, Hit(Ingress, a)), Cell(f, Hit(Ingress, b))], [Idle, Idle])
  {
    hide Hit;
    assert After(Begin(2)).cpus == [Idle, Idle];
  }

  /** The race is real: the insert that comes second keeps its own packet and drops the first. */
  lemma ConcurrentMissesLosePackets(f: V4Flow, a: uint32, b: uint32)
    ensures var trace := Race(f, a, b);
            && Recorded(After(trace), f, OutPackets) == 1 && Recorded(After(trace), f, OutBytes) == b
            && Pending(After(trace), f, OutPackets) == 0
            && Ledger(trace, f, OutPackets, Started) == 2
            && Ledger(trace, f, OutPackets, Overwritten) == 1 && Ledger(trace, f, OutBytes, Overwritten) == a
  {
    hide After, Posting, OwedBy, Pending;
    RaceStates(f, a, b);
    RacePostings(f, a, b, OutPackets);
    RacePostings(f, a, b, OutBytes);
    RaceLeavesNonePending(f, a, b);
  }

  lemma RacePostings(f: V4Flow, a: uint32, b: uint32, w: Counter)
    ensures var trace := Race(f, a, b);
            && Ledger(trace, f, w, Started) == Hit(Ingress, a).Get(w) + Hit(Ingress, b).Get(w)
            && Ledger(trace, f, w, Overwritten) == Hit(Ingress, a).Get(w)
  {
    hide After, Hit;
    RaceStates(f, a, b);
    var t4 := Race(f, a, b);
    var t3 := t4.before;
    var t2 := t3.before;
    var t1 := t2.before;
    assert Ledger(t1.before, f, w, Started) == 0 && Ledger(t1.before, f, w, Overwritten) == 0;
    assert Ledger(t1, f, w, Started) == Hit(Ingress, a).Get(w) && Ledger(t1, f, w, Overwritten) == 0;
    assert Ledger(t2, f, w, Started) == Hit(Ingress, a).Get(w) + Hit(Ingress, b).Get(w) && Ledger(t2, f, w, Overwritten) == 0;
    assert Ledger(t3, f, w, Started) == Ledger(t2, f, w, Started) && Ledger(t3, f, w, Overwritten) == 0;
  }

  lemma RaceLeavesNonePending(f: V4Flow, a: uint32, b: uint32)
    ensures Pending(After(Race(f, a, b)), f, OutPackets) == 0
  {
    hide After;
    RaceStates(f, a, b);
    SumSeqZero(After(Race(f, a, b)).cpus, OwedBy(f, OutPackets));
  }

  // ---------------------------------------------------------------- alone, a packet is recorded atomically

  /** What a reader of the map sees. */
  ghost function View(m: Machine): FlowMap<uint32>
    requires Linked(m)
  {
    map k | k in m.live :: m.cells[m.live[k]].stats
  }

  /** One packet from lookup to its last add with no other processor in between. */
  function Solo(m: Machine, cpu: nat, tuple: V4Flow, dir: Direction, len: uint32): Machine {
    Next(Next(Next(m, Arrive(cpu, tuple, dir, len)), Advance(cpu)), Advance(cpu))
  }

  /** Then the processor is idle again and readers see exactly the sequential `Record`. */
  lemma SoloPacketIsRecord(m: Machine, cpu: nat, tuple: V4Flow, dir: Direction, len: uint32)
    requires Linked(m) && At(m, cpu, Idle)
    ensures var m' := Solo(m, cpu, tuple, dir, len);
            Linked(m') && m'.cpus == m.cpus && View(m') == Record(View(m), tuple, dir, len)
  {
    hide Next, Record;
    if Normalized(tuple, dir) in m.live {
      SoloHit(m, cpu, tuple, dir, len);
    } else {
      SoloMiss(m, cpu, tuple, dir, len);
    }
  }

  lemma SoloHit(m: Machine, cpu: nat, tuple: V4Flow, dir: Direction, len: uint32)
    requires Linked(m) && At(m, cpu, Idle) && Normalized(tuple, dir) in m.live
    ensures var m' := Solo(m, cpu, tuple, dir, len);
            Linked(m') && m'.cpus == m.cpus && View(m') == Record(View(m), tuple, dir, len)
  {
    hide Bump, AddStats, Hit, Normalized;
    var key := Normalized(tuple, dir);
    var i := m.live[key];
    var was := m.cells[i].stats;
    var m' := Solo(m, cpu, tuple, dir, len);
    BumpTwice(was, dir, len);
    assert m'.cells == m.cells[i := Cell(key, AddStats(was, Hit(dir, len)))];
    assert m'.live == m.live;
  }

  lemma BumpTwice(s: FlowStats, dir: Direction, len: uint32)
    ensures Bump(Bump(s, ByteCounter(dir), len), PacketCounter(dir), 1) == AddStats(s, Hit(dir, len))
  {}

  lemma SoloMiss(m: Machine, cpu: nat, tuple: V4Flow, dir: Direction, len: uint32)
    requires Linked(m) && At(m, cpu, Idle) && Normalized(tuple, dir) !in m.live
    ensures var m' := Solo(m, cpu, tuple, dir, len);
            Linked(m') && m'.cpus == m.cpus && View(m') == Record(View(m), tuple, dir, len)
  {
    hide AddStats, Hit, Normalized, Insert;
    var key := Normalized(tuple, dir);
    LinkedInsert(m, key, dir, len);
    InsertView(m, key, dir, len);
    SoloMissIsInsert(m, cpu, tuple, dir, len);
  }

  lemma SoloMissIsInsert(m: Machine, cpu: nat, tuple: V4Flow, dir: Direction, len: uint32)
    requires At(m, cpu, Idle) && Normalized(tuple, dir) !in m.live
    ensures Solo(m, cpu, tuple, dir, len) == Insert(m, Normalized(tuple, dir), dir, len)
  {
    hide Hit, Normalized, AddTo;
    var key := Normalized(tuple, dir);
    var m1 := Next(m, Arrive(cpu, tuple, dir, len));
    assert m1 == SetPc(m, cpu, Missed(key, dir, len));
    var m2 := Next(m1, Advance(cpu));
    assert m2.cpus == m.cpus[cpu := Missed(key, dir, len)][cpu := Idle] == m.cpus;
  }

  lemma InsertView(m: Machine, key: V4Flow, dir: Direction, len: uint32)
    requires Linked(m) && key !in m.live
    ensures var m' := Insert(m, key, dir, len);
            && Linked(m')
            && View(m') == if Rejected(View(m), key) then View(m) else View(m)[key := Hit(dir, len)]
  {
    hide Hit;
    LinkedInsert(m, key, dir, len);
    assert View(m).Keys == m.live.Keys;
    assert |View(m)| == |View(m).Keys| && |m.live| == |m.live.Keys|;
  }
}
