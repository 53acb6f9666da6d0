/** The redo log of log.c as a transition system.

    A step is one begin_op, log_write or end_op, one block write of commit() or of
    recovery, a buffer-cache fill or eviction, or a crash.  A crash may fall between any
    two steps, and drops everything that is not on the disk.  Reads and writes go through
    the buffer cache, whose dirty buffers are pinned. */
module LogMachine {
  import opened Blocks

  const LOGSIZE: nat := 30
  const MAXOPBLOCKS: nat := 10

  type Disk = seq<Block>
  type OpId = nat
  datatype Buf = Buf(data: Block, dirty: bool)

  /** log.start and log.size: the header block and size-1 log blocks. */
  datatype Layout = Layout(start: nat, size: nat)

  datatype Phase =
    | Idle
    | Logging(tail: nat)                      // write_log has copied `tail` blocks
    | Committing                              // before the write_head that commits
    | Installing(tail: nat, recovering: bool) // install_trans has copied `tail` blocks
    | Clearing(recovering: bool)              // before the write_head that erases
    | Finishing                               // commit() is over, log.committing still set
    | Booting                                 // before read_head

  /** The disk, the valid buffers by block number, log.lh.block[0..n] and the committer's position. */
  datatype Store = Store(disk: Disk, cache: map<nat, Buf>, lh: seq<nat>, phase: Phase)

  /** log.outstanding and log.committing; the running operations with the log entries
      each has added, every operation ever begun, and those asleep in begin_op. */
  datatype State = State(m: Store, outstanding: int, committing: bool, active: map<OpId, nat>, used: set<OpId>,
                         waiting: set<OpId>)

  datatype Label =
    | BeginOp(op: OpId)
    | WaitOp(op: OpId)
    | LogWrite(op: OpId, b: nat, data: Block)
    | EndOp(op: OpId)
    | Fill(b: nat)
    | Evict(b: nat)
    | CopyToLog
    | CommitHead
    | InstallOne
    | ClearHead
    | FinishCommit
    | Crash
    | ReadHead

  predicate InLog(p: Layout, b: nat) { p.start <= b < p.start + p.size }

  // ---- the on-disk header ----

  predicate HeaderFits(b: Block) { Word(b, 0) <= LOGSIZE }

  function HeaderList(b: Block): (h: seq<nat>) {
    if HeaderFits(b) then seq(Word(b, 0), i requires 0 <= i < Word(b, 0) => Word(b, i + 1)) else []
  }

  predicate Listable(lh: seq<nat>) {
    |lh| <= LOGSIZE && forall i :: 0 <= i < |lh| ==> lh[i] < TWO32
  }

  function SetEntries(b: Block, lh: seq<nat>): (r: Block)
    requires Listable(lh)
    ensures forall i :: 0 <= i < |lh| ==> Word(r, i + 1) == lh[i]
    ensures Word(r, 0) == Word(b, 0)
  {
    if lh == [] then b
    else SetWord(SetEntries(b, lh[..|lh|-1]), |lh|, lh[|lh|-1])
  }

  /** write_head fills only the first n entries and leaves older ones behind. */
  function SetHeader(b: Block, lh: seq<nat>): (r: Block)
    requires Listable(lh)
    ensures HeaderFits(r) && HeaderList(r) == lh
  {
    var r := SetEntries(SetWord(b, 0, |lh|), lh);
    assert HeaderFits(r) && HeaderList(r) == lh by { HeaderReads(SetWord(b, 0, |lh|), lh); }
    r
  }

  lemma HeaderReads(b: Block, lh: seq<nat>)
    requires Listable(lh) && Word(b, 0) == |lh|
    ensures HeaderFits(SetEntries(b, lh)) && HeaderList(SetEntries(b, lh)) == lh
  {
    hide Word, SetWord, SetEntries;
  }

  // ---- buffer-cache access ----

  /** What a bread of b returns. */
  function Data(m: Store, b: nat): Block {
    if b in m.cache then m.cache[b].data else if b < |m.disk| then m.disk[b] else ZeroBlock()
  }

  function Bread(m: Store, b: nat): Store {
    if b in m.cache then m else m.(cache := m.cache[b := Buf(Data(m, b), false)])
  }

  function Bwrite(m: Store, b: nat, data: Block): Store
    requires b < |m.disk|
  {
    m.(disk := m.disk[b := data], cache := m.cache[b := Buf(data, false)])
  }

  /** One iteration of write_log or install_trans: copy block `from` to `to`, on disk.
      What the bread of `to` brings in is overwritten. */
  function CopyBlock(m: Store, from: nat, to: nat, next: Phase): Store
    requires to < |m.disk|
  {
    Bwrite(Bread(m, from), to, Data(m, from)).(phase := next)
  }

  function WriteHead(p: Layout, m: Store, lh: seq<nat>, next: Phase): Store
    requires p.start < |m.disk| && Listable(lh)
  {
    Bwrite(m, p.start, SetHeader(Data(m, p.start), lh)).(lh := lh, phase := next)
  }

  // ---- steps ----

  function AfterCopy(tail: nat, n: nat): Phase {
    if tail < n then Logging(tail) else Committing
  }

  function AfterInstall(tail: nat, n: nat, recovering: bool): Phase {
    if tail < n then Installing(tail, recovering) else Clearing(recovering)
  }

  /** log_write panics on exactly this condition, even when the block is already logged. */
  predicate TooBig(p: Layout, m: Store) {
    |m.lh| >= LOGSIZE || |m.lh| >= p.size - 1
  }

  predicate LhOnDisk(p: Layout, m: Store) {
    && p.start + p.size <= |m.disk| && |m.lh| < p.size && Listable(m.lh)
    && forall i :: 0 <= i < |m.lh| ==> m.lh[i] < |m.disk|
  }

  /** The tests of begin_op's loop let an operation in. */
  predicate Admits(s: State) {
    !s.committing && |s.m.lh| + (s.outstanding + 1) * MAXOPBLOCKS <= LOGSIZE
  }

  predicate Enabled(p: Layout, s: State, l: Label) {
    match l
    case BeginOp(op) => s.m.phase.Idle? && op !in s.used && op !in s.waiting && Admits(s)
    case WaitOp(op) => !Recovering(s.m.phase) && op !in s.used && op !in s.waiting && !Admits(s)
    case LogWrite(op, b, data) =>
      && s.m.phase.Idle? && op in s.active && b < |s.m.disk| && !InLog(p, b)
      && !TooBig(p, s.m) && s.outstanding >= 1
    case EndOp(op) => s.m.phase.Idle? && op in s.active && !s.committing
    case Fill(b) => b < |s.m.disk|
    case Evict(b) => b in s.m.cache && !s.m.cache[b].dirty
    case CopyToLog => s.m.phase.Logging? && s.m.phase.tail < |s.m.lh| && LhOnDisk(p, s.m)
    case CommitHead => s.m.phase.Committing? && LhOnDisk(p, s.m)
    case InstallOne => s.m.phase.Installing? && s.m.phase.tail < |s.m.lh| && LhOnDisk(p, s.m)
    case ClearHead => s.m.phase.Clearing? && p.start < |s.m.disk|
    case FinishCommit => s.m.phase.Finishing?
    case Crash => true
    case ReadHead => s.m.phase.Booting? && p.start < |s.m.disk| && HeaderFits(Data(s.m, p.start))
  }

  function LoadHead(m: Store, h: seq<nat>): Store {
    m.(lh := h, phase := AfterInstall(0, |h|, true))
  }

  /** The effect of a step on disk, buffers, log list and phase. */
  function Move(p: Layout, s: State, l: Label): Store
    requires Enabled(p, s, l)
  {
    match l
    case BeginOp(op) => s.m
    case WaitOp(op) => s.m
    case LogWrite(op, b, data) =>
      // the caller changed b->data; the block is absorbed or appended, and pinned
      s.m.(cache := s.m.cache[b := Buf(data, true)], lh := if b in s.m.lh then s.m.lh else s.m.lh + [b])
    case EndOp(op) =>
      if s.outstanding != 1 then s.m else s.m.(phase := if |s.m.lh| > 0 then Logging(0) else Finishing)
    case Fill(b) => Bread(s.m, b)
    case Evict(b) => s.m.(cache := s.m.cache - {b})
    case CopyToLog =>
      CopyBlock(s.m, s.m.lh[s.m.phase.tail], p.start + s.m.phase.tail + 1, AfterCopy(s.m.phase.tail + 1, |s.m.lh|))
    case CommitHead => WriteHead(p, s.m, s.m.lh, AfterInstall(0, |s.m.lh|, false))
    case InstallOne =>
      CopyBlock(s.m, p.start + s.m.phase.tail + 1, s.m.lh[s.m.phase.tail],
                AfterInstall(s.m.phase.tail + 1, |s.m.lh|, s.m.phase.recovering))
    case ClearHead => WriteHead(p, s.m, [], if s.m.phase.recovering then Idle else Finishing)
    case FinishCommit => s.m.(phase := Idle)
    case Crash => Store(s.m.disk, map[], [], Booting)
    case ReadHead => LoadHead(Bread(s.m, p.start), HeaderList(Data(s.m, p.start)))
  }

  function Apply(p: Layout, s: State, l: Label): State
    requires Enabled(p, s, l)
  {
    Account(s, l, Move(p, s, l))
  }

  /** The bookkeeping of operations that goes with a step. */
  function Account(s: State, l: Label, m: Store): State {
    match l
    case BeginOp(op) => State(m, s.outstanding + 1, s.committing, s.active[op := 0], s.used + {op}, s.waiting)
    case WaitOp(op) => s.(m := m, waiting := s.waiting + {op})
    case LogWrite(op, b, data) =>
      s.(m := m, active := if b in s.m.lh || op !in s.active then s.active else s.active[op := s.active[op] + 1])
    // wakeup(&log), unless this was the last operation
    case EndOp(op) =>
      State(m, s.outstanding - 1, s.outstanding == 1, s.active - {op}, s.used, if s.outstanding == 1 then s.waiting else {})
    case FinishCommit => s.(m := m, committing := false, waiting := {})
    case Crash => State(m, 0, false, map[], s.used, {})
    case _ => s.(m := m)
  }

  // ---- runs ----

  ghost predicate Valid(p: Layout, s: State, ls: seq<Label>)
    decreases |ls|, 0
  {
    ls == [] || (Valid(p, s, ls[..|ls|-1]) && Enabled(p, Exec(p, s, ls[..|ls|-1]), ls[|ls|-1]))
  }

  ghost function Exec(p: Layout, s: State, ls: seq<Label>): State
    requires Valid(p, s, ls)
    decreases |ls|, 1
  {
    if ls == [] then s
    else Apply(p, Exec(p, s, ls[..|ls|-1]), ls[|ls|-1])
  }

  ghost predicate Distinct(h: seq<nat>) {
    forall i, j :: 0 <= i < j < |h| ==> h[i] != h[j]
  }

  /** Logged block numbers are distinct, on the disk and outside the log region. */
  ghost predicate GoodList(p: Layout, d: Disk, h: seq<nat>) {
    && |h| <= LOGSIZE && |h| < p.size
    && Distinct(h)
    && forall i :: 0 <= i < |h| ==> h[i] < |d| && !InLog(p, h[i])
  }

  /** A disk at power-on, after a clean shutdown or with a transaction still in its log. */
  ghost predicate Initial(p: Layout, s: State) {
    && 1 <= p.size && p.start + p.size <= |s.m.disk| <= TWO32
    && HeaderFits(s.m.disk[p.start]) && GoodList(p, s.m.disk, HeaderList(s.m.disk[p.start]))
    && s == State(Store(s.m.disk, map[], [], Booting), 0, false, map[], {}, {})
  }

  // ---- the specification: what a run must have made durable ----

  datatype Write = Write(op: OpId, b: nat, data: Block)

  /** The writes between two commit points or crashes. */
  datatype Batch = Batch(writes: seq<Write>, durable: bool)

  /** Read off the labels of a run alone, with no reference to disk, cache or header. */
  datatype Ledger = Ledger(batches: seq<Batch>, pending: seq<Write>)

  function Note(g: Ledger, l: Label): Ledger {
    match l
    case LogWrite(op, b, data) => g.(pending := g.pending + [Write(op, b, data)])
    case CommitHead => Ledger(g.batches + [Batch(g.pending, true)], [])
    case Crash => Ledger(g.batches + [Batch(g.pending, false)], [])
    case _ => g
  }

  function Notes(ls: seq<Label>): Ledger {
    if ls == [] then Ledger([], []) else Note(Notes(ls[..|ls|-1]), ls[|ls|-1])
  }

  type Home = map<nat, Block>

  function ApplyWrites(h: Home, ws: seq<Write>): Home {
    if ws == [] then h
    else ApplyWrites(h, ws[..|ws|-1])[ws[|ws|-1].b := ws[|ws|-1].data]
  }

  /** The home blocks after the committed batches, in order; batches cut off by a crash leave no trace. */
  function ApplyBatches(h: Home, bs: seq<Batch>): Home {
    if bs == [] then h
    else
      var rest := ApplyBatches(h, bs[..|bs|-1]);
      if bs[|bs|-1].durable then ApplyWrites(rest, bs[|bs|-1].writes) else rest
  }

  predicate Holds(ws: seq<Write>, op: OpId) {
    exists i :: 0 <= i < |ws| && ws[i].op == op
  }

  /** No operation has writes in two batches, or in a batch and the pending writes. */
  ghost predicate WholeOps(g: Ledger) {
    && (forall i, j, op :: 0 <= i < j < |g.batches| && Holds(g.batches[i].writes, op) ==> !Holds(g.batches[j].writes, op))
    && (forall i, op :: 0 <= i < |g.batches| && Holds(g.batches[i].writes, op) ==> !Holds(g.pending, op))
  }

  // ---- what the disk and the memory stand for ----

  /** The position of b in a list of logged blocks, or its length. */
  function Find(h: seq<nat>, b: nat): (i: nat)
    ensures i <= |h| && (i < |h| ==> h[i] == b) && (i < |h| <==> b in h)
  {
    if h == [] then 0 else if h[0] == b then 0 else 1 + Find(h[1..], b)
  }

  function At(d: Disk, b: nat): Block {
    if b < |d| then d[b] else ZeroBlock()
  }

  /** The i-th block of the log's data area. */
  function LogBlock(p: Layout, d: Disk, i: nat): Block {
    At(d, p.start + i + 1)
  }

  /** Block b of the disk once the logged blocks of header h are copied home. */
  function Redo(p: Layout, d: Disk, h: seq<nat>, b: nat): Block {
    if b in h then LogBlock(p, d, Find(h, b)) else At(d, b)
  }

  /** The home blocks a crash at this moment would leave after recovery. */
  function Durable(p: Layout, d: Disk): Home {
    if p.start < |d| then map b | 0 <= b < |d| && !InLog(p, b) :: Redo(p, d, HeaderList(d[p.start]), b)
    else map[]
  }

  /** The home blocks as running system calls see them. */
  function View(p: Layout, m: Store): Home {
    map b | 0 <= b < |m.disk| && !InLog(p, b) :: Data(m, b)
  }

  predicate Recovering(ph: Phase) {
    ph.Booting? || (ph.Installing? && ph.recovering) || (ph.Clearing? && ph.recovering)
  }
}
